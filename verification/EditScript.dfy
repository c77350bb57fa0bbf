/** Operation lists: what applying one means, and why none that turns `a` into `b` is
    cheaper than the distance in the edit graph. */
module EditScript {
  import opened EditGraph

  datatype OpKind = Delete | Insert

  /** One consolidated operation: lines i1..i2 of `a` go, `content` (lines of `b` starting
      at j1) comes in their place. */
  datatype Operation<T> = Operation(kind: OpKind, content: seq<T>, i1: int, i2: int, j1: int)

  /** The operations are ordered, do not overlap and end by line x of a list of m lines. */
  ghost predicate Reaches<T>(ops: seq<Operation<T>>, x: int, m: int)
    decreases |ops|
  {
    if ops == [] then 0 <= x <= m
    else
      var last := ops[|ops| - 1];
      && last.i1 <= last.i2 <= x <= m
      && Reaches(ops[..|ops| - 1], last.i1, m)
  }

  lemma {:induction false} ReachesInside<T>(ops: seq<Operation<T>>, x: int, m: int)
    requires Reaches(ops, x, m)
    ensures 0 <= x <= m
    decreases |ops|
  {
    if ops != [] {
      ReachesInside(ops[..|ops| - 1], ops[|ops| - 1].i1, m);
    }
  }

  /** The first x lines of `a` with the operations applied. */
  ghost function Patched<T>(a: seq<T>, ops: seq<Operation<T>>, x: int): seq<T>
    requires Reaches(ops, x, |a|)
    decreases |ops|
  {
    if ops == [] then a[..x]
    else
      var last := ops[|ops| - 1];
      ReachesInside(ops[..|ops| - 1], last.i1, |a|);
      Patched(a, ops[..|ops| - 1], last.i1) + last.content + a[last.i2..x]
  }

  /** Lines deleted plus lines inserted. */
  ghost function Cost<T>(ops: seq<Operation<T>>): int {
    if ops == [] then 0
    else
      var last := ops[|ops| - 1];
      Cost(ops[..|ops| - 1]) + (last.i2 - last.i1) + |last.content|
  }

  lemma {:induction false} PatchedExtend<T>(a: seq<T>, ops: seq<Operation<T>>, x: int)
    requires Reaches(ops, x, |a|) && 0 <= x < |a|
    ensures Reaches(ops, x + 1, |a|)
    ensures Patched(a, ops, x + 1) == Patched(a, ops, x) + [a[x]]
  {
    if ops != [] {
      ReachesInside(ops[..|ops| - 1], ops[|ops| - 1].i1, |a|);
    }
  }

  lemma {:induction false} PatchedAppend<T>(a: seq<T>, ops: seq<Operation<T>>, op: Operation<T>)
    requires Reaches(ops, op.i1, |a|) && op.i1 <= op.i2 <= |a|
    ensures Reaches(ops + [op], op.i2, |a|)
    ensures Patched(a, ops + [op], op.i2) == Patched(a, ops, op.i1) + op.content
    ensures Cost(ops + [op]) == Cost(ops) + (op.i2 - op.i1) + |op.content|
  {
    assert (ops + [op])[..|ops|] == ops;
    ReachesInside(ops, op.i1, |a|);
  }

  /** Deleting del lines and inserting ins lines raises the distance by at most del + ins. */
  lemma {:induction false} EditsAreLipschitz<T>(a: seq<T>, b: seq<T>, x: nat, y: nat, del: nat, ins: nat)
    ensures Dist(a, b, x + del, y + ins) <= Dist(a, b, x, y) + del + ins
    decreases del + ins
  {
    if del > 0 {
      EditsAreLipschitz(a, b, x, y, del - 1, ins);
      NeighboursDifferByOne(a, b, x + del - 1, y + ins);
    } else if ins > 0 {
      EditsAreLipschitz(a, b, x, y, del, ins - 1);
      NeighboursDifferByOne(a, b, x + del, y + ins - 1);
    }
  }

  lemma {:induction false} EqualRunIsFree<T>(a: seq<T>, b: seq<T>, x: nat, y: nat, n: nat)
    requires x + n <= |a| && y + n <= |b| && a[x..x + n] == b[y..y + n]
    ensures Dist(a, b, x + n, y + n) == Dist(a, b, x, y)
    decreases n
  {
    if n > 0 {
      assert a[x..x + n - 1] == a[x..x + n][..n - 1];
      assert b[y..y + n - 1] == b[y..y + n][..n - 1];
      EqualRunIsFree(a, b, x, y, n - 1);
      assert a[x + n - 1] == a[x..x + n][n - 1] == b[y..y + n][n - 1] == b[y + n - 1];
      DiagonalStep(a, b, x + n - 1, y + n - 1);
    }
  }

  /** No operation list that produces a prefix of `b` beats the distance to that point. */
  lemma {:induction false} NoCheaperPrefix<T>(a: seq<T>, b: seq<T>, ops: seq<Operation<T>>, x: int)
    requires Reaches(ops, x, |a|)
    requires |Patched(a, ops, x)| <= |b| && Patched(a, ops, x) == b[..|Patched(a, ops, x)|]
    ensures 0 <= x
    ensures Cost(ops) >= Dist(a, b, x, |Patched(a, ops, x)|)
    decreases |ops|
  {
    if ops == [] {
      assert a[0..x] == a[..x] == b[..x] == b[0..x];
      EqualRunIsFree(a, b, 0, 0, x);
    } else {
      var last, init := ops[|ops| - 1], ops[..|ops| - 1];
      var before, p := Patched(a, init, last.i1), Patched(a, ops, x);
      var y, ins := |before|, |last.content|;
      assert before == p[..y] == b[..y];
      NoCheaperPrefix(a, b, init, last.i1);
      EditsAreLipschitz(a, b, last.i1, y, last.i2 - last.i1, ins);
      assert a[last.i2..x] == p[y + ins..] == b[y + ins..|p|];
      EqualRunIsFree(a, b, last.i2, y + ins, x - last.i2);
    }
  }

  /** Minimality: every operation list turning `a` into `b` costs at least their distance. */
  lemma {:induction false} NoCheaperScript<T>(a: seq<T>, b: seq<T>, ops: seq<Operation<T>>)
    requires Reaches(ops, |a|, |a|) && Patched(a, ops, |a|) == b
    ensures Cost(ops) >= Dist(a, b, |a|, |b|)
  {
    NoCheaperPrefix(a, b, ops, |a|);
  }

  // ---- The distance and the longest common subsequence

  ghost predicate IsSubsequence<T>(c: seq<T>, s: seq<T>)
    decreases |s|
  {
    if c == [] then true
    else if s == [] then false
    else
      || (c[|c| - 1] == s[|s| - 1] && IsSubsequence(c[..|c| - 1], s[..|s| - 1]))
      || IsSubsequence(c, s[..|s| - 1])
  }

  lemma {:induction false} CommonSubsequenceBound<T>(a: seq<T>, b: seq<T>, c: seq<T>, x: nat, y: nat)
    requires x <= |a| && y <= |b|
    requires IsSubsequence(c, a[..x]) && IsSubsequence(c, b[..y])
    ensures 2 * |c| + Dist(a, b, x, y) <= x + y
    decreases x + y
  {
    if c == [] {
      DistBounds(a, b, x, y);
    } else {
      assert a[..x][..x - 1] == a[..x - 1] && b[..y][..y - 1] == b[..y - 1];
      if IsSubsequence(c, a[..x - 1]) {
        CommonSubsequenceBound(a, b, c, x - 1, y);
        NeighboursDifferByOne(a, b, x - 1, y);
      } else if IsSubsequence(c, b[..y - 1]) {
        CommonSubsequenceBound(a, b, c, x, y - 1);
        NeighboursDifferByOne(a, b, x, y - 1);
      } else {
        CommonSubsequenceBound(a, b, c[..|c| - 1], x - 1, y - 1);
      }
    }
  }

  lemma {:induction false} SubsequenceOfLonger<T>(c: seq<T>, s: seq<T>, n: nat)
    requires 0 < n <= |s| && IsSubsequence(c, s[..n - 1])
    ensures IsSubsequence(c, s[..n])
    ensures IsSubsequence(c + [s[n - 1]], s[..n])
  {
    assert s[..n][..n - 1] == s[..n - 1];
    assert (c + [s[n - 1]])[..|c|] == c;
  }

  lemma {:induction false} CommonSubsequenceExists<T>(a: seq<T>, b: seq<T>, x: nat, y: nat) returns (c: seq<T>)
    requires x <= |a| && y <= |b|
    ensures IsSubsequence(c, a[..x]) && IsSubsequence(c, b[..y])
    ensures 2 * |c| + Dist(a, b, x, y) == x + y
    decreases x + y
  {
    if x == 0 || y == 0 {
      c := [];
    } else if Diagonal(a, b, x - 1, y - 1) {
      c := CommonSubsequenceExists(a, b, x - 1, y - 1);
      SubsequenceOfLonger(c, a, x);
      SubsequenceOfLonger(c, b, y);
      c := c + [a[x - 1]];
    } else if Dist(a, b, x - 1, y) < Dist(a, b, x, y - 1) {
      c := CommonSubsequenceExists(a, b, x - 1, y);
      SubsequenceOfLonger(c, a, x);
    } else {
      c := CommonSubsequenceExists(a, b, x, y - 1);
      SubsequenceOfLonger(c, b, y);
    }
  }

  ghost predicate CommonSubsequence<T>(c: seq<T>, a: seq<T>, b: seq<T>) {
    IsSubsequence(c, a) && IsSubsequence(c, b)
  }

  /** The distance of two lists is their total length minus twice the length of a longest
      common subsequence. */
  lemma {:induction false} DistanceFromLongestCommonSubsequence<T>(a: seq<T>, b: seq<T>) returns (c: seq<T>)
    ensures CommonSubsequence(c, a, b)
    ensures forall c' :: CommonSubsequence(c', a, b) ==> |c'| <= |c|
    ensures Dist(a, b, |a|, |b|) == |a| + |b| - 2 * |c|
  {
    assert a[..|a|] == a && b[..|b|] == b;
    c := CommonSubsequenceExists(a, b, |a|, |b|);
    forall c' | CommonSubsequence(c', a, b)
      ensures |c'| <= |c|
    {
      CommonSubsequenceBound(a, b, c', |a|, |b|);
    }
  }
}
