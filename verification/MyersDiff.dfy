/** The search, the backtracking and the consolidation of pkg/lsp/diff.go, in the
    source's imperative form. */
module MyersDiff {
  import opened Options
  import opened EditGraph
  import opened EditScript

  /** Array V holds, at diagonal k, the frontier of round d. */
  ghost predicate Holds<T>(a: seq<T>, b: seq<T>, d: int, k: int, V: seq<int>) {
    var offset := |a| + |b|;
    0 <= k + offset < |V| && Frontier(a, b, d, k, V[k + offset])
  }

  /** Round d has been done for the diagonals below `end`. */
  ghost predicate RoundDone<T>(a: seq<T>, b: seq<T>, d: int, end: int, V: seq<int>) {
    forall k :: -d <= k < end && (k + d) % 2 == 0 ==> Holds(a, b, d, k, V)
  }

  ghost predicate AllDone<T>(a: seq<T>, b: seq<T>, d: int, V: seq<int>) {
    RoundDone(a, b, d, d + 1, V)
  }

  /** The snapshots of the rounds below d. */
  ghost predicate Snapshots<T>(a: seq<T>, b: seq<T>, d: int, trace: seq<seq<int>>) {
    && |trace| == |a| + |b| + 1
    && 0 <= d <= |trace|
    && (forall i :: 0 <= i < d ==> |trace[i]| == 2 * (|a| + |b|) + 1)
    && (forall i :: d <= i < |trace| ==> trace[i] == [])
    && (forall i :: 0 < i < d ==> AllDone(a, b, i - 1, trace[i]))
  }

  /** The trace has one snapshot for each round up to the distance and none after; the
      snapshot of round d still holds what round d-1 left on the diagonals of its parity. */
  ghost predicate SearchTrace<T>(a: seq<T>, b: seq<T>, trace: seq<seq<int>>) {
    Snapshots(a, b, Dist(a, b, |a|, |b|) + 1, trace)
  }

  /** What round d knows when it comes to diagonal k. */
  ghost predicate MidRound<T>(a: seq<T>, b: seq<T>, d: int, k: int, V: seq<int>) {
    && |V| == 2 * (|a| + |b|) + 1
    && (if d == 0 then |V| > 1 && (k == 0 ==> V[|a| + |b| + 1] == 0) else AllDone(a, b, d - 1, V))
    && RoundDone(a, b, d, k, V)
  }

  /** Storing the frontier of diagonal k moves the round on and leaves the other parity,
      which the round still reads, alone. */
  lemma {:induction false} StoreFrontier<T>(a: seq<T>, b: seq<T>, d: int, k: int, x: int, V: seq<int>)
    requires |a| + |b| > 0 && 0 <= d <= |a| + |b|
    requires -d <= k <= d && (k + d) % 2 == 0
    requires MidRound(a, b, d, k, V) && Frontier(a, b, d, k, x)
    ensures MidRound(a, b, d, k + 2, V[k + |a| + |b| := x])
    ensures Holds(a, b, d, k, V[k + |a| + |b| := x])
  {
    var V' := V[k + |a| + |b| := x];
    forall j | -d <= j < k + 2 && (j + d) % 2 == 0
      ensures Holds(a, b, d, j, V')
    {
      assert j < k ==> Holds(a, b, d, j, V);
    }
    if d > 0 {
      var e := d - 1;
      forall j | -e <= j < e + 1 && (j + e) % 2 == 0
        ensures Holds(a, b, e, j, V')
      {
        assert Holds(a, b, e, j, V);
      }
    }
  }

  /** The choice the search and the backtracking both make, read from the array. */
  function ChooseStart(V: seq<int>, offset: int, d: int, k: int): int
    requires 0 <= d && -d <= k <= d && d < offset + 1 && |V| == 2 * offset + 1 && offset > 0
  {
    if k == -d || (k != d && V[k - 1 + offset] < V[k + 1 + offset]) then V[k + 1 + offset]
    else V[k - 1 + offset] + 1
  }

  lemma {:induction false} ChosenStartReaches<T>(a: seq<T>, b: seq<T>, d: int, k: int, V: seq<int>)
    requires |a| + |b| > 0 && 0 <= d <= |a| + |b|
    requires -d <= k <= d && (k + d) % 2 == 0
    requires |V| == 2 * (|a| + |b|) + 1
    requires if d == 0 then V[|a| + |b| + 1] == 0 else AllDone(a, b, d - 1, V)
    ensures var x := ChooseStart(V, |a| + |b|, d, k);
            0 <= x && 0 <= x - k && Frontier(a, b, d, k, Slide(a, b, k, x))
    ensures d > 0 && k != -d ==> Holds(a, b, d - 1, k - 1, V)
    ensures d > 0 && k != d ==> Holds(a, b, d - 1, k + 1, V)
  {
    var offset := |a| + |b|;
    if d == 0 {
      FirstRound(a, b);
    } else {
      assert k != -d ==> Holds(a, b, d - 1, k - 1, V);
      assert k != d ==> Holds(a, b, d - 1, k + 1, V);
      var left := if k == -d then 0 else V[k - 1 + offset];
      var right := if k == d then 0 else V[k + 1 + offset];
      GreedyStep(a, b, d, k, left, right);
    }
  }

  /** If a whole round leaves the far corner unreached, the distance is larger and the
      next round may start. */
  lemma {:induction false} RoundFailed<T>(a: seq<T>, b: seq<T>, d: int, k: int, V: seq<int>)
    requires |a| + |b| > 0 && 0 <= d <= Dist(a, b, |a|, |b|)
    requires d < k && (k + d) % 2 == 0 && MidRound(a, b, d, k, V)
    requires -d <= |a| - |b| < k && (|a| - |b| + d) % 2 == 0 ==> V[2 * |a|] != |a|
    ensures d < Dist(a, b, |a|, |b|)
    ensures AllDone(a, b, d, V)
    ensures MidRound(a, b, d + 1, -(d + 1), V)
  {
    DistBounds(a, b, |a|, |b|);
    if Dist(a, b, |a|, |b|) == d {
      var c := |a| - |b|;
      assert Holds(a, b, d, c, V);
      CornerIsFrontier(a, b);
      FrontierIsUnique(a, b, d, c, |a|, V[2 * |a|]);
    }
  }

  /** One turn of the middle loop of shortestEditSequence: pick the better neighbour, follow
      matching lines and store where they end. */
  method Furthest<T(==)>(a: seq<T>, b: seq<T>, V: array<int>, offset: int, d: int, k: int) returns (x: int, y: int)
    requires |a| + |b| > 0 && 0 <= d <= offset == |a| + |b|
    requires -d <= k <= d && (k + d) % 2 == 0
    requires MidRound(a, b, d, k, V[..])
    modifies V
    ensures Frontier(a, b, d, k, x) && y == x - k
    ensures V[..] == old(V[..])[k + offset := x] && MidRound(a, b, d, k + 2, V[..])
  {
    ChosenStartReaches(a, b, d, k, V[..]);
    if k == -d || (k != d && V[k - 1 + offset] < V[k + 1 + offset]) {
      x := V[k + 1 + offset];
    } else {
      x := V[k - 1 + offset] + 1;
    }
    ghost var x0 := x;
    y := x - k;
    while x < |a| && y < |b| && a[x] == b[y]
      invariant 0 <= x && 0 <= y == x - k
      invariant Slide(a, b, k, x) == Slide(a, b, k, x0)
      decreases |a| - x
    {
      x := x + 1;
      y := y + 1;
    }
    StoreFrontier(a, b, d, k, x, V[..]);
    V[k + offset] := x;
    assert V[..] == old(V[..])[k + offset := x];
  }

  lemma {:induction false} SnapshotTaken<T>(a: seq<T>, b: seq<T>, d: int, trace: seq<seq<int>>, V: seq<int>)
    requires 0 <= d <= |a| + |b| && Snapshots(a, b, d, trace)
    requires |V| == 2 * (|a| + |b|) + 1 && (d > 0 ==> AllDone(a, b, d - 1, V))
    ensures Snapshots(a, b, d + 1, trace[d := V])
  {
  }

  /** shortestEditSequence: the greedy search over the array V.  It returns from inside the
      loops, in the round that equals the distance. */
  method ShortestEditSequence<T(==)>(a: seq<T>, b: seq<T>) returns (trace: seq<seq<int>>, offset: int)
    requires |a| + |b| > 0
    ensures offset == |a| + |b|
    ensures SearchTrace(a, b, trace)
  {
    var M, N := |a|, |b|;
    var V := new int[2 * (N + M) + 1](_ => 0);
    offset := N + M;
    trace := seq(N + M + 1, _ => []);
    DistBounds(a, b, M, N);
    var d := 0;
    while d <= N + M
      invariant 0 <= d <= N + M + 1 && d <= Dist(a, b, M, N)
      invariant Snapshots(a, b, d, trace)
      invariant d <= N + M ==> MidRound(a, b, d, -d, V[..])
    {
      var k := -d;
      while k <= d
        invariant -d <= k <= d + 2 && (k + d) % 2 == 0
        invariant MidRound(a, b, d, k, V[..])
        invariant -d <= M - N < k && (M - N + d) % 2 == 0 ==> V[2 * M] != M
      {
        var x, y := Furthest(a, b, V, offset, d, k);
        if x == M && y == N {
          SnapshotTaken(a, b, d, trace, V[..]);
          trace := trace[d := V[..]];
          return;
        }
        k := k + 2;
      }
      SnapshotTaken(a, b, d, trace, V[..]);
      trace := trace[d := V[..]];
      RoundFailed(a, b, d, k, V[..]);
      d := d + 1;
    }
    assert false;
  }

  // ---- backtrack

  /** (x, y) is where round d stops on its diagonal, inside the box. */
  ghost predicate SnakeEnd<T>(a: seq<T>, b: seq<T>, d: int, x: int, y: int) {
    0 <= x <= |a| && 0 <= y <= |b| && Frontier(a, b, d, x - y, x)
  }

  /** The snake from (px, py) to (x, y): one step right or down, then matching lines. */
  ghost predicate Snake<T>(a: seq<T>, b: seq<T>, px: int, py: int, x: int, y: int) {
    || (px - py == x - y + 1 && Slide(a, b, x - y, px) == x)
    || (px - py == x - y - 1 && Slide(a, b, x - y, px + 1) == x)
  }

  /** The first snake starts at the origin: matching lines only, or one block deleted, or
      one block inserted. */
  ghost predicate FirstSnake<T>(a: seq<T>, b: seq<T>, d: int, x: int, y: int) {
    || (d == 0 && x == y && Slide(a, b, 0, 0) == x)
    || (d > 0 && x == 0 && y == d)
    || (d > 0 && y == 0 && x == d)
  }

  /** Rounds `from`..D have snakes that lead to the far corner. */
  ghost predicate SnakeChain<T>(a: seq<T>, b: seq<T>, snakes: seq<seq<int>>, from: int) {
    var D := Dist(a, b, |a|, |b|);
    && 0 <= from <= D < |snakes|
    && (forall i :: from <= i <= D ==> |snakes[i]| == 2 && SnakeEnd(a, b, i, snakes[i][0], snakes[i][1]))
    && (forall i :: D < i < |snakes| ==> snakes[i] == [])
    && snakes[D] == [|a|, |b|]
    && (forall i :: from < i <= D ==>
          Snake(a, b, snakes[i - 1][0], snakes[i - 1][1], snakes[i][0], snakes[i][1]))
  }

  /** The whole answer of backtrack: nothing below `from`, whose snake starts at the origin. */
  ghost predicate Snakes<T>(a: seq<T>, b: seq<T>, snakes: seq<seq<int>>, from: int) {
    && SnakeChain(a, b, snakes, from)
    && (forall i :: 0 <= i < from ==> snakes[i] == [])
    && FirstSnake(a, b, from, snakes[from][0], snakes[from][1])
  }

  /** Undoing the choice that round d made: the point it came from. */
  lemma {:induction false} BacktrackStep<T>(a: seq<T>, b: seq<T>, d: int, x: int, y: int, V: seq<int>)
    requires |a| + |b| > 0 && 0 < d <= |a| + |b|
    requires |V| == 2 * (|a| + |b|) + 1 && AllDone(a, b, d - 1, V)
    requires SnakeEnd(a, b, d, x, y)
    ensures -d <= x - y <= d && (x - y + d) % 2 == 0
    ensures var k, offset := x - y, |a| + |b|;
            var kPrev := if k == -d || (k != d && V[k - 1 + offset] < V[k + 1 + offset]) then k + 1 else k - 1;
            && 0 <= kPrev + offset < |V|
            && SnakeEnd(a, b, d - 1, V[kPrev + offset], V[kPrev + offset] - kPrev)
            && Snake(a, b, V[kPrev + offset], V[kPrev + offset] - kPrev, x, y)
  {
    DistBounds(a, b, x, y);
    var k := x - y;
    ChosenStartReaches(a, b, d, k, V);
    var x0 := ChooseStart(V, |a| + |b|, d, k);
    FrontierIsUnique(a, b, d, k, x, Slide(a, b, k, x0));
    SlideEnds(a, b, k, x0);
  }

  /** Where the loop stops, the rest of the path is matching lines or a single block. */
  lemma {:induction false} StopsAtFirstSnake<T>(a: seq<T>, b: seq<T>, d: int, x: int, y: int)
    requires 0 <= d && SnakeEnd(a, b, d, x, y)
    requires x == 0 || y == 0 || d == 0
    ensures FirstSnake(a, b, d, x, y)
  {
    DistBounds(a, b, x, y);
    FirstRound(a, b);
    if d == 0 {
      FrontierIsUnique(a, b, 0, 0, x, Slide(a, b, 0, 0));
    }
  }

  lemma {:induction false} ChainStarts<T>(a: seq<T>, b: seq<T>, snakes: seq<seq<int>>)
    requires |snakes| == |a| + |b| + 1 && forall i :: 0 <= i < |snakes| ==> snakes[i] == []
    ensures var D := Dist(a, b, |a|, |b|);
            0 <= D < |snakes| && SnakeEnd(a, b, D, |a|, |b|) && SnakeChain(a, b, snakes[D := [|a|, |b|]], D)
  {
    CornerIsFrontier(a, b);
    DistBounds(a, b, |a|, |b|);
    var D := Dist(a, b, |a|, |b|);
    ChainOfOne(a, b, snakes, D);
  }

  lemma {:induction false} ChainOfOne<T>(a: seq<T>, b: seq<T>, snakes: seq<seq<int>>, D: int)
    requires 0 <= D < |snakes| && (forall i :: D < i < |snakes| ==> snakes[i] == [])
    requires D == Dist(a, b, |a|, |b|) && SnakeEnd(a, b, D, |a|, |b|)
    ensures SnakeChain(a, b, snakes[D := [|a|, |b|]], D)
  {
  }

  lemma {:induction false} ChainGrows<T>(a: seq<T>, b: seq<T>, snakes: seq<seq<int>>, d: int, x: int, y: int,
        px: int, py: int)
    requires 0 < d < |snakes| && snakes[d] == [x, y] && SnakeChain(a, b, snakes, d)
    requires SnakeEnd(a, b, d - 1, px, py) && Snake(a, b, px, py, x, y)
    ensures SnakeChain(a, b, snakes[d - 1 := [px, py]], d - 1)
  {
  }

  /** What backtrack's loop knows in round d: before the last round of the search it only
      skips; from there on it holds the end of the chain. */
  ghost predicate Backtracking<T>(a: seq<T>, b: seq<T>, snakes: seq<seq<int>>, d: int, x: int, y: int) {
    && |snakes| == |a| + |b| + 1
    && 0 <= d < |snakes|
    && (forall i :: 0 <= i <= d ==> snakes[i] == [])
    && if d > Dist(a, b, |a|, |b|) then
         x == |a| && y == |b| && forall i :: 0 <= i < |snakes| ==> snakes[i] == []
       else
         SnakeEnd(a, b, d, x, y) && SnakeChain(a, b, snakes[d := [x, y]], d)
  }

  lemma {:induction false} BacktrackGrows<T>(a: seq<T>, b: seq<T>, snakes: seq<seq<int>>, d: int, x: int, y: int,
        px: int, py: int)
    requires 0 < d <= Dist(a, b, |a|, |b|) && Backtracking(a, b, snakes, d, x, y)
    requires SnakeEnd(a, b, d - 1, px, py) && Snake(a, b, px, py, x, y)
    ensures Backtracking(a, b, snakes[d := [x, y]], d - 1, px, py)
  {
    ChainGrows(a, b, snakes[d := [x, y]], d, x, y, px, py);
  }

  /** Undoing one round: reads the snapshot to find the point round d came from. */
  method Previous<T(==)>(V: seq<int>, offset: int, d: int, x: int, y: int, ghost a: seq<T>, ghost b: seq<T>)
    returns (px: int, py: int)
    requires |a| + |b| > 0 && 0 < d <= offset == |a| + |b|
    requires |V| == 2 * offset + 1 && AllDone(a, b, d - 1, V)
    requires SnakeEnd(a, b, d, x, y)
    ensures SnakeEnd(a, b, d - 1, px, py) && Snake(a, b, px, py, x, y)
  {
    BacktrackStep(a, b, d, x, y, V);
    var k := x - y;
    var kPrev: int;
    if k == -d || (k != d && V[k - 1 + offset] < V[k + 1 + offset]) {
      kPrev := k + 1;
    } else {
      kPrev := k - 1;
    }
    px := V[kPrev + offset];
    py := px - kPrev;
  }

  /** backtrack: from the far corner down the rounds, following the choices the search made.
      Every point it visits is inside the grid. */
  method Backtrack<T(==)>(trace: seq<seq<int>>, x0: int, y0: int, offset: int,
                          ghost a: seq<T>, ghost b: seq<T>)
    returns (snakes: seq<seq<int>>, ghost from: int)
    requires |a| + |b| > 0 && x0 == |a| && y0 == |b| && offset == |a| + |b|
    requires SearchTrace(a, b, trace)
    ensures |snakes| == |trace|
    ensures Snakes(a, b, snakes, from)
  {
    ghost var D := Dist(a, b, |a|, |b|);
    var x, y := x0, y0;
    snakes := seq(|trace|, _ => []);
    ChainStarts(a, b, snakes);
    var d := |trace| - 1;
    while x > 0 && y > 0 && d > 0
      invariant Backtracking(a, b, snakes, d, x, y)
      decreases d
    {
      var V := trace[d];
      if |V| == 0 {
        ChainStarts(a, b, snakes);
        d := d - 1;
        continue;
      }
      var px, py := Previous(V, offset, d, x, y, a, b);
      BacktrackGrows(a, b, snakes, d, x, y, px, py);
      snakes := snakes[d := [x, y]];
      x, y := px, py;
      d := d - 1;
    }
    from := d;
    DistBounds(a, b, |a|, |b|);
    StopsAtFirstSnake(a, b, d, x, y);
    if x < 0 || y < 0 {
      assert false;
    }
    snakes := snakes[d := [x, y]];
  }

  // ---- operations

  /** A deletion removes at least one line and a pure insertion adds at least one of b's. */
  ghost predicate Tidy<T>(op: Operation<T>, b: seq<T>) {
    match op.kind
    case Delete => op.content == [] && op.i1 < op.i2
    case Insert =>
      && op.i1 == op.i2 && op.content != []
      && 0 <= op.j1 && op.j1 + |op.content| <= |b| && op.content == b[op.j1..op.j1 + |op.content|]
  }

  /** The operations so far turn the first x lines of `a` into the first y lines of `b`,
      for c lines deleted or inserted. */
  ghost predicate Progress<T>(a: seq<T>, b: seq<T>, ops: seq<Operation<T>>, x: int, y: int, c: int) {
    && 0 <= x <= |a| && 0 <= y <= |b|
    && Reaches(ops, x, |a|) && Patched(a, ops, x) == b[..y]
    && Cost(ops) == c && |ops| <= c
    && forall op :: op in ops ==> Tidy(op, b)
  }

  lemma {:induction false} ProgressEqualLine<T>(a: seq<T>, b: seq<T>, ops: seq<Operation<T>>, x: int, y: int, c: int)
    requires Progress(a, b, ops, x, y, c) && Diagonal(a, b, x, y)
    ensures Progress(a, b, ops, x + 1, y + 1, c)
  {
    PatchedExtend(a, ops, x);
  }

  lemma {:induction false} ProgressOperation<T>(a: seq<T>, b: seq<T>, ops: seq<Operation<T>>, op: Operation<T>,
        y: int, y': int, c: int)
    requires Progress(a, b, ops, op.i1, y, c) && Tidy(op, b)
    requires op.i2 <= |a| && y' == y + |op.content| <= |b| && op.content == b[y..y']
    ensures Progress(a, b, ops + [op], op.i2, y', c + (op.i2 - op.i1) + |op.content|)
  {
    PatchedAppend(a, ops, op);
  }

  function Finished<T>(op: Operation<T>, i2: int, j2: int, b: seq<T>): Operation<T>
    requires op.kind == Insert ==> 0 <= op.j1 <= j2 <= |b|
  {
    var op := op.(i2 := i2);
    if op.kind == Insert then op.(content := b[op.j1..j2]) else op
  }

  /** The closure `add` of operations: completes a pending operation and stores it. */
  method Add<T>(solution: array<Operation<T>>, i: int, op: Option<Operation<T>>, i2: int, j2: int, b: seq<T>)
    returns (i': int)
    requires op.Some? && op.value.kind == Insert ==> 0 <= op.value.j1 <= j2 <= |b|
    requires 0 <= i <= solution.Length && (op.Some? ==> i < solution.Length)
    modifies solution
    ensures i' == if op.None? then i else i + 1
    ensures op.None? ==> solution[..i'] == old(solution[..i])
    ensures op.Some? ==> solution[..i'] == old(solution[..i]) + [Finished(op.value, i2, j2, b)]
  {
    if op.None? {
      return i;
    }
    var done := op.value.(i2 := i2);
    if done.kind == Insert {
      done := done.(content := b[done.j1..j2]);
    }
    solution[i] := done;
    i' := i + 1;
  }

  /** From (x, y) the snake end (sx, sy) is n deletions or n insertions and a run of equal
      lines away. */
  ghost predicate Leads<T>(a: seq<T>, b: seq<T>, x: int, y: int, sx: int, sy: int, n: int) {
    var k := sx - sy;
    var x1 := if k > x - y then x + (k - (x - y)) else x;
    && 0 <= x && 0 <= y && 0 <= sx <= |a| && 0 <= sy <= |b|
    && n == (if k > x - y then k - (x - y) else (x - y) - k)
    && 0 <= x1 - k && Slide(a, b, k, x1) == sx
  }

  lemma {:induction false} SnakeLeads<T>(a: seq<T>, b: seq<T>, d: int, px: int, py: int, x: int, y: int)
    requires SnakeEnd(a, b, d, px, py) && SnakeEnd(a, b, d + 1, x, y) && Snake(a, b, px, py, x, y)
    ensures Leads(a, b, px, py, x, y, 1)
  {
  }

  lemma {:induction false} FirstSnakeLeads<T>(a: seq<T>, b: seq<T>, d: int, x: int, y: int)
    requires SnakeEnd(a, b, d, x, y) && FirstSnake(a, b, d, x, y)
    ensures Leads(a, b, 0, 0, x, y, d)
  {
    DiagonalStep(a, b, x, y);
    assert !OnDiagonal(a, b, x - y, x);
  }

  /** The deletion loop: x runs right until it meets the snake's diagonal. */
  method DeleteBlock<T(==)>(a: seq<T>, b: seq<T>, solution: array<Operation<T>>, i0: int, x0: int, y: int,
                            snake: seq<int>, ghost c: int)
    returns (i: int, x: int)
    requires |snake| == 2 && 0 <= i0 <= c
    requires snake[0] - snake[1] > x0 - y ==> y + snake[0] - snake[1] <= |a| && c < solution.Length
    requires i0 <= solution.Length && Progress(a, b, solution[..i0], x0, y, c)
    modifies solution
    ensures x == if snake[0] - snake[1] > x0 - y then y + (snake[0] - snake[1]) else x0
    ensures 0 <= i <= solution.Length && i <= c + (x - x0)
    ensures Progress(a, b, solution[..i], x, y, c + (x - x0))
  {
    x := x0;
    ghost var k := snake[0] - snake[1];
    var op: Option<Operation<T>> := None;
    while snake[0] - snake[1] > x - y
      invariant x0 <= x && (x == x0 || x <= y + k)
      invariant op == if x == x0 then None else Some(Operation(Delete, [], x0, 0, y))
      decreases |a| - x
    {
      if op == None {
        op := Some(Operation(Delete, [], x, 0, y));
      }
      x := x + 1;
      if x == |a| {
        break;
      }
    }
    if op.Some? {
      ProgressOperation(a, b, solution[..i0], Finished(op.value, x, y, b), y, y, c);
    }
    i := Add(solution, i0, op, x, y, b);
  }

  /** The insertion loop: y runs down until it meets the snake's diagonal. */
  method InsertBlock<T(==)>(a: seq<T>, b: seq<T>, solution: array<Operation<T>>, i0: int, x: int, y0: int,
                            snake: seq<int>, ghost c: int)
    returns (i: int, y: int)
    requires |snake| == 2 && 0 <= i0 <= c
    requires snake[0] - snake[1] < x - y0 ==> x - (snake[0] - snake[1]) <= |b| && c < solution.Length
    requires i0 <= solution.Length && Progress(a, b, solution[..i0], x, y0, c)
    modifies solution
    ensures y == if snake[0] - snake[1] < x - y0 then x - (snake[0] - snake[1]) else y0
    ensures 0 <= i <= solution.Length && i <= c + (y - y0)
    ensures Progress(a, b, solution[..i], x, y, c + (y - y0))
  {
    y := y0;
    ghost var k := snake[0] - snake[1];
    var op: Option<Operation<T>> := None;
    while snake[0] - snake[1] < x - y
      invariant y0 <= y && (y == y0 || y <= x - k)
      invariant op == if y == y0 then None else Some(Operation(Insert, [], x, 0, y0))
      decreases x - y - k
    {
      if op == None {
        op := Some(Operation(Insert, [], x, 0, y));
      }
      y := y + 1;
    }
    if op.Some? {
      ProgressOperation(a, b, solution[..i0], Finished(op.value, x, y, b), y0, y, c);
    }
    i := Add(solution, i0, op, x, y, b);
  }

  /** The diagonal loop: equal lines up to the snake's end. */
  method EqualRun<T(==)>(a: seq<T>, b: seq<T>, x0: int, y0: int, snake: seq<int>,
                         ghost ops: seq<Operation<T>>, ghost c: int)
    returns (x: int, y: int)
    requires |snake| == 2 && Progress(a, b, ops, x0, y0, c)
    requires snake[0] - snake[1] == x0 - y0 && Slide(a, b, x0 - y0, x0) == snake[0]
    ensures x == snake[0] && y == snake[1]
    ensures Progress(a, b, ops, x, y, c)
  {
    x, y := x0, y0;
    SlideEnds(a, b, x - y, x);
    while x < snake[0]
      invariant x <= snake[0] && x - y == x0 - y0 && Slide(a, b, x - y, x) == snake[0]
      invariant Progress(a, b, ops, x, y, c)
    {
      assert OnDiagonal(a, b, x - y, x);
      ProgressEqualLine(a, b, ops, x, y, c);
      x := x + 1;
      y := y + 1;
    }
  }

  /** One turn of the main loop of operations: consume one snake. */
  method ConsumeSnake<T(==)>(a: seq<T>, b: seq<T>, solution: array<Operation<T>>, i0: int, x0: int, y0: int,
                             snake: seq<int>, ghost c: int, ghost n: int)
    returns (i: int, x: int, y: int)
    requires |snake| == 2 && Leads(a, b, x0, y0, snake[0], snake[1], n)
    requires 0 <= i0 <= c && c + n <= solution.Length
    requires Progress(a, b, solution[..i0], x0, y0, c)
    modifies solution
    ensures x == snake[0] && y == snake[1]
    ensures 0 <= i <= c + n
    ensures Progress(a, b, solution[..i], x, y, c + n)
  {
    ghost var k := snake[0] - snake[1];
    SlideEnds(a, b, k, if k > x0 - y0 then y0 + k else x0);
    i, x := DeleteBlock(a, b, solution, i0, x0, y0, snake, c);
    i, y := InsertBlock(a, b, solution, i, x, y0, snake, c + (x - x0));
    x, y := EqualRun(a, b, x, y, snake, solution[..i], c + n);
  }

  /** What the main loop of operations knows before snake s. */
  ghost predicate Consumed<T>(a: seq<T>, b: seq<T>, snakes: seq<seq<int>>, from: int, s: int,
                              ops: seq<Operation<T>>, x: int, y: int) {
    && 0 <= s <= Dist(a, b, |a|, |b|)
    && |ops| <= PathCost(from, s)
    && Progress(a, b, ops, x, y, PathCost(from, s))
    && if s <= from then x == 0 && y == 0 else s <= |snakes| && snakes[s - 1] == [x, y]
  }

  /** The edits on the path up to snake s: the first snake stands for `from` of them. */
  function PathCost(from: int, s: int): int {
    if s <= from then 0 else s - 1
  }

  lemma {:induction false} NextSnakeLeads<T>(a: seq<T>, b: seq<T>, snakes: seq<seq<int>>, from: int, s: int, x: int,
        y: int)
    requires Snakes(a, b, snakes, from) && from <= s <= Dist(a, b, |a|, |b|)
    requires if s <= from then x == 0 && y == 0 else snakes[s - 1] == [x, y]
    ensures Leads(a, b, x, y, snakes[s][0], snakes[s][1], s - PathCost(from, s))
    ensures snakes[s][0] >= |a| && snakes[s][1] >= |b| ==> s == Dist(a, b, |a|, |b|)
    ensures s == Dist(a, b, |a|, |b|) ==> snakes[s] == [|a|, |b|]
  {
    if s == from {
      FirstSnakeLeads(a, b, s, snakes[s][0], snakes[s][1]);
    } else {
      SnakeLeads(a, b, s - 1, x, y, snakes[s][0], snakes[s][1]);
    }
  }

  lemma {:induction false} NothingIsCheaper<T>(a: seq<T>, b: seq<T>)
    ensures forall other :: Reaches(other, |a|, |a|) && Patched(a, other, |a|) == b
              ==> Dist(a, b, |a|, |b|) <= Cost(other)
  {
    forall other | Reaches(other, |a|, |a|) && Patched(a, other, |a|) == b
      ensures Dist(a, b, |a|, |b|) <= Cost(other)
    {
      NoCheaperScript(a, b, other);
    }
  }

  /** operations: the consolidated edit list.  Applied to `a` it gives exactly `b`, and no
      operation list that does so deletes and inserts fewer lines. */
  method Operations<T(==)>(a: seq<T>, b: seq<T>) returns (ops: seq<Operation<T>>)
    ensures Reaches(ops, |a|, |a|) && Patched(a, ops, |a|) == b
    ensures Cost(ops) == Dist(a, b, |a|, |b|)
    ensures forall other :: Reaches(other, |a|, |a|) && Patched(a, other, |a|) == b ==> Cost(ops) <= Cost(other)
    ensures |ops| <= |a| + |b|
    ensures forall op :: op in ops ==> Tidy(op, b)
  {
    DistBounds(a, b, |a|, |b|);
    if |a| == 0 && |b| == 0 {
      NothingIsCheaper(a, b);
      return [];
    }
    ops := ConsumeAll(a, b);
    NothingIsCheaper(a, b);
  }

  lemma {:induction false} SkipEmpty<T>(a: seq<T>, b: seq<T>, snakes: seq<seq<int>>, from: int, s: int,
                                        ops: seq<Operation<T>>, x: int, y: int)
    requires Snakes(a, b, snakes, from) && Consumed(a, b, snakes, from, s, ops, x, y)
    requires s < |snakes| && |snakes[s]| < 2
    ensures s < from && Consumed(a, b, snakes, from, s + 1, ops, x, y)
  {
  }

  lemma {:induction false} AfterSnake<T>(a: seq<T>, b: seq<T>, snakes: seq<seq<int>>, from: int, s: int,
                                         ops: seq<Operation<T>>, x: int, y: int)
    requires Snakes(a, b, snakes, from) && from <= s < Dist(a, b, |a|, |b|)
    requires snakes[s] == [x, y] && |ops| <= s && Progress(a, b, ops, x, y, s)
    ensures Consumed(a, b, snakes, from, s + 1, ops, x, y)
  {
  }

  method ConsumeAll<T(==)>(a: seq<T>, b: seq<T>) returns (ops: seq<Operation<T>>)
    requires |a| + |b| > 0
    ensures Progress(a, b, ops, |a|, |b|, Dist(a, b, |a|, |b|))
  {
    var trace, offset := ShortestEditSequence(a, b);
    var snakes, from := Backtrack(trace, |a|, |b|, offset, a, b);
    ghost var D := Dist(a, b, |a|, |b|);
    DistBounds(a, b, |a|, |b|);
    var M, N := |a|, |b|;
    var i := 0;
    var solution := new Operation<T>[|a| + |b|](_ => Operation(Delete, [], 0, 0, 0));
    var x, y := 0, 0;
    var s := 0;
    while s < |snakes|
      invariant 0 <= i <= solution.Length
      invariant Consumed(a, b, snakes, from, s, solution[..i], x, y)
    {
      var snake := snakes[s];
      if |snake| < 2 {
        SkipEmpty(a, b, snakes, from, s, solution[..i], x, y);
        s := s + 1;
        continue;
      }
      NextSnakeLeads(a, b, snakes, from, s, x, y);
      ghost var c := PathCost(from, s);
      i, x, y := ConsumeSnake(a, b, solution, i, x, y, snake, c, s - c);
      if x >= M && y >= N {
        break;
      }
      AfterSnake(a, b, snakes, from, s, solution[..i], x, y);
      s := s + 1;
    }
    ops := solution[..i];
  }
}
