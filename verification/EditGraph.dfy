/** The edit graph of two line lists, as section 2 of Myers' "An O(ND) Difference
    Algorithm" draws it, extended to the whole quadrant. */
module EditGraph {

  // Point (x, y) means that x lines of `a` and y lines of `b` are consumed.  A step right
  // deletes a line, a step down inserts one, and a diagonal, which exists only inside the
  // |a| by |b| box, keeps one.

  predicate Diagonal<T(==)>(a: seq<T>, b: seq<T>, x: int, y: int) {
    0 <= x < |a| && 0 <= y < |b| && a[x] == b[y]
  }

  /** The lines at x on diagonal k, where y = x - k, match. */
  predicate OnDiagonal<T(==)>(a: seq<T>, b: seq<T>, k: int, x: int) {
    Diagonal(a, b, x, x - k)
  }

  function Min(i: int, j: int): int {
    if i < j then i else j
  }

  /** The least number of deletions and insertions on a path from the origin to (x, y). */
  ghost function Dist<T>(a: seq<T>, b: seq<T>, x: int, y: int): int
    requires 0 <= x && 0 <= y
    decreases x + y
  {
    if x == 0 then y
    else if y == 0 then x
    else if Diagonal(a, b, x - 1, y - 1) then Dist(a, b, x - 1, y - 1)
    else 1 + Min(Dist(a, b, x - 1, y), Dist(a, b, x, y - 1))
  }

  lemma {:induction false} DistBounds<T>(a: seq<T>, b: seq<T>, x: int, y: int)
    requires 0 <= x && 0 <= y
    ensures x - y <= Dist(a, b, x, y) && y - x <= Dist(a, b, x, y) <= x + y
    ensures (Dist(a, b, x, y) + x + y) % 2 == 0
  {
    DistRange(a, b, x, y);
    DistParity(a, b, x, y);
  }

  lemma {:induction false} DistRange<T>(a: seq<T>, b: seq<T>, x: int, y: int)
    requires 0 <= x && 0 <= y
    ensures x - y <= Dist(a, b, x, y) && y - x <= Dist(a, b, x, y) <= x + y
    decreases x + y
  {
    if x > 0 && y > 0 {
      DistRange(a, b, x - 1, y - 1);
      DistRange(a, b, x - 1, y);
      DistRange(a, b, x, y - 1);
    }
  }

  lemma {:induction false} DistParity<T>(a: seq<T>, b: seq<T>, x: int, y: int)
    requires 0 <= x && 0 <= y
    ensures (Dist(a, b, x, y) + x + y) % 2 == 0
    decreases x + y
  {
    if x > 0 && y > 0 {
      DistParity(a, b, x - 1, y - 1);
      DistParity(a, b, x - 1, y);
      DistParity(a, b, x, y - 1);
    }
  }

  /** Neighbouring points are one edit apart. */
  lemma {:induction false} NeighboursDifferByOne<T>(a: seq<T>, b: seq<T>, x: int, y: int)
    requires 0 <= x && 0 <= y
    ensures Dist(a, b, x + 1, y) == Dist(a, b, x, y) - 1 || Dist(a, b, x + 1, y) == Dist(a, b, x, y) + 1
    ensures Dist(a, b, x, y + 1) == Dist(a, b, x, y) - 1 || Dist(a, b, x, y + 1) == Dist(a, b, x, y) + 1
    decreases x + y
  {
    DistBounds(a, b, x, y);
    DistBounds(a, b, x + 1, y);
    DistBounds(a, b, x, y + 1);
    if x > 0 {
      NeighboursDifferByOne(a, b, x - 1, y);
    }
    if y > 0 {
      NeighboursDifferByOne(a, b, x, y - 1);
    }
  }

  /** Along a diagonal the distance stays put where lines match and otherwise stays or
      grows by two. */
  lemma {:induction false} DiagonalStep<T>(a: seq<T>, b: seq<T>, x: int, y: int)
    requires 0 <= x && 0 <= y
    ensures Dist(a, b, x + 1, y + 1) == Dist(a, b, x, y) || Dist(a, b, x + 1, y + 1) == Dist(a, b, x, y) + 2
    ensures Diagonal(a, b, x, y) ==> Dist(a, b, x + 1, y + 1) == Dist(a, b, x, y)
  {
    NeighboursDifferByOne(a, b, x, y);
    NeighboursDifferByOne(a, b, x + 1, y);
  }

  lemma {:induction false} DiagonalMonotone<T>(a: seq<T>, b: seq<T>, x: int, y: int, n: nat)
    requires 0 <= x && 0 <= y
    ensures Dist(a, b, x, y) <= Dist(a, b, x + n, y + n)
  {
    if n > 0 {
      DiagonalMonotone(a, b, x, y, n - 1);
      DiagonalStep(a, b, x + n - 1, y + n - 1);
    }
  }

  /** x is the furthest point on diagonal k that d edits reach: it costs exactly d and
      the next point of the diagonal costs two more. */
  ghost predicate Frontier<T>(a: seq<T>, b: seq<T>, d: int, k: int, x: int) {
    && 0 <= x && 0 <= x - k
    && Dist(a, b, x, x - k) == d
    && Dist(a, b, x + 1, x + 1 - k) == d + 2
  }

  /** Nothing past the frontier is cheaper. */
  lemma {:induction false} BeyondFrontier<T>(a: seq<T>, b: seq<T>, d: int, k: int, x: int, x': int)
    requires Frontier(a, b, d, k, x) && x < x'
    ensures Dist(a, b, x', x' - k) >= d + 2
  {
    DiagonalMonotone(a, b, x + 1, x + 1 - k, x' - x - 1);
  }

  /** Where a point with distance d lies relative to the frontier of round d. */
  lemma {:induction false} FrontierIsUnique<T>(a: seq<T>, b: seq<T>, d: int, k: int, x: int, x': int)
    requires Frontier(a, b, d, k, x) && Frontier(a, b, d, k, x')
    ensures x == x'
  {
    if x < x' {
      BeyondFrontier(a, b, d, k, x, x');
    } else if x' < x {
      BeyondFrontier(a, b, d, k, x', x);
    }
  }

  /** How round d chooses where diagonal k starts, given the x values the previous round
      left on the neighbouring diagonals. */
  predicate GoesDown(d: int, k: int, left: int, right: int) {
    k == -d || (k != d && left < right)
  }

  ghost predicate FrontierBelow<T>(a: seq<T>, b: seq<T>, d: int, k: int, left: int, right: int) {
    && (k != -d ==> Frontier(a, b, d - 1, k - 1, left))
    && (k != d ==> Frontier(a, b, d - 1, k + 1, right))
  }

  /** Where following matching lines from x on diagonal k ends. */
  function Slide<T(==)>(a: seq<T>, b: seq<T>, k: int, x: int): int
    decreases |a| - x
  {
    if OnDiagonal(a, b, k, x) then Slide(a, b, k, x + 1) else x
  }

  lemma {:induction false} SlideEnds<T>(a: seq<T>, b: seq<T>, k: int, x: int)
    requires 0 <= x && 0 <= x - k
    ensures x <= Slide(a, b, k, x) && !OnDiagonal(a, b, k, Slide(a, b, k, x))
    ensures Dist(a, b, Slide(a, b, k, x), Slide(a, b, k, x) - k) == Dist(a, b, x, x - k)
    decreases |a| - x
  {
    if OnDiagonal(a, b, k, x) {
      SlideEnds(a, b, k, x + 1);
      DiagonalStep(a, b, x, x - k);
    }
  }

  /** Round 0 follows the matching lines at the head of both lists. */
  lemma {:induction false} FirstRound<T>(a: seq<T>, b: seq<T>)
    ensures Frontier(a, b, 0, 0, Slide(a, b, 0, 0))
  {
    SlideEnds(a, b, 0, 0);
    var x := Slide(a, b, 0, 0);
    DistBounds(a, b, x, x + 1);
    DistBounds(a, b, x + 1, x);
  }

  function StartOf(d: int, k: int, left: int, right: int): int {
    if GoesDown(d, k, left, right) then right else left + 1
  }

  /** The greedy step: starting from the better neighbour of round d-1 and following
      matching lines as far as they go lands on the frontier of round d. */
  lemma {:induction false} GreedyStep<T>(a: seq<T>, b: seq<T>, d: int, k: int, left: int, right: int)
    requires 0 < d && -d <= k <= d && (k + d) % 2 == 0
    requires FrontierBelow(a, b, d, k, left, right)
    ensures 0 <= StartOf(d, k, left, right) && 0 <= StartOf(d, k, left, right) - k
    ensures Frontier(a, b, d, k, Slide(a, b, k, StartOf(d, k, left, right)))
  {
    StartCost(a, b, d, k, left, right);
    var x0 := StartOf(d, k, left, right);
    SlideEnds(a, b, k, x0);
    StopIsFrontier(a, b, d, k, left, right, Slide(a, b, k, x0));
  }

  /** A point at or past both neighbours' steps, within d edits and with no matching lines
      ahead, is the frontier. */
  lemma {:induction false} StopIsFrontier<T>(a: seq<T>, b: seq<T>, d: int, k: int, left: int, right: int, x: int)
    requires 0 < d && -d <= k <= d && (k + d) % 2 == 0
    requires FrontierBelow(a, b, d, k, left, right)
    requires 0 <= x && 0 <= x - k
    requires (k != -d ==> left < x) && (k != d ==> right <= x)
    requires Dist(a, b, x, x - k) <= d && !OnDiagonal(a, b, k, x)
    ensures Frontier(a, b, d, k, x)
  {
    var y := x - k;
    DistBounds(a, b, x, y + 1);
    DistBounds(a, b, x + 1, y);
    if k != -d {
      BeyondFrontier(a, b, d - 1, k - 1, left, x);
    }
    if k != d {
      BeyondFrontier(a, b, d - 1, k + 1, right, x + 1);
    }
    DiagonalStep(a, b, x, y);
    DistBounds(a, b, x, y);
  }

  lemma {:induction false} StartCost<T>(a: seq<T>, b: seq<T>, d: int, k: int, left: int, right: int)
    requires 0 < d && -d <= k <= d && (k + d) % 2 == 0
    requires FrontierBelow(a, b, d, k, left, right)
    ensures var x0 := StartOf(d, k, left, right);
            0 <= x0 && 0 <= x0 - k && Dist(a, b, x0, x0 - k) <= d
  {
    if GoesDown(d, k, left, right) {
      NeighboursDifferByOne(a, b, right, right - (k + 1));
    } else {
      NeighboursDifferByOne(a, b, left, left - (k - 1));
    }
  }

  /** The far corner is always on a frontier, because no diagonal leaves the box. */
  lemma {:induction false} CornerIsFrontier<T>(a: seq<T>, b: seq<T>)
    ensures Frontier(a, b, Dist(a, b, |a|, |b|), |a| - |b|, |a|)
  {
    RightOfBox(a, b, |b|);
    BelowBox(a, b, |a|);
  }

  lemma {:induction false} RightOfBox<T>(a: seq<T>, b: seq<T>, y: nat)
    ensures Dist(a, b, |a| + 1, y) == Dist(a, b, |a|, y) + 1
  {
    if y > 0 {
      RightOfBox(a, b, y - 1);
      NeighboursDifferByOne(a, b, |a|, y - 1);
    }
  }

  lemma {:induction false} BelowBox<T>(a: seq<T>, b: seq<T>, x: nat)
    ensures Dist(a, b, x, |b| + 1) == Dist(a, b, x, |b|) + 1
  {
    if x > 0 {
      BelowBox(a, b, x - 1);
      NeighboursDifferByOne(a, b, x - 1, |b|);
    }
  }
}
