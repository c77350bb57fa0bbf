/** The main results about reading a destructured value back. */
module ReadingBack {
  import opened Values
  import opened Patterns
  import opened Destructuring
  import D = DirectEval

  /** After a successful binding the pattern, filled from the scope, gives back the matched
      value exactly when every symbol that meets several parts of it meets equal ones. */
  lemma {:induction false} FitsWhenMeetingsAgree(fuel: nat, pattern: Value, scope: ScopeId, val: Value, h: Heap)
    requires Plain(pattern) && scope < |h|
    ensures FitsAsMet(D.BindTo(fuel, pattern, scope, val, h), pattern, scope, val)
  {
    LastMeetingIsBound(fuel, pattern, scope, val, 0, val, h);
    MetSoFits(D.BindTo(fuel, pattern, scope, val, h), pattern, scope, val);
  }

  /** Without Bind patterns, and however often symbols repeat, the condition is exact. */
  lemma {:induction false} ListPatternFits(fuel: nat, pattern: Value, scope: ScopeId, val: Value, h: Heap)
    requires Plain(pattern) && BindFree(pattern) && scope < |h|
    requires D.BindTo(fuel, pattern, scope, val, h).Done?
    ensures scope < |D.BindTo(fuel, pattern, scope, val, h).heap|
    ensures Fits(pattern, val, D.BindTo(fuel, pattern, scope, val, h).heap[scope].bindings)
            <==> Agree(Met(pattern, val, 0))
  {
    BindFreeMeetsParts(pattern, val, 0);
    FitsWhenMeetingsAgree(fuel, pattern, scope, val, h);
  }

  /** Destructuring distinct symbols loses nothing. */
  lemma {:induction false} BoundPatternFits(fuel: nat, pattern: Value, scope: ScopeId, val: Value, h: Heap)
    requires Plain(pattern) && scope < |h| && Distinct(EachBinding(pattern).names)
    ensures KeepsParts(D.BindTo(fuel, pattern, scope, val, h), pattern, scope, val)
  {
    LastMeetingIsBound(fuel, pattern, scope, val, 0, val, h);
    DistinctKeepParts(D.BindTo(fuel, pattern, scope, val, h), pattern, scope, val);
  }

  /** A pattern that repeats a symbol keeps its last value only. */
  lemma {:induction false} RepeatedSymbolLosesValue(h: Heap, scope: ScopeId)
    requires scope < |h|
    ensures var pattern, val := Pair(Sym("a"), Pair(Sym("a"), Empty)), Pair(Int(1), Pair(Int(2), Empty));
            var o := D.BindTo(2, pattern, scope, val, h);
            o.Done? && scope < |o.heap| && !Fits(pattern, val, o.heap[scope].bindings)
  {
  }
}
