/** Reading a destructured value back: whether a pattern filled from the bound symbols gives
    the matched value.  The pattern's symbols meet parts of the value in the order in which
    binding sets them; the last meeting of a symbol decides what it is bound to, so the
    pattern gives the value back exactly when the meetings of each symbol agree. */
module Destructuring {
  import opened Options
  import opened Values
  import opened Patterns
  import D = DirectEval

  /** What Equal looks at: the value without metadata and annotations, in lists as well. */
  function Bare(v: Value): Value {
    match v
    case Annotated(value, _) => Bare(value)
    case Annotate(form, _, _, _) => Bare(form)
    case Pair(a, d) => Pair(Bare(a), Bare(d))
    case Cons(a, d) => Cons(Bare(a), Bare(d))
    case _ => v
  }

  /** The value under n layers of metadata. */
  predicate Wraps(v: Value, n: nat, bare: Value) {
    if n == 0 then v == bare else v.Annotated? && Wraps(v.value, n - 1, bare)
  }

  lemma {:induction false} WrappedIsEqual(v: Value, n: nat, bare: Value)
    requires Wraps(v, n, bare)
    ensures Bare(v) == Bare(bare) && Strip(v) == Strip(bare)
    decreases n
  {
    if n > 0 {
      WrappedIsEqual(v.value, n - 1, bare);
    }
  }

  lemma {:induction false} WrapOnce(v: Value, n: nat, bare: Value, meta: ScopeId)
    requires Wraps(v, n, bare)
    ensures Wraps(Annotated(v, meta), n + 1, bare)
  {
  }

  /** Filling the pattern's symbols from the bindings gives a value equal to the matched one;
      `_` stands for anything, and so does a Bind pattern, which only looks inside a scope. */
  ghost predicate Fits(pattern: Value, val: Value, bindings: map<Symbol, Value>) {
    match pattern
    case Sym(name) => name in bindings && Bare(bindings[name]) == Bare(val)
    case Pair(a, d) =>
      var v := Strip(val);
      (v.Pair? || v.Cons?) && Fits(a, v.a, bindings) && Fits(d, v.d, bindings)
    case Cons(a, d) =>
      var v := Strip(val);
      (v.Pair? || v.Cons?) && Fits(a, v.a, bindings) && Fits(d, v.d, bindings)
    case Bind(_) => true
    case Annotate(inner, _, _, _) => Fits(inner, val, bindings)
    case Annotated(value, _) => Fits(value, val, bindings)
    case _ => ConstantMatches(pattern, val)
  }

  /** The value has the pattern's lists and constants. */
  predicate Shaped(pattern: Value, val: Value) {
    match pattern
    case Sym(_) => true
    case Pair(a, d) => var v := Strip(val); (v.Pair? || v.Cons?) && Shaped(a, v.a) && Shaped(d, v.d)
    case Cons(a, d) => var v := Strip(val); (v.Pair? || v.Cons?) && Shaped(a, v.a) && Shaped(d, v.d)
    case Bind(_) => true
    case Annotate(inner, _, _, _) => Shaped(inner, val)
    case Annotated(value, _) => Shaped(value, val)
    case _ => ConstantMatches(pattern, val)
  }

  /** A symbol of a pattern and the part of the value it meets, with how often the pattern's
      own metadata wraps that part; a symbol inside a Bind pattern meets no part of the value. */
  datatype Meeting = Meeting(name: Symbol, part: Option<Value>, wraps: nat)

  /** The meetings of a pattern and a value, in the order in which binding sets the symbols. */
  function Met(pattern: Value, val: Value, wraps: nat): seq<Meeting> {
    match pattern
    case Sym(name) => [Meeting(name, Some(val), wraps)]
    case Pair(a, d) => var v := Strip(val); if v.Pair? || v.Cons? then Met(a, v.a, 0) + Met(d, v.d, 0) else []
    case Cons(a, d) => var v := Strip(val); if v.Pair? || v.Cons? then Met(a, v.a, 0) + Met(d, v.d, 0) else []
    case Bind(_) =>
      var names := EachBinding(pattern).names;
      seq(|names|, i requires 0 <= i < |names| => Meeting(names[i].0, None, 0))
    case Annotate(inner, _, comment, meta) =>
      Met(inner, val, if |MetaBind(comment, meta)| == 0 then wraps else wraps + 1)
    case Annotated(value, _) => Met(value, val, wraps)
    case _ => []
  }

  /** Constants and everything else that is no list, symbol, bind form or annotation. */
  predicate IsLeaf(pattern: Value) {
    && !pattern.Sym? && !pattern.Pair? && !pattern.Cons? && !pattern.Bind?
    && !pattern.Annotate? && !pattern.Annotated?
  }

  /** Symbols that meet several parts meet equal ones. */
  ghost predicate Agree(met: seq<Meeting>) {
    forall i, j :: 0 <= i < j < |met| && met[i].name == met[j].name && met[i].part.Some? && met[j].part.Some?
      ==> Bare(met[i].part.value) == Bare(met[j].part.value)
  }

  /** The symbol is not met again. */
  ghost predicate Last(met: seq<Meeting>, i: nat)
    requires i < |met|
  {
    forall j :: i < j < |met| ==> met[j].name != met[i].name
  }

  /** No Bind pattern has the last word on a symbol that meets a part of the value. */
  ghost predicate PartsComeLast(met: seq<Meeting>) {
    forall i, j :: 0 <= i < |met| && 0 <= j < |met| && met[i].name == met[j].name && met[i].part.Some? && Last(met, j)
      ==> met[j].part.Some?
  }

  /** Every meeting's symbol is bound to a value equal to the part it met. */
  ghost predicate AllHold(met: seq<Meeting>, bindings: map<Symbol, Value>) {
    forall i :: 0 <= i < |met| && met[i].part.Some?
      ==> met[i].name in bindings && Bare(bindings[met[i].name]) == Bare(met[i].part.value)
  }

  /** Every symbol is bound to the very part it met last, under the pattern's metadata. */
  ghost predicate LastHold(met: seq<Meeting>, bindings: map<Symbol, Value>) {
    forall i :: 0 <= i < |met| && met[i].part.Some? && Last(met, i)
      ==> met[i].name in bindings && Wraps(bindings[met[i].name], met[i].wraps, met[i].part.value)
  }

  ghost predicate SameNames(met: seq<Meeting>, names: seq<(Symbol, Range)>) {
    |met| == |names| && forall i :: 0 <= i < |met| ==> met[i].name == names[i].0
  }

  /** A pattern fits when its shape does and every symbol holds what it met. */
  lemma {:induction false} FitsWhenAllHold(pattern: Value, val: Value, wraps: nat, bindings: map<Symbol, Value>)
    ensures Fits(pattern, val, bindings) <==> Shaped(pattern, val) && AllHold(Met(pattern, val, wraps), bindings)
    decreases pattern, 1
  {
    match pattern
    case Pair(_, _) => ListFitsWhenAllHold(pattern, val, wraps, bindings);
    case Cons(_, _) => ListFitsWhenAllHold(pattern, val, wraps, bindings);
    case Annotate(inner, _, comment, meta) =>
      var layers := if |MetaBind(comment, meta)| == 0 then wraps else wraps + 1;
      assert Met(pattern, val, wraps) == Met(inner, val, layers);
      FitsWhenAllHold(inner, val, layers, bindings);
    case Annotated(value, _) => FitsWhenAllHold(value, val, wraps, bindings);
    case Sym(_) => SymbolFitsWhenItHolds(pattern, val, wraps, bindings);
    case Bind(_) => FormsHold(pattern, val, wraps, bindings);
    case _ => ConstantFitsByShape(pattern, val, wraps, bindings);
  }

  lemma {:induction false} SymbolFitsWhenItHolds(pattern: Value, val: Value, wraps: nat, bindings: map<Symbol, Value>)
    requires pattern.Sym?
    ensures Fits(pattern, val, bindings) <==> AllHold(Met(pattern, val, wraps), bindings)
  {
    assert Met(pattern, val, wraps)[0] == Meeting(pattern.name, Some(val), wraps);
  }

  lemma {:induction false} ConstantFitsByShape(pattern: Value, val: Value, wraps: nat, bindings: map<Symbol, Value>)
    requires IsLeaf(pattern)
    ensures Fits(pattern, val, bindings) <==> Shaped(pattern, val)
    ensures Met(pattern, val, wraps) == []
  {
  }

  lemma {:induction false} FormsHold(pattern: Value, val: Value, wraps: nat, bindings: map<Symbol, Value>)
    requires pattern.Bind?
    ensures AllHold(Met(pattern, val, wraps), bindings)
  {
  }

  lemma {:induction false} ListFitsWhenAllHold(pattern: Value, val: Value, wraps: nat, bindings: map<Symbol, Value>)
    requires pattern.Pair? || pattern.Cons?
    ensures Fits(pattern, val, bindings) <==> Shaped(pattern, val) && AllHold(Met(pattern, val, wraps), bindings)
    decreases pattern, 0
  {
    var a, d, v := pattern.a, pattern.d, Strip(val);
    if v.Pair? || v.Cons? {
      FitsWhenAllHold(a, v.a, 0, bindings);
      FitsWhenAllHold(d, v.d, 0, bindings);
      HoldInTurn(Met(a, v.a, 0), Met(d, v.d, 0), bindings);
    }
  }

  lemma {:induction false} HoldInTurn(s: seq<Meeting>, t: seq<Meeting>, bindings: map<Symbol, Value>)
    ensures AllHold(s + t, bindings) <==> AllHold(s, bindings) && AllHold(t, bindings)
  {
    if AllHold(s + t, bindings) {
      assert forall i :: 0 <= i < |s| ==> (s + t)[i] == s[i];
      assert forall i :: 0 <= i < |t| ==> (s + t)[|s| + i] == t[i];
    }
  }

  /** A successful outcome leaves every symbol bound to the part it met last. */
  ghost predicate LeavesMet(o: D.Outcome<Value>, scope: ScopeId, pattern: Value, part: Value, wraps: nat) {
    o.Done?
    ==> && scope < |o.heap|
        && Shaped(pattern, part)
        && SameNames(Met(pattern, part, wraps), EachBinding(pattern).names)
        && LastHold(Met(pattern, part, wraps), o.heap[scope].bindings)
  }

  /** The last meeting of a symbol decides what it is bound to. */
  lemma {:induction false} LastMeetingIsBound(fuel: nat, pattern: Value, scope: ScopeId, val: Value, wraps: nat,
        part: Value, h: Heap)
    requires Plain(pattern) && scope < |h| && Wraps(val, wraps, part)
    ensures LeavesMet(D.BindTo(fuel, pattern, scope, val, h), scope, pattern, part, wraps)
    decreases fuel, pattern, 1
  {
    WrappedIsEqual(val, wraps, part);
    match pattern
    case Pair(_, _) => ListMeetingsAreBound(fuel, pattern, scope, val, wraps, part, h);
    case Cons(_, _) => ListMeetingsAreBound(fuel, pattern, scope, val, wraps, part, h);
    case Bind(_) => FormsMeetNothing(fuel, pattern, scope, val, wraps, part, h);
    case Annotate(_, _, _, _) => AnnotatedMeetingsAreBound(fuel, pattern, scope, val, wraps, part, h);
    case Annotated(value, _) => LastMeetingIsBound(fuel, value, scope, val, wraps, part, h);
    case Sym(_) => SymbolMeets(fuel, pattern, scope, val, wraps, part, h);
    case _ => ConstantMeetsNothing(fuel, pattern, scope, val, wraps, part, h);
  }

  lemma {:induction false} SymbolMeets(fuel: nat, pattern: Value, scope: ScopeId, val: Value, wraps: nat, part: Value,
        h: Heap)
    requires pattern.Sym? && scope < |h| && Wraps(val, wraps, part)
    ensures LeavesMet(D.BindTo(fuel, pattern, scope, val, h), scope, pattern, part, wraps)
  {
    assert D.BindTo(fuel, pattern, scope, val, h) == D.Done(pattern, Set(h, scope, pattern.name, val));
    assert Met(pattern, part, wraps) == [Meeting(pattern.name, Some(part), wraps)];
  }

  lemma {:induction false} ConstantMeetsNothing(fuel: nat, pattern: Value, scope: ScopeId, val: Value, wraps: nat,
        part: Value, h: Heap)
    requires IsLeaf(pattern) && scope < |h| && Strip(val) == Strip(part)
    ensures LeavesMet(D.BindTo(fuel, pattern, scope, val, h), scope, pattern, part, wraps)
  {
    LeafMatches(fuel, pattern, scope, val, h);
    LeafShape(pattern, part, wraps);
  }

  lemma {:induction false} LeafMatches(fuel: nat, pattern: Value, scope: ScopeId, val: Value, h: Heap)
    requires IsLeaf(pattern)
    ensures var o := D.BindTo(fuel, pattern, scope, val, h);
            o.Done? ==> o.heap == h && ConstantMatches(pattern, val)
  {
  }

  lemma {:induction false} LeafShape(pattern: Value, part: Value, wraps: nat)
    requires IsLeaf(pattern)
    ensures Shaped(pattern, part) <==> ConstantMatches(pattern, part)
    ensures Met(pattern, part, wraps) == [] && EachBinding(pattern).names == []
  {
  }

  lemma {:induction false} FormsMeetNothing(fuel: nat, pattern: Value, scope: ScopeId, val: Value, wraps: nat,
        part: Value, h: Heap)
    requires pattern.Bind? && Plain(pattern) && scope < |h|
    ensures LeavesMet(D.BindTo(fuel, pattern, scope, val, h), scope, pattern, part, wraps)
  {
    BindBindsReported(fuel, pattern, scope, val, h);
  }

  lemma {:induction false} AnnotatedMeetingsAreBound(fuel: nat, pattern: Value, scope: ScopeId, val: Value, wraps: nat,
        part: Value, h: Heap)
    requires pattern.Annotate? && Plain(pattern) && scope < |h| && Wraps(val, wraps, part)
    ensures LeavesMet(D.BindTo(fuel, pattern, scope, val, h), scope, pattern, part, wraps)
    decreases fuel, pattern, 0
  {
    var bind := MetaBind(pattern.comment, pattern.meta);
    if |bind| == 0 {
      LastMeetingIsBound(fuel, pattern.form, scope, val, wraps, part, h);
      InnerMeets(D.BindTo(fuel, pattern, scope, val, h), scope, pattern, part, wraps, 0);
    } else {
      MetaFirst(fuel, pattern, scope, val, h);
      AfterMetaMeets(D.EvalForm(fuel, Bind(bind), scope, h), fuel, pattern, scope, val, wraps, part, h);
      InnerMeets(D.BindTo(fuel, pattern, scope, val, h), scope, pattern, part, wraps, 1);
    }
  }

  lemma {:induction false} AfterMetaMeets(o: D.Outcome<Value>, fuel: nat, pattern: Value, scope: ScopeId, val: Value,
        wraps: nat, part: Value, h: Heap)
    requires pattern.Annotate? && Plain(pattern.form) && scope < |h| && MetaScopeAdded(o, h) && Wraps(val, wraps, part)
    ensures LeavesMet(AfterMeta(o, fuel, pattern, scope, val, |h|), scope, pattern.form, part, wraps + 1)
    decreases fuel, pattern.form, 2
  {
    if o.Done? && fuel > 0 {
      WrapOnce(val, wraps, part, |h|);
      LastMeetingIsBound(fuel - 1, pattern.form, scope, Annotated(val, |h|), wraps + 1, part,
                         SetRange(o.heap, |h|, pattern.range));
    }
  }

  lemma {:induction false} InnerMeets(o: D.Outcome<Value>, scope: ScopeId, pattern: Value, part: Value, wraps: nat,
        layer: nat)
    requires pattern.Annotate? && layer == (if |MetaBind(pattern.comment, pattern.meta)| == 0 then 0 else 1)
    requires LeavesMet(o, scope, pattern.form, part, wraps + layer)
    ensures LeavesMet(o, scope, pattern, part, wraps)
  {
  }

  lemma {:induction false} ListMeetingsAreBound(fuel: nat, pattern: Value, scope: ScopeId, val: Value, wraps: nat,
        part: Value, h: Heap)
    requires (pattern.Pair? || pattern.Cons?) && Plain(pattern.a) && Plain(pattern.d) && scope < |h|
    requires Strip(val) == Strip(part)
    ensures LeavesMet(D.BindList(fuel, pattern.a, pattern.d, scope, val, h), scope, pattern, part, wraps)
    decreases fuel, pattern, 0
  {
    var a, d, v := pattern.a, pattern.d, Strip(val);
    if !((v.Pair? || v.Cons?) && IsBindable(a)) {
      D.BindListRefuses(fuel, a, d, scope, val, h);
    } else {
      D.BindListInParts(fuel, a, d, scope, val, h);
      BindBindsReported(fuel, a, scope, v.a, h);
      LastMeetingIsBound(fuel, a, scope, v.a, 0, v.a, h);
      SecondMeets(D.BindTo(fuel, a, scope, v.a, h), fuel, pattern, scope, part, wraps);
    }
  }

  lemma {:induction false} SecondMeets(o: D.Outcome<Value>, fuel: nat, pattern: Value, scope: ScopeId, part: Value,
        wraps: nat)
    requires (pattern.Pair? || pattern.Cons?) && Plain(pattern.d)
    requires Strip(part).Pair? || Strip(part).Cons?
    requires LeavesMet(o, scope, pattern.a, Strip(part).a, 0) && (o.Done? ==> EachBinding(pattern.a).complete)
    ensures LeavesMet(D.AfterFirst(o, fuel, pattern.d, scope, Strip(part).d), scope, pattern, part, wraps)
    decreases fuel, pattern.d, 2
  {
    var d, rest := pattern.d, Strip(part).d;
    if o.Done? && fuel > 0 && IsBindable(d) {
      BindBindsReported(fuel - 1, d, scope, rest, o.heap);
      LastMeetingIsBound(fuel - 1, d, scope, rest, 0, rest, o.heap);
      BothMeet(o, D.BindTo(fuel - 1, d, scope, rest, o.heap), pattern, scope, part, wraps);
    }
  }

  lemma {:induction false} BothMeet(o: D.Outcome<Value>, o': D.Outcome<Value>, pattern: Value, scope: ScopeId,
        part: Value, wraps: nat)
    requires (pattern.Pair? || pattern.Cons?) && (Strip(part).Pair? || Strip(part).Cons?)
    requires o.Done? && LeavesMet(o, scope, pattern.a, Strip(part).a, 0) && EachBinding(pattern.a).complete
    requires BindsReported(o', o.heap, scope, EachBinding(pattern.d))
    requires LeavesMet(o', scope, pattern.d, Strip(part).d, 0)
    ensures LeavesMet(D.PairOutcome(o.value, o'), scope, pattern, part, wraps)
  {
    if o'.Done? {
      LastHoldInTurn(Met(pattern.a, Strip(part).a, 0), Met(pattern.d, Strip(part).d, 0),
                     EachBinding(pattern.d).names, o.heap, o'.heap, scope);
    }
  }

  lemma {:induction false} LastHoldInTurn(s: seq<Meeting>, t: seq<Meeting>, names: seq<(Symbol, Range)>, h: Heap,
        h': Heap, scope: ScopeId)
    requires ChangesOnly(h, h', scope, NamesOf(names)) && SameNames(t, names)
    requires LastHold(s, h[scope].bindings) && LastHold(t, h'[scope].bindings)
    ensures LastHold(s + t, h'[scope].bindings)
  {
    var met := s + t;
    forall i | 0 <= i < |met| && met[i].part.Some? && Last(met, i)
      ensures met[i].name in h'[scope].bindings
              && Wraps(h'[scope].bindings[met[i].name], met[i].wraps, met[i].part.value)
    {
      if i < |s| {
        assert forall j :: 0 <= j < |t| ==> met[|s| + j] == t[j];
        assert forall j :: i < j < |s| ==> met[j] == s[j];
        assert Last(s, i);
        assert met[i].name !in NamesOf(names);
      } else {
        assert forall j :: i - |s| < j < |t| ==> met[|s| + j] == t[j];
        assert Last(t, i - |s|);
      }
    }
  }

  lemma {:induction false} LastIndex(met: seq<Meeting>, i: nat) returns (last: nat)
    requires i < |met|
    ensures i <= last < |met| && met[last].name == met[i].name && Last(met, last)
    decreases |met| - i
  {
    if j :| i < j < |met| && met[j].name == met[i].name {
      last := LastIndex(met, j);
    } else {
      last := i;
    }
  }

  /** What the last meetings leave bound holds for all meetings exactly when they agree. */
  lemma {:induction false} AllHoldWhenAgree(met: seq<Meeting>, bindings: map<Symbol, Value>)
    requires LastHold(met, bindings)
    ensures AllHold(met, bindings) ==> Agree(met)
    ensures PartsComeLast(met) && Agree(met) ==> AllHold(met, bindings)
  {
    if PartsComeLast(met) && Agree(met) {
      forall i | 0 <= i < |met| && met[i].part.Some?
        ensures met[i].name in bindings && Bare(bindings[met[i].name]) == Bare(met[i].part.value)
      {
        var last := LastIndex(met, i);
        WrappedIsEqual(bindings[met[i].name], met[last].wraps, met[last].part.value);
      }
    }
  }

  /** After a success the pattern filled from the scope gives back the value only if the
      meetings agree, and also if they do, unless a Bind pattern has the last word. */
  ghost predicate FitsAsMet(o: D.Outcome<Value>, pattern: Value, scope: ScopeId, val: Value) {
    o.Done?
    ==> && scope < |o.heap|
        && (Fits(pattern, val, o.heap[scope].bindings) ==> Agree(Met(pattern, val, 0)))
        && (PartsComeLast(Met(pattern, val, 0)) && Agree(Met(pattern, val, 0))
            ==> Fits(pattern, val, o.heap[scope].bindings))
  }

  lemma {:induction false} MetSoFits(o: D.Outcome<Value>, pattern: Value, scope: ScopeId, val: Value)
    requires LeavesMet(o, scope, pattern, val, 0)
    ensures FitsAsMet(o, pattern, scope, val)
  {
    if o.Done? {
      FitsWhenAllHold(pattern, val, 0, o.heap[scope].bindings);
      AllHoldWhenAgree(Met(pattern, val, 0), o.heap[scope].bindings);
    }
  }

  // ---- When parts come last

  /** Patterns of lists, symbols and constants. */
  predicate BindFree(pattern: Value) {
    match pattern
    case Pair(a, d) => BindFree(a) && BindFree(d)
    case Cons(a, d) => BindFree(a) && BindFree(d)
    case Bind(_) => false
    case Annotate(inner, _, _, _) => BindFree(inner)
    case Annotated(value, _) => BindFree(value)
    case _ => true
  }

  lemma {:induction false} BindFreeMeetsParts(pattern: Value, val: Value, wraps: nat)
    requires BindFree(pattern)
    ensures forall m :: m in Met(pattern, val, wraps) ==> m.part.Some?
    decreases pattern
  {
    match pattern
    case Pair(a, d) => if Strip(val).Pair? || Strip(val).Cons? {
      BindFreeMeetsParts(a, Strip(val).a, 0);
      BindFreeMeetsParts(d, Strip(val).d, 0);
    }
    case Cons(a, d) => if Strip(val).Pair? || Strip(val).Cons? {
      BindFreeMeetsParts(a, Strip(val).a, 0);
      BindFreeMeetsParts(d, Strip(val).d, 0);
    }
    case Annotate(inner, _, comment, meta) =>
      BindFreeMeetsParts(inner, val, if |MetaBind(comment, meta)| == 0 then wraps else wraps + 1);
    case Annotated(value, _) => BindFreeMeetsParts(value, val, wraps);
    case _ =>
  }

  /** After a success the pattern gives back the value, and every symbol is bound to the very
      part it met, under the pattern's metadata. */
  ghost predicate KeepsParts(o: D.Outcome<Value>, pattern: Value, scope: ScopeId, val: Value) {
    o.Done?
    ==> && scope < |o.heap|
        && Fits(pattern, val, o.heap[scope].bindings)
        && forall m :: m in Met(pattern, val, 0) && m.part.Some?
              ==> m.name in o.heap[scope].bindings && Wraps(o.heap[scope].bindings[m.name], m.wraps, m.part.value)
  }

  lemma {:induction false} DistinctKeepParts(o: D.Outcome<Value>, pattern: Value, scope: ScopeId, val: Value)
    requires LeavesMet(o, scope, pattern, val, 0) && Distinct(EachBinding(pattern).names)
    ensures KeepsParts(o, pattern, scope, val)
  {
    MetSoFits(o, pattern, scope, val);
    if o.Done? {
      var met := Met(pattern, val, 0);
      assert forall i :: 0 <= i < |met| ==> Last(met, i);
    }
  }
}
