/** Laws of the language, each said of a call or a form and of what comes out, without the
    functions that the evaluators share. */
module EvalLaws {
  import opened Options
  import opened Values
  import opened ScopeLookup
  import opened Patterns
  import D = DirectEval

  // ---- Symbols

  /** A symbol evaluates to its own binding in the scope, whatever the parents bind. */
  lemma {:induction false} SymbolIsOwnBinding(fuel: nat, name: Symbol, scope: ScopeId, h: Heap)
    requires scope < |h| && name in h[scope].bindings
    ensures D.EvalForm(fuel, Sym(name), scope, h) == D.Done(h[scope].bindings[name], h)
  {
    OwnBindingWins(h, scope, name);
  }

  /** Where the scope does not bind it, a symbol evaluates to what it evaluates to in the first
      parent in which it does not fail, and is unbound when it is unbound in all of them. */
  lemma {:induction false} SymbolIsInherited(fuel: nat, name: Symbol, scope: ScopeId, h: Heap)
    requires Acyclic(h) && scope < |h| && name !in h[scope].bindings
    ensures var o := D.EvalForm(fuel, Sym(name), scope, h);
            if o.Done? then
              exists i :: 0 <= i < |h[scope].parents| && D.EvalForm(fuel, Sym(name), h[scope].parents[i], h) == o
                          && forall j :: 0 <= j < i ==>
                               Unbound(D.EvalForm(fuel, Sym(name), h[scope].parents[j], h), name, h)
            else
              && Unbound(o, name, h)
              && forall i :: 0 <= i < |h[scope].parents| ==>
                   Unbound(D.EvalForm(fuel, Sym(name), h[scope].parents[i], h), name, h)
  {
    AcyclicAnswers(h, scope, name);
    var r := Get(h, scope, name);
    if r.Found? {
      var i :| 0 <= i < |h[scope].parents| && Get(h, h[scope].parents[i], name) == r
               && forall j :: 0 <= j < i ==> Get(h, h[scope].parents[j], name).Missing?;
      assert D.EvalForm(fuel, Sym(name), h[scope].parents[i], h) == D.EvalForm(fuel, Sym(name), scope, h);
    }
  }

  ghost predicate Unbound(o: D.Outcome<Value>, name: Symbol, h: Heap) {
    o == D.Error(UnboundError(name), h)
  }

  // ---- Applications

  /** Applying what the first form evaluates to, under any metadata: operatives, builtins,
      wrapped combiners and symbols are called, anything else cannot be. */
  lemma {:induction false} ApplicationCalls(fuel: nat, a: Value, d: Value, scope: ScopeId, h: Heap)
    requires fuel > 0 && D.EvalForm(fuel, a, scope, h).Done?
    ensures var o := D.EvalForm(fuel, a, scope, h);
            var f := Strip(o.value);
            D.EvalForm(fuel, Pair(a, d), scope, h)
            == if f.Operative? || f.Builtin? || f.Wrapped? || f.Sym? || f.SymbolOperative? then
                 D.CallCombiner(fuel - 1, f, d, scope, o.heap)
               else D.Error(ApplyError, o.heap)
  {
  }

  /** `(:key scope)` is the key of the scope. */
  lemma {:induction false} KeywordReadsScope(fuel: nat, key: Symbol, source: ScopeId, scope: ScopeId, h: Heap)
    requires fuel > 3 && Get(h, source, key).Found?
    ensures D.EvalForm(fuel, Pair(Keyword(key), Pair(Scope(source), Empty)), scope, h)
            == D.Done(Get(h, source, key).value, h)
  {
    ApplicationCalls(fuel, Keyword(key), Pair(Scope(source), Empty), scope, h);
    WrappedEvaluatesOperand(fuel - 1, SymbolOperative(key), Scope(source), scope, h);
    assert D.CallCombiner(fuel - 1, Sym(key), Pair(Scope(source), Empty), scope, h)
        == D.CallCombiner(fuel - 1, Wrapped(SymbolOperative(key)), Pair(Scope(source), Empty), scope, h);
  }

  // ---- Builtins

  lemma {:induction false} ThreeInList(u: Value, v: Value, w: Value)
    ensures ToSlice(NewList([u, v, w])) == Some([u, v, w]) && NewList([u, v, w]).Pair?
  {
    assert [u, v, w][1..] == [v, w] && [v, w][1..] == [w] && [w][1..] == [];
    assert NewList([v, w]) == Pair(v, NewList([w])) && NewList([w]) == Pair(w, Empty);
    TwoInList(v, w);
    assert NewList([u, v, w]) == Pair(u, Pair(v, Pair(w, Empty)));
    assert [u] + [v, w] == [u, v, w];
  }

  lemma {:induction false} PairInList(v: Value, w: Value)
    ensures NewList([v, w]) == Pair(v, Pair(w, Empty)) && ToSlice(NewList([v, w])) == Some([v, w])
  {
    assert [v, w][1..] == [w] && [w][1..] == [];
    assert NewList([w]) == Pair(w, Empty);
    TwoInList(v, w);
  }

  /** `if` takes its last form when the condition is false or null, under any metadata, and the
      one before for every other value. */
  lemma {:induction false} IfTakesBranch(fuel: nat, cond: Value, yes: Value, no: Value, scope: ScopeId, h: Heap)
    requires fuel > 0 && D.EvalForm(fuel, cond, scope, h).Done?
    ensures var o := D.EvalForm(fuel, cond, scope, h);
            D.CallCombiner(fuel, Builtin(If), NewList([cond, yes, no]), scope, h)
            == D.EvalForm(fuel - 1, if Strip(o.value) == Bool(false) || Strip(o.value) == Null then no else yes,
                          scope, o.heap)
  {
    ThreeInList(cond, yes, no);
  }

  /** `eval` evaluates its form in the scope it is given, not in the caller's. */
  lemma {:induction false} EvalUsesGivenScope(fuel: nat, form: Value, given: ScopeId, caller: ScopeId, h: Heap)
    ensures D.CallCombiner(fuel, Builtin(Eval), NewList([form, Scope(given)]), caller, h)
            == D.EvalForm(fuel, form, given, h)
  {
    PairInList(form, Scope(given));
  }

  /** `def` binds the symbol in the calling scope to the value of its form and answers the
      symbol. */
  lemma {:induction false} DefBindsInCaller(fuel: nat, name: Symbol, form: Value, caller: ScopeId, h: Heap)
    requires fuel > 0 && D.EvalForm(fuel, form, caller, h).Done?
    ensures var o := D.EvalForm(fuel, form, caller, h);
            var r := D.CallCombiner(fuel, Builtin(Def), NewList([Sym(name), form]), caller, h);
            && r.Done? && r.value == Sym(name) && |r.heap| == |o.heap|
            && (caller < |o.heap| ==> name in r.heap[caller].bindings && r.heap[caller].bindings[name] == o.value)
            && forall id: nat :: id < |o.heap| && id != caller ==> r.heap[id] == o.heap[id]
  {
    PairInList(Sym(name), form);
    var args, o := NewList([Sym(name), form]), D.EvalForm(fuel, form, caller, h);
    var h1 := Set(o.heap, caller, name, o.value);
    assert D.BindTo(fuel - 1, Sym(name), caller, o.value, o.heap) == D.Done(Sym(name), h1);
    assert IsBindable(Sym(name)) && IsList(args);
    assert D.CallBuiltin(fuel, Def, args, caller, h) == D.Done(Sym(name), h1);
  }

  /** `do` evaluates the first form for its effect and then the second, whose value it
      answers. */
  lemma {:induction false} DoThreadsHeap(fuel: nat, first: Value, second: Value, scope: ScopeId, h: Heap)
    requires fuel > 0 && D.EvalForm(fuel, first, scope, h).Done?
    ensures D.CallCombiner(fuel, Builtin(Do), NewList([first, second]), scope, h)
            == D.EvalForm(fuel - 1, second, scope, D.EvalForm(fuel, first, scope, h).heap)
  {
    PairInList(first, second);
    assert [first, second][1..] == [second];
    var h1 := D.EvalForm(fuel, first, scope, h).heap;
    assert D.EvalSequence(fuel - 1, [second], scope, h1) == D.EvalForm(fuel - 1, second, scope, h1);
    assert D.EvalSequence(fuel, [first, second], scope, h) == D.EvalSequence(fuel - 1, [second], scope, h1);
    assert D.CallBuiltin(fuel, Do, NewList([first, second]), scope, h)
        == D.EvalSequence(fuel, [first, second], scope, h);
  }

  /** Calling a wrapped combiner on one operand evaluates the operand once in the calling scope
      and passes the value on. */
  lemma {:induction false} WrappedEvaluatesOperand(fuel: nat, underlying: Value, operand: Value, scope: ScopeId,
        h: Heap)
    requires fuel > 1 && D.EvalForm(fuel, operand, scope, h).Done?
    ensures var o := D.EvalForm(fuel, operand, scope, h);
            D.CallCombiner(fuel, Wrapped(underlying), Pair(operand, Empty), scope, h)
            == D.CallCombiner(fuel - 1, underlying, Pair(o.value, Empty), scope, o.heap)
  {
    var o := D.EvalForm(fuel, operand, scope, h);
    assert D.EvalForm(fuel - 1, Empty, scope, o.heap) == D.Done(Empty, o.heap);
    assert D.EvalOperands(fuel, operand, Empty, scope, h) == D.Done(Pair(o.value, Empty), o.heap);
  }

  /** With two operands the left one is evaluated first and the right one sees its effects. */
  lemma {:induction false} OperandsLeftToRight(fuel: nat, underlying: Value, left: Value, right: Value, scope: ScopeId,
        h: Heap)
    requires fuel > 2 && D.EvalForm(fuel, left, scope, h).Done?
    requires D.EvalForm(fuel - 1, right, scope, D.EvalForm(fuel, left, scope, h).heap).Done?
    ensures var o := D.EvalForm(fuel, left, scope, h);
            var o' := D.EvalForm(fuel - 1, right, scope, o.heap);
            D.CallCombiner(fuel, Wrapped(underlying), Pair(left, Pair(right, Empty)), scope, h)
            == D.CallCombiner(fuel - 1, underlying, Pair(o.value, Pair(o'.value, Empty)), scope, o'.heap)
  {
    var o := D.EvalForm(fuel, left, scope, h);
    var o' := D.EvalForm(fuel - 1, right, scope, o.heap);
    assert D.EvalForm(fuel - 2, Empty, scope, o'.heap) == D.Done(Empty, o'.heap);
    assert D.EvalOperands(fuel - 1, right, Empty, scope, o.heap) == D.Done(Pair(o'.value, Empty), o'.heap);
    assert D.EvalOperands(fuel, left, Pair(right, Empty), scope, h)
        == D.Done(Pair(o.value, Pair(o'.value, Empty)), o'.heap);
  }

  /** A cons list evaluates its first part and then its rest, to a pair. */
  lemma {:induction false} ConsLeftToRight(fuel: nat, left: Value, right: Value, scope: ScopeId, h: Heap)
    requires fuel > 0 && D.EvalForm(fuel, left, scope, h).Done?
    requires D.EvalForm(fuel - 1, right, scope, D.EvalForm(fuel, left, scope, h).heap).Done?
    ensures var o := D.EvalForm(fuel, left, scope, h);
            var o' := D.EvalForm(fuel - 1, right, scope, o.heap);
            D.EvalForm(fuel, Cons(left, right), scope, h) == D.Done(Pair(o.value, o'.value), o'.heap)
  {
  }

  // ---- Bind forms

  lemma {:induction false} TwoConses(v: Value, w: Value)
    ensures NewConsList([v, w]) == Cons(v, Cons(w, Empty))
  {
    assert [v, w][1..] == [w] && [w][1..] == [];
    assert NewConsList([w]) == Cons(w, Empty);
  }

  /** Scopes in a bind form become the parents of the new scope, in order: of two that bind a
      name the first is asked. */
  lemma {:induction false} ScopesBecomeParents(fuel: nat, first: ScopeId, second: ScopeId, scope: ScopeId, h: Heap)
    requires fuel > 2
    ensures D.EvalForm(fuel, Bind([Scope(first), Scope(second)]), scope, h)
            == D.Done(Scope(|h|), h + [ScopeObject([first, second], map[])])
  {
    var forms := [Scope(first), Scope(second)];
    var sub, h0 := |h|, NewScope(h, [scope]);
    TwoConses(forms[0], forms[1]);
    assert D.EvalForm(fuel - 1, Cons(Scope(second), Empty), sub, h0) == D.Done(Pair(Scope(second), Empty), h0);
    assert D.EvalForm(fuel, NewConsList(forms), sub, h0) == D.Done(Pair(Scope(first), Pair(Scope(second), Empty)), h0);
    TwoInList(Scope(first), Scope(second));
    var h1 := SetParents(h0, sub, []);
    var h2 := AddParent(h1, sub, first);
    var h3 := AddParent(h2, sub, second);
    assert [Scope(first), Scope(second)][1..] == [Scope(second)] && [Scope(second)][1..] == [];
    assert D.Build(fuel - 1, [], sub, h3) == D.Done(Scope(sub), h3);
    assert D.Build(fuel - 1, [Scope(second)], sub, h2) == D.Done(Scope(sub), h3);
    assert D.Build(fuel - 1, [Scope(first), Scope(second)], sub, h1) == D.Done(Scope(sub), h3);
    assert h3[sub].parents == [first, second];
    assert h3 == h + [ScopeObject([first, second], map[])];
  }

  // ---- Operatives are lexically scoped

  /** Every parent is a scope of the heap. */
  ghost predicate Closed(h: Heap) {
    forall id, i :: 0 <= id < |h| && 0 <= i < |h[id].parents| ==> h[id].parents[i] < |h|
  }

  lemma {:induction false} SameLookup(h: Heap, more: Heap, id: ScopeId, name: Symbol, path: set<ScopeId>)
    requires Closed(h) && id < |h| && h <= more
    ensures Lookup(more, id, name, path) == Lookup(h, id, name, path)
    decreases Ids(h) - path, 1, 0
  {
    if id !in path && name !in h[id].bindings {
      Narrower(h, path, id);
      SameLookupIn(h, more, h[id].parents, name, path + {id});
    }
  }

  lemma {:induction false} SameLookupIn(h: Heap, more: Heap, ids: seq<ScopeId>, name: Symbol, path: set<ScopeId>)
    requires Closed(h) && h <= more && forall i :: 0 <= i < |ids| ==> ids[i] < |h|
    ensures LookupIn(more, ids, name, path) == LookupIn(h, ids, name, path)
    decreases Ids(h) - path, 2, |ids|
  {
    if ids != [] {
      SameLookup(h, more, ids[0], name, path);
      SameLookupIn(h, more, ids[1..], name, path);
    }
  }

  /** A name that an operative does not bind itself is what it is where the operative was made,
      whoever calls it. */
  lemma {:induction false} BodySeesStaticScope(fuel: nat, name: Symbol, made: ScopeId, val: Value, caller: ScopeId,
        h: Heap)
    requires fuel > 1 && Closed(h) && made < |h| && Get(h, made, name).Found?
    ensures var o := D.CallCombiner(fuel, Operative(Ignore, Ignore, Sym(name), made), val, caller, h);
            o.Done? && o.value == Get(h, made, name).value && h <= o.heap
  {
    var sub, h0 := |h|, NewScope(h, [made]);
    assert D.BindTo(fuel, Ignore, sub, val, h0) == D.Done(Ignore, h0);
    assert D.BindTo(fuel - 1, Ignore, sub, Scope(caller), h0) == D.Done(Ignore, h0);
    SameLookup(h, h0, made, name, {});
    OneParent(h0, sub, made, name);
  }

  lemma {:induction false} OneParent(h: Heap, id: ScopeId, parent: ScopeId, name: Symbol)
    requires id < |h| && h[id].parents == [parent] && name !in h[id].bindings && parent < id
    requires Get(h, parent, name).Found? && forall other :: 0 <= other < id ==> Below(h, other, id)
    ensures Get(h, id, name) == Get(h, parent, name)
  {
    Unreached(h, id, parent, name, {}, {id});
    assert LookupIn(h, [parent], name, {id}) == Lookup(h, parent, name, {id});
    assert {} + {id} == {id};
  }

  /** No parent of the scope reaches up to `top`. */
  ghost predicate Below(h: Heap, id: ScopeId, top: ScopeId)
    requires id < |h|
  {
    forall i :: 0 <= i < |h[id].parents| ==> h[id].parents[i] < top
  }

  /** Putting a scope that cannot be reached on the path changes nothing. */
  lemma {:induction false} Unreached(h: Heap, top: ScopeId, id: ScopeId, name: Symbol, path: set<ScopeId>,
        longer: set<ScopeId>)
    requires top < |h| && id < top && longer == path + {top}
    requires forall other :: 0 <= other < top ==> Below(h, other, top)
    ensures Lookup(h, id, name, longer) == Lookup(h, id, name, path)
    decreases Ids(h) - path, 1, 0
  {
    if id !in path && name !in h[id].bindings {
      Narrower(h, path, id);
      assert Below(h, id, top);
      UnreachedIn(h, top, h[id].parents, name, path + {id}, longer + {id});
    }
  }

  lemma {:induction false} UnreachedIn(h: Heap, top: ScopeId, ids: seq<ScopeId>, name: Symbol, path: set<ScopeId>,
        longer: set<ScopeId>)
    requires top < |h| && longer == path + {top} && forall i :: 0 <= i < |ids| ==> ids[i] < top
    requires forall other :: 0 <= other < top ==> Below(h, other, top)
    ensures LookupIn(h, ids, name, longer) == LookupIn(h, ids, name, path)
    decreases Ids(h) - path, 2, |ids|
  {
    if ids != [] {
      Unreached(h, top, ids[0], name, path, longer);
      UnreachedIn(h, top, ids[1..], name, path, longer);
    }
  }

  /** The body sees its operands and the calling scope under the names the operative gives
      them. */
  lemma {:induction false} BodySeesOperandsAndCaller(fuel: nat, formal: Symbol, scopeFormal: Symbol, made: ScopeId,
        val: Value, caller: ScopeId, h: Heap)
    requires fuel > 1 && formal != scopeFormal
    ensures var op := Operative(Sym(formal), Sym(scopeFormal), Sym(formal), made);
            var o := D.CallCombiner(fuel, op, val, caller, h);
            o.Done? && o.value == val
    ensures var op := Operative(Sym(formal), Sym(scopeFormal), Sym(scopeFormal), made);
            var o := D.CallCombiner(fuel, op, val, caller, h);
            o.Done? && o.value == Scope(caller)
  {
    var sub, h0 := |h|, NewScope(h, [made]);
    var h1 := Set(h0, sub, formal, val);
    var h2 := Set(h1, sub, scopeFormal, Scope(caller));
    assert D.BindTo(fuel, Sym(formal), sub, val, h0) == D.Done(Sym(formal), h1);
    assert D.BindTo(fuel - 1, Sym(scopeFormal), sub, Scope(caller), h1) == D.Done(Sym(scopeFormal), h2);
    OwnBindingWins(h2, sub, formal);
    OwnBindingWins(h2, sub, scopeFormal);
  }

  /** `op` remembers the scope it is evaluated in. */
  lemma {:induction false} OpRemembersScope(fuel: nat, formals: Value, scopeFormal: Value, body: Value, scope: ScopeId,
        h: Heap)
    requires IsBindable(formals) && IsBindable(scopeFormal)
    ensures D.CallCombiner(fuel, Builtin(Op), NewList([formals, scopeFormal, body]), scope, h)
            == D.Done(Operative(formals, scopeFormal, body, scope), h)
  {
    ThreeInList(formals, scopeFormal, body);
  }

  // ---- Symbols as functions

  /** Calling a symbol on a scope is looking the symbol up there; the second argument is the
      answer where it is not found. */
  lemma {:induction false} SymbolCallLooksUp(fuel: nat, name: Symbol, source: ScopeId, default: Value, scope: ScopeId,
        h: Heap)
    requires !Get(h, source, name).Diverges?
    ensures D.CallCombiner(fuel, SymbolOperative(name), NewList([Scope(source), default]), scope, h)
            == D.Done(if Get(h, source, name).Found? then Get(h, source, name).value else default, h)
    ensures Get(h, source, name).Missing? ==>
              D.CallCombiner(fuel, SymbolOperative(name), Pair(Scope(source), Empty), scope, h)
              == D.Error(UnboundError(name), h)
  {
    PairInList(Scope(source), default);
  }

  // ---- Constants as patterns

  /** A constant pattern accepts an equal value, whatever its metadata, and refuses every
      other; it binds nothing. */
  lemma {:induction false} ConstantPattern(fuel: nat, constant: Value, scope: ScopeId, val: Value, h: Heap)
    requires IsConstant(constant)
    ensures D.BindTo(fuel, constant, scope, val, h)
            == if Strip(val) == constant then D.Done(constant, h) else D.Error(BindMismatch, h)
    ensures D.BindTo(fuel, Ignore, scope, val, h) == D.Done(Ignore, h)
  {
  }

  /** A keyword pattern accepts the symbol of its name and refuses every other value. */
  lemma {:induction false} KeywordPattern(fuel: nat, name: Symbol, scope: ScopeId, val: Value, h: Heap)
    ensures D.BindTo(fuel, Keyword(name), scope, val, h)
            == if Strip(val) == Sym(name) then D.Done(Keyword(name), h) else D.Error(BindMismatch, h)
  {
  }
}
