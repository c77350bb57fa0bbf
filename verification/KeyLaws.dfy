/** Bind patterns: which value each name of a pattern gets from the matched scope. */
module KeyLaws {
  import opened Options
  import opened Values
  import opened ScopeLookup
  import opened Patterns
  import D = DirectEval

  /** The pattern {:key name} binds the name to what the key is in the matched scope; with a
      default, {[:key form] name}, to the value of the form in the binding scope where the
      matched scope has no such key; and it fails where there is neither. */
  lemma {:induction false} KeyIsRead(fuel: nat, key: Symbol, name: Symbol, form: Value, source: ScopeId, scope: ScopeId,
        h: Heap)
    requires fuel > 1 && scope < |h| && !Get(h, source, key).Diverges?
    ensures var r := Get(h, source, key);
            && Binds(D.BindTo(fuel, Bind([Keyword(key), Sym(name)]), scope, Scope(source), h),
                     if r.Found? then D.Done(r.value, h) else D.Error(UnboundError(key), h), scope, name)
            && Binds(D.BindTo(fuel, Bind([Pair(Keyword(key), Pair(form, Empty)), Sym(name)]), scope, Scope(source), h),
                     if r.Found? then D.Done(r.value, h) else D.EvalForm(fuel, form, scope, h), scope, name)
  {
    var plain, full := [Keyword(key), Sym(name)], [Pair(Keyword(key), Pair(form, Empty)), Sym(name)];
    TwoInList(Keyword(key), form);
    assert DecodeEntry(plain[0]) == GoodEntry(Entry(key, None));
    assert DecodeEntry(full[0]) == GoodEntry(Entry(key, Some(form)));
    EntryBinds(fuel, plain, key, None, name, source, scope, h);
    EntryBinds(fuel, full, key, Some(form), name, source, scope, h);
  }

  /** The outcome binds the name to the value, or fails as getting the value fails. */
  ghost predicate Binds(o: D.Outcome<Value>, value: D.Outcome<Value>, scope: ScopeId, name: Symbol) {
    match value
    case Done(v, h) => o.Done? && o.heap == Set(h, scope, name, v)
    case _ => o == value
  }

  lemma {:induction false} EntryBinds(fuel: nat, forms: seq<Value>, key: Symbol, default: Option<Value>, name: Symbol,
        source: ScopeId, scope: ScopeId, h: Heap)
    requires fuel > 1 && !Get(h, source, key).Diverges?
    requires |forms| == 2 && DecodeEntry(forms[0]) == GoodEntry(Entry(key, default)) && forms[1] == Sym(name)
    ensures var r := Get(h, source, key);
            Binds(D.BindTo(fuel, Bind(forms), scope, Scope(source), h),
                  if r.Found? then D.Done(r.value, h)
                  else if default.Some? then D.EvalForm(fuel, default.value, scope, h)
                  else D.Error(UnboundError(key), h), scope, name)
  {
    var o := D.EntryValue(fuel, Entry(key, default), source, scope, h);
    if o.Done? {
      OneEntry(fuel, forms, scope, source, name, o, h);
    } else {
      FirstEntryOutcome(fuel, forms, scope, Scope(source), h);
    }
  }

  /** All scopes that can be reached from those in the set are in it. */
  ghost predicate ClosedUnder(h: Heap, reach: set<ScopeId>) {
    forall id, i :: id in reach && id < |h| && 0 <= i < |h[id].parents| ==> h[id].parents[i] in reach
  }

  ghost predicate SameIn(h: Heap, h': Heap, reach: set<ScopeId>) {
    |h| == |h'| && forall id :: id in reach && id < |h| ==> h'[id] == h[id]
  }

  lemma {:induction false} LookupWithin(h: Heap, h': Heap, reach: set<ScopeId>, id: ScopeId, name: Symbol,
        path: set<ScopeId>)
    requires ClosedUnder(h, reach) && SameIn(h, h', reach) && id in reach
    ensures Lookup(h', id, name, path) == Lookup(h, id, name, path)
    decreases Ids(h) - path, 1, 0
  {
    if id < |h| && id !in path && name !in h[id].bindings {
      Narrower(h, path, id);
      LookupInWithin(h, h', reach, h[id].parents, name, path + {id});
    }
  }

  lemma {:induction false} LookupInWithin(h: Heap, h': Heap, reach: set<ScopeId>, ids: seq<ScopeId>, name: Symbol,
        path: set<ScopeId>)
    requires ClosedUnder(h, reach) && SameIn(h, h', reach) && forall i :: 0 <= i < |ids| ==> ids[i] in reach
    ensures LookupIn(h', ids, name, path) == LookupIn(h, ids, name, path)
    decreases Ids(h) - path, 2, |ids|
  {
    if ids != [] {
      LookupWithin(h, h', reach, ids[0], name, path);
      LookupInWithin(h, h', reach, ids[1..], name, path);
    }
  }

  /** The forms of a bind pattern with these keys, which may have defaults, and names. */
  function FormsOf(ps: seq<(Value, Symbol)>): seq<Value> {
    if ps == [] then [] else [ps[0].0, Sym(ps[0].1)] + FormsOf(ps[1..])
  }

  /** Every key is in the matched scope. */
  ghost predicate KeysFound(ps: seq<(Value, Symbol)>, source: ScopeId, h: Heap) {
    forall p :: p in ps ==> DecodeEntry(p.0).GoodEntry? && Get(h, source, DecodeEntry(p.0).entry.key).Found?
  }

  ghost predicate DistinctNames(ps: seq<(Value, Symbol)>) {
    forall i, j :: 0 <= i < j < |ps| ==> ps[i].1 != ps[j].1
  }

  /** Each name has the value that its key has in the matched scope, and nothing else changed. */
  ghost predicate AllRead(o: D.Outcome<Value>, ps: seq<(Value, Symbol)>, source: ScopeId, scope: ScopeId, h: Heap) {
    && o.Done? && scope < |h| == |o.heap|
    && (forall id: nat :: id < |h| && id != scope ==> o.heap[id] == h[id])
    && (forall p :: p in ps && DecodeEntry(p.0).GoodEntry? ==>
          && p.1 in o.heap[scope].bindings
          && Get(h, source, DecodeEntry(p.0).entry.key) == Found(o.heap[scope].bindings[p.1]))
    && (forall x :: x in h[scope].bindings && (forall p :: p in ps ==> p.1 != x) ==>
          x in o.heap[scope].bindings && o.heap[scope].bindings[x] == h[scope].bindings[x])
  }

  /** A bind pattern of any length, matched with a scope that does not inherit from the binding
      scope and has all keys, binds each name to what its key is in the matched scope, and
      changes nothing else. */
  lemma {:induction false} KeysAreRead(fuel: nat, ps: seq<(Value, Symbol)>, source: ScopeId, scope: ScopeId, h: Heap,
        reach: set<ScopeId>)
    requires scope < |h| && ClosedUnder(h, reach) && source in reach && scope !in reach
    requires KeysFound(ps, source, h) && DistinctNames(ps) && fuel >= 2 * |ps|
    ensures |FormsOf(ps)| == 2 * |ps|
    ensures AllRead(D.BindForms(fuel, FormsOf(ps), scope, Scope(source), h), ps, source, scope, h)
    decreases |ps|
  {
    if ps != [] {
      var entry, name := DecodeEntry(ps[0].0).entry, ps[0].1;
      assert ps[0] in ps;
      var h1 := Set(h, scope, name, Get(h, source, entry.key).value);
      RestIsFound(ps, source, scope, h, h1, reach);
      KeysAreRead(fuel - 2, ps[1..], source, scope, h1, reach);
      FirstKeyIsRead(fuel, ps, source, scope, h);
      ReadInTurn(D.BindForms(fuel - 2, FormsOf(ps[1..]), scope, Scope(source), h1), ps, source, scope, h, h1);
    }
  }

  /** Binding a name of the scope changes no key of the matched scope. */
  lemma {:induction false} RestIsFound(ps: seq<(Value, Symbol)>, source: ScopeId, scope: ScopeId, h: Heap, h1: Heap,
        reach: set<ScopeId>)
    requires ps != [] && ClosedUnder(h, reach) && source in reach && SameIn(h, h1, reach)
    requires KeysFound(ps, source, h) && DistinctNames(ps)
    ensures KeysFound(ps[1..], source, h1) && DistinctNames(ps[1..])
    ensures forall p :: p in ps[1..] ==>
              && DecodeEntry(p.0).GoodEntry? && p.1 != ps[0].1
              && Get(h1, source, DecodeEntry(p.0).entry.key) == Get(h, source, DecodeEntry(p.0).entry.key)
  {
    forall p | p in ps[1..]
      ensures DecodeEntry(p.0).GoodEntry? && p.1 != ps[0].1
      ensures Get(h1, source, DecodeEntry(p.0).entry.key) == Get(h, source, DecodeEntry(p.0).entry.key)
      ensures Get(h, source, DecodeEntry(p.0).entry.key).Found?
    {
      var i :| 0 <= i < |ps[1..]| && ps[1..][i] == p;
      assert ps[i + 1] == p && p in ps;
      LookupWithin(h, h1, reach, source, DecodeEntry(p.0).entry.key, {});
    }
  }

  lemma {:induction false} FirstKeyIsRead(fuel: nat, ps: seq<(Value, Symbol)>, source: ScopeId, scope: ScopeId, h: Heap)
    requires ps != [] && KeysFound(ps, source, h) && fuel >= 2 && |FormsOf(ps[1..])| % 2 == 0
    ensures D.BindForms(fuel, FormsOf(ps), scope, Scope(source), h)
            == D.BindForms(fuel - 2, FormsOf(ps[1..]), scope, Scope(source),
                           Set(h, scope, ps[0].1, Get(h, source, DecodeEntry(ps[0].0).entry.key).value))
  {
    var forms, entry := FormsOf(ps), DecodeEntry(ps[0].0).entry;
    assert ps[0] in ps && forms[2..] == FormsOf(ps[1..]);
    FirstEntryOutcome(fuel, forms, scope, Scope(source), h);
    assert D.EntryValue(fuel, entry, source, scope, h) == D.Done(Get(h, source, entry.key).value, h);
  }

  lemma {:induction false} ReadInTurn(o: D.Outcome<Value>, ps: seq<(Value, Symbol)>, source: ScopeId, scope: ScopeId,
        h: Heap, h1: Heap)
    requires ps != [] && scope < |h| && KeysFound(ps, source, h) && AllRead(o, ps[1..], source, scope, h1)
    requires h1 == Set(h, scope, ps[0].1, Get(h, source, DecodeEntry(ps[0].0).entry.key).value)
    requires forall p :: p in ps[1..] ==>
               && DecodeEntry(p.0).GoodEntry? && p.1 != ps[0].1
               && Get(h1, source, DecodeEntry(p.0).entry.key) == Get(h, source, DecodeEntry(p.0).entry.key)
    ensures AllRead(o, ps, source, scope, h)
  {
    assert ps == [ps[0]] + ps[1..] && ps[0] in ps;
    assert forall p :: p in ps ==> p == ps[0] || p in ps[1..];
    assert forall p :: p in ps[1..] ==> p in ps;
  }
}
