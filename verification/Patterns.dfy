/** Destructuring: what a binding changes, and what it leaves bound.

    A binding changes no more than the symbols that EachBinding reports when the defaults and
    metadata in the pattern are effect free; a default that calls can change any scope.  A
    successful binding has bound all of them. */
module Patterns {
  import opened Options
  import opened Values
  import D = DirectEval

  /** Forms whose evaluation changes no scope that is there already: everything but calls, and
      metadata of anything but constants, which attaches to what the form evaluates to. */
  predicate EffectFree(form: Value) {
    match form
    case Pair(_, _) => false
    case Cons(a, d) => EffectFree(a) && EffectFree(d)
    case Bind(forms) => AllEffectFree(forms)
    case Annotate(inner, _, comment, meta) =>
      && EffectFree(inner)
      && (|MetaBind(comment, meta)| == 0 || IsConstant(inner))
      && EffectFreeMeta(meta)
    case Annotated(value, _) => EffectFree(value)
    case _ => true
  }

  predicate AllEffectFree(forms: seq<Value>) {
    forms == [] || (EffectFree(forms[0]) && AllEffectFree(forms[1..]))
  }

  predicate EffectFreeMeta(meta: Meta) {
    meta.NoMeta? || AllEffectFree(meta.forms)
  }

  /** Patterns whose defaults and metadata are effect free. */
  predicate Plain(pattern: Value) {
    match pattern
    case Pair(a, d) => Plain(a) && Plain(d)
    case Cons(a, d) => Plain(a) && Plain(d)
    case Bind(forms) => PlainEntries(forms)
    case Annotate(inner, _, _, meta) => Plain(inner) && EffectFreeMeta(meta)
    case Annotated(value, _) => Plain(value)
    case _ => true
  }

  predicate PlainEntries(forms: seq<Value>) {
    |forms| < 2 || (PlainKey(forms[0]) && Plain(forms[1]) && PlainEntries(forms[2..]))
  }

  predicate PlainKey(vf: Value) {
    match DecodeEntry(vf)
    case GoodEntry(Entry(_, Some(default))) => EffectFree(default)
    case _ => true
  }

  ghost function NamesOf(names: seq<(Symbol, Range)>): set<Symbol> {
    set p | p in names :: p.0
  }

  ghost predicate Distinct(names: seq<(Symbol, Range)>) {
    forall i, j :: 0 <= i < j < |names| ==> names[i].0 != names[j].0
  }

  lemma {:induction false} NamesOfThen(r: Reported, s: Reported)
    ensures NamesOf(r.names) <= NamesOf(Then(r, s).names)
    ensures r.complete ==> NamesOf(Then(r, s).names) == NamesOf(r.names) + NamesOf(s.names)
  {
    if r.complete {
      forall x | x in NamesOf(r.names) + NamesOf(s.names)
        ensures x in NamesOf(Then(r, s).names)
      {
        if x in NamesOf(r.names) {
          var p :| p in r.names && p.0 == x;
          assert p in r.names + s.names;
        } else {
          var p :| p in s.names && p.0 == x;
          assert p in r.names + s.names;
        }
      }
    }
  }

  lemma {:induction false} NamesOfWithRange(r: Reported, range: Range)
    ensures NamesOf(WithRange(r, range).names) == NamesOf(r.names)
    ensures Distinct(WithRange(r, range).names) <==> Distinct(r.names)
  {
    var w := WithRange(r, range).names;
    assert forall i :: 0 <= i < |w| ==> w[i].0 == r.names[i].0;
    forall x | x in NamesOf(r.names)
      ensures x in NamesOf(w)
    {
      var p :| p in r.names && p.0 == x;
      var i :| 0 <= i < |r.names| && r.names[i] == p;
      assert w[i] in w;
    }
    forall x | x in NamesOf(w)
      ensures x in NamesOf(r.names)
    {
      var p :| p in w && p.0 == x;
      var i :| 0 <= i < |w| && w[i] == p;
      assert r.names[i] in r.names;
    }
  }

  /** h' is h with new scopes and, in one scope, changed values of the given symbols, none of
      which it loses. */
  ghost predicate ChangesOnly(h: Heap, h': Heap, scope: ScopeId, names: set<Symbol>) {
    && scope < |h| <= |h'|
    && (forall id: nat :: id < |h| && id != scope ==> h'[id] == h[id])
    && h'[scope].parents == h[scope].parents
    && h[scope].bindings.Keys <= h'[scope].bindings.Keys <= h[scope].bindings.Keys + names
    && (forall x :: x in h[scope].bindings && x !in names ==> h'[scope].bindings[x] == h[scope].bindings[x])
  }

  lemma {:induction false} ChangesCompose(h: Heap, h1: Heap, h2: Heap, scope: ScopeId, a: set<Symbol>,
        b: set<Symbol>, names: set<Symbol>)
    requires ChangesOnly(h, h1, scope, a) && ChangesOnly(h1, h2, scope, b) && a <= names && b <= names
    ensures ChangesOnly(h, h2, scope, names)
  {
  }

  /** The outcome binds exactly the reported symbols: all of them when it succeeds, no other
      in any case. */
  ghost predicate BindsReported(o: D.Outcome<Value>, h: Heap, scope: ScopeId, r: Reported) {
    match o
    case Done(_, h') =>
      ChangesOnly(h, h', scope, NamesOf(r.names)) && r.complete && NamesOf(r.names) <= h'[scope].bindings.Keys
    case Error(_, h') => ChangesOnly(h, h', scope, NamesOf(r.names))
    case OutOfFuel => true
  }

  // ---- Effect-free forms

  /** The outcome only adds scopes to the heap. */
  ghost predicate OnlyAdds(o: D.Outcome<Value>, h: Heap) {
    match o
    case Done(_, h') => h <= h'
    case Error(_, h') => h <= h'
    case OutOfFuel => true
  }

  lemma {:induction false} MetaIsEffectFree(comment: string, meta: Meta)
    requires EffectFreeMeta(meta)
    ensures AllEffectFree(MetaBind(comment, meta))
  {
    var doc := [Keyword("doc"), Str(comment)];
    assert AllEffectFree(doc[1..][1..]) && AllEffectFree(doc[1..]) && AllEffectFree(doc);
    if meta.NoMeta? {
      assert [] + doc == doc;
    } else {
      assert meta.forms + [] == meta.forms;
      EffectFreeParts(meta.forms, doc);
    }
  }

  lemma {:induction false} EffectFreeParts(forms: seq<Value>, more: seq<Value>)
    requires AllEffectFree(forms) && AllEffectFree(more)
    ensures AllEffectFree(forms + more)
  {
    if forms == [] {
      assert forms + more == more;
    } else {
      EffectFreeParts(forms[1..], more);
      assert (forms + more)[1..] == forms[1..] + more;
    }
  }

  lemma {:induction false} EffectFreeList(forms: seq<Value>)
    requires AllEffectFree(forms)
    ensures EffectFree(NewConsList(forms))
  {
    if forms != [] {
      EffectFreeList(forms[1..]);
    }
  }

  /** Building a scope changes that scope only. */
  lemma {:induction false} BuildChangesOne(fuel: nat, vs: seq<Value>, scope: ScopeId, h: Heap)
    requires scope < |h|
    ensures OnlyAdds(D.Build(fuel, vs, scope, h), h[..scope])
    ensures var o := D.Build(fuel, vs, scope, h);
            o.Done? ==> o.value == Scope(scope) && scope < |o.heap|
    decreases |vs|
  {
    if vs != [] {
      if DecodeSymbol(vs[0]).Some? {
        if |vs| >= 2 && fuel > 0 {
          var h1 := Set(h, scope, DecodeSymbol(vs[0]).value, WithMetaOf(vs[0], vs[1]));
          BuildChangesOne(fuel - 1, vs[2..], scope, h1);
          assert h1[..scope] == h[..scope];
        }
      } else if DecodeScope(vs[0]).Some? {
        var h1 := AddParent(h, scope, DecodeScope(vs[0]).value);
        BuildChangesOne(fuel, vs[1..], scope, h1);
        assert h1[..scope] == h[..scope];
      }
    }
  }

  /** A bind form evaluates to a new scope. */
  lemma {:induction false} BindFormOnlyAdds(fuel: nat, forms: seq<Value>, scope: ScopeId, h: Heap)
    requires AllEffectFree(forms)
    ensures var o := D.EvalForm(fuel, Bind(forms), scope, h);
            OnlyAdds(o, h) && (o.Done? ==> o.value == Scope(|h|) && |h| < |o.heap|)
    decreases fuel, Size(Bind(forms)), 0
  {
    var sub, h0 := |h|, NewScope(h, [scope]);
    EffectFreeList(forms);
    EffectFreeKeepsHeap(fuel, NewConsList(forms), sub, h0);
    var o := D.EvalForm(fuel, NewConsList(forms), sub, h0);
    if o.Done? && fuel > 0 && ToSlice(o.value).Some? {
      var h1 := SetParents(o.heap, sub, []);
      BuildChangesOne(fuel - 1, ToSlice(o.value).value, sub, h1);
      assert h1[..sub] == h;
    }
  }

  /** Evaluating an effect-free form leaves every scope as it was. */
  lemma {:induction false} EffectFreeKeepsHeap(fuel: nat, form: Value, scope: ScopeId, h: Heap)
    requires EffectFree(form)
    ensures OnlyAdds(D.EvalForm(fuel, form, scope, h), h)
    decreases fuel, Size(form), 1
  {
    match form
    case Cons(a, d) =>
      EffectFreeKeepsHeap(fuel, a, scope, h);
      var o := D.EvalForm(fuel, a, scope, h);
      if o.Done? && fuel > 0 {
        EffectFreeKeepsHeap(fuel - 1, d, scope, o.heap);
      }
    case Bind(forms) => BindFormOnlyAdds(fuel, forms, scope, h);
    case Annotate(inner, range, comment, meta) =>
      if |MetaBind(comment, meta)| == 0 {
        EffectFreeKeepsHeap(fuel, inner, scope, h);
      } else {
        AnnotatedConstantKeepsHeap(fuel, form, scope, h);
      }
    case Annotated(value, _) => EffectFreeKeepsHeap(fuel, value, scope, h);
    case _ =>
  }

  lemma {:induction false} AnnotatedConstantKeepsHeap(fuel: nat, form: Value, scope: ScopeId, h: Heap)
    requires form.Annotate? && |MetaBind(form.comment, form.meta)| > 0
    requires IsConstant(form.form) && EffectFreeMeta(form.meta)
    ensures OnlyAdds(D.EvalForm(fuel, form, scope, h), h)
    decreases fuel, Size(form), 0
  {
    assert D.EvalForm(fuel, form.form, scope, h) == D.Done(form.form, h);
    if fuel > 0 {
      MetaIsEffectFree(form.comment, form.meta);
      BindFormOnlyAdds(fuel - 1, MetaBind(form.comment, form.meta), scope, h);
      assert EachBinding(form.form).names == [];
    }
  }

  // ---- What a binding changes

  /** A binding, whether it succeeds or fails, touches no scope but its own and there only
      symbols that EachBinding reports; when it succeeds it has bound every one of them. */
  lemma {:induction false} BindBindsReported(fuel: nat, pattern: Value, scope: ScopeId, val: Value, h: Heap)
    requires Plain(pattern) && scope < |h|
    ensures BindsReported(D.BindTo(fuel, pattern, scope, val, h), h, scope, EachBinding(pattern))
    decreases fuel, pattern, 1
  {
    match pattern
    case Pair(_, _) => ListBindsReported(fuel, pattern, scope, val, h);
    case Cons(_, _) => ListBindsReported(fuel, pattern, scope, val, h);
    case Bind(forms) => FormsBindReported(fuel, forms, scope, val, h);
    case Annotate(_, _, _, _) => AnnotatedBindsReported(fuel, pattern, scope, val, h);
    case Annotated(value, _) => BindBindsReported(fuel, value, scope, val, h);
    case _ =>
  }

  lemma {:induction false} AnnotatedBindsReported(fuel: nat, pattern: Value, scope: ScopeId, val: Value, h: Heap)
    requires pattern.Annotate? && Plain(pattern) && scope < |h|
    ensures BindsReported(D.BindTo(fuel, pattern, scope, val, h), h, scope, EachBinding(pattern))
    decreases fuel, pattern, 0
  {
    NamesOfWithRange(EachBinding(pattern.form), pattern.range);
    var bind := MetaBind(pattern.comment, pattern.meta);
    if |bind| == 0 {
      BindBindsReported(fuel, pattern.form, scope, val, h);
    } else {
      MetaFirst(fuel, pattern, scope, val, h);
      AfterMetaReported(D.EvalForm(fuel, Bind(bind), scope, h), fuel, pattern, scope, val, h);
    }
  }

  /** Binding an annotated pattern once its metadata is evaluated: the inner pattern to the
      value wrapped in the metadata scope. */
  ghost function AfterMeta(o: D.Outcome<Value>, fuel: nat, pattern: Value, scope: ScopeId, val: Value,
        meta: ScopeId): D.Outcome<Value>
    requires pattern.Annotate?
  {
    match o
    case Done(_, h) =>
      if fuel == 0 then D.OutOfFuel
      else D.BindTo(fuel - 1, pattern.form, scope, Annotated(val, meta), SetRange(h, meta, pattern.range))
    case _ => o
  }

  /** The metadata of a pattern comes first and makes a new scope. */
  lemma {:induction false} MetaFirst(fuel: nat, pattern: Value, scope: ScopeId, val: Value, h: Heap)
    requires pattern.Annotate? && EffectFreeMeta(pattern.meta) && |MetaBind(pattern.comment, pattern.meta)| > 0
    ensures MetaScopeAdded(D.EvalForm(fuel, Bind(MetaBind(pattern.comment, pattern.meta)), scope, h), h)
    ensures D.BindTo(fuel, pattern, scope, val, h)
            == AfterMeta(D.EvalForm(fuel, Bind(MetaBind(pattern.comment, pattern.meta)), scope, h),
                         fuel, pattern, scope, val, |h|)
  {
    MetaIsEffectFree(pattern.comment, pattern.meta);
    BindFormOnlyAdds(fuel, MetaBind(pattern.comment, pattern.meta), scope, h);
  }

  ghost predicate MetaScopeAdded(o: D.Outcome<Value>, h: Heap) {
    OnlyAdds(o, h) && (o.Done? ==> |h| < |o.heap|)
  }

  lemma {:induction false} AfterMetaReported(o: D.Outcome<Value>, fuel: nat, pattern: Value, scope: ScopeId, val: Value,
        h: Heap)
    requires pattern.Annotate? && Plain(pattern.form) && scope < |h| && MetaScopeAdded(o, h)
    ensures BindsReported(AfterMeta(o, fuel, pattern, scope, val, |h|), h, scope, EachBinding(pattern.form))
    decreases fuel, pattern.form, 2
  {
    if o.Done? && fuel > 0 {
      var h1 := SetRange(o.heap, |h|, pattern.range);
      BindBindsReported(fuel - 1, pattern.form, scope, Annotated(val, |h|), h1);
      AfterNewScopes(AfterMeta(o, fuel, pattern, scope, val, |h|), h, h1, scope, EachBinding(pattern.form));
    }
  }

  lemma {:induction false} AfterNewScopes(o: D.Outcome<Value>, h: Heap, h1: Heap, scope: ScopeId, r: Reported)
    requires scope < |h| && h <= h1 && BindsReported(o, h1, scope, r)
    ensures BindsReported(o, h, scope, r)
  {
    assert ChangesOnly(h, h1, scope, {});
    if !o.OutOfFuel? {
      ChangesCompose(h, h1, if o.Done? then o.heap else o.at, scope, {}, NamesOf(r.names), NamesOf(r.names));
    }
  }

  lemma {:induction false} ListBindsReported(fuel: nat, pattern: Value, scope: ScopeId, val: Value, h: Heap)
    requires (pattern.Pair? || pattern.Cons?) && Plain(pattern.a) && Plain(pattern.d) && scope < |h|
    ensures BindsReported(D.BindList(fuel, pattern.a, pattern.d, scope, val, h), h, scope,
                          Then(EachBinding(pattern.a), EachBinding(pattern.d)))
    decreases fuel, pattern, 0
  {
    var a, d := pattern.a, pattern.d;
    var ra, rd := EachBinding(a), EachBinding(d);
    var v := Strip(val);
    NothingChanged(h, scope, Then(ra, rd));
    if !((v.Pair? || v.Cons?) && IsBindable(a)) {
      D.BindListRefuses(fuel, a, d, scope, val, h);
    } else {
      D.BindListInParts(fuel, a, d, scope, val, h);
      BindBindsReported(fuel, a, scope, v.a, h);
      SecondReported(D.BindTo(fuel, a, scope, v.a, h), fuel, d, scope, v.d, h, ra);
    }
  }

  lemma {:induction false} SecondReported(o: D.Outcome<Value>, fuel: nat, d: Value, scope: ScopeId, rest: Value,
        h: Heap, r: Reported)
    requires Plain(d) && scope < |h| && BindsReported(o, h, scope, r)
    ensures BindsReported(D.AfterFirst(o, fuel, d, scope, rest), h, scope, Then(r, EachBinding(d)))
    decreases fuel, d, 3
  {
    FirstPartReported(o, h, scope, r, EachBinding(d));
    if o.Done? && fuel > 0 {
      RestPartReported(o, fuel - 1, d, scope, rest, h, r);
    }
  }

  lemma {:induction false} RestPartReported(o: D.Outcome<Value>, fuel: nat, d: Value, scope: ScopeId, rest: Value,
        h: Heap, r: Reported)
    requires Plain(d) && scope < |h| && o.Done? && BindsReported(o, h, scope, r)
    ensures BindsReported(D.RestOutcome(fuel, o.value, d, scope, rest, o.heap), h, scope, Then(r, EachBinding(d)))
    decreases fuel, d, 2
  {
    FirstPartReported(o, h, scope, r, EachBinding(d));
    if IsBindable(d) {
      BindBindsReported(fuel, d, scope, rest, o.heap);
      PairReported(o, D.BindTo(fuel, d, scope, rest, o.heap), h, scope, r, EachBinding(d));
    }
  }

  lemma {:induction false} PairReported(o: D.Outcome<Value>, o': D.Outcome<Value>, h: Heap, scope: ScopeId,
        r: Reported, s: Reported)
    requires o.Done? && BindsReported(o, h, scope, r) && BindsReported(o', o.heap, scope, s)
    ensures BindsReported(D.PairOutcome(o.value, o'), h, scope, Then(r, s))
  {
    ReportedInTurn(o, o', h, scope, r, s);
  }

  lemma {:induction false} NothingChanged(h: Heap, scope: ScopeId, r: Reported)
    requires scope < |h|
    ensures ChangesOnly(h, h, scope, NamesOf(r.names))
  {
  }

  /** What the first of two patterns bound is within what both report. */
  lemma {:induction false} FirstPartReported(o: D.Outcome<Value>, h: Heap, scope: ScopeId, r: Reported, s: Reported)
    requires BindsReported(o, h, scope, r)
    ensures o.Error? ==> ChangesOnly(h, o.at, scope, NamesOf(Then(r, s).names))
    ensures o.Done? ==> ChangesOnly(h, o.heap, scope, NamesOf(Then(r, s).names))
  {
    NamesOfThen(r, s);
  }

  /** Two bindings one after the other bind what the two patterns report. */
  lemma {:induction false} ReportedInTurn(o: D.Outcome<Value>, o': D.Outcome<Value>, h: Heap, scope: ScopeId,
        r: Reported, s: Reported)
    requires o.Done? && BindsReported(o, h, scope, r) && BindsReported(o', o.heap, scope, s)
    ensures BindsReported(o', h, scope, Then(r, s))
  {
    NamesOfThen(r, s);
    if !o'.OutOfFuel? {
      ChangesCompose(h, o.heap, if o'.Done? then o'.heap else o'.at, scope,
                     NamesOf(r.names), NamesOf(s.names), NamesOf(Then(r, s).names));
    }
  }

  lemma {:induction false} FormsBindReported(fuel: nat, forms: seq<Value>, scope: ScopeId, val: Value, h: Heap)
    requires PlainEntries(forms) && scope < |h|
    ensures BindsReported(D.BindForms(fuel, forms, scope, val, h), h, scope, EachBinding(Bind(forms)))
    decreases fuel, forms, 1
  {
    NothingChanged(h, scope, EachBinding(Bind(forms)));
    if DecodeScope(val).Some? && |forms| % 2 == 0 && forms != []
       && IsBindable(forms[1]) && DecodeEntry(forms[0]).GoodEntry? {
      FirstEntryOutcome(fuel, forms, scope, val, h);
      EntryBindsReported(fuel, forms, scope, DecodeScope(val).value, DecodeEntry(forms[0]).entry, h);
    }
  }

  lemma {:induction false} FirstEntryOutcome(fuel: nat, forms: seq<Value>, scope: ScopeId, val: Value, h: Heap)
    requires DecodeScope(val).Some? && |forms| % 2 == 0 && forms != []
    requires IsBindable(forms[1]) && DecodeEntry(forms[0]).GoodEntry?
    ensures var source, entry := DecodeScope(val).value, DecodeEntry(forms[0]).entry;
            D.BindForms(fuel, forms, scope, val, h)
            == EntryOutcome(fuel, forms, scope, source, D.EntryValue(fuel, entry, source, scope, h))
  {
  }

  ghost function EntryOutcome(fuel: nat, forms: seq<Value>, scope: ScopeId, source: ScopeId,
        o: D.Outcome<Value>): D.Outcome<Value>
    requires |forms| >= 2
  {
    match o
    case Done(v, h) =>
      if fuel == 0 then D.OutOfFuel
      else RestOutcome(D.BindTo(fuel - 1, forms[1], scope, v, h), fuel - 1, forms[2..], scope, source)
    case _ => o
  }

  lemma {:induction false} EntryBindsReported(fuel: nat, forms: seq<Value>, scope: ScopeId, source: ScopeId,
        entry: Entry, h: Heap)
    requires |forms| >= 2 && Plain(forms[1]) && PlainEntries(forms[2..]) && scope < |h|
    requires entry.default.Some? ==> EffectFree(entry.default.value)
    ensures BindsReported(EntryOutcome(fuel, forms, scope, source, D.EntryValue(fuel, entry, source, scope, h)),
                          h, scope, Then(EachBinding(forms[1]), EachValueBinding(forms[2..])))
    decreases fuel, forms, 0
  {
    var r, rest := EachBinding(forms[1]), EachValueBinding(forms[2..]);
    EntryOnlyAdds(fuel, entry, source, scope, h);
    var o := D.EntryValue(fuel, entry, source, scope, h);
    if !o.OutOfFuel? {
      assert ChangesOnly(h, if o.Done? then o.heap else o.at, scope, NamesOf(Then(r, rest).names));
    }
    if o.Done? && fuel > 0 {
      BindBindsReported(fuel - 1, forms[1], scope, o.value, o.heap);
      var o1 := D.BindTo(fuel - 1, forms[1], scope, o.value, o.heap);
      RestReported(o1, fuel - 1, forms[2..], scope, source, o.heap, r);
      AfterNewScopes(RestOutcome(o1, fuel - 1, forms[2..], scope, source), h, o.heap, scope, Then(r, rest));
    }
  }

  ghost function RestOutcome(o: D.Outcome<Value>, fuel: nat, rest: seq<Value>, scope: ScopeId,
        source: ScopeId): D.Outcome<Value> {
    match o
    case Done(_, h) => if fuel == 0 then D.OutOfFuel else D.BindForms(fuel - 1, rest, scope, Scope(source), h)
    case _ => o
  }

  lemma {:induction false} RestReported(o: D.Outcome<Value>, fuel: nat, rest: seq<Value>, scope: ScopeId,
        source: ScopeId, h: Heap, r: Reported)
    requires PlainEntries(rest) && scope < |h| && BindsReported(o, h, scope, r)
    ensures BindsReported(RestOutcome(o, fuel, rest, scope, source), h, scope, Then(r, EachValueBinding(rest)))
    decreases fuel, rest, 1
  {
    FirstPartReported(o, h, scope, r, EachValueBinding(rest));
    if o.Done? && fuel > 0 {
      FormsBindReported(fuel - 1, rest, scope, Scope(source), o.heap);
      ReportedInTurn(o, D.BindForms(fuel - 1, rest, scope, Scope(source), o.heap), h, scope, r, EachValueBinding(rest));
    }
  }

  /** Looking a key up, or evaluating its default, leaves every scope as it was. */
  lemma {:induction false} EntryOnlyAdds(fuel: nat, entry: Entry, source: ScopeId, scope: ScopeId, h: Heap)
    requires entry.default.Some? ==> EffectFree(entry.default.value)
    ensures OnlyAdds(D.EntryValue(fuel, entry, source, scope, h), h)
  {
    if entry.default.Some? {
      EffectFreeKeepsHeap(fuel, entry.default.value, scope, h);
    }
  }

  lemma {:induction false} TwoInList(v: Value, w: Value)
    ensures ToSlice(Pair(v, Pair(w, Empty))) == Some([v, w])
  {
    assert ToSlice(Empty) == Some([]);
    assert ToSlice(Pair(w, Empty)) == Some([w] + []);
    assert [w] + [] == [w] && [v] + [w] == [v, w];
  }

  /** The form `(def y 1)`. */
  function DefineY(): Value {
    Pair(Builtin(Def), Pair(Sym("y"), Pair(Int(1), Empty)))
  }

  lemma {:induction false} DefineYBinds(fuel: nat, scope: ScopeId, h: Heap)
    requires fuel > 2
    ensures D.EvalForm(fuel, DefineY(), scope, h) == D.Done(Sym("y"), Set(h, scope, "y", Int(1)))
  {
    var operands := DefineY().d;
    TwoInList(Sym("y"), Int(1));
    assert D.EvalForm(fuel - 1, Int(1), scope, h) == D.Done(Int(1), h);
    assert D.CallBuiltin(fuel - 1, Def, operands, scope, h) == D.Done(Sym("y"), Set(h, scope, "y", Int(1)));
  }

  lemma {:induction false} OneEntry(fuel: nat, forms: seq<Value>, scope: ScopeId, source: ScopeId, name: Symbol,
        o: D.Outcome<Value>, h: Heap)
    requires |forms| == 2 && DecodeEntry(forms[0]).GoodEntry? && forms[1] == Sym(name) && fuel > 1
    requires o == D.EntryValue(fuel, DecodeEntry(forms[0]).entry, source, scope, h) && o.Done?
    ensures EachBinding(Bind(forms)) == Reported([(name, NO_RANGE)], true)
    ensures D.BindForms(fuel, forms, scope, Scope(source), h)
            == D.Done(Bind([]), Set(o.heap, scope, name, o.value))
  {
    FirstEntryOutcome(fuel, forms, scope, Scope(source), h);
    assert forms[2..] == [];
    assert EachValueBinding(forms) == Reported([(name, NO_RANGE)] + [], true);
  }

  /** Effect-free defaults are needed: the pattern {[:x (def y 1)] x} binds y as well, which
      EachBinding does not report. */
  lemma {:induction false} DefaultBindsUnreported(h: Heap)
    requires h == [ScopeObject([], map[]), ScopeObject([], map[])]
    ensures var forms := [Pair(Keyword("x"), Pair(DefineY(), Empty)), Sym("x")];
            var o := D.BindForms(9, forms, 1, Scope(0), h);
            && EachBinding(Bind(forms)) == Reported([("x", NO_RANGE)], true)
            && o.Done? && 1 < |o.heap| && "y" in o.heap[1].bindings && "y" !in h[1].bindings
  {
    var forms := [Pair(Keyword("x"), Pair(DefineY(), Empty)), Sym("x")];
    TwoInList(Keyword("x"), DefineY());
    var entry := Entry("x", Some(DefineY()));
    assert DecodeEntry(forms[0]) == GoodEntry(entry);
    DefineYBinds(9, 1, h);
    assert Lookup(h, 0, "x", {}) == Missing;
    OneEntry(9, forms, 1, 0, "x", D.EntryValue(9, entry, 0, 1, h), h);
  }
}
