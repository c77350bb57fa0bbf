/** Metadata: what the scope holds that a comment or `^{...}` attaches.

    An annotation's keys are bound in a new scope.  For a value this scope inherits from the
    metadata the value had before, so that older keys stay visible unless the annotation binds
    them; a definition puts its value's older metadata in front of its own. */
module MetadataLaws {
  import opened Options
  import opened Values
  import opened ScopeLookup
  import opened Patterns
  import D = DirectEval

  // ---- Bind forms of keywords and constants

  /** The forms of `{:key constant ...}`. */
  function KeyForms(ps: seq<(Symbol, Value)>): seq<Value> {
    if ps == [] then [] else [Keyword(ps[0].0), ps[0].1] + KeyForms(ps[1..])
  }

  function KeyValues(ps: seq<(Symbol, Value)>): seq<Value> {
    if ps == [] then [] else [Sym(ps[0].0), ps[0].1] + KeyValues(ps[1..])
  }

  /** The bindings that come of them, later ones winning. */
  function BoundBy(ps: seq<(Symbol, Value)>, bindings: map<Symbol, Value>): map<Symbol, Value>
    decreases |ps|
  {
    if ps == [] then bindings else BoundBy(ps[1..], bindings[ps[0].0 := ps[0].1])
  }

  ghost predicate AllConstant(ps: seq<(Symbol, Value)>) {
    forall p :: p in ps ==> IsConstant(p.1)
  }

  lemma {:induction false} ConsEvaluates(fuel: nat, a: Value, d: Value, va: Value, vd: Value, scope: ScopeId, h: Heap)
    requires fuel > 0 && D.EvalForm(fuel, a, scope, h) == D.Done(va, h)
    requires D.EvalForm(fuel - 1, d, scope, h) == D.Done(vd, h)
    ensures D.EvalForm(fuel, Cons(a, d), scope, h) == D.Done(Pair(va, vd), h)
  {
  }

  /** The keys and constants as a list of cons cells, and evaluated as a list of pairs. */
  function ConsOf(ps: seq<(Symbol, Value)>): Value {
    if ps == [] then Empty else Cons(Keyword(ps[0].0), Cons(ps[0].1, ConsOf(ps[1..])))
  }

  function PairsOf(ps: seq<(Symbol, Value)>): Value {
    if ps == [] then Empty else Pair(Sym(ps[0].0), Pair(ps[0].1, PairsOf(ps[1..])))
  }

  lemma {:induction false} KeysAreLists(ps: seq<(Symbol, Value)>)
    ensures NewConsList(KeyForms(ps)) == ConsOf(ps) && ToSlice(PairsOf(ps)) == Some(KeyValues(ps))
    decreases |ps|
  {
    if ps != [] {
      KeysAreLists(ps[1..]);
      ConsTwo(Keyword(ps[0].0), ps[0].1, KeyForms(ps[1..]));
      SliceTwo(Sym(ps[0].0), ps[0].1, PairsOf(ps[1..]), KeyValues(ps[1..]));
    }
  }

  lemma {:induction false} ConsTwo(v: Value, w: Value, rest: seq<Value>)
    ensures NewConsList([v, w] + rest) == Cons(v, Cons(w, NewConsList(rest)))
  {
    assert ([v, w] + rest)[1..] == [w] + rest && ([w] + rest)[1..] == rest;
  }

  lemma {:induction false} SliceTwo(v: Value, w: Value, tail: Value, rest: seq<Value>)
    requires ToSlice(tail) == Some(rest)
    ensures ToSlice(Pair(v, Pair(w, tail))) == Some([v, w] + rest)
  {
    assert ToSlice(Pair(w, tail)) == Some([w] + rest);
    assert [v] + ([w] + rest) == [v, w] + rest;
  }

  lemma {:induction false} KeysEvaluate(fuel: nat, ps: seq<(Symbol, Value)>, scope: ScopeId, h: Heap)
    requires AllConstant(ps) && fuel >= 2 * |ps|
    ensures D.EvalForm(fuel, ConsOf(ps), scope, h) == D.Done(PairsOf(ps), h)
    decreases |ps|
  {
    if ps == [] {
      ConstantEvaluates(fuel, Empty, scope, h);
    } else {
      assert ps[0] in ps && forall p :: p in ps[1..] ==> p in ps;
      KeysEvaluate(fuel - 2, ps[1..], scope, h);
      OneKeyEvaluates(fuel, ps[0].0, ps[0].1, ConsOf(ps[1..]), PairsOf(ps[1..]), scope, h);
    }
  }

  lemma {:induction false} ConstantEvaluates(fuel: nat, constant: Value, scope: ScopeId, h: Heap)
    requires IsConstant(constant)
    ensures D.EvalForm(fuel, constant, scope, h) == D.Done(constant, h)
  {
  }

  lemma {:induction false} OneKeyEvaluates(fuel: nat, key: Symbol, constant: Value, tail: Value, values: Value,
        scope: ScopeId, h: Heap)
    requires fuel > 1 && IsConstant(constant) && D.EvalForm(fuel - 2, tail, scope, h) == D.Done(values, h)
    ensures D.EvalForm(fuel, Cons(Keyword(key), Cons(constant, tail)), scope, h)
            == D.Done(Pair(Sym(key), Pair(constant, values)), h)
  {
    ConstantEvaluates(fuel - 1, constant, scope, h);
    ConsEvaluates(fuel - 1, constant, tail, constant, values, scope, h);
    ConsEvaluates(fuel, Keyword(key), Cons(constant, tail), Sym(key), Pair(constant, values), scope, h);
  }

  lemma {:induction false} KeysBuild(fuel: nat, ps: seq<(Symbol, Value)>, scope: ScopeId, h: Heap)
    requires AllConstant(ps) && fuel >= |ps| && scope < |h|
    ensures D.Build(fuel, KeyValues(ps), scope, h)
            == D.Done(Scope(scope), h[scope := ScopeObject(h[scope].parents, BoundBy(ps, h[scope].bindings))])
    decreases |ps|
  {
    if ps == [] {
      assert h[scope := h[scope]] == h;
    } else {
      var vs := KeyValues(ps);
      var h1 := Set(h, scope, ps[0].0, ps[0].1);
      assert ps[0] in ps && forall p :: p in ps[1..] ==> p in ps;
      assert vs[2..] == KeyValues(ps[1..]) && Strip(vs[0]) == Sym(ps[0].0);
      assert D.BindTo(fuel, Sym(ps[0].0), scope, ps[0].1, h) == D.Done(Sym(ps[0].0), h1);
      KeysBuild(fuel - 1, ps[1..], scope, h1);
    }
  }

  lemma {:induction false} BindFormBuilds(fuel: nat, forms: seq<Value>, scope: ScopeId, h: Heap, content: Value,
        vs: seq<Value>, h': Heap, r: D.Outcome<Value>)
    requires fuel > 0 && ToSlice(content) == Some(vs)
    requires D.EvalForm(fuel, NewConsList(forms), |h|, NewScope(h, [scope])) == D.Done(content, h')
    requires D.Build(fuel - 1, vs, |h|, SetParents(h', |h|, [])) == r
    ensures D.EvalForm(fuel, Bind(forms), scope, h) == r
  {
  }

  lemma {:induction false} KeysBuildAnew(fuel: nat, ps: seq<(Symbol, Value)>, scope: ScopeId, h: Heap)
    requires AllConstant(ps) && fuel >= |ps|
    ensures D.Build(fuel, KeyValues(ps), |h|, SetParents(NewScope(h, [scope]), |h|, []))
            == D.Done(Scope(|h|), h + [ScopeObject([], BoundBy(ps, map[]))])
  {
    var h1 := h + [ScopeObject([], map[])];
    assert SetParents(NewScope(h, [scope]), |h|, []) == h1;
    KeysBuild(fuel, ps, |h|, h1);
    assert h1[|h| := ScopeObject([], BoundBy(ps, map[]))] == h + [ScopeObject([], BoundBy(ps, map[]))];
  }

  /** A bind form of keywords and constants makes a new scope without parents that binds them. */
  lemma {:induction false} KeysMakeScope(fuel: nat, ps: seq<(Symbol, Value)>, scope: ScopeId, h: Heap)
    requires AllConstant(ps) && fuel > 2 * |ps|
    ensures D.EvalForm(fuel, Bind(KeyForms(ps)), scope, h)
            == D.Done(Scope(|h|), h + [ScopeObject([], BoundBy(ps, map[]))])
  {
    KeysAreLists(ps);
    FormsMakeScope(fuel, ps, KeyForms(ps), ConsOf(ps), PairsOf(ps), KeyValues(ps), scope, h, NewScope(h, [scope]));
  }

  lemma {:induction false} FormsMakeScope(fuel: nat, ps: seq<(Symbol, Value)>, forms: seq<Value>, list: Value,
        content: Value, vs: seq<Value>, scope: ScopeId, h: Heap, h0: Heap)
    requires AllConstant(ps) && fuel > 2 * |ps| && h0 == NewScope(h, [scope])
    requires list == ConsOf(ps) == NewConsList(forms) && content == PairsOf(ps)
    requires vs == KeyValues(ps) && ToSlice(content) == Some(vs)
    ensures D.EvalForm(fuel, Bind(forms), scope, h) == D.Done(Scope(|h|), h + [ScopeObject([], BoundBy(ps, map[]))])
  {
    KeysEvaluate(fuel, ps, |h|, h0);
    KeysBuildAnew(fuel - 1, ps, scope, h);
    BindFormBuilds(fuel, forms, scope, h, content, vs, h0,
                   D.Done(Scope(|h|), h + [ScopeObject([], BoundBy(ps, map[]))]));
  }

  // ---- What an annotation attaches

  /** The annotation's metadata are these keys, and its comment, if any, as `doc` after them. */
  ghost predicate HasKeys(form: Value, ps: seq<(Symbol, Value)>) {
    && form.Annotate? && AllConstant(ps) && ps != []
    && exists own :: OwnKeys(form, own) && ps == own + if form.comment != "" then [("doc", Str(form.comment))] else []
  }

  ghost predicate OwnKeys(form: Value, own: seq<(Symbol, Value)>)
    requires form.Annotate?
  {
    if form.meta.NoMeta? then own == [] else form.meta.forms == KeyForms(own)
  }

  lemma {:induction false} KeyFormsConcat(ps: seq<(Symbol, Value)>, qs: seq<(Symbol, Value)>)
    ensures KeyForms(ps + qs) == KeyForms(ps) + KeyForms(qs)
    decreases |ps|
  {
    if ps == [] {
      assert ps + qs == qs;
    } else {
      assert (ps + qs)[1..] == ps[1..] + qs;
      KeyFormsConcat(ps[1..], qs);
      var two := [Keyword(ps[0].0), ps[0].1];
      assert two + (KeyForms(ps[1..]) + KeyForms(qs)) == (two + KeyForms(ps[1..])) + KeyForms(qs);
    }
  }

  lemma {:induction false} KeysAreForms(form: Value, ps: seq<(Symbol, Value)>)
    requires HasKeys(form, ps)
    ensures MetaBind(form.comment, form.meta) == KeyForms(ps) && |KeyForms(ps)| > 0
  {
    var own :| OwnKeys(form, own) && ps == own + if form.comment != "" then [("doc", Str(form.comment))] else [];
    var docs: seq<(Symbol, Value)> := if form.comment != "" then [("doc", Str(form.comment))] else [];
    KeyFormsConcat(own, docs);
    if form.comment != "" {
      assert docs[1..] == [] && KeyForms(docs) == [Keyword("doc"), Str(form.comment)] + [];
    }
  }

  lemma {:induction false} AnnotateFinishes(fuel: nat, form: Value, scope: ScopeId, h: Heap, res: Value, h1: Heap,
        metaVal: Value, h2: Heap)
    requires form.Annotate? && |MetaBind(form.comment, form.meta)| > 0 && fuel > 0
    requires D.EvalForm(fuel, form.form, scope, h) == D.Done(res, h1)
    requires D.EvalForm(fuel - 1, Bind(MetaBind(form.comment, form.meta)), scope, h1) == D.Done(metaVal, h2)
    ensures D.EvalForm(fuel, form, scope, h) == D.Of(FinishMeta(h2, scope, res, metaVal, form.range))
  {
  }

  lemma {:induction false} AnnotatedInParts(fuel: nat, form: Value, ps: seq<(Symbol, Value)>, scope: ScopeId, h: Heap)
    requires HasKeys(form, ps) && fuel > 2 * |ps| + 1 && D.EvalForm(fuel, form.form, scope, h).Done?
    ensures var o := D.EvalForm(fuel, form.form, scope, h);
            D.EvalForm(fuel, form, scope, h)
            == D.Of(FinishMeta(o.heap + [ScopeObject([], BoundBy(ps, map[]))], scope, o.value, Scope(|o.heap|),
                               form.range))
  {
    var o := D.EvalForm(fuel, form.form, scope, h);
    KeysAreForms(form, ps);
    KeysMakeScope(fuel - 1, ps, scope, o.heap);
    AnnotateFinishes(fuel, form, scope, h, o.value, o.heap, Scope(|o.heap|),
                     o.heap + [ScopeObject([], BoundBy(ps, map[]))]);
  }

  /** The value of an annotated form has the annotation's keys as its metadata, and for other
      names what it had before. */
  lemma {:induction false} ValueHasKeys(fuel: nat, form: Value, ps: seq<(Symbol, Value)>, scope: ScopeId, h: Heap)
    requires HasKeys(form, ps) && fuel > 2 * |ps| + 1
    requires D.EvalForm(fuel, form.form, scope, h).Done?
    requires var res := D.EvalForm(fuel, form.form, scope, h).value;
             !res.Annotate? && EachBinding(res).names == []
    ensures var o := D.EvalForm(fuel, form.form, scope, h);
            var r := D.EvalForm(fuel, form, scope, h);
            && r.Done? && r.value.Annotated? && Strip(r.value) == Strip(o.value)
            && r.value.metaScope == |o.heap|
            && r.heap
               == o.heap + [ScopeObject(if o.value.Annotated? then [o.value.metaScope] else [], BoundBy(ps, map[]))]
  {
    var o := D.EvalForm(fuel, form.form, scope, h);
    AnnotatedInParts(fuel, form, ps, scope, h);
    MetadataAttached(o.heap, scope, o.value, BoundBy(ps, map[]), form.range);
  }

  lemma {:induction false} MetadataAttached(h: Heap, scope: ScopeId, res: Value, bindings: map<Symbol, Value>,
        range: Range)
    requires !res.Annotate? && EachBinding(res).names == []
    ensures var r := FinishMeta(h + [ScopeObject([], bindings)], scope, res, Scope(|h|), range);
            && r.Success? && r.value.Annotated? && Strip(r.value) == Strip(res) && r.value.metaScope == |h|
            && r.heap == h + [ScopeObject(if res.Annotated? then [res.metaScope] else [], bindings)]
  {
    var h1 := h + [ScopeObject([], bindings)];
    var parents := if res.Annotated? then [res.metaScope] else [];
    assert [] + parents == parents;
    var h2 := AttachMeta(h1, res, |h|).1;
    assert h2 == h + [ScopeObject(parents, bindings)];
    assert AnnotateBindings(h2, scope, [], |h|, range) == Some(h2);
  }

  lemma {:induction false} BindingGoesOn(fuel: nat, form: Value, scope: ScopeId, val: Value, h: Heap, m: ScopeId,
        h1: Heap)
    requires form.Annotate? && form.form.Sym? && |MetaBind(form.comment, form.meta)| > 0 && fuel > 0
    requires D.EvalForm(fuel, Bind(MetaBind(form.comment, form.meta)), scope, h) == D.Done(Scope(m), h1)
    ensures D.BindTo(fuel, form, scope, val, h)
            == D.Done(form.form, Set(SetRange(h1, m, form.range), scope, form.form.name, Annotated(val, m)))
  {
    assert D.BindTo(fuel - 1, form.form, scope, Annotated(val, m), SetRange(h1, m, form.range))
        == D.Done(form.form, Set(SetRange(h1, m, form.range), scope, form.form.name, Annotated(val, m)));
  }

  /** A symbol bound through an annotation is bound to the value with the annotation's keys and
      the place of the pattern as its metadata. */
  lemma {:induction false} BindingHasKeys(fuel: nat, form: Value, ps: seq<(Symbol, Value)>, scope: ScopeId, val: Value,
        h: Heap)
    requires HasKeys(form, ps) && form.form.Sym? && fuel > 2 * |ps| && scope < |h|
    ensures var r := D.BindTo(fuel, form, scope, val, h);
            && r.Done? && scope < |r.heap| == |h| + 1 && form.form.name in r.heap[scope].bindings
            && r.heap[scope].bindings[form.form.name] == Annotated(val, |h|)
            && Located(r.heap[|h|].bindings, form.range)
            && forall x :: x in BoundBy(ps, map[]) && x !in {"file", "line", "column"} ==>
                 x in r.heap[|h|].bindings && r.heap[|h|].bindings[x] == BoundBy(ps, map[])[x]
  {
    KeysAreForms(form, ps);
    KeysMakeScope(fuel, ps, scope, h);
    BindingGoesOn(fuel, form, scope, val, h, |h|, h + [ScopeObject([], BoundBy(ps, map[]))]);
  }

  /** The bindings say where something is. */
  predicate Located(bindings: map<Symbol, Value>, range: Range) {
    && "file" in bindings && bindings["file"] == File(range.file)
    && "line" in bindings && bindings["line"] == Int(range.startLn)
    && "column" in bindings && bindings["column"] == Int(range.startCol)
  }

  // ---- Definitions

  /** In a bind form the metadata of a key goes to the value it is bound to. */
  lemma {:induction false} KeyMetadataGoesToValue(fuel: nat, key: Symbol, m: ScopeId, val: Value, scope: ScopeId,
        h: Heap)
    requires fuel > 0 && scope < |h|
    ensures var o := D.Build(fuel, [Annotated(Sym(key), m), val], scope, h);
            o.Done? && scope < |o.heap| && key in o.heap[scope].bindings
            && o.heap[scope].bindings[key] == Annotated(val, m)
  {
    var vs := [Annotated(Sym(key), m), val];
    var h1 := Set(h, scope, key, Annotated(val, m));
    assert vs[2..] == [] && Strip(vs[0]) == Strip(Sym(key)) == Sym(key);
    assert D.BindTo(fuel, Sym(key), scope, Annotated(val, m), h) == D.Done(Sym(key), h1);
    assert D.Build(fuel - 1, [], scope, h1) == D.Done(Scope(scope), h1);
  }

  /** A commented definition leaves the symbol bound to its value with the comment as its doc
      and the place of the form as its line and column. */
  lemma {:induction false} DefinedSymbolHasDoc(fuel: nat, form: Value, scope: ScopeId, h: Heap, name: Symbol)
    requires fuel > 4 && form.Annotate? && form.comment != "" && form.meta.NoMeta?
    requires D.EvalForm(fuel, form.form, scope, h).Done? && D.EvalForm(fuel, form.form, scope, h).value == Sym(name)
    requires var h1 := D.EvalForm(fuel, form.form, scope, h).heap;
             && scope < |h1| && name in h1[scope].bindings
             && !h1[scope].bindings[name].Annotate? && !h1[scope].bindings[name].Annotated?
    ensures var h1 := D.EvalForm(fuel, form.form, scope, h).heap;
            var r := D.EvalForm(fuel, form, scope, h);
            && r.Done? && scope < |r.heap| && name in r.heap[scope].bindings
            && var v := r.heap[scope].bindings[name];
               && v.Annotated? && v.value == h1[scope].bindings[name]
               && Get(r.heap, v.metaScope, "line") == Found(Int(form.range.startLn))
               && Get(r.heap, v.metaScope, "column") == Found(Int(form.range.startCol))
               && Get(r.heap, v.metaScope, "file") == Found(File(form.range.file))
               && Get(r.heap, v.metaScope, "doc") == Found(Str(form.comment))
  {
    var h1 := D.EvalForm(fuel, form.form, scope, h).heap;
    var ps: seq<(Symbol, Value)> := [("doc", Str(form.comment))];
    assert OwnKeys(form, []) && ps == [] + [("doc", Str(form.comment))];
    AnnotatedInParts(fuel, form, ps, scope, h);
    assert ps[1..] == [] && BoundBy(ps, map[]) == BoundBy([], map["doc" := Str(form.comment)]);
    DefinitionIsAnnotated(h1 + [ScopeObject([], map["doc" := Str(form.comment)])], scope, name, |h1|, form.range,
                          Str(form.comment));
  }

  lemma {:induction false} DefinitionIsAnnotated(h: Heap, scope: ScopeId, name: Symbol, m: ScopeId, range: Range,
        doc: Value)
    requires |h| == m + 1 && scope < m && name in h[scope].bindings
    requires h[m] == ScopeObject([], map["doc" := doc])
    requires !h[scope].bindings[name].Annotate? && !h[scope].bindings[name].Annotated?
    ensures var r := FinishMeta(h, scope, Sym(name), Scope(m), range);
            && r.Success? && scope < |r.heap| && name in r.heap[scope].bindings
            && var v := r.heap[scope].bindings[name];
               && v.Annotated? && v.value == h[scope].bindings[name]
               && Get(r.heap, v.metaScope, "line") == Found(Int(range.startLn))
               && Get(r.heap, v.metaScope, "column") == Found(Int(range.startCol))
               && Get(r.heap, v.metaScope, "file") == Found(File(range.file))
               && Get(r.heap, v.metaScope, "doc") == Found(doc)
  {
    var b := |h|;
    var h1 := SetRange(NewScope(h, [m]), b, range);
    var was := h[scope].bindings[name];
    var h2 := Set(h1, scope, name, Annotated(was, b));
    OwnBindingWins(h1, scope, name);
    var names := [(name, NO_RANGE)];
    assert EachBinding(Sym(name)).names == names && names[1..] == [];
    assert AnnotateBindings(h2, scope, [], m, range) == Some(h2);
    assert AnnotateBindings(h, scope, names, m, range) == Some(h2);
    OwnBindingWins(h2, b, "line");
    OwnBindingWins(h2, b, "column");
    OwnBindingWins(h2, b, "file");
    assert "doc" !in h2[b].bindings && h2[b].parents == [m] && h2[m] == h[m];
    assert Lookup(h2, m, "doc", {b}) == Found(doc);
    assert LookupIn(h2, [m], "doc", {b}) == Found(doc);
    assert {} + {b} == {b};
  }

  /** A definition whose value has metadata already keeps it in front: its metadata is a new
      scope that inherits from the old one first and from the definition's second. */
  lemma {:induction false} OldMetadataComesFirst(h: Heap, scope: ScopeId, name: Symbol, m: ScopeId, range: Range,
        inner: Value, earlier: ScopeId)
    requires |h| == m + 1 && scope < m && earlier < m && name in h[scope].bindings
    requires h[scope].bindings[name] == Annotated(inner, earlier)
    ensures var r := FinishMeta(h, scope, Sym(name), Scope(m), range);
            && r.Success? && scope < |r.heap| && name in r.heap[scope].bindings
            && var v := r.heap[scope].bindings[name];
               && v == Annotated(inner, |h| + 1) && |r.heap| == |h| + 2
               && r.heap[|h| + 1] == ScopeObject([earlier, |h|], map[])
               && r.heap[|h|].parents == [m]
  {
    var b := |h|;
    var h1 := SetRange(NewScope(h, [m]), b, range);
    var h2 := Set(NewScope(h1, [earlier, b]), scope, name, Annotated(inner, |h1|));
    OwnBindingWins(h1, scope, name);
    var names := [(name, NO_RANGE)];
    assert EachBinding(Sym(name)).names == names && names[1..] == [];
    assert AnnotateBindings(h2, scope, [], m, range) == Some(h2);
    assert AnnotateBindings(h, scope, names, m, range) == Some(h2);
  }
}
