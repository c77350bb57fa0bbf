/** Evaluation never takes anything away: scopes and bindings, once there, stay.

    This needs no condition on the forms evaluated, so it gives, for patterns with any
    defaults and metadata, the half of what `Patterns` says that holds of them all: a
    successful binding has bound every symbol it reports. */
module HeapGrowth {
  import opened Options
  import opened Values
  import opened Patterns
  import D = DirectEval

  /** Every scope of h is in h' and binds there what it bound, perhaps to other values. */
  ghost predicate Grows(h: Heap, h': Heap) {
    |h| <= |h'| && forall id: nat :: id < |h| ==> h[id].bindings.Keys <= h'[id].bindings.Keys
  }

  ghost predicate GrowsTo(base: Heap, o: D.Outcome<Value>) {
    match o
    case Done(_, h) => Grows(base, h)
    case Error(_, h) => Grows(base, h)
    case OutOfFuel => true
  }

  lemma {:induction false} AnnotatingGrows(base: Heap, h: Heap, scope: ScopeId, names: seq<(Symbol, Range)>,
        meta: ScopeId, range: Range)
    requires Grows(base, h)
    ensures var r := AnnotateBindings(h, scope, names, meta, range);
            r.Some? ==> Grows(base, r.value)
    decreases |names|
  {
    if names != [] {
      var name, bmeta := names[0].0, |h|;
      var h1 := SetRange(NewScope(h, [meta]), bmeta, range);
      assert Grows(base, h1);
      match Get(h1, scope, name)
      case Diverges =>
      case Missing => AnnotatingGrows(base, h1, scope, names[1..], meta, range);
      case Found(v) =>
        var h2 :=
          match DecodeAnnotated(v)
          case Some(Annotated(inner, m)) =>
            Set(NewScope(h1, [m, bmeta]), scope, name, Annotated(inner, |h1|))
          case _ => Set(h1, scope, name, Annotated(v, bmeta));
        assert Grows(h1, h2);
        AnnotatingGrows(base, h2, scope, names[1..], meta, range);
    }
  }

  lemma {:induction false} FinishingGrows(base: Heap, h: Heap, scope: ScopeId, res: Value, metaVal: Value, range: Range)
    requires Grows(base, h)
    ensures GrowsTo(base, D.Of(FinishMeta(h, scope, res, metaVal, range)))
  {
    if DecodeScope(metaVal).Some? {
      var meta := DecodeScope(metaVal).value;
      var h1 := AttachMeta(h, res, meta).1;
      assert Grows(base, h1);
      AnnotatingGrows(base, h1, scope, EachBinding(res).names, meta, range);
    }
  }

  lemma {:induction false} EvalGrows(base: Heap, fuel: nat, form: Value, scope: ScopeId, h: Heap)
    requires Grows(base, h)
    ensures GrowsTo(base, D.EvalForm(fuel, form, scope, h))
    decreases fuel, 0, Size(form)
  {
    match form
    case Pair(a, d) =>
      EvalGrows(base, fuel, a, scope, h);
      var o := D.EvalForm(fuel, a, scope, h);
      if o.Done? && fuel > 0 && DecodeCombiner(o.value).Some? {
        CallGrows(base, fuel - 1, DecodeCombiner(o.value).value, d, scope, o.heap);
      }
    case Cons(a, d) =>
      EvalGrows(base, fuel, a, scope, h);
      var o := D.EvalForm(fuel, a, scope, h);
      if o.Done? && fuel > 0 {
        EvalGrows(base, fuel - 1, d, scope, o.heap);
      }
    case Bind(forms) =>
      var sub, h0 := |h|, NewScope(h, [scope]);
      EvalGrows(base, fuel, NewConsList(forms), sub, h0);
      var o := D.EvalForm(fuel, NewConsList(forms), sub, h0);
      if o.Done? && fuel > 0 && ToSlice(o.value).Some? {
        BuildGrows(base, fuel - 1, ToSlice(o.value).value, sub, SetParents(o.heap, sub, []));
      }
    case Annotate(inner, range, comment, meta) =>
      EvalGrows(base, fuel, inner, scope, h);
      AnnotateGrows(base, fuel, form, scope, h);
    case Annotated(value, _) => EvalGrows(base, fuel, value, scope, h);
    case _ =>
  }

  lemma {:induction false} AnnotateGrows(base: Heap, fuel: nat, form: Value, scope: ScopeId, h: Heap)
    requires form.Annotate? && GrowsTo(base, D.EvalForm(fuel, form.form, scope, h))
    ensures GrowsTo(base, D.EvalForm(fuel, form, scope, h))
    decreases fuel, 0, 0
  {
    var bind := MetaBind(form.comment, form.meta);
    var o := D.EvalForm(fuel, form.form, scope, h);
    if o.Done? && |bind| > 0 && fuel > 0 {
      EvalGrows(base, fuel - 1, Bind(bind), scope, o.heap);
      var o' := D.EvalForm(fuel - 1, Bind(bind), scope, o.heap);
      if o'.Done? {
        FinishingGrows(base, o'.heap, scope, o.value, o'.value, form.range);
      }
    }
  }

  lemma {:induction false} OperandsGrow(base: Heap, fuel: nat, a: Value, d: Value, scope: ScopeId, h: Heap)
    requires Grows(base, h)
    ensures GrowsTo(base, D.EvalOperands(fuel, a, d, scope, h))
    decreases fuel, 1, 0
  {
    EvalGrows(base, fuel, a, scope, h);
    OperandsInParts(fuel, a, d, scope, h);
    MoreOperandsGrow(base, D.EvalForm(fuel, a, scope, h), fuel, d, scope);
  }

  /** The operands once the first is evaluated. */
  ghost function MoreOperands(o: D.Outcome<Value>, fuel: nat, d: Value, scope: ScopeId): D.Outcome<Value> {
    match o
    case Done(first, h) =>
      if fuel == 0 then D.OutOfFuel
      else D.PairOutcome(first, RestOfOperands(fuel - 1, d, scope, h))
    case _ => o
  }

  ghost function RestOfOperands(fuel: nat, d: Value, scope: ScopeId, h: Heap): D.Outcome<Value> {
    if d.Pair? then D.EvalOperands(fuel, d.a, d.d, scope, h) else D.EvalForm(fuel, d, scope, h)
  }

  lemma {:induction false} OperandsInParts(fuel: nat, a: Value, d: Value, scope: ScopeId, h: Heap)
    ensures D.EvalOperands(fuel, a, d, scope, h) == MoreOperands(D.EvalForm(fuel, a, scope, h), fuel, d, scope)
  {
  }

  lemma {:induction false} MoreOperandsGrow(base: Heap, o: D.Outcome<Value>, fuel: nat, d: Value, scope: ScopeId)
    requires GrowsTo(base, o)
    ensures GrowsTo(base, MoreOperands(o, fuel, d, scope))
    decreases fuel, 0, 0
  {
    if o.Done? && fuel > 0 {
      RestOfOperandsGrows(base, fuel - 1, d, scope, o.heap);
    }
  }

  lemma {:induction false} RestOfOperandsGrows(base: Heap, fuel: nat, d: Value, scope: ScopeId, h: Heap)
    requires Grows(base, h)
    ensures GrowsTo(base, RestOfOperands(fuel, d, scope, h))
    decreases fuel, 2, 0
  {
    if d.Pair? {
      OperandsGrow(base, fuel, d.a, d.d, scope, h);
    } else {
      EvalGrows(base, fuel, d, scope, h);
    }
  }

  lemma {:induction false} BindingGrows(base: Heap, fuel: nat, pattern: Value, scope: ScopeId, val: Value, h: Heap)
    requires Grows(base, h)
    ensures GrowsTo(base, D.BindTo(fuel, pattern, scope, val, h))
    decreases fuel, 1, pattern, 0
  {
    match pattern
    case Pair(a, d) => ListGrows(base, fuel, a, d, scope, val, h);
    case Cons(a, d) => ListGrows(base, fuel, a, d, scope, val, h);
    case Bind(forms) => FormsGrow(base, fuel, forms, scope, val, h);
    case Annotate(inner, _, comment, meta) =>
      if |MetaBind(comment, meta)| == 0 {
        BindingGrows(base, fuel, inner, scope, val, h);
      } else {
        AnnotatedBindingGrows(base, fuel, pattern, scope, val, h);
      }
    case Annotated(value, _) => BindingGrows(base, fuel, value, scope, val, h);
    case _ =>
  }

  lemma {:induction false} AnnotatedBindingGrows(base: Heap, fuel: nat, pattern: Value, scope: ScopeId, val: Value,
        h: Heap)
    requires pattern.Annotate? && |MetaBind(pattern.comment, pattern.meta)| > 0 && Grows(base, h)
    ensures GrowsTo(base, D.BindTo(fuel, pattern, scope, val, h))
    decreases fuel, 1, pattern.form, 1
  {
    var bind := MetaBind(pattern.comment, pattern.meta);
    EvalGrows(base, fuel, Bind(bind), scope, h);
    var o := D.EvalForm(fuel, Bind(bind), scope, h);
    if o.Done? && fuel > 0 && DecodeScope(o.value).Some? {
      var m := DecodeScope(o.value).value;
      BindingGrows(base, fuel - 1, pattern.form, scope, Annotated(val, m), SetRange(o.heap, m, pattern.range));
    }
  }

  lemma {:induction false} ListGrows(base: Heap, fuel: nat, a: Value, d: Value, scope: ScopeId, val: Value, h: Heap)
    requires Grows(base, h)
    ensures GrowsTo(base, D.BindList(fuel, a, d, scope, val, h))
    decreases fuel, 1, a, 1
  {
    var v := Strip(val);
    if (v.Pair? || v.Cons?) && IsBindable(a) {
      BindingGrows(base, fuel, a, scope, v.a, h);
      var o := D.BindTo(fuel, a, scope, v.a, h);
      if o.Done? && fuel > 0 && IsBindable(d) {
        BindingGrows(base, fuel - 1, d, scope, v.d, o.heap);
      }
    }
  }

  lemma {:induction false} FormsGrow(base: Heap, fuel: nat, forms: seq<Value>, scope: ScopeId, val: Value, h: Heap)
    requires Grows(base, h)
    ensures GrowsTo(base, D.BindForms(fuel, forms, scope, val, h))
    decreases fuel, 1, forms
  {
    if HasFirstEntry(forms, val) {
      var source, entry := DecodeScope(val).value, DecodeEntry(forms[0]).entry;
      FirstEntryOutcome(fuel, forms, scope, val, h);
      EntryGrows(base, fuel, entry, source, scope, h);
      var o := D.EntryValue(fuel, entry, source, scope, h);
      if o.Done? && fuel > 0 {
        BindingGrows(base, fuel - 1, forms[1], scope, o.value, o.heap);
        var o1 := D.BindTo(fuel - 1, forms[1], scope, o.value, o.heap);
        if o1.Done? && fuel > 1 {
          FormsGrow(base, fuel - 2, forms[2..], scope, Scope(source), o1.heap);
        }
      }
    }
  }

  /** Whether the first entry of a bind pattern is tried at all. */
  predicate HasFirstEntry(forms: seq<Value>, val: Value) {
    && DecodeScope(val).Some? && |forms| % 2 == 0 && forms != []
    && IsBindable(forms[1]) && DecodeEntry(forms[0]).GoodEntry?
  }

  lemma {:induction false} EntryGrows(base: Heap, fuel: nat, entry: Entry, source: ScopeId, scope: ScopeId, h: Heap)
    requires Grows(base, h)
    ensures GrowsTo(base, D.EntryValue(fuel, entry, source, scope, h))
    decreases fuel, 0, (if entry.default.Some? then Size(entry.default.value) + 1 else 0)
  {
    if entry.default.Some? {
      EvalGrows(base, fuel, entry.default.value, scope, h);
    }
  }

  lemma {:induction false} BuildGrows(base: Heap, fuel: nat, vs: seq<Value>, scope: ScopeId, h: Heap)
    requires Grows(base, h)
    ensures GrowsTo(base, D.Build(fuel, vs, scope, h))
    decreases fuel, 2, |vs|
  {
    if vs != [] {
      if DecodeSymbol(vs[0]).Some? {
        if |vs| >= 2 && fuel > 0 {
          var h1 := Set(h, scope, DecodeSymbol(vs[0]).value, WithMetaOf(vs[0], vs[1]));
          BuildGrows(base, fuel - 1, vs[2..], scope, h1);
        }
      } else if DecodeScope(vs[0]).Some? {
        BuildGrows(base, fuel, vs[1..], scope, AddParent(h, scope, DecodeScope(vs[0]).value));
      }
    }
  }

  lemma {:induction false} CallGrows(base: Heap, fuel: nat, combiner: Value, val: Value, scope: ScopeId, h: Heap)
    requires Grows(base, h)
    ensures GrowsTo(base, D.CallCombiner(fuel, combiner, val, scope, h))
    decreases fuel, 3, 0
  {
    match combiner
    case Operative(_, _, _, _) => OperativeGrows(base, fuel, combiner, val, scope, h);
    case Builtin(primitive) => BuiltinGrows(base, fuel, primitive, val, scope, h);
    case Wrapped(underlying) => WrappedGrows(base, fuel, underlying, val, scope, h);
    case Sym(name) => WrappedGrows(base, fuel, SymbolOperative(name), val, scope, h);
    case _ =>
  }

  lemma {:induction false} OperativeGrows(base: Heap, fuel: nat, op: Value, val: Value, scope: ScopeId, h: Heap)
    requires op.Operative? && Grows(base, h)
    ensures GrowsTo(base, D.CallCombiner(fuel, op, val, scope, h))
    decreases fuel, 2, 0
  {
    var sub, h0 := |h|, NewScope(h, [op.staticScope]);
    BindingGrows(base, fuel, op.bindings, sub, val, h0);
    var o := D.BindTo(fuel, op.bindings, sub, val, h0);
    if o.Done? && fuel > 0 {
      BindingGrows(base, fuel - 1, op.scopeBinding, sub, Scope(scope), o.heap);
      var o1 := D.BindTo(fuel - 1, op.scopeBinding, sub, Scope(scope), o.heap);
      if o1.Done? && fuel > 1 {
        EvalGrows(base, fuel - 2, op.body, sub, o1.heap);
      }
    }
  }

  lemma {:induction false} WrappedGrows(base: Heap, fuel: nat, underlying: Value, val: Value, scope: ScopeId, h: Heap)
    requires Grows(base, h)
    ensures GrowsTo(base, D.CallWrapped(fuel, underlying, val, scope, h))
    decreases fuel, 2, 0
  {
    if val.Pair? {
      OperandsGrow(base, fuel, val.a, val.d, scope, h);
      var o := D.EvalOperands(fuel, val.a, val.d, scope, h);
      if o.Done? && fuel > 0 {
        CallGrows(base, fuel - 1, underlying, o.value, scope, o.heap);
      }
    } else {
      EvalGrows(base, fuel, val, scope, h);
      var o := D.EvalForm(fuel, val, scope, h);
      if o.Done? && fuel > 0 {
        CallGrows(base, fuel - 1, underlying, o.value, scope, o.heap);
      }
    }
  }

  lemma {:induction false} BuiltinGrows(base: Heap, fuel: nat, primitive: Primitive, val: Value, scope: ScopeId,
        h: Heap)
    requires Grows(base, h)
    ensures GrowsTo(base, D.CallBuiltin(fuel, primitive, val, scope, h))
    decreases fuel, 2, 0
  {
    if IsList(val) && ToSlice(val).Some? {
      var args := ToSlice(val).value;
      match primitive
      case Def =>
        if |args| == 2 && IsBindable(args[0]) {
          EvalGrows(base, fuel, args[1], scope, h);
          var o := D.EvalForm(fuel, args[1], scope, h);
          if o.Done? && fuel > 0 {
            BindingGrows(base, fuel - 1, args[0], scope, o.value, o.heap);
          }
        }
      case If =>
        if |args| == 3 {
          EvalGrows(base, fuel, args[0], scope, h);
          var o := D.EvalForm(fuel, args[0], scope, h);
          if o.Done? && fuel > 0 {
            EvalGrows(base, fuel - 1, if Truthy(o.value) then args[1] else args[2], scope, o.heap);
          }
        }
      case Do => SequenceGrows(base, fuel, args, scope, h);
      case Eval =>
        if |args| == 2 && DecodeScope(args[1]).Some? {
          EvalGrows(base, fuel, args[0], DecodeScope(args[1]).value, h);
        }
      case _ =>
    }
  }

  lemma {:induction false} SequenceGrows(base: Heap, fuel: nat, body: seq<Value>, scope: ScopeId, h: Heap)
    requires Grows(base, h)
    ensures GrowsTo(base, D.EvalSequence(fuel, body, scope, h))
    decreases fuel, 1, 0
  {
    if body != [] {
      EvalGrows(base, fuel, body[0], scope, h);
      var o := D.EvalForm(fuel, body[0], scope, h);
      if o.Done? && |body| > 1 && fuel > 0 {
        SequenceGrows(base, fuel - 1, body[1..], scope, o.heap);
      }
    }
  }

  // ---- Every pattern binds what it reports

  /** If the outcome is a success, all symbols were reported and are bound. */
  ghost predicate AllBound(o: D.Outcome<Value>, scope: ScopeId, r: Reported) {
    o.Done? ==> r.complete && scope < |o.heap| && NamesOf(r.names) <= o.heap[scope].bindings.Keys
  }

  lemma {:induction false} BoundInTurn(o: D.Outcome<Value>, o': D.Outcome<Value>, scope: ScopeId, r: Reported,
        s: Reported)
    requires o.Done? && AllBound(o, scope, r) && AllBound(o', scope, s) && GrowsTo(o.heap, o')
    ensures AllBound(o', scope, Then(r, s))
  {
    NamesOfThen(r, s);
  }

  /** Whatever a pattern's defaults and metadata do, a successful binding has bound every
      symbol that EachBinding reports. */
  lemma {:induction false} SuccessBindsAll(fuel: nat, pattern: Value, scope: ScopeId, val: Value, h: Heap)
    requires scope < |h|
    ensures AllBound(D.BindTo(fuel, pattern, scope, val, h), scope, EachBinding(pattern))
    decreases fuel, pattern, 1
  {
    BindingGrows(h, fuel, pattern, scope, val, h);
    match pattern
    case Pair(_, _) => ListBindsAll(fuel, pattern, scope, val, h);
    case Cons(_, _) => ListBindsAll(fuel, pattern, scope, val, h);
    case Bind(forms) => FormsBindAll(fuel, forms, scope, val, h);
    case Annotate(_, _, _, _) => AnnotatedBindsAll(fuel, pattern, scope, val, h);
    case Annotated(value, _) => SuccessBindsAll(fuel, value, scope, val, h);
    case _ =>
  }

  lemma {:induction false} AnnotatedBindsAll(fuel: nat, pattern: Value, scope: ScopeId, val: Value, h: Heap)
    requires pattern.Annotate? && scope < |h|
    ensures AllBound(D.BindTo(fuel, pattern, scope, val, h), scope, EachBinding(pattern))
    decreases fuel, pattern, 0
  {
    var inner, bind := pattern.form, MetaBind(pattern.comment, pattern.meta);
    NamesOfWithRange(EachBinding(inner), pattern.range);
    if |bind| == 0 {
      SuccessBindsAll(fuel, inner, scope, val, h);
    } else {
      EvalGrows(h, fuel, Bind(bind), scope, h);
      var o := D.EvalForm(fuel, Bind(bind), scope, h);
      if o.Done? && fuel > 0 && DecodeScope(o.value).Some? {
        var m := DecodeScope(o.value).value;
        SuccessBindsAll(fuel - 1, inner, scope, Annotated(val, m), SetRange(o.heap, m, pattern.range));
      }
    }
  }

  lemma {:induction false} ListBindsAll(fuel: nat, pattern: Value, scope: ScopeId, val: Value, h: Heap)
    requires (pattern.Pair? || pattern.Cons?) && scope < |h|
    ensures AllBound(D.BindList(fuel, pattern.a, pattern.d, scope, val, h), scope, EachBinding(pattern))
    decreases fuel, pattern, 0
  {
    var a, d, v := pattern.a, pattern.d, Strip(val);
    if (v.Pair? || v.Cons?) && IsBindable(a) {
      SuccessBindsAll(fuel, a, scope, v.a, h);
      var o := D.BindTo(fuel, a, scope, v.a, h);
      if o.Done? && fuel > 0 && IsBindable(d) {
        SuccessBindsAll(fuel - 1, d, scope, v.d, o.heap);
        BindingGrows(o.heap, fuel - 1, d, scope, v.d, o.heap);
        BoundInTurn(o, D.BindTo(fuel - 1, d, scope, v.d, o.heap), scope, EachBinding(a), EachBinding(d));
      }
    }
  }

  lemma {:induction false} FormsBindAll(fuel: nat, forms: seq<Value>, scope: ScopeId, val: Value, h: Heap)
    requires scope < |h|
    ensures AllBound(D.BindForms(fuel, forms, scope, val, h), scope, EachBinding(Bind(forms)))
    decreases fuel, forms, 1
  {
    FormsGrow(h, fuel, forms, scope, val, h);
    if HasFirstEntry(forms, val) {
      var source, entry := DecodeScope(val).value, DecodeEntry(forms[0]).entry;
      FirstEntryOutcome(fuel, forms, scope, val, h);
      EntryGrows(h, fuel, entry, source, scope, h);
      EntryBindsAll(D.EntryValue(fuel, entry, source, scope, h), fuel, forms, scope, source);
    }
  }

  lemma {:induction false} EntryBindsAll(o: D.Outcome<Value>, fuel: nat, forms: seq<Value>, scope: ScopeId,
        source: ScopeId)
    requires |forms| >= 2 && (o.Done? ==> scope < |o.heap|)
    ensures AllBound(EntryOutcome(fuel, forms, scope, source, o), scope, EachValueBinding(forms))
    decreases fuel, forms, 0
  {
    if o.Done? && fuel > 0 {
      SuccessBindsAll(fuel - 1, forms[1], scope, o.value, o.heap);
      RestBindsAll(D.BindTo(fuel - 1, forms[1], scope, o.value, o.heap), fuel - 1, forms[2..], scope, source,
                   EachBinding(forms[1]));
    }
  }

  lemma {:induction false} RestBindsAll(o: D.Outcome<Value>, fuel: nat, rest: seq<Value>, scope: ScopeId,
        source: ScopeId, r: Reported)
    requires AllBound(o, scope, r)
    ensures AllBound(RestOutcome(o, fuel, rest, scope, source), scope, Then(r, EachValueBinding(rest)))
    decreases fuel, rest, 2
  {
    if o.Done? && fuel > 0 {
      FormsBindAll(fuel - 1, rest, scope, Scope(source), o.heap);
      FormsGrow(o.heap, fuel - 1, rest, scope, Scope(source), o.heap);
      BoundInTurn(o, D.BindForms(fuel - 1, rest, scope, Scope(source), o.heap), scope, r, EachValueBinding(rest));
    }
  }
}
