/** The call trace holds what it held at the start and then the forms of the pending continuations. */
module TraceDepth {
  import opened Options
  import opened Values
  import opened Machine
  import D = DirectEval
  import R = TraceRing
  import S = Simulation

  /** The forms recorded for a continuation and all those below it, outermost first. */
  ghost function Pending(k: Kont): seq<Value> {
    match k
    case Identity(recorded) => recorded
    case Then(_, next, recorded) => Pending(next) + recorded
  }

  /** The sum of TracedDepth over the pending continuations. */
  ghost function TracedDepths(k: Kont): nat {
    |k.recorded| + if k.Then? then TracedDepths(k.next) else 0
  }

  ghost predicate Follows(base: seq<Value>, c: Config) {
    match c
    case Ready(k, _, st) => st.trace == base + Pending(k) && k.recorded == []
    case Fail(k, _, st) => st.trace == base + Pending(k)
    case Halted(Answer(_), st) => st.trace == base
    case Halted(Err(_), st) => base <= st.trace
    case Panicked => false
  }

  /** k is the continuation `bottom`, perhaps with more recorded for it, or waits for it. */
  ghost predicate Above(k: Kont, bottom: Kont) {
    (bottom.recorded <= k.recorded && k.(recorded := bottom.recorded) == bottom)
    || (k.Then? && Above(k.next, bottom))
  }

  /** The machine is at a continuation above `bottom`, or has just called it, with the trace
      that the pending continuations tell. */
  ghost predicate Within(base: seq<Value>, bottom: Kont, c: Config) {
    match c
    case Ready(k, _, st) =>
      && st.trace == base + Pending(k) && k.recorded == []
      && ((k.Then? && Above(k.next, bottom)) || k == bottom.(recorded := []))
    case Fail(k, _, st) => st.trace == base + Pending(k) && Above(k, bottom)
    case _ => false
  }

  lemma {:induction false} PendingLength(k: Kont)
    ensures |Pending(k)| == TracedDepths(k)
  {
    if k.Then? {
      PendingLength(k.next);
    }
  }

  lemma {:induction false} PendingTraced(k: Kont, form: Value)
    ensures Pending(Traced(k, form)) == Pending(k) + [form]
  {
    if k.Then? {
      assert Pending(k.next) + (k.recorded + [form]) == Pending(k.next) + k.recorded + [form];
    }
  }

  lemma {:induction false} CallFollows(base: seq<Value>, bottom: Kont, k: Kont, v: Value, st: State)
    requires st.trace == base + Pending(k) && Above(k, bottom)
    ensures Within(base, bottom, Call(k, v, st))
  {
    var below := if k.Then? then Pending(k.next) else [];
    assert st.trace == (base + below) + k.recorded;
    assert st.trace[..|st.trace| - |k.recorded|] == base + below;
    assert Pending(k.(recorded := [])) == below;
  }

  lemma {:induction false} CallWithFollows(base: seq<Value>, bottom: Kont, k: Kont, r: Attempt, trace: seq<Value>)
    requires trace == base + Pending(k) && Above(k, bottom)
    ensures Within(base, bottom, CallWith(k, r, trace))
  {
    match r
    case Success(v, h) => CallFollows(base, bottom, k, v, State(h, trace));
    case Failure(_, _) =>
  }

  lemma {:induction false} EvalFollows(base: seq<Value>, bottom: Kont, form: Value, scope: ScopeId, k: Kont, st: State)
    requires st.trace == base + Pending(k) && Above(k, bottom)
    ensures Within(base, bottom, EvalForm(form, scope, k, st))
    decreases Size(form)
  {
    match form
    case Sym(name) =>
      CallWithFollows(base, bottom, k, EvalSymbol(st.heap, scope, name), st.trace);
    case Keyword(name) =>
      CallFollows(base, bottom, k, Sym(name), st);
    case Pair(a, d) =>
      EvalFollows(base, bottom, a, scope, Push(ApplyTo(d, scope), k), st);
    case Cons(a, d) =>
      EvalFollows(base, bottom, a, scope, Push(EvalRest(d, scope), k), st);
    case Bind(forms) =>
      var sub := |st.heap|;
      EvalFollows(base, bottom, NewConsList(forms), sub, Push(BuildScope(sub), k),
                  st.(heap := NewScope(st.heap, [scope])));
    case Annotate(inner, range, comment, meta) =>
      var bind := MetaBind(comment, meta);
      var next := if |bind| > 0 then Push(EvalMeta(bind, scope, range), k) else k;
      PendingTraced(next, form);
      assert st.trace + [form] == base + Pending(Traced(next, form));
      EvalFollows(base, bottom, inner, scope, Traced(next, form), st.(trace := st.trace + [form]));
    case Annotated(value, _) =>
      EvalFollows(base, bottom, value, scope, k, st);
    case _ =>
      CallFollows(base, bottom, k, form, st);
  }

  lemma {:induction false} BindFollows(base: seq<Value>, bottom: Kont, binding: Value, scope: ScopeId, k: Kont,
        val: Value, st: State)
    requires st.trace == base + Pending(k) && Above(k, bottom)
    ensures Within(base, bottom, BindTo(binding, scope, k, val, st))
    decreases binding, 0
  {
    match binding
    case Sym(name) =>
      CallFollows(base, bottom, k, binding, st.(heap := Set(st.heap, scope, name, val)));
    case Pair(a, d) =>
      BindListFollows(base, bottom, a, d, scope, k, val, st);
    case Cons(a, d) =>
      BindListFollows(base, bottom, a, d, scope, k, val, st);
    case Bind(forms) =>
      BindFormsFollows(base, bottom, forms, scope, k, val, st);
    case Annotate(_, _, _, _) =>
      AnnotateBindFollows(base, bottom, binding, scope, k, val, st);
    case Annotated(value, _) =>
      BindFollows(base, bottom, value, scope, k, val, st);
    case _ =>
      CallFollows(base, bottom, k, binding, st);
  }

  lemma {:induction false} AnnotateBindFollows(base: seq<Value>, bottom: Kont, binding: Value, scope: ScopeId,
        k: Kont, val: Value,
        st: State)
    requires binding.Annotate? && st.trace == base + Pending(k) && Above(k, bottom)
    ensures Within(base, bottom, BindTo(binding, scope, k, val, st))
    decreases binding.form, 1
  {
    var bind := MetaBind(binding.comment, binding.meta);
    if |bind| == 0 {
      BindFollows(base, bottom, binding.form, scope, k, val, st);
    } else {
      EvalFollows(base, bottom, Bind(bind), scope, Push(BindWithMeta(binding.form, binding.range, scope, val), k), st);
    }
  }

  lemma {:induction false} BindListFollows(base: seq<Value>, bottom: Kont, a: Value, d: Value, scope: ScopeId,
        k: Kont, val: Value,
        st: State)
    requires st.trace == base + Pending(k) && Above(k, bottom)
    ensures Within(base, bottom, BindList(a, d, scope, k, val, st))
    decreases a, 1
  {
    var v := Strip(val);
    if (v.Pair? || v.Cons?) && IsBindable(a) {
      BindFollows(base, bottom, a, scope, Push(BindRest(d, v.d, scope), k), v.a, st);
    }
  }

  lemma {:induction false} BindFormsFollows(base: seq<Value>, bottom: Kont, forms: seq<Value>, scope: ScopeId,
        k: Kont, val: Value,
        st: State)
    requires st.trace == base + Pending(k) && Above(k, bottom)
    ensures Within(base, bottom, BindForms(forms, scope, k, val, st))
  {
    if DecodeScope(val).Some? && |forms| % 2 == 0 {
      if forms == [] {
        CallFollows(base, bottom, k, Bind(forms), st);
      } else if IsBindable(forms[1]) && DecodeEntry(forms[0]).GoodEntry? {
        var source, entry := DecodeScope(val).value, DecodeEntry(forms[0]).entry;
        var doBind := Push(BindEntry(forms[1], forms[2..], scope, source), k);
        EntryValueFollows(base, bottom, entry, source, scope, k, doBind, st);
      }
    }
  }

  lemma {:induction false} EntryValueFollows(base: seq<Value>, bottom: Kont, entry: Entry, source: ScopeId,
        scope: ScopeId,
        k: Kont, doBind: Kont, st: State)
    requires st.trace == base + Pending(k) == base + Pending(doBind) && Above(k, bottom) && Above(doBind, bottom)
    ensures Within(base, bottom, EntryValue(entry, source, scope, k, doBind, st))
  {
    match Get(st.heap, source, entry.key)
    case Found(v) => CallFollows(base, bottom, doBind, v, st);
    case Diverges =>
    case Missing =>
      if entry.default.Some? {
        EvalFollows(base, bottom, entry.default.value, scope, doBind, st);
      }
  }

  lemma {:induction false} BuildFollows(base: seq<Value>, bottom: Kont, vs: seq<Value>, scope: ScopeId, k: Kont,
        st: State)
    requires st.trace == base + Pending(k) && Above(k, bottom)
    ensures Within(base, bottom, Build(vs, scope, k, st))
    decreases |vs|
  {
    if vs == [] {
      CallFollows(base, bottom, k, Scope(scope), st);
    } else if DecodeSymbol(vs[0]).Some? {
      if |vs| >= 2 {
        BindFollows(base, bottom, Sym(DecodeSymbol(vs[0]).value), scope, Push(BuildMore(vs[2..], scope), k),
                    WithMetaOf(vs[0], vs[1]), st);
      }
    } else if DecodeScope(vs[0]).Some? {
      BuildFollows(base, bottom, vs[1..], scope, k, st.(heap := AddParent(st.heap, scope, DecodeScope(vs[0]).value)));
    }
  }

  lemma {:induction false} CallWrappedFollows(base: seq<Value>, bottom: Kont, underlying: Value, val: Value,
        scope: ScopeId,
        k: Kont, st: State)
    requires st.trace == base + Pending(k) && Above(k, bottom)
    ensures Within(base, bottom, CallWrapped(underlying, val, scope, k, st))
  {
    var call := Push(CallUnderlying(underlying, scope), k);
    if val.Pair? {
      EvalFollows(base, bottom, val.a, scope, Push(EvalOperands(val.d, scope), call), st);
    } else {
      EvalFollows(base, bottom, val, scope, call, st);
    }
  }

  lemma {:induction false} DoBodyFollows(base: seq<Value>, bottom: Kont, body: seq<Value>, scope: ScopeId, k: Kont,
        st: State)
    requires st.trace == base + Pending(k) && Above(k, bottom)
    ensures Within(base, bottom, DoBody(body, scope, k, st))
  {
    if body == [] {
      CallFollows(base, bottom, k, Null, st);
    } else {
      EvalFollows(base, bottom, body[0], scope, if |body| > 1 then Push(DoRest(body[1..], scope), k) else k, st);
    }
  }

  lemma {:induction false} CallBuiltinFollows(base: seq<Value>, bottom: Kont, primitive: Primitive, val: Value,
        scope: ScopeId,
        k: Kont, st: State)
    requires st.trace == base + Pending(k) && Above(k, bottom)
    ensures Within(base, bottom, CallBuiltin(primitive, val, scope, k, st))
  {
    if IsList(val) && ToSlice(val).Some? {
      var args := ToSlice(val).value;
      match primitive
      case Def =>
        if |args| == 2 {
          EvalFollows(base, bottom, args[1], scope, Push(BindResult(args[0], scope), k), st);
        }
      case If =>
        if |args| == 3 {
          EvalFollows(base, bottom, args[0], scope, Push(Branch(args[1], args[2], scope), k), st);
        }
      case Do => DoBodyFollows(base, bottom, args, scope, k, st);
      case Op =>
        if |args| == 3 {
          CallFollows(base, bottom, k, Operative(args[0], args[1], args[2], scope), st);
        }
      case Eval =>
        if |args| == 2 && DecodeScope(args[1]).Some? {
          EvalFollows(base, bottom, args[0], DecodeScope(args[1]).value, k, st);
        }
      case Wrap =>
        if |args| == 1 && DecodeCombiner(args[0]).Some? {
          CallFollows(base, bottom, k, Wrapped(DecodeCombiner(args[0]).value), st);
        }
    }
  }

  lemma {:induction false} CallCombinerFollows(base: seq<Value>, bottom: Kont, combiner: Value, val: Value,
        scope: ScopeId,
        k: Kont, st: State)
    requires st.trace == base + Pending(k) && Above(k, bottom)
    ensures Within(base, bottom, CallCombiner(combiner, val, scope, k, st))
  {
    match combiner
    case Operative(bindings, scopeBinding, body, staticScope) =>
      var sub := |st.heap|;
      BindFollows(base, bottom, bindings, sub, Push(BindScope(scopeBinding, body, sub, scope), k), val,
                  st.(heap := NewScope(st.heap, [staticScope])));
    case Builtin(primitive) => CallBuiltinFollows(base, bottom, primitive, val, scope, k, st);
    case Wrapped(underlying) => CallWrappedFollows(base, bottom, underlying, val, scope, k, st);
    case Sym(name) => CallWrappedFollows(base, bottom, SymbolOperative(name), val, scope, k, st);
    case SymbolOperative(name) => CallWithFollows(base, bottom, k, CallSymbol(st.heap, name, val), st.trace);
    case _ =>
  }

  /** Frames that go on with a binding or with building a scope. */
  predicate BindsNext(frame: Frame) {
    || frame.BindScope? || frame.BindResult? || frame.BuildScope? || frame.BuildMore?
    || frame.BindRest? || frame.BindEntry? || frame.BindEntries? || frame.BindWithMeta?
  }

  lemma {:induction false} ContinueFollows(base: seq<Value>, bottom: Kont, frame: Frame, k: Kont, v: Value, st: State)
    requires st.trace == base + Pending(k) && Above(k, bottom)
    ensures Within(base, bottom, Continue(frame, k, v, st))
  {
    match frame
    case ApplyTo(operand, scope) =>
      if DecodeCombiner(v).Some? {
        CallCombinerFollows(base, bottom, DecodeCombiner(v).value, operand, scope, k, st);
      }
    case EvalRest(rest, scope) => EvalFollows(base, bottom, rest, scope, Push(MakePair(v), k), st);
    case MakePair(first) => CallFollows(base, bottom, k, Pair(first, v), st);
    case CallUnderlying(combiner, scope) => CallCombinerFollows(base, bottom, combiner, v, scope, k, st);
    case EvalOperands(rest, scope) =>
      if rest.Pair? {
        EvalFollows(base, bottom, rest.a, scope, Push(EvalOperands(rest.d, scope), Push(MakePair(v), k)), st);
      } else {
        EvalFollows(base, bottom, rest, scope, Push(MakePair(v), k), st);
      }
    case EvalBody(body, sub) => EvalFollows(base, bottom, body, sub, k, st);
    case Branch(yes, no, scope) => EvalFollows(base, bottom, if Truthy(v) then yes else no, scope, k, st);
    case DoRest(forms, scope) => DoBodyFollows(base, bottom, forms, scope, k, st);
    case EvalMeta(bind, scope, range) =>
      EvalFollows(base, bottom, Bind(bind), scope, Push(AddMeta(v, scope, range), k), st);
    case AddMeta(res, scope, range) =>
      CallWithFollows(base, bottom, k, FinishMeta(st.heap, scope, res, v, range), st.trace);
    case _ => ContinueBindingFollows(base, bottom, frame, k, v, st);
  }

  lemma {:induction false} ContinueBindingFollows(base: seq<Value>, bottom: Kont, frame: Frame, k: Kont, v: Value,
        st: State)
    requires st.trace == base + Pending(k) && Above(k, bottom) && BindsNext(frame)
    ensures Within(base, bottom, Continue(frame, k, v, st))
  {
    match frame
    case BindScope(scopeBinding, body, sub, caller) =>
      BindFollows(base, bottom, scopeBinding, sub, Push(EvalBody(body, sub), k), Scope(caller), st);
    case BindResult(formals, scope) => BindFollows(base, bottom, formals, scope, k, v, st);
    case BuildScope(scope) =>
      if ToSlice(v).Some? {
        BuildFollows(base, bottom, ToSlice(v).value, scope, k, st.(heap := SetParents(st.heap, scope, [])));
      }
    case BuildMore(vs, scope) => BuildFollows(base, bottom, vs, scope, k, st);
    case BindRest(binding, value, scope) =>
      BindFollows(base, bottom, binding, scope, Push(MakePair(v), k), value, st);
    case BindEntry(binding, entries, scope, source) =>
      BindFollows(base, bottom, binding, scope, Push(BindEntries(entries, scope, source), k), v, st);
    case BindEntries(entries, scope, source) => BindFormsFollows(base, bottom, entries, scope, k, Scope(source), st);
    case BindWithMeta(binding, range, scope, value) =>
      if DecodeScope(v).Some? {
        var m := DecodeScope(v).value;
        BindFollows(base, bottom, binding, scope, k, Annotated(value, m), st.(heap := SetRange(st.heap, m, range)));
      }
  }

  lemma {:induction false} StepFollows(base: seq<Value>, c: Config)
    requires Follows(base, c)
    ensures Follows(base, Step(c))
  {
    match c
    case Ready(Then(frame, next, _), v, st) =>
      assert Pending(c.k) == Pending(next);
      ContinueFollows(base, next, frame, next, v, st);
    case Fail(k, _, st) =>
      assert st.trace[..|base|] == base;
    case _ =>
  }

  lemma {:induction false} RunFollows(base: seq<Value>, n: nat, c: Config)
    requires Follows(base, c)
    ensures Follows(base, Run(n, c))
  {
    if n > 0 {
      StepFollows(base, c);
      RunFollows(base, n - 1, Step(c));
    }
  }

  /** At every step of every run: no Pop goes too far; the depth exceeds the starting depth by
      the sum of TracedDepth over the pending continuations, whose forms are exactly what was
      added to the trace, also when the run has just failed; and a successful run ends at the
      trace it started from. */
  lemma {:induction false} TraceFollowsContinuations(form: Value, scope: ScopeId, st: State, n: nat)
    ensures var c := Run(n, Start(form, scope, st));
            && !c.Panicked?
            && (c.Ready? || c.Fail? ==>
                  && c.st.trace == st.trace + Pending(c.k)
                  && |c.st.trace| == |st.trace| + TracedDepths(c.k))
            && (c.Halted? && c.result.Answer? ==> c.st.trace == st.trace)
            && (c.Halted? && c.result.Err? ==> st.trace <= c.st.trace)
  {
    EvalFollows(st.trace, Identity([]), form, scope, Identity([]), st);
    RunFollows(st.trace, n, Start(form, scope, st));
    var c := Run(n, Start(form, scope, st));
    if c.Ready? || c.Fail? {
      PendingLength(c.k);
    }
  }

  /** The frames a failed run leaves readable are those of the continuations that were
      pending when it failed. */
  lemma {:induction false} FailureKeepsFrames(form: Value, scope: ScopeId, st: State, n: nat)
    requires Run(n, Start(form, scope, st)).Fail?
    ensures var c := Run(n, Start(form, scope, st));
            Run(n + 1, Start(form, scope, st)) == Halted(Err(c.error), State(c.st.heap, st.trace + Pending(c.k)))
  {
    TraceFollowsContinuations(form, scope, st, n);
    RunAdd(n, 1, Start(form, scope, st));
    var c := Run(n, Start(form, scope, st));
    assert Run(1, c) == Step(c);
  }

  // ---- The frame of an annotated form

  /** Nothing has called `bottom` yet, so what was recorded up to it is still in the trace. */
  ghost predicate StillAbove(base: seq<Value>, bottom: Kont, c: Config) {
    match c
    case Ready(k, _, st) =>
      st.trace == base + Pending(k) && k.recorded == [] && k.Then? && Above(k.next, bottom)
    case Fail(k, _, st) => st.trace == base + Pending(k) && Above(k, bottom)
    case Halted(Err(_), st) => base + Pending(bottom) <= st.trace
    case _ => false
  }

  /** The value has arrived at `bottom`, whose records are popped. */
  ghost predicate Arrived(bottom: Kont, c: Config) {
    c.Ready? && c.k == bottom.(recorded := [])
  }

  lemma {:induction false} AbovePending(k: Kont, bottom: Kont)
    requires Above(k, bottom)
    ensures Pending(bottom) <= Pending(k)
  {
    if bottom.recorded <= k.recorded && k.(recorded := bottom.recorded) == bottom {
      assert k.recorded[..|bottom.recorded|] == bottom.recorded;
      if k.Then? {
        assert Pending(k)[..|Pending(bottom)|] == Pending(bottom);
      }
    } else {
      AbovePending(k.next, bottom);
    }
  }

  lemma {:induction false} StillInTrace(base: seq<Value>, bottom: Kont, c: Config)
    requires StillAbove(base, bottom, c)
    ensures base + Pending(bottom) <= c.st.trace
  {
    match c
    case Ready(k, _, _) => AbovePending(k, bottom);
    case Fail(k, _, _) => AbovePending(k, bottom);
    case _ =>
  }

  lemma {:induction false} StepStaysAbove(base: seq<Value>, bottom: Kont, c: Config)
    requires StillAbove(base, bottom, c)
    ensures Arrived(bottom, Step(c)) || StillAbove(base, bottom, Step(c))
  {
    match c
    case Ready(Then(frame, next, _), v, st) =>
      assert Pending(c.k) == Pending(next);
      ContinueFollows(base, bottom, frame, next, v, st);
    case Fail(_, _, _) => StillInTrace(base, bottom, c);
    case _ =>
  }

  /** The value arrives at `bottom` in n steps or fewer. */
  ghost predicate ArrivesIn(n: nat, bottom: Kont, c: Config) {
    Arrived(bottom, c) || (n > 0 && ArrivesIn(n - 1, bottom, Step(c)))
  }

  lemma {:induction false} RunStaysAbove(base: seq<Value>, bottom: Kont, c: Config, n: nat)
    requires StillAbove(base, bottom, c)
    ensures StillAbove(base, bottom, Run(n, c)) || ArrivesIn(n, bottom, c)
    decreases n
  {
    if n > 0 {
      StepStaysAbove(base, bottom, c);
      if StillAbove(base, bottom, Step(c)) {
        RunStaysAbove(base, bottom, Step(c), n - 1);
      }
    }
  }

  lemma {:induction false} ArrivesAlike(n: nat, bottom: Kont, next: Kont, c: Config)
    requires bottom.(recorded := []) == next.(recorded := []) && ArrivesIn(n, bottom, c)
    ensures ArrivesIn(n, next, c)
    decreases n
  {
    if !Arrived(bottom, c) {
      ArrivesAlike(n - 1, bottom, next, Step(c));
    }
  }

  /** What an annotated form's own value goes to: the metadata still to be evaluated, or the
      continuation of the form. */
  ghost function AfterForm(form: Value, scope: ScopeId, k: Kont): Kont
    requires form.Annotate?
  {
    var bind := MetaBind(form.comment, form.meta);
    if |bind| > 0 then Push(EvalMeta(bind, scope, form.range), k) else k
  }

  /** While the form under an annotation is evaluated, however long that takes, the annotated
      form is in the trace, right above what was there. */
  lemma {:induction false} FrameStaysWhileEvaluating(base: seq<Value>, form: Value, scope: ScopeId, k: Kont, st: State,
        n: nat)
    requires form.Annotate? && st.trace == base + Pending(k)
    ensures var c := Run(n, EvalForm(form, scope, k, st));
            || (!c.Panicked? && st.trace + [form] <= c.st.trace)
            || ArrivesIn(n, AfterForm(form, scope, k), EvalForm(form, scope, k, st))
  {
    var next := AfterForm(form, scope, k);
    var bottom, c := Traced(next, form), EvalForm(form, scope, k, st);
    PendingTraced(next, form);
    assert st.trace + [form] == base + Pending(bottom);
    EvalFollows(base, bottom, form.form, scope, bottom, st.(trace := st.trace + [form]));
    if StillAbove(base, bottom, c) {
      RunStaysAbove(base, bottom, c, n);
    }
    if StillAbove(base, bottom, Run(n, c)) {
      StillInTrace(base, bottom, Run(n, c));
    } else {
      ArrivesAlike(n, bottom, next, c);
    }
  }

  /** If the form under an annotation fails, the run ends with the annotated form in its trace,
      right above what was there before. */
  lemma {:induction false} FailureShowsForm(fuel: nat, form: Value, scope: ScopeId, k: Kont, st: State)
    returns (n: nat)
    requires form.Annotate? && D.EvalForm(fuel, form.form, scope, st.heap).Error?
    ensures var o, c := D.EvalForm(fuel, form.form, scope, st.heap), Run(n, EvalForm(form, scope, k, st));
            c.Halted? && c.result == Err(o.error) && c.st.heap == o.at && st.trace + [form] <= c.st.trace
  {
    var c := EvalForm(form, scope, k, st);
    n := S.SimAnnotate(fuel, form, scope, k, st);
    RunAdd(n, 1, c);
    assert Run(1, Run(n, c)) == Step(Run(n, c));
    n := n + 1;
  }

  // ---- What an error report shows

  /** A run of the ring that never holds more than TRACE_SIZE levels. */
  ghost predicate StaysLow<F>(ops: seq<R.Operation<F>>) {
    ops == [] || (StaysLow(ops[..|ops| - 1]) && R.Height(ops) <= R.TRACE_SIZE)
  }

  lemma {:induction false} NothingGivenUp<F>(ops: seq<R.Operation<F>>)
    requires StaysLow(ops) && R.Run(R.Stack([], 0), ops).Some?
    ensures R.Run(R.Stack([], 0), ops).value.low == 0
    decreases |ops|
  {
    if ops != [] {
      var init, last := ops[..|ops| - 1], ops[|ops| - 1];
      assert ops == init + [last];
      R.RunAppend(R.Stack([], 0), init, last);
      NothingGivenUp(init);
      R.EveryRun(ops);
      R.EveryRun(init);
    }
  }

  /** Whichever calls of Record and Pop brought the ring to the trace at which a run failed,
      Frames then shows the forms of the innermost pending continuations, as many as the ring
      has kept, and those of all of them if it was never more than TRACE_SIZE deep. */
  lemma {:induction false} ReportShowsPending(form: Value, scope: ScopeId, heap: Heap, n: nat,
        ops: seq<R.Operation<Value>>)
    requires Run(n, Start(form, scope, State(heap, []))).Fail?
    requires R.Run(R.Stack([], 0), ops).Some?
    requires R.Run(R.Stack([], 0), ops).value.levels == Run(n, Start(form, scope, State(heap, []))).st.trace
    ensures var pending := Pending(Run(n, Start(form, scope, State(heap, []))).k);
            var ring := R.Run(R.Stack([], 0), ops).value;
            && ring.levels == pending && ring.low <= |pending| <= ring.low + R.TRACE_SIZE
            && R.Visible(ring) == pending[ring.low..]
            && (StaysLow(ops) ==> R.Visible(ring) == pending)
  {
    TraceFollowsContinuations(form, scope, State(heap, []), n);
    R.EveryRun(ops);
    var pending := Pending(Run(n, Start(form, scope, State(heap, []))).k);
    assert [] + pending == pending && pending[0..] == pending;
    if StaysLow(ops) {
      NothingGivenUp(ops);
    }
  }
}
