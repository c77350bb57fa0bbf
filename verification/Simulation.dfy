/** The machine does what the direct evaluator says.

    With a value it calls the continuation it was given, on the same heap and with the trace
    it started from; with an error it fails with the same error and a trace that extends the
    one it started from; and when the direct evaluator needs more fuel, the machine is still
    running. */
module Simulation {
  import opened Options
  import opened Values
  import M = Machine
  import D = DirectEval

  /** n steps from c do what the direct outcome says. */
  ghost predicate Simulates(c: M.Config, o: D.Outcome<Value>, fuel: nat, k: M.Kont, trace: seq<Value>, n: nat) {
    match o
    case Done(v, h) => M.Run(n, c) == M.Call(k, v, M.State(h, trace))
    case Error(e, h) =>
      M.Run(n, c).Fail? && M.Run(n, c).error == e && M.Run(n, c).st.heap == h && trace <= M.Run(n, c).st.trace
    case OutOfFuel => n >= fuel && !M.Run(n, c).Halted?
  }

  lemma {:induction false} PushedCall(frame: M.Frame, k: M.Kont, v: Value, st: M.State)
    ensures M.Call(M.Push(frame, k), v, st) == M.Ready(M.Push(frame, k), v, st)
  {
    assert st.trace[..|st.trace|] == st.trace;
  }

  /** Popping what an annotated form recorded and then the rest is popping both at once. */
  lemma {:induction false} TracedCall(k: M.Kont, form: Value, v: Value, h: Heap, trace: seq<Value>)
    ensures M.Call(M.Traced(k, form), v, M.State(h, trace + [form])) == M.Call(k, v, M.State(h, trace))
  {
    var n := |trace| - |k.recorded|;
    assert |trace + [form]| - |M.Traced(k, form).recorded| == n;
    if n >= 0 {
      assert (trace + [form])[..n] == trace[..n];
    }
  }

  /** A finished part followed by what its frame does with the value. */
  lemma {:induction false} Chain(c: M.Config, v: Value, h: Heap, kk: M.Kont, trace: seq<Value>, n1: nat,
              o: D.Outcome<Value>, fuel: nat, k: M.Kont, n2: nat)
    requires kk.Then? && M.Run(n1, c) == M.Ready(kk, v, M.State(h, trace))
    requires Simulates(M.Continue(kk.frame, kk.next, v, M.State(h, trace)), o, fuel, k, trace, n2)
    ensures Simulates(c, o, fuel + 1, k, trace, n1 + 1 + n2)
  {
    var c1 := M.Run(n1, c);
    M.RunAdd(n1, 1 + n2, c);
    assert M.Run(1 + n2, c1) == M.Run(n2, M.Step(c1));
  }

  /** A part that was started with one more frame on the continuation, and what that frame
      does with its value. */
  lemma {:induction false} Resume(c: M.Config, o: D.Outcome<Value>, fuel: nat, frame: M.Frame, k: M.Kont,
        trace: seq<Value>, n1: nat,
               whole: D.Outcome<Value>, n2: nat) returns (n: nat)
    requires Simulates(c, o, fuel, M.Push(frame, k), trace, n1)
    requires !o.Done? ==> whole == o
    requires o.Done? && fuel == 0 ==> whole == D.OutOfFuel
    requires o.Done? && fuel > 0 ==>
      Simulates(M.Continue(frame, k, o.value, M.State(o.heap, trace)), whole, fuel - 1, k, trace, n2)
    ensures Simulates(c, whole, fuel, k, trace, n)
  {
    n := n1;
    if o.Done? {
      PushedCall(frame, k, o.value, M.State(o.heap, trace));
      if fuel > 0 {
        Chain(c, o.value, o.heap, M.Push(frame, k), trace, n1, whole, fuel - 1, k, n2);
        n := n1 + 1 + n2;
      }
    }
  }

  lemma {:induction false} SimEvalForm(fuel: nat, form: Value, scope: ScopeId, k: M.Kont, st: M.State) returns (n: nat)
    ensures Simulates(M.EvalForm(form, scope, k, st), D.EvalForm(fuel, form, scope, st.heap), fuel, k, st.trace, n)
    decreases fuel, 0, Size(form), 0
  {
    var c := M.EvalForm(form, scope, k, st);
    match form
    case Pair(a, d) =>
      var kk := M.Push(M.ApplyTo(d, scope), k);
      n := SimEvalForm(fuel, a, scope, kk, st);
      var o := D.EvalForm(fuel, a, scope, st.heap);
      var n2 := 0;
      if o.Done? && fuel > 0 {
        if DecodeCombiner(o.value).Some? {
          n2 := SimCallCombiner(fuel - 1, DecodeCombiner(o.value).value, d, scope, k, M.State(o.heap, st.trace));
        }
      }
      n := Resume(c, o, fuel, kk.frame, k, st.trace, n,
                  D.EvalForm(fuel, form, scope, st.heap), n2);
    case Cons(a, d) =>
      var kk := M.Push(M.EvalRest(d, scope), k);
      n := SimEvalForm(fuel, a, scope, kk, st);
      var o := D.EvalForm(fuel, a, scope, st.heap);
      var n2 := 0;
      if o.Done? && fuel > 0 {
        n2 := SimSecond(fuel - 1, o.value, d, scope, k, M.State(o.heap, st.trace));
      }
      n := Resume(c, o, fuel, kk.frame, k, st.trace, n,
                  D.EvalForm(fuel, form, scope, st.heap), n2);
    case Bind(forms) =>
      n := SimBindForm(fuel, forms, scope, k, st);
    case Annotate(inner, range, comment, meta) =>
      n := SimAnnotate(fuel, form, scope, k, st);
    case Annotated(value, _) =>
      n := SimEvalForm(fuel, value, scope, k, st);
    case _ =>
      n := 0;
      EvaluatesAtOnce(fuel, form, scope, k, st);
  }

  /** Symbols, keywords and values are evaluated without evaluating anything else. */
  lemma {:induction false} EvaluatesAtOnce(fuel: nat, form: Value, scope: ScopeId, k: M.Kont, st: M.State)
    requires !form.Pair? && !form.Cons? && !form.Bind? && !form.Annotate? && !form.Annotated?
    ensures Simulates(M.EvalForm(form, scope, k, st), D.EvalForm(fuel, form, scope, st.heap), fuel, k, st.trace, 0)
  {
  }

  lemma {:induction false} SimBindForm(fuel: nat, forms: seq<Value>, scope: ScopeId, k: M.Kont, st: M.State)
    returns (n: nat)
    ensures Simulates(M.EvalForm(Bind(forms), scope, k, st), D.EvalForm(fuel, Bind(forms), scope, st.heap),
                      fuel, k, st.trace, n)
    decreases fuel, 0, SizeOfList(forms), 1
  {
    var sub := |st.heap|;
    var kk := M.Push(M.BuildScope(sub), k);
    var list, h0 := NewConsList(forms), NewScope(st.heap, [scope]);
    n := SimEvalForm(fuel, list, sub, kk, st.(heap := h0));
    var o := D.EvalForm(fuel, list, sub, h0);
    var n2 := 0;
    if o.Done? && fuel > 0 {
      if ToSlice(o.value).Some? {
        n2 := SimBuild(fuel - 1, ToSlice(o.value).value, sub, k, M.State(SetParents(o.heap, sub, []), st.trace));
      }
    }
    n := Resume(M.EvalForm(Bind(forms), scope, k, st), o, fuel, kk.frame, k, st.trace, n,
                D.EvalForm(fuel, Bind(forms), scope, st.heap), n2);
  }

  lemma {:induction false} SimAnnotate(fuel: nat, form: Value, scope: ScopeId, k: M.Kont, st: M.State) returns (n: nat)
    requires form.Annotate?
    ensures Simulates(M.EvalForm(form, scope, k, st), D.EvalForm(fuel, form, scope, st.heap), fuel, k, st.trace, n)
    ensures D.EvalForm(fuel, form.form, scope, st.heap).Error? ==>
              st.trace + [form] <= M.Run(n, M.EvalForm(form, scope, k, st)).st.trace
    decreases fuel, 0, Size(form.form), 1
  {
    var bind := MetaBind(form.comment, form.meta);
    var next := if |bind| > 0 then M.Push(M.EvalMeta(bind, scope, form.range), k) else k;
    var kk := M.Traced(next, form);
    var st1 := st.(trace := st.trace + [form]);
    n := SimEvalForm(fuel, form.form, scope, kk, st1);
    var o := D.EvalForm(fuel, form.form, scope, st.heap);
    if o.Done? {
      TracedCall(next, form, o.value, o.heap, st.trace);
      if |bind| > 0 {
        TracedIsReady(next, form, o.value, o.heap, st.trace);
        if fuel > 0 {
          var n2 := SimMeta(fuel - 1, bind, o.value, scope, form.range, k, M.State(o.heap, st.trace));
          Chain(M.EvalForm(form, scope, k, st), o.value, o.heap, next, st.trace, n,
                D.EvalForm(fuel, form, scope, st.heap), fuel - 1, k, n2);
          n := n + 1 + n2;
        }
      }
    }
  }

  lemma {:induction false} TracedIsReady(k: M.Kont, form: Value, v: Value, h: Heap, trace: seq<Value>)
    requires k.recorded == []
    ensures M.Call(M.Traced(k, form), v, M.State(h, trace + [form])) == M.Ready(k, v, M.State(h, trace))
  {
    assert (trace + [form])[..|trace|] == trace;
  }

  lemma {:induction false} CallWithSimulates(k: M.Kont, r: Attempt, trace: seq<Value>, fuel: nat)
    ensures Simulates(M.CallWith(k, r, trace), D.Of(r), fuel, k, trace, 0)
  {
  }

  ghost function MetaOutcome(o: D.Outcome<Value>, res: Value, scope: ScopeId, range: Range): D.Outcome<Value> {
    match o
    case Done(metaVal, h) => D.Of(FinishMeta(h, scope, res, metaVal, range))
    case _ => o
  }

  lemma {:induction false} SimMeta(fuel: nat, bind: seq<Value>, res: Value, scope: ScopeId, range: Range, k: M.Kont,
        st: M.State)
    returns (n: nat)
    ensures Simulates(M.Continue(M.EvalMeta(bind, scope, range), k, res, st),
                      MetaOutcome(D.EvalForm(fuel, Bind(bind), scope, st.heap), res, scope, range),
                       fuel, k, st.trace, n)
    decreases fuel, 0, SizeOfList(bind) + 2, 2
  {
    var kk := M.Push(M.AddMeta(res, scope, range), k);
    n := SimEvalForm(fuel, Bind(bind), scope, kk, st);
    n := AddMetaLast(M.EvalForm(Bind(bind), scope, kk, st), D.EvalForm(fuel, Bind(bind), scope, st.heap),
                     fuel, res, scope, range, k, st.trace, n);
  }

  lemma {:induction false} AddMetaLast(c: M.Config, o: D.Outcome<Value>, fuel: nat, res: Value, scope: ScopeId,
        range: Range,
                    k: M.Kont, trace: seq<Value>, n1: nat) returns (n: nat)
    requires Simulates(c, o, fuel, M.Push(M.AddMeta(res, scope, range), k), trace, n1)
    ensures Simulates(c, MetaOutcome(o, res, scope, range), fuel, k, trace, n)
  {
    n := n1;
    if o.Done? {
      var kk := M.Push(M.AddMeta(res, scope, range), k);
      PushedCall(kk.frame, k, o.value, M.State(o.heap, trace));
      var r := FinishMeta(o.heap, scope, res, o.value, range);
      CallWithSimulates(k, r, trace, fuel);
      Chain(c, o.value, o.heap, kk, trace, n, D.Of(r), fuel, k, 0);
      n := n + 1;
    }
  }

  /** Evaluating the second half of a pair. */
  lemma {:induction false} SimSecond(fuel: nat, first: Value, d: Value, scope: ScopeId, k: M.Kont, st: M.State)
    returns (n: nat)
    ensures Simulates(M.EvalForm(d, scope, M.Push(M.MakePair(first), k), st),
                      D.PairOutcome(first, D.EvalForm(fuel, d, scope, st.heap)), fuel, k, st.trace, n)
    decreases fuel, 0, Size(d), 1
  {
    var kk := M.Push(M.MakePair(first), k);
    n := SimEvalForm(fuel, d, scope, kk, st);
    n := FinishPair(M.EvalForm(d, scope, kk, st), D.EvalForm(fuel, d, scope, st.heap), fuel, first, k, st.trace, n);
  }

  lemma {:induction false} FinishPair(c: M.Config, o: D.Outcome<Value>, fuel: nat, first: Value, k: M.Kont,
        trace: seq<Value>, n1: nat)
    returns (n: nat)
    requires Simulates(c, o, fuel, M.Push(M.MakePair(first), k), trace, n1)
    ensures Simulates(c, D.PairOutcome(first, o), fuel, k, trace, n)
  {
    n := n1;
    if o.Done? {
      var kk := M.Push(M.MakePair(first), k);
      PushedCall(kk.frame, k, o.value, M.State(o.heap, trace));
      Chain(c, o.value, o.heap, kk, trace, n, D.PairOutcome(first, o), fuel, k, 0);
      n := n + 1;
    }
  }

  lemma {:induction false} SimEvalOperands(fuel: nat, a: Value, d: Value, scope: ScopeId, k: M.Kont, st: M.State)
    returns (n: nat)
    ensures Simulates(M.EvalPair(a, d, scope, k, st), D.EvalOperands(fuel, a, d, scope, st.heap), fuel, k, st.trace, n)
    decreases fuel, 1, 0
  {
    var kk := M.Push(M.EvalOperands(d, scope), k);
    n := SimEvalForm(fuel, a, scope, kk, st);
    n := ThenOperands(M.EvalPair(a, d, scope, k, st), D.EvalForm(fuel, a, scope, st.heap), fuel, d, scope, k,
                      st.trace, n);
  }

  ghost function OperandsOutcome(o: D.Outcome<Value>, fuel: nat, d: Value, scope: ScopeId): D.Outcome<Value> {
    match o
    case Done(first, h) =>
      if fuel == 0 then D.OutOfFuel
      else
        D.PairOutcome(first, if d.Pair? then D.EvalOperands(fuel - 1, d.a, d.d, scope, h)
                             else D.EvalForm(fuel - 1, d, scope, h))
    case _ => o
  }

  lemma {:induction false} ThenOperands(c: M.Config, o: D.Outcome<Value>, fuel: nat, d: Value, scope: ScopeId,
                                        k: M.Kont, trace: seq<Value>, n1: nat) returns (n: nat)
    requires Simulates(c, o, fuel, M.Push(M.EvalOperands(d, scope), k), trace, n1)
    ensures Simulates(c, OperandsOutcome(o, fuel, d, scope), fuel, k, trace, n)
    decreases fuel, 0, 0
  {
    var n2 := 0;
    if o.Done? && fuel > 0 {
      var st := M.State(o.heap, trace);
      if d.Pair? {
        var kk := M.Push(M.MakePair(o.value), k);
        n2 := SimEvalOperands(fuel - 1, d.a, d.d, scope, kk, st);
        n2 := FinishPair(M.EvalPair(d.a, d.d, scope, kk, st), D.EvalOperands(fuel - 1, d.a, d.d, scope, o.heap),
                         fuel - 1, o.value, k, trace, n2);
      } else {
        n2 := SimSecond(fuel - 1, o.value, d, scope, k, st);
      }
    }
    n := Resume(c, o, fuel, M.EvalOperands(d, scope), k, trace, n1, OperandsOutcome(o, fuel, d, scope), n2);
  }

  lemma {:induction false} SimBindTo(fuel: nat, binding: Value, scope: ScopeId, k: M.Kont, val: Value, st: M.State)
    returns (n: nat)
    ensures Simulates(M.BindTo(binding, scope, k, val, st), D.BindTo(fuel, binding, scope, val, st.heap),
                      fuel, k, st.trace, n)
    decreases fuel, 1, binding, 0
  {
    match binding
    case Pair(a, d) =>
      n := SimBindList(fuel, a, d, scope, k, val, st);
    case Cons(a, d) =>
      n := SimBindList(fuel, a, d, scope, k, val, st);
    case Bind(forms) =>
      n := SimBindForms(fuel, forms, scope, k, val, st);
    case Annotate(inner, range, comment, meta) =>
      var bind := MetaBind(comment, meta);
      if |bind| == 0 {
        n := SimBindTo(fuel, inner, scope, k, val, st);
      } else {
        n := SimBindMeta(fuel, binding, scope, k, val, st);
      }
    case Annotated(value, _) =>
      n := SimBindTo(fuel, value, scope, k, val, st);
    case _ =>
      n := 0;
      BindsAtOnce(fuel, binding, scope, k, val, st);
  }

  /** Symbols and constants are bound without evaluating anything. */
  lemma {:induction false} BindsAtOnce(fuel: nat, binding: Value, scope: ScopeId, k: M.Kont, val: Value, st: M.State)
    requires !binding.Pair? && !binding.Cons? && !binding.Bind? && !binding.Annotate? && !binding.Annotated?
    ensures Simulates(M.BindTo(binding, scope, k, val, st), D.BindTo(fuel, binding, scope, val, st.heap),
                      fuel, k, st.trace, 0)
  {
  }

  lemma {:induction false} SimBindMeta(fuel: nat, binding: Value, scope: ScopeId, k: M.Kont, val: Value, st: M.State)
    returns (n: nat)
    requires binding.Annotate? && |MetaBind(binding.comment, binding.meta)| > 0
    ensures Simulates(M.BindTo(binding, scope, k, val, st), D.BindTo(fuel, binding, scope, val, st.heap),
                      fuel, k, st.trace, n)
    decreases fuel, 1, binding.form, 1
  {
    var bind := MetaBind(binding.comment, binding.meta);
    var kk := M.Push(M.BindWithMeta(binding.form, binding.range, scope, val), k);
    n := SimEvalForm(fuel, Bind(bind), scope, kk, st);
    n := ThenBindMeta(M.EvalForm(Bind(bind), scope, kk, st), D.EvalForm(fuel, Bind(bind), scope, st.heap), fuel,
                      binding.form, binding.range, scope, val, k, st.trace, n);
  }

  ghost function WithMetaOutcome(o: D.Outcome<Value>, fuel: nat, inner: Value, range: Range, scope: ScopeId,
        val: Value): D.Outcome<Value> {
    match o
    case Done(metaVal, h) =>
      if fuel == 0 then D.OutOfFuel else InnerOutcome(fuel - 1, inner, range, scope, val, metaVal, h)
    case _ => o
  }

  lemma {:induction false} ThenBindMeta(c: M.Config, o: D.Outcome<Value>, fuel: nat, inner: Value, range: Range,
        scope: ScopeId, val: Value, k: M.Kont, trace: seq<Value>, n1: nat)
    returns (n: nat)
    requires Simulates(c, o, fuel, M.Push(M.BindWithMeta(inner, range, scope, val), k), trace, n1)
    ensures Simulates(c, WithMetaOutcome(o, fuel, inner, range, scope, val), fuel, k, trace, n)
    decreases fuel, 0, 0
  {
    var n2 := 0;
    if o.Done? && fuel > 0 {
      n2 := SimBindInner(fuel - 1, inner, range, scope, val, o.value, k, M.State(o.heap, trace));
    }
    n := Resume(c, o, fuel, M.BindWithMeta(inner, range, scope, val), k, trace, n1,
                WithMetaOutcome(o, fuel, inner, range, scope, val), n2);
  }

  /** Binding the inner pattern once the metadata is there. */
  ghost function InnerOutcome(fuel: nat, inner: Value, range: Range, scope: ScopeId, val: Value, metaVal: Value,
        h: Heap): D.Outcome<Value> {
    match DecodeScope(metaVal)
    case None => D.Error(DecodeError, h)
    case Some(m) => D.BindTo(fuel, inner, scope, Annotated(val, m), SetRange(h, m, range))
  }

  lemma {:induction false} SimBindInner(fuel: nat, inner: Value, range: Range, scope: ScopeId, val: Value,
        metaVal: Value, k: M.Kont, st: M.State)
    returns (n: nat)
    ensures Simulates(M.Continue(M.BindWithMeta(inner, range, scope, val), k, metaVal, st),
                      InnerOutcome(fuel, inner, range, scope, val, metaVal, st.heap), fuel, k, st.trace, n)
    decreases fuel, 2, 0
  {
    n := 0;
    if DecodeScope(metaVal).Some? {
      var m := DecodeScope(metaVal).value;
      n := SimBindTo(fuel, inner, scope, k, Annotated(val, m), st.(heap := SetRange(st.heap, m, range)));
    }
  }

  lemma {:induction false} SimBindList(fuel: nat, a: Value, d: Value, scope: ScopeId, k: M.Kont, val: Value,
        st: M.State)
    returns (n: nat)
    ensures Simulates(M.BindList(a, d, scope, k, val, st), D.BindList(fuel, a, d, scope, val, st.heap),
                      fuel, k, st.trace, n)
    decreases fuel, 1, a, 2
  {
    BindListInParts(a, d, scope, k, val, st);
    var v := Strip(val);
    n := 0;
    if (v.Pair? || v.Cons?) && IsBindable(a) {
      n := SimFirst(fuel, a, d, scope, k, v.a, v.d, st);
      D.BindListInParts(fuel, a, d, scope, val, st.heap);
    } else {
      D.BindListRefuses(fuel, a, d, scope, val, st.heap);
    }
  }

  lemma {:induction false} BindListInParts(a: Value, d: Value, scope: ScopeId, k: M.Kont, val: Value, st: M.State)
    ensures var v := Strip(val);
            M.BindList(a, d, scope, k, val, st)
            == if !(v.Pair? || v.Cons?) then M.Fail(k, BindMismatch, st)
               else if !IsBindable(a) then M.Fail(k, CannotBind, st)
               else M.BindTo(a, scope, M.Push(M.BindRest(d, v.d, scope), k), v.a, st)
  {
  }

  lemma {:induction false} SimFirst(fuel: nat, a: Value, d: Value, scope: ScopeId, k: M.Kont, first: Value,
        rest: Value, st: M.State)
    returns (n: nat)
    ensures Simulates(M.BindTo(a, scope, M.Push(M.BindRest(d, rest, scope), k), first, st),
                      D.AfterFirst(D.BindTo(fuel, a, scope, first, st.heap), fuel, d, scope, rest),
                      fuel, k, st.trace, n)
    decreases fuel, 1, a, 1
  {
    var kk := M.Push(M.BindRest(d, rest, scope), k);
    n := SimBindTo(fuel, a, scope, kk, first, st);
    var o := D.BindTo(fuel, a, scope, first, st.heap);
    var n2 := 0;
    if o.Done? && fuel > 0 {
      n2 := SimRest(fuel - 1, o.value, d, scope, k, rest, M.State(o.heap, st.trace));
    }
    n := Resume(M.BindTo(a, scope, kk, first, st), o, fuel, kk.frame, k, st.trace, n,
                D.AfterFirst(o, fuel, d, scope, rest), n2);
  }

  /** Binding the second half of a pair. */
  lemma {:induction false} SimRest(fuel: nat, first: Value, d: Value, scope: ScopeId, k: M.Kont, rest: Value,
        st: M.State)
    returns (n: nat)
    ensures Simulates(M.Continue(M.BindRest(d, rest, scope), k, first, st),
                      D.RestOutcome(fuel, first, d, scope, rest, st.heap), fuel, k, st.trace, n)
    decreases fuel, 2, 0
  {
    n := 0;
    if IsBindable(d) {
      var kk := M.Push(M.MakePair(first), k);
      n := SimBindTo(fuel, d, scope, kk, rest, st);
      n := FinishPair(M.BindTo(d, scope, kk, rest, st), D.BindTo(fuel, d, scope, rest, st.heap),
                      fuel, first, k, st.trace, n);
    }
  }

  lemma {:induction false} SimBindForms(fuel: nat, forms: seq<Value>, scope: ScopeId, k: M.Kont, val: Value,
        st: M.State)
    returns (n: nat)
    ensures Simulates(M.BindForms(forms, scope, k, val, st), D.BindForms(fuel, forms, scope, val, st.heap),
                      fuel, k, st.trace, n)
    decreases fuel, 1, forms
  {
    if DecodeScope(val).Some? && |forms| % 2 == 0 && forms != []
       && IsBindable(forms[1]) && DecodeEntry(forms[0]).GoodEntry? {
      n := SimFirstEntry(fuel, forms, scope, k, DecodeScope(val).value, DecodeEntry(forms[0]).entry, st);
      BindFormsInParts(fuel, forms, scope, k, val, st);
    } else {
      n := 0;
      BindFormsAtOnce(fuel, forms, scope, k, val, st);
    }
  }

  lemma {:induction false} BindFormsInParts(fuel: nat, forms: seq<Value>, scope: ScopeId, k: M.Kont, val: Value,
        st: M.State)
    requires DecodeScope(val).Some? && |forms| % 2 == 0 && forms != []
    requires IsBindable(forms[1]) && DecodeEntry(forms[0]).GoodEntry?
    ensures var source, entry := DecodeScope(val).value, DecodeEntry(forms[0]).entry;
            && M.BindForms(forms, scope, k, val, st)
               == M.EntryValue(entry, source, scope, k, M.Push(M.BindEntry(forms[1], forms[2..], scope, source), k), st)
            && D.BindForms(fuel, forms, scope, val, st.heap)
               == FirstEntryOutcome(D.EntryValue(fuel, entry, source, scope, st.heap), fuel, forms, scope, source)
  {
  }

  lemma {:induction false} BindFormsAtOnce(fuel: nat, forms: seq<Value>, scope: ScopeId, k: M.Kont, val: Value,
        st: M.State)
    requires !(DecodeScope(val).Some? && |forms| % 2 == 0 && forms != []
               && IsBindable(forms[1]) && DecodeEntry(forms[0]).GoodEntry?)
    ensures Simulates(M.BindForms(forms, scope, k, val, st), D.BindForms(fuel, forms, scope, val, st.heap),
                      fuel, k, st.trace, 0)
  {
  }

  ghost function FirstEntryOutcome(o: D.Outcome<Value>, fuel: nat, forms: seq<Value>, scope: ScopeId,
        source: ScopeId): D.Outcome<Value>
    requires |forms| >= 2
  {
    match o
    case Done(v, h) =>
      if fuel == 0 then D.OutOfFuel
      else EntriesOutcome(D.BindTo(fuel - 1, forms[1], scope, v, h), fuel - 1, forms[2..], scope, source)
    case _ => o
  }

  lemma {:induction false} SimFirstEntry(fuel: nat, forms: seq<Value>, scope: ScopeId, k: M.Kont, source: ScopeId,
        entry: Entry, st: M.State)
    returns (n: nat)
    requires |forms| >= 2
    ensures var doBind := M.Push(M.BindEntry(forms[1], forms[2..], scope, source), k);
            Simulates(M.EntryValue(entry, source, scope, k, doBind, st),
                      FirstEntryOutcome(D.EntryValue(fuel, entry, source, scope, st.heap), fuel, forms, scope, source),
                      fuel, k, st.trace, n)
    decreases fuel, 0, (if entry.default.Some? then Size(entry.default.value) else 0), 2
  {
    var kk := M.Push(M.BindEntry(forms[1], forms[2..], scope, source), k);
    n := SimEntryValue(fuel, entry, source, scope, k, kk, st);
    var o := D.EntryValue(fuel, entry, source, scope, st.heap);
    var n2 := 0;
    if o.Done? && fuel > 0 {
      n2 := SimEntries(fuel - 1, forms[1], forms[2..], scope, source, k, o.value, M.State(o.heap, st.trace));
    }
    n := Resume(M.EntryValue(entry, source, scope, k, kk, st), o, fuel, kk.frame, k, st.trace, n,
                FirstEntryOutcome(o, fuel, forms, scope, source), n2);
  }

  lemma {:induction false} SimEntryValue(fuel: nat, entry: Entry, source: ScopeId, scope: ScopeId, k: M.Kont,
        kk: M.Kont, st: M.State)
    returns (n: nat)
    requires kk.recorded == []
    ensures Simulates(M.EntryValue(entry, source, scope, k, kk, st), D.EntryValue(fuel, entry, source, scope, st.heap),
                      fuel, kk, st.trace, n)
    decreases fuel, 0, (if entry.default.Some? then Size(entry.default.value) else 0), 1
  {
    n := 0;
    if Get(st.heap, source, entry.key).Missing? && entry.default.Some? {
      n := SimEvalForm(fuel, entry.default.value, scope, kk, st);
    }
  }

  ghost function EntriesOutcome(o: D.Outcome<Value>, fuel: nat, rest: seq<Value>, scope: ScopeId,
        source: ScopeId): D.Outcome<Value> {
    match o
    case Done(_, h) => if fuel == 0 then D.OutOfFuel else D.BindForms(fuel - 1, rest, scope, Scope(source), h)
    case _ => o
  }

  lemma {:induction false} SimEntries(fuel: nat, binding: Value, rest: seq<Value>, scope: ScopeId, source: ScopeId,
        k: M.Kont, v: Value, st: M.State)
    returns (n: nat)
    ensures Simulates(M.Continue(M.BindEntry(binding, rest, scope, source), k, v, st),
                      EntriesOutcome(D.BindTo(fuel, binding, scope, v, st.heap), fuel, rest, scope, source),
                      fuel, k, st.trace, n)
    decreases fuel, 2, 0
  {
    var kk := M.Push(M.BindEntries(rest, scope, source), k);
    n := SimBindTo(fuel, binding, scope, kk, v, st);
    n := ThenEntries(M.BindTo(binding, scope, kk, v, st), D.BindTo(fuel, binding, scope, v, st.heap), fuel,
                     rest, scope, source, k, st.trace, n);
  }

  lemma {:induction false} ThenEntries(c: M.Config, o: D.Outcome<Value>, fuel: nat, rest: seq<Value>, scope: ScopeId,
        source: ScopeId,
                                       k: M.Kont, trace: seq<Value>, n1: nat) returns (n: nat)
    requires Simulates(c, o, fuel, M.Push(M.BindEntries(rest, scope, source), k), trace, n1)
    ensures Simulates(c, EntriesOutcome(o, fuel, rest, scope, source), fuel, k, trace, n)
    decreases fuel, 0, 0
  {
    var n2 := 0;
    if o.Done? && fuel > 0 {
      n2 := SimBindForms(fuel - 1, rest, scope, k, Scope(source), M.State(o.heap, trace));
    }
    n := Resume(c, o, fuel, M.BindEntries(rest, scope, source), k, trace, n1,
                EntriesOutcome(o, fuel, rest, scope, source), n2);
  }

  lemma {:induction false} SimBuild(fuel: nat, vs: seq<Value>, scope: ScopeId, k: M.Kont, st: M.State) returns (n: nat)
    ensures Simulates(M.Build(vs, scope, k, st), D.Build(fuel, vs, scope, st.heap), fuel, k, st.trace, n)
    decreases fuel, 2, |vs|
  {
    n := 0;
    if vs != [] {
      if DecodeSymbol(vs[0]).Some? {
        if |vs| >= 2 {
          var name, val := DecodeSymbol(vs[0]).value, WithMetaOf(vs[0], vs[1]);
          var kk := M.Push(M.BuildMore(vs[2..], scope), k);
          n := SimBindTo(fuel, Sym(name), scope, kk, val, st);
          var o := D.BindTo(fuel, Sym(name), scope, val, st.heap);
          var n2 := 0;
          if o.Done? && fuel > 0 {
            n2 := SimBuild(fuel - 1, vs[2..], scope, k, M.State(o.heap, st.trace));
          }
          n := Resume(M.Build(vs, scope, k, st), o, fuel, kk.frame, k, st.trace, n,
                      D.Build(fuel, vs, scope, st.heap), n2);
        }
      } else if DecodeScope(vs[0]).Some? {
        n := SimBuild(fuel, vs[1..], scope, k, st.(heap := AddParent(st.heap, scope, DecodeScope(vs[0]).value)));
      }
    }
  }

  lemma {:induction false} SimCallCombiner(fuel: nat, combiner: Value, val: Value, scope: ScopeId, k: M.Kont,
        st: M.State)
    returns (n: nat)
    ensures Simulates(M.CallCombiner(combiner, val, scope, k, st), D.CallCombiner(fuel, combiner, val, scope, st.heap),
                      fuel, k, st.trace, n)
    decreases fuel, 3, 0
  {
    match combiner
    case Operative(_, _, _, _) =>
      n := SimOperative(fuel, combiner, val, scope, k, st);
    case Builtin(primitive) =>
      n := SimCallBuiltin(fuel, primitive, val, scope, k, st);
    case Wrapped(underlying) =>
      n := SimCallWrapped(fuel, underlying, val, scope, k, st);
    case Sym(name) =>
      n := SimCallWrapped(fuel, SymbolOperative(name), val, scope, k, st);
    case _ =>
      n := 0;
  }

  lemma {:induction false} SimOperative(fuel: nat, op: Value, val: Value, scope: ScopeId, k: M.Kont, st: M.State)
    returns (n: nat)
    requires op.Operative?
    ensures Simulates(M.CallCombiner(op, val, scope, k, st), D.CallCombiner(fuel, op, val, scope, st.heap),
                      fuel, k, st.trace, n)
    decreases fuel, 2, 0
  {
    var sub, h0 := |st.heap|, NewScope(st.heap, [op.staticScope]);
    var kk := M.Push(M.BindScope(op.scopeBinding, op.body, sub, scope), k);
    n := SimBindTo(fuel, op.bindings, sub, kk, val, st.(heap := h0));
    var o := D.BindTo(fuel, op.bindings, sub, val, h0);
    var n2 := 0;
    if o.Done? && fuel > 0 {
      n2 := SimBody(fuel - 1, op.scopeBinding, op.body, sub, scope, k, o.value, M.State(o.heap, st.trace));
    }
    n := Resume(M.BindTo(op.bindings, sub, kk, val, st.(heap := h0)), o, fuel, kk.frame, k, st.trace, n,
                OperativeOutcome(o, fuel, op, scope, sub), n2);
  }

  ghost function OperativeOutcome(o: D.Outcome<Value>, fuel: nat, op: Value, caller: ScopeId,
        sub: ScopeId): D.Outcome<Value>
    requires op.Operative?
  {
    match o
    case Done(_, h) =>
      if fuel == 0 then D.OutOfFuel
      else BodyOutcome(D.BindTo(fuel - 1, op.scopeBinding, sub, Scope(caller), h), fuel - 1, op.body, sub)
    case _ => o
  }

  ghost function BodyOutcome(o: D.Outcome<Value>, fuel: nat, body: Value, sub: ScopeId): D.Outcome<Value> {
    match o
    case Done(_, h) => if fuel == 0 then D.OutOfFuel else D.EvalForm(fuel - 1, body, sub, h)
    case _ => o
  }

  lemma {:induction false} SimBody(fuel: nat, scopeBinding: Value, body: Value, sub: ScopeId, caller: ScopeId,
        k: M.Kont, v: Value, st: M.State)
    returns (n: nat)
    ensures Simulates(M.Continue(M.BindScope(scopeBinding, body, sub, caller), k, v, st),
                      BodyOutcome(D.BindTo(fuel, scopeBinding, sub, Scope(caller), st.heap), fuel, body, sub),
                      fuel, k, st.trace, n)
    decreases fuel, 4, 0
  {
    var kk := M.Push(M.EvalBody(body, sub), k);
    n := SimBindTo(fuel, scopeBinding, sub, kk, Scope(caller), st);
    n := ThenBody(M.BindTo(scopeBinding, sub, kk, Scope(caller), st),
                  D.BindTo(fuel, scopeBinding, sub, Scope(caller), st.heap), fuel, body, sub, k, st.trace, n);
  }

  lemma {:induction false} ThenBody(c: M.Config, o: D.Outcome<Value>, fuel: nat, body: Value, sub: ScopeId,
                                    k: M.Kont, trace: seq<Value>, n1: nat) returns (n: nat)
    requires Simulates(c, o, fuel, M.Push(M.EvalBody(body, sub), k), trace, n1)
    ensures Simulates(c, BodyOutcome(o, fuel, body, sub), fuel, k, trace, n)
    decreases fuel, 0, 0
  {
    var n2 := 0;
    if o.Done? && fuel > 0 {
      n2 := SimEvalForm(fuel - 1, body, sub, k, M.State(o.heap, trace));
    }
    n := Resume(c, o, fuel, M.EvalBody(body, sub), k, trace, n1, BodyOutcome(o, fuel, body, sub), n2);
  }

  lemma {:induction false} SimCallWrapped(fuel: nat, underlying: Value, val: Value, scope: ScopeId, k: M.Kont,
        st: M.State)
    returns (n: nat)
    ensures Simulates(M.CallWrapped(underlying, val, scope, k, st),
                      D.CallWrapped(fuel, underlying, val, scope, st.heap),
                      fuel, k, st.trace, n)
    decreases fuel, 2, 0
  {
    var kk := M.Push(M.CallUnderlying(underlying, scope), k);
    var o;
    if val.Pair? {
      n := SimEvalOperands(fuel, val.a, val.d, scope, kk, st);
      o := D.EvalOperands(fuel, val.a, val.d, scope, st.heap);
    } else {
      n := SimEvalForm(fuel, val, scope, kk, st);
      o := D.EvalForm(fuel, val, scope, st.heap);
    }
    var n2 := 0;
    if o.Done? && fuel > 0 {
      n2 := SimCallCombiner(fuel - 1, underlying, o.value, scope, k, M.State(o.heap, st.trace));
    }
    n := Resume(M.CallWrapped(underlying, val, scope, k, st), o, fuel, kk.frame, k, st.trace, n,
                D.CallWrapped(fuel, underlying, val, scope, st.heap), n2);
  }

  lemma {:induction false} SimCallBuiltin(fuel: nat, primitive: Primitive, val: Value, scope: ScopeId, k: M.Kont,
        st: M.State)
    returns (n: nat)
    ensures Simulates(M.CallBuiltin(primitive, val, scope, k, st), D.CallBuiltin(fuel, primitive, val, scope, st.heap),
                      fuel, k, st.trace, n)
    decreases fuel, 2, 0
  {
    n := 0;
    if IsList(val) && ToSlice(val).Some? {
      var args := ToSlice(val).value;
      match primitive
      case Def =>
        if |args| == 2 && IsBindable(args[0]) {
          assert args == [args[0], args[1]];
          n := SimDef(fuel, args[0], args[1], val, scope, k, st);
        }
      case If =>
        if |args| == 3 {
          assert args == [args[0], args[1], args[2]];
          n := SimIf(fuel, args[0], args[1], args[2], val, scope, k, st);
        }
      case Do =>
        n := SimSequence(fuel, args, scope, k, st);
      case Eval =>
        if |args| == 2 && DecodeScope(args[1]).Some? {
          assert args == [args[0], args[1]];
          n := SimEval(fuel, args[0], args[1], val, scope, k, st);
        }
      case _ => CallsAtOnce(fuel, primitive, val, scope, k, st);
    }
  }

  lemma {:induction false} SimEval(fuel: nat, form: Value, given: Value, val: Value, scope: ScopeId, k: M.Kont,
        st: M.State)
    returns (n: nat)
    requires IsList(val) && ToSlice(val) == Some([form, given]) && DecodeScope(given).Some?
    ensures Simulates(M.CallBuiltin(Eval, val, scope, k, st), D.CallBuiltin(fuel, Eval, val, scope, st.heap),
                      fuel, k, st.trace, n)
    decreases fuel, 1, 0
  {
    n := SimEvalForm(fuel, form, DecodeScope(given).value, k, st);
  }

  /** op and wrap evaluate nothing. */
  lemma {:induction false} CallsAtOnce(fuel: nat, primitive: Primitive, val: Value, scope: ScopeId, k: M.Kont,
        st: M.State)
    requires primitive.Op? || primitive.Wrap?
    ensures Simulates(M.CallBuiltin(primitive, val, scope, k, st), D.CallBuiltin(fuel, primitive, val, scope, st.heap),
                      fuel, k, st.trace, 0)
  {
  }

  lemma {:induction false} SimDef(fuel: nat, formals: Value, form: Value, val: Value, scope: ScopeId, k: M.Kont,
        st: M.State)
    returns (n: nat)
    requires IsList(val) && ToSlice(val) == Some([formals, form]) && IsBindable(formals)
    ensures Simulates(M.CallBuiltin(Def, val, scope, k, st), D.CallBuiltin(fuel, Def, val, scope, st.heap),
                      fuel, k, st.trace, n)
    decreases fuel, 1, 0
  {
    var kk := M.Push(M.BindResult(formals, scope), k);
    n := SimEvalForm(fuel, form, scope, kk, st);
    var o := D.EvalForm(fuel, form, scope, st.heap);
    var n2 := 0;
    if o.Done? && fuel > 0 {
      n2 := SimBindTo(fuel - 1, formals, scope, k, o.value, M.State(o.heap, st.trace));
    }
    n := Resume(M.CallBuiltin(Def, val, scope, k, st), o, fuel, kk.frame, k, st.trace, n,
                D.CallBuiltin(fuel, Def, val, scope, st.heap), n2);
  }

  ghost function IfOutcome(o: D.Outcome<Value>, fuel: nat, yes: Value, no: Value, scope: ScopeId): D.Outcome<Value> {
    match o
    case Done(v, h) =>
      if fuel == 0 then D.OutOfFuel else D.EvalForm(fuel - 1, if Truthy(v) then yes else no, scope, h)
    case _ => o
  }

  lemma {:induction false} IfEvaluatesCondition(cond: Value, yes: Value, no: Value, val: Value, scope: ScopeId,
        k: M.Kont, st: M.State)
    requires IsList(val) && ToSlice(val) == Some([cond, yes, no])
    ensures M.CallBuiltin(If, val, scope, k, st) == M.EvalForm(cond, scope, M.Push(M.Branch(yes, no, scope), k), st)
  {
  }

  lemma {:induction false} IfInParts(fuel: nat, cond: Value, yes: Value, no: Value, val: Value, scope: ScopeId, h: Heap)
    requires IsList(val) && ToSlice(val) == Some([cond, yes, no])
    ensures D.CallBuiltin(fuel, If, val, scope, h) == IfOutcome(D.EvalForm(fuel, cond, scope, h), fuel, yes, no, scope)
  {
  }

  lemma {:induction false} SimIf(fuel: nat, cond: Value, yes: Value, no: Value, val: Value, scope: ScopeId,
        k: M.Kont, st: M.State)
    returns (n: nat)
    requires IsList(val) && ToSlice(val) == Some([cond, yes, no])
    ensures Simulates(M.CallBuiltin(If, val, scope, k, st), D.CallBuiltin(fuel, If, val, scope, st.heap),
                      fuel, k, st.trace, n)
    decreases fuel, 1, 0
  {
    var kk := M.Push(M.Branch(yes, no, scope), k);
    IfEvaluatesCondition(cond, yes, no, val, scope, k, st);
    IfInParts(fuel, cond, yes, no, val, scope, st.heap);
    n := SimEvalForm(fuel, cond, scope, kk, st);
    n := ThenBranch(M.EvalForm(cond, scope, kk, st), D.EvalForm(fuel, cond, scope, st.heap), fuel, yes, no, scope, k,
                    st.trace, n);
  }

  lemma {:induction false} ThenBranch(c: M.Config, o: D.Outcome<Value>, fuel: nat, yes: Value, no: Value,
        scope: ScopeId, k: M.Kont, trace: seq<Value>, n1: nat)
    returns (n: nat)
    requires Simulates(c, o, fuel, M.Push(M.Branch(yes, no, scope), k), trace, n1)
    ensures Simulates(c, IfOutcome(o, fuel, yes, no, scope), fuel, k, trace, n)
    decreases fuel, 0, 0
  {
    var n2 := 0;
    if o.Done? && fuel > 0 {
      n2 := SimEvalForm(fuel - 1, if Truthy(o.value) then yes else no, scope, k, M.State(o.heap, trace));
    }
    n := Resume(c, o, fuel, M.Branch(yes, no, scope), k, trace, n1, IfOutcome(o, fuel, yes, no, scope), n2);
  }

  lemma {:induction false} SimSequence(fuel: nat, body: seq<Value>, scope: ScopeId, k: M.Kont, st: M.State)
    returns (n: nat)
    ensures Simulates(M.DoBody(body, scope, k, st), D.EvalSequence(fuel, body, scope, st.heap), fuel, k, st.trace, n)
    decreases fuel, 1, 0
  {
    n := 0;
    if |body| == 1 {
      n := SimEvalForm(fuel, body[0], scope, k, st);
    } else if |body| > 1 {
      var kk := M.Push(M.DoRest(body[1..], scope), k);
      n := SimEvalForm(fuel, body[0], scope, kk, st);
      var o := D.EvalForm(fuel, body[0], scope, st.heap);
      var n2 := 0;
      if o.Done? && fuel > 0 {
        n2 := SimSequence(fuel - 1, body[1..], scope, k, M.State(o.heap, st.trace));
      }
      n := Resume(M.DoBody(body, scope, k, st), o, fuel, kk.frame, k, st.trace, n,
                  D.EvalSequence(fuel, body, scope, st.heap), n2);
    }
  }
}
