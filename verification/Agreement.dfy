/** Whole runs: the trampolined machine and the direct evaluator agree. */
module Agreement {
  import opened Values
  import M = Machine
  import D = DirectEval
  import opened Simulation

  /** The machine, started on a form, halts with this result on this heap. */
  ghost predicate Halts(form: Value, scope: ScopeId, st: M.State, result: M.Result, h: Heap) {
    exists n: nat :: HaltsIn(n, form, scope, st, result, h)
  }

  ghost predicate HaltsIn(n: nat, form: Value, scope: ScopeId, st: M.State, result: M.Result, h: Heap) {
    var c := M.Run(n, M.Start(form, scope, st));
    c.Halted? && c.result == result && c.st.heap == h
  }

  ghost predicate Evaluates(form: Value, scope: ScopeId, h: Heap, result: M.Result, h': Heap) {
    exists fuel: nat :: EvaluatesWith(fuel, form, scope, h, result, h')
  }

  ghost predicate EvaluatesWith(fuel: nat, form: Value, scope: ScopeId, h: Heap, result: M.Result, h': Heap) {
    match result
    case Answer(v) => D.EvalForm(fuel, form, scope, h) == D.Done(v, h')
    case Err(e) => D.EvalForm(fuel, form, scope, h) == D.Error(e, h')
  }

  lemma {:induction false} HaltsWhenEvaluated(fuel: nat, form: Value, scope: ScopeId, st: M.State, result: M.Result,
        h: Heap)
    requires EvaluatesWith(fuel, form, scope, st.heap, result, h)
    ensures Halts(form, scope, st, result, h)
    ensures result.Answer? ==>
              exists n: nat :: M.Run(n, M.Start(form, scope, st)) == M.Halted(result, M.State(h, st.trace))
  {
    var n := SimEvalForm(fuel, form, scope, M.Identity([]), st);
    var c := M.Start(form, scope, st);
    M.RunAdd(n, 1, c);
    assert M.Run(1, M.Run(n, c)) == M.Step(M.Run(n, c));
    assert st.trace[..|st.trace|] == st.trace;
    assert HaltsIn(n + 1, form, scope, st, result, h);
  }

  lemma {:induction false} EvaluatedWhenHalts(n: nat, form: Value, scope: ScopeId, st: M.State, result: M.Result,
        h: Heap)
    requires HaltsIn(n, form, scope, st, result, h)
    ensures EvaluatesWith(n, form, scope, st.heap, result, h)
  {
    var c := M.Start(form, scope, st);
    var m := SimEvalForm(n, form, scope, M.Identity([]), st);
    if m >= n {
      M.RunAdd(n, m - n, c);
      M.HaltedStays(m - n, M.Run(n, c));
    } else {
      M.RunAdd(m, 1, c);
      assert M.Run(1, M.Run(m, c)) == M.Step(M.Run(m, c));
      M.RunAdd(m + 1, n - m - 1, c);
      M.HaltedStays(n - m - 1, M.Run(m + 1, c));
    }
  }

  /** The trampolined machine and the direct evaluator agree on every form, scope and heap:
      one halts with a value or an error and a heap exactly when the other yields them. */
  lemma {:induction false} MachineAgreesWithDirect(form: Value, scope: ScopeId, st: M.State, result: M.Result, h: Heap)
    ensures Halts(form, scope, st, result, h) <==> Evaluates(form, scope, st.heap, result, h)
  {
    if Halts(form, scope, st, result, h) {
      var n :| HaltsIn(n, form, scope, st, result, h);
      EvaluatedWhenHalts(n, form, scope, st, result, h);
    }
    if Evaluates(form, scope, st.heap, result, h) {
      var fuel :| EvaluatesWith(fuel, form, scope, st.heap, result, h);
      HaltsWhenEvaluated(fuel, form, scope, st, result, h);
    }
  }
}
