/** The trampoline loop, and the tail positions that keep it from growing a stack. */
module Trampoline {
  import opened Options
  import opened Values
  import M = Machine
  import D = DirectEval
  import A = Agreement
  import S = Simulation
  import T = TraceDepth

  datatype Ending = Returned(result: M.Result, st: M.State) | Interrupted | PanickedOut

  /** Go returned an error, or panicked. */
  predicate Raised(c: M.Config) {
    c.Panicked? || (c.Halted? && c.result.Err?)
  }

  /** The trampoline.  `checks` is how many times the loop will find its context alive, which
      only the environment knows.  An error is returned as soon as Go returns it; a value only
      after another check. */
  method Bounce(c: M.Config, checks: nat) returns (r: Ending)
    ensures r.Returned? ==> M.Run(checks, c) == M.Halted(r.result, r.st)
    ensures r.PanickedOut? ==> M.Run(checks, c).Panicked?
    ensures r.Interrupted? ==> forall n: nat :: n < checks ==> !M.Run(n, c).Halted? && !M.Run(n, c).Panicked?
    ensures r.Interrupted? ==> forall n: nat :: 0 < n <= checks ==> !Raised(M.Run(n, c))
  {
    var val := c;
    var left := checks;
    while left > 0
      invariant 0 <= left <= checks
      invariant val == M.Run(checks - left, c)
      invariant forall n: nat :: n < checks - left ==> !M.Run(n, c).Halted? && !M.Run(n, c).Panicked?
      invariant left < checks ==> !Raised(val)
    {
      if val.Panicked? || val.Halted? {
        r := Outcome(val, left, c, checks);
        return;
      }
      M.RunAdd(checks - left, 1, c);
      assert M.Run(1, val) == M.Step(val);
      val := M.Step(val);
      left := left - 1;
      if Raised(val) {
        r := Outcome(val, left, c, checks);
        return;
      }
    }
    return Interrupted;
  }

  /** What the trampoline returns once there is nothing left to run. */
  method Outcome(val: M.Config, left: nat, c: M.Config, checks: nat) returns (r: Ending)
    requires val.Panicked? || val.Halted?
    requires left <= checks && val == M.Run(checks - left, c)
    ensures !r.Interrupted? && M.Run(checks, c) == val
    ensures r == if val.Halted? then Returned(val.result, val.st) else PanickedOut
  {
    M.RunAdd(checks - left, left, c);
    if val.Panicked? {
      PanicStays(left, val);
      return PanickedOut;
    }
    M.HaltedStays(left, val);
    return Returned(val.result, val.st);
  }

  lemma {:induction false} PanicStays(n: nat, c: M.Config)
    requires c.Panicked?
    ensures M.Run(n, c) == c
  {
    if n > 0 {
      PanicStays(n - 1, c);
    }
  }

  /** Evaluating a form through the trampoline: whatever it returns is what the direct
      evaluator says, and it is interrupted only while the machine is still running. */
  method EvalOnce(form: Value, scope: ScopeId, st: M.State, checks: nat) returns (r: Ending)
    ensures !r.PanickedOut?
    ensures r.Returned? ==> A.EvaluatesWith(checks, form, scope, st.heap, r.result, r.st.heap)
    ensures r.Interrupted? ==> forall n: nat :: n < checks ==> !M.Run(n, M.Start(form, scope, st)).Halted?
    ensures r.Interrupted? ==> forall n: nat :: 0 < n <= checks ==> !Raised(M.Run(n, M.Start(form, scope, st)))
  {
    var c := M.Start(form, scope, st);
    r := Bounce(c, checks);
    NeverPanics(form, scope, st, checks);
    if r.Returned? {
      A.EvaluatedWhenHalts(checks, form, scope, st, r.result, r.st.heap);
    }
  }

  lemma {:induction false} NeverPanics(form: Value, scope: ScopeId, st: M.State, n: nat)
    ensures !M.Run(n, M.Start(form, scope, st)).Panicked?
  {
    T.TraceFollowsContinuations(form, scope, st, n);
  }

  // ---- Tail positions: the form is evaluated with the very continuation the combiner got

  /** One finished part and the step that calls its frame. */
  lemma {:induction false} AfterPart(c: M.Config, frame: M.Frame, k: M.Kont, v: Value, h: Heap, trace: seq<Value>,
        n: nat)
    requires M.Run(n, c) == M.Call(M.Push(frame, k), v, M.State(h, trace))
    ensures M.Run(n + 1, c) == M.Continue(frame, k, v, M.State(h, trace))
  {
    S.PushedCall(frame, k, v, M.State(h, trace));
    M.RunAdd(n, 1, c);
    assert M.Run(1, M.Run(n, c)) == M.Step(M.Run(n, c));
  }

  lemma {:induction false} TailOfIf(fuel: nat, cond: Value, yes: Value, no: Value, val: Value, scope: ScopeId,
        k: M.Kont, st: M.State)
    returns (n: nat)
    requires IsList(val) && ToSlice(val) == Some([cond, yes, no])
    requires D.EvalForm(fuel, cond, scope, st.heap).Done?
    ensures var o := D.EvalForm(fuel, cond, scope, st.heap);
            M.Run(n, M.CallBuiltin(If, val, scope, k, st))
            == M.EvalForm(if Truthy(o.value) then yes else no, scope, k, M.State(o.heap, st.trace))
  {
    var frame, o := M.Branch(yes, no, scope), D.EvalForm(fuel, cond, scope, st.heap);
    n := S.SimEvalForm(fuel, cond, scope, M.Push(frame, k), st);
    AfterPart(M.EvalForm(cond, scope, M.Push(frame, k), st), frame, k, o.value, o.heap, st.trace, n);
    n := n + 1;
    IfEvaluatesCondition(cond, yes, no, val, scope, k, st);
  }

  lemma {:induction false} IfEvaluatesCondition(cond: Value, yes: Value, no: Value, val: Value, scope: ScopeId,
        k: M.Kont, st: M.State)
    requires IsList(val) && ToSlice(val) == Some([cond, yes, no])
    ensures M.CallBuiltin(If, val, scope, k, st) == M.EvalForm(cond, scope, M.Push(M.Branch(yes, no, scope), k), st)
  {
  }

  lemma {:induction false} TailOfDo(fuel: nat, body: seq<Value>, scope: ScopeId, k: M.Kont, st: M.State)
    returns (n: nat)
    requires body != []
    requires D.EvalSequence(fuel, body[..|body| - 1], scope, st.heap).Done?
    ensures var o := D.EvalSequence(fuel, body[..|body| - 1], scope, st.heap);
            M.Run(n, M.DoBody(body, scope, k, st))
            == M.EvalForm(body[|body| - 1], scope, k, M.State(o.heap, st.trace))
    decreases |body|
  {
    n := 0;
    if |body| > 1 {
      var init, rest := body[..|body| - 1], body[1..];
      assert init[0] == body[0] && |init| == |rest|;
      var frame, o := M.DoRest(rest, scope), D.EvalForm(fuel, body[0], scope, st.heap);
      n := S.SimEvalForm(fuel, body[0], scope, M.Push(frame, k), st);
      var c, st1 := M.DoBody(body, scope, k, st), M.State(o.heap, st.trace);
      AfterPart(c, frame, k, o.value, o.heap, st.trace, n);
      assert init[1..] == rest[..|rest| - 1];
      var fuel' := if |init| == 1 then 0 else fuel - 1;
      var n2 := TailOfDo(fuel', rest, scope, k, st1);
      M.RunAdd(n + 1, n2, c);
      n := n + 1 + n2;
    }
  }

  lemma {:induction false} TailOfOperative(fuel: nat, op: Value, val: Value, scope: ScopeId, k: M.Kont, st: M.State)
    returns (n: nat)
    requires op.Operative?
    requires D.BindTo(fuel, op.bindings, |st.heap|, val, NewScope(st.heap, [op.staticScope])).Done?
    requires var o := D.BindTo(fuel, op.bindings, |st.heap|, val, NewScope(st.heap, [op.staticScope]));
             D.BindTo(fuel, op.scopeBinding, |st.heap|, Scope(scope), o.heap).Done?
    ensures var o := D.BindTo(fuel, op.bindings, |st.heap|, val, NewScope(st.heap, [op.staticScope]));
            var o' := D.BindTo(fuel, op.scopeBinding, |st.heap|, Scope(scope), o.heap);
            M.Run(n, M.CallCombiner(op, val, scope, k, st))
            == M.EvalForm(op.body, |st.heap|, k, M.State(o'.heap, st.trace))
  {
    var sub, h0 := |st.heap|, NewScope(st.heap, [op.staticScope]);
    var o := D.BindTo(fuel, op.bindings, sub, val, h0);
    var o' := D.BindTo(fuel, op.scopeBinding, sub, Scope(scope), o.heap);
    var c := M.CallCombiner(op, val, scope, k, st);
    var frame := M.BindScope(op.scopeBinding, op.body, sub, scope);
    n := S.SimBindTo(fuel, op.bindings, sub, M.Push(frame, k), val, M.State(h0, st.trace));
    AfterPart(c, frame, k, o.value, o.heap, st.trace, n);
    var frame', st' := M.EvalBody(op.body, sub), M.State(o.heap, st.trace);
    var n2 := S.SimBindTo(fuel, op.scopeBinding, sub, M.Push(frame', k), Scope(scope), st');
    AfterPart(M.BindTo(op.scopeBinding, sub, M.Push(frame', k), Scope(scope), st'),
              frame', k, o'.value, o'.heap, st.trace, n2);
    M.RunAdd(n + 1, n2 + 1, c);
    n := n + 1 + n2 + 1;
  }
}
