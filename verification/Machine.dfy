/** The continuation-passing evaluator.  Evaluating a form runs until it has a continuation
    ready to be called, which the trampoline then does. */
module Machine {
  import opened Options
  import opened Values

  /** Every closure the source passes to Continue is a frame here, and a continuation is a
      frame on top of the one its closure captured. */
  datatype Frame =
    | ApplyTo(operand: Value, scope: ScopeId)                     // Pair.Eval
    | EvalRest(rest: Value, scope: ScopeId)                       // Cons.Eval
    | MakePair(first: Value)                                      // Cons.Eval, EvalPair, BindList
    | CallUnderlying(combiner: Value, scope: ScopeId)             // Wrapped.Call
    | EvalOperands(rest: Value, scope: ScopeId)                   // EvalPair
    | BindScope(scopeBinding: Value, body: Value, sub: ScopeId, caller: ScopeId)      // Operative.Call
    | EvalBody(body: Value, sub: ScopeId)                         // Operative.Call
    | BindResult(formals: Value, scope: ScopeId)                  // def
    | Branch(yes: Value, no: Value, scope: ScopeId)               // if
    | DoRest(forms: seq<Value>, scope: ScopeId)                    // do
    | BuildScope(scope: ScopeId)                                  // Bind.Eval
    | BuildMore(vs: seq<Value>, scope: ScopeId)                   // scopeBuilder.Build
    | BindRest(binding: Value, value: Value, scope: ScopeId)      // BindList
    | BindEntry(binding: Value, entries: seq<Value>, scope: ScopeId, source: ScopeId)  // Bind.Bind
    | BindEntries(entries: seq<Value>, scope: ScopeId, source: ScopeId)                // Bind.Bind
    | EvalMeta(bind: seq<Value>, scope: ScopeId, range: Range)    // Annotate.Eval
    | AddMeta(res: Value, scope: ScopeId, range: Range)           // Annotate.Eval
    | BindWithMeta(binding: Value, range: Range, scope: ScopeId, value: Value)      // AnnotateBinding.Bind

  /** A continuation with the annotated forms recorded on its behalf.  The source keeps
      only their number, TracedDepth. */
  datatype Kont =
    | Identity(recorded: seq<Value>)
    | Then(frame: Frame, next: Kont, recorded: seq<Value>)

  datatype State = State(heap: Heap, trace: seq<Value>)

  datatype Result = Answer(value: Value) | Err(error: Error)

  /** A ready continuation, or how the run ended.  Panicked is the panic of Trace.Pop. */
  datatype Config =
    | Ready(k: Kont, value: Value, st: State)
    | Fail(k: Kont, error: Error, st: State)
    | Halted(result: Result, st: State)
    | Panicked

  function Push(frame: Frame, k: Kont): Kont {
    Then(frame, k, [])
  }

  /** Continuation.traced. */
  function Traced(k: Kont, form: Value): Kont {
    k.(recorded := k.recorded + [form])
  }

  /** Continuation.Call with a value: pops what was recorded for the continuation.  What is
      ready then only ever has its closure called, so its records are dropped. */
  function Call(k: Kont, v: Value, st: State): Config {
    if |st.trace| < |k.recorded| then Panicked
    else Ready(k.(recorded := []), v, st.(trace := st.trace[..|st.trace| - |k.recorded|]))
  }

  function CallWith(k: Kont, r: Attempt, trace: seq<Value>): Config {
    match r
    case Success(v, h) => Call(k, v, State(h, trace))
    case Failure(e, h) => Fail(k, e, State(h, trace))
  }

  // ---- Evaluation

  function EvalForm(form: Value, scope: ScopeId, k: Kont, st: State): Config
    decreases Size(form)
  {
    match form
    case Sym(name) => CallWith(k, EvalSymbol(st.heap, scope, name), st.trace)
    case Keyword(name) => Call(k, Sym(name), st)
    case Pair(a, d) => EvalForm(a, scope, Push(ApplyTo(d, scope), k), st)
    case Cons(a, d) => EvalForm(a, scope, Push(EvalRest(d, scope), k), st)
    case Bind(forms) =>
      var sub := |st.heap|;
      EvalForm(NewConsList(forms), sub, Push(BuildScope(sub), k), st.(heap := NewScope(st.heap, [scope])))
    case Annotate(inner, range, comment, meta) =>
      var bind := MetaBind(comment, meta);
      var next := if |bind| > 0 then Push(EvalMeta(bind, scope, range), k) else k;
      EvalForm(inner, scope, Traced(next, form), st.(trace := st.trace + [form]))
    case Annotated(value, _) => EvalForm(value, scope, k, st)
    case _ => Call(k, form, st)
  }

  function EvalPair(a: Value, d: Value, scope: ScopeId, k: Kont, st: State): Config {
    EvalForm(a, scope, Push(EvalOperands(d, scope), k), st)
  }

  // ---- Binding

  function BindTo(binding: Value, scope: ScopeId, k: Kont, val: Value, st: State): Config
    decreases binding, 0
  {
    match binding
    case Sym(name) => Call(k, binding, st.(heap := Set(st.heap, scope, name, val)))
    case Pair(a, d) => BindList(a, d, scope, k, val, st)
    case Cons(a, d) => BindList(a, d, scope, k, val, st)
    case Bind(forms) => BindForms(forms, scope, k, val, st)
    case Annotate(inner, range, comment, meta) =>
      var bind := MetaBind(comment, meta);
      if |bind| == 0 then BindTo(inner, scope, k, val, st)
      else EvalForm(Bind(bind), scope, Push(BindWithMeta(inner, range, scope, val), k), st)
    case Annotated(value, _) => BindTo(value, scope, k, val, st)
    case _ =>
      if !IsBindable(binding) then Fail(k, CannotBind, st)
      else if ConstantMatches(binding, val) then Call(k, binding, st)
      else Fail(k, BindMismatch, st)
  }

  function BindList(a: Value, d: Value, scope: ScopeId, k: Kont, val: Value, st: State): Config
    decreases a, 1
  {
    var v := Strip(val);
    if !(v.Pair? || v.Cons?) then Fail(k, BindMismatch, st)
    else if !IsBindable(a) then Fail(k, CannotBind, st)
    else BindTo(a, scope, Push(BindRest(d, v.d, scope), k), v.a, st)
  }

  function BindForms(forms: seq<Value>, scope: ScopeId, k: Kont, val: Value, st: State): Config {
    match DecodeScope(val)
    case None => Fail(k, BindMismatch, st)
    case Some(source) =>
      if |forms| % 2 != 0 then Fail(k, BadSyntax, st)
      else if forms == [] then Call(k, Bind(forms), st)
      else if !IsBindable(forms[1]) then Fail(k, CannotBind, st)
      else
        match DecodeEntry(forms[0])
        case BadEntry(e) => Fail(k, e, st)
        case GoodEntry(entry) =>
          EntryValue(entry, source, scope, k, Push(BindEntry(forms[1], forms[2..], scope, source), k), st)
  }

  /** The value for one entry: the source scope's, or else the default's. */
  function EntryValue(entry: Entry, source: ScopeId, scope: ScopeId, k: Kont, doBind: Kont, st: State): Config {
    match Get(st.heap, source, entry.key)
    case Found(v) => Call(doBind, v, st)
    case Diverges => Fail(k, StackOverflow, st)
    case Missing =>
      match entry.default
      case Some(form) => EvalForm(form, scope, doBind, st)
      case None => Fail(k, UnboundError(entry.key), st)
  }

  /** scopeBuilder.Build. */
  function Build(vs: seq<Value>, scope: ScopeId, k: Kont, st: State): Config
    decreases |vs|
  {
    if vs == [] then Call(k, Scope(scope), st)
    else
      match DecodeSymbol(vs[0])
      case Some(name) =>
        if |vs| < 2 then Fail(k, BadSyntax, st)
        else
          BindTo(Sym(name), scope, Push(BuildMore(vs[2..], scope), k), WithMetaOf(vs[0], vs[1]), st)
      case None =>
        match DecodeScope(vs[0])
        case Some(parent) => Build(vs[1..], scope, k, st.(heap := AddParent(st.heap, scope, parent)))
        case None => Fail(k, BadSyntax, st)
  }

  // ---- Calling

  function CallCombiner(combiner: Value, val: Value, scope: ScopeId, k: Kont, st: State): Config {
    match combiner
    case Operative(bindings, scopeBinding, body, staticScope) =>
      var sub := |st.heap|;
      BindTo(bindings, sub, Push(BindScope(scopeBinding, body, sub, scope), k), val,
             st.(heap := NewScope(st.heap, [staticScope])))
    case Builtin(primitive) => CallBuiltin(primitive, val, scope, k, st)
    case Wrapped(underlying) => CallWrapped(underlying, val, scope, k, st)
    case Sym(name) => CallWrapped(SymbolOperative(name), val, scope, k, st)
    case SymbolOperative(name) => CallWith(k, CallSymbol(st.heap, name, val), st.trace)
    case _ => Fail(k, ApplyError, st)
  }

  function CallWrapped(underlying: Value, val: Value, scope: ScopeId, k: Kont, st: State): Config {
    var call := Push(CallUnderlying(underlying, scope), k);
    if val.Pair? then EvalPair(val.a, val.d, scope, call, st) else EvalForm(val, scope, call, st)
  }

  function CallBuiltin(primitive: Primitive, val: Value, scope: ScopeId, k: Kont, st: State): Config {
    if !IsList(val) || ToSlice(val).None? then Fail(k, BadSyntax, st)
    else
      var args := ToSlice(val).value;
      match primitive
      case Def =>
        if |args| != 2 then Fail(k, ArityError, st)
        else if !IsBindable(args[0]) then Fail(k, DecodeError, st)
        else EvalForm(args[1], scope, Push(BindResult(args[0], scope), k), st)
      case If =>
        if |args| != 3 then Fail(k, ArityError, st)
        else EvalForm(args[0], scope, Push(Branch(args[1], args[2], scope), k), st)
      case Do => DoBody(args, scope, k, st)
      case Op =>
        if |args| != 3 then Fail(k, ArityError, st)
        else if !IsBindable(args[0]) || !IsBindable(args[1]) then Fail(k, DecodeError, st)
        else Call(k, Operative(args[0], args[1], args[2], scope), st)
      case Eval =>
        if |args| != 2 then Fail(k, ArityError, st)
        else if DecodeScope(args[1]).None? then Fail(k, DecodeError, st)
        else EvalForm(args[0], DecodeScope(args[1]).value, k, st)
      case Wrap =>
        if |args| != 1 then Fail(k, ArityError, st)
        else if DecodeCombiner(args[0]).None? then Fail(k, DecodeError, st)
        else Call(k, Wrapped(DecodeCombiner(args[0]).value), st)
  }

  function DoBody(body: seq<Value>, scope: ScopeId, k: Kont, st: State): Config {
    if body == [] then Call(k, Null, st)
    else
      var next := if |body| > 1 then Push(DoRest(body[1..], scope), k) else k;
      EvalForm(body[0], scope, next, st)
  }

  // ---- Continuing

  /** What calling the continuation does with its value. */
  function Continue(frame: Frame, k: Kont, v: Value, st: State): Config {
    match frame
    case ApplyTo(operand, scope) =>
      if DecodeCombiner(v).None? then Fail(k, ApplyError, st)
      else CallCombiner(DecodeCombiner(v).value, operand, scope, k, st)
    case EvalRest(rest, scope) => EvalForm(rest, scope, Push(MakePair(v), k), st)
    case MakePair(first) => Call(k, Pair(first, v), st)
    case CallUnderlying(combiner, scope) => CallCombiner(combiner, v, scope, k, st)
    case EvalOperands(rest, scope) =>
      if rest.Pair? then EvalPair(rest.a, rest.d, scope, Push(MakePair(v), k), st)
      else EvalForm(rest, scope, Push(MakePair(v), k), st)
    case BindScope(scopeBinding, body, sub, caller) =>
      BindTo(scopeBinding, sub, Push(EvalBody(body, sub), k), Scope(caller), st)
    case EvalBody(body, sub) => EvalForm(body, sub, k, st)
    case BindResult(formals, scope) => BindTo(formals, scope, k, v, st)
    case Branch(yes, no, scope) => EvalForm(if Truthy(v) then yes else no, scope, k, st)
    case DoRest(body, scope) => DoBody(body, scope, k, st)
    case BuildScope(scope) =>
      if ToSlice(v).None? then Fail(k, DecodeError, st)
      else Build(ToSlice(v).value, scope, k, st.(heap := SetParents(st.heap, scope, [])))
    case BuildMore(vs, scope) => Build(vs, scope, k, st)
    case BindRest(binding, value, scope) =>
      if !IsBindable(binding) then Fail(k, CannotBind, st)
      else BindTo(binding, scope, Push(MakePair(v), k), value, st)
    case BindEntry(binding, rest, scope, source) =>
      BindTo(binding, scope, Push(BindEntries(rest, scope, source), k), v, st)
    case BindEntries(rest, scope, source) => BindForms(rest, scope, k, Scope(source), st)
    case EvalMeta(bind, scope, range) => EvalForm(Bind(bind), scope, Push(AddMeta(v, scope, range), k), st)
    case AddMeta(res, scope, range) => CallWith(k, FinishMeta(st.heap, scope, res, v, range), st.trace)
    case BindWithMeta(binding, range, scope, value) =>
      match DecodeScope(v)
      case None => Fail(k, DecodeError, st)
      case Some(meta) =>
        BindTo(binding, scope, k, Annotated(value, meta), st.(heap := SetRange(st.heap, meta, range)))
  }

  /** ReadyContinuation.Go, which the trampoline calls. */
  function Step(c: Config): Config {
    match c
    case Ready(Identity(_), v, st) => Halted(Answer(v), st)
    case Ready(Then(frame, next, _), v, st) => Continue(frame, next, v, st)
    case Fail(_, e, st) => Halted(Err(e), st)
    case _ => c
  }

  function Run(n: nat, c: Config): Config {
    if n == 0 then c else Run(n - 1, Step(c))
  }

  lemma {:induction false} RunAdd(n: nat, m: nat, c: Config)
    ensures Run(n + m, c) == Run(m, Run(n, c))
  {
    if n > 0 {
      RunAdd(n - 1, m, Step(c));
    }
  }

  lemma {:induction false} HaltedStays(n: nat, c: Config)
    requires c.Halted?
    ensures Run(n, c) == c
  {
    if n > 0 {
      HaltedStays(n - 1, c);
    }
  }

  /** Evaluating a form at the top, as EvalReader does. */
  function Start(form: Value, scope: ScopeId, st: State): Config {
    EvalForm(form, scope, Identity([]), st)
  }
}
