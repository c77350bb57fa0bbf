/** A direct, recursive evaluator without continuations: the specification of the machine.
    Operands are evaluated left to right and the heap is threaded through.  Fuel bounds how
    often a computation goes on after a finished part. */
module DirectEval {
  import opened Options
  import opened Values

  datatype Outcome<+T> = Done(value: T, heap: Heap) | Error(error: Values.Error, at: Heap) | OutOfFuel {
    predicate IsFailure() {
      !Done?
    }

    function PropagateFailure<U>(): Outcome<U>
      requires IsFailure()
    {
      match this
      case Error(e, h) => Outcome<U>.Error(e, h)
      case _ => Outcome<U>.OutOfFuel
    }

    function Extract(): (T, Heap)
      requires !IsFailure()
    {
      (value, heap)
    }
  }

  datatype Tank = Left(fuel: nat) | Dry {
    predicate IsFailure() {
      Dry?
    }

    function PropagateFailure<U>(): Outcome<U>
      requires IsFailure()
    {
      Outcome<U>.OutOfFuel
    }

    function Extract(): nat
      requires !IsFailure()
    {
      fuel
    }
  }

  function Burn(fuel: nat): Tank {
    if fuel == 0 then Dry else Left(fuel - 1)
  }

  function Of(r: Attempt): Outcome<Value> {
    match r
    case Success(v, h) => Done(v, h)
    case Failure(e, h) => Error(e, h)
  }

  function EvalForm(fuel: nat, form: Value, scope: ScopeId, h: Heap): Outcome<Value>
    decreases fuel, 0, Size(form)
  {
    match form
    case Sym(name) => Of(EvalSymbol(h, scope, name))
    case Keyword(name) => Done(Sym(name), h)
    case Pair(a, d) =>
      var (f, h) :- EvalForm(fuel, a, scope, h);
      var fuel :- Burn(fuel);
      if DecodeCombiner(f).None? then Error(ApplyError, h)
      else CallCombiner(fuel, DecodeCombiner(f).value, d, scope, h)
    case Cons(a, d) =>
      var (first, h) :- EvalForm(fuel, a, scope, h);
      var fuel :- Burn(fuel);
      var (rest, h) :- EvalForm(fuel, d, scope, h);
      Done(Pair(first, rest), h)
    case Bind(forms) =>
      var sub := |h|;
      var (content, h) :- EvalForm(fuel, NewConsList(forms), sub, NewScope(h, [scope]));
      var fuel :- Burn(fuel);
      if ToSlice(content).None? then Error(DecodeError, h)
      else Build(fuel, ToSlice(content).value, sub, SetParents(h, sub, []))
    case Annotate(inner, range, comment, meta) =>
      var bind := MetaBind(comment, meta);
      var (res, h) :- EvalForm(fuel, inner, scope, h);
      if |bind| == 0 then Done(res, h)
      else
        var fuel :- Burn(fuel);
        var (metaVal, h) :- EvalForm(fuel, Bind(bind), scope, h);
        Of(FinishMeta(h, scope, res, metaVal, range))
    case Annotated(value, _) => EvalForm(fuel, value, scope, h)
    case _ => Done(form, h)
  }

  /** The operands of an application: each form of the list, then its tail. */
  function EvalOperands(fuel: nat, a: Value, d: Value, scope: ScopeId, h: Heap): Outcome<Value>
    decreases fuel, 1, 0
  {
    var (first, h) :- EvalForm(fuel, a, scope, h);
    var fuel :- Burn(fuel);
    var (rest, h) :-
      if d.Pair? then EvalOperands(fuel, d.a, d.d, scope, h) else EvalForm(fuel, d, scope, h);
    Done(Pair(first, rest), h)
  }

  /** Destructures the value into the scope; answers the pattern. */
  function BindTo(fuel: nat, binding: Value, scope: ScopeId, val: Value, h: Heap): Outcome<Value>
    decreases fuel, 1, binding, 0
  {
    match binding
    case Sym(name) => Done(binding, Set(h, scope, name, val))
    case Pair(a, d) => BindList(fuel, a, d, scope, val, h)
    case Cons(a, d) => BindList(fuel, a, d, scope, val, h)
    case Bind(forms) => BindForms(fuel, forms, scope, val, h)
    case Annotate(inner, range, comment, meta) =>
      var bind := MetaBind(comment, meta);
      if |bind| == 0 then BindTo(fuel, inner, scope, val, h)
      else
        var (metaVal, h) :- EvalForm(fuel, Bind(bind), scope, h);
        var fuel :- Burn(fuel);
        if DecodeScope(metaVal).None? then Error(DecodeError, h)
        else
          var m := DecodeScope(metaVal).value;
          BindTo(fuel, inner, scope, Annotated(val, m), SetRange(h, m, range))
    case Annotated(value, _) => BindTo(fuel, value, scope, val, h)
    case _ =>
      if !IsBindable(binding) then Error(CannotBind, h)
      else if ConstantMatches(binding, val) then Done(binding, h)
      else Error(BindMismatch, h)
  }

  function BindList(fuel: nat, a: Value, d: Value, scope: ScopeId, val: Value, h: Heap): Outcome<Value>
    decreases fuel, 1, a, 1
  {
    var v := Strip(val);
    if !(v.Pair? || v.Cons?) then Error(BindMismatch, h)
    else if !IsBindable(a) then Error(CannotBind, h)
    else
      var (first, h) :- BindTo(fuel, a, scope, v.a, h);
      var fuel :- Burn(fuel);
      if !IsBindable(d) then Error(CannotBind, h)
      else
        var (rest, h) :- BindTo(fuel, d, scope, v.d, h);
        Done(Pair(first, rest), h)
  }

  ghost function PairOutcome(first: Value, o: Outcome<Value>): Outcome<Value> {
    match o
    case Done(v, h) => Done(Pair(first, v), h)
    case _ => o
  }

  /** Binding the second half of a list pattern. */
  ghost function RestOutcome(fuel: nat, first: Value, d: Value, scope: ScopeId, rest: Value, h: Heap): Outcome<Value> {
    if IsBindable(d) then PairOutcome(first, BindTo(fuel, d, scope, rest, h)) else Error(CannotBind, h)
  }

  ghost function AfterFirst(o: Outcome<Value>, fuel: nat, d: Value, scope: ScopeId, rest: Value): Outcome<Value> {
    match o
    case Done(first, h) => if fuel == 0 then OutOfFuel else RestOutcome(fuel - 1, first, d, scope, rest, h)
    case _ => o
  }

  /** A list pattern binds its first part, then its rest. */
  lemma {:induction false} BindListInParts(fuel: nat, a: Value, d: Value, scope: ScopeId, val: Value, h: Heap)
    requires var v := Strip(val); (v.Pair? || v.Cons?) && IsBindable(a)
    ensures var v := Strip(val);
            BindList(fuel, a, d, scope, val, h) == AfterFirst(BindTo(fuel, a, scope, v.a, h), fuel, d, scope, v.d)
  {
  }

  lemma {:induction false} BindListRefuses(fuel: nat, a: Value, d: Value, scope: ScopeId, val: Value, h: Heap)
    requires var v := Strip(val); !((v.Pair? || v.Cons?) && IsBindable(a))
    ensures BindList(fuel, a, d, scope, val, h)
            == Error(if Strip(val).Pair? || Strip(val).Cons? then CannotBind else BindMismatch, h)
  {
  }

  function BindForms(fuel: nat, forms: seq<Value>, scope: ScopeId, val: Value, h: Heap): Outcome<Value>
    decreases fuel, 1, forms
  {
    match DecodeScope(val)
    case None => Error(BindMismatch, h)
    case Some(source) =>
      if |forms| % 2 != 0 then Error(BadSyntax, h)
      else if forms == [] then Done(Bind(forms), h)
      else if !IsBindable(forms[1]) then Error(CannotBind, h)
      else
        match DecodeEntry(forms[0])
        case BadEntry(e) => Error(e, h)
        case GoodEntry(entry) =>
          var (v, h) :- EntryValue(fuel, entry, source, scope, h);
          var fuel :- Burn(fuel);
          var (_, h) :- BindTo(fuel, forms[1], scope, v, h);
          var fuel :- Burn(fuel);
          BindForms(fuel, forms[2..], scope, Scope(source), h)
  }

  /** The source scope's value for the key, or else the default. */
  function EntryValue(fuel: nat, entry: Entry, source: ScopeId, scope: ScopeId, h: Heap): Outcome<Value>
    decreases fuel, 0, (if entry.default.Some? then Size(entry.default.value) + 1 else 0)
  {
    match Get(h, source, entry.key)
    case Found(v) => Done(v, h)
    case Diverges => Error(StackOverflow, h)
    case Missing =>
      match entry.default
      case Some(form) => EvalForm(fuel, form, scope, h)
      case None => Error(UnboundError(entry.key), h)
  }

  function Build(fuel: nat, vs: seq<Value>, scope: ScopeId, h: Heap): Outcome<Value>
    decreases fuel, 2, |vs|
  {
    if vs == [] then Done(Scope(scope), h)
    else
      match DecodeSymbol(vs[0])
      case Some(name) =>
        if |vs| < 2 then Error(BadSyntax, h)
        else
          var (_, h) :- BindTo(fuel, Sym(name), scope, WithMetaOf(vs[0], vs[1]), h);
          var fuel :- Burn(fuel);
          Build(fuel, vs[2..], scope, h)
      case None =>
        match DecodeScope(vs[0])
        case Some(parent) => Build(fuel, vs[1..], scope, AddParent(h, scope, parent))
        case None => Error(BadSyntax, h)
  }

  function CallCombiner(fuel: nat, combiner: Value, val: Value, scope: ScopeId, h: Heap): Outcome<Value>
    decreases fuel, 3, 0
  {
    match combiner
    case Operative(bindings, scopeBinding, body, staticScope) =>
      var sub := |h|;
      var (_, h) :- BindTo(fuel, bindings, sub, val, NewScope(h, [staticScope]));
      var fuel :- Burn(fuel);
      var (_, h) :- BindTo(fuel, scopeBinding, sub, Scope(scope), h);
      var fuel :- Burn(fuel);
      EvalForm(fuel, body, sub, h)
    case Builtin(primitive) => CallBuiltin(fuel, primitive, val, scope, h)
    case Wrapped(underlying) => CallWrapped(fuel, underlying, val, scope, h)
    case Sym(name) => CallWrapped(fuel, SymbolOperative(name), val, scope, h)
    case SymbolOperative(name) => Of(CallSymbol(h, name, val))
    case _ => Error(ApplyError, h)
  }

  function CallWrapped(fuel: nat, underlying: Value, val: Value, scope: ScopeId, h: Heap): Outcome<Value>
    decreases fuel, 2, 0
  {
    var (args, h) :-
      if val.Pair? then EvalOperands(fuel, val.a, val.d, scope, h) else EvalForm(fuel, val, scope, h);
    var fuel :- Burn(fuel);
    CallCombiner(fuel, underlying, args, scope, h)
  }

  function CallBuiltin(fuel: nat, primitive: Primitive, val: Value, scope: ScopeId, h: Heap): Outcome<Value>
    decreases fuel, 2, 0
  {
    if !IsList(val) || ToSlice(val).None? then Error(BadSyntax, h)
    else
      var args := ToSlice(val).value;
      match primitive
      case Def =>
        if |args| != 2 then Error(ArityError, h)
        else if !IsBindable(args[0]) then Error(DecodeError, h)
        else
          var (v, h) :- EvalForm(fuel, args[1], scope, h);
          var fuel :- Burn(fuel);
          BindTo(fuel, args[0], scope, v, h)
      case If =>
        if |args| != 3 then Error(ArityError, h)
        else
          var (cond, h) :- EvalForm(fuel, args[0], scope, h);
          var fuel :- Burn(fuel);
          EvalForm(fuel, if Truthy(cond) then args[1] else args[2], scope, h)
      case Do => EvalSequence(fuel, args, scope, h)
      case Op =>
        if |args| != 3 then Error(ArityError, h)
        else if !IsBindable(args[0]) || !IsBindable(args[1]) then Error(DecodeError, h)
        else Done(Operative(args[0], args[1], args[2], scope), h)
      case Eval =>
        if |args| != 2 then Error(ArityError, h)
        else if DecodeScope(args[1]).None? then Error(DecodeError, h)
        else EvalForm(fuel, args[0], DecodeScope(args[1]).value, h)
      case Wrap =>
        if |args| != 1 then Error(ArityError, h)
        else if DecodeCombiner(args[0]).None? then Error(DecodeError, h)
        else Done(Wrapped(DecodeCombiner(args[0]).value), h)
  }

  /** Each form in turn; the value of the last. */
  function EvalSequence(fuel: nat, body: seq<Value>, scope: ScopeId, h: Heap): Outcome<Value>
    decreases fuel, 1, 0
  {
    if body == [] then Done(Null, h)
    else
      var (v, h) :- EvalForm(fuel, body[0], scope, h);
      if |body| == 1 then Done(v, h)
      else
        var fuel :- Burn(fuel);
        EvalSequence(fuel, body[1..], scope, h)
  }
}
