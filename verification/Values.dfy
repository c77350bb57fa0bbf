/** Bass values and forms, the scope heap, and the effect-free parts of evaluation that the
    machine and the direct evaluator share. */
module Values {
  import opened Options

  type Symbol = string
  type ScopeId = nat

  /** A source location; `file` stands for the readable it names. */
  datatype Range = Range(file: string, startLn: int, startCol: int, endLn: int, endCol: int)

  const NO_RANGE := Range("", 0, 0, 0, 0)

  datatype Primitive = Def | If | Do | Op | Eval | Wrap

  datatype Value =
    | Null
    | Bool(b: bool)
    | Int(i: int)
    | Str(s: string)
    | File(path: string)
    | Empty
    | Ignore
    | Sym(name: Symbol)
    | Keyword(name: Symbol)
    | Pair(a: Value, d: Value)
    | Cons(a: Value, d: Value)
    | Bind(forms: seq<Value>)
    | Annotate(form: Value, range: Range, comment: string, meta: Meta)
    | Annotated(value: Value, metaScope: ScopeId)
    | Scope(id: ScopeId)
    | Operative(bindings: Value, scopeBinding: Value, body: Value, staticScope: ScopeId)
    | Builtin(primitive: Primitive)
    | Wrapped(underlying: Value)
    | SymbolOperative(sym: Symbol)

  /** The metadata forms written before an annotated form, if any. */
  datatype Meta = NoMeta | MetaForms(forms: seq<Value>)

  datatype Error =
    | UnboundError(name: Symbol)
    | ApplyError
    | CannotBind
    | BindMismatch
    | BadSyntax
    | ArityError
    | DecodeError
    | StackOverflow

  /** A measure under which every form Eval descends into is smaller. */
  ghost function Size(v: Value): nat {
    match v
    case Pair(a, d) => 1 + Size(a) + Size(d)
    case Cons(a, d) => 1 + Size(a) + Size(d)
    case Bind(forms) => 1 + SizeOfList(forms)
    case Annotate(form, _, _, _) => 1 + Size(form)
    case Annotated(value, _) => 1 + Size(value)
    case Wrapped(underlying) => 1 + Size(underlying)
    case _ => 1
  }

  ghost function SizeOfList(vs: seq<Value>): nat {
    if vs == [] then 1 else 1 + Size(vs[0]) + SizeOfList(vs[1..])
  }

  // ---- Lists

  function NewList(vs: seq<Value>): Value {
    if vs == [] then Empty else Pair(vs[0], NewList(vs[1..]))
  }

  function NewConsList(vs: seq<Value>): (list: Value)
    ensures Size(list) == SizeOfList(vs)
  {
    if vs == [] then Empty else Cons(vs[0], NewConsList(vs[1..]))
  }

  /** What Decode looks through: annotations of forms and metadata of values. */
  function Strip(v: Value): Value {
    match v
    case Annotate(form, _, _, _) => Strip(form)
    case Annotated(value, _) => Strip(value)
    case _ => v
  }

  predicate IsList(v: Value) {
    Strip(v).Empty? || Strip(v).Pair? || Strip(v).Cons?
  }

  function First(list: Value): Value {
    if list.Pair? || list.Cons? then list.a else Empty
  }

  function Rest(list: Value): Value {
    if list.Pair? || list.Cons? then list.d else Empty
  }

  lemma {:induction false} StripShrinks(v: Value)
    ensures Size(Strip(v)) <= Size(v)
    ensures !Strip(v).Annotate? && !Strip(v).Annotated?
  {
    match v
    case Annotate(form, _, _, _) => StripShrinks(form);
    case Annotated(value, _) => StripShrinks(value);
    case _ =>
  }

  /** ToSlice: the elements of a proper list, or nothing for anything else. */
  function ToSlice(v: Value): Option<seq<Value>>
    decreases Size(v)
  {
    StripShrinks(v);
    match Strip(v)
    case Empty => Some([])
    case Pair(a, d) => var rest := ToSlice(d); if rest.None? then None else Some([a] + rest.value)
    case Cons(a, d) => var rest := ToSlice(d); if rest.None? then None else Some([a] + rest.value)
    case _ => None
  }

  // ---- Decoding

  function DecodeCombiner(v: Value): Option<Value> {
    var u := Strip(v);
    if u.Operative? || u.Builtin? || u.Wrapped? || u.SymbolOperative? || u.Sym? then Some(u) else None
  }

  function DecodeScope(v: Value): Option<ScopeId> {
    if Strip(v).Scope? then Some(Strip(v).id) else None
  }

  function DecodeKeyword(v: Value): Option<Symbol> {
    if Strip(v).Keyword? then Some(Strip(v).name) else None
  }

  function DecodeSymbol(v: Value): Option<Symbol> {
    if Strip(v).Sym? then Some(Strip(v).name) else None
  }

  /** The metadata-carrying value under any form annotations. */
  function DecodeAnnotated(v: Value): Option<Value> {
    match v
    case Annotated(_, _) => Some(v)
    case Annotate(form, _, _, _) => DecodeAnnotated(form)
    case _ => None
  }

  /** `if` treats only false and null as false. */
  predicate Truthy(v: Value) {
    Strip(v) != Bool(false) && Strip(v) != Null
  }

  predicate IsConstant(v: Value) {
    v.Null? || v.Bool? || v.Int? || v.Str? || v.Empty?
  }

  /** Whether the value decodes as a Bindable. */
  predicate IsBindable(v: Value) {
    var u := Strip(v);
    IsConstant(u) || u.Ignore? || u.Sym? || u.Keyword? || u.Pair? || u.Cons? || u.Bind?
  }

  function MetaBind(comment: string, meta: Meta): seq<Value> {
    (if meta.MetaForms? then meta.forms else [])
    + (if comment != "" then [Keyword("doc"), Str(comment)] else [])
  }

  // ---- Scopes

  datatype ScopeObject = ScopeObject(parents: seq<ScopeId>, bindings: map<Symbol, Value>)

  type Heap = seq<ScopeObject>

  datatype LookupResult = Found(value: Value) | Missing | Diverges

  ghost function Ids(h: Heap): (ids: set<ScopeId>)
    ensures forall i: ScopeId :: i in ids <==> i < |h|
  {
    if h == [] then {}
    else
      var last: ScopeId := |h| - 1;
      Ids(h[..last]) + {last}
  }

  /** Scope.Get.  A scope met again on the path to itself makes the lookup recur forever,
      which is what Diverges stands for. */
  function Lookup(h: Heap, id: ScopeId, name: Symbol, path: set<ScopeId>): LookupResult
    decreases Ids(h) - path, 1, 0
  {
    if id >= |h| then Missing
    else if id in path then Diverges
    else if name in h[id].bindings then Found(h[id].bindings[name])
    else
      assert Ids(h) - (path + {id}) < Ids(h) - path by {
        assert id in Ids(h) - path && id !in Ids(h) - (path + {id});
      }
      LookupIn(h, h[id].parents, name, path + {id})
  }

  function LookupIn(h: Heap, ids: seq<ScopeId>, name: Symbol, path: set<ScopeId>): LookupResult
    decreases Ids(h) - path, 2, |ids|
  {
    if ids == [] then Missing
    else
      match Lookup(h, ids[0], name, path)
      case Missing => LookupIn(h, ids[1..], name, path)
      case r => r
  }

  function Get(h: Heap, id: ScopeId, name: Symbol): LookupResult {
    Lookup(h, id, name, {})
  }

  function Set(h: Heap, id: ScopeId, name: Symbol, v: Value): Heap {
    if id < |h| then h[id := h[id].(bindings := h[id].bindings[name := v])] else h
  }

  function SetParents(h: Heap, id: ScopeId, parents: seq<ScopeId>): Heap {
    if id < |h| then h[id := h[id].(parents := parents)] else h
  }

  function AddParent(h: Heap, id: ScopeId, parent: ScopeId): Heap {
    if id < |h| then SetParents(h, id, h[id].parents + [parent]) else h
  }

  /** The heap with a new empty scope, whose id is the old heap's size. */
  function NewScope(h: Heap, parents: seq<ScopeId>): Heap {
    h + [ScopeObject(parents, map[])]
  }

  function SetRange(h: Heap, id: ScopeId, range: Range): Heap {
    Set(Set(Set(h, id, "file", File(range.file)), id, "line", Int(range.startLn)), id, "column", Int(range.startCol))
  }

  // ---- EachBinding

  /** The symbols EachBinding reports with their ranges, and whether it reported them all. */
  datatype Reported = Reported(names: seq<(Symbol, Range)>, complete: bool)

  function Then(first: Reported, rest: Reported): Reported {
    if first.complete then Reported(first.names + rest.names, rest.complete) else first
  }

  function WithRange(r: Reported, range: Range): Reported {
    Reported(
      seq(|r.names|, i requires 0 <= i < |r.names| =>
        if r.names[i].1 == NO_RANGE then (r.names[i].0, range) else r.names[i]),
      r.complete)
  }

  function EachBinding(v: Value): Reported {
    match v
    case Sym(name) => Reported([(name, NO_RANGE)], true)
    case Pair(a, d) => Then(EachBinding(a), EachBinding(d))
    case Cons(a, d) => Then(EachBinding(a), EachBinding(d))
    case Bind(forms) => if |forms| % 2 != 0 then Reported([], false) else EachValueBinding(forms)
    case Annotate(form, range, _, _) => WithRange(EachBinding(form), range)
    case Annotated(value, _) => EachBinding(value)
    case _ => Reported([], IsBindable(v))
  }

  function EachValueBinding(forms: seq<Value>): Reported {
    if |forms| < 2 then Reported([], true)
    else Then(EachBinding(forms[1]), EachValueBinding(forms[2..]))
  }

  // ---- The metadata an annotation attaches

  /** Attaches the metadata scope to each symbol the result binds, as Annotate.Eval does
      with the result of a definition. */
  function AnnotateBindings(h: Heap, scope: ScopeId, names: seq<(Symbol, Range)>, meta: ScopeId,
        range: Range): Option<Heap>
    decreases |names|
  {
    if names == [] then Some(h)
    else
      var name, bmeta := names[0].0, |h|;
      var h1 := SetRange(NewScope(h, [meta]), bmeta, range);
      match Get(h1, scope, name)
      case Diverges => None
      case Missing => AnnotateBindings(h1, scope, names[1..], meta, range)
      case Found(v) =>
        var h2 :=
          match DecodeAnnotated(v)
          case Some(Annotated(inner, m)) =>
            Set(NewScope(h1, [m, bmeta]), scope, name, Annotated(inner, |h1|))
          case _ => Set(h1, scope, name, Annotated(v, bmeta));
        AnnotateBindings(h2, scope, names[1..], meta, range)
  }

  /** Joins a result with its freshly evaluated metadata scope. */
  function AttachMeta(h: Heap, res: Value, meta: ScopeId): (Value, Heap) {
    match DecodeAnnotated(res)
    case Some(Annotated(inner, m)) => (Annotated(inner, meta), AddParent(h, meta, m))
    case _ => (Annotated(res, meta), h)
  }

  /** The end of Annotate.Eval: the annotated result and the heap, or an error. */
  function FinishMeta(h: Heap, scope: ScopeId, res: Value, metaVal: Value, range: Range): Attempt {
    match DecodeScope(metaVal)
    case None => Failure(DecodeError, h)
    case Some(meta) =>
      var (ann, h1) := AttachMeta(h, res, meta);
      if !IsBindable(res) then Success(ann, h1)
      else
        match AnnotateBindings(h1, scope, EachBinding(res).names, meta, range)
        case None => Failure(StackOverflow, h1)
        case Some(h2) => Success(ann, h2)
  }

  datatype Attempt = Success(value: Value, heap: Heap) | Failure(error: Error, heap: Heap)

  // ---- Constant and symbol cases

  /** Symbol.Eval. */
  function EvalSymbol(h: Heap, scope: ScopeId, name: Symbol): Attempt {
    match Get(h, scope, name)
    case Found(v) => Success(v, h)
    case Missing => Failure(UnboundError(name), h)
    case Diverges => Failure(StackOverflow, h)
  }

  /** The result of calling a symbol on its evaluated arguments: a field access with an
      optional default. */
  function CallSymbol(h: Heap, name: Symbol, val: Value): Attempt {
    if !IsList(val) then Failure(DecodeError, h)
    else
      var list := Strip(val);
      if list.Empty? then Failure(ArityError, h)
      else
        match DecodeScope(First(list))
        case None => Failure(DecodeError, h)
        case Some(source) =>
          match Get(h, source, name)
          case Found(v) => Success(v, h)
          case Diverges => Failure(StackOverflow, h)
          case Missing =>
            if !IsList(Rest(list)) then Failure(DecodeError, h)
            else if Strip(Rest(list)).Empty? then Failure(UnboundError(name), h)
            else Success(First(Strip(Rest(list))), h)
  }

  /** Binding a constant pattern: the value must be equal. */
  predicate ConstantMatches(pattern: Value, val: Value) {
    match pattern
    case Keyword(name) => Strip(val) == Sym(name)
    case Ignore => true
    case _ => Strip(val) == pattern
  }

  /** The keyword, and perhaps default form, that introduces one entry of a Bind pattern. */
  datatype Entry = Entry(key: Symbol, default: Option<Value>)

  datatype EntryResult = GoodEntry(entry: Entry) | BadEntry(error: Error)

  function DecodeEntry(vf: Value): EntryResult {
    if IsList(vf) then
      match ToSlice(vf)
      case None => BadEntry(DecodeError)
      case Some(vals) =>
        if |vals| != 2 then BadEntry(BadSyntax)
        else if DecodeKeyword(vals[0]).None? then BadEntry(DecodeError)
        else GoodEntry(Entry(DecodeKeyword(vals[0]).value, Some(vals[1])))
    else if DecodeKeyword(vf).None? then BadEntry(DecodeError)
    else GoodEntry(Entry(DecodeKeyword(vf).value, None))
  }

  /** A value bound to an annotated key takes the key's metadata. */
  function WithMetaOf(key: Value, val: Value): Value {
    match DecodeAnnotated(key)
    case Some(Annotated(_, m)) => Annotated(val, m)
    case _ => val
  }
}
