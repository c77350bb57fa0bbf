/** The lexical index of pkg/lsp/analyzer.go: a flat list of bindings with the bounds they
    hold in. */
module Lexical {
  import opened Options
  import opened Values

  // The list is built while the reader closes forms from the inside out, and searched from its
  // start.

  // ---- Ranges

  predicate Before(ln: int, col: int, ln': int, col': int) {
    ln < ln' || (ln == ln' && col <= col')
  }

  /** Range.IsWithin, test by test. */
  function IsWithin(inner: Range, outer: Range): bool {
    if inner.startLn < outer.startLn then false
    else if inner.endLn > outer.endLn then false
    else if inner.startLn == outer.startLn && inner.startCol < outer.startCol then false
    else if inner.endLn == outer.endLn && inner.endCol > outer.endCol then false
    else true
  }

  /** The tests amount to starting no earlier and ending no later. */
  lemma {:induction false} WithinIsContainment(inner: Range, outer: Range)
    ensures IsWithin(inner, outer) <==>
              && Before(outer.startLn, outer.startCol, inner.startLn, inner.startCol)
              && Before(inner.endLn, inner.endCol, outer.endLn, outer.endCol)
  {
  }

  predicate StrictlyInside(inner: Range, outer: Range) {
    IsWithin(inner, outer) && !IsWithin(outer, inner)
  }

  // ---- The index

  datatype ContainedBinding = ContainedBinding(binding: Symbol, location: Range)

  datatype LexicalBinding = LexicalBinding(binding: Symbol, location: Range, bounds: Range)

  datatype Index = Index(bindings: seq<LexicalBinding>, contained: seq<ContainedBinding>)

  /** The pending bindings inside (or not inside) the bounds, in order. */
  function Inside(contained: seq<ContainedBinding>, bounds: Range, within: bool): seq<ContainedBinding> {
    if contained == [] then []
    else
      var last := contained[|contained| - 1];
      Inside(contained[..|contained| - 1], bounds, within)
      + if IsWithin(last.location, bounds) == within then [last] else []
  }

  function Bounded(contained: seq<ContainedBinding>, bounds: Range): seq<LexicalBinding> {
    seq(|contained|, i requires 0 <= i < |contained| =>
      LexicalBinding(contained[i].binding, contained[i].location, bounds))
  }

  function Contain(ix: Index, bounds: Range): Index {
    Index(ix.bindings + Bounded(Inside(ix.contained, bounds, true), bounds), Inside(ix.contained, bounds, false))
  }

  /** contain loses no pending binding and duplicates none. */
  lemma {:induction false} ContainConserves(contained: seq<ContainedBinding>, bounds: Range)
    ensures multiset(contained)
            == multiset(Inside(contained, bounds, true)) + multiset(Inside(contained, bounds, false))
    ensures forall c :: c in Inside(contained, bounds, true) ==> IsWithin(c.location, bounds)
    ensures forall c :: c in Inside(contained, bounds, false) ==> !IsWithin(c.location, bounds)
  {
    if contained != [] {
      ContainConserves(contained[..|contained| - 1], bounds);
      assert contained == contained[..|contained| - 1] + [contained[|contained| - 1]];
    }
  }

  function Added(names: seq<(Symbol, Range)>, bounds: Range): seq<LexicalBinding> {
    seq(|names|, i requires 0 <= i < |names| => LexicalBinding(names[i].0, names[i].1, bounds))
  }

  function Pending(names: seq<(Symbol, Range)>): seq<ContainedBinding> {
    seq(|names|, i requires 0 <= i < |names| => ContainedBinding(names[i].0, names[i].1))
  }

  /** analyzeBinding. */
  function BindIn(ix: Index, form: Value, bounds: Range): Index {
    if IsBindable(form) then ix.(bindings := ix.bindings + Added(EachBinding(form).names, bounds)) else ix
  }

  /** analyzeContainedBinding. */
  function Define(ix: Index, form: Value): Index {
    if IsBindable(form) then ix.(contained := ix.contained + Pending(EachBinding(form).names)) else ix
  }

  /** The elements that Each visits before a tail that is not a list stops it. */
  function Elements(list: Value): seq<Value>
    decreases Size(list)
  {
    StripShrinks(list);
    match Strip(list)
    case Pair(a, d) => [a] + Elements(d)
    case Cons(a, d) => [a] + Elements(d)
    case _ => []
  }

  /** Every other element of a let's bindings, from the first. */
  function BindOdd(ix: Index, vs: seq<Value>, bounds: Range): Index {
    if vs == [] then ix
    else
      var before := BindOdd(ix, vs[..|vs| - 1], bounds);
      if |vs| % 2 == 1 then BindIn(before, vs[|vs| - 1], bounds) else before
  }

  function AnalyzeLet(ix0: Index, pair: Value, bounds: Range): Index {
    var ix := Contain(ix0, bounds);
    var rest := Strip(Rest(pair));
    if !rest.Pair? || !IsList(rest.a) then ix else BindOdd(ix, Elements(rest.a), bounds)
  }

  function AnalyzeDef(ix: Index, pair: Value): Index {
    var rest := Strip(Rest(pair));
    if !rest.Pair? then ix else Define(ix, rest.a)
  }

  function AnalyzeFn(ix0: Index, pair: Value, bounds: Range): Index {
    var ix := Contain(ix0, bounds);
    var rest := Strip(Rest(pair));
    if !rest.Pair? then ix else BindIn(ix, rest.a, bounds)
  }

  function AnalyzeDefn(ix0: Index, pair: Value, bounds: Range): Index {
    var ix := Contain(ix0, bounds);
    var rest := Strip(Rest(pair));
    if !rest.Pair? then ix
    else
      var defined := Define(ix, rest.a);
      var rest' := Strip(rest.d);
      if !rest'.Pair? then defined else BindIn(defined, rest'.a, bounds)
  }

  function AnalyzeOp(ix0: Index, pair: Value, bounds: Range): Index {
    var ix := Contain(ix0, bounds);
    var rest := Strip(Rest(pair));
    if !rest.Pair? then ix else BindFormals(ix, rest, bounds)
  }

  /** The formals of an operative and then its scope formal. */
  function BindFormals(ix: Index, rest: Value, bounds: Range): Index
    requires rest.Pair?
  {
    var bound := BindIn(ix, rest.a, bounds);
    var rest' := Strip(rest.d);
    if !rest'.Pair? then bound else BindIn(bound, rest'.a, bounds)
  }

  function AnalyzeDefop(ix0: Index, pair: Value, bounds: Range): Index {
    var ix := Contain(ix0, bounds);
    var rest := Strip(Rest(pair));
    if !rest.Pair? then ix
    else
      var defined := Define(ix, rest.a);
      var rest' := Strip(rest.d);
      if !rest'.Pair? then defined else BindFormals(defined, rest', bounds)
  }

  function AnalyzeProvide(ix0: Index, pair: Value, bounds: Range): Index {
    var ix := Contain(ix0, bounds);
    var rest := Strip(Rest(pair));
    if !rest.Pair? then ix else Define(ix, rest.a)
  }

  /** Analyze, for the form inside an annotation with this range. */
  function Analyzed(ix: Index, form: Value, bounds: Range): Index {
    var pair := Strip(form);
    if form.Annotate? || !pair.Pair? || DecodeSymbol(pair.a).None? then ix
    else
      var name := DecodeSymbol(pair.a).value;
      if name == "let" then AnalyzeLet(ix, pair, bounds)
      else if name == "def" then AnalyzeDef(ix, pair)
      else if name == "fn" then AnalyzeFn(ix, pair, bounds)
      else if name == "defn" then AnalyzeDefn(ix, pair, bounds)
      else if name == "op" then AnalyzeOp(ix, pair, bounds)
      else if name == "defop" then AnalyzeDefop(ix, pair, bounds)
      else if name == "provide" then AnalyzeProvide(ix, pair, bounds)
      else ix
  }

  // ---- The order of bounds

  /** No binding's bounds lie strictly inside those of an earlier one. */
  ghost predicate InnerFirst(bindings: seq<LexicalBinding>) {
    forall i, j :: 0 <= i < j < |bindings| ==> !StrictlyInside(bindings[j].bounds, bindings[i].bounds)
  }

  /** ix' extends ix by bindings with these bounds only. */
  ghost predicate GrowsBy(ix: Index, ix': Index, bounds: Range) {
    && ix.bindings <= ix'.bindings
    && forall j :: |ix.bindings| <= j < |ix'.bindings| ==> ix'.bindings[j].bounds == bounds
  }

  lemma {:induction false} GrowsCompose(ix: Index, ix1: Index, ix2: Index, bounds: Range)
    requires GrowsBy(ix, ix1, bounds) && GrowsBy(ix1, ix2, bounds)
    ensures GrowsBy(ix, ix2, bounds)
  {
    forall j | |ix.bindings| <= j < |ix2.bindings|
      ensures ix2.bindings[j].bounds == bounds
    {
      if j < |ix1.bindings| {
        assert ix2.bindings[j] == ix1.bindings[j];
      }
    }
  }

  lemma {:induction false} BindGrows(ix: Index, form: Value, bounds: Range)
    ensures GrowsBy(ix, BindIn(ix, form, bounds), bounds)
  {
  }

  lemma {:induction false} ContainGrows(ix: Index, bounds: Range)
    ensures GrowsBy(ix, Contain(ix, bounds), bounds)
  {
  }

  lemma {:induction false} BindOddGrows(ix: Index, vs: seq<Value>, bounds: Range)
    ensures GrowsBy(ix, BindOdd(ix, vs, bounds), bounds)
    decreases |vs|
  {
    if vs != [] {
      var before := BindOdd(ix, vs[..|vs| - 1], bounds);
      BindOddGrows(ix, vs[..|vs| - 1], bounds);
      if |vs| % 2 == 1 {
        BindGrows(before, vs[|vs| - 1], bounds);
        GrowsCompose(ix, before, BindOdd(ix, vs, bounds), bounds);
      }
    }
  }

  lemma {:induction false} BindFormalsGrows(ix: Index, rest: Value, bounds: Range)
    requires rest.Pair?
    ensures GrowsBy(ix, BindFormals(ix, rest, bounds), bounds)
  {
    var bound, rest' := BindIn(ix, rest.a, bounds), Strip(rest.d);
    BindGrows(ix, rest.a, bounds);
    if rest'.Pair? {
      BindGrows(bound, rest'.a, bounds);
      GrowsCompose(ix, bound, BindIn(bound, rest'.a, bounds), bounds);
    }
  }

  /** Whatever the form is, analysing it only adds bindings bounded by the form itself. */
  lemma {:induction false} AnalyzedGrows(ix: Index, form: Value, bounds: Range)
    ensures GrowsBy(ix, Analyzed(ix, form, bounds), bounds)
  {
    var pair, ix1 := Strip(form), Contain(ix, bounds);
    ContainGrows(ix, bounds);
    if !form.Annotate? && pair.Pair? && DecodeSymbol(pair.a).Some? {
      var name, rest := DecodeSymbol(pair.a).value, Strip(Rest(pair));
      if rest.Pair? {
        var defined, rest' := Define(ix1, rest.a), Strip(rest.d);
        if name == "let" {
          BindOddGrows(ix1, Elements(rest.a), bounds);
          GrowsCompose(ix, ix1, BindOdd(ix1, Elements(rest.a), bounds), bounds);
        } else if name == "fn" {
          BindGrows(ix1, rest.a, bounds);
          GrowsCompose(ix, ix1, BindIn(ix1, rest.a, bounds), bounds);
        } else if name == "op" {
          BindFormalsGrows(ix1, rest, bounds);
          GrowsCompose(ix, ix1, BindFormals(ix1, rest, bounds), bounds);
        } else if name == "defn" && rest'.Pair? {
          BindGrows(defined, rest'.a, bounds);
          GrowsCompose(ix, defined, BindIn(defined, rest'.a, bounds), bounds);
        } else if name == "defop" && rest'.Pair? {
          BindFormalsGrows(defined, rest', bounds);
          GrowsCompose(ix, defined, BindFormals(defined, rest', bounds), bounds);
        }
      }
    }
  }

  // ---- Whole trees, children first

  /** A form and its range, as the reader hands it to Analyze. */
  datatype Reading = Reading(form: Value, range: Range)

  /** The annotated forms of a tree in the order the reader closes them. */
  function Closed(form: Value): seq<Reading> {
    match form
    case Annotate(inner, range, _, _) => Closed(inner) + [Reading(inner, range)]
    case Pair(a, d) => Closed(a) + Closed(d)
    case Cons(a, d) => Closed(a) + Closed(d)
    case Bind(forms) => ClosedAll(forms)
    case _ => []
  }

  function ClosedAll(forms: seq<Value>): seq<Reading> {
    if forms == [] then [] else Closed(forms[0]) + ClosedAll(forms[1..])
  }

  function AnalyzeAll(ix: Index, readings: seq<Reading>): Index {
    if readings == [] then ix
    else
      var last := readings[|readings| - 1];
      Analyzed(AnalyzeAll(ix, readings[..|readings| - 1]), last.form, last.range)
  }

  /** No form closes strictly inside one that closed before it. */
  ghost predicate ClosesOutward(readings: seq<Reading>) {
    forall i, j :: 0 <= i < j < |readings| ==> !StrictlyInside(readings[j].range, readings[i].range)
  }

  ghost predicate NotEmpty(r: Range) {
    !Before(r.endLn, r.endCol, r.startLn, r.startCol)
  }

  ghost predicate Apart(a: Range, b: Range) {
    Before(a.endLn, a.endCol, b.startLn, b.startCol)
  }

  ghost predicate AllApart(xs: seq<Reading>, ys: seq<Reading>) {
    forall x, y :: x in xs && y in ys ==> Apart(x.range, y.range)
  }

  /** Strictly nested forms: what is inside an annotation is strictly inside its range, and
      what follows starts after what comes before. */
  ghost predicate Nested(form: Value) {
    match form
    case Annotate(inner, range, _, _) =>
      NotEmpty(range) && Nested(inner) && forall r :: r in Closed(inner) ==> StrictlyInside(r.range, range)
    case Pair(a, d) => Nested(a) && Nested(d) && AllApart(Closed(a), Closed(d))
    case Cons(a, d) => Nested(a) && Nested(d) && AllApart(Closed(a), Closed(d))
    case Bind(forms) => NestedAll(forms)
    case _ => true
  }

  ghost predicate NestedAll(forms: seq<Value>) {
    forms == [] || (Nested(forms[0]) && NestedAll(forms[1..]) && AllApart(Closed(forms[0]), ClosedAll(forms[1..])))
  }

  lemma {:induction false} ApartNotInside(a: Range, b: Range)
    requires Apart(a, b) && NotEmpty(b)
    ensures !StrictlyInside(b, a)
  {
    WithinIsContainment(b, a);
  }

  lemma {:induction false} ConcatOutward(xs: seq<Reading>, ys: seq<Reading>)
    requires ClosesOutward(xs) && ClosesOutward(ys) && AllApart(xs, ys)
    requires forall y :: y in ys ==> NotEmpty(y.range)
    ensures ClosesOutward(xs + ys)
  {
    forall i, j | 0 <= i < j < |xs + ys|
      ensures !StrictlyInside((xs + ys)[j].range, (xs + ys)[i].range)
    {
      if i < |xs| <= j {
        assert xs[i] in xs && ys[j - |xs|] in ys;
        ApartNotInside(xs[i].range, ys[j - |xs|].range);
      }
    }
  }

  lemma {:induction false} NestedClosesOutward(form: Value)
    requires Nested(form)
    ensures ClosesOutward(Closed(form))
    ensures forall r :: r in Closed(form) ==> NotEmpty(r.range)
    decreases form
  {
    match form
    case Annotate(inner, range, _, _) =>
      NestedClosesOutward(inner);
      var c := Closed(inner);
      forall i, j | 0 <= i < j < |Closed(form)|
        ensures !StrictlyInside(Closed(form)[j].range, Closed(form)[i].range)
      {
        if j == |c| {
          assert c[i] in c;
        }
      }
    case Pair(a, d) =>
      NestedClosesOutward(a);
      NestedClosesOutward(d);
      ConcatOutward(Closed(a), Closed(d));
    case Cons(a, d) =>
      NestedClosesOutward(a);
      NestedClosesOutward(d);
      ConcatOutward(Closed(a), Closed(d));
    case Bind(forms) =>
      NestedAllClosesOutward(forms);
    case _ =>
  }

  lemma {:induction false} NestedAllClosesOutward(forms: seq<Value>)
    requires NestedAll(forms)
    ensures ClosesOutward(ClosedAll(forms))
    ensures forall r :: r in ClosedAll(forms) ==> NotEmpty(r.range)
    decreases forms
  {
    if forms != [] {
      NestedClosesOutward(forms[0]);
      NestedAllClosesOutward(forms[1..]);
      ConcatOutward(Closed(forms[0]), ClosedAll(forms[1..]));
    }
  }

  /** Every binding's bounds are the range of a form analysed. */
  lemma {:induction false} IndexIsInnerFirst(readings: seq<Reading>)
    requires ClosesOutward(readings)
    ensures var ix := AnalyzeAll(Index([], []), readings);
            && InnerFirst(ix.bindings)
            && forall b :: b in ix.bindings ==> exists i :: 0 <= i < |readings| && readings[i].range == b.bounds
    decreases |readings|
  {
    if readings != [] {
      var init, last := readings[..|readings| - 1], readings[|readings| - 1];
      var before, after := AnalyzeAll(Index([], []), init), AnalyzeAll(Index([], []), readings);
      IndexIsInnerFirst(init);
      AnalyzedGrows(before, last.form, last.range);
      var n := |before.bindings|;
      forall j | 0 <= j < |after.bindings|
        ensures exists i :: 0 <= i < |readings| && readings[i].range == after.bindings[j].bounds
      {
        if j < n {
          assert after.bindings[j] == before.bindings[j] && before.bindings[j] in before.bindings;
          var i :| 0 <= i < |init| && init[i].range == before.bindings[j].bounds;
          assert readings[i].range == after.bindings[j].bounds;
        } else {
          assert readings[|readings| - 1].range == after.bindings[j].bounds;
        }
      }
      forall i, j | 0 <= i < j < |after.bindings|
        ensures !StrictlyInside(after.bindings[j].bounds, after.bindings[i].bounds)
      {
        if i < n <= j {
          assert after.bindings[i] == before.bindings[i] && before.bindings[i] in before.bindings;
          var m :| 0 <= m < |init| && init[m].range == before.bindings[i].bounds;
          assert readings[m] == init[m];
        } else if n <= i {
          assert after.bindings[i].bounds == after.bindings[j].bounds;
        } else {
          assert after.bindings[i] == before.bindings[i] && after.bindings[j] == before.bindings[j];
        }
      }
    }
  }

  /** Whatever the source text, the index of its strictly nested forms is ordered from the
      inside out. */
  lemma {:induction false} SourceIndexIsInnerFirst(forms: seq<Value>)
    requires NestedAll(forms)
    ensures InnerFirst(AnalyzeAll(Index([], []), ClosedAll(forms)).bindings)
  {
    NestedAllClosesOutward(forms);
    IndexIsInnerFirst(ClosedAll(forms));
  }

  // ---- Definitions wait for the form around them

  predicate IsScopeForm(r: Reading) {
    var pair := Strip(r.form);
    && !r.form.Annotate? && pair.Pair? && DecodeSymbol(pair.a).Some?
    && DecodeSymbol(pair.a).value in {"let", "fn", "defn", "op", "defop", "provide"}
  }

  /** The first scope form, in closing order, around a location. */
  function FirstAround(readings: seq<Reading>, location: Range): Option<Range> {
    if readings == [] then None
    else
      var before := FirstAround(readings[..|readings| - 1], location);
      var last := readings[|readings| - 1];
      if before.Some? then before
      else if IsScopeForm(last) && IsWithin(location, last.range) then Some(last.range)
      else None
  }

  /** What Analyze does after contain only adds. */
  ghost predicate Extends(ix: Index, ix': Index) {
    && (forall b :: b in ix.bindings ==> b in ix'.bindings)
    && (forall c :: c in ix.contained ==> c in ix'.contained)
  }

  lemma {:induction false} BindOddExtends(ix: Index, vs: seq<Value>, bounds: Range)
    ensures Extends(ix, BindOdd(ix, vs, bounds))
    decreases |vs|
  {
    if vs != [] {
      BindOddExtends(ix, vs[..|vs| - 1], bounds);
    }
  }

  lemma {:induction false} AnalyzedExtends(ix: Index, r: Reading)
    ensures Extends(if IsScopeForm(r) then Contain(ix, r.range) else ix, Analyzed(ix, r.form, r.range))
  {
    var pair := Strip(r.form);
    if IsScopeForm(r) && DecodeSymbol(pair.a).value == "let" {
      var rest := Strip(Rest(pair));
      if rest.Pair? && IsList(rest.a) {
        BindOddExtends(Contain(ix, r.range), Elements(rest.a), r.range);
      }
    }
  }

  lemma {:induction false} InsideMembers(contained: seq<ContainedBinding>, bounds: Range, within: bool,
        c: ContainedBinding)
    ensures c in Inside(contained, bounds, within) <==> c in contained && IsWithin(c.location, bounds) == within
  {
    if contained != [] {
      InsideMembers(contained[..|contained| - 1], bounds, within, c);
      assert contained == contained[..|contained| - 1] + [contained[|contained| - 1]];
    }
  }

  /** A pending definition is bounded by the first scope form that closes around it, or stays
      pending when there is none. */
  lemma {:induction false} PendingIsBounded(ix: Index, readings: seq<Reading>, c: ContainedBinding)
    requires c in ix.contained
    ensures var after := AnalyzeAll(ix, readings);
            match FirstAround(readings, c.location)
            case Some(bounds) => LexicalBinding(c.binding, c.location, bounds) in after.bindings
            case None => c in after.contained
    decreases |readings|
  {
    if readings != [] {
      var init, last := readings[..|readings| - 1], readings[|readings| - 1];
      var before := AnalyzeAll(ix, init);
      PendingIsBounded(ix, init, c);
      AnalyzedExtends(before, last);
      if FirstAround(init, c.location).None? && IsScopeForm(last) {
        InsideMembers(before.contained, last.range, true, c);
        InsideMembers(before.contained, last.range, false, c);
        if IsWithin(c.location, last.range) {
          var moved := Inside(before.contained, last.range, true);
          var i :| 0 <= i < |moved| && moved[i] == c;
          assert Bounded(moved, last.range)[i] == LexicalBinding(c.binding, c.location, last.range);
        }
      }
    }
  }

  /** That first form is the innermost: no other scope form around the definition lies
      strictly inside it. */
  lemma {:induction false} FirstAroundIsInnermost(readings: seq<Reading>, location: Range)
    requires ClosesOutward(readings)
    ensures FirstAround(readings, location).Some? ==>
              forall r :: r in readings && IsScopeForm(r) && IsWithin(location, r.range) ==>
                !StrictlyInside(r.range, FirstAround(readings, location).value)
    ensures FirstAround(readings, location).Some? ==>
              exists r :: r in readings && r.range == FirstAround(readings, location).value
    ensures FirstAround(readings, location).None? ==>
              forall r :: r in readings && IsScopeForm(r) ==> !IsWithin(location, r.range)
    decreases |readings|
  {
    if readings != [] {
      var init, last := readings[..|readings| - 1], readings[|readings| - 1];
      FirstAroundIsInnermost(init, location);
      assert readings == init + [last];
      if FirstAround(init, location).Some? {
        var r :| r in init && r.range == FirstAround(init, location).value;
        var i :| 0 <= i < |init| && init[i] == r;
        assert readings[i] == r && !StrictlyInside(last.range, readings[i].range);
      } else if FirstAround(readings, location).Some? {
        assert last in readings;
      }
    }
  }

  // ---- Searching

  ghost predicate Matches(b: LexicalBinding, name: Symbol, cursor: Range) {
    b.binding == name && IsWithin(cursor, b.bounds)
  }

  /** A match that, if the index is ordered from the inside out, has no other match bounded
      strictly inside it. */
  ghost predicate IsBest(b: LexicalBinding, bindings: seq<LexicalBinding>, name: Symbol, cursor: Range) {
    && b in bindings && Matches(b, name, cursor)
    && (InnerFirst(bindings) ==>
          forall o :: o in bindings && Matches(o, name, cursor) ==> !StrictlyInside(o.bounds, b.bounds))
  }

  function CursorAt(line: int, character: int): Range {
    Range("", line + 1, character, line + 1, character)
  }

  class LexicalAnalyzer {
    var bindings: seq<LexicalBinding>
    var contained: seq<ContainedBinding>

    ghost function Content(): Index
      reads this
    {
      Index(bindings, contained)
    }

    constructor ()
      ensures Content() == Index([], [])
    {
      bindings, contained := [], [];
    }

    method AddContained(bounds: Range)
      modifies this
      ensures Content() == Contain(old(Content()), bounds)
    {
      var newContained: seq<ContainedBinding> := [];
      for i := 0 to |contained|
        invariant contained == old(contained)
        invariant bindings == old(bindings) + Bounded(Inside(contained[..i], bounds, true), bounds)
        invariant newContained == Inside(contained[..i], bounds, false)
      {
        assert contained[..i + 1][..i] == contained[..i];
        var c := contained[i];
        if IsWithin(c.location, bounds) {
          bindings := bindings + [LexicalBinding(c.binding, c.location, bounds)];
        } else {
          newContained := newContained + [c];
        }
      }
      assert contained[..|contained|] == contained;
      contained := newContained;
    }

    method AddBinding(form: Value, bounds: Range)
      modifies this`bindings
      ensures Content() == BindIn(old(Content()), form, bounds)
    {
      if !IsBindable(form) {
        return;
      }
      var names := EachBinding(form).names;
      for i := 0 to |names|
        invariant bindings == old(bindings) + Added(names[..i], bounds)
      {
        bindings := bindings + [LexicalBinding(names[i].0, names[i].1, bounds)];
      }
      assert names[..|names|] == names;
    }

    method AddPending(form: Value)
      modifies this`contained
      ensures Content() == Define(old(Content()), form)
    {
      if !IsBindable(form) {
        return;
      }
      var names := EachBinding(form).names;
      for i := 0 to |names|
        invariant contained == old(contained) + Pending(names[..i])
      {
        contained := contained + [ContainedBinding(names[i].0, names[i].1)];
      }
      assert names[..|names|] == names;
    }

    method AddLet(pair: Value, bounds: Range)
      modifies this
      ensures Content() == AnalyzeLet(old(Content()), pair, bounds)
    {
      AddContained(bounds);
      var rest := Strip(Rest(pair));
      if !rest.Pair? || !IsList(rest.a) {
        return;
      }
      ghost var ix := Content();
      var vs := Elements(rest.a);
      for i := 0 to |vs|
        invariant Content() == BindOdd(ix, vs[..i], bounds)
      {
        assert vs[..i + 1][..i] == vs[..i];
        if (i + 1) % 2 == 1 {
          AddBinding(vs[i], bounds);
        }
      }
      assert vs[..|vs|] == vs;
    }

    method AddFormals(rest: Value, bounds: Range)
      requires rest.Pair?
      modifies this`bindings
      ensures Content() == BindFormals(old(Content()), rest, bounds)
    {
      AddBinding(rest.a, bounds);
      var rest' := Strip(rest.d);
      if rest'.Pair? {
        AddBinding(rest'.a, bounds);
      }
    }

    /** Analyze. */
    method Analyze(form: Value, bounds: Range)
      modifies this
      ensures Content() == Analyzed(old(Content()), form, bounds)
    {
      var pair := Strip(form);
      if form.Annotate? || !pair.Pair? || DecodeSymbol(pair.a).None? {
        return;
      }
      var name, rest := DecodeSymbol(pair.a).value, Strip(Rest(pair));
      if name == "let" {
        AddLet(pair, bounds);
        return;
      }
      if name == "fn" || name == "defn" || name == "op" || name == "defop" || name == "provide" {
        AddContained(bounds);
      }
      if !rest.Pair? {
        return;
      }
      if name == "def" || name == "defn" || name == "defop" || name == "provide" {
        AddPending(rest.a);
      }
      var rest' := Strip(rest.d);
      if name == "fn" {
        AddBinding(rest.a, bounds);
      } else if name == "op" {
        AddFormals(rest, bounds);
      } else if name == "defn" && rest'.Pair? {
        AddBinding(rest'.a, bounds);
      } else if name == "defop" && rest'.Pair? {
        AddFormals(rest', bounds);
      }
    }

    /** Locate: the first indexed binding of the name whose bounds hold the cursor, or else the
        first pending one.  When the index is ordered from the inside out, no other match has
        bounds strictly inside those of the one returned. */
    method Locate(name: Symbol, line: int, character: int) returns (location: Range, found: bool)
      ensures (exists b :: b in bindings && Matches(b, name, CursorAt(line, character))) ==>
                found && exists b :: IsBest(b, bindings, name, CursorAt(line, character)) && b.location == location
      ensures (forall b :: b in bindings ==> !Matches(b, name, CursorAt(line, character))) ==>
                && (found <==> exists c :: c in contained && c.binding == name)
                && (found ==> exists c :: c in contained && c.binding == name && location == c.location)
    {
      var cursor := CursorAt(line, character);
      for i := 0 to |bindings|
        invariant forall j :: 0 <= j < i ==> !Matches(bindings[j], name, cursor)
      {
        var b := bindings[i];
        if b.binding != name || !IsWithin(cursor, b.bounds) {
          continue;
        }
        assert IsBest(b, bindings, name, cursor) by {
          assert bindings[i] in bindings;
          forall o | o in bindings && Matches(o, name, cursor) && InnerFirst(bindings)
            ensures !StrictlyInside(o.bounds, b.bounds)
          {
            var j :| 0 <= j < |bindings| && bindings[j] == o;
          }
        }
        return b.location, true;
      }
      for i := 0 to |contained|
        invariant forall j :: 0 <= j < i ==> contained[j].binding != name
      {
        if contained[i].binding == name {
          assert contained[i] in contained;
          return contained[i].location, true;
        }
      }
      return NO_RANGE, false;
    }

    /** The analyzer of a reader: every form of the tree, children first. */
    method AnalyzeTree(readings: seq<Reading>)
      modifies this
      requires Content() == Index([], [])
      ensures Content() == AnalyzeAll(Index([], []), readings)
      ensures ClosesOutward(readings) ==> InnerFirst(bindings)
    {
      for i := 0 to |readings|
        invariant Content() == AnalyzeAll(Index([], []), readings[..i])
      {
        assert readings[..i + 1][..i] == readings[..i];
        Analyze(readings[i].form, readings[i].range);
      }
      assert readings[..|readings|] == readings;
      if ClosesOutward(readings) {
        IndexIsInnerFirst(readings);
      }
    }
  }
}
