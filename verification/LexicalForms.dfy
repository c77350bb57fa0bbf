/** Which operands of each kind of form bind or define names, and that these are found from inside. */
module LexicalForms {
  import opened Options
  import opened Values
  import opened Lexical

  // ---- The operands of a form

  /** The form as a pair with a symbol in front. */
  predicate IsNamed(form: Value) {
    !form.Annotate? && Strip(form).Pair? && DecodeSymbol(Strip(form).a).Some?
  }

  function Head(form: Value): Symbol
    requires IsNamed(form)
  {
    DecodeSymbol(Strip(form).a).value
  }

  /** Operand i of a form; a tail that is not a pair ends the operands. */
  function Operand(form: Value, i: nat): Option<Value>
    requires Strip(form).Pair?
    decreases i
  {
    var rest := Strip(Strip(form).d);
    if !rest.Pair? then None
    else if i == 0 then Some(rest.a)
    else Operand(rest, i - 1)
  }

  /** The value is bindable and reports the name there. */
  predicate Reports(v: Value, name: Symbol, location: Range) {
    IsBindable(v) && (name, location) in EachBinding(v).names
  }

  predicate OperandReports(form: Value, i: nat, name: Symbol, location: Range)
    requires Strip(form).Pair?
  {
    Operand(form, i).Some? && Reports(Operand(form, i).value, name, location)
  }

  /** An element in an odd place, counting from one, of the form's first operand reports it. */
  ghost predicate LetReports(form: Value, name: Symbol, location: Range)
    requires Strip(form).Pair?
  {
    && Operand(form, 0).Some? && IsList(Operand(form, 0).value)
    && exists k: nat :: EveryOther(Elements(Operand(form, 0).value), k, name, location)
  }

  predicate EveryOther(vs: seq<Value>, k: nat, name: Symbol, location: Range) {
    2 * k < |vs| && Reports(vs[2 * k], name, location)
  }

  /** Names that hold inside the form: the first of each pair in a let, the formals of fn and
      op and of defn and defop after their name, and the scope formals of op and defop. */
  ghost predicate BindsHere(form: Value, name: Symbol, location: Range) {
    && IsNamed(form)
    && (|| (Head(form) == "let" && LetReports(form, name, location))
        || (Head(form) in {"fn", "op"} && OperandReports(form, 0, name, location))
        || (Head(form) in {"op", "defn", "defop"} && OperandReports(form, 1, name, location))
        || (Head(form) == "defop" && OperandReports(form, 2, name, location)))
  }

  /** Names that hold in the form around: what def, defn, defop and provide have first. */
  predicate DefinesHere(form: Value, name: Symbol, location: Range) {
    IsNamed(form) && Head(form) in {"def", "defn", "defop", "provide"} && OperandReports(form, 0, name, location)
  }

  // ---- One form

  /** What is in an index after the form, member by member: nothing of it depends on order. */
  ghost predicate HasAfter(ix: Index, r: Reading, after: Index) {
    && (forall b :: b in after.bindings <==>
          || b in ix.bindings
          || (b.bounds == r.range && BindsHere(r.form, b.binding, b.location))
          || (b.bounds == r.range && IsScopeForm(r) && IsWithin(b.location, r.range)
              && ContainedBinding(b.binding, b.location) in ix.contained))
    && (forall c :: c in after.contained <==>
          || (c in ix.contained && !(IsScopeForm(r) && IsWithin(c.location, r.range)))
          || DefinesHere(r.form, c.binding, c.location))
  }

  lemma {:induction false} BindMembers(ix: Index, form: Value, bounds: Range, b: LexicalBinding)
    ensures b in BindIn(ix, form, bounds).bindings <==>
              b in ix.bindings || (b.bounds == bounds && Reports(form, b.binding, b.location))
  {
    if IsBindable(form) {
      var names := EachBinding(form).names;
      if b.bounds == bounds && (b.binding, b.location) in names {
        var i :| 0 <= i < |names| && names[i] == (b.binding, b.location);
        assert Added(names, bounds)[i] == b;
      }
      if b in Added(names, bounds) {
        var i :| 0 <= i < |names| && Added(names, bounds)[i] == b;
        assert names[i] in names;
      }
    }
  }

  lemma {:induction false} DefineMembers(ix: Index, form: Value, c: ContainedBinding)
    ensures c in Define(ix, form).contained <==> c in ix.contained || Reports(form, c.binding, c.location)
  {
    if IsBindable(form) {
      var names := EachBinding(form).names;
      if (c.binding, c.location) in names {
        var i :| 0 <= i < |names| && names[i] == (c.binding, c.location);
        assert Pending(names)[i] == c;
      }
      if c in Pending(names) {
        var i :| 0 <= i < |names| && Pending(names)[i] == c;
        assert names[i] in names;
      }
    }
  }

  lemma {:induction false} ContainMembers(ix: Index, bounds: Range, b: LexicalBinding)
    ensures b in Contain(ix, bounds).bindings <==>
              || b in ix.bindings
              || (b.bounds == bounds && IsWithin(b.location, bounds)
                  && ContainedBinding(b.binding, b.location) in ix.contained)
  {
    var moved, c := Inside(ix.contained, bounds, true), ContainedBinding(b.binding, b.location);
    InsideMembers(ix.contained, bounds, true, c);
    if c in moved && b.bounds == bounds {
      var i :| 0 <= i < |moved| && moved[i] == c;
      assert Bounded(moved, bounds)[i] == b;
    }
    if b in Bounded(moved, bounds) {
      var i :| 0 <= i < |moved| && Bounded(moved, bounds)[i] == b;
      assert moved[i] == c && moved[i] in moved;
    }
  }

  /** The members after every other one of the values is bound. */
  lemma {:induction false} EveryOtherMembers(ix: Index, vs: seq<Value>, bounds: Range, b: LexicalBinding)
    ensures b in BindOdd(ix, vs, bounds).bindings <==>
              || b in ix.bindings
              || (b.bounds == bounds && exists k: nat :: EveryOther(vs, k, b.binding, b.location))
    ensures BindOdd(ix, vs, bounds).contained == ix.contained
    decreases |vs|
  {
    if vs != [] {
      var init, last := vs[..|vs| - 1], vs[|vs| - 1];
      EveryOtherMembers(ix, init, bounds, b);
      BindMembers(BindOdd(ix, init, bounds), last, bounds, b);
      if k: nat :| EveryOther(init, k, b.binding, b.location) {
        assert EveryOther(vs, k, b.binding, b.location);
      }
      if k: nat :| EveryOther(vs, k, b.binding, b.location) {
        if 2 * k < |init| {
          assert EveryOther(init, k, b.binding, b.location);
        } else {
          assert |vs| % 2 == 1;
        }
      }
      if |vs| % 2 == 1 && Reports(last, b.binding, b.location) {
        assert EveryOther(vs, |vs| / 2, b.binding, b.location);
      }
    }
  }

  /** Whatever the form, analysing it adds to the index exactly the names it binds and, if it
      is a scope form, the pending ones inside it, all with its bounds; the names it defines
      become pending. */
  lemma {:induction false} FormIsIndexed(ix: Index, r: Reading)
    ensures HasAfter(ix, r, Analyzed(ix, r.form, r.range))
  {
    forall b: LexicalBinding
      ensures b in Analyzed(ix, r.form, r.range).bindings <==>
                || b in ix.bindings
                || (b.bounds == r.range && BindsHere(r.form, b.binding, b.location))
                || (b.bounds == r.range && IsScopeForm(r) && IsWithin(b.location, r.range)
                    && ContainedBinding(b.binding, b.location) in ix.contained)
    {
      BindingIsIndexed(ix, r, b);
    }
    forall c: ContainedBinding
      ensures c in Analyzed(ix, r.form, r.range).contained <==>
                || (c in ix.contained && !(IsScopeForm(r) && IsWithin(c.location, r.range)))
                || DefinesHere(r.form, c.binding, c.location)
    {
      DefinitionIsPending(ix, r, c);
    }
  }

  lemma {:induction false} BindingIsIndexed(ix: Index, r: Reading, b: LexicalBinding)
    ensures b in Analyzed(ix, r.form, r.range).bindings <==>
              || b in ix.bindings
              || (b.bounds == r.range && BindsHere(r.form, b.binding, b.location))
              || (b.bounds == r.range && IsScopeForm(r) && IsWithin(b.location, r.range)
                  && ContainedBinding(b.binding, b.location) in ix.contained)
  {
    if IsNamed(r.form) {
      var pair, head, ix1 := Strip(r.form), Head(r.form), Contain(ix, r.range);
      var rest := Strip(Rest(pair));
      ContainMembers(ix, r.range, b);
      if rest.Pair? {
        var rest' := Strip(rest.d);
        var third := Strip(if rest'.Pair? then rest'.d else Empty);
        assert Operand(r.form, 1) == if rest'.Pair? then Some(rest'.a) else None;
        assert Operand(r.form, 2) == if rest'.Pair? && third.Pair? then Some(third.a) else None by {
          assert rest'.Pair? ==> Operand(rest, 1) == if third.Pair? then Some(third.a) else None;
        }
        if head == "let" {
          LetIsIndexed(ix, r, b);
        } else if head == "fn" || head == "op" {
          BindMembers(ix1, rest.a, r.range, b);
          if rest'.Pair? {
            BindMembers(BindIn(ix1, rest.a, r.range), rest'.a, r.range, b);
          }
        } else if (head == "defn" || head == "defop") && rest'.Pair? {
          var defined := Define(ix1, rest.a);
          BindMembers(defined, rest'.a, r.range, b);
          if third.Pair? {
            BindMembers(BindIn(defined, rest'.a, r.range), third.a, r.range, b);
          }
        }
      }
    }
  }

  lemma {:induction false} LetIsIndexed(ix: Index, r: Reading, b: LexicalBinding)
    requires IsNamed(r.form) && Head(r.form) == "let"
    ensures b in Analyzed(ix, r.form, r.range).bindings <==>
              b in Contain(ix, r.range).bindings || (b.bounds == r.range && BindsHere(r.form, b.binding, b.location))
  {
    var rest := Strip(Strip(r.form).d);
    if rest.Pair? && IsList(rest.a) {
      assert Operand(r.form, 0) == Some(rest.a);
      EveryOtherMembers(Contain(ix, r.range), Elements(rest.a), r.range, b);
    }
  }

  lemma {:induction false} DefinitionIsPending(ix: Index, r: Reading, c: ContainedBinding)
    ensures c in Analyzed(ix, r.form, r.range).contained <==>
              || (c in ix.contained && !(IsScopeForm(r) && IsWithin(c.location, r.range)))
              || DefinesHere(r.form, c.binding, c.location)
  {
    if IsNamed(r.form) {
      var pair, head, ix1 := Strip(r.form), Head(r.form), Contain(ix, r.range);
      var rest := Strip(Rest(pair));
      InsideMembers(ix.contained, r.range, false, c);
      if rest.Pair? {
        DefineMembers(if head == "def" then ix else ix1, rest.a, c);
        if head == "let" {
          EveryOtherMembers(ix1, Elements(rest.a), r.range, LexicalBinding(c.binding, c.location, r.range));
        }
      }
    }
  }

  // ---- Whole trees

  /** The i-th form binds the name, or is the first scope form around a definition of it. */
  ghost predicate IndexedBy(readings: seq<Reading>, i: nat, b: LexicalBinding) {
    && i < |readings| && readings[i].range == b.bounds
    && (|| BindsHere(readings[i].form, b.binding, b.location)
        || exists j :: 0 <= j < i && DefinedFor(readings, j, i, b.binding, b.location))
  }

  /** The j-th form defines the name, and of the forms that close after it the i-th is the
      first scope form around the definition. */
  ghost predicate DefinedFor(readings: seq<Reading>, j: nat, i: nat, name: Symbol, location: Range) {
    && j < i < |readings|
    && DefinesHere(readings[j].form, name, location)
    && Encloses(readings[i], location)
    && forall m :: j < m < i ==> !Encloses(readings[m], location)
  }

  predicate Encloses(r: Reading, location: Range) {
    IsScopeForm(r) && IsWithin(location, r.range)
  }

  ghost predicate PendingAfter(readings: seq<Reading>, c: ContainedBinding) {
    exists j :: 0 <= j < |readings| && StillPending(readings, j, c)
  }

  ghost predicate StillPending(readings: seq<Reading>, j: nat, c: ContainedBinding) {
    && j < |readings|
    && DefinesHere(readings[j].form, c.binding, c.location)
    && forall m :: j < m < |readings| ==> !Encloses(readings[m], c.location)
  }

  ghost predicate Indexed(readings: seq<Reading>, b: LexicalBinding) {
    exists i :: IndexedBy(readings, i, b)
  }

  /** The index of a source holds exactly these bindings: for each form the names it binds, and
      for each definition the first scope form around it that closes after it. */
  lemma {:induction false} IndexIsExactly(readings: seq<Reading>, b: LexicalBinding)
    ensures b in AnalyzeAll(Index([], []), readings).bindings <==> Indexed(readings, b)
    decreases |readings|
  {
    if readings != [] {
      var init, last := readings[..|readings| - 1], readings[|readings| - 1];
      IndexIsExactly(init, b);
      PendingIsExactly(init, ContainedBinding(b.binding, b.location));
      FormIsIndexed(AnalyzeAll(Index([], []), init), last);
      IndexedOneMore(readings, b);
    }
  }

  lemma {:induction false} IndexedOneMore(readings: seq<Reading>, b: LexicalBinding)
    requires readings != []
    ensures var init, last := readings[..|readings| - 1], readings[|readings| - 1];
            Indexed(readings, b) <==>
              || Indexed(init, b)
              || (last.range == b.bounds && BindsHere(last.form, b.binding, b.location))
              || (last.range == b.bounds && Encloses(last, b.location)
                  && PendingAfter(init, ContainedBinding(b.binding, b.location)))
  {
    var init, last := readings[..|readings| - 1], readings[|readings| - 1];
    assert readings == init + [last];
    if i: nat :| IndexedBy(init, i, b) {
      OneMoreReading(init, last, i, b);
    }
    if last.range == b.bounds && BindsHere(last.form, b.binding, b.location) {
      assert IndexedBy(readings, |init|, b);
    }
    if last.range == b.bounds && Encloses(last, b.location) {
      if j :| 0 <= j < |init| && StillPending(init, j, ContainedBinding(b.binding, b.location)) {
        assert DefinedFor(readings, j, |init|, b.binding, b.location);
        assert IndexedBy(readings, |init|, b);
      }
    }
    if i: nat :| IndexedBy(readings, i, b) {
      LastReading(readings, i, b);
    }
  }

  lemma {:induction false} OneMoreReading(init: seq<Reading>, last: Reading, i: nat, b: LexicalBinding)
    requires IndexedBy(init, i, b)
    ensures IndexedBy(init + [last], i, b)
  {
    var all := init + [last];
    assert forall m :: 0 <= m < |init| ==> all[m] == init[m];
    if !BindsHere(init[i].form, b.binding, b.location) {
      var j :| 0 <= j < i && DefinedFor(init, j, i, b.binding, b.location);
      assert DefinedFor(all, j, i, b.binding, b.location);
    }
  }

  lemma {:induction false} LastReading(readings: seq<Reading>, i: nat, b: LexicalBinding)
    requires IndexedBy(readings, i, b)
    ensures var init, last := readings[..|readings| - 1], readings[|readings| - 1];
            || IndexedBy(init, i, b)
            || (last.range == b.bounds && BindsHere(last.form, b.binding, b.location))
            || (last.range == b.bounds && Encloses(last, b.location)
                && PendingAfter(init, ContainedBinding(b.binding, b.location)))
  {
    var init := readings[..|readings| - 1];
    if !BindsHere(readings[i].form, b.binding, b.location) {
      var j :| 0 <= j < i && DefinedFor(readings, j, i, b.binding, b.location);
      if i < |init| {
        assert DefinedFor(init, j, i, b.binding, b.location);
      } else {
        assert StillPending(init, j, ContainedBinding(b.binding, b.location));
      }
    }
  }

  lemma {:induction false} PendingIsExactly(readings: seq<Reading>, c: ContainedBinding)
    ensures c in AnalyzeAll(Index([], []), readings).contained <==> PendingAfter(readings, c)
    decreases |readings|
  {
    if readings != [] {
      var init, last := readings[..|readings| - 1], readings[|readings| - 1];
      PendingIsExactly(init, c);
      FormIsIndexed(AnalyzeAll(Index([], []), init), last);
      PendingOneMore(readings, c);
    }
  }

  lemma {:induction false} PendingOneMore(readings: seq<Reading>, c: ContainedBinding)
    requires readings != []
    ensures var init, last := readings[..|readings| - 1], readings[|readings| - 1];
            PendingAfter(readings, c) <==>
              (PendingAfter(init, c) && !Encloses(last, c.location)) || DefinesHere(last.form, c.binding, c.location)
  {
    var init, last := readings[..|readings| - 1], readings[|readings| - 1];
    if !Encloses(last, c.location) {
      if j :| 0 <= j < |init| && StillPending(init, j, c) {
        assert StillPending(readings, j, c);
      }
    }
    if DefinesHere(last.form, c.binding, c.location) {
      assert StillPending(readings, |init|, c);
    }
    if j :| 0 <= j < |readings| && StillPending(readings, j, c) {
      if j < |init| {
        assert StillPending(init, j, c);
      }
    }
  }

  /** A name that a form binds is found from every place inside the form, where the protocol
      counts lines from 0 and ranges from 1: Locate answers, and with the binding of a form
      around the cursor that is no further out. */
  lemma {:induction false} BoundNameIsLocated(readings: seq<Reading>, i: nat, name: Symbol, location: Range, line: int,
        character: int)
    requires i < |readings| && BindsHere(readings[i].form, name, location)
    requires Before(readings[i].range.startLn, readings[i].range.startCol, line + 1, character)
    requires Before(line + 1, character, readings[i].range.endLn, readings[i].range.endCol)
    ensures exists b :: b in AnalyzeAll(Index([], []), readings).bindings && Matches(b, name, CursorAt(line, character))
    ensures forall b :: IsBest(b, AnalyzeAll(Index([], []), readings).bindings, name, CursorAt(line, character))
                        && ClosesOutward(readings) ==>
              && !StrictlyInside(readings[i].range, b.bounds)
              && Indexed(readings, b)
  {
    var bindings, cursor := AnalyzeAll(Index([], []), readings).bindings, CursorAt(line, character);
    var own := LexicalBinding(name, location, readings[i].range);
    WithinIsContainment(cursor, readings[i].range);
    assert IndexedBy(readings, i, own);
    IndexIsExactly(readings, own);
    assert own in bindings && Matches(own, name, cursor);
    if ClosesOutward(readings) {
      IndexIsInnerFirst(readings);
    }
    forall b | IsBest(b, bindings, name, cursor) && ClosesOutward(readings)
      ensures !StrictlyInside(readings[i].range, b.bounds)
      ensures Indexed(readings, b)
    {
      IndexIsExactly(readings, b);
    }
  }

  // ---- The elements of a list

  lemma {:induction false} ElementsOfList(vs: seq<Value>)
    ensures Elements(NewList(vs)) == vs && Elements(NewConsList(vs)) == vs
    decreases |vs|
  {
    if vs != [] {
      ElementsOfList(vs[1..]);
      assert vs == [vs[0]] + vs[1..];
    }
  }

  /** `(let [x 1] x)`: x is bound inside with the let's bounds, and Locate finds it there. */
  lemma {:induction false} LetBindsName(range: Range, spot: Range, form: Value)
    requires spot != NO_RANGE
    requires form == NewList([Sym("let"), NewList([Annotate(Sym("x"), spot, "", NoMeta), Int(1)]), Sym("x")])
    ensures BindsHere(form, "x", spot)
    ensures LexicalBinding("x", spot, range) in Analyzed(Index([], []), form, range).bindings
  {
    var vs := [Annotate(Sym("x"), spot, "", NoMeta), Int(1)];
    assert [Sym("let"), NewList(vs), Sym("x")][1..] == [NewList(vs), Sym("x")];
    assert form == Pair(Sym("let"), Pair(NewList(vs), NewList([NewList(vs), Sym("x")][1..])));
    ElementsOfList(vs);
    assert EachBinding(vs[0]).names == [("x", spot)];
    assert Strip(vs[0]) == Strip(Sym("x")) == Sym("x");
    assert ("x", spot) in EachBinding(vs[0]).names && Reports(vs[0], "x", spot);
    var first: nat := 0;
    assert 2 * first == 0 && EveryOther(vs, first, "x", spot);
    assert Operand(form, 0) == Some(NewList(vs));
    FormIsIndexed(Index([], []), Reading(form, range));
  }
}
