/** Where EachBinding says the symbols of a pattern are: each at the innermost annotation around
    it that has a range, in the order of the text. */
module BindingSpots {
  import opened Values

  /** The symbols of a pattern with the range of the innermost annotation around each, `around`
      being that of the whole pattern; the key forms of bind patterns do not count. */
  function Spots(v: Value, around: Range): seq<(Symbol, Range)> {
    match v
    case Sym(name) => [(name, around)]
    case Pair(a, d) => Spots(a, around) + Spots(d, around)
    case Cons(a, d) => Spots(a, around) + Spots(d, around)
    case Bind(forms) => SpotsInForms(forms, around)
    case Annotate(form, range, _, _) => Spots(form, if range == NO_RANGE then around else range)
    case Annotated(value, _) => Spots(value, around)
    case _ => []
  }

  function SpotsInForms(forms: seq<Value>, around: Range): seq<(Symbol, Range)> {
    if |forms| < 2 then [] else Spots(forms[1], around) + SpotsInForms(forms[2..], around)
  }

  /** Every part of the pattern can be bound. */
  predicate Bindable(v: Value) {
    match v
    case Sym(_) => true
    case Pair(a, d) => Bindable(a) && Bindable(d)
    case Cons(a, d) => Bindable(a) && Bindable(d)
    case Bind(forms) => |forms| % 2 == 0 && BindableForms(forms)
    case Annotate(form, _, _, _) => Bindable(form)
    case Annotated(value, _) => Bindable(value)
    case Keyword(_) => true
    case Ignore => true
    case _ => IsConstant(v)
  }

  predicate BindableForms(forms: seq<Value>) {
    |forms| < 2 || (Bindable(forms[1]) && BindableForms(forms[2..]))
  }

  lemma {:induction false} RangeTwice(r: Reported, inner: Range, outer: Range)
    ensures WithRange(WithRange(r, inner), outer) == WithRange(r, if inner == NO_RANGE then outer else inner)
  {
  }

  lemma {:induction false} RangeOfBoth(r: Reported, s: Reported, range: Range)
    ensures WithRange(Then(r, s), range) == Then(WithRange(r, range), WithRange(s, range))
  {
    if r.complete {
      assert WithRange(Then(r, s), range).names == WithRange(r, range).names + WithRange(s, range).names;
    }
  }

  /** r reports these spots, or the first of them up to where it failed. */
  ghost predicate Agrees(r: Reported, spots: seq<(Symbol, Range)>, complete: bool) {
    r.complete == complete && r.names <= spots && (complete ==> r.names == spots)
  }

  lemma {:induction false} BothAgree(r: Reported, s: Reported, spots: seq<(Symbol, Range)>, more: seq<(Symbol, Range)>,
        complete: bool, completeMore: bool)
    requires Agrees(r, spots, complete) && Agrees(s, more, completeMore)
    ensures Agrees(Then(r, s), spots + more, complete && completeMore)
  {
    if complete {
      assert r.names + s.names <= spots + more;
    } else {
      assert r.names <= spots + more;
    }
  }

  /** EachBinding reports each symbol at its innermost annotation, and fails exactly when some
      part cannot be bound. */
  lemma {:induction false} ReportedAtInnermost(v: Value, around: Range)
    ensures Agrees(WithRange(EachBinding(v), around), Spots(v, around), Bindable(v))
    decreases v
  {
    match v
    case Pair(a, d) =>
      ReportedAtInnermost(a, around);
      ReportedAtInnermost(d, around);
      PairAgrees(a, d, around);
    case Cons(a, d) =>
      ReportedAtInnermost(a, around);
      ReportedAtInnermost(d, around);
      PairAgrees(a, d, around);
    case Bind(forms) =>
      if |forms| % 2 == 0 {
        FormsReported(forms, around);
      } else {
        assert [] <= SpotsInForms(forms, around);
      }
    case Annotate(form, range, _, _) =>
      ReportedAtInnermost(form, if range == NO_RANGE then around else range);
      RangeTwice(EachBinding(form), range, around);
    case Annotated(value, _) => ReportedAtInnermost(value, around);
    case _ => LeafReported(v, around);
  }

  lemma {:induction false} LeafReported(v: Value, around: Range)
    requires !v.Pair? && !v.Cons? && !v.Bind? && !v.Annotate? && !v.Annotated?
    ensures Agrees(WithRange(EachBinding(v), around), Spots(v, around), Bindable(v))
  {
  }

  lemma {:induction false} PairAgrees(a: Value, d: Value, around: Range)
    requires Agrees(WithRange(EachBinding(a), around), Spots(a, around), Bindable(a))
    requires Agrees(WithRange(EachBinding(d), around), Spots(d, around), Bindable(d))
    ensures Agrees(WithRange(Then(EachBinding(a), EachBinding(d)), around), Spots(a, around) + Spots(d, around),
                   Bindable(a) && Bindable(d))
  {
    RangeOfBoth(EachBinding(a), EachBinding(d), around);
    BothAgree(WithRange(EachBinding(a), around), WithRange(EachBinding(d), around), Spots(a, around), Spots(d, around),
              Bindable(a), Bindable(d));
  }

  lemma {:induction false} FormsReported(forms: seq<Value>, around: Range)
    ensures Agrees(WithRange(EachValueBinding(forms), around), SpotsInForms(forms, around), BindableForms(forms))
    decreases forms
  {
    if |forms| >= 2 {
      ReportedAtInnermost(forms[1], around);
      FormsReported(forms[2..], around);
      RangeOfBoth(EachBinding(forms[1]), EachValueBinding(forms[2..]), around);
      BothAgree(WithRange(EachBinding(forms[1]), around), WithRange(EachValueBinding(forms[2..]), around),
                Spots(forms[1], around), SpotsInForms(forms[2..], around),
                Bindable(forms[1]), BindableForms(forms[2..]));
    }
  }
}
