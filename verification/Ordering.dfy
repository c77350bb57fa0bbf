/** Names in the order of a strict total order: what a sort leaves, whatever it started from. */
module Ordering {

  /** The string order of Go: character by character. */
  predicate Spelled(a: string, b: string) {
    if b == "" then false
    else if a == "" then true
    else a[0] < b[0] || (a[0] == b[0] && Spelled(a[1..], b[1..]))
  }

  /** CompleteOpts.Less: by length, then by spelling. */
  predicate ShorterFirst(a: string, b: string) {
    |a| < |b| || (|a| == |b| && Spelled(a, b))
  }

  ghost predicate StrictTotal(less: (string, string) -> bool) {
    && (forall a, b :: a == b || less(a, b) || less(b, a))
    && (forall a, b :: !(less(a, b) && less(b, a)))
    && (forall a, b, c :: less(a, b) && less(b, c) ==> less(a, c))
  }

  lemma {:induction false} SpelledIsTotal(a: string, b: string)
    ensures a == b || Spelled(a, b) || Spelled(b, a)
    ensures !(Spelled(a, b) && Spelled(b, a))
    decreases |a|
  {
    if a != "" && b != "" {
      SpelledIsTotal(a[1..], b[1..]);
      if a[0] == b[0] && a[1..] == b[1..] {
        assert a == [a[0]] + a[1..] == b;
      }
    }
  }

  lemma {:induction false} SpelledIsTransitive(a: string, b: string, c: string)
    requires Spelled(a, b) && Spelled(b, c)
    ensures Spelled(a, c)
    decreases |a|
  {
    if a != "" && a[0] == b[0] == c[0] {
      SpelledIsTransitive(a[1..], b[1..], c[1..]);
    }
  }

  lemma {:induction false} SpelledIsStrictTotal()
    ensures StrictTotal(Spelled)
  {
    forall a, b
      ensures (a == b || Spelled(a, b) || Spelled(b, a)) && !(Spelled(a, b) && Spelled(b, a))
    {
      SpelledIsTotal(a, b);
    }
    forall a, b, c | Spelled(a, b) && Spelled(b, c)
      ensures Spelled(a, c)
    {
      SpelledIsTransitive(a, b, c);
    }
  }

  lemma {:induction false} ShorterFirstIsStrictTotal()
    ensures StrictTotal(ShorterFirst)
  {
    SpelledIsStrictTotal();
  }

  /** Of two names of one length, the one spelled first has the smaller character where they
      first differ. */
  lemma {:induction false} SpelledDiffers(a: string, b: string)
    requires |a| == |b| && Spelled(a, b)
    ensures exists k :: 0 <= k < |a| && a[..k] == b[..k] && a[k] < b[k]
    decreases |a|
  {
    if a[0] == b[0] {
      SpelledDiffers(a[1..], b[1..]);
      var k :| 0 <= k < |a[1..]| && a[1..][..k] == b[1..][..k] && a[1..][k] < b[1..][k];
      assert a[..k + 1] == [a[0]] + a[1..][..k] == b[..k + 1];
      assert a[k + 1] < b[k + 1];
    } else {
      assert a[..0] == b[..0];
    }
  }

  ghost predicate InOrder(names: seq<string>, less: (string, string) -> bool) {
    forall i, j :: 0 <= i < j < |names| ==> less(names[i], names[j])
  }

  ghost predicate NoDuplicates(names: seq<string>) {
    forall i, j :: 0 <= i < j < |names| ==> names[i] != names[j]
  }

  ghost function Elements(names: seq<string>): set<string> {
    set x | x in names
  }

  lemma {:induction false} NoElements(names: seq<string>)
    ensures Elements(names) == {} <==> names == []
  {
    if names != [] {
      assert names[0] in Elements(names);
    }
  }

  lemma {:induction false} ElementsOfConcat(a: seq<string>, b: seq<string>)
    ensures Elements(a + b) == Elements(a) + Elements(b)
  {
  }

  lemma {:induction false} InOrderNoDuplicates(names: seq<string>, less: (string, string) -> bool)
    requires StrictTotal(less) && InOrder(names, less)
    ensures NoDuplicates(names)
  {
  }

  lemma {:induction false} ConcatNames(a: seq<string>, b: seq<string>)
    requires NoDuplicates(a) && NoDuplicates(b) && Elements(a) !! Elements(b)
    ensures NoDuplicates(a + b) && Elements(a + b) == Elements(a) + Elements(b)
  {
    forall i, j | 0 <= i < j < |a + b|
      ensures (a + b)[i] != (a + b)[j]
    {
      if i < |a| <= j {
        assert a[i] in Elements(a) && b[j - |a|] in Elements(b);
      }
    }
  }

  /** A set of names has one enumeration in order. */
  lemma {:induction false} OrderIsUnique(a: seq<string>, b: seq<string>, less: (string, string) -> bool)
    requires StrictTotal(less) && InOrder(a, less) && InOrder(b, less) && Elements(a) == Elements(b)
    ensures a == b
    decreases |a|
  {
    if a == [] || b == [] {
      NoElements(a);
      NoElements(b);
    } else {
      SameFirst(a, b, less);
      forall x
        ensures x in a[1..] <==> x in b[1..]
      {
        assert a == [a[0]] + a[1..] && b == [b[0]] + b[1..];
        assert x in a <==> x in Elements(a);
        assert x in b <==> x in Elements(b);
        assert a[0] !in a[1..] && b[0] !in b[1..];
      }
      OrderIsUnique(a[1..], b[1..], less);
      assert a == [a[0]] + a[1..] == [b[0]] + b[1..] == b;
    }
  }

  lemma {:induction false} SameFirst(a: seq<string>, b: seq<string>, less: (string, string) -> bool)
    requires StrictTotal(less) && InOrder(a, less) && InOrder(b, less)
    requires Elements(a) == Elements(b) && a != [] && b != []
    ensures a[0] == b[0]
  {
    assert a[0] in Elements(b) && b[0] in Elements(a);
    var i :| 0 <= i < |b| && b[i] == a[0];
    var j :| 0 <= j < |a| && a[j] == b[0];
  }

  // ---- Sorting

  function Inserted<V>(sorted: seq<(string, V)>, o: (string, V), less: (string, string) -> bool): seq<(string, V)> {
    if sorted == [] then [o]
    else if less(o.0, sorted[0].0) then [o] + sorted
    else [sorted[0]] + Inserted(sorted[1..], o, less)
  }

  function Names<V>(opts: seq<(string, V)>): seq<string> {
    seq(|opts|, i requires 0 <= i < |opts| => opts[i].0)
  }

  lemma {:induction false} NamesOneMore<V>(opts: seq<(string, V)>, o: (string, V))
    ensures Names(opts + [o]) == Names(opts) + [o.0]
    ensures Elements(Names(opts + [o])) == Elements(Names(opts)) + {o.0}
  {
    assert Names(opts + [o]) == Names(opts) + [o.0];
  }

  lemma {:induction false} InsertedInOrder<V>(sorted: seq<(string, V)>, o: (string, V), less: (string, string) -> bool)
    requires StrictTotal(less) && InOrder(Names(sorted), less) && o.0 !in Names(sorted)
    ensures InOrder(Names(Inserted(sorted, o, less)), less)
    ensures forall p :: p in Inserted(sorted, o, less) <==> p == o || p in sorted
    ensures Elements(Names(Inserted(sorted, o, less))) == Elements(Names(sorted)) + {o.0}
    decreases |sorted|
  {
    var names, r := Names(sorted), Inserted(sorted, o, less);
    if sorted == [] {
      assert Names(r) == [o.0];
    } else if less(o.0, sorted[0].0) {
      assert Names(r) == [o.0] + names;
    } else {
      assert names[0] != o.0;
      var rest := Names(sorted[1..]);
      assert rest == names[1..];
      InsertedInOrder(sorted[1..], o, less);
      assert Names(r) == [names[0]] + Names(Inserted(sorted[1..], o, less));
      assert names == [names[0]] + rest;
      forall x | x in Names(Inserted(sorted[1..], o, less))
        ensures less(names[0], x)
      {
        assert x in Elements(Names(Inserted(sorted[1..], o, less)));
        assert x == o.0 || x in rest;
      }
    }
  }

  /** sort.Sort on options with distinct names. */
  method Sort<V>(opts: seq<(string, V)>, less: (string, string) -> bool) returns (sorted: seq<(string, V)>)
    requires StrictTotal(less) && NoDuplicates(Names(opts))
    ensures InOrder(Names(sorted), less)
    ensures forall o :: o in sorted <==> o in opts
    ensures Elements(Names(sorted)) == Elements(Names(opts))
  {
    sorted := [];
    for i := 0 to |opts|
      invariant InOrder(Names(sorted), less)
      invariant forall o :: o in sorted <==> o in opts[..i]
      invariant Elements(Names(sorted)) == Elements(Names(opts[..i]))
    {
      assert opts[..i + 1] == opts[..i] + [opts[i]];
      NamesOneMore(opts[..i], opts[i]);
      assert Names(opts)[i] == opts[i].0;
      assert opts[i].0 !in Names(opts[..i]) by {
        assert forall j :: 0 <= j < i ==> Names(opts[..i])[j] == Names(opts)[j];
      }
      assert opts[i].0 !in Names(sorted) by {
        assert opts[i].0 !in Elements(Names(sorted));
      }
      InsertedInOrder(sorted, opts[i], less);
      sorted := Inserted(sorted, opts[i], less);
    }
    assert opts[..|opts|] == opts;
  }

  lemma {:induction false} FirstExists(names: set<string>, less: (string, string) -> bool) returns (first: string)
    requires StrictTotal(less) && names != {}
    ensures first in names && forall y :: y in names ==> y == first || less(first, y)
    decreases |names|
  {
    var x :| x in names;
    var others := names - {x};
    first := x;
    if others != {} {
      var z := FirstExists(others, less);
      if less(z, x) {
        first := z;
      } else {
        BelowTheRest(x, z, others, less);
      }
      forall y | y in names
        ensures y == first || less(first, y)
      {
        assert y == x || y in others;
      }
    } else {
      assert names == {x};
    }
  }

  lemma {:induction false} BelowTheRest(x: string, z: string, others: set<string>, less: (string, string) -> bool)
    requires StrictTotal(less) && less(x, z)
    requires forall y :: y in others ==> y == z || less(z, y)
    ensures forall y :: y in others ==> less(x, y)
  {
  }

  function First(names: set<string>, less: (string, string) -> bool): (x: string)
    requires StrictTotal(less) && names != {}
    ensures x in names && forall y :: y in names ==> y == x || less(x, y)
  {
    assert exists x :: x in names && forall y :: y in names ==> y == x || less(x, y) by {
      var first := FirstExists(names, less);
    }
    var x :| x in names && forall y :: y in names ==> y == x || less(x, y);
    x
  }

  lemma {:induction false} FirstThenRest(x: string, rest: seq<string>, less: (string, string) -> bool)
    requires InOrder(rest, less) && forall y :: y in Elements(rest) ==> less(x, y)
    ensures InOrder([x] + rest, less) && Elements([x] + rest) == {x} + Elements(rest)
  {
    forall i | 0 <= i < |rest|
      ensures less(x, rest[i])
    {
      assert rest[i] in Elements(rest);
    }
  }

  /** The names of a set in order. */
  function SortedNames(names: set<string>, less: (string, string) -> bool): (r: seq<string>)
    requires StrictTotal(less)
    ensures InOrder(r, less) && Elements(r) == names
    decreases |names|
  {
    if names == {} then []
    else
      var x := First(names, less);
      var rest := SortedNames(names - {x}, less);
      FirstThenRest(x, rest, less);
      [x] + rest
  }
}
