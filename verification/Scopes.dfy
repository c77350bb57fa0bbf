/** Scopes of pkg/bass/scope.go: bindings with any number of parents, which may share
    ancestors. */
module Scopes {
  import opened Options
  import opened Ordering

  /** The names not yet called, in order. */
  function Fresh(order: seq<string>, called: set<string>): seq<string> {
    if order == [] then []
    else
      var last := order[|order| - 1];
      Fresh(order[..|order| - 1], called) + if last in called then [] else [last]
  }

  lemma {:induction false} FreshNames(order: seq<string>, called: set<string>)
    requires NoDuplicates(order)
    ensures NoDuplicates(Fresh(order, called))
    ensures Elements(Fresh(order, called)) == Elements(order) - called
  {
    if order != [] {
      var init, last := order[..|order| - 1], order[|order| - 1];
      FreshNames(init, called);
      assert last !in init;
      assert Elements(order) == Elements(init) + {last};
      var rest := if last in called then [] else [last];
      assert Elements(Fresh(order, called)) == Elements(Fresh(init, called)) + Elements(rest);
      assert last !in Elements(Fresh(init, called));
      assert forall x :: x in Fresh(init, called) ==> x in Elements(Fresh(init, called));
    }
  }

  /** The order has x before y. */
  ghost predicate BoundBefore(order: seq<string>, x: string, y: string) {
    exists a, b :: 0 <= a < b < |order| && order[a] == x && order[b] == y
  }

  lemma {:induction false} FreshKeepsOrder(order: seq<string>, called: set<string>, i: int, j: int)
    requires 0 <= i < j < |Fresh(order, called)|
    ensures BoundBefore(order, Fresh(order, called)[i], Fresh(order, called)[j])
    decreases |order|
  {
    var init, last := order[..|order| - 1], order[|order| - 1];
    if j < |Fresh(init, called)| {
      FreshKeepsOrder(init, called, i, j);
      var a, b :| 0 <= a < b < |init| && init[a] == Fresh(init, called)[i] && init[b] == Fresh(init, called)[j];
      assert order[a] == init[a] && order[b] == init[b];
    } else {
      var a := FreshFrom(init, called, i);
      assert order[a] == init[a] && order[|order| - 1] == last;
    }
  }

  lemma {:induction false} FreshFrom(order: seq<string>, called: set<string>, i: int) returns (a: nat)
    requires 0 <= i < |Fresh(order, called)|
    ensures a < |order| && order[a] == Fresh(order, called)[i]
    decreases |order|
  {
    var init := order[..|order| - 1];
    if i < |Fresh(init, called)| {
      a := FreshFrom(init, called, i);
    } else {
      a := |order| - 1;
    }
  }

  class Scope<V(==,!new)> {
    var parents: seq<Scope<V>>
    var bindings: map<string, V>
    var order: seq<string>
    ghost var repr: set<Scope<V>>

    /** The scope and everything above it form an acyclic graph, in which ancestors may be
        shared; order lists the bound names once each. */
    ghost predicate Valid()
      reads this, repr
      decreases repr
    {
      && this in repr
      && (forall p :: p in parents ==> p in repr && p.repr <= repr && this !in p.repr && p.Valid())
      && NoDuplicates(order)
      && Elements(order) == bindings.Keys
    }

    constructor (parents: seq<Scope<V>>)
      requires forall p :: p in parents ==> p.Valid()
      ensures Valid() && this.parents == parents && bindings == map[] && order == []
      ensures fresh(this) && forall o :: o in repr ==> o == this || exists p :: p in parents && o in p.repr
    {
      this.parents := parents;
      bindings := map[];
      order := [];
      repr := {this} + set p, o | p in parents && o in p.repr :: o;
    }

    /** Get: the local binding, or else the first one found among the parents in order. */
    function Get(name: string): Option<V>
      requires Valid()
      reads this, repr
      decreases repr, 0
    {
      if name in bindings then Some(bindings[name]) else Search(parents, name, repr - {this})
    }

    static function Search(ps: seq<Scope<V>>, name: string, ghost above: set<Scope<V>>): Option<V>
      requires forall p :: p in ps ==> p in above && p.repr <= above && p.Valid()
      reads above
      decreases above, 1 + |ps|
    {
      if ps == [] then None
      else
        var r := ps[0].Get(name);
        if r.Some? then r else Search(ps[1..], name, above)
    }

    /** The names Get can find. */
    ghost function Visible(): set<string>
      requires Valid()
      reads this, repr
      decreases repr, 0
    {
      bindings.Keys + VisibleIn(parents, repr - {this})
    }

    static ghost function VisibleIn(ps: seq<Scope<V>>, above: set<Scope<V>>): set<string>
      requires forall p :: p in ps ==> p in above && p.repr <= above && p.Valid()
      reads above
      decreases above, 1 + |ps|
    {
      if ps == [] then {} else ps[0].Visible() + VisibleIn(ps[1..], above)
    }

    lemma {:induction false} VisibleIsFound(name: string)
      requires Valid()
      ensures name in Visible() <==> Get(name).Some?
      decreases repr, 0
    {
      VisibleInIsFound(parents, name, repr - {this});
    }

    static lemma {:induction false} VisibleInIsFound(ps: seq<Scope<V>>, name: string, above: set<Scope<V>>)
      requires forall p :: p in ps ==> p in above && p.repr <= above && p.Valid()
      ensures name in VisibleIn(ps, above) <==> Search(ps, name, above).Some?
      decreases above, 1 + |ps|
    {
      if ps != [] {
        ps[0].VisibleIsFound(name);
        VisibleInIsFound(ps[1..], name, above);
      }
    }

    /** Which binding Get finds: the own one whatever the parents bind, or else what the first
        parent finds that finds anything. */
    lemma {:induction false} FirstParentWins(name: string)
      requires Valid()
      ensures name in bindings ==> Get(name) == Some(bindings[name])
      ensures name !in bindings && Get(name).Some? ==>
                exists i :: 0 <= i < |parents| && parents[i].Get(name) == Get(name)
                            && forall j :: 0 <= j < i ==> parents[j].Get(name).None?
      ensures name !in bindings && Get(name).None? ==> forall i :: 0 <= i < |parents| ==> parents[i].Get(name).None?
    {
      FirstOf(parents, name, repr - {this});
    }

    static lemma {:induction false} FirstOf(ps: seq<Scope<V>>, name: string, above: set<Scope<V>>)
      requires forall p :: p in ps ==> p in above && p.repr <= above && p.Valid()
      ensures Search(ps, name, above).Some? ==>
                exists i :: 0 <= i < |ps| && ps[i].Get(name) == Search(ps, name, above)
                            && forall j :: 0 <= j < i ==> ps[j].Get(name).None?
      ensures Search(ps, name, above).None? ==> forall i :: 0 <= i < |ps| ==> ps[i].Get(name).None?
      decreases |ps|
    {
      if ps != [] {
        if ps[0].Get(name).None? {
          FirstOf(ps[1..], name, above);
          assert forall i :: 0 < i < |ps| ==> ps[i] == ps[1..][i - 1];
          if Search(ps, name, above).Some? {
            var i :| 0 <= i < |ps[1..]| && ps[1..][i].Get(name) == Search(ps, name, above)
                     && forall j :: 0 <= j < i ==> ps[1..][j].Get(name).None?;
            assert ps[i + 1].Get(name) == Search(ps, name, above);
          }
        } else {
          assert ps[0].Get(name) == Search(ps, name, above);
        }
      }
    }

    /** Set: binds the name here, remembering when it was first bound. */
    method Set(name: string, value: V)
      requires Valid()
      modifies this`bindings, this`order
      ensures Valid()
      ensures bindings == old(bindings)[name := value]
      ensures order == if name in old(bindings) then old(order) else old(order) + [name]
      ensures forall other :: Get(other) == if other == name then Some(value) else old(Get(other))
    {
      if name !in bindings {
        assert name !in order by {
          assert name in order ==> name in Elements(order);
        }
        assert Elements(order + [name]) == Elements(order) + {name};
        order := order + [name];
      }
      bindings := bindings[name := value];
      assert forall p :: p in parents ==> p.Valid();
    }

    // ---- Each

    /** The names a walk visits, parents first, when those in `called` were visited before. */
    ghost function Walk(called: set<string>): seq<string>
      requires Valid()
      reads this, repr
      decreases repr, 0
    {
      var above := WalkIn(parents, called, repr - {this});
      above + Fresh(order, called + Elements(above))
    }

    static ghost function WalkIn(ps: seq<Scope<V>>, called: set<string>, above: set<Scope<V>>): seq<string>
      requires forall p :: p in ps ==> p in above && p.repr <= above && p.Valid()
      reads above
      decreases above, 1 + |ps|
    {
      if ps == [] then []
      else
        var first := ps[0].Walk(called);
        first + WalkIn(ps[1..], called + Elements(first), above)
    }

    /** A walk visits each visible name not called before, once. */
    lemma {:induction false} WalkVisits(called: set<string>)
      requires Valid()
      ensures NoDuplicates(Walk(called)) && Elements(Walk(called)) == Visible() - called
      decreases repr, 0
    {
      var above := WalkIn(parents, called, repr - {this});
      WalkInVisits(parents, called, repr - {this});
      FreshNames(order, called + Elements(above));
      ConcatNames(above, Fresh(order, called + Elements(above)));
    }

    static lemma {:induction false} WalkInVisits(ps: seq<Scope<V>>, called: set<string>, above: set<Scope<V>>)
      requires forall p :: p in ps ==> p in above && p.repr <= above && p.Valid()
      ensures NoDuplicates(WalkIn(ps, called, above))
      ensures Elements(WalkIn(ps, called, above)) == VisibleIn(ps, above) - called
      decreases above, 1 + |ps|
    {
      if ps != [] {
        var first := ps[0].Walk(called);
        ps[0].WalkVisits(called);
        WalkInVisits(ps[1..], called + Elements(first), above);
        ConcatNames(first, WalkIn(ps[1..], called + Elements(first), above));
      }
    }

    /** The names come parent by parent: before a name that a parent shows come only names that
        this parent or one before it shows. */
    static ghost predicate ByParent(ps: seq<Scope<V>>, names: seq<string>, above: set<Scope<V>>)
      requires forall p :: p in ps ==> p in above && p.repr <= above && p.Valid()
      reads above
    {
      forall i, j, m :: 0 <= i < j < |names| && 0 <= m < |ps| && names[j] in ps[m].Visible() ==>
        ShownBy(ps, m, names[i], above)
    }

    static ghost predicate ShownBy(ps: seq<Scope<V>>, m: nat, name: string, above: set<Scope<V>>)
      requires forall p :: p in ps ==> p in above && p.repr <= above && p.Valid()
      requires m < |ps|
      reads above
    {
      exists l :: 0 <= l <= m && name in ps[l].Visible()
    }

    static lemma {:induction false} OneMoreParent(ps: seq<Scope<V>>, first: seq<string>, rest: seq<string>,
          above: set<Scope<V>>)
      requires ps != [] && forall p :: p in ps ==> p in above && p.repr <= above && p.Valid()
      requires Elements(first) <= ps[0].Visible() && Elements(rest) !! ps[0].Visible()
      requires ByParent(ps[1..], rest, above)
      ensures ByParent(ps, first + rest, above)
    {
      var names := first + rest;
      forall i, j, m | 0 <= i < j < |names| && 0 <= m < |ps| && names[j] in ps[m].Visible()
        ensures ShownBy(ps, m, names[i], above)
      {
        if i < |first| {
          assert first[i] in Elements(first) && names[i] in ps[0].Visible();
        } else {
          assert rest[j - |first|] in Elements(rest) && m > 0 && ps[m] == ps[1..][m - 1];
          assert ShownBy(ps[1..], m - 1, rest[i - |first|], above);
          var l :| 0 <= l <= m - 1 && rest[i - |first|] in ps[1..][l].Visible();
          assert names[i] in ps[l + 1].Visible();
        }
      }
    }

    static lemma {:induction false} WalkInByParent(ps: seq<Scope<V>>, called: set<string>, above: set<Scope<V>>)
      requires forall p :: p in ps ==> p in above && p.repr <= above && p.Valid()
      ensures ByParent(ps, WalkIn(ps, called, above), above)
      decreases |ps|
    {
      if ps != [] {
        var first := ps[0].Walk(called);
        ps[0].WalkVisits(called);
        WalkInByParent(ps[1..], called + Elements(first), above);
        WalkInVisits(ps[1..], called + Elements(first), above);
        OneMoreParent(ps, first, WalkIn(ps[1..], called + Elements(first), above), above);
      }
    }

    /** The walk of a whole scope goes through the parents in order and then through the names
        that no parent shows, in the order in which they were first bound. */
    lemma {:induction false} WalkOrder()
      requires Valid()
      ensures ByParent(parents, Walk({}), repr - {this})
      ensures forall i, j :: 0 <= i < j < |Walk({})| && Walk({})[i] !in VisibleIn(parents, repr - {this}) ==>
                BoundBefore(order, Walk({})[i], Walk({})[j])
    {
      var up, rest := WalkIn(parents, {}, repr - {this}), repr - {this};
      var called := {} + Elements(up);
      var own := Fresh(order, called);
      assert Walk({}) == up + own;
      WalkInVisits(parents, {}, rest);
      WalkInByParent(parents, {}, rest);
      FreshNames(order, called);
      OwnAtTheEnd(up, own, rest);
      forall i, j | 0 <= i < j < |up + own| && (up + own)[i] !in VisibleIn(parents, rest)
        ensures BoundBefore(order, (up + own)[i], (up + own)[j])
      {
        assert (up + own)[i] !in Elements(up);
        FreshKeepsOrder(order, called, i - |up|, j - |up|);
      }
    }

    lemma {:induction false} OwnAtTheEnd(up: seq<string>, own: seq<string>, rest: set<Scope<V>>)
      requires Valid() && rest == repr - {this} && ByParent(parents, up, rest)
      requires Elements(own) !! VisibleIn(parents, rest)
      ensures ByParent(parents, up + own, rest)
    {
      forall i, j, m | 0 <= i < j < |up + own| && 0 <= m < |parents| && (up + own)[j] in parents[m].Visible()
        ensures ShownBy(parents, m, (up + own)[i], rest)
      {
        ParentsAreVisible(parents, rest, m);
        assert (up + own)[j] !in Elements(own);
        assert (up + own)[i] == up[i] && (up + own)[j] == up[j];
      }
    }

    /** The visits are these names with the values this scope finds for them. */
    ghost predicate Shows(visited: seq<(string, V)>, names: seq<string>)
      requires Valid()
      reads this, repr
    {
      && |visited| == |names|
      && forall i :: 0 <= i < |names| ==> visited[i].0 == names[i] && Get(names[i]) == Some(visited[i].1)
    }

    lemma {:induction false} ShowsInTurn(visited: seq<(string, V)>, names: seq<string>, more: seq<(string, V)>,
          moreNames: seq<string>)
      requires Valid() && Shows(visited, names) && Shows(more, moreNames)
      ensures Shows(visited + more, names + moreNames)
    {
    }

    lemma {:induction false} ShowsOneMore(visited: seq<(string, V)>, above: seq<string>, own: seq<string>, k: string)
      requires Valid() && Shows(visited, above + own) && Get(k).Some?
      ensures Shows(visited + [(k, Get(k).value)], above + (own + [k]))
    {
      ShowsInTurn(visited, above + own, [(k, Get(k).value)], [k]);
      assert (above + own) + [k] == above + (own + [k]);
    }

    static lemma {:induction false} ParentsAreVisible(ps: seq<Scope<V>>, above: set<Scope<V>>, i: nat)
      requires forall p :: p in ps ==> p in above && p.repr <= above && p.Valid()
      requires i < |ps|
      ensures ps[i].Visible() <= VisibleIn(ps, above)
    {
      if i > 0 {
        ParentsAreVisible(ps[1..], above, i - 1);
      }
    }

    /** eachShadow: the visits, in order, of a callback that never fails.  The callback gets
        the values that `top` finds. */
    method EachShadow(top: Scope<V>, called0: set<string>) returns (visited: seq<(string, V)>, called: set<string>)
      requires Valid() && top.Valid() && Visible() <= top.Visible()
      ensures top.Shows(visited, Walk(called0))
      ensures called == called0 + Elements(Walk(called0))
      decreases repr, 0
    {
      visited, called := EachParent(top, parents, called0, repr - {this});
      ghost var above := WalkIn(parents, called0, repr - {this});
      ghost var own := Fresh(order, called);
      FreshNames(order, called);
      visited, called := EachOwn(top, visited, called, above);
      assert Elements(above + own) == Elements(above) + Elements(own);
    }

    /** The loop of eachShadow over the scope's own names. */
    method EachOwn(top: Scope<V>, visited0: seq<(string, V)>, called0: set<string>, ghost above: seq<string>)
      returns (visited: seq<(string, V)>, called: set<string>)
      requires Valid() && top.Valid() && bindings.Keys <= top.Visible()
      requires top.Shows(visited0, above)
      ensures top.Shows(visited, above + Fresh(order, called0))
      ensures called == called0 + Elements(order)
    {
      visited, called := visited0, called0;
      for i := 0 to |order|
        invariant top.Shows(visited, above + Fresh(order[..i], called0))
        invariant called == called0 + Elements(order[..i])
      {
        var k := order[i];
        FreshTurn(order, i, called0);
        if k in called {
          continue;
        }
        called := called + {k};
        assert k in Elements(order);
        top.VisibleIsFound(k);
        var v := top.Get(k);
        ghost var own := Fresh(order[..i], called0);
        top.ShowsOneMore(visited, above, own, k);
        visited := visited + [(k, v.value)];
      }
      assert order[..|order|] == order;
    }

    /** The loop of eachShadow over the parents. */
    static method EachParent(top: Scope<V>, ps: seq<Scope<V>>, called0: set<string>, ghost above: set<Scope<V>>)
      returns (visited: seq<(string, V)>, called: set<string>)
      requires top.Valid() && forall p :: p in ps ==> p in above && p.repr <= above && p.Valid()
      requires VisibleIn(ps, above) <= top.Visible()
      ensures top.Shows(visited, WalkIn(ps, called0, above))
      ensures called == called0 + Elements(WalkIn(ps, called0, above))
      decreases above, 1 + |ps|
    {
      visited, called := [], called0;
      if |ps| > 0 {
        ghost var first := ps[0].Walk(called0);
        visited, called := ps[0].EachShadow(top, called0);
        var more: seq<(string, V)>;
        ghost var rest := WalkIn(ps[1..], called, above);
        more, called := EachParent(top, ps[1..], called, above);
        top.ShowsInTurn(visited, first, more, rest);
        visited := visited + more;
        assert Elements(first + rest) == Elements(first) + Elements(rest);
      }
    }

    /** Each visits every symbol Get can find exactly once, with Get's value. */
    method Each() returns (visited: seq<(string, V)>)
      requires Valid()
      ensures Shows(visited, Walk({}))
      ensures NoDuplicates(Walk({})) && forall name :: name in Walk({}) <==> Get(name).Some?
    {
      var called: set<string>;
      visited, called := EachShadow(this, {});
      WalkVisits({});
      forall name
        ensures name in Walk({}) <==> Get(name).Some?
      {
        VisibleIsFound(name);
        assert name in Walk({}) <==> name in Elements(Walk({}));
      }
    }

    /** Setting each visited pair in a new scope. */
    static method FromVisits(visited: seq<(string, V)>, ghost names: seq<string>) returns (copied: Scope<V>)
      requires NoDuplicates(names) && |visited| == |names|
      requires forall i :: 0 <= i < |names| ==> visited[i].0 == names[i]
      ensures fresh(copied) && copied.Valid() && copied.parents == [] && copied.order == names
      ensures copied.repr == {copied}
      ensures forall i :: 0 <= i < |names| ==> names[i] in copied.bindings && copied.bindings[names[i]] == visited[i].1
    {
      copied := new Scope([]);
      for i := 0 to |visited|
        invariant fresh(copied) && copied.Valid() && copied.parents == [] && copied.repr == {copied}
        invariant copied.order == names[..i]
        invariant forall j :: 0 <= j < i ==> names[j] in copied.bindings && copied.bindings[names[j]] == visited[j].1
      {
        var (k, v) := visited[i];
        assert k in copied.bindings <==> k in Elements(copied.order);
        copied.Set(k, v);
      }
    }

    /** Copy: a scope without parents in which Get answers the same. */
    method Copy() returns (copied: Scope<V>)
      requires Valid()
      ensures fresh(copied) && copied.Valid() && copied.parents == []
      ensures copied.order == Walk({})
      ensures forall name :: copied.Get(name) == Get(name)
    {
      var visited := Each();
      ghost var names := Walk({});
      copied := FromVisits(visited, names);
      forall name
        ensures copied.Get(name) == Get(name)
      {
        assert name in copied.bindings <==> name in Elements(copied.order);
        if name in names {
          var j :| 0 <= j < |visited| && names[j] == name;
        }
      }
    }

    /** IsSubsetOf: every symbol found here is found there with an equal value. */
    method IsSubsetOf(other: Scope<V>, equal: (V, V) -> bool) returns (subset: bool)
      requires Valid() && other.Valid()
      ensures subset <==> forall name ::
                Get(name).Some? ==> other.Get(name).Some? && equal(Get(name).value, other.Get(name).value)
    {
      var visited := Each();
      for i := 0 to |visited|
        invariant forall j :: 0 <= j < i ==>
                    var name := Walk({})[j];
                    other.Get(name).Some? && equal(Get(name).value, other.Get(name).value)
      {
        var (k, v) := visited[i];
        var ov := other.Get(k);
        if ov.None? || !equal(v, ov.value) {
          assert Walk({})[i] == k && Get(k) == Some(v);
          assert !(other.Get(k).Some? && equal(Get(k).value, other.Get(k).value));
          return false;
        }
      }
      return true;
    }

    /** Equal: the same scope, or exactly the same symbols found with values that are equal
        either way round. */
    method Equal(other: Scope<V>, equal: (V, V) -> bool) returns (same: bool)
      requires Valid() && other.Valid()
      ensures same <==> other == this || forall name ::
                && (Get(name).Some? <==> other.Get(name).Some?)
                && (Get(name).Some? ==>
                      && equal(Get(name).value, other.Get(name).value)
                      && equal(other.Get(name).value, Get(name).value))
    {
      if other == this {
        return true;
      }
      same := IsSubsetOf(other, equal);
      if same {
        same := other.IsSubsetOf(this, equal);
      }
    }

    // ---- Complete

    /** The names Complete lists: the matching local ones in order, then what each parent
        lists and was not listed before. */
    ghost function CompleteNames(prefix: string): seq<string>
      requires Valid()
      reads this, repr
      decreases repr, 0
    {
      var local := LocalNames(bindings.Keys, prefix);
      local + CompleteIn(parents, prefix, Elements(local), repr - {this})
    }

    static ghost function CompleteIn(ps: seq<Scope<V>>, prefix: string, shadowed: set<string>,
          above: set<Scope<V>>): seq<string>
      requires forall p :: p in ps ==> p in above && p.repr <= above && p.Valid()
      reads above
      decreases above, 1 + |ps|
    {
      if ps == [] then []
      else
        var first := Fresh(ps[0].CompleteNames(prefix), shadowed);
        first + CompleteIn(ps[1..], prefix, shadowed + Elements(first), above)
    }

    /** Complete lists each matching visible symbol exactly once, the local ones first and in
        order of length, then spelling. */
    lemma {:induction false} CompleteListsVisible(prefix: string)
      requires Valid()
      ensures NoDuplicates(CompleteNames(prefix))
      ensures Elements(CompleteNames(prefix)) == Matching(Visible(), prefix)
      ensures var n := |LocalNames(bindings.Keys, prefix)|;
              && InOrder(CompleteNames(prefix)[..n], ShorterFirst)
              && forall i :: 0 <= i < |CompleteNames(prefix)| ==> (i < n <==> CompleteNames(prefix)[i] in bindings)
      decreases repr, 0
    {
      var local := LocalNames(bindings.Keys, prefix);
      var rest := CompleteIn(parents, prefix, Elements(local), repr - {this});
      CompleteInLists(parents, prefix, Elements(local), repr - {this});
      ShorterFirstIsStrictTotal();
      InOrderNoDuplicates(local, ShorterFirst);
      ConcatNames(local, rest);
      assert CompleteNames(prefix)[..|local|] == local;
      forall i | 0 <= i < |CompleteNames(prefix)|
        ensures i < |local| <==> CompleteNames(prefix)[i] in bindings
      {
        if i < |local| {
          assert local[i] in Elements(local);
        } else {
          assert rest[i - |local|] in Elements(rest);
        }
      }
    }

    static lemma {:induction false} CompleteInLists(ps: seq<Scope<V>>, prefix: string, shadowed: set<string>,
          above: set<Scope<V>>)
      requires forall p :: p in ps ==> p in above && p.repr <= above && p.Valid()
      ensures NoDuplicates(CompleteIn(ps, prefix, shadowed, above))
      ensures Elements(CompleteIn(ps, prefix, shadowed, above)) == Matching(VisibleIn(ps, above), prefix) - shadowed
      decreases above, 1 + |ps|
    {
      if ps != [] {
        var all := ps[0].CompleteNames(prefix);
        var first := Fresh(all, shadowed);
        ps[0].CompleteListsVisible(prefix);
        FreshNames(all, shadowed);
        CompleteInLists(ps[1..], prefix, shadowed + Elements(first), above);
        ConcatNames(first, CompleteIn(ps[1..], prefix, shadowed + Elements(first), above));
      }
    }

    /** Among the local names a shorter one never follows, and names of one length follow the
        alphabet. */
    lemma {:induction false} ShorterLocalsFirst(prefix: string)
      requires Valid()
      ensures forall i, j :: 0 <= i < j < |CompleteNames(prefix)| && CompleteNames(prefix)[j] in bindings ==>
                var a, b := CompleteNames(prefix)[i], CompleteNames(prefix)[j];
                && a in bindings
                && |a| <= |b|
                && (|a| == |b| ==> exists k :: 0 <= k < |a| && a[..k] == b[..k] && a[k] < b[k])
    {
      CompleteListsVisible(prefix);
      var names, n := CompleteNames(prefix), |LocalNames(bindings.Keys, prefix)|;
      forall i, j | 0 <= i < j < |names| && names[j] in bindings
        ensures names[i] in bindings && |names[i]| <= |names[j]|
        ensures |names[i]| == |names[j]| ==>
                  exists k :: 0 <= k < |names[i]| && names[i][..k] == names[j][..k] && names[i][k] < names[j][k]
      {
        assert ShorterFirst(names[..n][i], names[..n][j]);
        if |names[i]| == |names[j]| {
          SpelledDiffers(names[i], names[j]);
        }
      }
    }

    static lemma {:induction false} CompleteInByParent(ps: seq<Scope<V>>, prefix: string, shadowed: set<string>,
          above: set<Scope<V>>)
      requires forall p :: p in ps ==> p in above && p.repr <= above && p.Valid()
      ensures ByParent(ps, CompleteIn(ps, prefix, shadowed, above), above)
      decreases |ps|
    {
      if ps != [] {
        var all := ps[0].CompleteNames(prefix);
        var first := Fresh(all, shadowed);
        ps[0].CompleteListsVisible(prefix);
        FreshNames(all, shadowed);
        CompleteInByParent(ps[1..], prefix, shadowed + Elements(first), above);
        CompleteInLists(ps[1..], prefix, shadowed + Elements(first), above);
        OneMoreParent(ps, first, CompleteIn(ps[1..], prefix, shadowed + Elements(first), above), above);
      }
    }

    /** After the local names the parents' follow, parent by parent in order. */
    lemma {:induction false} CompleteOrder(prefix: string)
      requires Valid()
      ensures var names, n := CompleteNames(prefix), |LocalNames(bindings.Keys, prefix)|;
              n <= |names| && ByParent(parents, names[n..], repr - {this})
    {
      CompleteInByParent(parents, prefix, Elements(LocalNames(bindings.Keys, prefix)), repr - {this});
      var names, n := CompleteNames(prefix), |LocalNames(bindings.Keys, prefix)|;
      assert names[n..] == CompleteIn(parents, prefix, Elements(LocalNames(bindings.Keys, prefix)), repr - {this});
    }

    /** Complete.  The bindings are walked in any order; what is listed does not depend on it,
        and every symbol comes with the value Get returns. */
    method Complete(prefix: string) returns (opts: seq<(string, V)>)
      requires Valid()
      ensures Shows(opts, CompleteNames(prefix))
      decreases repr, 0
    {
      opts := [];
      var left := bindings.Keys;
      while left != {}
        invariant left <= bindings.Keys
        invariant LocalOpts(opts) && NoDuplicates(Names(opts))
        invariant Elements(Names(opts)) == Matching(bindings.Keys - left, prefix)
        decreases left
      {
        var name :| name in left;
        left := left - {name};
        if prefix <= name {
          NamesOneMore(opts, (name, bindings[name]));
          assert name !in Names(opts) by {
            assert name !in Elements(Names(opts));
          }
          opts := opts + [(name, bindings[name])];
        }
        assert bindings.Keys - left == (bindings.Keys - left - {name}) + {name};
      }
      ShorterFirstIsStrictTotal();
      opts := Sort(opts, ShorterFirst);
      ghost var local := LocalNames(bindings.Keys, prefix);
      assert Names(opts) == local by {
        OrderIsUnique(Names(opts), local, ShorterFirst);
      }
      assert Shows(opts, local) by {
        forall i | 0 <= i < |opts|
          ensures opts[i].0 == local[i] && Get(local[i]) == Some(opts[i].1)
        {
          assert opts[i] in opts && Names(opts)[i] == opts[i].0;
        }
      }
      forall name | prefix <= name && name !in local
        ensures Get(name) == Search(parents, name, repr - {this})
      {
        assert name !in Elements(local);
      }
      opts := CompleteParents(parents, prefix, opts, local, repr - {this});
    }

    /** Each listed name is bound here to the listed value. */
    ghost predicate LocalOpts(opts: seq<(string, V)>)
      reads this
    {
      forall o :: o in opts ==> o.0 in bindings && bindings[o.0] == o.1
    }

    /** The loop of Complete over the parents. */
    method CompleteParents(ps: seq<Scope<V>>, prefix: string, opts0: seq<(string, V)>, ghost names: seq<string>,
                           ghost above: set<Scope<V>>)
      returns (opts: seq<(string, V)>)
      requires Valid() && above < repr && forall p :: p in ps ==> p in above && p.repr <= above && p.Valid()
      requires Shows(opts0, names)
      requires forall name :: prefix <= name && name !in names ==> Get(name) == Search(ps, name, above)
      ensures Shows(opts, names + CompleteIn(ps, prefix, Elements(names), above))
      decreases above, 2 + |ps|
    {
      if |ps| == 0 {
        assert names + [] == names;
        return opts0;
      }
      ghost var first := Fresh(ps[0].CompleteNames(prefix), Elements(names));
      opts := FromParent(ps, prefix, opts0, names, above);
      opts := CompleteParents(ps[1..], prefix, opts, names + first, above);
      JoinRest(ps, prefix, names, above);
    }

    static lemma {:induction false} JoinRest(ps: seq<Scope<V>>, prefix: string, names: seq<string>,
          above: set<Scope<V>>)
      requires ps != [] && forall p :: p in ps ==> p in above && p.repr <= above && p.Valid()
      ensures var first := Fresh(ps[0].CompleteNames(prefix), Elements(names));
              names + first + CompleteIn(ps[1..], prefix, Elements(names + first), above)
              == names + CompleteIn(ps, prefix, Elements(names), above)
    {
      var first := Fresh(ps[0].CompleteNames(prefix), Elements(names));
      ElementsOfConcat(names, first);
      var rest := CompleteIn(ps[1..], prefix, Elements(names + first), above);
      assert (names + first) + rest == names + (first + rest);
    }

    /** What the first of the parents adds. */
    method FromParent(ps: seq<Scope<V>>, prefix: string, opts0: seq<(string, V)>, ghost names: seq<string>,
                      ghost above: set<Scope<V>>)
      returns (opts: seq<(string, V)>)
      requires Valid() && above < repr && ps != [] && forall p :: p in ps ==> p in above && p.repr <= above && p.Valid()
      requires Shows(opts0, names)
      requires forall name :: prefix <= name && name !in names ==> Get(name) == Search(ps, name, above)
      ensures Shows(opts, names + Fresh(ps[0].CompleteNames(prefix), Elements(names)))
      ensures forall name :: prefix <= name && name !in names + Fresh(ps[0].CompleteNames(prefix), Elements(names)) ==>
                Get(name) == Search(ps[1..], name, above)
      decreases above, 1
    {
      var popts := ps[0].Complete(prefix);
      ghost var all := ps[0].CompleteNames(prefix);
      ps[0].CompleteListsVisible(prefix);
      MatchingNames(all, ps[0].Visible(), prefix);
      opts := AddUnshadowed(ps, prefix, popts, opts0, names, all, above);
      NotShadowed(ps, prefix, names, all, above);
    }

    /** A name not listed so far is found by the remaining parents or not at all. */
    lemma {:induction false} NotShadowed(ps: seq<Scope<V>>, prefix: string, names: seq<string>, all: seq<string>,
          above: set<Scope<V>>)
      requires Valid() && ps != [] && forall p :: p in ps ==> p in above && p.repr <= above && p.Valid()
      requires forall name :: prefix <= name && name !in names ==> Get(name) == Search(ps, name, above)
      requires NoDuplicates(all) && Elements(all) == Matching(ps[0].Visible(), prefix)
      ensures forall name :: prefix <= name && name !in names + Fresh(all, Elements(names)) ==>
                Get(name) == Search(ps[1..], name, above)
    {
      var first := Fresh(all, Elements(names));
      FreshNames(all, Elements(names));
      forall name | prefix <= name && name !in names + first
        ensures Get(name) == Search(ps[1..], name, above)
      {
        ps[0].VisibleIsFound(name);
        assert name !in names && name !in first;
        assert name !in Elements(first) && name !in Elements(names);
        assert name !in Elements(all);
      }
    }

    /** The options of one parent that are not shadowed. */
    method AddUnshadowed(ghost ps: seq<Scope<V>>, prefix: string, popts: seq<(string, V)>, opts0: seq<(string, V)>,
                         ghost names: seq<string>, ghost all: seq<string>, ghost above: set<Scope<V>>)
      returns (opts: seq<(string, V)>)
      requires Valid() && ps != [] && forall p :: p in ps ==> p in above && p.repr <= above && p.Valid()
      requires Shows(opts0, names) && ps[0].Shows(popts, all) && NoDuplicates(all)
      requires forall name :: name in all ==> prefix <= name
      requires forall name :: prefix <= name && name !in names ==> Get(name) == Search(ps, name, above)
      ensures Shows(opts, names + Fresh(all, Elements(names)))
    {
      opts := opts0;
      var shadowed := set o | o in opts0 :: o.0;
      assert shadowed == Elements(names) by {
        ShownNames(opts0, names);
      }
      for i := 0 to |popts|
        invariant Shows(opts, names + Fresh(all[..i], Elements(names)))
        invariant shadowed == Elements(names) + Elements(all[..i])
      {
        var opt := popts[i];
        FreshTurn(all, i, Elements(names));
        assert all[i] == opt.0 && all[i] in all;
        if opt.0 in shadowed {
          continue;
        }
        assert opt.0 !in names by {
          assert opt.0 in names ==> opt.0 in Elements(names);
        }
        opts := opts + [opt];
        shadowed := shadowed + {opt.0};
      }
      assert all[..|all|] == all;
    }

    lemma {:induction false} ShownNames(opts: seq<(string, V)>, names: seq<string>)
      requires Valid() && Shows(opts, names)
      ensures (set o | o in opts :: o.0) == Elements(names)
    {
      forall x | x in Elements(names)
        ensures x in set o | o in opts :: o.0
      {
        var i :| 0 <= i < |names| && names[i] == x;
        assert opts[i] in opts;
      }
    }
  }

  ghost function Matching(names: set<string>, prefix: string): set<string> {
    set x | x in names && prefix <= x
  }

  /** The matching names in the order Complete lists local bindings. */
  ghost function LocalNames(names: set<string>, prefix: string): (r: seq<string>)
    ensures InOrder(r, ShorterFirst) && Elements(r) == Matching(names, prefix)
  {
    ShorterFirstIsStrictTotal();
    SortedNames(Matching(names, prefix), ShorterFirst)
  }

  lemma {:induction false} MatchingNames(all: seq<string>, names: set<string>, prefix: string)
    requires Elements(all) == Matching(names, prefix)
    ensures forall name :: name in all ==> prefix <= name
  {
    assert forall name :: name in all ==> name in Elements(all);
  }

  lemma {:induction false} FreshTurn(order: seq<string>, i: nat, called: set<string>)
    requires i < |order| && NoDuplicates(order)
    ensures Fresh(order[..i + 1], called) == Fresh(order[..i], called) + if order[i] in called then [] else [order[i]]
    ensures Elements(order[..i + 1]) == Elements(order[..i]) + {order[i]}
    ensures order[i] !in Elements(order[..i])
  {
    assert order[..i + 1][..i] == order[..i];
  }
}
