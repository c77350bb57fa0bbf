/** Which binding the evaluator's Scope.Get finds: the scope's own, or else what the first
    parent finds that finds anything. */
module ScopeLookup {
  import opened Values

  // ---- The path does not matter unless a scope is met again on it

  lemma {:induction false} PathIrrelevant(h: Heap, id: ScopeId, name: Symbol, path: set<ScopeId>, fewer: set<ScopeId>)
    requires fewer <= path && !Lookup(h, id, name, path).Diverges?
    ensures Lookup(h, id, name, fewer) == Lookup(h, id, name, path)
    decreases Ids(h) - path, 1, 0
  {
    if id < |h| && name !in h[id].bindings {
      Narrower(h, path, id);
      PathIrrelevantIn(h, h[id].parents, name, path + {id}, fewer + {id});
    }
  }

  lemma {:induction false} Narrower(h: Heap, path: set<ScopeId>, id: ScopeId)
    requires id < |h| && id !in path
    ensures Ids(h) - (path + {id}) < Ids(h) - path
  {
    assert id in Ids(h) - path && id !in Ids(h) - (path + {id});
  }

  lemma {:induction false} PathIrrelevantIn(h: Heap, ids: seq<ScopeId>, name: Symbol, path: set<ScopeId>,
        fewer: set<ScopeId>)
    requires fewer <= path && !LookupIn(h, ids, name, path).Diverges?
    ensures LookupIn(h, ids, name, fewer) == LookupIn(h, ids, name, path)
    decreases Ids(h) - path, 2, |ids|
  {
    if ids != [] {
      PathIrrelevant(h, ids[0], name, path, fewer);
      if Lookup(h, ids[0], name, path).Missing? {
        PathIrrelevantIn(h, ids[1..], name, path, fewer);
      }
    }
  }

  // ---- What is found

  /** The answer r for a scope that does not bind the name itself: what the first of the
      parents finds that finds anything. */
  ghost predicate FirstFound(h: Heap, parents: seq<ScopeId>, name: Symbol, r: LookupResult) {
    match r
    case Found(_) =>
      exists i :: 0 <= i < |parents| && Get(h, parents[i], name) == r
                  && forall j :: 0 <= j < i ==> Get(h, parents[j], name).Missing?
    case Missing => forall i :: 0 <= i < |parents| ==> Get(h, parents[i], name).Missing?
    case Diverges => false
  }

  /** An own binding is found, whatever the parents bind. */
  lemma {:induction false} OwnBindingWins(h: Heap, id: ScopeId, name: Symbol)
    requires id < |h| && name in h[id].bindings
    ensures Get(h, id, name) == Found(h[id].bindings[name])
  {
  }

  /** In any heap, cycles included, an answer to a name that the scope does not bind is what
      the first parent finds that finds anything; nothing is found when all parents miss. */
  lemma {:induction false} FirstParentWins(h: Heap, id: ScopeId, name: Symbol)
    requires id < |h| && name !in h[id].bindings && !Get(h, id, name).Diverges?
    ensures FirstFound(h, h[id].parents, name, Get(h, id, name))
  {
    var none: set<ScopeId> := {};
    assert none + {id} == {id};
    FirstOf(h, h[id].parents, name, {id});
  }

  lemma {:induction false} FirstOf(h: Heap, ids: seq<ScopeId>, name: Symbol, path: set<ScopeId>)
    requires !LookupIn(h, ids, name, path).Diverges?
    ensures FirstFound(h, ids, name, LookupIn(h, ids, name, path))
    decreases |ids|
  {
    if ids != [] {
      PathIrrelevant(h, ids[0], name, path, {});
      var first, r := Lookup(h, ids[0], name, path), LookupIn(h, ids, name, path);
      if first.Missing? {
        FirstOf(h, ids[1..], name, path);
        assert forall i :: 0 < i < |ids| ==> ids[i] == ids[1..][i - 1];
        if r.Found? {
          var i :| 0 <= i < |ids[1..]| && Get(h, ids[1..][i], name) == r
                   && forall j :: 0 <= j < i ==> Get(h, ids[1..][j], name).Missing?;
          assert Get(h, ids[i + 1], name) == r;
        }
      } else {
        assert Get(h, ids[0], name) == r;
      }
    }
  }

  // ---- Without cycles there is always an answer

  /** Every scope has a greater rank than its parents. */
  ghost predicate Ranked(h: Heap, ranks: seq<nat>) {
    && |ranks| == |h|
    && forall id, i :: 0 <= id < |h| && 0 <= i < |h[id].parents| && h[id].parents[i] < |h| ==>
         ranks[h[id].parents[i]] < ranks[id]
  }

  ghost predicate Acyclic(h: Heap) {
    exists ranks :: Ranked(h, ranks)
  }

  lemma {:induction false} RankedAnswers(h: Heap, ranks: seq<nat>, id: ScopeId, name: Symbol, path: set<ScopeId>)
    requires Ranked(h, ranks) && forall p :: p in path && p < |h| && id < |h| ==> ranks[id] < ranks[p]
    ensures !Lookup(h, id, name, path).Diverges?
    decreases Ids(h) - path, 1, 0
  {
    if id < |h| && name !in h[id].bindings {
      Narrower(h, path, id);
      RankedAnswersIn(h, ranks, id, 0, name, path + {id});
    }
  }

  lemma {:induction false} RankedAnswersIn(h: Heap, ranks: seq<nat>, id: ScopeId, i: nat, name: Symbol,
        path: set<ScopeId>)
    requires Ranked(h, ranks) && id < |h| && i <= |h[id].parents|
    requires forall p :: p in path && p < |h| ==> ranks[id] <= ranks[p]
    ensures !LookupIn(h, h[id].parents[i..], name, path).Diverges?
    decreases Ids(h) - path, 2, |h[id].parents| - i
  {
    var ids := h[id].parents[i..];
    if ids != [] {
      assert ids[1..] == h[id].parents[i + 1..];
      RankedAnswers(h, ranks, ids[0], name, path);
      RankedAnswersIn(h, ranks, id, i + 1, name, path);
    }
  }

  /** In an acyclic heap Get always answers, and as FirstParentWins says. */
  lemma {:induction false} AcyclicAnswers(h: Heap, id: ScopeId, name: Symbol)
    requires Acyclic(h) && id < |h|
    ensures if name in h[id].bindings then Get(h, id, name) == Found(h[id].bindings[name])
            else FirstFound(h, h[id].parents, name, Get(h, id, name))
  {
    var ranks :| Ranked(h, ranks);
    RankedAnswers(h, ranks, id, name, {});
    if name !in h[id].bindings {
      FirstParentWins(h, id, name);
    }
  }

  lemma {:induction false} FirstHasAnswer(h: Heap, parents: seq<ScopeId>, name: Symbol, r: LookupResult)
    requires parents != [] && Get(h, parents[0], name).Found? && FirstFound(h, parents, name, r)
    ensures r == Get(h, parents[0], name)
  {
    if r.Found? {
      var i :| 0 <= i < |parents| && Get(h, parents[i], name) == r
               && forall j :: 0 <= j < i ==> Get(h, parents[j], name).Missing?;
      assert i > 0 ==> Get(h, parents[0], name).Missing?;
    }
  }

  /** A scope with two parents that both bind b answers with the first parent's value. */
  lemma {:induction false} FirstOfTwoParents(h: Heap, id: ScopeId, first: Value, second: Value)
    requires |h| == 3 && id == 2 && h[2] == ScopeObject([0, 1], map[])
    requires h[0] == ScopeObject([], map["b" := first]) && h[1] == ScopeObject([], map["b" := second])
    ensures Get(h, id, "b") == Found(first)
  {
    assert Ranked(h, [0, 0, 1]);
    AcyclicAnswers(h, id, "b");
    OwnBindingWins(h, 0, "b");
    OwnBindingWins(h, 1, "b");
    assert "b" !in h[2].bindings && h[2].parents == [0, 1];
    FirstHasAnswer(h, [0, 1], "b", Get(h, 2, "b"));
  }
}
