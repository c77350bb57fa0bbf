/** The concurrent join of pkg/bass/across.go: a run is any interleaving of the events below. */
module Across {
  import opened Options

  // One producer goroutine per source, unbuffered channels, and a consumer whose select loop
  // changes shape as it runs.

  /** Where a producer is: asking its source, blocked sending what it got, or done, with its
      channel closed. */
  datatype Producer = Fetching | Offering | Closed

  /** Where the consumer is: between calls, filling the slots that never had a value, in the
      select loop, or told that the sources have ended. */
  datatype Consumer =
    | Idle
    | Filling(i: nat, updated: bool)
    | Selecting(live: seq<bool>, hasNew: bool, hasDefault: bool, exhausted: nat)
    | Ended

  /** received counts the values taken from each channel; history has, for every list
      returned, those counts when it was returned. */
  datatype State<V> = State(
    producers: seq<Producer>,
    received: seq<nat>,
    next: seq<Option<V>>,
    consumer: Consumer,
    lists: seq<seq<Option<V>>>,
    history: seq<seq<nat>>)

  datatype Event =
    | Fetch(i: nat)
    | CallNext
    | FillSkip
    | FillReceive
    | FillClosed
    | FillDone
    | SelectReceive(i: nat)
    | SelectClosed(i: nat)
    | SelectDefault

  function Init<V>(n: nat): State<V> {
    State(seq(n, _ => Fetching), seq(n, _ => 0), seq(n, _ => None), Idle, [], [])
  }

  predicate WellSized<V>(sources: seq<seq<V>>, s: State<V>) {
    && |s.producers| == |s.received| == |s.next| == |sources|
    && (s.consumer.Selecting? ==> |s.consumer.live| == |sources|)
  }

  /** Select sees case i as ready. */
  predicate CaseReady<V>(s: State<V>, i: nat)
    requires s.consumer.Selecting?
  {
    i < |s.consumer.live| && s.consumer.live[i] && i < |s.producers| && !s.producers[i].Fetching?
  }

  predicate Enabled<V>(sources: seq<seq<V>>, s: State<V>, e: Event)
    requires WellSized(sources, s)
  {
    match e
    case Fetch(i) => i < |sources| && s.producers[i].Fetching?
    case CallNext => s.consumer.Idle?
    case FillSkip => s.consumer.Filling? && s.consumer.i < |sources| && s.next[s.consumer.i].Some?
    case FillReceive =>
      && s.consumer.Filling? && s.consumer.i < |sources| && s.next[s.consumer.i].None?
      && CanReceive(sources, s, s.consumer.i)
    case FillClosed =>
      && s.consumer.Filling? && s.consumer.i < |sources| && s.next[s.consumer.i].None?
      && s.producers[s.consumer.i].Closed?
    case FillDone => s.consumer.Filling? && s.consumer.i >= |sources|
    case SelectReceive(i) => s.consumer.Selecting? && CaseReady(s, i) && CanReceive(sources, s, i)
    case SelectClosed(i) => s.consumer.Selecting? && CaseReady(s, i) && s.producers[i].Closed?
    case SelectDefault =>
      s.consumer.Selecting? && s.consumer.hasDefault && forall i :: 0 <= i < |sources| ==> !CaseReady(s, i)
  }

  predicate CanReceive<V>(sources: seq<seq<V>>, s: State<V>, i: nat)
    requires WellSized(sources, s) && i < |sources|
  {
    s.producers[i].Offering? && s.received[i] < |sources[i]|
  }

  /** Taking the value that producer i offers. */
  function Receive<V>(sources: seq<seq<V>>, s: State<V>, i: nat): State<V>
    requires WellSized(sources, s) && i < |sources| && CanReceive(sources, s, i)
  {
    s.(producers := s.producers[i := Fetching],
       received := s.received[i := s.received[i] + 1],
       next := s.next[i := Some(sources[i][s.received[i]])])
  }

  function Return<V>(s: State<V>): State<V> {
    s.(consumer := Idle, lists := s.lists + [s.next], history := s.history + [s.received])
  }

  function Apply<V>(sources: seq<seq<V>>, s: State<V>, e: Event): (s': State<V>)
    requires WellSized(sources, s) && Enabled(sources, s, e)
    ensures WellSized(sources, s')
  {
    match e
    case Fetch(i) =>
      s.(producers := s.producers[i := if s.received[i] < |sources[i]| then Offering else Closed])
    case CallNext => s.(consumer := if |sources| == 0 then Ended else Filling(0, false))
    case FillSkip => s.(consumer := Filling(s.consumer.i + 1, s.consumer.updated))
    case FillReceive => Receive(sources, s, s.consumer.i).(consumer := Filling(s.consumer.i + 1, true))
    case FillClosed => s.(consumer := Ended)
    case FillDone =>
      if s.consumer.updated then Return(s)
      else s.(consumer := Selecting(seq(|sources|, _ => true), false, true, 0))
    case SelectReceive(i) =>
      var r := Receive(sources, s, i);
      if s.consumer.hasDefault then
        r.(consumer := s.consumer.(live := s.consumer.live[i := false], hasNew := true))
      else Return(r)
    case SelectClosed(i) =>
      var exhausted := s.consumer.exhausted + 1;
      if exhausted == |sources| then s.(consumer := Ended)
      else s.(consumer := s.consumer.(live := s.consumer.live[i := false], exhausted := exhausted))
    case SelectDefault =>
      if s.consumer.hasNew then Return(s)
      else s.(consumer := s.consumer.(hasDefault := false))
  }

  /** The state after a sequence of events, or nothing if one of them was not enabled. */
  function Run<V>(sources: seq<seq<V>>, events: seq<Event>): (s: Option<State<V>>)
    ensures s.Some? ==> WellSized(sources, s.value)
    decreases |events|
  {
    if events == [] then Some(Init(|sources|))
    else
      var before := Run(sources, events[..|events| - 1]);
      var e := events[|events| - 1];
      if before.Some? && Enabled(sources, before.value, e) then Some(Apply(sources, before.value, e)) else None
  }

  // ---- The invariant

  /** The list of the last values at the given counts. */
  ghost function LastValues<V>(sources: seq<seq<V>>, counts: seq<nat>): seq<Option<V>>
    requires |counts| == |sources| && forall i :: 0 <= i < |counts| ==> counts[i] <= |sources[i]|
  {
    seq(|sources|, i requires 0 <= i < |sources| =>
      if counts[i] == 0 then None else Some(sources[i][counts[i] - 1]))
  }

  /** Each source moves on by at most one value, and some source does. */
  ghost predicate Advances(before: seq<nat>, after: seq<nat>) {
    && |before| == |after|
    && (forall i :: 0 <= i < |before| ==> before[i] <= after[i] <= before[i] + 1)
    && before != after
  }

  ghost predicate Counts<V>(sources: seq<seq<V>>, counts: seq<nat>) {
    |counts| == |sources| && forall i :: 0 <= i < |counts| ==> counts[i] <= |sources[i]|
  }

  /** The lists so far: the first has every source's first value, each shows the values at its
      counts, and the counts advance from one to the next. */
  ghost predicate GoodHistory<V>(sources: seq<seq<V>>, s: State<V>) {
    && |s.lists| == |s.history|
    && (forall j :: 0 <= j < |s.history| ==>
          Counts(sources, s.history[j]) && s.lists[j] == LastValues(sources, s.history[j]))
    && (forall j :: 0 <= j < |s.history| ==> Positive(s.history[j]))
    && (s.history != [] ==> sources != [] && forall i :: 0 <= i < |sources| ==> s.history[0][i] == 1)
    && (forall j :: 0 < j < |s.history| ==> Advances(s.history[j - 1], s.history[j]))
  }

  ghost predicate Positive(counts: seq<nat>) {
    forall i :: 0 <= i < |counts| ==> counts[i] > 0
  }

  ghost function LastCounts<V>(s: State<V>): seq<nat>
    requires s.history != []
  {
    s.history[|s.history| - 1]
  }

  /** How many sources the select loop of this call has found closed. */
  function DeadCases(live: seq<bool>, before: seq<nat>, now: seq<nat>): nat
    requires |live| == |before| == |now|
  {
    if |live| == 0 then 0
    else
      DeadCases(live[..|live| - 1], before[..|live| - 1], now[..|live| - 1])
      + if !live[|live| - 1] && before[|live| - 1] == now[|live| - 1] then 1 else 0
  }

  ghost predicate GoodConsumer<V>(sources: seq<seq<V>>, s: State<V>)
    requires WellSized(sources, s)
  {
    match s.consumer
    case Idle =>
      if s.history != [] then s.received == LastCounts(s)
      else forall i :: 0 <= i < |sources| ==> s.received[i] == 0
    case Filling(k, updated) =>
      && k <= |sources| && |sources| > 0
      && (if s.history != [] then !updated && s.received == LastCounts(s)
          else
            && (updated <==> k > 0)
            && forall i :: 0 <= i < |sources| ==> s.received[i] == if i < k then 1 else 0)
    case Selecting(live, hasNew, hasDefault, exhausted) =>
      && s.history != [] && |sources| > 0
      && |LastCounts(s)| == |sources|
      && (forall i :: 0 <= i < |sources| ==> MidSelect(s, i))
      && (hasNew <==> s.received != LastCounts(s))
      && (!hasDefault ==> !hasNew)
      && exhausted == DeadCases(live, LastCounts(s), s.received) < |sources|
    case Ended =>
      || (|sources| == 0 && s.history == [])
      || (s.history == [] && exists i :: 0 <= i < |sources| && sources[i] == [])
      || (s.history != [] && s.received == LastCounts(s) && forall i :: 0 <= i < |sources| ==> s.producers[i].Closed?)
  }

  /** A case the loop has disabled had a value taken in this call or has run dry. */
  ghost predicate MidSelect<V>(s: State<V>, i: nat)
    requires s.consumer.Selecting? && s.history != []
    requires i < |s.consumer.live| == |s.received| == |LastCounts(s)| == |s.producers|
  {
    && LastCounts(s)[i] <= s.received[i] <= LastCounts(s)[i] + 1
    && (s.consumer.live[i] ==> s.received[i] == LastCounts(s)[i])
    && (!s.consumer.live[i] && s.received[i] == LastCounts(s)[i] ==> s.producers[i].Closed?)
  }

  ghost predicate GoodProducers<V>(sources: seq<seq<V>>, s: State<V>)
    requires WellSized(sources, s)
  {
    && Counts(sources, s.received)
    && s.next == LastValues(sources, s.received)
    && forall i :: 0 <= i < |sources| ==>
         && (s.producers[i].Offering? ==> s.received[i] < |sources[i]|)
         && (s.producers[i].Closed? ==> s.received[i] == |sources[i]|)
  }

  ghost predicate Inv<V>(sources: seq<seq<V>>, s: State<V>) {
    WellSized(sources, s) && GoodProducers(sources, s) && GoodHistory(sources, s) && GoodConsumer(sources, s)
  }

  lemma {:induction false} InitInv<V>(sources: seq<seq<V>>)
    ensures Inv(sources, Init<V>(|sources|))
  {
  }

  lemma {:induction false} DeadCasesBound(live: seq<bool>, before: seq<nat>, now: seq<nat>)
    requires |live| == |before| == |now|
    ensures DeadCases(live, before, now) <= |live|
    ensures DeadCases(live, before, now) == |live| <==> forall i :: 0 <= i < |live| ==> !live[i] && before[i] == now[i]
    ensures DeadCases(live, before, now) == 0 <==> forall i :: 0 <= i < |live| ==> live[i] || before[i] != now[i]
  {
    if |live| > 0 {
      DeadCasesBound(live[..|live| - 1], before[..|live| - 1], now[..|live| - 1]);
    }
  }

  /** Disabling a live case adds one to the count if it ran dry and nothing if it gave a value. */
  lemma {:induction false} DeadCasesUpdate(live: seq<bool>, before: seq<nat>, now: seq<nat>, i: nat, n: nat)
    requires i < |live| == |before| == |now| && live[i] && before[i] == now[i]
    requires n == now[i] || n == now[i] + 1
    ensures DeadCases(live[i := false], before, now[i := n])
         == DeadCases(live, before, now) + if n == now[i] then 1 else 0
  {
    var m := |live| - 1;
    if i < m {
      assert live[i := false][..m] == live[..m][i := false];
      assert now[i := n][..m] == now[..m][i := n];
      DeadCasesUpdate(live[..m], before[..m], now[..m], i, n);
    } else {
      assert live[i := false][..m] == live[..m];
      assert now[i := n][..m] == now[..m];
    }
  }

  lemma {:induction false} ReceiveKeepsProducers<V>(sources: seq<seq<V>>, s: State<V>, i: nat)
    requires Inv(sources, s) && i < |sources| && CanReceive(sources, s, i)
    ensures GoodProducers(sources, Receive(sources, s, i))
  {
  }

  lemma {:induction false} ReturnKeepsHistory<V>(sources: seq<seq<V>>, s: State<V>)
    requires WellSized(sources, s) && GoodProducers(sources, s) && GoodHistory(sources, s)
    requires sources != []
    requires if s.history == [] then forall i :: 0 <= i < |sources| ==> s.received[i] == 1
             else Advances(LastCounts(s), s.received)
    ensures GoodHistory(sources, Return(s))
    ensures GoodConsumer(sources, Return(s))
  {
  }

  lemma {:induction false} StepInv<V>(sources: seq<seq<V>>, s: State<V>, e: Event)
    requires Inv(sources, s) && Enabled(sources, s, e)
    ensures Inv(sources, Apply(sources, s, e))
  {
    match e
    case Fetch(i) => FetchInv(sources, s, i);
    case FillSkip => FillInv(sources, s, e);
    case FillReceive => FillInv(sources, s, e);
    case FillClosed => FillInv(sources, s, e);
    case FillDone =>
      if s.consumer.updated {
        ReturnKeepsHistory(sources, s);
      } else {
        DeadCasesBound(seq(|sources|, _ => true), LastCounts(s), s.received);
      }
    case SelectReceive(i) => SelectReceiveInv(sources, s, i);
    case SelectClosed(i) => SelectClosedInv(sources, s, i);
    case SelectDefault =>
      if s.consumer.hasNew {
        CallAdvances(sources, s);
        ReturnKeepsHistory(sources, s);
      } else {
        assert forall j :: 0 <= j < |sources| ==> MidSelect(s, j) ==> MidSelect(Apply(sources, s, e), j);
      }
    case _ =>
  }

  lemma {:induction false} FetchInv<V>(sources: seq<seq<V>>, s: State<V>, i: nat)
    requires Inv(sources, s) && Enabled(sources, s, Fetch(i))
    ensures Inv(sources, Apply(sources, s, Fetch(i)))
  {
    var s' := Apply(sources, s, Fetch(i));
    if s.consumer.Selecting? {
      forall j | 0 <= j < |sources|
        ensures MidSelect(s', j)
      {
        assert MidSelect(s, j);
      }
    }
  }

  lemma {:induction false} FillInv<V>(sources: seq<seq<V>>, s: State<V>, e: Event)
    requires Inv(sources, s) && Enabled(sources, s, e)
    requires e.FillSkip? || e.FillReceive? || e.FillClosed?
    ensures Inv(sources, Apply(sources, s, e))
  {
    var k := s.consumer.i;
    assert s.next[k] == LastValues(sources, s.received)[k];
    if s.history != [] {
      assert Positive(LastCounts(s));
    }
    if e.FillReceive? {
      ReceiveKeepsProducers(sources, s, k);
    }
  }

  lemma {:induction false} CallAdvances<V>(sources: seq<seq<V>>, s: State<V>)
    requires Inv(sources, s) && s.consumer.Selecting? && s.received != LastCounts(s)
    ensures Advances(LastCounts(s), s.received)
  {
    forall i | 0 <= i < |sources|
      ensures LastCounts(s)[i] <= s.received[i] <= LastCounts(s)[i] + 1
    {
      assert MidSelect(s, i);
    }
  }

  lemma {:induction false} SelectReceiveInv<V>(sources: seq<seq<V>>, s: State<V>, i: nat)
    requires Inv(sources, s) && Enabled(sources, s, SelectReceive(i))
    ensures Inv(sources, Apply(sources, s, SelectReceive(i)))
  {
    ReceiveKeepsProducers(sources, s, i);
    var r, last := Receive(sources, s, i), LastCounts(s);
    assert MidSelect(s, i);
    assert r.received[i] != last[i];
    if s.consumer.hasDefault {
      SelectKeepsCases(sources, s, i);
    } else {
      assert Advances(last, r.received);
      ReturnKeepsHistory(sources, r);
    }
  }

  lemma {:induction false} SelectKeepsCases<V>(sources: seq<seq<V>>, s: State<V>, i: nat)
    requires Inv(sources, s) && Enabled(sources, s, SelectReceive(i)) && s.consumer.hasDefault
    ensures GoodConsumer(sources, Apply(sources, s, SelectReceive(i)))
  {
    var last, s' := LastCounts(s), Apply(sources, s, SelectReceive(i));
    assert LastCounts(s') == last;
    assert MidSelect(s, i);
    DeadCasesUpdate(s.consumer.live, last, s.received, i, s.received[i] + 1);
    assert s'.received[i] != last[i];
    forall j | 0 <= j < |sources|
      ensures MidSelect(s', j)
    {
      assert MidSelect(s, j);
    }
  }

  lemma {:induction false} SelectClosedInv<V>(sources: seq<seq<V>>, s: State<V>, i: nat)
    requires Inv(sources, s) && Enabled(sources, s, SelectClosed(i))
    ensures Inv(sources, Apply(sources, s, SelectClosed(i)))
  {
    ClosedCase(sources, s, i);
    var s' := Apply(sources, s, SelectClosed(i));
    if s'.consumer.Selecting? {
      forall j | 0 <= j < |sources|
        ensures MidSelect(s', j)
      {
        assert MidSelect(s, j);
      }
    } else {
      AllClosed(sources, s, i);
    }
  }

  lemma {:induction false} ClosedCase<V>(sources: seq<seq<V>>, s: State<V>, i: nat)
    requires Inv(sources, s) && Enabled(sources, s, SelectClosed(i))
    ensures DeadCases(s.consumer.live[i := false], LastCounts(s), s.received) == s.consumer.exhausted + 1
  {
    assert MidSelect(s, i);
    DeadCasesUpdate(s.consumer.live, LastCounts(s), s.received, i, s.received[i]);
    assert s.received[i := s.received[i]] == s.received;
  }

  lemma {:induction false} AllClosed<V>(sources: seq<seq<V>>, s: State<V>, i: nat)
    requires Inv(sources, s) && Enabled(sources, s, SelectClosed(i)) && s.consumer.exhausted + 1 == |sources|
    ensures s.received == LastCounts(s)
    ensures forall j :: 0 <= j < |sources| ==> s.producers[j].Closed?
  {
    var last, live' := LastCounts(s), s.consumer.live[i := false];
    ClosedCase(sources, s, i);
    DeadCasesBound(live', last, s.received);
    forall j | 0 <= j < |sources|
      ensures s.producers[j].Closed? && s.received[j] == last[j]
    {
      assert MidSelect(s, j);
      assert !live'[j] && last[j] == s.received[j];
    }
  }

  lemma {:induction false} RunInv<V>(sources: seq<seq<V>>, events: seq<Event>)
    requires Run(sources, events).Some?
    ensures Inv(sources, Run(sources, events).value)
    decreases |events|
  {
    if events == [] {
      InitInv(sources);
    } else {
      RunInv(sources, events[..|events| - 1]);
      StepInv(sources, Run(sources, events[..|events| - 1]).value, events[|events| - 1]);
    }
  }

  // ---- The contract

  /** For every schedule: each list holds the latest received value of every source, the first
      list has every source's first value, and from one list to the next each source moves on
      by at most one value and some source does, so no value is skipped or reordered. */
  lemma {:induction false} NothingSkipped<V>(sources: seq<seq<V>>, events: seq<Event>)
    requires Run(sources, events).Some?
    ensures var s := Run(sources, events).value;
            && |s.lists| == |s.history|
            && (forall j :: 0 <= j < |s.lists| ==>
                  Counts(sources, s.history[j]) && s.lists[j] == LastValues(sources, s.history[j]))
            && (s.lists != [] ==> s.history[0] == seq(|sources|, _ => 1))
            && (forall j :: 0 < j < |s.lists| ==> Advances(s.history[j - 1], s.history[j]))
  {
    RunInv(sources, events);
    var s := Run(sources, events).value;
    if s.lists != [] {
      assert s.history[0] == seq(|sources|, _ => 1);
    }
  }

  // ---- A call collects what is ready

  /** The call that entered its select loop in s0 has not returned a list yet.  A source that
      offered a value then still does or has had it taken; once the loop blocks, there was
      none. */
  ghost predicate StillCollecting<V>(s0: State<V>, s: State<V>) {
    && |s.history| == |s0.history|
    && (s.consumer.Selecting? ==>
          forall i :: 0 <= i < |s0.producers| && s0.producers[i].Offering? ==>
            s.consumer.hasDefault && CollectedOrReady(s0, s, i))
  }

  ghost predicate CollectedOrReady<V>(s0: State<V>, s: State<V>, i: nat) {
    && i < |s.received| == |s0.received| && s.consumer.Selecting? && i < |s.consumer.live| == |s.producers|
    && (s.received[i] == s0.received[i] + 1 || (s.consumer.live[i] && s.producers[i].Offering?))
  }

  /** The list that the call returned shows a new value of every source that offered one. */
  ghost predicate CollectedReady<V>(s0: State<V>, s: State<V>) {
    && |s0.history| < |s.history| && |s.history[|s0.history|]| == |s0.received| == |s0.producers|
    && forall i :: 0 <= i < |s0.producers| && s0.producers[i].Offering? ==>
         s.history[|s0.history|][i] == s0.received[i] + 1
  }

  /** Where a call enters its select loop: nothing has been taken yet in this call. */
  ghost predicate EntersSelect<V>(sources: seq<seq<V>>, s0: State<V>) {
    && Inv(sources, s0)
    && s0.consumer == Selecting(seq(|sources|, _ => true), false, true, 0)
  }

  lemma {:induction false} CollectingStep<V>(sources: seq<seq<V>>, s0: State<V>, s: State<V>, e: Event)
    requires EntersSelect(sources, s0) && Inv(sources, s) && Enabled(sources, s, e)
    requires s.consumer.Selecting? || s.consumer.Ended?
    requires StillCollecting(s0, s) && s.history == s0.history
    ensures var s' := Apply(sources, s, e);
            if s'.history == s0.history then
              StillCollecting(s0, s') && (s'.consumer.Selecting? || s'.consumer.Ended?)
            else CollectedReady(s0, s')
  {
    if s.consumer.Selecting? {
      if e.SelectDefault? {
        CollectingDefault(sources, s0, s);
      } else {
        var s' := Apply(sources, s, e);
        assert forall i :: 0 <= i < |sources| ==> MidSelect(s, i);
        if s'.consumer.Selecting? {
          forall i | 0 <= i < |s0.producers| && s0.producers[i].Offering?
            ensures s'.consumer.hasDefault && CollectedOrReady(s0, s', i)
          {
            EnteredAtLast(sources, s0);
            assert CollectedOrReady(s0, s, i) && MidSelect(s, i) && LastCounts(s) == s0.received;
          }
        }
      }
    }
  }

  lemma {:induction false} EnteredAtLast<V>(sources: seq<seq<V>>, s0: State<V>)
    requires EntersSelect(sources, s0)
    ensures s0.received == LastCounts(s0)
  {
    assert forall i :: 0 <= i < |sources| ==> MidSelect(s0, i);
  }

  /** The default case is chosen only when no case is ready: then all that was ready on entry
      has been taken. */
  lemma {:induction false} CollectingDefault<V>(sources: seq<seq<V>>, s0: State<V>, s: State<V>)
    requires EntersSelect(sources, s0) && Inv(sources, s) && Enabled(sources, s, SelectDefault)
    requires StillCollecting(s0, s) && s.history == s0.history
    ensures var s' := Apply(sources, s, SelectDefault);
            if s.consumer.hasNew then CollectedReady(s0, s')
            else StillCollecting(s0, s') && s'.consumer.Selecting? && s'.history == s0.history
  {
    EnteredAtLast(sources, s0);
    forall i | 0 <= i < |s0.producers| && s0.producers[i].Offering?
      ensures s.consumer.hasNew && s.received[i] == s0.received[i] + 1
    {
      assert CollectedOrReady(s0, s, i) && !CaseReady(s, i);
    }
  }

  /** Every call after the first list collects from each source that has a value ready when the
      call enters its select loop, before it returns: in the list it returns, such a source has
      moved on by one. */
  lemma {:induction false} ReadySourcesAdvance<V>(sources: seq<seq<V>>, before: seq<Event>, after: seq<Event>)
    requires before != [] && before[|before| - 1] == FillDone && Run(sources, before + after).Some?
    ensures Run(sources, before).Some?
    ensures var s0, s := Run(sources, before).value, Run(sources, before + after).value;
            s0.consumer.Selecting? && |s.history| > |s0.history| ==>
              && s0.history != [] && s0.received == LastCounts(s0)
              && CollectedReady(s0, s)
  {
    RunSplits(sources, before, after);
    RunInv(sources, before);
    var s0 := Run(sources, before).value;
    if s0.consumer.Selecting? {
      assert EntersSelect(sources, s0);
      assert s0.received == LastCounts(s0) by {
        assert forall i :: 0 <= i < |sources| ==> MidSelect(s0, i);
      }
      Collects(sources, before, after);
    }
  }

  lemma {:induction false} RunSplits<V>(sources: seq<seq<V>>, before: seq<Event>, after: seq<Event>)
    requires Run(sources, before + after).Some?
    ensures Run(sources, before).Some?
    decreases |after|
  {
    if after == [] {
      assert before + after == before;
    } else {
      assert (before + after)[..|before + after| - 1] == before + after[..|after| - 1];
      RunSplits(sources, before, after[..|after| - 1]);
    }
  }

  lemma {:induction false} Collects<V>(sources: seq<seq<V>>, before: seq<Event>, after: seq<Event>)
    requires Run(sources, before).Some? && EntersSelect(sources, Run(sources, before).value)
    requires Run(sources, before + after).Some?
    ensures var s0, s := Run(sources, before).value, Run(sources, before + after).value;
            if s.history == s0.history then StillCollecting(s0, s) && (s.consumer.Selecting? || s.consumer.Ended?)
            else CollectedReady(s0, s)
    decreases |after|
  {
    var s0 := Run(sources, before).value;
    if after == [] {
      assert before + after == before;
    } else {
      var init := after[..|after| - 1];
      assert (before + after)[..|before + after| - 1] == before + init;
      Collects(sources, before, init);
      RunInv(sources, before + init);
      CollectsOneMore(sources, s0, Run(sources, before + init).value, after[|after| - 1]);
    }
  }

  lemma {:induction false} CollectsOneMore<V>(sources: seq<seq<V>>, s0: State<V>, s: State<V>, e: Event)
    requires EntersSelect(sources, s0) && Inv(sources, s) && Enabled(sources, s, e)
    requires if s.history == s0.history then StillCollecting(s0, s) && (s.consumer.Selecting? || s.consumer.Ended?)
             else CollectedReady(s0, s)
    ensures var s' := Apply(sources, s, e);
            if s'.history == s0.history then StillCollecting(s0, s') && (s'.consumer.Selecting? || s'.consumer.Ended?)
            else CollectedReady(s0, s')
  {
    if s.history == s0.history {
      CollectingStep(sources, s0, s, e);
    } else {
      assert s.history <= Apply(sources, s, e).history;
    }
  }

  /** In particular both values are collected when both producers are ready: the second list of
      sources [0 2] and [1 3] is then [2 3], whichever case the loop takes first. */
  lemma {:induction false} BothReadyBothCollected(before: seq<Event>, after: seq<Event>)
    requires before != [] && before[|before| - 1] == FillDone
    requires Run([[0, 2], [1, 3]], before + after).Some? && Run([[0, 2], [1, 3]], before).Some?
    requires var s0 := Run([[0, 2], [1, 3]], before).value;
             && s0.consumer.Selecting? && s0.history == [[1, 1]]
             && s0.producers == [Offering, Offering]
    ensures var s := Run([[0, 2], [1, 3]], before + after).value;
            |s.lists| > 1 ==> s.lists[1] == [Some(2), Some(3)]
  {
    var sources := [[0, 2], [1, 3]];
    ReadySourcesAdvance(sources, before, after);
    NothingSkipped(sources, before + after);
    var s0, s := Run(sources, before).value, Run(sources, before + after).value;
    if |s.lists| > 1 {
      assert s0.producers[0].Offering? && s0.producers[1].Offering?;
      assert s.history[1] == [2, 2];
    }
  }

  /** Source i's value number p (from 0) was last in some list. */
  ghost predicate Shown<V>(s: State<V>, i: nat, p: nat) {
    exists j :: 0 <= j < |s.history| && i < |s.history[j]| && s.history[j][i] == p + 1
  }

  /** Up to the counts of list j, every value has been shown. */
  lemma {:induction false} ShownUpTo<V>(sources: seq<seq<V>>, s: State<V>, j: nat, i: nat, p: nat)
    requires Inv(sources, s) && j < |s.history| && i < |sources| && p < s.history[j][i]
    ensures Shown(s, i, p)
  {
    if j > 0 && p < s.history[j - 1][i] {
      ShownUpTo(sources, s, j - 1, i, p);
    } else if j > 0 {
      assert Advances(s.history[j - 1], s.history[j]);
      assert s.history[j][i] == p + 1;
    }
  }

  /** End-of-source is reported only once everything was shown - or at once, without any
      list, when there are no sources or one of them is empty. */
  lemma {:induction false} EndAfterEverything<V>(sources: seq<seq<V>>, events: seq<Event>)
    requires Run(sources, events).Some? && Run(sources, events).value.consumer.Ended?
    ensures var s := Run(sources, events).value;
            && (s.lists == [] <==> sources == [] || exists i :: 0 <= i < |sources| && sources[i] == [])
            && (s.lists != [] ==> forall i, p :: 0 <= i < |sources| && 0 <= p < |sources[i]| ==> Shown(s, i, p))
  {
    RunInv(sources, events);
    var s := Run(sources, events).value;
    if s.lists != [] {
      var last := |s.history| - 1;
      assert Positive(s.history[0]);
      forall i, p | 0 <= i < |sources| && 0 <= p < |sources[i]|
        ensures Shown(s, i, p)
      {
        ShownUpTo(sources, s, last, i, p);
      }
      forall i | 0 <= i < |sources|
        ensures sources[i] != []
      {
        assert s.history[0][i] == 1;
      }
    }
  }

  /** An empty source ends the join at once: here before the value of the other is shown. */
  lemma {:induction false} EmptySourceEndsAtOnce(sources: seq<seq<int>>)
    requires sources == [[], [1]]
    ensures var run := Run(sources, [Fetch(0), CallNext, FillClosed]);
            run.Some? && run.value.consumer.Ended? && run.value.lists == [] && run.value.received == [0, 0]
  {
    var first, second, third := [Fetch(0)], [Fetch(0), CallNext], [Fetch(0), CallNext, FillClosed];
    assert third[..2] == second && second[..1] == first && first[..0] == [];
    assert Run(sources, first).Some? && Run(sources, first).value.producers[0].Closed?;
    assert Run(sources, second).Some? && Run(sources, second).value.consumer == Filling(0, false);
  }

  function Sum(counts: seq<nat>): nat {
    if counts == [] then 0 else Sum(counts[..|counts| - 1]) + counts[|counts| - 1]
  }

  lemma {:induction false} SumGrows(before: seq<nat>, after: seq<nat>)
    requires |before| == |after| && forall i :: 0 <= i < |before| ==> before[i] <= after[i]
    ensures Sum(before) <= Sum(after)
    ensures before != after ==> Sum(before) < Sum(after)
  {
    if before != [] {
      var m := |before| - 1;
      SumGrows(before[..m], after[..m]);
      if before != after && before[m] == after[m] {
        assert before == before[..m] + [before[m]] && after == after[..m] + [after[m]];
      }
    }
  }

  lemma {:induction false} HistoryBounds<V>(sources: seq<seq<V>>, s: State<V>, j: nat)
    requires Inv(sources, s) && j < |s.history|
    ensures forall i :: 0 <= i < |sources| ==> s.history[j][i] <= j + 1
    ensures Sum(s.history[0]) + j <= Sum(s.history[j])
  {
    if j > 0 {
      HistoryBounds(sources, s, j - 1);
      assert Advances(s.history[j - 1], s.history[j]);
      SumGrows(s.history[j - 1], s.history[j]);
    }
  }

  ghost function Lengths<V>(sources: seq<seq<V>>): seq<nat> {
    seq(|sources|, i requires 0 <= i < |sources| => |sources[i]|)
  }

  lemma {:induction false} SumOfOnes(n: nat)
    ensures Sum(seq(n, _ => 1)) == n
  {
    if n > 0 {
      SumOfOnes(n - 1);
      assert seq(n, _ => 1)[..n - 1] == seq(n - 1, _ => 1);
    }
  }

  /** The number of lists a finished join of non-empty sources returned: at least the length
      of the longest source and at most one plus the sum of (length - 1). */
  lemma {:induction false} NumberOfLists<V>(sources: seq<seq<V>>, events: seq<Event>)
    requires Run(sources, events).Some? && Run(sources, events).value.consumer.Ended?
    requires Run(sources, events).value.lists != []
    ensures var count := |Run(sources, events).value.lists|;
            && (forall i :: 0 <= i < |sources| ==> |sources[i]| <= count)
            && count <= 1 + Sum(Lengths(sources)) - |sources|
  {
    RunInv(sources, events);
    NothingSkipped(sources, events);
    var s := Run(sources, events).value;
    var last := |s.history| - 1;
    HistoryBounds(sources, s, last);
    SumOfOnes(|sources|);
    assert s.history[last] == Lengths(sources);
  }

  // ---- Progress

  /** Nothing is ever stuck: until the end is reported some event can happen. */
  lemma {:induction false} NeverStuck<V>(sources: seq<seq<V>>, s: State<V>) returns (e: Event)
    requires Inv(sources, s) && !s.consumer.Ended?
    ensures Enabled(sources, s, e)
  {
    match s.consumer
    case Idle =>
      e := CallNext;
    case Filling(k, _) =>
      if k >= |sources| {
        e := FillDone;
      } else if s.next[k].Some? {
        e := FillSkip;
      } else {
        match s.producers[k]
        case Fetching => e := Fetch(k);
        case Offering => e := FillReceive;
        case Closed => e := FillClosed;
      }
    case Selecting(live, hasNew, hasDefault, _) =>
      if i: nat :| i < |sources| && CaseReady(s, i) {
        assert MidSelect(s, i);
        e := if s.producers[i].Closed? then SelectClosed(i) else SelectReceive(i);
      } else if hasDefault {
        e := SelectDefault;
      } else {
        DeadCasesBound(live, LastCounts(s), s.received);
        var i: nat :| i < |sources| && !(!live[i] && LastCounts(s)[i] == s.received[i]);
        assert !CaseReady(s, i);
        e := Fetch(i);
      }
  }

  // How far the consumer is from its next return, or, once it has something to return, from
  // the end of the call after that.

  function LiveCases(live: seq<bool>): nat {
    if live == [] then 0 else LiveCases(live[..|live| - 1]) + if live[|live| - 1] then 1 else 0
  }

  function Busy(producers: seq<Producer>): nat {
    if producers == [] then 0
    else
      Busy(producers[..|producers| - 1]) + if producers[|producers| - 1].Fetching? then 1 else 0
  }

  /** An upper bound on the events of one call, not counting the producers'. */
  function CallLength(n: nat): nat {
    2 * n + 5
  }

  function ConsumerMeasure(c: Consumer, n: nat): nat {
    match c
    case Ended => 0
    case Idle => CallLength(n)
    case Filling(k, updated) => (if k <= n then n - k else 0) + n + 3 + if updated then CallLength(n) else 0
    case Selecting(live, hasNew, hasDefault, _) =>
      LiveCases(live) + (if hasDefault then 1 else 0) + 1 + if hasNew then CallLength(n) else 0
  }

  function Remaining<V>(sources: seq<seq<V>>, received: seq<nat>): nat
    requires |received| == |sources| && forall i :: 0 <= i < |received| ==> received[i] <= |sources[i]|
  {
    if sources == [] then 0
    else
      var m := |sources| - 1;
      Remaining(sources[..m], received[..m]) + |sources[m]| - received[m]
  }

  function Measure<V>(sources: seq<seq<V>>, s: State<V>): nat
    requires WellSized(sources, s) && forall i :: 0 <= i < |s.received| ==> s.received[i] <= |sources[i]|
  {
    (CallLength(|sources|) + 2) * Remaining(sources, s.received) + Busy(s.producers)
    + ConsumerMeasure(s.consumer, |sources|)
  }

  lemma {:induction false} LiveCasesUpdate(live: seq<bool>, i: nat)
    requires i < |live| && live[i]
    ensures LiveCases(live[i := false]) == LiveCases(live) - 1
  {
    var m := |live| - 1;
    if i < m {
      assert live[i := false][..m] == live[..m][i := false];
      LiveCasesUpdate(live[..m], i);
    } else {
      assert live[i := false][..m] == live[..m];
    }
  }

  lemma {:induction false} LiveCasesBound(live: seq<bool>)
    ensures LiveCases(live) <= |live|
  {
    if live != [] {
      LiveCasesBound(live[..|live| - 1]);
    }
  }

  lemma {:induction false} BusyUpdate(producers: seq<Producer>, i: nat, p: Producer)
    requires i < |producers|
    ensures Busy(producers[i := p])
         == Busy(producers) - (if producers[i].Fetching? then 1 else 0) + if p.Fetching? then 1 else 0
  {
    var m := |producers| - 1;
    if i < m {
      assert producers[i := p][..m] == producers[..m][i := p];
      BusyUpdate(producers[..m], i, p);
    } else {
      assert producers[i := p][..m] == producers[..m];
    }
  }

  lemma {:induction false} RemainingUpdate<V>(sources: seq<seq<V>>, received: seq<nat>, i: nat)
    requires |received| == |sources| && forall i :: 0 <= i < |received| ==> received[i] <= |sources[i]|
    requires i < |sources| && received[i] < |sources[i]|
    ensures Remaining(sources, received[i := received[i] + 1]) == Remaining(sources, received) - 1
  {
    var m := |sources| - 1;
    var received' := received[i := received[i] + 1];
    if i < m {
      assert received'[..m] == received[..m][i := received[i] + 1];
      RemainingUpdate(sources[..m], received[..m], i);
    } else {
      assert received'[..m] == received[..m];
    }
  }

  lemma {:induction false} ReceiveCounts<V>(sources: seq<seq<V>>, s: State<V>, i: nat)
    requires WellSized(sources, s) && Counts(sources, s.received)
    requires i < |sources| && CanReceive(sources, s, i)
    ensures Remaining(sources, Receive(sources, s, i).received) == Remaining(sources, s.received) - 1
    ensures Busy(Receive(sources, s, i).producers) == Busy(s.producers) + 1
  {
    RemainingUpdate(sources, s.received, i);
    BusyUpdate(s.producers, i, Fetching);
  }

  lemma {:induction false} OneLess(c: int, n: int)
    ensures c * (n - 1) == c * n - c
  {
  }

  /** Receiving pays for the rest of the call and for the next one. */
  lemma {:induction false} ReceivePays<V>(sources: seq<seq<V>>, s: State<V>, i: nat, s': State<V>)
    requires WellSized(sources, s) && Counts(sources, s.received)
    requires i < |sources| && CanReceive(sources, s, i)
    requires s'.received == Receive(sources, s, i).received && s'.producers == Receive(sources, s, i).producers
    requires WellSized(sources, s') && Counts(sources, s'.received)
    requires ConsumerMeasure(s'.consumer, |sources|) <= ConsumerMeasure(s.consumer, |sources|) + CallLength(|sources|)
    ensures Measure(sources, s') < Measure(sources, s)
  {
    ReceiveCounts(sources, s, i);
    OneLess(CallLength(|sources|) + 2, Remaining(sources, s.received));
  }

  /** Every event, whichever the schedule picks, brings the end nearer; so every run is finite,
      and with NeverStuck every run that goes on as long as it can ends with the report. */
  lemma {:induction false} EveryEventProgresses<V>(sources: seq<seq<V>>, s: State<V>, e: Event)
    requires Inv(sources, s) && Enabled(sources, s, e)
    ensures Inv(sources, Apply(sources, s, e))
    ensures Measure(sources, Apply(sources, s, e)) < Measure(sources, s)
  {
    StepInv(sources, s, e);
    match e
    case Fetch(i) =>
      BusyUpdate(s.producers, i, if s.received[i] < |sources[i]| then Offering else Closed);
    case FillReceive => ReceivePays(sources, s, s.consumer.i, Apply(sources, s, e));
    case FillDone => LiveCasesBound(seq(|sources|, _ => true));
    case SelectReceive(i) =>
      LiveCasesUpdate(s.consumer.live, i);
      ReceivePays(sources, s, i, Apply(sources, s, e));
    case SelectClosed(i) => LiveCasesUpdate(s.consumer.live, i);
    case _ =>
  }

  /** No run is longer than the measure of the initial state. */
  lemma {:induction false} RunsAreBounded<V>(sources: seq<seq<V>>, events: seq<Event>)
    requires Run(sources, events).Some?
    ensures Inv(sources, Init<V>(|sources|)) && Inv(sources, Run(sources, events).value)
    ensures |events| + Measure(sources, Run(sources, events).value) <= Measure(sources, Init<V>(|sources|))
    decreases |events|
  {
    InitInv(sources);
    if events != [] {
      var before := events[..|events| - 1];
      RunsAreBounded(sources, before);
      EveryEventProgresses(sources, Run(sources, before).value, events[|events| - 1]);
    }
  }
}
