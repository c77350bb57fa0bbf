/** The entries of a memo lockfile one by one.

    What Store and Remove do to each of them, in the order in which they are written: entries
    under other keys stay as they are, in order, and a file without duplicates stays without
    duplicates. */
module MemoEntries {
  import opened Memo

  // ---- The entries, in the order in which they are written

  function ResultEntries<M>(mod: M, binding: string, results: seq<Result<M>>): seq<(Key<M>, M)> {
    seq(|results|, i requires 0 <= i < |results| => (Key(mod, binding, results[i].input), results[i].output))
  }

  function CallEntries<M>(mod: M, calls: seq<Call<M>>): seq<(Key<M>, M)> {
    if calls == [] then []
    else
      var last := calls[|calls| - 1];
      CallEntries(mod, calls[..|calls| - 1]) + ResultEntries(mod, last.binding, last.results)
  }

  function Entries<M>(memos: seq<Memo<M>>): seq<(Key<M>, M)> {
    if memos == [] then []
    else
      var last := memos[|memos| - 1];
      Entries(memos[..|memos| - 1]) + CallEntries(last.mod, last.calls)
  }

  /** The entries under other keys. */
  function Others<M(==)>(entries: seq<(Key<M>, M)>, k: Key<M>): seq<(Key<M>, M)> {
    if entries == [] then []
    else
      var last := entries[|entries| - 1];
      Others(entries[..|entries| - 1], k) + if last.0 == k then [] else [last]
  }

  lemma {:induction false} OthersConcat<M>(xs: seq<(Key<M>, M)>, ys: seq<(Key<M>, M)>, k: Key<M>)
    ensures Others(xs + ys, k) == Others(xs, k) + Others(ys, k)
    decreases |ys|
  {
    if ys == [] {
      assert xs + ys == xs;
    } else {
      assert (xs + ys)[..|xs + ys| - 1] == xs + ys[..|ys| - 1];
      OthersConcat(xs, ys[..|ys| - 1], k);
    }
  }

  lemma {:induction false} NoOthers<M>(entries: seq<(Key<M>, M)>, k: Key<M>)
    requires forall e :: e in entries ==> e.0 != k
    ensures Others(entries, k) == entries
    decreases |entries|
  {
    if entries != [] {
      NoOthers(entries[..|entries| - 1], k);
    }
  }

  // ---- Remove drops exactly the entries under its key

  lemma {:induction false} RemoveFromResults<M>(mod: M, binding: string, results: seq<Result<M>>, k: Key<M>)
    requires mod == k.mod && binding == k.binding
    ensures ResultEntries(mod, binding, RemoveResults(results, k.input))
            == Others(ResultEntries(mod, binding, results), k)
    decreases |results|
  {
    if results != [] {
      var init, all := results[..|results| - 1], ResultEntries(mod, binding, results);
      RemoveFromResults(mod, binding, init, k);
      assert all[..|all| - 1] == ResultEntries(mod, binding, init);
    }
  }

  lemma {:induction false} OtherResults<M>(mod: M, binding: string, results: seq<Result<M>>, k: Key<M>)
    requires mod != k.mod || binding != k.binding
    ensures Others(ResultEntries(mod, binding, results), k) == ResultEntries(mod, binding, results)
  {
    NoOthers(ResultEntries(mod, binding, results), k);
  }

  lemma {:induction false} RemoveFromCalls<M>(mod: M, calls: seq<Call<M>>, k: Key<M>)
    requires mod == k.mod
    ensures CallEntries(mod, RemoveCalls(calls, k)) == Others(CallEntries(mod, calls), k)
    decreases |calls|
  {
    if calls != [] {
      var init, last := calls[..|calls| - 1], calls[|calls| - 1];
      var results := RemoveResults(last.results, k.input);
      var kept :=
        if last.binding != k.binding then [last] else if results != [] then [last.(results := results)] else [];
      RemoveFromCalls(mod, init, k);
      OthersConcat(CallEntries(mod, init), ResultEntries(mod, last.binding, last.results), k);
      CallEntriesConcat(mod, RemoveCalls(init, k), kept);
      if last.binding == k.binding {
        RemoveFromResults(mod, last.binding, last.results, k);
        OneCall(mod, last.(results := results));
      } else {
        OtherResults(mod, last.binding, last.results, k);
        OneCall(mod, last);
      }
    }
  }

  lemma {:induction false} CallEntriesConcat<M>(mod: M, xs: seq<Call<M>>, ys: seq<Call<M>>)
    ensures CallEntries(mod, xs + ys) == CallEntries(mod, xs) + CallEntries(mod, ys)
    decreases |ys|
  {
    if ys == [] {
      assert xs + ys == xs;
    } else {
      var init, last := ys[..|ys| - 1], ys[|ys| - 1];
      assert (xs + ys)[..|xs + ys| - 1] == xs + init && (xs + ys)[|xs + ys| - 1] == last;
      CallEntriesConcat(mod, xs, init);
      var e := ResultEntries(mod, last.binding, last.results);
      assert (CallEntries(mod, xs) + CallEntries(mod, init)) + e == CallEntries(mod, xs) + (CallEntries(mod, init) + e);
    }
  }

  lemma {:induction false} OneCall<M>(mod: M, call: Call<M>)
    ensures CallEntries(mod, [call]) == ResultEntries(mod, call.binding, call.results)
  {
    assert [call][..0] == [];
  }

  lemma {:induction false} EntriesConcat<M>(xs: seq<Memo<M>>, ys: seq<Memo<M>>)
    ensures Entries(xs + ys) == Entries(xs) + Entries(ys)
    decreases |ys|
  {
    if ys == [] {
      assert xs + ys == xs;
    } else {
      var init, last := ys[..|ys| - 1], ys[|ys| - 1];
      assert (xs + ys)[..|xs + ys| - 1] == xs + init && (xs + ys)[|xs + ys| - 1] == last;
      EntriesConcat(xs, init);
      var e := CallEntries(last.mod, last.calls);
      assert (Entries(xs) + Entries(init)) + e == Entries(xs) + (Entries(init) + e);
    }
  }

  lemma {:induction false} OneMemo<M>(memo: Memo<M>)
    ensures Entries([memo]) == CallEntries(memo.mod, memo.calls)
  {
    assert [memo][..0] == [];
  }

  lemma {:induction false} OtherCalls<M>(mod: M, calls: seq<Call<M>>, k: Key<M>)
    requires mod != k.mod
    ensures Others(CallEntries(mod, calls), k) == CallEntries(mod, calls)
    decreases |calls|
  {
    if calls != [] {
      var last := calls[|calls| - 1];
      OtherCalls(mod, calls[..|calls| - 1], k);
      OthersConcat(CallEntries(mod, calls[..|calls| - 1]), ResultEntries(mod, last.binding, last.results), k);
      OtherResults(mod, last.binding, last.results, k);
    }
  }

  /** Remove drops the entries under its key and keeps all others, in order. */
  lemma {:induction false} RemoveKeepsOthers<M>(memos: seq<Memo<M>>, k: Key<M>)
    ensures Entries(Removed(memos, k)) == Others(Entries(memos), k)
    decreases |memos|
  {
    if memos != [] {
      var init, last := memos[..|memos| - 1], memos[|memos| - 1];
      var calls := RemoveCalls(last.calls, k);
      var kept := if last.mod != k.mod then [last] else if calls != [] then [last.(calls := calls)] else [];
      RemoveKeepsOthers(init, k);
      OthersConcat(Entries(init), CallEntries(last.mod, last.calls), k);
      EntriesConcat(Removed(init, k), kept);
      if last.mod == k.mod {
        RemoveFromCalls(last.mod, last.calls, k);
        OneMemo(last.(calls := calls));
      } else {
        OtherCalls(last.mod, last.calls, k);
        OneMemo(last);
      }
    }
  }

  // ---- Store leaves the entries under other keys as they were

  lemma {:induction false} StoreInResults<M>(mod: M, binding: string, results: seq<Result<M>>, k: Key<M>, output: M)
    requires mod == k.mod && binding == k.binding
    ensures Others(ResultEntries(mod, binding, StoreResults(results, k.input, output)), k)
            == Others(ResultEntries(mod, binding, results), k)
    decreases |results|
  {
    if results != [] {
      var init := results[..|results| - 1];
      StoreInResults(mod, binding, init, k, output);
      var before, after := ResultEntries(mod, binding, results),
        ResultEntries(mod, binding, StoreResults(results, k.input, output));
      assert before[..|before| - 1] == ResultEntries(mod, binding, init);
      assert after[..|after| - 1] == ResultEntries(mod, binding, StoreResults(init, k.input, output));
    }
  }

  lemma {:induction false} StoreInCall<M>(mod: M, call: Call<M>, k: Key<M>, output: M, updated: bool)
    requires mod == k.mod
    ensures var call' := StoreCall(call, k, output, updated);
            call'.binding == call.binding
            && Others(ResultEntries(mod, call.binding, call'.results), k)
               == Others(ResultEntries(mod, call.binding, call.results), k)
  {
    if call.binding == k.binding {
      var results := StoreResults(call.results, k.input, output);
      StoreInResults(mod, call.binding, call.results, k, output);
      var new' := [Result(k.input, output)];
      assert ResultEntries(mod, call.binding, results + new')
          == ResultEntries(mod, call.binding, results) + [(k, output)];
      OthersConcat(ResultEntries(mod, call.binding, results), [(k, output)], k);
      NoneUnder(output, k);
    }
  }

  lemma {:induction false} NoneUnder<M>(output: M, k: Key<M>)
    ensures Others([(k, output)], k) == []
  {
    assert [(k, output)][..0] == [];
  }

  lemma {:induction false} StoreInCalls<M>(mod: M, calls: seq<Call<M>>, k: Key<M>, output: M, updated: bool)
    requires mod == k.mod
    ensures Others(CallEntries(mod, StoreCalls(calls, k, output, updated)), k) == Others(CallEntries(mod, calls), k)
    decreases |calls|
  {
    if calls != [] {
      var init, last := calls[..|calls| - 1], calls[|calls| - 1];
      var last' := StoreCall(last, k, output, updated || UpdatesInCalls(init, k));
      StoreInCalls(mod, init, k, output, updated);
      StoreInCall(mod, last, k, output, updated || UpdatesInCalls(init, k));
      CallEntriesConcat(mod, StoreCalls(init, k, output, updated), [last']);
      OneCall(mod, last');
      OthersConcat(CallEntries(mod, init), ResultEntries(mod, last.binding, last.results), k);
      OthersConcat(CallEntries(mod, StoreCalls(init, k, output, updated)),
                   ResultEntries(mod, last.binding, last'.results), k);
    }
  }

  lemma {:induction false} StoreInMemo<M>(memo: Memo<M>, k: Key<M>, output: M, foundCall: bool, updated: bool)
    ensures var memo' := StoreMemo(memo, k, output, foundCall, updated);
            && memo'.mod == memo.mod
            && Others(CallEntries(memo.mod, memo'.calls), k) == Others(CallEntries(memo.mod, memo.calls), k)
  {
    if memo.mod == k.mod {
      var calls := StoreCalls(memo.calls, k, output, updated);
      StoreInCalls(memo.mod, memo.calls, k, output, updated);
      CallEntriesConcat(memo.mod, calls, [NewCall(k, output)]);
      NewCallEntries(memo.mod, k, output);
      OthersConcat(CallEntries(memo.mod, calls), [(k, output)], k);
      NoneUnder(output, k);
    }
  }

  lemma {:induction false} NewCallEntries<M>(mod: M, k: Key<M>, output: M)
    requires mod == k.mod
    ensures CallEntries(mod, [NewCall(k, output)]) == [(k, output)]
  {
    OneCall(mod, NewCall(k, output));
  }

  lemma {:induction false} StoreInMemos<M>(memos: seq<Memo<M>>, k: Key<M>, output: M)
    ensures Others(Entries(StoreMemos(memos, k, output)), k) == Others(Entries(memos), k)
    decreases |memos|
  {
    if memos != [] {
      var init, last := memos[..|memos| - 1], memos[|memos| - 1];
      var last' := StoreMemo(last, k, output, FoundCall(init, k), Updated(init, k));
      StoreInMemos(init, k, output);
      StoreInMemo(last, k, output, FoundCall(init, k), Updated(init, k));
      EntriesConcat(StoreMemos(init, k, output), [last']);
      OneMemo(last');
      OthersConcat(Entries(init), CallEntries(last.mod, last.calls), k);
      OthersConcat(Entries(StoreMemos(init, k, output)), CallEntries(last.mod, last'.calls), k);
    }
  }

  /** Store keeps all entries under other keys as they were, in order. */
  lemma {:induction false} StoreKeepsOthers<M>(memos: seq<Memo<M>>, k: Key<M>, output: M)
    ensures Others(Entries(Stored(memos, k, output)), k) == Others(Entries(memos), k)
  {
    StoreInMemos(memos, k, output);
    if !FoundMod(memos, k) {
      var new' := Memo(k.mod, [NewCall(k, output)]);
      EntriesConcat(StoreMemos(memos, k, output), [new']);
      OneMemo(new');
      NewCallEntries(k.mod, k, output);
      OthersConcat(Entries(StoreMemos(memos, k, output)), [(k, output)], k);
      NoneUnder(output, k);
    }
  }

  // ---- Without duplicates

  /** One memo for each module, one call for each binding, one result for each input. */
  ghost predicate Tidy<M>(memos: seq<Memo<M>>) {
    && (forall i, j :: 0 <= i < j < |memos| ==> memos[i].mod != memos[j].mod)
    && forall i :: 0 <= i < |memos| ==> TidyCalls(memos[i].calls)
  }

  ghost predicate TidyCalls<M>(calls: seq<Call<M>>) {
    && (forall i, j :: 0 <= i < j < |calls| ==> calls[i].binding != calls[j].binding)
    && forall i :: 0 <= i < |calls| ==> TidyResults(calls[i].results)
  }

  ghost predicate TidyResults<M>(results: seq<Result<M>>) {
    forall i, j :: 0 <= i < j < |results| ==> results[i].input != results[j].input
  }

  lemma {:induction false} StoreCallTidy<M>(call: Call<M>, k: Key<M>, output: M, updated: bool)
    requires TidyResults(call.results)
    ensures TidyResults(StoreCall(call, k, output, updated).results)
    ensures StoreCall(call, k, output, updated).binding == call.binding
  {
    if call.binding == k.binding && !HasInput(call.results, k.input) {
      assert forall i :: 0 <= i < |call.results| ==> call.results[i] in call.results;
    }
  }

  lemma {:induction false} StoreCallsTidy<M>(calls: seq<Call<M>>, k: Key<M>, output: M, updated: bool)
    requires TidyCalls(calls)
    ensures TidyCalls(StoreCalls(calls, k, output, updated))
    ensures forall i :: 0 <= i < |calls| ==> StoreCalls(calls, k, output, updated)[i].binding == calls[i].binding
    decreases |calls|
  {
    if calls != [] {
      var init, last := calls[..|calls| - 1], calls[|calls| - 1];
      StoreCallsTidy(init, k, output, updated);
      StoreCallTidy(last, k, output, updated || UpdatesInCalls(init, k));
    }
  }

  lemma {:induction false} StoreMemoTidy<M>(memo: Memo<M>, k: Key<M>, output: M, foundCall: bool, updated: bool)
    requires TidyCalls(memo.calls)
    ensures TidyCalls(StoreMemo(memo, k, output, foundCall, updated).calls)
    ensures StoreMemo(memo, k, output, foundCall, updated).mod == memo.mod
  {
    if memo.mod == k.mod {
      StoreCallsTidy(memo.calls, k, output, updated);
      assert !HasCall(memo.calls, k.binding) ==>
          forall i :: 0 <= i < |memo.calls| ==> memo.calls[i] in memo.calls && memo.calls[i].binding != k.binding;
    }
  }

  lemma {:induction false} StoreMemosTidy<M>(memos: seq<Memo<M>>, k: Key<M>, output: M)
    requires Tidy(memos)
    ensures Tidy(StoreMemos(memos, k, output))
    ensures forall i :: 0 <= i < |memos| ==> StoreMemos(memos, k, output)[i].mod == memos[i].mod
    decreases |memos|
  {
    if memos != [] {
      var init, last := memos[..|memos| - 1], memos[|memos| - 1];
      StoreMemosTidy(init, k, output);
      StoreMemoTidy(last, k, output, FoundCall(init, k), Updated(init, k));
    }
  }

  /** Store keeps a file without duplicates so: a stored key is updated where it is, and
      otherwise one entry is added. */
  lemma {:induction false} StoreKeepsTidy<M>(memos: seq<Memo<M>>, k: Key<M>, output: M)
    requires Tidy(memos)
    ensures Tidy(Stored(memos, k, output))
  {
    StoreMemosTidy(memos, k, output);
    assert !FoundMod(memos, k) ==> forall i :: 0 <= i < |memos| ==> memos[i] in memos && memos[i].mod != k.mod;
  }

  lemma {:induction false} RemoveResultsTidy<M>(results: seq<Result<M>>, input: M)
    requires TidyResults(results)
    ensures TidyResults(RemoveResults(results, input))
    ensures forall r :: r in RemoveResults(results, input) ==> r in results
    decreases |results|
  {
    if results != [] {
      var init, last := results[..|results| - 1], results[|results| - 1];
      RemoveResultsTidy(init, input);
      assert forall r :: r in init ==> r.input != last.input;
    }
  }

  lemma {:induction false} OneMoreTidyCall<M>(calls: seq<Call<M>>, call: Call<M>)
    requires TidyCalls(calls) && TidyResults(call.results) && !HasCall(calls, call.binding)
    ensures TidyCalls(calls + [call])
  {
    forall i | 0 <= i < |calls|
      ensures calls[i].binding != call.binding
    {
      assert calls[i] in calls;
    }
  }

  lemma {:induction false} HasCallOneMore<M>(init: seq<Call<M>>, last: Call<M>, binding: string)
    ensures HasCall(init + [last], binding) <==> HasCall(init, binding) || last.binding == binding
  {
    assert last in init + [last];
    if c :| c in init && c.binding == binding {
      assert c in init + [last];
    }
  }

  lemma {:induction false} RemoveCallsTidy<M>(calls: seq<Call<M>>, k: Key<M>)
    requires TidyCalls(calls)
    ensures TidyCalls(RemoveCalls(calls, k))
    decreases |calls|
  {
    if calls != [] {
      var init, last := calls[..|calls| - 1], calls[|calls| - 1];
      RemoveCallsTidy(init, k);
      RemoveResultsTidy(last.results, k.input);
      assert !HasCall(init, last.binding);
      RemoveKeepsBindings(init, k, last.binding);
      OneMoreTidyCall(RemoveCalls(init, k), last);
      OneMoreTidyCall(RemoveCalls(init, k), last.(results := RemoveResults(last.results, k.input)));
      assert RemoveCalls(init, k) + [] == RemoveCalls(init, k);
    }
  }

  lemma {:induction false} RemoveKeepsBindings<M>(calls: seq<Call<M>>, k: Key<M>, binding: string)
    ensures HasCall(RemoveCalls(calls, k), binding) ==> HasCall(calls, binding)
    decreases |calls|
  {
    if calls != [] {
      var init, last := calls[..|calls| - 1], calls[|calls| - 1];
      var results := RemoveResults(last.results, k.input);
      RemoveKeepsBindings(init, k, binding);
      HasCallOneMore(init, last, binding);
      HasCallOneMore(RemoveCalls(init, k), last, binding);
      HasCallOneMore(RemoveCalls(init, k), last.(results := results), binding);
      assert calls == init + [last] && RemoveCalls(init, k) + [] == RemoveCalls(init, k);
    }
  }

  ghost predicate HasMod<M>(memos: seq<Memo<M>>, mod: M) {
    exists m :: m in memos && m.mod == mod
  }

  lemma {:induction false} OneMoreTidyMemo<M>(memos: seq<Memo<M>>, memo: Memo<M>)
    requires Tidy(memos) && TidyCalls(memo.calls) && !HasMod(memos, memo.mod)
    ensures Tidy(memos + [memo])
  {
    forall i | 0 <= i < |memos|
      ensures memos[i].mod != memo.mod
    {
      assert memos[i] in memos;
    }
  }

  lemma {:induction false} HasModOneMore<M>(init: seq<Memo<M>>, last: Memo<M>, mod: M)
    ensures HasMod(init + [last], mod) <==> HasMod(init, mod) || last.mod == mod
  {
    assert last in init + [last];
    if m :| m in init && m.mod == mod {
      assert m in init + [last];
    }
  }

  lemma {:induction false} RemoveKeepsMods<M>(memos: seq<Memo<M>>, k: Key<M>, mod: M)
    ensures HasMod(Removed(memos, k), mod) ==> HasMod(memos, mod)
    decreases |memos|
  {
    if memos != [] {
      var init, last := memos[..|memos| - 1], memos[|memos| - 1];
      RemoveKeepsMods(init, k, mod);
      HasModOneMore(init, last, mod);
      HasModOneMore(Removed(init, k), last, mod);
      HasModOneMore(Removed(init, k), last.(calls := RemoveCalls(last.calls, k)), mod);
      assert memos == init + [last] && Removed(init, k) + [] == Removed(init, k);
    }
  }

  /** So does Remove. */
  lemma {:induction false} RemoveKeepsTidy<M>(memos: seq<Memo<M>>, k: Key<M>)
    requires Tidy(memos)
    ensures Tidy(Removed(memos, k))
    decreases |memos|
  {
    if memos != [] {
      var init, last := memos[..|memos| - 1], memos[|memos| - 1];
      RemoveKeepsTidy(init, k);
      RemoveCallsTidy(last.calls, k);
      assert !HasMod(init, last.mod);
      RemoveKeepsMods(init, k, last.mod);
      OneMoreTidyMemo(Removed(init, k), last);
      OneMoreTidyMemo(Removed(init, k), last.(calls := RemoveCalls(last.calls, k)));
      assert Removed(init, k) + [] == Removed(init, k);
    }
  }
}
