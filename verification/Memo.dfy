/** The memo lockfile of pkg/bass/memo.go: a three-level nested list that is searched and
    edited in place, and behaves like a plain map even when it holds duplicate entries. */
module Memo {
  import opened Options

  datatype Result<M> = Result(input: M, output: M)
  datatype Call<M> = Call(binding: string, results: seq<Result<M>>)
  datatype Memo<M> = Memo(mod: M, calls: seq<Call<M>>)

  /** What a stored value is found by: the module's message, the binding and the input's
      message. */
  datatype Key<M> = Key(mod: M, binding: string, input: M)

  // ---- Searching: retrieveMemo

  function FindResult<M(==)>(results: seq<Result<M>>, input: M): Option<M> {
    if results == [] then None
    else if results[0].input == input then Some(results[0].output)
    else FindResult(results[1..], input)
  }

  function FindCall<M(==)>(calls: seq<Call<M>>, binding: string, input: M): Option<M> {
    if calls == [] then None
    else if calls[0].binding == binding && FindResult(calls[0].results, input).Some? then
      FindResult(calls[0].results, input)
    else FindCall(calls[1..], binding, input)
  }

  function Find<M(==)>(memos: seq<Memo<M>>, k: Key<M>): Option<M> {
    if memos == [] then None
    else if memos[0].mod == k.mod && FindCall(memos[0].calls, k.binding, k.input).Some? then
      FindCall(memos[0].calls, k.binding, k.input)
    else Find(memos[1..], k)
  }

  function Or<T>(first: Option<T>, second: Option<T>): Option<T> {
    if first.Some? then first else second
  }

  lemma {:induction false} FindResultConcat<M>(xs: seq<Result<M>>, ys: seq<Result<M>>, input: M)
    ensures FindResult(xs + ys, input) == Or(FindResult(xs, input), FindResult(ys, input))
    decreases |xs|
  {
    if xs == [] {
      assert xs + ys == ys;
    } else {
      assert (xs + ys)[1..] == xs[1..] + ys;
      FindResultConcat(xs[1..], ys, input);
    }
  }

  lemma {:induction false} FindCallConcat<M>(xs: seq<Call<M>>, ys: seq<Call<M>>, binding: string, input: M)
    ensures FindCall(xs + ys, binding, input) == Or(FindCall(xs, binding, input), FindCall(ys, binding, input))
    decreases |xs|
  {
    if xs == [] {
      assert xs + ys == ys;
    } else {
      assert (xs + ys)[1..] == xs[1..] + ys;
      FindCallConcat(xs[1..], ys, binding, input);
    }
  }

  lemma {:induction false} FindConcat<M>(xs: seq<Memo<M>>, ys: seq<Memo<M>>, k: Key<M>)
    ensures Find(xs + ys, k) == Or(Find(xs, k), Find(ys, k))
    decreases |xs|
  {
    if xs == [] {
      assert xs + ys == ys;
    } else {
      assert (xs + ys)[1..] == xs[1..] + ys;
      FindConcat(xs[1..], ys, k);
    }
  }

  lemma {:induction false} FindOneCall<M>(call: Call<M>, binding: string, input: M)
    ensures FindCall([call], binding, input)
            == if call.binding == binding then FindResult(call.results, input) else None
  {
  }

  lemma {:induction false} FindOneMemo<M>(memo: Memo<M>, k: Key<M>)
    ensures Find([memo], k) == if memo.mod == k.mod then FindCall(memo.calls, k.binding, k.input) else None
  {
  }

  // ---- Storing: what the three loops of Store leave

  /** Every result with the input gets the output; updated says whether one was there. */
  function StoreResults<M(==)>(results: seq<Result<M>>, input: M, output: M): seq<Result<M>> {
    seq(|results|, i requires 0 <= i < |results| =>
      if results[i].input == input then results[i].(output := output) else results[i])
  }

  predicate HasInput<M(==)>(results: seq<Result<M>>, input: M) {
    exists r :: r in results && r.input == input
  }

  /** One call of the matching memos.  The flag `updated` is shared by all of them: only while
      no result was found does a call without one get it appended. */
  function StoreCall<M(==)>(call: Call<M>, k: Key<M>, output: M, updated: bool): Call<M> {
    if call.binding != k.binding then call
    else
      var results := StoreResults(call.results, k.input, output);
      call.(results :=
        if updated || HasInput(call.results, k.input) then results else results + [Result(k.input, output)])
  }

  predicate UpdatesIn<M(==)>(call: Call<M>, k: Key<M>) {
    call.binding == k.binding && HasInput(call.results, k.input)
  }

  predicate UpdatesInCalls<M(==)>(calls: seq<Call<M>>, k: Key<M>) {
    calls != [] && (UpdatesInCalls(calls[..|calls| - 1], k) || UpdatesIn(calls[|calls| - 1], k))
  }

  function StoreCalls<M(==)>(calls: seq<Call<M>>, k: Key<M>, output: M, updated: bool): (r: seq<Call<M>>)
    ensures |r| == |calls|
  {
    if calls == [] then []
    else
      var init := calls[..|calls| - 1];
      StoreCalls(init, k, output, updated)
      + [StoreCall(calls[|calls| - 1], k, output, updated || UpdatesInCalls(init, k))]
  }

  predicate HasCall<M(==)>(calls: seq<Call<M>>, binding: string) {
    exists c :: c in calls && c.binding == binding
  }

  function NewCall<M>(k: Key<M>, output: M): Call<M> {
    Call(k.binding, [Result(k.input, output)])
  }

  /** One memo, given the flags left by the memos before it. */
  function StoreMemo<M(==)>(memo: Memo<M>, k: Key<M>, output: M, foundCall: bool, updated: bool): Memo<M> {
    if memo.mod != k.mod then memo
    else
      var calls := StoreCalls(memo.calls, k, output, updated);
      memo.(calls := if foundCall || HasCall(memo.calls, k.binding) then calls else calls + [NewCall(k, output)])
  }

  predicate FoundCall<M(==)>(memos: seq<Memo<M>>, k: Key<M>) {
    exists m :: m in memos && m.mod == k.mod && HasCall(m.calls, k.binding)
  }

  predicate Updated<M(==)>(memos: seq<Memo<M>>, k: Key<M>) {
    exists m :: m in memos && m.mod == k.mod && UpdatesInCalls(m.calls, k)
  }

  predicate FoundMod<M(==)>(memos: seq<Memo<M>>, k: Key<M>) {
    exists m :: m in memos && m.mod == k.mod
  }

  function StoreMemos<M(==)>(memos: seq<Memo<M>>, k: Key<M>, output: M): (r: seq<Memo<M>>)
    ensures |r| == |memos|
  {
    if memos == [] then []
    else
      var init := memos[..|memos| - 1];
      StoreMemos(init, k, output) + [StoreMemo(memos[|memos| - 1], k, output, FoundCall(init, k), Updated(init, k))]
  }

  function Stored<M(==)>(memos: seq<Memo<M>>, k: Key<M>, output: M): seq<Memo<M>> {
    if FoundMod(memos, k) then StoreMemos(memos, k, output)
    else StoreMemos(memos, k, output) + [Memo(k.mod, [NewCall(k, output)])]
  }

  // ---- Storing: what is found afterwards

  lemma {:induction false} FindInStoredResults<M>(results: seq<Result<M>>, input: M, output: M, i: M)
    ensures FindResult(StoreResults(results, input, output), i)
         == if i == input then (if HasInput(results, input) then Some(output) else None) else FindResult(results, i)
    decreases |results|
  {
    if results != [] {
      var r := StoreResults(results, input, output);
      assert r[1..] == StoreResults(results[1..], input, output);
      FindInStoredResults(results[1..], input, output, i);
      assert HasInput(results, input) <==> results[0].input == input || HasInput(results[1..], input);
    }
  }

  lemma {:induction false} FindInStoredCall<M>(call: Call<M>, k: Key<M>, output: M, updated: bool, binding: string,
        i: M)
    ensures binding == k.binding && i == k.input ==>
              FindCall([StoreCall(call, k, output, updated)], binding, i)
              == if call.binding == binding && (!updated || HasInput(call.results, i)) then Some(output) else None
    ensures binding != k.binding || i != k.input ==>
              FindCall([StoreCall(call, k, output, updated)], binding, i) == FindCall([call], binding, i)
  {
    var call' := StoreCall(call, k, output, updated);
    FindOneCall(call, binding, i);
    FindOneCall(call', binding, i);
    FindInStoredResults(call.results, k.input, output, i);
    FindResultConcat(StoreResults(call.results, k.input, output), [Result(k.input, output)], i);
  }

  lemma {:induction false} FindInStoredCalls<M>(calls: seq<Call<M>>, k: Key<M>, output: M, updated: bool,
        binding: string, i: M)
    ensures binding == k.binding && i == k.input ==>
              FindCall(StoreCalls(calls, k, output, updated), binding, i)
              == if UpdatesInCalls(calls, k) || (!updated && HasCall(calls, binding)) then Some(output) else None
    ensures binding != k.binding || i != k.input ==>
              FindCall(StoreCalls(calls, k, output, updated), binding, i) == FindCall(calls, binding, i)
    decreases |calls|
  {
    if calls != [] {
      var init, last := calls[..|calls| - 1], calls[|calls| - 1];
      var updated' := updated || UpdatesInCalls(init, k);
      FindInStoredCalls(init, k, output, updated, binding, i);
      FindInStoredCall(last, k, output, updated', binding, i);
      FindCallConcat(StoreCalls(init, k, output, updated), [StoreCall(last, k, output, updated')], binding, i);
      FindCallConcat(init, [last], binding, i);
      assert calls == init + [last];
      assert HasCall(calls, binding) <==> HasCall(init, binding) || last.binding == binding;
      if UpdatesInCalls(init, k) {
        UpdateNeedsCall(init, k);
      }
    }
  }

  lemma {:induction false} UpdateNeedsCall<M>(calls: seq<Call<M>>, k: Key<M>)
    requires UpdatesInCalls(calls, k)
    ensures HasCall(calls, k.binding)
    decreases |calls|
  {
    var init, last := calls[..|calls| - 1], calls[|calls| - 1];
    if UpdatesInCalls(init, k) {
      UpdateNeedsCall(init, k);
      var c :| c in init && c.binding == k.binding;
      assert c in calls;
    } else {
      assert last in calls;
    }
  }

  /** One stored memo: under its own key it holds the output whenever it must. */
  lemma {:induction false} FindInStoredMemo<M>(memo: Memo<M>, k: Key<M>, output: M, foundCall: bool, updated: bool,
        k': Key<M>)
    ensures k' != k ==> Find([StoreMemo(memo, k, output, foundCall, updated)], k') == Find([memo], k')
    ensures k' == k && Find([StoreMemo(memo, k, output, foundCall, updated)], k).Some? ==>
              Find([StoreMemo(memo, k, output, foundCall, updated)], k) == Some(output)
    ensures k' == k && memo.mod == k.mod && !foundCall && !updated ==>
              Find([StoreMemo(memo, k, output, foundCall, updated)], k) == Some(output)
  {
    var memo' := StoreMemo(memo, k, output, foundCall, updated);
    FindOneMemo(memo, k');
    FindOneMemo(memo', k');
    FindInStoredCalls(memo.calls, k, output, updated, k'.binding, k'.input);
    FindCallConcat(StoreCalls(memo.calls, k, output, updated), [NewCall(k, output)], k'.binding, k'.input);
    FindOneCall(NewCall(k, output), k'.binding, k'.input);
  }

  lemma {:induction false} FindInStoredMemos<M>(memos: seq<Memo<M>>, k: Key<M>, output: M, k': Key<M>)
    ensures k' != k ==> Find(StoreMemos(memos, k, output), k') == Find(memos, k')
    ensures Find(StoreMemos(memos, k, output), k) == if FoundMod(memos, k) then Some(output) else None
    decreases |memos|
  {
    if memos != [] {
      var init, last := memos[..|memos| - 1], memos[|memos| - 1];
      var last' := StoreMemo(last, k, output, FoundCall(init, k), Updated(init, k));
      FindInStoredMemos(init, k, output, k');
      FindInStoredMemo(last, k, output, FoundCall(init, k), Updated(init, k), k');
      FindInStoredMemo(last, k, output, FoundCall(init, k), Updated(init, k), k);
      FindConcat(StoreMemos(init, k, output), [last'], k');
      FindConcat(StoreMemos(init, k, output), [last'], k);
      FindConcat(init, [last], k');
      FindOneMemo(last', k);
      assert memos == init + [last];
      assert FoundMod(memos, k) <==> FoundMod(init, k) || last.mod == k.mod;
    }
  }

  /** After Store the stored output is found under its key, and every other key keeps its
      answer, whatever the content was. */
  lemma {:induction false} StoreThenFind<M>(memos: seq<Memo<M>>, k: Key<M>, output: M, k': Key<M>)
    ensures Find(Stored(memos, k, output), k') == if k' == k then Some(output) else Find(memos, k')
  {
    FindInStoredMemos(memos, k, output, k');
    var new' := Memo(k.mod, [NewCall(k, output)]);
    FindConcat(StoreMemos(memos, k, output), [new'], k');
    FindOneMemo(new', k');
    FindOneCall(NewCall(k, output), k'.binding, k'.input);
    assert FindResult([Result(k.input, output)], k'.input) == if k'.input == k.input then Some(output) else None;
  }

  // ---- Removing

  function RemoveResults<M(==)>(results: seq<Result<M>>, input: M): seq<Result<M>> {
    if results == [] then []
    else
      RemoveResults(results[..|results| - 1], input)
      + if results[|results| - 1].input != input then [results[|results| - 1]] else []
  }

  function RemoveCalls<M(==)>(calls: seq<Call<M>>, k: Key<M>): seq<Call<M>> {
    if calls == [] then []
    else
      var call := calls[|calls| - 1];
      var results := RemoveResults(call.results, k.input);
      RemoveCalls(calls[..|calls| - 1], k)
      + if call.binding != k.binding then [call]
        else if results != [] then [call.(results := results)]
        else []
  }

  function Removed<M(==)>(memos: seq<Memo<M>>, k: Key<M>): seq<Memo<M>> {
    if memos == [] then []
    else
      var memo := memos[|memos| - 1];
      var calls := RemoveCalls(memo.calls, k);
      Removed(memos[..|memos| - 1], k)
      + if memo.mod != k.mod then [memo]
        else if calls != [] then [memo.(calls := calls)]
        else []
  }

  lemma {:induction false} FindInRemovedResults<M>(results: seq<Result<M>>, input: M, i: M)
    ensures FindResult(RemoveResults(results, input), i) == if i == input then None else FindResult(results, i)
    decreases |results|
  {
    if results != [] {
      var init, last := results[..|results| - 1], results[|results| - 1];
      FindInRemovedResults(init, input, i);
      assert results == init + [last];
      FindResultConcat(init, [last], i);
      FindResultConcat(RemoveResults(init, input), if last.input != input then [last] else [], i);
    }
  }

  lemma {:induction false} FindInRemovedCalls<M>(calls: seq<Call<M>>, k: Key<M>, binding: string, i: M)
    ensures FindCall(RemoveCalls(calls, k), binding, i)
         == if binding == k.binding && i == k.input then None else FindCall(calls, binding, i)
    decreases |calls|
  {
    if calls != [] {
      var init, last := calls[..|calls| - 1], calls[|calls| - 1];
      var results := RemoveResults(last.results, k.input);
      var kept :=
        if last.binding != k.binding then [last] else if results != [] then [last.(results := results)] else [];
      FindInRemovedCalls(init, k, binding, i);
      FindInRemovedResults(last.results, k.input, i);
      assert calls == init + [last];
      FindCallConcat(init, [last], binding, i);
      FindCallConcat(RemoveCalls(init, k), kept, binding, i);
      FindOneCall(last, binding, i);
      FindOneCall(last.(results := results), binding, i);
    }
  }

  /** After Remove nothing is found under the key, and every other key keeps its answer. */
  lemma {:induction false} RemoveThenFind<M>(memos: seq<Memo<M>>, k: Key<M>, k': Key<M>)
    ensures Find(Removed(memos, k), k') == if k' == k then None else Find(memos, k')
    decreases |memos|
  {
    if memos != [] {
      var init, last := memos[..|memos| - 1], memos[|memos| - 1];
      var calls := RemoveCalls(last.calls, k);
      var kept := if last.mod != k.mod then [last] else if calls != [] then [last.(calls := calls)] else [];
      RemoveThenFind(init, k, k');
      FindInRemovedCalls(last.calls, k, k'.binding, k'.input);
      assert memos == init + [last];
      FindConcat(init, [last], k');
      FindConcat(Removed(init, k), kept, k');
      FindOneMemo(last, k');
      FindOneMemo(last.(calls := calls), k');
    }
  }

  // ---- Nothing empty is left behind

  ghost predicate NoEmptyCall<M>(calls: seq<Call<M>>) {
    forall c :: c in calls ==> c.results != []
  }

  ghost predicate NoEmptyEntry<M>(memos: seq<Memo<M>>) {
    forall m :: m in memos ==> m.calls != [] && NoEmptyCall(m.calls)
  }

  lemma {:induction false} StoreCallsNoEmpty<M>(calls: seq<Call<M>>, k: Key<M>, output: M, updated: bool)
    requires NoEmptyCall(calls)
    ensures NoEmptyCall(StoreCalls(calls, k, output, updated))
    decreases |calls|
  {
    if calls != [] {
      assert calls[|calls| - 1] in calls;
      StoreCallsNoEmpty(calls[..|calls| - 1], k, output, updated);
    }
  }

  lemma {:induction false} StoreMemosNoEmpty<M>(memos: seq<Memo<M>>, k: Key<M>, output: M)
    requires NoEmptyEntry(memos)
    ensures NoEmptyEntry(StoreMemos(memos, k, output))
    decreases |memos|
  {
    if memos != [] {
      var init, last := memos[..|memos| - 1], memos[|memos| - 1];
      assert last in memos;
      StoreMemosNoEmpty(init, k, output);
      StoreCallsNoEmpty(last.calls, k, output, Updated(init, k));
    }
  }

  lemma {:induction false} StoreLeavesNoEmpty<M>(memos: seq<Memo<M>>, k: Key<M>, output: M)
    requires NoEmptyEntry(memos)
    ensures NoEmptyEntry(Stored(memos, k, output))
  {
    StoreMemosNoEmpty(memos, k, output);
  }

  lemma {:induction false} RemoveCallsNoEmpty<M>(calls: seq<Call<M>>, k: Key<M>)
    requires NoEmptyCall(calls)
    ensures NoEmptyCall(RemoveCalls(calls, k))
    decreases |calls|
  {
    if calls != [] {
      assert calls[|calls| - 1] in calls;
      RemoveCallsNoEmpty(calls[..|calls| - 1], k);
    }
  }

  lemma {:induction false} RemoveLeavesNoEmpty<M>(memos: seq<Memo<M>>, k: Key<M>)
    requires NoEmptyEntry(memos)
    ensures NoEmptyEntry(Removed(memos, k))
    decreases |memos|
  {
    if memos != [] {
      var init, last := memos[..|memos| - 1], memos[|memos| - 1];
      assert last in memos;
      RemoveLeavesNoEmpty(init, k);
      RemoveCallsNoEmpty(last.calls, k);
    }
  }

  // ---- One turn of each loop

  lemma {:induction false} ReplaceNext<T>(done: seq<T>, all: seq<T>, i: nat, x: T)
    requires |done| == i < |all|
    ensures (done + all[i..])[i] == all[i]
    ensures (done + all[i..])[i := x] == done + [x] + all[i + 1..]
  {
  }

  lemma {:induction false} StoreResultsTurn<M>(results: seq<Result<M>>, i: nat, input: M, output: M)
    requires i < |results|
    ensures StoreResults(results[..i + 1], input, output)
         == StoreResults(results[..i], input, output)
            + [if results[i].input == input then results[i].(output := output) else results[i]]
    ensures HasInput(results[..i + 1], input) <==> HasInput(results[..i], input) || results[i].input == input
  {
    assert results[..i + 1] == results[..i] + [results[i]];
  }

  lemma {:induction false} StoreCallsTurn<M>(calls: seq<Call<M>>, i: nat, k: Key<M>, output: M, updated: bool)
    requires i < |calls|
    ensures StoreCalls(calls[..i + 1], k, output, updated)
         == StoreCalls(calls[..i], k, output, updated)
            + [StoreCall(calls[i], k, output, updated || UpdatesInCalls(calls[..i], k))]
    ensures UpdatesInCalls(calls[..i + 1], k) <==> UpdatesInCalls(calls[..i], k) || UpdatesIn(calls[i], k)
    ensures HasCall(calls[..i + 1], k.binding) <==> HasCall(calls[..i], k.binding) || calls[i].binding == k.binding
  {
    assert calls[..i + 1] == calls[..i] + [calls[i]];
    assert calls[..i + 1][..i] == calls[..i];
  }

  lemma {:induction false} StoreMemosTurn<M>(memos: seq<Memo<M>>, i: nat, k: Key<M>, output: M)
    requires i < |memos|
    ensures StoreMemos(memos[..i + 1], k, output)
         == StoreMemos(memos[..i], k, output)
            + [StoreMemo(memos[i], k, output, FoundCall(memos[..i], k), Updated(memos[..i], k))]
    ensures FoundMod(memos[..i + 1], k) <==> FoundMod(memos[..i], k) || memos[i].mod == k.mod
    ensures FoundCall(memos[..i + 1], k) <==>
              FoundCall(memos[..i], k) || (memos[i].mod == k.mod && HasCall(memos[i].calls, k.binding))
    ensures Updated(memos[..i + 1], k) <==>
              Updated(memos[..i], k) || (memos[i].mod == k.mod && UpdatesInCalls(memos[i].calls, k))
  {
    assert memos[..i + 1] == memos[..i] + [memos[i]];
    assert memos[..i + 1][..i] == memos[..i];
  }

  // ---- The lockfile object

  /** What marshalling a thunk or value gives. */
  datatype Marshalled<M> = Good(message: M) | Bad

  datatype Answer<M> = Found(output: M) | NotFound | Failed

  class Lockfile<M(==)> {
    var memos: seq<Memo<M>>

    constructor (memos: seq<Memo<M>>)
      ensures this.memos == memos
    {
      this.memos := memos;
    }

    /** The innermost loop of Store. */
    method UpdateResults(results: seq<Result<M>>, ip: M, op: M, updated0: bool)
      returns (results': seq<Result<M>>, updated: bool)
      ensures results' == StoreResults(results, ip, op)
      ensures updated == (updated0 || HasInput(results, ip))
    {
      results', updated := results, updated0;
      for i := 0 to |results|
        invariant results' == StoreResults(results[..i], ip, op) + results[i..]
        invariant updated == (updated0 || HasInput(results[..i], ip))
      {
        StoreResultsTurn(results, i, ip, op);
        ReplaceNext(StoreResults(results[..i], ip, op), results, i, results[i].(output := op));
        ReplaceNext(StoreResults(results[..i], ip, op), results, i, results[i]);
        if results'[i].input == ip {
          updated := true;
          results' := results'[i := results'[i].(output := op)];
        }
      }
      assert results[..|results|] == results;
    }

    /** The middle loop of Store. */
    method UpdateCalls(calls: seq<Call<M>>, k: Key<M>, op: M, foundCall0: bool, updated0: bool)
      returns (calls': seq<Call<M>>, foundCall: bool, updated: bool)
      ensures calls' == StoreCalls(calls, k, op, updated0)
      ensures foundCall == (foundCall0 || HasCall(calls, k.binding))
      ensures updated == (updated0 || UpdatesInCalls(calls, k))
    {
      calls', foundCall, updated := calls, foundCall0, updated0;
      for i := 0 to |calls|
        invariant calls' == StoreCalls(calls[..i], k, op, updated0) + calls[i..]
        invariant foundCall == (foundCall0 || HasCall(calls[..i], k.binding))
        invariant updated == (updated0 || UpdatesInCalls(calls[..i], k))
      {
        StoreCallsTurn(calls, i, k, op, updated0);
        ghost var done := StoreCalls(calls[..i], k, op, updated0);
        ReplaceNext(done, calls, i, StoreCall(calls[i], k, op, updated));
        ReplaceNext(done, calls, i, calls[i]);
        var call := calls'[i];
        if call.binding != k.binding {
          continue;
        }
        foundCall := true;
        var results: seq<Result<M>>;
        results, updated := UpdateResults(call.results, k.input, op, updated);
        if !updated {
          results := results + [Result(k.input, op)];
        }
        calls' := calls'[i := call.(results := results)];
      }
      assert calls[..|calls|] == calls;
    }

    /** The edit Store makes between loading and saving. */
    method StoreIn(content: seq<Memo<M>>, k: Key<M>, op: M) returns (content': seq<Memo<M>>)
      ensures content' == Stored(content, k, op)
    {
      content' := content;
      var foundMod, foundCall, updated := false, false, false;
      for i := 0 to |content|
        invariant content' == StoreMemos(content[..i], k, op) + content[i..]
        invariant foundMod == FoundMod(content[..i], k)
        invariant foundCall == FoundCall(content[..i], k)
        invariant updated == Updated(content[..i], k)
      {
        StoreMemosTurn(content, i, k, op);
        ghost var done := StoreMemos(content[..i], k, op);
        ReplaceNext(done, content, i, StoreMemo(content[i], k, op, foundCall, updated));
        ReplaceNext(done, content, i, content[i]);
        var memo := content'[i];
        if memo.mod != k.mod {
          continue;
        }
        foundMod := true;
        var calls: seq<Call<M>>;
        calls, foundCall, updated := UpdateCalls(memo.calls, k, op, foundCall, updated);
        if !foundCall {
          calls := calls + [NewCall(k, op)];
        }
        content' := content'[i := memo.(calls := calls)];
      }
      assert content[..|content|] == content;
      if !foundMod {
        content' := content' + [Memo(k.mod, [NewCall(k, op)])];
      }
    }

    /** Returns false, with the file as it was, where the source returns an error. */
    method Store(tp: Marshalled<M>, binding: string, ip: Marshalled<M>, op: Marshalled<M>) returns (ok: bool)
      modifies this
      ensures ok <==> tp.Good? && ip.Good? && op.Good?
      ensures memos == if ok then Stored(old(memos), Key(tp.message, binding, ip.message), op.message) else old(memos)
    {
      var content := memos;
      if tp.Bad? || ip.Bad? || op.Bad? {
        return false;
      }
      memos := StoreIn(content, Key(tp.message, binding, ip.message), op.message);
      return true;
    }

    method Retrieve(tp: Marshalled<M>, binding: string, im: Marshalled<M>) returns (answer: Answer<M>)
      ensures answer.Failed? <==> tp.Bad? || im.Bad?
      ensures !answer.Failed? ==>
                var r := Find(memos, Key(tp.message, binding, im.message));
                answer == if r.Some? then Found(r.value) else NotFound
    {
      if tp.Bad? || im.Bad? {
        return Failed;
      }
      var k := Key(tp.message, binding, im.message);
      for i := 0 to |memos|
        invariant Find(memos, k) == Find(memos[i..], k)
      {
        assert memos[i..][1..] == memos[i + 1..];
        var memo := memos[i];
        if memo.mod != k.mod {
          continue;
        }
        for j := 0 to |memo.calls|
          invariant FindCall(memo.calls, binding, k.input) == FindCall(memo.calls[j..], binding, k.input)
        {
          assert memo.calls[j..][1..] == memo.calls[j + 1..];
          var call := memo.calls[j];
          if call.binding != binding {
            continue;
          }
          for n := 0 to |call.results|
            invariant FindResult(call.results, k.input) == FindResult(call.results[n..], k.input)
          {
            assert call.results[n..][1..] == call.results[n + 1..];
            if call.results[n].input == k.input {
              return Found(call.results[n].output);
            }
          }
        }
      }
      return NotFound;
    }

    /** The edit Remove makes between loading and saving. */
    method RemoveFrom(content: seq<Memo<M>>, k: Key<M>) returns (keptMemos: seq<Memo<M>>)
      ensures keptMemos == Removed(content, k)
    {
      keptMemos := [];
      for i := 0 to |content|
        invariant keptMemos == Removed(content[..i], k)
      {
        assert content[..i + 1][..i] == content[..i];
        var memo := content[i];
        if memo.mod != k.mod {
          keptMemos := keptMemos + [memo];
          continue;
        }
        var keptCalls: seq<Call<M>> := [];
        for j := 0 to |memo.calls|
          invariant keptCalls == RemoveCalls(memo.calls[..j], k)
        {
          assert memo.calls[..j + 1][..j] == memo.calls[..j];
          var call := memo.calls[j];
          if call.binding != k.binding {
            keptCalls := keptCalls + [call];
            continue;
          }
          var keptResults := KeepResults(call.results, k.input);
          if |keptResults| > 0 {
            keptCalls := keptCalls + [call.(results := keptResults)];
          }
        }
        assert memo.calls[..|memo.calls|] == memo.calls;
        if |keptCalls| > 0 {
          keptMemos := keptMemos + [memo.(calls := keptCalls)];
        }
      }
      assert content[..|content|] == content;
    }

    method KeepResults(results: seq<Result<M>>, input: M) returns (kept: seq<Result<M>>)
      ensures kept == RemoveResults(results, input)
    {
      kept := [];
      for n := 0 to |results|
        invariant kept == RemoveResults(results[..n], input)
      {
        assert results[..n + 1][..n] == results[..n];
        if results[n].input != input {
          kept := kept + [results[n]];
        }
      }
      assert results[..|results|] == results;
    }

    method Remove(tp: Marshalled<M>, binding: string, im: Marshalled<M>) returns (ok: bool)
      modifies this
      ensures ok <==> tp.Good? && im.Good?
      ensures memos == if ok then Removed(old(memos), Key(tp.message, binding, im.message)) else old(memos)
    {
      var content := memos;
      if tp.Bad? || im.Bad? {
        return false;
      }
      memos := RemoveFrom(content, Key(tp.message, binding, im.message));
      return true;
    }
  }
}
