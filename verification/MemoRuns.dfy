/** Runs of the lockfile: one goroutine against a plain map, and any number of goroutines
    behind the process-wide lock. */
module MemoRuns {
  import opened Options
  import opened Memo

  datatype Op<M> = Store(k: Key<M>, output: M) | Remove(k: Key<M>) | Retrieve(k: Key<M>)

  function After<M(==)>(content: seq<Memo<M>>, op: Op<M>): seq<Memo<M>> {
    match op
    case Store(k, output) => Stored(content, k, output)
    case Remove(k) => Removed(content, k)
    case Retrieve(_) => content
  }

  function AnswerTo<M(==)>(content: seq<Memo<M>>, op: Op<M>): Option<M> {
    match op
    case Retrieve(k) => Find(content, k)
    case _ => None
  }

  // ---- Against a plain map

  function MapAfter<M(==)>(m: map<Key<M>, M>, op: Op<M>): map<Key<M>, M> {
    match op
    case Store(k, output) => m[k := output]
    case Remove(k) => m - {k}
    case Retrieve(_) => m
  }

  function MapFind<M(==)>(m: map<Key<M>, M>, k: Key<M>): Option<M> {
    if k in m then Some(m[k]) else None
  }

  function MapAnswer<M(==)>(m: map<Key<M>, M>, op: Op<M>): Option<M> {
    match op
    case Retrieve(k) => MapFind(m, k)
    case _ => None
  }

  ghost predicate Represents<M(!new)>(content: seq<Memo<M>>, m: map<Key<M>, M>) {
    forall k: Key<M> :: Find(content, k) == MapFind(m, k)
  }

  function Answers<M(==)>(content: seq<Memo<M>>, ops: seq<Op<M>>): seq<Option<M>>
    decreases |ops|
  {
    if ops == [] then [] else [AnswerTo(content, ops[0])] + Answers(After(content, ops[0]), ops[1..])
  }

  function MapAnswers<M(==)>(m: map<Key<M>, M>, ops: seq<Op<M>>): seq<Option<M>>
    decreases |ops|
  {
    if ops == [] then [] else [MapAnswer(m, ops[0])] + MapAnswers(MapAfter(m, ops[0]), ops[1..])
  }

  lemma {:induction false} StillRepresents<M(!new)>(content: seq<Memo<M>>, m: map<Key<M>, M>, op: Op<M>)
    requires Represents(content, m)
    ensures Represents(After(content, op), MapAfter(m, op))
    ensures AnswerTo(content, op) == MapAnswer(m, op)
  {
    forall k: Key<M>
      ensures Find(After(content, op), k) == MapFind(MapAfter(m, op), k)
    {
      match op
      case Store(k', output) => StoreThenFind(content, k', output, k);
      case Remove(k') => RemoveThenFind(content, k', k);
      case Retrieve(_) =>
    }
  }

  /** The entries of a memo list as a plain map, the first of any duplicates winning. */
  ghost function ResultMap<M>(mod: M, binding: string, results: seq<Result<M>>): map<Key<M>, M> {
    if results == [] then map[]
    else ResultMap(mod, binding, results[1..])[Key(mod, binding, results[0].input) := results[0].output]
  }

  ghost function CallMap<M>(mod: M, calls: seq<Call<M>>): map<Key<M>, M> {
    if calls == [] then map[]
    else CallMap(mod, calls[1..]) + ResultMap(mod, calls[0].binding, calls[0].results)
  }

  ghost function ToMap<M>(content: seq<Memo<M>>): map<Key<M>, M> {
    if content == [] then map[] else ToMap(content[1..]) + CallMap(content[0].mod, content[0].calls)
  }

  lemma {:induction false} ResultMapFinds<M>(mod: M, binding: string, results: seq<Result<M>>, k: Key<M>)
    ensures MapFind(ResultMap(mod, binding, results), k)
         == if k.mod == mod && k.binding == binding then FindResult(results, k.input) else None
  {
    if results != [] {
      ResultMapFinds(mod, binding, results[1..], k);
    }
  }

  lemma {:induction false} CallMapFinds<M>(mod: M, calls: seq<Call<M>>, k: Key<M>)
    ensures MapFind(CallMap(mod, calls), k) == if k.mod == mod then FindCall(calls, k.binding, k.input) else None
  {
    if calls != [] {
      CallMapFinds(mod, calls[1..], k);
      ResultMapFinds(mod, calls[0].binding, calls[0].results, k);
    }
  }

  lemma {:induction false} ToMapFinds<M>(content: seq<Memo<M>>, k: Key<M>)
    ensures MapFind(ToMap(content), k) == Find(content, k)
  {
    if content != [] {
      ToMapFinds(content[1..], k);
      CallMapFinds(content[0].mod, content[0].calls, k);
    }
  }

  lemma {:induction false} SameAnswers<M(!new)>(content: seq<Memo<M>>, m: map<Key<M>, M>, ops: seq<Op<M>>)
    requires Represents(content, m)
    ensures Answers(content, ops) == MapAnswers(m, ops)
    decreases |ops|
  {
    if ops != [] {
      StillRepresents(content, m, ops[0]);
      SameAnswers(After(content, ops[0]), MapAfter(m, ops[0]), ops[1..]);
    }
  }

  /** Whatever the lockfile holds, duplicates included, every run of operations answers as the
      plain map of its entries would. */
  lemma {:induction false} LockfileIsAMap<M(!new)>(content: seq<Memo<M>>, ops: seq<Op<M>>)
    ensures Answers(content, ops) == MapAnswers(ToMap(content), ops)
  {
    forall k: Key<M>
      ensures Find(content, k) == MapFind(ToMap(content), k)
    {
      ToMapFinds(content, k);
    }
    SameAnswers(content, ToMap(content), ops);
  }

  // ---- Behind globalLock

  /** Where a goroutine is in its current operation.  Every phase but Outside holds the lock:
      Store and Remove as a writer, Retrieve as a reader. */
  datatype Phase<M> =
    | Outside
    | Inside
    | Loaded(content: seq<Memo<M>>)
    | Edited(content: seq<Memo<M>>)
    | Leaving(answer: Option<M>)

  datatype Thread<M> = Thread(todo: seq<Op<M>>, done: seq<(Op<M>, Option<M>)>, phase: Phase<M>)

  /** An operation that took effect, and what it answered. */
  datatype Entry<M> = Entry(thread: nat, op: Op<M>, answer: Option<M>)

  /** The log is ghost in spirit: the order in which operations took effect. */
  datatype State<M> = State(file: seq<Memo<M>>, threads: seq<Thread<M>>, log: seq<Entry<M>>)

  function Init<M>(file: seq<Memo<M>>, programs: seq<seq<Op<M>>>): State<M> {
    State(file, seq(|programs|, i requires 0 <= i < |programs| => Thread(programs[i], [], Outside)), [])
  }

  predicate Writes<M>(th: Thread<M>) {
    th.todo != [] && !th.todo[0].Retrieve?
  }

  predicate Holds<M>(th: Thread<M>) {
    !th.phase.Outside?
  }

  /** globalLock: a writer excludes everyone, readers exclude writers. */
  predicate CanAcquire<M>(s: State<M>, t: nat)
    requires t < |s.threads|
  {
    forall u :: 0 <= u < |s.threads| && Holds(s.threads[u]) ==> !Writes(s.threads[t]) && !Writes(s.threads[u])
  }

  predicate Enabled<M>(s: State<M>, t: nat) {
    && t < |s.threads|
    && s.threads[t].todo != []
    && (Holds(s.threads[t]) || CanAcquire(s, t))
  }

  /** The next step of goroutine t. */
  function Step<M(==)>(s: State<M>, t: nat): State<M>
    requires Enabled(s, t)
  {
    var th := s.threads[t];
    var op := th.todo[0];
    match th.phase
    case Outside => s.(threads := s.threads[t := th.(phase := Inside)])
    case Inside => s.(threads := s.threads[t := th.(phase := Loaded(s.file))])
    case Loaded(content) =>
      if op.Retrieve? then
        var answer := AnswerTo(content, op);
        s.(threads := s.threads[t := th.(phase := Leaving(answer))], log := s.log + [Entry(t, op, answer)])
      else
        s.(threads := s.threads[t := th.(phase := Edited(After(content, op)))])
    case Edited(content) =>
      State(content, s.threads[t := th.(phase := Leaving(None))], s.log + [Entry(t, op, None)])
    case Leaving(answer) =>
      s.(threads := s.threads[t := Thread(th.todo[1..], th.done + [(op, answer)], Outside)])
  }

  /** The state after the given goroutines have taken a step each, in that order. */
  function Run<M(==)>(s: State<M>, schedule: seq<nat>): Option<State<M>>
    decreases |schedule|
  {
    if schedule == [] then Some(s)
    else
      var before := Run(s, schedule[..|schedule| - 1]);
      var t := schedule[|schedule| - 1];
      if before.Some? && Enabled(before.value, t) then Some(Step(before.value, t)) else None
  }

  /** The file after the logged operations one after the other. */
  function Replay<M(==)>(file: seq<Memo<M>>, log: seq<Entry<M>>): seq<Memo<M>> {
    if log == [] then file else After(Replay(file, log[..|log| - 1]), log[|log| - 1].op)
  }

  /** Run one after the other in log order, the operations give the logged answers. */
  ghost predicate Sequential<M>(file: seq<Memo<M>>, log: seq<Entry<M>>) {
    log == []
    || (Sequential(file, log[..|log| - 1])
        && log[|log| - 1].answer == AnswerTo(Replay(file, log[..|log| - 1]), log[|log| - 1].op))
  }

  /** What goroutine t did according to the log. */
  function Mine<M>(log: seq<Entry<M>>, t: nat): seq<(Op<M>, Option<M>)> {
    if log == [] then []
    else
      Mine(log[..|log| - 1], t)
      + if log[|log| - 1].thread == t then [(log[|log| - 1].op, log[|log| - 1].answer)] else []
  }

  lemma {:induction false} LogOneMore<M>(file: seq<Memo<M>>, log: seq<Entry<M>>, e: Entry<M>)
    ensures Replay(file, log + [e]) == After(Replay(file, log), e.op)
    ensures Sequential(file, log + [e]) <==> Sequential(file, log) && e.answer == AnswerTo(Replay(file, log), e.op)
    ensures forall t: nat :: Mine(log + [e], t) == Mine(log, t) + if e.thread == t then [(e.op, e.answer)] else []
  {
    assert (log + [e])[..|log|] == log;
  }

  /** What a goroutine has done: its finished operations and the one it is leaving. */
  ghost function Effects<M>(th: Thread<M>): seq<(Op<M>, Option<M>)> {
    if th.phase.Leaving? && th.todo != [] then th.done + [(th.todo[0], th.phase.answer)] else th.done
  }

  ghost predicate GoodThread<M>(s: State<M>, t: nat)
    requires t < |s.threads|
  {
    var th := s.threads[t];
    && (Holds(th) ==> th.todo != [])
    && (th.phase.Loaded? ==> th.phase.content == s.file)
    && (th.phase.Edited? && th.todo != [] ==> Writes(th) && th.phase.content == After(s.file, th.todo[0]))
    && Effects(th) == Mine(s.log, t)
  }

  ghost predicate Exclusive<M>(s: State<M>) {
    forall t, u | 0 <= t < |s.threads| && 0 <= u < |s.threads| && t != u ::
      Holds(s.threads[t]) && Writes(s.threads[t]) ==> !Holds(s.threads[u])
  }

  ghost predicate Inv<M>(file: seq<Memo<M>>, s: State<M>) {
    && Exclusive(s)
    && (forall t :: 0 <= t < |s.threads| ==> GoodThread(s, t))
    && s.file == Replay(file, s.log)
    && Sequential(file, s.log)
  }

  lemma {:induction false} StepKeepsExclusive<M>(s: State<M>, t: nat)
    requires Enabled(s, t) && Exclusive(s)
    ensures Exclusive(Step(s, t))
  {
  }

  lemma {:induction false} StepInv<M>(file: seq<Memo<M>>, s: State<M>, t: nat)
    requires Enabled(s, t) && Inv(file, s)
    ensures Inv(file, Step(s, t))
  {
    StepKeepsExclusive(s, t);
    StepKeepsLog(file, s, t);
    forall u | 0 <= u < |s.threads|
      ensures GoodThread(Step(s, t), u)
    {
      StepKeepsThread(s, t, u);
    }
  }

  lemma {:induction false} StepKeepsLog<M>(file: seq<Memo<M>>, s: State<M>, t: nat)
    requires Enabled(s, t) && GoodThread(s, t) && s.file == Replay(file, s.log) && Sequential(file, s.log)
    ensures Step(s, t).file == Replay(file, Step(s, t).log) && Sequential(file, Step(s, t).log)
  {
    var th := s.threads[t];
    var op := th.todo[0];
    if th.phase.Loaded? && op.Retrieve? {
      LogOneMore(file, s.log, Entry(t, op, AnswerTo(th.phase.content, op)));
    }
    if th.phase.Edited? {
      LogOneMore(file, s.log, Entry(t, op, None));
    }
  }

  lemma {:induction false} StepKeepsThread<M>(s: State<M>, t: nat, u: nat)
    requires Enabled(s, t) && Exclusive(s) && u < |s.threads| && GoodThread(s, t) && GoodThread(s, u)
    ensures GoodThread(Step(s, t), u)
  {
    if u != t {
      assert Step(s, t).threads[u] == s.threads[u];
    }
  }

  lemma {:induction false} RunInv<M>(file: seq<Memo<M>>, programs: seq<seq<Op<M>>>, schedule: seq<nat>)
    requires Run(Init(file, programs), schedule).Some?
    ensures Inv(file, Run(Init(file, programs), schedule).value)
    decreases |schedule|
  {
    if schedule != [] {
      RunInv(file, programs, schedule[..|schedule| - 1]);
      StepInv(file, Run(Init(file, programs), schedule[..|schedule| - 1]).value, schedule[|schedule| - 1]);
    }
  }

  /** Any interleaving is equivalent to a sequential order: the file is what the logged
      operations leave when run one after the other, they answer then what they answered, and
      each goroutine's finished operations are in the log in its own order. */
  lemma {:induction false} InterleavingsAreSequential<M>(file: seq<Memo<M>>, programs: seq<seq<Op<M>>>,
        schedule: seq<nat>)
    requires Run(Init(file, programs), schedule).Some?
    ensures var s := Run(Init(file, programs), schedule).value;
            && s.file == Replay(file, s.log)
            && Sequential(file, s.log)
            && forall t :: 0 <= t < |s.threads| ==> s.threads[t].done <= Mine(s.log, t)
  {
    RunInv(file, programs, schedule);
    var s := Run(Init(file, programs), schedule).value;
    forall t | 0 <= t < |s.threads|
      ensures s.threads[t].done <= Mine(s.log, t)
    {
      assert GoodThread(s, t);
    }
  }

  lemma {:induction false} LogOnlyGrows<M>(s: State<M>, first: seq<nat>, then': seq<nat>)
    requires Run(s, first + then').Some?
    ensures Run(s, first).Some? && Run(s, first).value.log <= Run(s, first + then').value.log
    decreases |then'|
  {
    if then' == [] {
      assert first + then' == first;
    } else {
      assert (first + then')[..|first + then'| - 1] == first + then'[..|then'| - 1];
      LogOnlyGrows(s, first, then'[..|then'| - 1]);
    }
  }

  /** The order respects real time: at any moment the log has every finished operation and no
      operation that has not got the lock, and what comes later is only appended. */
  lemma {:induction false} OrderRespectsRealTime<M>(file: seq<Memo<M>>, programs: seq<seq<Op<M>>>, first: seq<nat>,
        then': seq<nat>)
    requires Run(Init(file, programs), first + then').Some?
    ensures Run(Init(file, programs), first).Some?
    ensures var s := Run(Init(file, programs), first).value;
            && s.log <= Run(Init(file, programs), first + then').value.log
            && forall t :: 0 <= t < |s.threads| ==>
                 && |s.threads[t].done| <= |Mine(s.log, t)|
                 && (!Holds(s.threads[t]) ==> Mine(s.log, t) == s.threads[t].done)
  {
    LogOnlyGrows(Init(file, programs), first, then');
    RunInv(file, programs, first);
    var s := Run(Init(file, programs), first).value;
    forall t | 0 <= t < |s.threads|
      ensures |s.threads[t].done| <= |Mine(s.log, t)|
      ensures !Holds(s.threads[t]) ==> Mine(s.log, t) == s.threads[t].done
    {
      assert GoodThread(s, t);
    }
  }

  ghost predicate Touches<M>(op: Op<M>, k: Key<M>) {
    !op.Retrieve? && op.k == k
  }

  /** In a sequential order a Store is found until a later operation writes its key. */
  lemma {:induction false} StoreStaysFound<M>(file: seq<Memo<M>>, log: seq<Entry<M>>, j: nat, k: Key<M>, output: M)
    requires j < |log| && log[j].op == Store(k, output)
    requires forall i :: j < i < |log| ==> !Touches(log[i].op, k)
    ensures Find(Replay(file, log), k) == Some(output)
    decreases |log|
  {
    var last := |log| - 1;
    var before := Replay(file, log[..last]);
    if j < last {
      StoreStaysFound(file, log[..last], j, k, output);
      assert !Touches(log[last].op, k);
      OthersStayFound(before, log[last].op, k);
    } else {
      StoreThenFind(before, k, output, k);
    }
  }

  lemma {:induction false} OthersStayFound<M>(file: seq<Memo<M>>, op: Op<M>, k: Key<M>)
    requires !Touches(op, k)
    ensures Find(After(file, op), k) == Find(file, k)
  {
    match op
    case Store(k', o) => StoreThenFind(file, k', o, k);
    case Remove(k') => RemoveThenFind(file, k', k);
    case Retrieve(_) =>
  }

  /** Where the log has the n-th operation of goroutine t. */
  lemma {:induction false} LoggedAt<M>(log: seq<Entry<M>>, t: nat, n: nat) returns (j: nat)
    requires n < |Mine(log, t)|
    ensures j < |log| && log[j].thread == t && (log[j].op, log[j].answer) == Mine(log, t)[n]
    ensures |Mine(log[..j], t)| == n
    decreases |log|
  {
    var init := log[..|log| - 1];
    if n < |Mine(init, t)| {
      j := LoggedAt(init, t, n);
      assert init[..j] == log[..j];
    } else {
      j := |log| - 1;
    }
  }

  /** No concurrent Store is lost: after any run, the Store that a goroutine finished as its
      n-th operation took effect once, and its output is in the file unless an operation that
      took effect later writes the same key. */
  lemma {:induction false} NoLostStore<M>(file: seq<Memo<M>>, programs: seq<seq<Op<M>>>, schedule: seq<nat>, t: nat,
        n: nat, k: Key<M>, output: M) returns (j: nat)
    requires Run(Init(file, programs), schedule).Some?
    requires t < |Run(Init(file, programs), schedule).value.threads|
    requires n < |Run(Init(file, programs), schedule).value.threads[t].done|
    requires Run(Init(file, programs), schedule).value.threads[t].done[n].0 == Store(k, output)
    ensures var s := Run(Init(file, programs), schedule).value;
            && j < |s.log| && s.log[j].thread == t && s.log[j].op == Store(k, output) && |Mine(s.log[..j], t)| == n
            && ((forall i :: j < i < |s.log| ==> !Touches(s.log[i].op, k)) ==> Find(s.file, k) == Some(output))
  {
    InterleavingsAreSequential(file, programs, schedule);
    var s := Run(Init(file, programs), schedule).value;
    assert s.threads[t].done[n] == Mine(s.log, t)[n];
    j := LoggedAt(s.log, t, n);
    if forall i :: j < i < |s.log| ==> !Touches(s.log[i].op, k) {
      StoreStaysFound(file, s.log, j, k, output);
    }
  }

  /** While any goroutine has work left, some goroutine can take a step. */
  lemma {:induction false} NoDeadlock<M>(file: seq<Memo<M>>, programs: seq<seq<Op<M>>>, schedule: seq<nat>, t: nat)
    returns (u: nat)
    requires Run(Init(file, programs), schedule).Some?
    requires t < |Run(Init(file, programs), schedule).value.threads|
    requires Run(Init(file, programs), schedule).value.threads[t].todo != []
    ensures Enabled(Run(Init(file, programs), schedule).value, u)
  {
    RunInv(file, programs, schedule);
    var s := Run(Init(file, programs), schedule).value;
    if h: nat :| h < |s.threads| && Holds(s.threads[h]) {
      assert GoodThread(s, h);
      u := h;
    } else {
      u := t;
    }
  }
}
