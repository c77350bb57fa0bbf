/** The call trace of pkg/bass/trace.go: a ring of TRACE_SIZE slots used as a stack.  It
    never refuses a frame; what it loses is always the oldest levels. */
module TraceRing {
  import opened Options

  const TRACE_SIZE := 1000

  /** The stack the ring stands for: every level recorded and not popped, and the lowest
      level that can still be read. */
  datatype Stack<F> = Stack(levels: seq<F>, low: nat)

  datatype Operation<F> = Record(frame: F) | Pop(n: nat)

  function Max(i: int, j: int): int {
    if i < j then j else i
  }

  function Min(i: int, j: int): int {
    if i < j then i else j
  }

  /** Recording pushes a level and gives up those more than TRACE_SIZE below the top;
      popping drops levels, and a level once given up never comes back. */
  function Do<F>(s: Stack<F>, op: Operation<F>): (r: Option<Stack<F>>)
    ensures r.Some? && s.low <= |s.levels| <= s.low + TRACE_SIZE ==>
              r.value.low <= |r.value.levels| <= r.value.low + TRACE_SIZE
  {
    match op
    case Record(frame) => Some(Stack(s.levels + [frame], Max(s.low, |s.levels| + 1 - TRACE_SIZE)))
    case Pop(n) =>
      if |s.levels| < n then None
      else Some(Stack(s.levels[..|s.levels| - n], Min(s.low, |s.levels| - n)))
  }

  function Run<F>(s: Stack<F>, ops: seq<Operation<F>>): Option<Stack<F>>
    decreases |ops|
  {
    if ops == [] then Some(s)
    else
      var r := Do(s, ops[0]);
      if r.None? then None else Run(r.value, ops[1..])
  }

  /** The frames that can be read. */
  ghost function Visible<F>(s: Stack<F>): seq<F>
    requires s.low <= |s.levels|
  {
    s.levels[s.low..]
  }

  /** The only level that slot i can hold: the one congruent to it in low..low+TRACE_SIZE. */
  function LevelAt(low: int, i: int): int {
    low + (i - low) % TRACE_SIZE
  }

  lemma {:induction false} LevelAtIsUnique(low: int, level: int, i: int)
    requires low <= level < low + TRACE_SIZE && 0 <= i < TRACE_SIZE
    requires level % TRACE_SIZE == i
    ensures LevelAt(low, i) == level
  {
    var q := level / TRACE_SIZE;
    assert level == q * TRACE_SIZE + i;
    assert (i - low) % TRACE_SIZE == (level - low) % TRACE_SIZE by {
      assert level - low == i - low + q * TRACE_SIZE;
      ModShift(i - low, q);
    }
  }

  lemma {:induction false} ModShift(x: int, q: int)
    ensures (x + q * TRACE_SIZE) % TRACE_SIZE == x % TRACE_SIZE
    decreases if q < 0 then -q else q
  {
    if q > 0 {
      ModShift(x, q - 1);
    } else if q < 0 {
      ModShift(x, q + 1);
    }
  }

  /** Every slot belongs to exactly one level of the window. */
  lemma {:induction false} LevelAtInWindow(low: int, i: int)
    requires 0 <= i < TRACE_SIZE
    ensures low <= LevelAt(low, i) < low + TRACE_SIZE && LevelAt(low, i) % TRACE_SIZE == i
  {
    var q := (i - low) / TRACE_SIZE;
    assert LevelAt(low, i) == i + (-q) * TRACE_SIZE;
    ModShift(i, -q);
  }

  function SlotContent<F>(s: Stack<F>, i: int): Option<F>
    requires 0 <= i < TRACE_SIZE
  {
    var level := LevelAt(s.low, i);
    if 0 <= level < |s.levels| then Some(s.levels[level]) else None
  }

  class Trace<F> {
    var frames: array<Option<F>>
    var depth: int
    ghost var stack: Stack<F>

    ghost predicate Valid()
      reads this, frames
    {
      && frames.Length == TRACE_SIZE
      && depth == |stack.levels|
      && stack.low <= depth <= stack.low + TRACE_SIZE
      && forall i :: 0 <= i < TRACE_SIZE ==> frames[i] == SlotContent(stack, i)
    }

    constructor ()
      ensures Valid() && fresh(frames) && stack == Stack([], 0)
    {
      frames := new Option<F>[TRACE_SIZE](_ => None);
      depth := 0;
      stack := Stack([], 0);
    }

    method Record(frame: F)
      requires Valid()
      modifies this, frames
      ensures Valid() && frames == old(frames)
      ensures Do(old(stack), Operation.Record(frame)) == Some(stack)
    {
      frames[depth % TRACE_SIZE] := Some(frame);
      depth := depth + 1;
      stack := Do(stack, Operation.Record(frame)).value;
      forall i | 0 <= i < TRACE_SIZE
        ensures frames[i] == SlotContent(stack, i)
      {
        RecordSlot(old(stack), frame, i);
      }
    }

    /** Returns false where the source panics: more was popped than is there. */
    method Pop(n: nat) returns (ok: bool)
      requires Valid()
      modifies this, frames
      ensures Valid() && frames == old(frames)
      ensures ok == Do(old(stack), Operation.Pop(n)).Some?
      ensures stack == if ok then Do(old(stack), Operation.Pop(n)).value else old(stack)
    {
      if depth < n {
        return false;
      }
      ghost var start := stack;
      assert start.levels[..|start.levels| - 0] == start.levels;
      for i := 0 to n
        invariant Valid() && frames == old(frames)
        invariant Do(start, Operation.Pop(i)) == Some(stack)
      {
        label before:
        depth := depth - 1;
        frames[depth % TRACE_SIZE] := None;
        ghost var was := stack;
        stack := Do(start, Operation.Pop(i + 1)).value;
        forall j | 0 <= j < TRACE_SIZE
          ensures frames[j] == SlotContent(stack, j)
        {
          assert j != depth % TRACE_SIZE ==> frames[j] == old@before(frames[j]);
          assert was.levels[..|was.levels| - 1] == stack.levels;
          PopSlot(was, stack, j);
        }
      }
      return true;
    }

    /** The frame `offset` levels below the top.  For every offset under TRACE_SIZE this is
        the stack's own answer; beyond, it is whatever level has the slot now. */
    method Caller(offset: nat) returns (frame: Option<F>)
      requires Valid()
      ensures frame == if depth - 1 - offset < 0 then None else SlotContent(stack, (depth - 1 - offset) % TRACE_SIZE)
      ensures offset < TRACE_SIZE ==>
                frame == if stack.low <= depth - 1 - offset then Some(stack.levels[depth - 1 - offset]) else None
    {
      var cur := depth - 1 - offset;
      if cur < 0 {
        return None;
      }
      if offset < TRACE_SIZE {
        ReadSlot(stack, cur);
      }
      return frames[cur % TRACE_SIZE];
    }

    /** Frames: the readable levels, oldest first. */
    method Frames() returns (out: seq<F>)
      requires Valid()
      ensures out == Visible(stack)
    {
      out := [];
      var offset := depth % TRACE_SIZE;
      var i := offset;
      while i < TRACE_SIZE
        invariant offset <= i <= TRACE_SIZE
        invariant out == Between(stack, depth - TRACE_SIZE + (i - offset))
      {
        var frame := frames[i];
        SlotOfWindow(depth - TRACE_SIZE + (i - offset), depth, i, offset);
        ReadSlot(stack, depth - TRACE_SIZE + (i - offset));
        if frame.None? {
          i := i + 1;
          continue;
        }
        out := out + [frame.value];
        i := i + 1;
      }
      i := 0;
      while i < offset
        invariant 0 <= i <= offset
        invariant out == Between(stack, depth - offset + i)
      {
        var frame := frames[i];
        SlotOfWindow(depth - offset + i, depth, i, offset);
        ReadSlot(stack, depth - offset + i);
        if frame.None? {
          i := i + 1;
          continue;
        }
        out := out + [frame.value];
        i := i + 1;
      }
    }
  }

  lemma {:induction false} RecordSlot<F>(s: Stack<F>, frame: F, i: int)
    requires s.low <= |s.levels| <= s.low + TRACE_SIZE && 0 <= i < TRACE_SIZE
    ensures SlotContent(Do(s, Record(frame)).value, i)
         == if i == |s.levels| % TRACE_SIZE then Some(frame) else SlotContent(s, i)
  {
    var depth, s' := |s.levels|, Do(s, Record(frame)).value;
    LevelAtInWindow(s.low, i);
    LevelAtInWindow(s'.low, i);
    if i == depth % TRACE_SIZE {
      LevelAtIsUnique(s'.low, depth, i);
    } else {
      if s'.low == s.low + 1 {
        LevelAtIsUnique(s'.low, LevelAt(s.low, i), i) by {
          assert LevelAt(s.low, i) != s.low by {
            ModShift(s.low, 1);
          }
        }
      }
      assert LevelAt(s'.low, i) == LevelAt(s.low, i);
    }
  }

  lemma {:induction false} PopSlot<F>(s: Stack<F>, s': Stack<F>, i: int)
    requires s.low <= |s.levels| <= s.low + TRACE_SIZE && 0 <= i < TRACE_SIZE
    requires Do(s, Pop(1)) == Some(s')
    ensures SlotContent(s', i) == if i == |s'.levels| % TRACE_SIZE then None else SlotContent(s, i)
  {
    LevelAtInWindow(s.low, i);
    LevelAtInWindow(s'.low, i);
    if i == |s'.levels| % TRACE_SIZE {
      LevelAtIsUnique(s'.low, |s'.levels|, i);
    }
  }

  /** What the slot of any level within TRACE_SIZE of the top holds. */
  lemma {:induction false} ReadSlot<F>(s: Stack<F>, level: int)
    requires s.low <= |s.levels| <= s.low + TRACE_SIZE
    requires |s.levels| - TRACE_SIZE <= level < |s.levels|
    ensures SlotContent(s, level % TRACE_SIZE)
         == if s.low <= level then Some(s.levels[level]) else None
  {
    var i := level % TRACE_SIZE;
    if s.low <= level {
      LevelAtIsUnique(s.low, level, i);
    } else {
      ModShift(level, 1);
      LevelAtIsUnique(s.low, level + TRACE_SIZE, i);
    }
  }

  lemma {:induction false} SlotOfWindow(level: int, depth: int, i: int, offset: int)
    requires 0 <= depth && offset == depth % TRACE_SIZE && 0 <= i < TRACE_SIZE
    requires level == depth - TRACE_SIZE + (i - offset) || level == depth - offset + i
    ensures level % TRACE_SIZE == i
  {
    var q := depth / TRACE_SIZE;
    ModShift(i, q);
    ModShift(i, q - 1);
  }

  /** The readable levels below `end`. */
  ghost function Between<F>(s: Stack<F>, end: int): seq<F>
    requires end <= |s.levels|
  {
    if s.low <= end then s.levels[s.low..end] else []
  }

  // ---- Whole runs

  /** From an empty trace, recording n frames and popping at most TRACE_SIZE of them leaves
      readable what the last TRACE_SIZE of the n frames leave after the pop. */
  lemma {:induction false} RecordsThenPop<F>(frames: seq<F>, n: nat)
    requires n <= |frames|
    ensures var low := Max(0, |frames| - TRACE_SIZE);
            Run(Stack([], 0), Records(frames) + [Pop(n)])
            == Some(Stack(frames[..|frames| - n], Min(low, |frames| - n)))
  {
    RunAppend(Stack([], 0), Records(frames), Pop(n));
    RunRecords(frames);
  }

  ghost function Records<F>(frames: seq<F>): seq<Operation<F>> {
    seq(|frames|, i requires 0 <= i < |frames| => Record(frames[i]))
  }

  lemma {:induction false} RunAppend<F>(s: Stack<F>, ops: seq<Operation<F>>, op: Operation<F>)
    ensures Run(s, ops + [op])
         == if Run(s, ops).None? then None else Do(Run(s, ops).value, op)
    decreases |ops|
  {
    if ops == [] {
      assert [op][1..] == [];
    } else {
      assert (ops + [op])[1..] == ops[1..] + [op];
      if Do(s, ops[0]).Some? {
        RunAppend(Do(s, ops[0]).value, ops[1..], op);
      }
    }
  }

  lemma {:induction false} RunRecords<F>(frames: seq<F>)
    ensures Run(Stack([], 0), Records(frames)) == Some(Stack(frames, Max(0, |frames| - TRACE_SIZE)))
  {
    if frames != [] {
      var init, last := frames[..|frames| - 1], frames[|frames| - 1];
      RunRecords(init);
      assert Records(frames) == Records(init) + [Record(last)] && init + [last] == frames;
      RunAppend(Stack([], 0), Records(init), Record(last));
    } else {
      assert Records(frames) == [];
    }
  }

  /** In every run the readable window ends at the top and spans at most TRACE_SIZE levels,
      and a run cannot fail unless it pops more than it recorded. */
  lemma {:induction false} EveryRun<F>(ops: seq<Operation<F>>)
    ensures Run(Stack([], 0), ops).None? <==> Overpops(ops)
    ensures Run(Stack([], 0), ops).Some? ==>
              var s := Run(Stack([], 0), ops).value;
              |s.levels| == Height(ops) && s.low <= |s.levels| <= s.low + TRACE_SIZE
    decreases |ops|
  {
    if ops != [] {
      var init, last := ops[..|ops| - 1], ops[|ops| - 1];
      EveryRun(init);
      assert ops == init + [last];
      RunAppend(Stack([], 0), init, last);
    }
  }

  /** Records minus pops. */
  ghost function Height<F>(ops: seq<Operation<F>>): int {
    if ops == [] then 0
    else
      Height(ops[..|ops| - 1]) + if ops[|ops| - 1].Record? then 1 else 0 - ops[|ops| - 1].n
  }

  ghost predicate Overpops<F>(ops: seq<Operation<F>>) {
    ops != [] && (Overpops(ops[..|ops| - 1]) || Height(ops) < 0)
  }
}
