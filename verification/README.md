# Bass, modelled and proved in Dafny

Bass is a scripting language for running commands in containers. This project models the parts
of its implementation whose correctness is hardest to see and proves what they promise. The
main results are statements about all inputs, all runs or all schedules.

- **The line diff** of the language server (`EditGraph`, `EditScript`, `MyersDiff`, `TextEdits`):
  the greedy search over an in-place array, its backtracking, and the edit script. The distance
  is defined on the edit graph of the whole quadrant, because the search may run past the M by N
  box; the methods are the source's loops over its arrays. The result is a script that turns one
  text into the other with the fewest lines deleted and inserted.
- **The evaluator** (`Values`, `Machine`, `DirectEval`, `Simulation`, `Agreement`, `Trampoline`):
  a continuation is a frame on top of the continuation its closure captured, and scopes live in
  a heap. `DirectEval` is a recursive evaluator without continuations; the two agree in both
  directions. Fuel in `DirectEval` only counts how often a computation goes on after a finished
  part; it is quantified away in `Agreement.MachineAgreesWithDirect`.
- **The laws of the language** (`ScopeLookup`, `EvalLaws`, `KeyLaws`, `MetadataLaws`): what both
  evaluators share, such as which binding a scope's Get finds, how a condition is tested and what
  metadata a value ends with, is pinned down by what comes out of calls and forms.
- **Destructuring** (`HeapGrowth`, `Patterns`, `Destructuring`, `ReadingBack`, `BindingSpots`):
  which symbols a binding sets, what else it may change, and when a pattern filled from the bound
  symbols gives back the value.
- **The trace** (`TraceRing`, `TraceDepth`): a ring of 1000 slots that behaves as a stack with
  bounded loss, whose depth follows the pending continuations and which shows the innermost of
  them when an evaluation fails.
- **The concurrent join** `across` (`Across`): producers, unbuffered channels and a select loop
  that changes shape as it runs, as a state machine over their steps. A run is any interleaving.
- **The memo lockfile** (`Memo`, `MemoEntries`, `MemoRuns`): a three-level list edited in place
  that agrees with a plain map, and a state machine of goroutines that lock, load, edit and save.
- **Scopes and the lexical index** (`Ordering`, `Scopes`, `Lexical`, `LexicalForms`): shadowing
  over a graph of scopes with several parents, completion, and the flat binding list of the
  language server, with what each kind of form puts into it.
- **Thunk messages** (`FileTree`, `CleanPaths`, `ThunkTypes`, `ThunkCodec`, `ThunkReading`,
  `ThunkWriting`, `ThunkCopy`, `ThunkRoundTrip`, `ThunkEquality`): marshalling and unmarshalling
  over mutually recursive types, with directory trees that are flattened to path maps and
  rebuilt. A copy is compared both by its message and with the thunk itself. `ThunkProtos` has the
  loops and the field-by-field methods of the source in their own shape, each tied to its function
  in `ThunkCodec`, which the results are about.

`Options` holds the type of values that may be missing.

Some promises hold of the code only under a condition, which is then part of the result:

- A thunk's copy is Equal to it exactly without globs on host and cache paths that are values,
  Dockerfile paths that are not canonical, and empty directories (`ThunkEquality.CopyIsEqual`;
  `ThunkEquality.GlobsAreLost`, `CleanPaths.UncleanPath` and `FileTree.EmptyDirectoryIsLost` give
  inputs). Which paths are canonical can be read off their components
  (`CleanPaths.SettledWhenCanonical`).
- A message unmarshals exactly when no image in it, at any depth, is a file reference of a release
  before 0.10.0 (`ThunkReading.ThunkUnmarshalsWhenCurrent`). The code has a branch for those, but
  the branch hands a thunk path to a method that only accepts a build input
  (`ThunkReading.LegacyFileFails` gives the input).
- `across` reports the end at once, without any list, exactly when a source is empty or there is
  none, although the other sources may hold values (`Across.EndAfterEverything`;
  `Across.EmptySourceEndsAtOnce` gives the input).
- A list pattern gives back the matched value exactly when each symbol that meets several parts of
  the value meets equal ones (`ReadingBack.ListPatternFits`): always when the symbols are distinct
  (`ReadingBack.BoundPatternFits`), and not for [a a] against [1 2]
  (`ReadingBack.RepeatedSymbolLosesValue`).
- A binding changes no more than the symbols EachBinding reports when its defaults and metadata are
  effect free (`Patterns.BindBindsReported`); a default that calls can change more
  (`Patterns.DefaultBindsUnreported` gives the input). That a successful binding has bound all of
  them holds without a condition (`HeapGrowth.SuccessBindsAll`).

Values the model quantifies over are as in the source's types. Some states are kept apart by
types: a `Filesystem` has paths of single components, as Go's `io/fs` demands of its callers, and
a `LogicalTree` is a tree with sorted, distinct, single-component names, which
`FileTree.MarshalledIsLogical` proves of every tree the source marshals.

Every lemma carries `{:induction false}`, also where nothing in it is inductive: Dafny adds no
induction hypothesis of its own, and where there is an induction the recursive calls show it.

## Model

| member | source | states |
|---|---|---|
| EditGraph.DistBounds | pkg/lsp/diff.go:172-182 | On the edit graph the distance to (x, y) is at least the difference of x and y, at most their sum, and has the parity of their sum, so the search stays inside its array of 2(M+N)+1 slots. |
| EditGraph.NeighboursDifferByOne | pkg/lsp/diff.go:184-194 | A step right or down changes the distance by exactly one, also outside the M by N box, where the search may run. |
| EditGraph.DiagonalStep | pkg/lsp/diff.go:196-200 | Along a diagonal the distance stays where lines match and otherwise stays or grows by two. |
| EditGraph.FrontierIsUnique | pkg/lsp/diff.go:183-202 | A round has one furthest point on a diagonal. |
| EditGraph.GreedyStep | pkg/lsp/diff.go:184-200 | From the furthest points of the round before on the two neighbouring diagonals, the better start followed by matching lines is the furthest point of this round. |
| EditGraph.FirstRound | pkg/lsp/diff.go:184-200 | Round 0 reaches the first line that differs. |
| EditGraph.CornerIsFrontier | pkg/lsp/diff.go:204-210 | The corner (M, N) is the furthest point of its diagonal in the round that equals its distance: overshooting it costs two more edits. |
| EditScript.NoCheaperScript | pkg/lsp/diff.go:171-218 | Every operation list whatever that turns a into b deletes and inserts at least as many lines as the distance. |
| EditScript.DistanceFromLongestCommonSubsequence | pkg/lsp/diff.go:172-218 | The distance is M + N minus twice the length of a longest common subsequence. |
| EditScript.CommonSubsequenceBound | pkg/lsp/diff.go:172-218 | No common subsequence of the two prefixes is longer than the distance allows. |
| MyersDiff.Furthest | pkg/lsp/diff.go:184-202 | One turn of the middle loop stores the furthest point of round d on diagonal k and leaves every slot the round still reads alone; every array access is in bounds. |
| MyersDiff.StoreFrontier | pkg/lsp/diff.go:202-202 | Writing slot k keeps the other parity, which still holds the round before. |
| MyersDiff.RoundFailed | pkg/lsp/diff.go:204-215 | A round that did not reach the corner proves the distance larger and leaves the array ready for the next round. |
| MyersDiff.ShortestEditSequence | pkg/lsp/diff.go:172-218 | For all line lists that are not both empty the search returns from inside its loops, never from the end, in the round that equals the distance, with one snapshot for each round. |
| MyersDiff.Previous | pkg/lsp/diff.go:152-162 | Reading the snapshot of round d finds the furthest point of round d-1 that the snake into (x, y) starts from. |
| MyersDiff.BacktrackStep | pkg/lsp/diff.go:145-166 | The point backtracked to is inside the grid or the loop stops there. |
| MyersDiff.Backtrack | pkg/lsp/diff.go:142-169 | The snakes returned lead from the origin to (M, N): each starts where the one before ends, by one deletion or insertion followed by equal lines, and only the first may be a pure deletion or insertion block. |
| MyersDiff.Add | pkg/lsp/diff.go:81-91 | Finishes an operation and appends it to the buffer, in bounds. |
| MyersDiff.DeleteBlock | pkg/lsp/diff.go:97-112 | Consumes the deletions before a snake's diagonal; the operations so far still turn the first x lines of a into the first y of b. |
| MyersDiff.InsertBlock | pkg/lsp/diff.go:113-125 | Consumes the insertions before a snake's diagonal, with the same invariant. |
| MyersDiff.EqualRun | pkg/lsp/diff.go:127-131 | The diagonal loop skips only lines that are equal. |
| MyersDiff.ConsumeSnake | pkg/lsp/diff.go:93-131 | One snake is consumed up to its end at the cost of its edits. |
| MyersDiff.Operations | pkg/lsp/diff.go:68-137 | For all a and b the operations are in order, turn a into exactly b when applied, fit the buffer, are never empty, cost exactly the distance, and no other list that turns a into b costs less. |
| TextEdits.SplitLinesPieces | pkg/lsp/diff.go:220-226 | The lines of a text concatenate back to it; every line is non-empty and only the last may lack its newline. |
| TextEdits.SimultaneousIsSequential | pkg/lsp/diff.go:35-55 | Applying the edits simultaneously, as the Language Server Protocol 3.17 asks in its section on TextEdit arrays, is applying the operations one after the other. |
| TextEdits.EditsAreWellOrdered | pkg/lsp/diff.go:35-55 | The edits of ordered operations are ordered, do not overlap, lie inside the text and are never empty. |
| TextEdits.Translate | pkg/lsp/diff.go:34-56 | The loop that turns operations into edits drops none of them. |
| TextEdits.ComputeEdits | pkg/lsp/diff.go:32-57 | For all texts: the edits are well ordered and applied simultaneously to the lines of `before` they give `after`. |
| TraceRing.Trace.constructor | pkg/bass/trace.go:10-13 | A new trace is the empty stack. |
| TraceRing.Trace.Record | pkg/bass/trace.go:15-18 | Recording pushes a level on the stack the ring stands for; beyond 1000 levels the oldest readable one is given up. |
| TraceRing.Trace.Pop | pkg/bass/trace.go:29-38 | Popping removes n levels and refuses, where the source panics, exactly when n exceeds the depth. |
| TraceRing.Trace.Caller | pkg/bass/trace.go:20-27 | For every offset under 1000 the frame is the stack's own level, or nothing when that level has been given up or never was; for a larger offset it is what the level's slot holds now. |
| TraceRing.Trace.Frames | pkg/bass/trace.go:44-67 | Frames is exactly the readable levels, oldest first. |
| TraceRing.EveryRun | pkg/bass/trace.go:15-38 | A run of Record and Pop fails exactly when it pops more than it recorded, and the readable window ends at the top and spans at most 1000 levels. |
| TraceRing.RecordsThenPop | pkg/bass/trace.go:15-67 | What n records and a pop leave readable. |
| TraceRing.RecordSlot | pkg/bass/trace.go:15-18 | Recording changes one slot of the ring only. |
| TraceRing.PopSlot | pkg/bass/trace.go:29-38 | Popping a level clears one slot of the ring only. |
| Agreement.MachineAgreesWithDirect | pkg/bass/eval.go:63-78 | The trampolined machine halts with a value or error and a heap if and only if the direct recursive evaluator yields them, for every form, scope, heap and trace. |
| Agreement.HaltsWhenEvaluated | pkg/bass/eval.go:63-78 | Whatever the direct evaluator yields, iterating ready continuations yields too, and a value leaves the trace as it was. |
| Agreement.EvaluatedWhenHalts | pkg/bass/eval.go:63-78 | Whatever the machine halts with in n steps, the direct evaluator yields with fuel n. |
| Simulation.SimEvalForm | pkg/bass/pair.go:80-90 | Evaluating a form calls its continuation with the direct evaluator's value and heap and the trace of the start, or fails with its error on its heap. |
| Simulation.SimEvalOperands | pkg/bass/applicative.go:101-116 | The operands are evaluated left to right, the heap threaded through. |
| Simulation.SimCallWrapped | pkg/bass/applicative.go:87-99 | A wrapped combiner calls its underlying combiner with the evaluated operands. |
| Simulation.SimSecond | pkg/bass/cons.go:86-95 | A cons list evaluates its first part, then its rest, to a pair. |
| Simulation.SimOperative | pkg/bass/operative.go:57-65 | An operative binds its operands and then the caller's scope in a new scope under its static scope, and evaluates its body there. |
| Simulation.SimCallCombiner | pkg/bass/symbol.go:94-180 | Every combiner, symbols and keywords among them, does what the direct evaluator says. |
| Simulation.SimBindForm | pkg/bass/bind.go:58-73 | A bind form is evaluated in a child of the scope whose parent is removed again before the scope is built. |
| Simulation.SimBuild | pkg/bass/bind.go:170-210 | Building binds symbols to the values after them and makes other scopes parents, in order. |
| Simulation.SimBindTo | pkg/bass/list.go:77-111 | Binding a pattern answers the pattern and leaves the direct evaluator's heap, error cases included. |
| Simulation.SimBindForms | pkg/bass/bind.go:75-142 | Binding a scope to a bind pattern takes each key's value or evaluates its default. |
| Simulation.SimAnnotate | pkg/bass/annotated.go:47-98 | An annotated form records its frame, evaluates and pops it, and attaches evaluated metadata; when the form inside fails, the frame is in the trace of the failure. |
| Simulation.SimCallBuiltin | pkg/bass/ground.go:38-203 | The builtins def, if, do, op, eval and wrap do what the direct evaluator says. |
| Simulation.SimDef | pkg/bass/ground.go:38-48 | def evaluates its value and binds the formals in the calling scope. |
| Simulation.SimIf | pkg/bass/ground.go:50-66 | if evaluates its condition and then one branch. |
| Simulation.SimSequence | pkg/bass/ground.go:1171-1184 | do evaluates its body in order and answers the last value. |
| TraceDepth.TraceFollowsContinuations | pkg/bass/continuation.go:65-120 | At every step of every run: Pop never goes too far, the depth exceeds the starting depth by the sum of TracedDepth over the pending continuations, whose forms are exactly what the trace holds above the start, and a successful run ends at the starting trace. |
| TraceDepth.FrameStaysWhileEvaluating | pkg/bass/trace.go:99-115 | While the form under an annotation is evaluated, however long that takes, the annotated form is in the trace right above what was there before. |
| TraceDepth.FailureShowsForm | pkg/bass/annotated.go:97-97 | When the form under an annotation fails, the run ends with the annotated form in its trace, right above what was there before. |
| TraceDepth.FailureKeepsFrames | pkg/bass/annotated.go:47-98 | A failed run leaves exactly the frames of the continuations that were pending. |
| TraceDepth.ReportShowsPending | pkg/bass/trace.go:44-67 | Whichever calls of Record and Pop led to the trace at which a run failed, Frames shows the forms of the innermost pending continuations, and of all of them if the trace was never more than 1000 deep. |
| TraceDepth.StepFollows | pkg/bass/continuation.go:110-154 | One step of the trampoline keeps trace and pending continuations in agreement. |
| TraceDepth.ContinueFollows | pkg/bass/continuation.go:146-154 | Calling any continuation's closure keeps them in agreement. |
| TraceDepth.EvalFollows | pkg/bass/annotated.go:47-98 | Evaluating any form keeps them in agreement, frames recorded on the way included. |
| Trampoline.Bounce | pkg/bass/eval.go:63-78 | The trampoline's loop returns what the iterated machine halts with, an error without another look at the context, and is interrupted only while the machine runs or has just got a value. |
| Trampoline.EvalOnce | pkg/bass/eval.go:38-61 | Evaluating a form through the trampoline never panics and returns what the direct evaluator says. |
| Trampoline.NeverPanics | pkg/bass/trace.go:29-38 | No run of the machine pops more of the trace than it recorded. |
| Trampoline.TailOfIf | pkg/bass/ground.go:50-66 | The branch of an if is evaluated with the continuation of the if itself: nothing is added. |
| Trampoline.TailOfDo | pkg/bass/ground.go:1171-1184 | The last form of a do is evaluated with the continuation of the do itself. |
| Trampoline.TailOfOperative | pkg/bass/operative.go:57-65 | The body of an operative is evaluated with the continuation of the call itself. |
| ScopeLookup.FirstParentWins | pkg/bass/scope.go:360-374 | In any heap, cycles included, what Get answers for a name that the scope does not bind is what the first parent finds that finds anything, and nothing when all parents miss. |
| ScopeLookup.OwnBindingWins | pkg/bass/scope.go:361-364 | A scope's own binding is found, whatever the parents bind. |
| ScopeLookup.AcyclicAnswers | pkg/bass/scope.go:360-374 | Without cycles Get always answers, and so. |
| ScopeLookup.FirstOfTwoParents | pkg/bass/scope.go:366-371 | Of two parents that bind a name the first is asked: the concrete scope. |
| EvalLaws.SymbolIsOwnBinding | pkg/bass/symbol.go:61-68 | A symbol evaluates to its own binding in the scope, whatever the parents bind. |
| EvalLaws.SymbolIsInherited | pkg/bass/symbol.go:61-70 | A symbol that its scope does not bind evaluates as in the first parent in which it is bound, and is unbound when it is unbound in all of them. |
| EvalLaws.ApplicationCalls | pkg/bass/pair.go:80-90 | Operatives, builtins, wrapped combiners and symbols are called, under any metadata; anything else cannot be applied. |
| EvalLaws.KeywordReadsScope | pkg/bass/symbol.go:94-180 | A keyword applied to a scope is the key of the scope. |
| EvalLaws.IfTakesBranch | pkg/bass/ground.go:50-66 | if takes its last form exactly when the condition is false or null, under any metadata. |
| EvalLaws.EvalUsesGivenScope | pkg/bass/ground.go:197-203 | eval evaluates its form in the scope it is given, whoever calls it. |
| EvalLaws.DefBindsInCaller | pkg/bass/ground.go:38-48 | def binds its symbol in the calling scope and nothing else anywhere. |
| EvalLaws.DoThreadsHeap | pkg/bass/ground.go:1171-1184 | do evaluates its second form where the first has had its effect, and answers its value. |
| EvalLaws.OperandsLeftToRight | pkg/bass/applicative.go:87-116 | A wrapped combiner gets its operands evaluated once each, the left one first. |
| EvalLaws.ConsLeftToRight | pkg/bass/cons.go:86-95 | A cons list evaluates its first part and then its rest. |
| EvalLaws.ScopesBecomeParents | pkg/bass/bind.go:58-73 | Scopes in a bind form become the parents of the new scope, in order. |
| EvalLaws.OpRemembersScope | pkg/bass/ground.go:185-195 | op makes an operative of its formals, scope formal and body that remembers the scope it is evaluated in. |
| EvalLaws.BodySeesStaticScope | pkg/bass/operative.go:57-65 | A name that an operative does not bind is what it is where the operative was made, whoever calls it. |
| EvalLaws.BodySeesOperandsAndCaller | pkg/bass/operative.go:57-65 | The body sees the operands and the calling scope under the names the operative gives them. |
| EvalLaws.SymbolCallLooksUp | pkg/bass/symbol.go:136-180 | Calling a symbol on a scope looks it up there; a second argument answers where it is not found. |
| EvalLaws.ConstantPattern | pkg/bass/scope.go:106-115 | A constant pattern accepts an equal value under any metadata and refuses every other. |
| EvalLaws.KeywordPattern | pkg/bass/keyword.go:57-61 | A keyword pattern accepts the symbol of its name and refuses every other value. |
| KeyLaws.KeysAreRead | pkg/bass/bind.go:75-142 | A bind pattern of any length, matched with a scope that does not inherit from the binding scope and has its keys, binds each name to what its key is there, and changes nothing else. |
| KeyLaws.KeyIsRead | pkg/bass/bind.go:75-142 | A key that is not there takes its default, evaluated in the binding scope, or fails. |
| MetadataLaws.KeysMakeScope | pkg/bass/bind.go:58-73 | A bind form of keywords and constants makes a new scope without parents that binds them. |
| MetadataLaws.ValueHasKeys | pkg/bass/annotated.go:47-98 | The value of an annotated form gets a metadata scope with the annotation's keys and its comment as doc, which inherits from the metadata the value had. |
| MetadataLaws.BindingHasKeys | pkg/bass/annotated.go:210-228 | A symbol bound through an annotation is bound to the value with the annotation's keys and the pattern's place as its metadata. |
| MetadataLaws.DefinedSymbolHasDoc | pkg/bass/annotated.go:66-91 | A commented definition leaves the symbol with the comment as its doc and the form's file, line and column. |
| MetadataLaws.OldMetadataComesFirst | pkg/bass/annotated.go:77-86 | A definition whose value has metadata keeps it in front of the definition's own. |
| MetadataLaws.KeyMetadataGoesToValue | pkg/bass/bind.go:184-192 | In a bind form the metadata of a key goes to its value. |
| BindingSpots.ReportedAtInnermost | pkg/bass/annotated.go:230-238 | EachBinding reports the symbols of a pattern in order, each at the innermost annotation around it that has a range, and fails exactly when some part cannot be bound. |
| HeapGrowth.EvalGrows | pkg/bass/pair.go:80-90 | Evaluating any form, whether it succeeds or fails, removes no scope and no binding. |
| HeapGrowth.BindingGrows | pkg/bass/list.go:77-111 | Nor does binding any pattern. |
| HeapGrowth.SuccessBindsAll | pkg/bass/list.go:77-129 | Whatever the defaults and metadata of a pattern do, a successful binding has bound every symbol that EachBinding reports, and EachBinding reports without error. |
| Patterns.EffectFreeKeepsHeap | pkg/bass/bind.go:58-73 | Evaluating constants, symbols, cons lists and bind forms of such, and annotated constants, only adds scopes and leaves those that exist as they were. |
| Patterns.BindBindsReported | pkg/bass/list.go:77-129 | A binding, successful or failed, whose defaults and metadata are effect free in that sense changes in no existing scope anything but values of the symbols EachBinding reports, and a successful one has bound exactly those. |
| Patterns.AnnotatedBindsReported | pkg/bass/annotated.go:210-228 | The same for patterns with comments or metadata, which are evaluated into a new scope first. |
| Patterns.FormsBindReported | pkg/bass/bind.go:75-166 | The same for bind patterns. |
| Patterns.DefaultBindsUnreported | pkg/bass/bind.go:132-136 | The concrete bind pattern whose default `(def y 1)` binds a symbol that EachBinding does not report. |
| Destructuring.LastMeetingIsBound | pkg/bass/list.go:77-111 | After a successful binding the value has the pattern's shape, and each symbol whose last occurrence is not inside a bind pattern is bound to the very part of the value it met there, under one layer of metadata for each annotation around it. |
| ReadingBack.FitsWhenMeetingsAgree | pkg/bass/list.go:77-111 | The pattern filled from the new bindings gives back the matched value, up to metadata, only if each symbol that meets several parts of the value meets equal ones; and also if so, unless a bind pattern has the last word on such a symbol. |
| ReadingBack.ListPatternFits | pkg/bass/list.go:77-111 | For patterns of lists, symbols and constants, with any repetitions, comments and metadata, that is an equivalence. |
| ReadingBack.BoundPatternFits | pkg/bass/list.go:77-129 | When the reported symbols are distinct the pattern gives back the matched value, and each symbol is bound to the very part it met; `_` matches anything. |
| ReadingBack.RepeatedSymbolLosesValue | pkg/bass/list.go:77-111 | The concrete input [a a] bound to [1 2], which keeps the last value only. |
| Across.NothingSkipped | pkg/bass/across.go:77-171 | For every schedule of producers and uninterrupted Next calls each list holds the latest received value of every source, and between lists each source moves on by 0 or 1 with at least one moving: nothing is skipped or reordered. |
| Across.ReadySourcesAdvance | pkg/bass/across.go:119-170 | Every call after the first list collects, before it returns, from each source that has a value ready when the call enters its select loop: such a source has moved on by one in the list returned. |
| Across.BothReadyBothCollected | pkg/bass/across.go:158-166 | For the sources [0 2 ..] and [1 3 ..], both ready, the second list is [2 3]. |
| Across.EndAfterEverything | pkg/bass/across.go:119-170 | End-of-source is reported without any list exactly when there is no source or some source is empty, and otherwise only after every value of every source was in some list. |
| Across.EmptySourceEndsAtOnce | pkg/bass/across.go:83-92 | The concrete join of an empty source and one with a value, which ends before the value is shown. |
| Across.NumberOfLists | pkg/bass/across.go:119-170 | A finished join returned at least as many lists as the longest source has values and at most 1 plus the sum of (length - 1). |
| Across.StepInv | pkg/bass/across.go:119-170 | Every event of every schedule keeps the join's invariant, the shape of the select loop included. |
| Across.NeverStuck | pkg/bass/across.go:61-170 | Until the end is reported some producer or the consumer can move. |
| Across.EveryEventProgresses | pkg/bass/across.go:61-170 | Every event brings a measure down, so the select loop ends between blocking points and every run is finite. |
| Across.RunsAreBounded | pkg/bass/across.go:61-170 | No run is longer than a bound computed from the sources. |
| Memo.StoreThenFind | pkg/bass/memo.go:194-257 | For arbitrary content, duplicates included, Store then Retrieve gives the stored output and every other (module, binding, input) key keeps its answer. |
| Memo.RemoveThenFind | pkg/bass/memo.go:305-342 | For arbitrary content Remove then Retrieve finds nothing and every other key keeps its answer. |
| Memo.StoreLeavesNoEmpty | pkg/bass/memo.go:194-257 | Store keeps the file free of empty call and memo entries. |
| Memo.RemoveLeavesNoEmpty | pkg/bass/memo.go:305-342 | Remove keeps the file free of empty call and memo entries. |
| MemoEntries.StoreKeepsOthers | pkg/bass/memo.go:194-257 | Store keeps every entry under another key as it is, in order. |
| MemoEntries.RemoveKeepsOthers | pkg/bass/memo.go:305-342 | Remove drops exactly the entries under its key. |
| MemoEntries.StoreKeepsTidy | pkg/bass/memo.go:194-257 | A file with one entry for each module, binding and input stays so: a stored key is updated in place. |
| MemoEntries.RemoveKeepsTidy | pkg/bass/memo.go:305-342 | So it does when something is removed. |
| Memo.Lockfile.UpdateResults | pkg/bass/memo.go:209-217 | The innermost loop updates every equal input and reports whether there was one. |
| Memo.Lockfile.UpdateCalls | pkg/bass/memo.go:202-225 | The middle loop updates every call of the binding, its `updated` flag carried over from earlier calls and memos as in the source. |
| Memo.Lockfile.StoreIn | pkg/bass/memo.go:194-255 | The nested loops and flags of Store compute the specification's edit. |
| Memo.Lockfile.Store | pkg/bass/memo.go:163-258 | Store replaces the file by the edited content, or leaves it alone when something does not marshal. |
| Memo.Lockfile.Retrieve | pkg/bass/memo.go:109-146 | Retrieve answers the first match of the nested search. |
| Memo.Lockfile.RemoveFrom | pkg/bass/memo.go:305-340 | The nested loops of Remove compute the specification's edit. |
| Memo.Lockfile.Remove | pkg/bass/memo.go:279-343 | Remove replaces the file by the edited content, or leaves it alone on an error. |
| MemoRuns.LockfileIsAMap | pkg/bass/memo.go:109-343 | Every run of Store, Retrieve and Remove on any lockfile answers as the plain map of its entries would. |
| MemoRuns.InterleavingsAreSequential | pkg/bass/memo.go:161-343 | Any interleaving of the lock, load, edit and save steps of any number of goroutines is equivalent to one sequential order that agrees with each goroutine's own, answers included. |
| MemoRuns.OrderRespectsRealTime | pkg/bass/memo.go:161-343 | That order respects real time: what had finished comes before what had not begun. |
| MemoRuns.NoLostStore | pkg/bass/memo.go:163-258 | After any interleaving, a Store that a goroutine has finished took effect at one place of the sequential order, and its output is in the file unless an operation that took effect later writes its key. |
| MemoRuns.NoDeadlock | pkg/bass/memo.go:161-343 | While a goroutine has work left, some goroutine can step. |
| MemoRuns.StepInv | pkg/bass/memo.go:161-343 | Every step of every goroutine keeps the invariant: writers alone, loaded content current, file equal to the replayed log. |
| Scopes.Scope.VisibleIsFound | pkg/bass/scope.go:360-374 | Get finds a symbol exactly when the scope or an ancestor binds it. |
| Scopes.Scope.FirstParentWins | pkg/bass/scope.go:360-374 | Get finds the own binding, or else what the first parent finds that finds anything. |
| Scopes.Scope.WalkVisits | pkg/bass/scope.go:259-290 | The walk of eachShadow visits each visible symbol not called before, once, diamonds included. |
| Scopes.Scope.WalkOrder | pkg/bass/scope.go:259-290 | The walk goes through the parents in order and then through the scope's remaining symbols in the order in which they were first bound. |
| Scopes.Scope.Set | pkg/bass/scope.go:340-351 | Set binds one symbol, keeps the order of first binding and leaves every other answer of Get alone. |
| Scopes.Scope.EachShadow | pkg/bass/scope.go:259-290 | eachShadow reports, in order, the symbols of its walk with the values of the top scope's Get, and its `called` map grows by just those. |
| Scopes.Scope.Each | pkg/bass/scope.go:255-290 | Each visits every symbol Get can find exactly once and with Get's value. |
| Scopes.Scope.Copy | pkg/bass/scope.go:242-250 | A copy has no parents and the same Get. |
| Scopes.Scope.IsSubsetOf | pkg/bass/scope.go:164-180 | True exactly when the other scope finds every symbol found here, with an equal value. |
| Scopes.Scope.Equal | pkg/bass/scope.go:182-193 | True exactly when both scopes find the same symbols with equal values, or are the same scope. |
| Scopes.Scope.CompleteListsVisible | pkg/bass/scope.go:396-433 | The completion order lists each visible symbol with the prefix exactly once. |
| Scopes.Scope.ShorterLocalsFirst | pkg/bass/scope.go:473-483 | Among the listed local symbols a shorter one never follows, and symbols of one length follow the alphabet. |
| Scopes.Scope.CompleteOrder | pkg/bass/scope.go:421-430 | After the local symbols those of the parents follow, parent by parent in order. |
| Scopes.Scope.Complete | pkg/bass/scope.go:396-433 | Complete lists those symbols with Get's values, locals first and in order of length then spelling, whatever order the map is walked in. |
| Scopes.Scope.CompleteParents | pkg/bass/scope.go:421-430 | The parents' options follow, less those already listed. |
| Ordering.OrderIsUnique | pkg/bass/scope.go:469-483 | A set of names has one enumeration in the order of CompleteOpts. |
| Ordering.ShorterFirstIsStrictTotal | pkg/bass/scope.go:473-483 | CompleteOpts.Less is a strict total order. |
| Ordering.Sort | pkg/bass/scope.go:419-419 | Sorting options with distinct names keeps them all, in order. |
| Lexical.WithinIsContainment | pkg/bass/range.go:17-39 | IsWithin holds exactly when the range starts no earlier and ends no later. |
| Lexical.ContainConserves | pkg/lsp/analyzer.go:350-365 | contain moves each pending binding within the bounds to the index and keeps the others, losing and duplicating none. |
| Lexical.LexicalAnalyzer.AddContained | pkg/lsp/analyzer.go:350-365 | The loop of contain computes that split, in order. |
| Lexical.LexicalAnalyzer.AddBinding | pkg/lsp/analyzer.go:301-324 | Every symbol the form binds is indexed with the bounds, or none when it is not bindable. |
| Lexical.LexicalAnalyzer.AddPending | pkg/lsp/analyzer.go:326-348 | Every symbol the form binds becomes pending. |
| Lexical.LexicalAnalyzer.AddLet | pkg/lsp/analyzer.go:151-179 | A let indexes every other element of its bindings, from the first. |
| Lexical.LexicalAnalyzer.Analyze | pkg/lsp/analyzer.go:30-63 | Analysing a form has the effect of its case, for let, def, fn, defn, op, defop and provide. |
| LexicalForms.FormIsIndexed | pkg/lsp/analyzer.go:151-324 | For each kind of form, exactly these names are added with its bounds: every other element of a let's list from the first, the formals of fn and op and of defn and defop after their name, the scope formals of op and defop, and what was pending inside a scope form; and the first operands of def, defn, defop and provide become pending. |
| LexicalForms.IndexIsExactly | pkg/lsp/analyzer.go:30-63 | The index of a source holds exactly the names its forms bind, and each definition for the first scope form around it that closes after it. |
| LexicalForms.BoundNameIsLocated | pkg/lsp/analyzer.go:65-105 | From every place inside a form Locate finds the names the form binds, and never a binding from further out. |
| LexicalForms.LetBindsName | pkg/lsp/analyzer.go:169-175 | The concrete `(let [x 1] x)`, which indexes x with the let's bounds. |
| Lexical.LexicalAnalyzer.Locate | pkg/lsp/analyzer.go:65-105 | If some indexed binding of the name has bounds around the cursor, the first such is returned and, in an index ordered from the inside out, no other match has bounds strictly inside its own; otherwise a pending binding of the name, if any. |
| Lexical.LexicalAnalyzer.AnalyzeTree | pkg/bass/reader.go:104-149 | Analysing the forms of a source children first, as the reader does, leaves an index ordered from the inside out. |
| Lexical.AnalyzedGrows | pkg/lsp/analyzer.go:151-299 | Analysing a form only adds bindings bounded by the form. |
| Lexical.NestedClosesOutward | pkg/bass/reader.go:104-149 | In a tree of strictly nested forms, no form is read after one that it lies strictly inside. |
| Lexical.SourceIndexIsInnerFirst | pkg/lsp/analyzer.go:30-63 | Whatever the source text, the index of its strictly nested forms is ordered from the inside out. |
| Lexical.PendingIsBounded | pkg/lsp/analyzer.go:181-192 | A pending definition gets the bounds of the first scope form that closes around it, or stays pending. |
| Lexical.FirstAroundIsInnermost | pkg/lsp/analyzer.go:350-365 | That form is the innermost scope form around the definition. |
| FileTree.RemarshalPrunes | pkg/bass/fspath.go:140-163 | Unmarshalling a logical tree and marshalling it back gives the tree without its empty directories. |
| FileTree.RoundTrip | pkg/bass/proto.go:256-314 | It gives back the same tree if and only if no directory of it, the root apart, is empty. |
| FileTree.MarshalledFiles | pkg/bass/proto.go:256-314 | A marshalled tree has each file that can be reached below the path, with its content, and no other. |
| FileTree.LoadedFiles | pkg/bass/fspath.go:218-245 | A loaded tree is a filesystem with each file of the tree and its content, and no other. |
| FileTree.MarshalsWhatIsThere | pkg/bass/proto.go:256-314 | Marshalling a path fails only where there is no file, or no directory, of that name. |
| FileTree.EmptyDirectoryIsLost | pkg/bass/proto.go:256-314 | The concrete tree with one empty directory, which comes back without it. |
| FileTree.RemarshalIsFull | pkg/bass/proto.go:256-314 | What came back once comes back unchanged. |
| FileTree.LoadTreeHolds | pkg/bass/fspath.go:218-245 | Loading a tree into a place that is clear leaves there exactly the tree's files and the directories above them, and nothing changed elsewhere. |
| FileTree.HoldsMarshals | pkg/bass/proto.go:256-314 | Marshalling the top of a filesystem that holds a tree gives that tree. |
| FileTree.MarshalledIsLogical | pkg/bass/proto.go:256-314 | Every tree marshalled from a filesystem has sorted, distinct, single-component names. |
| FileTree.LogicalTreeLoads | pkg/bass/fspath.go:218-245 | Every such tree loads without error into a filesystem with valid paths. |
| FileTree.MemFS.Load | pkg/bass/fspath.go:218-245 | The recursion of loadFS over an in-memory filesystem computes the specification's load, and fails where it does. |
| FileTree.ReadDir | pkg/bass/proto.go:266-269 | The names in a directory, each once, sorted. |
| FileTree.MarshalProto | pkg/bass/proto.go:256-314 | The recursion of FSPath.MarshalProto computes the specification's tree, and fails where it does. |
| ThunkEquality.CopyIsEqual | pkg/bass/thunk.go:608-628 | For every thunk that marshals, unmarshalling its message succeeds and the copy is Equal to it if and only if the message has no globs on host or cache paths that are values, only canonical Dockerfile paths, and no empty directory in a logical tree, at any depth. |
| ThunkCopy.ThunkIsCopied | pkg/bass/proto.go:332-449 | For every thunk that marshals, the copy made from its message has every field of the thunk, compared with the thunk itself down to numbers, strings, paths and file contents: annotations dropped, lists of pairs, one alternative kept, secrets emptied, numbers modulo 2^32, globs of value paths dropped, Dockerfile paths cleaned. |
| ThunkCopy.ValueIsCopied | pkg/bass/proto.go:33-121 | The same for every value. |
| ThunkCopy.ImageIsCopied | pkg/bass/thunk_types.go:372-479 | The same for every image. |
| ThunkCopy.LogicalIsCopied | pkg/bass/fspath.go:140-163 | A copied logical path has the same name and below it the same files with the same contents. |
| ThunkCopy.PlainFieldsSent | pkg/bass/proto.go:333-345 | The message says of the plain fields of a thunk what they are. |
| ThunkEquality.EqualThunksAgree | pkg/bass/thunk.go:608-628 | Equal thunks have one copy in that sense, and so agree in every field a copy keeps. |
| ThunkWriting.ThunkMarshals | pkg/bass/proto.go:332-449 | A thunk marshals if and only if everything in it can be sent: proper lists, values that have a message, alternatives that are set, logical paths that are there, and strings as build arguments. |
| ThunkWriting.ValueMarshals | pkg/bass/proto.go:33-121 | The same for every value. |
| ThunkWriting.AddrNames | pkg/bass/thunk_addr.go:85-96 | A port and its format are not sent one as the other. |
| ThunkWriting.RefNames | pkg/bass/thunk_types.go:124-156 | A tag and a digest are left out when empty and are not sent one as the other. |
| ThunkWriting.BuildNames | pkg/bass/thunk_types.go:828-852 | A Dockerfile and a target are not sent one as the other, and an empty target is left out. |
| ThunkEquality.CopyOfCopyIsEqual | pkg/bass/thunk.go:114-218 | Copying loses nothing twice: a copy that marshals is Equal to its own copy. |
| ThunkRoundTrip.ThunkCopies | pkg/bass/proto.go:332-449 | A thunk's message unmarshals, and re-marshals to itself exactly under that condition; what it re-marshals to always meets it. |
| ThunkRoundTrip.ValueCopies | pkg/bass/proto.go:33-121 | The same for every value: lists, scopes, paths, thunks and annotated values among them. |
| ThunkRoundTrip.WalkCopies | pkg/bass/proto.go:179-201 | A scope marshals each symbol once however often its walk meets it, and comes back with the same symbols in the same order. |
| ThunkRoundTrip.ListIsItsSlice | pkg/bass/proto.go:162-177 | Marshalling a list is marshalling its slice: cons cells and annotated tails count, improper lists fail. |
| ThunkRoundTrip.ImageCopies | pkg/bass/thunk_types.go:372-479 | The same for thunk images of all four kinds. |
| ThunkRoundTrip.RefCopies | pkg/bass/thunk_types.go:124-156 | The same for image references: static repository, address, or neither. |
| ThunkRoundTrip.BuildCopies | pkg/bass/thunk_types.go:799-872 | The same for Docker builds: Dockerfile paths and build arguments. |
| ThunkRoundTrip.ArgsCopy | pkg/bass/thunk_types.go:852-869 | Build arguments come back as they were sent. |
| ThunkRoundTrip.InputCopies | pkg/bass/thunk_types.go:880-940 | The same for build inputs. |
| ThunkRoundTrip.DirCopies | pkg/bass/thunk_types.go:567-623 | The same for working directories. |
| ThunkRoundTrip.SourceCopies | pkg/bass/thunk_types.go:218-298 | The same for mount sources, where host and cache paths keep their globs. |
| ThunkRoundTrip.MountCopies | pkg/bass/thunk_types.go:19-54 | The same for mounts. |
| ThunkRoundTrip.ThunkPathCopies | pkg/bass/thunk_path.go:34-49 | The same for thunk paths. |
| ThunkRoundTrip.AddrCopies | pkg/bass/thunk_addr.go:85-112 | The same for thunk addresses. |
| ThunkRoundTrip.HostCopies | pkg/bass/proto.go:123-133 | A host path comes back with its globs through its own unmarshalling, and through fod exactly when it has none. |
| ThunkRoundTrip.CacheCopies | pkg/bass/cache_path.go:91-101 | The same for cache paths. |
| ThunkEquality.GlobsAreLost | pkg/bass/proto.go:77-87 | The concrete host path with an include glob that does not survive as a value. |
| ThunkReading.ThunkUnmarshalsWhenCurrent | pkg/bass/thunk.go:114-218 | A thunk's message, of whatever origin, unmarshals if and only if no image in it or in a message inside it is a file reference of a release before 0.10.0. |
| ThunkReading.UnmarshalsWhenCurrent | pkg/bass/proto.go:33-121 | The same for every value's message. |
| ThunkReading.ImageUnmarshalsWhenCurrent | pkg/bass/thunk_types.go:372-479 | The same for images of all four kinds. |
| ThunkReading.LegacyFileFails | pkg/bass/thunk_types.go:378-386 | The concrete legacy image that does not unmarshal, alone and in an argument, although a branch is there for it. |
| CleanPaths.CleanPathsSettle | pkg/bass/path.go:220-238 | Every path that came out of path.Clean survives being clarified, sent and cleaned again. |
| CleanPaths.SettledWhenCanonical | pkg/bass/path.go:55-61 | A path comes back from cleaning and clarifying if and only if it is canonical: "/" or "./" before, or "../" in front of, components that are neither empty nor "." and are ".." only where they lead, or "./." itself. |
| CleanPaths.CleanClarified | pkg/bass/path.go:55-61 | Marking a path as relative does not change what it cleans to. |
| CleanPaths.CleanTwice | pkg/bass/path.go:220-228 | Cleaning a path twice is cleaning it once. |
| CleanPaths.CleanLeadsThere | pkg/bass/path.go:220-228 | A cleaned path leads to the same place from every directory. |
| CleanPaths.UncleanPath | pkg/bass/path.go:220-238 | The concrete path "a/" that does not settle. |
| ThunkProtos.MarshalPair | pkg/bass/proto.go:162-177 | Slicing a list and marshalling its elements in a loop gives the list's message, or nothing. |
| ThunkProtos.MarshalBindings | pkg/bass/proto.go:179-201 | The loop over a scope with its `called` set gives the scope's bindings. |
| ThunkProtos.MarshalProto | pkg/bass/proto.go:332-449 | Thunk.MarshalProto fills every field in turn and stops at the first error. |
| ThunkProtos.UnmarshalProto | pkg/bass/thunk.go:114-218 | Thunk.UnmarshalProto fills every field in turn and stops at the first error. |
| MyersDiff.ConsumeAll | pkg/lsp/diff.go:73-136 | The main loop of operations consumes every snake up to (M, N), at the cost of the distance. |
| TextEdits.SplitAfterPieces | pkg/lsp/diff.go:221-221 | Splitting after newlines gives pieces that join to the text, each but the last ending in its only newline and the last without one. |
| Simulation.TracedCall | pkg/bass/continuation.go:65-120 | Calling a traced continuation pops what was recorded for it along with the frame of the annotated form. |
| Trampoline.AfterPart | pkg/bass/continuation.go:146-154 | One step after a part has finished, its frame goes on with the continuation below. |
| Memo.Lockfile.constructor | pkg/bass/memo.go:152-157 | A lockfile starts with what its file holds. |
| Memo.Lockfile.KeepResults | pkg/bass/memo.go:319-324 | The innermost loop of Remove keeps the results of other inputs, in order. |
| Scopes.Scope.constructor | pkg/bass/scope.go:42-47 | A new scope binds nothing and has the given parents. |
| Scopes.Scope.EachParent | pkg/bass/scope.go:260-265 | The loop over the parents reports what their walks visit, in order. |
| Scopes.Scope.EachOwn | pkg/bass/scope.go:267-287 | The loop over the own symbols reports those not called before, with the top scope's values. |
| Scopes.Scope.FromVisits | pkg/bass/scope.go:243-247 | Setting each reported pair in a new scope binds exactly those pairs, in order. |
| Scopes.Scope.FromParent | pkg/bass/scope.go:421-430 | One parent adds its options that are not shadowed; a symbol not listed by then is found by the remaining parents or not at all. |
| Scopes.Scope.AddUnshadowed | pkg/bass/scope.go:422-429 | The inner loop adds an option unless its symbol is listed already. |
| Lexical.LexicalAnalyzer.AddFormals | pkg/lsp/analyzer.go:243-252 | Formals and scope formal of an operative are indexed with its bounds, as far as they are there. |
| ThunkRoundTrip.TreeCopies | pkg/bass/fspath.go:140-163 | A logical path comes back exactly when its tree has no empty directory, the root apart. |
| ThunkRoundTrip.AllCopies | pkg/bass/proto.go:346-353 | The same for the values of a list, argument or stdin. |
| ThunkRoundTrip.MountsCopy | pkg/bass/proto.go:397-404 | The same for the mounts of a thunk. |
| ThunkRoundTrip.ScopeCopies | pkg/bass/proto.go:370-386 | The same for env and labels, absent or empty scopes included. |
| ThunkRoundTrip.PortsCopy | pkg/bass/proto.go:424-429 | Ports truncated to 32 bits stay as they are. |

## Left out

- `Trace.Reset`, which zeroes the depth without clearing slots; the ring's properties are about runs without it.
- Across.NothingSkipped: is about uninterrupted calls of Next; an interrupt can drop a value that was already taken.
- Across.StepInv: the select loop is a state machine over its steps, not a loop in a method, because its partners run beside it; `Close` is not modelled.
- Closing the context of `across` and errors of a source other than its end; the code treats every error as the end.
- MemoRuns.InterleavingsAreSequential: is about goroutines of one process; locks between processes, the text format and partial writes are not modelled, and load and save read and write one shared cell.
- Memo.Lockfile.Retrieve: answers the stored message; the error when a stored output does not unmarshal is not modelled.
- Memo.Lockfile.Store: a marshalling error of a module, input or output is a parameter; errors of locking, loading and saving are not modelled.
- Memo.Lockfile.Remove: errors of locking, loading and saving are not modelled.
- Memo.Lockfile.constructor: the path and the file lock are not modelled.
- TraceDepth.ReportShowsPending: is about every list of calls that ends at the machine's trace; the machine's own calls are not listed one by one.
- Trampoline.Bounce: the number of times the loop finds its context alive is a parameter; pooling of continuations is not modelled.
- Simulation.SimCallBuiltin: covers the builtins def, if, do, op, eval and wrap on already decoded arguments; the argument decoding by reflection and the other builtins are not modelled.
- Agreement.MachineAgreesWithDirect: an error that a value's own evaluation or binding raises for types outside the model (paths, thunks, sources) is not covered; those evaluate to themselves.
- Binding metadata: an annotated form in a binding position stands for the source's AnnotateBinding, and the order in which a scope first bound its symbols is in `Scopes`, not in the evaluator's heap.
- Looking up a symbol in a cyclic scope graph overflows the source's stack; the evaluator reports it as the error StackOverflow.
- KeyLaws.KeysAreRead: is about names bound to symbols and keys that are found; a matched scope that inherits from the binding scope can change while it is read.
- MetadataLaws.ValueHasKeys: is about metadata that are keywords and constants, and values that bind no symbol; a definition of one symbol is in MetadataLaws.DefinedSymbolHasDoc.
- Patterns.BindBindsReported: says nothing of patterns whose defaults or metadata contain calls, or metadata on anything but constants, because those may change any scope.
- ReadingBack.FitsWhenMeetingsAgree: one direction excludes symbols of a list pattern that a bind pattern binds last, because their value comes from a scope and not from the matched value; scopes, operatives and forms inside bind forms are compared by identity.
- Scopes.Scope.Each: the callback collects pairs; a callback that returns an error, which stops the walk early, is not modelled.
- Scopes.Scope.EachShadow: the same.
- Scopes.Scope.EachOwn: the same.
- Scopes.Scope.EachParent: the same.
- Scopes.Scope.Complete: the Annotated wrapper that carries an option's documentation is not in the result.
- Scopes.Scope.IsSubsetOf: the equality of values is a parameter.
- Scopes.Scope.Set: the documentation strings it can attach are not modelled.
- `Assoc`, `GetDecode`, JSON and log output of scopes.
- Lexical.LexicalAnalyzer.Locate: the cursor is compared as the source compares it; characters outside a line are not treated specially, and the analyzer's own Complete is not modelled.
- Lexical.LexicalAnalyzer.AnalyzeTree: each form is analysed once; the reader repeats the analysis on commented or annotated forms, and its tokenizer is not modelled.
- TextEdits.ComputeEdits: edits are positions of whole lines, as the source makes them; the URI is not modelled.
- ThunkEquality.CopyIsEqual: None stands for every error and panic of marshalling; messages whose required parts are missing, which only other programs make, are not modelled.
- ThunkRoundTrip.ValueCopies: the contents of secrets are not marshalled, as in the source.
- ThunkProtos.UnmarshalProto: the receiver is always a fresh value in the source, so it is a set of local variables here; updating a receiver in place and the sharing of its slices are not captured.
- ThunkCodec: the small marshallers of thunk_types.go and their unmarshallers are functions on values; filling a message or receiver field by field is shown for Thunk only.
- FileTree.LoadTreeHolds: paths are sequences of components and modes are not modelled.
- Thunk builder methods, hashes, names, JSON and rendering of thunks and paths.
- BuildKit, SSH forwarding, gRPC, TLS, the shim, the REPL, progress output, documentation, syntax highlighting and generated code.
