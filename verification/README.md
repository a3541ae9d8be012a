# Verified models of the skynet runtime

This project models, in Dafny, the parts of the skynet actor runtime and of the libraries it carries
whose correctness is least obvious from reading them, and proves what they are for. `dafny verify
dfyconfig.toml` checks everything.

**LPeg: compiler and parsing machine.** `PegTree` gives pattern trees a recursive meaning, captures included.
`Analyses` holds the static analyses of the compiler with their soundness. `Machine` is the parsing machine as
one step function over (pc, position, backtrack stack, capture list); a state that breaks an assertion of the
C code, or closes a capture that a choice on the stack would restore half closed, is `Stuck`. `CodeGen` says
what code is generated, `Fragments` how each piece of code behaves and how pieces compose, and `Simulation`
proves by induction on the tree that running the code of a pattern, then anything that accepts only heads of
the follow set, has the outcome of the meaning. In the outcome a match may be given up when the next character
cannot start the continuation; this is what makes the head-fail and disjoint-first shortcuts true. `Layouts`
and `Peephole` treat the jump-rewriting pass, `Compiler` the compiler as it works (a code array patched in
place), `Interpreter` the `match` loop over its growing arrays. The final statement is
`Interpreter.MatchPattern`. `CaptureList`, `CaptureSearch` and `CaptureReading` are about the capture list,
the searches over it and reading it, `Associativity` and `TreeArray` about the in-place correction of
left-nested trees, `CharsetBits` about the bitmaps of sets.

**Lua's incremental collector.** `ObjectGraph`, `Sweeping`, `CollectorInvariants` and `Mutation` are the
specification of marking, sweeping and stores; `GarbageCollector.GlobalState` is the collector with the
operations of the program that need barriers. Events of a run name objects by paths of references from a
root, so that they only use what the program can reach. The set `seen` is what was reachable when the
collection began and what was created since.

**Actor scheduler.** In `Scheduler` any number of threads run the code of the message queues, the
contexts and the dispatch loop; each locked block and each atomic operation is one step. The invariant
counts, for every context and queue, the references, holds and stages of deletion over all threads.
Handles may be given out again, and a context can be found before its queue is made. `Dispatching` says exactly
what can go wrong and when; `FailingRuns` has a run for each failure.
`MessageRuns` follows the messages through a run. `MessageQueue` is the ring buffer inside a queue,
`HandleStorage` and `NameOrder` the table of handles and names, `HandleRuns` what is live and named after a run.

**Timer.** `TimerWheel` says in which slot a timer belongs at a given time and how that changes from tick
to tick with 32-bit wrap-around, `TimerQueue` is the wheel itself, `TimerRuns` whole runs.

**Sockets.** `SendQueue` specifies the stream of one TCP socket, `SocketStates` what every request and event
does to the socket as a value, `SocketProgress` what gets written, `SocketServer.Socket` is the socket with its
two priority lists; what the kernel answers to each write is a list fixed in advance, any one.

**Shared snapshots.** `SharedCopies` has any number of threads in the spin reader/writer lock (the version
without pthread) and in the reference-counted copy-on-write objects guarded by it, one memory access per step;
`CopyRuns` says what readers get and writers publish.

**Codecs and tables.** `Frames` and `Netpack` cut byte streams into packages; `HashChains` and `FrozenTable`
are the frozen shared table; `Serial`, `SerialForms` and `SerialBlocks` the serializer; `Des`, `DesStandard`
and `KeyExchange` the block cipher with padding, the same cipher as FIPS 46-3 describes it, and the modular
arithmetic of the key exchange.

Main results, to read first:

- `Interpreter.MatchPattern`: compile, peephole pass and `match` give, for every well-formed pattern, subject
  and position, the end and the captures of the pattern's meaning, or no match, or an error exactly when the run
  needs more stack or captures than allowed; the capture list can be read back. `Compiler.ClosingIsUndone`: in every run, closing a capture in
  place is undone by backtracking.
- `GarbageCollector.GlobalState.Run` and `FullGC`: no reachable object is ever freed; a full collection leaves
  the least set that holds the roots and that references do not leave.
- `Scheduler.OnePlace`, `OneWorker`, `FreedOnce`: where a message queue is, in every interleaving.
  `MessageRuns.PushedIsSent`: a queue gets exactly what is sent to it.
  `Dispatching.FailsInRun`, `NoReuseIsSafe`, `NoZeroIsSafe`, `NoneEarly`: exactly which runs touch freed memory,
  use a queue before it is made or fail an assertion, and what rules it out.
- `TimerRuns.FiresOnTime`, `FiresRequested`, `FiresOnce`: every timer fires once, at the tick at which its delay
  ends, in the order requested.
- `SocketServer.Socket.Run`: what is on the wire after any sends, partial writes, reads, errors and closes, and
  exactly when data is dropped. `SocketProgress.WritableEmpties`, `SocketServer.Socket.RunOut`: a willing kernel
  gets everything that was accepted.
- `SharedCopies.NeverTogether`, `HeldIsThere`, `FreedForGood`: mutual exclusion, counts and single freeing.
  `CopyRuns.SnapshotWasCurrent`, `CurrentIsPublished`.
- `HandleStorage.Run`, `Netpack.Queue.Receive`, `FrozenTable.Table.Index` and `AllKeys`,
  `SerialBlocks.PackUnpack`, `Des.RoundTrip`, `DesStandard.CryptIsStandard`, `KeyExchange.PowMod64` and `Exchange`,
  `TreeArray.FinalFixCorrect`.

Findings about the C code, each with the exact condition and a failing run or input:

- `powmodp` returns its base unreduced when the exponent is 1. The result is wrong for exactly one pair of
  arguments with exponent at least 1, the base P with the exponent 1 (`KeyExchange.PowMod64`).
- `skynet_context_new` sets `init` and logs through the context after it gave up its reference, and
  `cmd_launch` reads the handle from it. Another thread may have retired the service by then
  (`Dispatching.FailsExactly`, `FailsInRun`, `FailingRuns.RetiredWhileLaunching`).
- A context is registered before `ctx->queue` is set. A message to its handle in between, from a thread that
  knew an earlier service with that handle, goes through an uninitialised pointer (`Dispatching.NoneEarly`,
  `FailingRuns.SentTooEarly`).
- When the 24-bit handles start again, a worker that still has the queue of a retired service can grab the
  new service with the same handle: it then serves it from the wrong queue, and an assertion of the dispatch
  loop fails (`Dispatching.ForeignExactly`, `BrokenExactly`, `FailingRuns.HandleGivenOutAgain`).
- A registered handle can have the local part 0; `HandleStorage.Handles.Register` says when, in terms of the
  table before the call. With harbor 0 that handle is 0, which `skynet_handle_findname` uses for "none"
  (`HandleStorage.NumbersStartAgain`). When a service with handle 0 goes while a message for it waits, the
  assertion of `drop_message` fails (`Dispatching.NoZeroIsSafe`, `FailingRuns.DroppedFromZero`).
- `send_socket` on a socket of type BIND queues the message without asking for write events, as the direct
  write and its branch are for type CONNECTED only. What waits on such a socket is never written while it
  stays open (`SocketServer.Socket.Run`, `SocketServer.BindAndSend`).
- When the peer ends its side of a connection, `forward_message_tcp` closes it and drops what still waits to be
  written, on a half-closed socket too (`SocketStates.LosesExactly`, `SocketServer.PeerEnds`).
- After `send_buffer` has drained the low list the socket stays watched until one more write event, which
  is also what closes a half-closed socket; `SocketServer.Socket.Run` states that a half-closed socket that
  was not bound is always watched.
- `ldesdecode` compares a signed index with an unsigned bound: one block that deciphers to zeros makes it read
  before its buffer (`Des.DesDecode`, `OutsideExactly`, `ReadsOutside`).
- The serializer passes a 32-bit string length as an int. The length 0xFFFFFFFF gets past both size tests
  (`Serial.OutsideExactly`, `Serial.ReadsOutside`).

## Model

| member | source | states |
|---|---|---|
| PegTree.RepSucceeds | tower/share/skynet/3rd/lpeg/lpvm.c:147-351 | A repetition never fails, at any position of any subject. |
| Analyses.NullableSound | tower/share/skynet/3rd/lpeg/lpcode.c:172-206 | A pattern that checkaux does not call nullable consumes at least one character in every match. |
| Analyses.NoFailSound | tower/share/skynet/3rd/lpeg/lpcode.c:172-206 | A pattern that checkaux calls no-fail matches at every position of every subject. |
| Analyses.FixedLenSound | tower/share/skynet/3rd/lpeg/lpcode.c:213-246 | A length that fixedlenx gives is the length of every match, on top of what it had counted before. |
| Analyses.HasCapturesSound | tower/share/skynet/3rd/lpeg/lpcode.c:131-151 | A pattern without captures according to hascaptures makes none in any match. |
| Analyses.FirstSound | tower/share/skynet/3rd/lpeg/lpcode.c:267-343 | At a head outside the set of getfirst the pattern fails, or it matches the empty string and the head is outside the follow set as well. |
| Analyses.FirstEmptySound | tower/share/skynet/3rd/lpeg/lpcode.c:267-343 | If getfirst returns 0 the pattern fails at the end of the subject. |
| Analyses.HeadFailSound | tower/share/skynet/3rd/lpeg/lpcode.c:350-372 | If headfail holds, the pattern matches exactly when there is a next character and it is in the first set: both directions. |
| Analyses.TestSkips | tower/share/skynet/3rd/lpeg/lpcode.c:587-608 | A test instruction generated for a pattern can skip it: where the test rejects, the pattern fails. |
| CharsetBits.CharsetType | tower/share/skynet/3rd/lpeg/lpcode.c:41-82 | The byte-wise count over the bitmap tells empty, full, singleton (with its character) and other sets apart exactly as the set itself does. |
| CharsetBits.Complement | tower/share/skynet/3rd/lpeg/lpcode.c:88-90 | Flipping all bytes in place leaves the complement of the set. |
| CharsetBits.Equal | tower/share/skynet/3rd/lpeg/lpcode.c:92-95 | The comparison of bitmaps is equality of the sets. |
| CharsetBits.DisjointSets | tower/share/skynet/3rd/lpeg/lpcode.c:97-100 | The byte-wise test holds exactly when the sets have no common character. |
| Machine.ReachUnique | tower/share/skynet/3rd/lpeg/lpvm.c:147-351 | The machine is deterministic: two runs from one state that halt, halt in the same state. |
| Machine.RunUnique | tower/share/skynet/3rd/lpeg/lpvm.c:147-351 | The same for two given traces. |
| CaptureList.FlattenTwice | tower/share/skynet/3rd/lpeg/lpvm.c:330-347 | Capture entries made by two matches in a row are those of the concatenated captures. |
| CaptureList.LastIsClosed | tower/share/skynet/3rd/lpeg/lpvm.c:314-329 | After captures were made inside, the last entry is never open, so a close cannot be done in place on the wrong entry. |
| CaptureReading.ReadsBack | tower/share/skynet/3rd/lpeg/lpcap.c:81-104 | Reading the list of any captures, full entries by their size and open ones up to their close mark, gives the captures back with kinds, keys and extents. |
| CaptureReading.FirstAndLast | tower/share/skynet/3rd/lpeg/lpcap.c:15-19 | The first entry of a capture has its start, kind and key; closeaddr of the last entry is its end. |
| CaptureReading.SizesFit | tower/share/skynet/3rd/lpeg/lpvm.c:314-336 | Every size fits in the byte that it is kept in. |
| CaptureReading.CapturesInOrder | tower/share/skynet/3rd/lpeg/lpcap.c:81-104 | The captures of a match lie between its start and its end, one behind the other, and those made inside a capture lie inside its extent. |
| Fragments.CharRuns | tower/share/skynet/3rd/lpeg/lpcode.c:534-540 | The code for a character, with or without the dominating test, matches exactly the one-character set. |
| Fragments.SeqOutcome | tower/share/skynet/3rd/lpeg/lpcode.c:891-916 | A first part that matched, followed by a second with its outcome, has the outcome of the sequence, captures in order. |
| Fragments.OptionalRuns | tower/share/skynet/3rd/lpeg/lpcode.c:650-685 | Inside an optional pattern the partial commit that reuses the enclosing choice gives the meaning of p?. |
| Fragments.TestChoiceRuns | tower/share/skynet/3rd/lpeg/lpcode.c:650-685 | Test, p1, jump, p2: the code with the test alone decides an ordered choice whose branches have disjoint first sets or a head-fail first branch. |
| Fragments.ChoiceRuns | tower/share/skynet/3rd/lpeg/lpcode.c:650-685 | Test, choice, p1, commit, p2 gives the meaning of the ordered choice, whether or not p1 was entered. |
| Fragments.CommitReach | tower/share/skynet/3rd/lpeg/lpcode.c:650-685 | After the commit it makes no difference whether the optional code fell through or succeeded by failing to its choice. |
| Fragments.TestRepTurn | tower/share/skynet/3rd/lpeg/lpcode.c:749-785 | One turn of the loop guarded by a test alone, leaving at the test or giving up only at a head the continuation rejects. |
| Fragments.RepEnters | tower/share/skynet/3rd/lpeg/lpcode.c:749-785 | Entering the choice/partial-commit loop, with the enclosing choice reused when the repetition is optional. |
| Fragments.RepTurn | tower/share/skynet/3rd/lpeg/lpcode.c:749-785 | One turn of p1; partialcommit: the choice on top moves to the position and the captures reached. |
| Fragments.NotRuns | tower/share/skynet/3rd/lpeg/lpcode.c:795-809 | The three code forms of a negative look-ahead succeed, without captures, exactly when the body fails. |
| Fragments.AndRuns | tower/share/skynet/3rd/lpeg/lpcode.c:693-709 | choice, body, backcommit: a positive look-ahead drops what it matched and captured. |
| Fragments.AndBehindRuns | tower/share/skynet/3rd/lpeg/lpcode.c:693-709 | A fixed-length look-ahead without captures may match and walk back instead. |
| Fragments.BehindRuns | tower/share/skynet/3rd/lpeg/lpcode.c:632-636 | A look-behind tries its body the fixed number of characters earlier and fails near the start of the subject. |
| Fragments.FullCaptureRuns | tower/share/skynet/3rd/lpeg/lpcode.c:717-729 | A short fixed-length capture-free body may be captured afterwards in one entry. |
| Fragments.CaptureRuns | tower/share/skynet/3rd/lpeg/lpcode.c:717-729 | open, body, close turns the captures made inside into one nested capture with its extent, and closing is safe for every choice on the stack. |
| Fragments.CloseMakesOne | tower/share/skynet/3rd/lpeg/lpvm.c:314-329 | Closing, in place or with a mark, yields the flat form of exactly the capture opened: the entry closed in place is the matching one. |
| Fragments.OpenIsOurs | tower/share/skynet/3rd/lpeg/lpvm.c:314-329 | At the close the open entry found backwards is the one of this capture, and every choice left was made before it. |
| Simulation.Simulate | tower/share/skynet/3rd/lpeg/lpcode.c:534-916 | For any tree, wherever its code stands and whatever is on the stack: running it has the outcome of the meaning, where a match may be given up only at a head outside the follow set. All shortcuts included. |
| Simulation.TestDecides | tower/share/skynet/3rd/lpeg/lpcode.c:650-685 | When codechoice or coderep uses a test alone: where it rejects, p1 fails; where p1 fails all the same, the head cannot start the rest. |
| Simulation.ProgramCorrect | tower/share/skynet/3rd/lpeg/lpcode.c:973-982 | The generated code of every well-formed pattern, run at any position of any subject, halts with the end and all captures of the meaning, or with no match. |
| Layouts.TidyGen | tower/share/skynet/3rd/lpeg/lpcode.c:534-916 | Generated code is a proper sequence of instructions whose labels stay inside it, and its backward jumps lead to something that is no jump or leads past them. |
| Layouts.TidyIsLaid | tower/share/skynet/3rd/lpeg/lpcode.c:614-618 | Such code has no cycle of jumps: a rank falls along every IJmp, so finaltarget terminates. |
| Peephole.EffectAlike | tower/share/skynet/3rd/lpeg/lpvm.c:147-351 | An instruction does the same in states that differ only by jumps taken earlier or later, closing of captures included. |
| Peephole.Follows | tower/share/skynet/3rd/lpeg/lpcode.c:928-967 | The rewritten machine follows each step of the original, up to jumps. |
| Peephole.Forward | tower/share/skynet/3rd/lpeg/lpcode.c:928-967 | A halting run of the original code has a counterpart in the rewritten code with the same end. |
| Peephole.Backward | tower/share/skynet/3rd/lpeg/lpcode.c:928-967 | A halting run of the rewritten code comes from one of the original code. |
| Peephole.RelabelIsSafe | tower/share/skynet/3rd/lpeg/lpcode.c:928-967 | Moving a label to the end of the jumps it leads to keeps every match, for any code without jump cycles. |
| Peephole.CopyCommitIsSafe | tower/share/skynet/3rd/lpeg/lpcode.c:928-967 | Replacing a jump to a commit by that commit keeps every match. |
| Peephole.CopyStopIsSafe | tower/share/skynet/3rd/lpeg/lpcode.c:928-967 | Replacing a jump to IRet, IFail, IFailTwice or IEnd by that instruction keeps every match, although its offset slot becomes an instruction. |
| Peephole.StaysSettled | tower/share/skynet/3rd/lpeg/lpcode.c:928-967 | An instruction already improved stays so while another one is rewritten. |
| Compiler.CompileState.FinalTarget | tower/share/skynet/3rd/lpeg/lpcode.c:614-618 | The loop ends, at the instruction that is no jump which the chain of jumps leads to. |
| Compiler.CompileState.CodeGen | tower/share/skynet/3rd/lpeg/lpcode.c:891-916 | What code generation appends in place is the code proved correct, for every tree, mode, dominating test and follow set. |
| Compiler.CompileState.CodeChoice | tower/share/skynet/3rd/lpeg/lpcode.c:650-685 | All three branches append that code, after their offsets were patched. |
| Compiler.CompileState.CodeRep | tower/share/skynet/3rd/lpeg/lpcode.c:749-785 | The same for the span, the test loop and the choice loop. |
| Compiler.CompileState.CodeSeq1 | tower/share/skynet/3rd/lpeg/lpcode.c:871-883 | The first part of a sequence is generated with the follow set of the second, and the test given on to the second part is still a valid one. |
| Compiler.CompileState.CodeCapture | tower/share/skynet/3rd/lpeg/lpcode.c:717-729 | The same for a full capture and for an open/close pair. |
| Compiler.CompileState.CodeNot | tower/share/skynet/3rd/lpeg/lpcode.c:795-809 | The same for a negative look-ahead in its two forms. |
| Compiler.CompileState.CodeAnd | tower/share/skynet/3rd/lpeg/lpcode.c:693-709 | The same for a positive look-ahead in its two forms. |
| Compiler.CompileState.CodeTestSet | tower/share/skynet/3rd/lpeg/lpcode.c:587-608 | No instruction when the empty string must be accepted, else the test instruction of the kind the set asks for, its label still open. |
| Compiler.CompileState.Improve | tower/share/skynet/3rd/lpeg/lpcode.c:928-967 | One turn of the pass: the code stays equivalent, stays laid out, and the instruction has nothing left to improve. |
| Compiler.CompileState.Peephole | tower/share/skynet/3rd/lpeg/lpcode.c:928-967 | The pass over any code without jump cycles keeps the result of match on every subject; afterwards no label leads to a jump and no jump to a stop or a commit. |
| Compiler.Compile | tower/share/skynet/3rd/lpeg/lpcode.c:973-982 | The compiled code halts as the generated code does on every subject, and is fully optimised. |
| Compiler.CompiledCorrect | tower/share/skynet/3rd/lpeg/lpcode.c:973-982 | Compiled code of a well-formed pattern halts in a state exactly when it is the verdict of the meaning. |
| Compiler.ClosingIsUndone | tower/share/skynet/3rd/lpeg/lpvm.c:314-329 | In every run of a compiled pattern, at every close: all choices on the stack have a capture level at or below the index of the capture closed, so failing later restores the same captures as failing before the close. |
| Interpreter.Matcher.PushEntry | tower/share/skynet/3rd/lpeg/lpvm.c:64-81 | Pushing on the backtrack stack pushes exactly the entry, in a doubled array when it is full; it fails, and changes nothing, exactly when there are as many entries as the first array or the configured limit allows. |
| Interpreter.Matcher.PushCapture | tower/share/skynet/3rd/lpeg/lpvm.c:50-58 | Adding a capture, with the array doubled when full, appends exactly the entry; the error of too many captures is raised exactly when there would be 2^26. |
| Interpreter.Matcher.Fail | tower/share/skynet/3rd/lpeg/lpvm.c:273-288 | The fail label pops pending calls and restores position and captures of the topmost choice. |
| Interpreter.Matcher.CloseLast | tower/share/skynet/3rd/lpeg/lpvm.c:314-329 | Closing in the array does what closing in the list does, or raises the same error exactly when a close mark would be one capture too many; what the entries then say of the extent is read back in CaptureReading. |
| Interpreter.Matcher.Turn | tower/share/skynet/3rd/lpeg/lpvm.c:147-351 | One turn of the loop over the arrays is one step of the machine, or an error exactly when that step leads to more stack entries or captures than allowed. |
| Interpreter.Run | tower/share/skynet/3rd/lpeg/lpvm.c:147-351 | The loop ends, with the halt state of the machine, or with an error if and only if some state of the run has more entries on the stack or more captures than allowed. |
| Interpreter.MatchPattern | tower/share/skynet/3rd/lpeg/lpvm.c:147-351 | Compiling any well-formed pattern and matching it at any position gives the end and the captures of the meaning, or no match, exactly when the meaning says so; the only errors are a backtrack stack overflow and too many captures, raised if and only if the run of the code needs more of them than allowed. The capture list, read up to its end mark, gives the captures with kind, key, start and end, in order and nested, inside the match; a capture pattern gives one capture from the start to the end of the match; no size is above 255. |
| CaptureSearch.PegIsProper | tower/share/skynet/3rd/lpeg/lpcap.c:49-76 | Captures of patterns never have the kind of a close mark. |
| CaptureSearch.PassOver | tower/share/skynet/3rd/lpeg/lpcap.c:49-76 | Complete captures are passed over by the search in either direction. |
| CaptureSearch.NextCap | tower/share/skynet/3rd/lpeg/lpcap.c:63-76 | nextcap goes from the first entry of a capture to the entry behind its matching close. |
| CaptureSearch.FindOpen | tower/share/skynet/3rd/lpeg/lpcap.c:49-57 | findopen goes from a close mark to exactly the matching open entry. |
| Associativity.FixedKeepsMeaning | tower/share/skynet/3rd/lpeg/lptree.c:100-126 | Making sequences and choices right-associative changes neither matches nor captures, on any subject. |
| Associativity.FixedKeepsTraits | tower/share/skynet/3rd/lpeg/lptree.c:100-126 | Nor nullability, no-fail, fixed lengths, captures or well-formedness. |
| Associativity.FixedIsRightNested | tower/share/skynet/3rd/lpeg/lptree.c:100-126 | Afterwards no sequence begins with a sequence and no choice with a choice. |
| TreeArray.HoldsMoves | tower/share/skynet/3rd/lpeg/lptree.c:78-90 | A tree in the array stays a tree when its cells are moved, as offsets are relative. |
| TreeArray.MoveLeft | tower/share/skynet/3rd/lpeg/lptree.c:78-90 | The overlapping move to the left copies every cell correctly. |
| TreeArray.RotateInPlace | tower/share/skynet/3rd/lpeg/lptree.c:78-90 | The body of the loop turns op (op a b) c into op a (op b c) in the same cells, other cells untouched. |
| TreeArray.CorrectAssociativity | tower/share/skynet/3rd/lpeg/lptree.c:78-90 | The loop ends and leaves a tree whose first subtree is of another kind, in the same cells. |
| TreeArray.FinalFix | tower/share/skynet/3rd/lpeg/lptree.c:100-126 | The recursion over the array corrects every sequence and choice, in the same cells. |
| TreeArray.FinalFixCorrect | tower/share/skynet/3rd/lpeg/lptree.c:100-126 | The tree left in the array is right-associative, means the same as the one given, and is well-formed exactly when that is. |
| TimerWheel.PlacesMove | tower/share/skynet/skynet-src/skynet_timer.c:116-136 | At every tick, across the 32-bit wrap-around, a timer to come sits in the slot being redistributed or its place does not change. |
| TimerWheel.DueNow | tower/share/skynet/skynet-src/skynet_timer.c:157-167 | The slot that is dispatched is the place of exactly the timers that expire at this time. |
| TimerQueue.DueIsExpiring | tower/share/skynet/skynet-src/skynet_timer.c:93-103 | Within the longest delay, expiring now in 32 bits is the same as being due now. |
| TimerQueue.Timer.AddNode | tower/share/skynet/skynet-src/skynet_timer.c:72-90 | The loop over the levels ends at level 3 at the latest and appends the node to the list of its place, other lists unchanged. |
| TimerQueue.Timer.TimerAdd | tower/share/skynet/skynet-src/skynet_timer.c:93-103 | A timer with a delay of 1 to 2^31-1 is appended to the pending ones with the handle and session of the request, due exactly its delay after the ticks so far, and expires at that tick in 32 bits. |
| TimerQueue.Timer.MoveList | tower/share/skynet/skynet-src/skynet_timer.c:106-113 | Redistributing the slot whose turn it is leaves every timer where add_node would put it for the new time, in the order added. |
| TimerQueue.Timer.TimerShift | tower/share/skynet/skynet-src/skynet_timer.c:116-136 | Advancing the time, with wrap-around, keeps every timer in its place and loses none. |
| TimerQueue.Timer.ListForNow | tower/share/skynet/skynet-src/skynet_timer.c:157-167 | The list about to be dispatched holds exactly the pending timers expiring now, in order. |
| TimerQueue.Timer.NothingForNow | tower/share/skynet/skynet-src/skynet_timer.c:170-182 | The execute before the shift always finds its slot empty. |
| TimerQueue.Timer.TimerExecute | tower/share/skynet/skynet-src/skynet_timer.c:157-167 | Exactly the timers due are dispatched, in insertion order, although other threads add timers while the lock is released. |
| TimerQueue.Timer.TimerUpdate | tower/share/skynet/skynet-src/skynet_timer.c:170-182 | One update fires exactly what is due at the next tick and leaves the rest pending. |
| TimerRuns.FiresOnTime | tower/share/skynet/skynet-src/skynet_timer.c:72-182 | In every run of requests and ticks, tick n fires exactly the pending timers due at n, in the order added; the others are still to come. |
| TimerRuns.FiresRequested | tower/share/skynet/skynet-src/skynet_timer.c:93-182 | Tick n fires one node for each request whose delay, counted from the ticks before it, ends at n, in the order of the requests; those made during a tick count if it dispatches something. |
| TimerRuns.RequestFires | tower/share/skynet/skynet-src/skynet_timer.c:93-182 | A request with m ticks before it has a node in the batch of tick m plus its delay, once reached; one made during a tick counts that tick, and is taken exactly if the tick dispatches something. |
| TimerRuns.FiresOnce | tower/share/skynet/skynet-src/skynet_timer.c:93-182 | The only request for a handle and session has exactly one node over all batches, in that of its deadline; none if it was made during a tick that dispatches nothing. |
| TimerRuns.Drive | tower/share/skynet/skynet-src/skynet_timer.c:170-182 | The timer driven through any run fires, at each tick n, one node for each request whose delay ends at n, in order, with its handle and session: told from the events alone. |
| Scheduler.StepKeeps | tower/share/skynet/skynet-src/skynet_server.c:100-330 | Every atomic step of every thread keeps the invariant: reference counts equal the references, every queue is in its one place, no queue is listed or marked for release twice, and no context or queue is used after it was freed, apart from the failures that Dispatching treats. |
| Scheduler.OnePlace | tower/share/skynet/skynet-src/skynet_mq.c:44-250 | In every run a live queue is once in the global list or held by one thread, or it is idle and then empty; and messages leave it in the order pushed (that what was pushed is what was sent is MessageRuns.PushedIsSent). |
| MessageRuns.StepMovesMessages | tower/share/skynet/skynet-src/skynet_mq.c:138-209 | A step of a thread that sends puts its message behind all others of its queue, a step that pops or drops takes the first; no other step touches the messages of a queue, and a new queue has none. |
| MessageRuns.PushedIsSent | tower/share/skynet/skynet-src/skynet_mq.c:138-209 | In every run what went into a queue is exactly what was sent to it, in order; what came out is the beginning of that, and what it holds is the rest. |
| MessageRuns.SendFinds | tower/share/skynet/skynet-src/skynet_server.c:219-229 | Who sends gets the context that is registered under the handle, or sends nothing if there is none. |
| MessageRuns.TakesFront | tower/share/skynet/skynet-src/skynet_mq.c:59-75 | A worker takes the queue in front of the global list. |
| MessageRuns.PoppedIsServed | tower/share/skynet/skynet-src/skynet_mq.c:138-172 | A worker that pops a message goes on to call the service with it; only an empty queue is given up and leaves the global list. |
| MessageRuns.CreateRegisters | tower/share/skynet/skynet-src/skynet_server.c:120-147 | A new service is registered under a handle not in use, with the references of the table and of its creator; its queue is marked as if in the global list, without being in it. |
| MessageRuns.RetireFinds | tower/share/skynet/skynet-src/skynet_handle.c:70-106 | Retiring takes exactly the service with the handle off the table. |
| Scheduler.OneWorker | tower/share/skynet/skynet-src/skynet_server.c:276-330 | Two workers never serve from the same message queue. |
| Scheduler.FreedOnce | tower/share/skynet/skynet-src/skynet_mq.c:231-250 | A queue is freed at most once, and only when the context has neither an entry in the handle table nor a reference anywhere. |
| Scheduler.HeldIsLive | tower/share/skynet/skynet-src/skynet_mq.c:138-172 | A queue that a thread holds has not been freed. |
| Scheduler.CreatingKeeps | tower/share/skynet/skynet-src/skynet_server.c:143-161 | The steps of creating a context, from its registration through the making of its queue to the call of init and its failure, keep the invariant. |
| Scheduler.LaunchingKeeps | tower/share/skynet/skynet-src/skynet_server.c:152-161 | Giving up the reference after init keeps the invariant, whether or not the context has been retired in the meantime. |
| Dispatching.FailsExactly | tower/share/skynet/skynet-src/skynet_server.c:100-330 | Exactly which steps fail, and how: an access that skynet_context_new and cmd_launch make after giving up their reference, to a context that is neither registered nor referenced nor being deleted any more; a call of a service that is not initialized, or the end of a batch with the queue of another context (the two assertions of the dispatch loop); the dropping of a message from a queue whose handle is 0 (the assertion of drop_message); a push to the queue of a context that has none yet. Nothing else goes wrong. |
| Dispatching.FailsInRun | tower/share/skynet/skynet-src/skynet_server.c:100-330 | Over whole runs: each of these failures happens if and only if the step of some turn is one. |
| Dispatching.NoZeroIsSafe | tower/share/skynet/skynet-src/skynet_server.c:109-118 | As long as the handle 0 is not given out, the assertion of drop_message never fails. |
| FailingRuns.DroppedFromZero | tower/share/skynet/skynet-src/skynet_server.c:109-118 | A run in which it fails: a service with the handle 0 goes while a message for it waits. |
| Dispatching.NoneEarly | tower/share/skynet/skynet-src/skynet_server.c:143-146 | As long as nobody sends to a handle between its registration and the making of the queue, no queue is used before it is made. |
| FailingRuns.SentTooEarly | tower/share/skynet/skynet-src/skynet_server.c:143-146 | A run in which one is. |
| FailingRuns.RetiredWhileLaunching | tower/share/skynet/skynet-src/skynet_server.c:152-161 | A run in which that happens: a service is retired between the release and the setting of init. |
| Dispatching.InitKeeps | tower/share/skynet/skynet-src/skynet_server.c:120-161 | No step makes a context known to workers before its init flag is set: until then its creator has the queue. |
| Dispatching.OwnIsInit | tower/share/skynet/skynet-src/skynet_server.c:250-265 | A worker that serves a context from the queue it was created with finds its init flag set. |
| Dispatching.BrokenExactly | tower/share/skynet/skynet-src/skynet_server.c:250-319 | Exactly which steps fail one of the two assertions of the dispatch loop; each such worker has the queue of another context. |
| Dispatching.ForeignExactly | tower/share/skynet/skynet-src/skynet_server.c:276-296 | A worker comes to serve a context from the queue of another one if and only if the context of the queue has been retired and its handle is registered again. |
| FailingRuns.HandleGivenOutAgain | tower/share/skynet/skynet-src/skynet_server.c:319-319 | A run in which that happens and the assertion on the queue fails. |
| Dispatching.NoReuseIsSafe | tower/share/skynet/skynet-src/skynet_server.c:250-319 | As long as no handle is given out while an old queue with that handle is left, no dispatch assertion ever fails and no queue is lost. |
| Dispatching.OneService | tower/share/skynet/skynet-src/skynet_server.c:276-330 | Then two workers never serve the same context. |
| Scheduler.PopKeeps | tower/share/skynet/skynet-src/skynet_mq.c:59-75 | Popping the global list moves the hold on a queue to the thread. |
| Scheduler.PushKeeps | tower/share/skynet/skynet-src/skynet_mq.c:44-56 | Pushing a queue back moves the hold to the global list; it was not in the list already. |
| Scheduler.RefKeeps | tower/share/skynet/skynet-src/skynet_handle.c:133-149 | Grabbing a registered context gives a counted reference to a context that is not freed. |
| MessageQueue.RingQueue.Push | tower/share/skynet/skynet-src/skynet_mq.c:190-209 | A message goes behind all others, however full the ring buffer is. |
| MessageQueue.RingQueue.Pop | tower/share/skynet/skynet-src/skynet_mq.c:138-172 | The oldest message leaves; nothing when the queue is empty. |
| MessageQueue.RingQueue.Expand | tower/share/skynet/skynet-src/skynet_mq.c:175-187 | Doubling the buffer keeps the messages and their order. |
| MessageQueue.RingQueue.Length | tower/share/skynet/skynet-src/skynet_mq.c:112-125 | The length computed from the two indices is the number of messages. |
| HandleStorage.MovesOn | tower/share/skynet/skynet-src/skynet_handle.c:55-66 | In a table of twice the size the slot of a context being moved is free: doubling never collides. |
| HandleStorage.Handles.Double | tower/share/skynet/skynet-src/skynet_handle.c:55-66 | After doubling, the same contexts are found under the same handles. |
| HandleStorage.Handles.Register | tower/share/skynet/skynet-src/skynet_handle.c:35-67 | Registering gives a handle that was not live, of this harbor, and adds exactly it; it fails only with all 2^24 handles in use. The local part is 0 if and only if, before the call, all numbers from the next one to 2^24-1 have occupied slots and the slot of number 0 is free. |
| HandleStorage.FirstFree | tower/share/skynet/skynet-src/skynet_handle.c:40-53 | The first free slot, in the table as it is or doubled, is that of number 0 exactly under this condition on the table before. |
| HandleStorage.NumbersStartAgain | tower/share/skynet/skynet-src/skynet_handle.c:35-67 | A run that gives out handle 0 (harbor 0, 2^24-1 services that come and go, then one more) and its consequence: a name registered for it is looked up as if nobody had it. |
| HandleStorage.Handles.Grab | tower/share/skynet/skynet-src/skynet_handle.c:133-149 | A handle gives its live context, or nothing if it is not live. |
| HandleStorage.Handles.Retire | tower/share/skynet/skynet-src/skynet_handle.c:70-106 | Retiring removes exactly the handle and its names; false for one that is not live. |
| HandleStorage.Handles.Compact | tower/share/skynet/skynet-src/skynet_handle.c:84-93 | The names of a handle go, the others close up in order. |
| HandleStorage.Handles.Search | tower/share/skynet/skynet-src/skynet_handle.c:152-179 | The binary search finds a name, or the place where it belongs. |
| HandleStorage.Handles.FindName | tower/share/skynet/skynet-src/skynet_handle.c:152-179 | The search agrees with the map from names to handles; 0 for an unknown name. |
| HandleStorage.Handles.InsertBefore | tower/share/skynet/skynet-src/skynet_handle.c:182-205 | The entry goes between those before and after its place, in the old array or in a larger one; this fails exactly with 2^30 names, where the array cannot be doubled any more. |
| HandleStorage.Handles.NameHandle | tower/share/skynet/skynet-src/skynet_handle.c:208-240 | A new name is added to the map and the array stays strictly sorted; a name in use changes nothing, and there is no room exactly with 2^30 names. |
| HandleStorage.Handles.Happen | tower/share/skynet/skynet-src/skynet_handle.c:35-240 | Each request does to the arrays what it does to the map of live handles and the map of names; it fails exactly when all 2^24 handles are live or there are 2^30 names. |
| HandleStorage.Run | tower/share/skynet/skynet-src/skynet_handle.c:35-240 | After any requests the live handles and names are those the requests ask for, and no handle was given out while in use. |
| HandleRuns.LiveExactly | tower/share/skynet/skynet-src/skynet_handle.c:35-106 | After any run a handle is live, with its context, if and only if it was given out to it and not taken back since. |
| HandleRuns.NamesExactly | tower/share/skynet/skynet-src/skynet_handle.c:70-240 | After any run a name stands for a handle if and only if it was given to it while the name was free, and the handle was not taken back while in use since. |
| NameOrder.Inserts | tower/share/skynet/skynet-src/skynet_handle.c:208-229 | Where the search ends, inserting keeps the order and adds one pair to the map. |
| NameOrder.WithoutMeans | tower/share/skynet/skynet-src/skynet_handle.c:84-93 | Dropping the entries of a handle drops exactly its pairs from the map. |
| NameOrder.Narrows | tower/share/skynet/skynet-src/skynet_handle.c:208-229 | One turn of the binary search keeps everything outside the range on the right side of the name. |
| ObjectGraph.ReachableInside | tower/share/skynet/3rd/lua/lgc.c:230-278 | What the program can reach lies in every set that holds the roots and that references do not leave. |
| ObjectGraph.MarksThen | tower/share/skynet/3rd/lua/lgc.c:230-278 | Marking in two parts is marking, once the object the first part owed is marked. |
| ObjectGraph.Visits | tower/share/skynet/3rd/lua/lgc.c:559-600 | After the first gray object was visited, the lists are right again and nothing marked points to something unmarked unless it waits. |
| ObjectGraph.MarksProgress | tower/share/skynet/3rd/lua/lgc.c:559-605 | Marking makes fewer white objects or leaves the gray list as it is: propagation ends. |
| CollectorInvariants.NoBlackToWhite | tower/share/skynet/3rd/lua/lgc.h:61-61 | While the invariant is on, no black object points to a white one. |
| CollectorInvariants.GrayWaitsOnce | tower/share/skynet/3rd/lua/lgc.c:559-600 | While marking, a gray object waits in exactly one of the two gray lists, once; no other object waits. |
| CollectorInvariants.ReachableIsLive | tower/share/skynet/3rd/lua/lgc.c:1049-1102 | In every phase, what the program can reach is allocated and not dead. |
| CollectorInvariants.FlipKeepsBase | tower/share/skynet/3rd/lua/lgc.c:986-1030 | Once all reachable objects are marked, flipping the white makes exactly the unmarked ones dead. |
| CollectorInvariants.BeforeMarking | tower/share/skynet/3rd/lua/lgc.c:332-339 | A collection starts with all objects white and everything reachable still there. |
| CollectorInvariants.SweepKeepsBase | tower/share/skynet/3rd/lua/lgc.c:734-751 | A part of a sweep frees only dead objects, keeps everything reachable and leaves what was swept white. |
| Sweeping.SweepKeepsHeap | tower/share/skynet/3rd/lua/lgc.c:734-751 | Sweeping any objects keeps the heap free of references to dead or freed ones and frees nothing that may live. |
| Sweeping.SweepKeepsListing | tower/share/skynet/3rd/lua/lgc.c:734-751 | The list of all objects still lists exactly what is left, in order. |
| Sweeping.SweepTurn | tower/share/skynet/3rd/lua/lgc.c:734-751 | One turn of the loop frees a dead object and unlinks it, or turns a live one white. |
| Mutation.ForwardPays | tower/share/skynet/3rd/lua/lgc.c:150-159 | Marking the white object stored into a black one restores the invariant. |
| Mutation.BackwardPays | tower/share/skynet/3rd/lua/lgc.c:166-171 | Putting the black table back among the gray ones restores the invariant. |
| Mutation.SweepPaints | tower/share/skynet/3rd/lua/lgc.c:150-159 | During a sweep, the object stored into may be made white or gray without breaking it. |
| GarbageCollector.GlobalState.MarkObject | tower/share/skynet/3rd/lua/lgc.c:83-92 | The macro marks the object if it is white, and marks nothing outside any set that holds it and that references do not leave. |
| GarbageCollector.GlobalState.ReallyMarkObject | tower/share/skynet/3rd/lua/lgc.c:230-278 | Strings and user data turn black with what they refer to marked, other objects turn gray and go in front of the gray list, once. |
| GarbageCollector.GlobalState.Traverse | tower/share/skynet/3rd/lua/lgc.c:443-552 | Everything the object points to is marked, and nothing outside any set that holds it and that references do not leave. |
| GarbageCollector.GlobalState.PropagateMark | tower/share/skynet/3rd/lua/lgc.c:559-600 | The first gray object is visited and turns black, or, being a thread, stays gray and waits for the atomic phase. |
| GarbageCollector.GlobalState.PropagateAll | tower/share/skynet/3rd/lua/lgc.c:603-605 | The loop ends with an empty gray list and the invariant intact. |
| GarbageCollector.GlobalState.MarkRoots | tower/share/skynet/3rd/lua/lgc.c:284-339 | The thread, the registry and every metatable of a basic type are marked. |
| GarbageCollector.GlobalState.RestartCollection | tower/share/skynet/3rd/lua/lgc.c:332-339 | A new collection begins with the roots marked and the invariant on. |
| GarbageCollector.GlobalState.Atomic | tower/share/skynet/3rd/lua/lgc.c:986-1030 | Afterwards the gray lists are done, all that is reachable is marked, also from threads that ran since, and the white has flipped. |
| GarbageCollector.GlobalState.SweepList | tower/share/skynet/3rd/lua/lgc.c:734-751 | At most the given number of objects is swept, in the order of the list, and the place to go on from is returned. |
| GarbageCollector.GlobalState.SweepToLive | tower/share/skynet/3rd/lua/lgc.c:757-766 | The sweep goes past the first object that is not dead. |
| GarbageCollector.GlobalState.EnterSweep | tower/share/skynet/3rd/lua/lgc.c:961-968 | The sweep starts behind objects that need none, with the invariant of sweeping. |
| GarbageCollector.GlobalState.SweepStep | tower/share/skynet/3rd/lua/lgc.c:1033-1046 | Some more objects are swept, or the sweep goes on to the next list. |
| GarbageCollector.GlobalState.SingleStep | tower/share/skynet/3rd/lua/lgc.c:1049-1102 | Every step keeps the invariant of its phase and everything reachable, and comes closer to the end of the collection. |
| GarbageCollector.GlobalState.Barrier | tower/share/skynet/3rd/lua/lgc.c:150-159 | The forward barrier pays the debt of a store in every phase. |
| GarbageCollector.GlobalState.BarrierBack | tower/share/skynet/3rd/lua/lgc.c:166-171 | The backward barrier pays the debt of a store into a table in every phase. |
| GarbageCollector.GlobalState.WriteSlot | tower/share/skynet/3rd/lua/lgc.h:109-115 | A store with its barrier changes the slot, and apart from colours nothing else, and keeps the invariant. |
| GarbageCollector.GlobalState.SetMetatable | tower/share/skynet/3rd/lua/lapi.c:823-847 | The same for setting a metatable. |
| GarbageCollector.GlobalState.WriteUpvalue | tower/share/skynet/3rd/lua/lgc.c:180-186 | The same for an upvalue shared by any number of closures. |
| GarbageCollector.GlobalState.Resize | tower/share/skynet/3rd/lua/ltable.c:340-340 | Growing or shrinking a table or a stack needs no barrier. |
| GarbageCollector.GlobalState.NewObject | tower/share/skynet/3rd/lua/lgc.c:203-211 | A new object has the current white, is first in the list and keeps the invariant in every phase. |
| Mutation.InternKeepsBase | tower/share/skynet/3rd/lua/lstring.c:150-175 | Making a dead short string white again leaves no object that may live with a reference to a dead one. |
| GarbageCollector.GlobalState.InternString | tower/share/skynet/3rd/lua/lstring.c:150-175 | A short string found in the string table, reachable or not, dead or not, is given to the program and keeps the invariant in every phase; a dead one turns white. |
| GarbageCollector.GlobalState.Resume | tower/share/skynet/3rd/lua/ldo.c:571-571 | Switching to another reachable thread keeps the invariant. |
| GarbageCollector.GlobalState.RunUntil | tower/share/skynet/3rd/lua/lgc.c:1109-1113 | The loop reaches the state asked for and keeps everything reachable. |
| GarbageCollector.GlobalState.FullGC | tower/share/skynet/3rd/lua/lgc.c:1161-1177 | After a full collection, from any phase, what is left is the least set that holds the main and the running thread, the registry and the metatables of the basic types and that no metatable and no slot of its members leaves; nothing in it is dead, and it is unchanged but for its colour. |
| GarbageCollector.GlobalState.NothingDangles | tower/share/skynet/3rd/lua/lgc.c:284-339 | Whatever the phase: the threads, the registry and the metatables of the basic types are live, and so are the metatable and every slot of a live object. |
| GarbageCollector.GlobalState.Happen | tower/share/skynet/3rd/lua/lgc.c:150-211 | One step of the program or of the collector frees nothing that was reachable before; afterwards nothing that the state names or that a live object refers to is dead or freed. Registry, metatables of basic types and running thread change exactly as the event says; a store puts the value found into the slot or the metatable found, a new object is on the stack of the running thread. |
| GarbageCollector.GlobalState.Run | tower/share/skynet/3rd/lua/lgc.c:1049-1102 | In every interleaving, the resurrection of dead strings included, what is reachable is never freed or dead: both threads, the registry, every metatable of a basic type, and the metatable and slots of every live object are live; while marking no black object points to a white one and each gray object is in exactly one list, once. |
| GarbageCollector.GlobalState.constructor | tower/share/skynet/3rd/lua/lstate.c:290-330 | A new state has the main thread alone, outside the list, and a collector at rest. |
| SendQueue.WritesPart | tower/share/skynet/skynet-src/socket_server.c:469-498 | A partial write of the front message keeps the stream: whole messages and a beginning of the next. |
| SendQueue.WritesWhole | tower/share/skynet/skynet-src/socket_server.c:469-498 | Writing the rest of the front message completes it on the wire. |
| SendQueue.Queues | tower/share/skynet/skynet-src/socket_server.c:634-671 | A message queues behind those of its priority and nothing already waiting moves. |
| SendQueue.WrittenAtOnce | tower/share/skynet/skynet-src/socket_server.c:686-754 | A message written at once, in part or as a whole, keeps the stream. |
| SendQueue.AllWritten | tower/share/skynet/skynet-src/socket_server.c:603-631 | With nothing waiting, the wire holds exactly the accepted messages, each priority in its own order. |
| SocketServer.Socket.WriteAgain | tower/share/skynet/skynet-src/socket_server.c:469-498 | The write is repeated for as long as a signal interrupts it. |
| SocketServer.Socket.SendList | tower/share/skynet/skynet-src/socket_server.c:469-498 | The list is written as far as the kernel takes it; what was done and what waits together stay the same; an error closes the socket. |
| SocketServer.Socket.RaiseUncomplete | tower/share/skynet/skynet-src/socket_server.c:578-592 | The partly sent message of the low list goes alone to the high list, nothing else moves. |
| SocketServer.Socket.SendBuffer | tower/share/skynet/skynet-src/socket_server.c:603-631 | High before low, as far as the kernel takes it: the bytes written are the front of what waited; something is left only if no answer is left or the last one was that the kernel takes nothing, only a part of the message in front, or failed; with a kernel that takes everything both lists end empty. A failed write closes the socket and drops the rest; a half-closed socket closes only with both lists empty. |
| SocketProgress.WritableProgress | tower/share/skynet/skynet-src/socket_server.c:603-631 | A write event writes the front of what waited, no byte of the low list before all of the high one; something is left only for one of these reasons, and dropped only after a failed write. |
| SocketProgress.WritableEmpties | tower/share/skynet/skynet-src/socket_server.c:603-631 | With a kernel that takes everything, answers interrupted by signals aside, one write event puts all waiting bytes on the wire and empties both lists; after the next one the socket is not watched any more, or closed if it is half-closed. |
| SocketProgress.SendProgress | tower/share/skynet/skynet-src/socket_server.c:686-760 | A message sent with nothing waiting is written as far as the kernel takes it, the rest waits and is watched for; the socket closes exactly if that write fails. |
| SocketServer.Socket.AppendBuffer | tower/share/skynet/skynet-src/socket_server.c:634-671 | A whole message waits in the list of its priority. |
| SocketServer.Socket.SendSocket | tower/share/skynet/skynet-src/socket_server.c:686-754 | A message is accepted exactly when the socket is connecting, connected or bound and no write error occurs, and then exactly the lists grow by it or it is written; otherwise nothing changes. With data waiting, a write event is asked for if and only if the socket is not a bound one. |
| SocketServer.Socket.CloseSocket | tower/share/skynet/skynet-src/socket_server.c:778-802 | What waits is written first; then closing is immediate when nothing is left or on shutdown, else the socket is half-closed with data waiting. |
| SocketServer.Socket.ReportConnect | tower/share/skynet/skynet-src/socket_server.c:1095-1126 | A connection that is made asks for write events if and only if data waits; one that fails closes. |
| SocketServer.Socket.ForceClose | tower/share/skynet/skynet-src/socket_server.c:325-345 | Closing drops exactly what waits and stops watching the socket. |
| SocketServer.Socket.ForwardMessage | tower/share/skynet/skynet-src/socket_server.c:987-1028 | What is read is reported unless the socket is half-closed; the end of the peer side and a read error close the socket and drop what waits. |
| SocketServer.Socket.Happen | tower/share/skynet/skynet-src/socket_server.c:469-1028 | Each request and each event does exactly what it does to the socket as a value: state, lists, bytes written and messages accepted. |
| SocketServer.Socket.Run | tower/share/skynet/skynet-src/socket_server.c:469-1028 | After any events: the bytes written are whole messages and at most the beginning of one more, each priority is in order, wb_size is what waits, only the front of the high list may be partly sent; with data waiting the socket is watched for writing if and only if it was not made with bind. Data is dropped if and only if some event cuts it off, never without a failed write, a shutdown, a failed connect or the end of reading, and a closed socket that dropped nothing has written everything. |
| SocketServer.Socket.RunOut | tower/share/skynet/skynet-src/socket_server.c:603-631 | After any run, if the kernel takes everything from then on, one write event of a watched socket gets every accepted message onto the wire, each priority in order. |
| SocketStates.LosesExactly | tower/share/skynet/skynet-src/socket_server.c:603-1061 | Exactly which event drops data, in terms of the socket before it and the answers of the kernel to come: a write of what waits fails, the peer or a failed connect ends the connection, or it is shut down with data left after the last writes. |
| SocketStates.CutOffInRun | tower/share/skynet/skynet-src/socket_server.c:603-1061 | In a run data is dropped if and only if one of its events does that. |
| SocketStates.NothingLost | tower/share/skynet/skynet-src/socket_server.c:603-1061 | A run without a failed write, a shutdown, a failed connect and the end of reading drops nothing. |
| SocketServer.PeerEnds | tower/share/skynet/skynet-src/socket_server.c:987-1010 | A failing run: a message waits, the peer ends its side of the connection, and the message is dropped although nothing failed. |
| SocketServer.BindAndSend | tower/share/skynet/skynet-src/socket_server.c:686-754 | A failing run: a message sent on a bound socket waits, and whatever happens short of a close, not a byte is written. |
| SharedCopies.StepKeeps | tower/share/skynet/lualib-src/lua-stm.c:46-113 | Every atomic step of every thread keeps the invariant of lock and counts. |
| SharedCopies.NeverTogether | tower/share/skynet/skynet-src/rwlock.h:18-48 | In every run the lock never admits a writer together with a reader or a second writer. |
| SharedCopies.HeldIsThere | tower/share/skynet/lualib-src/lua-stm.c:46-113 | In every run the count of a copy is the number of its holders, and a copy that a thread or the object holds is not freed. |
| SharedCopies.FreedForGood | tower/share/skynet/lualib-src/lua-stm.c:46-53 | A copy without holders that no thread is about to free is freed, and stays so: it is freed once. |
| SharedCopies.LockKeeps | tower/share/skynet/skynet-src/rwlock.h:18-48 | Each step of the spin loops keeps the flag and the counter in agreement with who is inside. |
| SharedCopies.TurnSafe | tower/share/skynet/lualib-src/lua-stm.c:46-113 | No step fails an assertion or uses a freed copy. |
| SharedCopies.TurnFrees | tower/share/skynet/lualib-src/lua-stm.c:46-53 | The step that takes the last reference is followed by the one that frees, and by no other. |
| SharedCopies.TurnEnters | tower/share/skynet/skynet-src/rwlock.h:18-38 | A thread gets in as a reader only without a writer, and as a writer only without readers. |
| CopyRuns.CurrentIsPublished | tower/share/skynet/lualib-src/lua-stm.c:106-116 | In every run the copy of the object is the one published last, or none after it was released. |
| CopyRuns.WriterPublishes | tower/share/skynet/lualib-src/lua-stm.c:106-116 | An update publishes the very copy that it made, and then gives up the one that was there before. |
| CopyRuns.SnapshotWasCurrent | tower/share/skynet/lualib-src/lua-stm.c:92-104 | In every run the snapshot that a thread keeps, and the one it has just read, was the copy of the object at a time at which the thread was inside the lock. |
| CopyRuns.ReaderTakes | tower/share/skynet/lualib-src/lua-stm.c:92-104 | A read takes the copy that is current while the reader is inside the lock, and keeps it as its last one. |
| Frames.ParseAppend | tower/share/skynet/lualib-src/lua-netpack.c:226-305 | Parsing a stream in two parts, the rest of the first in front of the second, is parsing it whole. |
| Frames.ParseFramed | tower/share/skynet/lualib-src/lua-netpack.c:435-450 | The parse of what a sender puts on the wire is what it sent. |
| Netpack.Queue.FindUncomplete | tower/share/skynet/lualib-src/lua-netpack.c:91-112 | What a connection left over is taken out of its hash list, other connections keep theirs. |
| Netpack.Queue.SaveUncomplete | tower/share/skynet/lualib-src/lua-netpack.c:168-178 | What is left over is kept for the connection. |
| Netpack.Queue.ExpandQueue | tower/share/skynet/lualib-src/lua-netpack.c:132-146 | A larger ring buffer holds the same packages in order. |
| Netpack.Queue.PushData | tower/share/skynet/lualib-src/lua-netpack.c:149-165 | A package goes behind all others. |
| Netpack.Queue.PushMore | tower/share/skynet/lualib-src/lua-netpack.c:187-213 | The packages of a buffer are queued in order and its rest is kept. |
| Netpack.Queue.FillUncomplete | tower/share/skynet/lualib-src/lua-netpack.c:229-267 | Bytes for a package begun earlier, also one whose length is half read, continue its stream. |
| Netpack.Queue.FilterFresh | tower/share/skynet/lualib-src/lua-netpack.c:268-304 | Bytes of a connection that left nothing over begin a new package. |
| Netpack.Queue.FilterData | tower/share/skynet/lualib-src/lua-netpack.c:226-305 | One call gives or queues exactly the packages completed in the stream of the connection and keeps the rest. |
| Netpack.Queue.CloseUncomplete | tower/share/skynet/lualib-src/lua-netpack.c:216-223 | What a closed connection left over is dropped, and nothing else. |
| Netpack.Queue.Pop | tower/share/skynet/lualib-src/lua-netpack.c:395-408 | The oldest package leaves the queue. |
| Netpack.Queue.Receive | tower/share/skynet/lualib-src/lua-netpack.c:226-374 | For any interleaving of non-empty chunks and closes of any connections: the packages that come out under a number are the parse of the bytes of each connection that had it, one connection after the other, and nothing of a closed one reaches the next. |
| HashChains.PutMain | tower/share/skynet/lualib-src/lua-sharedata.c:211-233 | The first key of a main slot goes there, with a chain of its own. |
| HashChains.PutBehind | tower/share/skynet/lualib-src/lua-sharedata.c:236-270 | A colliding key goes to a free slot behind the first of its chain; every chain still holds exactly the keys of its main slot. |
| HashChains.FreeSlot | tower/share/skynet/lualib-src/lua-sharedata.c:236-270 | While a key is missing, a slot is free. |
| HashChains.NoFreeSlot | tower/share/skynet/lualib-src/lua-sharedata.c:275-323 | With all keys in, every slot is taken by one of them. |
| FrozenTable.SlotForMissing | tower/share/skynet/lualib-src/lua-sharedata.c:236-270 | The second pass always finds a free slot for a colliding key. |
| FrozenTable.Table.CountSize | tower/share/skynet/lualib-src/lua-sharedata.c:66-87 | The count is the number of distinct keys that need a node. |
| FrozenTable.Table.FillNoColliding | tower/share/skynet/lualib-src/lua-sharedata.c:211-233 | The array part is complete, and each main slot that any key selects holds the first such key. |
| FrozenTable.Table.FillColliding | tower/share/skynet/lualib-src/lua-sharedata.c:236-270 | All other keys are in, each in the chain of its main slot. |
| FrozenTable.Table.constructor | tower/share/skynet/lualib-src/lua-sharedata.c:275-323 | Converting any table with 32-bit integer and string keys leaves a well-formed frozen one. |
| FrozenTable.Table.LookupKey | tower/share/skynet/lualib-src/lua-sharedata.c:500-528 | The walk along the chain finds the node of a key, or its absence, and ends. |
| FrozenTable.Table.Index | tower/share/skynet/lualib-src/lua-sharedata.c:531-564 | Indexing agrees with the source table on present and absent keys. |
| FrozenTable.Table.NextKey | tower/share/skynet/lualib-src/lua-sharedata.c:588-644 | The next key is the one that follows in array and node order; none after the last. |
| FrozenTable.Table.AllKeys | tower/share/skynet/lualib-src/lua-sharedata.c:588-644 | Iterating from nil to the end visits every key of the source table exactly once. |
| FrozenTable.EveryKeyOnce | tower/share/skynet/lualib-src/lua-sharedata.c:588-644 | The order of iteration lists each key of the source table once and no other key. |
| Serial.RoundTrip | tower/share/skynet/lualib-src/lua-seri.c:466-530 | Reading the packed form of any value gives the value back and takes exactly the bytes written. |
| Serial.AllRoundTrip | tower/share/skynet/lualib-src/lua-seri.c:554-595 | Unpacking the packed form of any values gives them back in order with nothing left over. |
| Serial.IntegerRoundTrip | tower/share/skynet/lualib-src/lua-seri.c:141-172 | Every 64-bit integer comes back, through whichever of the widths it was written in. |
| Serial.StringRoundTrip | tower/share/skynet/lualib-src/lua-seri.c:189-211 | Every string comes back, short ones, and those with lengths of two and four bytes. |
| Serial.OutsideExactly | tower/share/skynet/lualib-src/lua-seri.c:423-430 | Reading a string with a four-byte length leaves the buffer if and only if the length bytes are all 255: as an int that is -1, which passes the size test of the buffer and wraps around in that of Lua strings. |
| Serial.ReadsOutside | tower/share/skynet/lualib-src/lua-seri.c:466-519 | A failing input: the five bytes 25 FF FF FF FF. |
| Serial.NanKeyRefused | tower/share/skynet/lualib-src/lua-seri.c:452-462 | A pair whose key is a real that is not a number is refused, whatever follows. |
| SerialForms.IntegerForm | tower/share/skynet/lualib-src/lua-seri.c:141-172 | The bytes of every integer: type and width in the first byte, then the lowest byte first. |
| SerialForms.StringForm | tower/share/skynet/lualib-src/lua-seri.c:189-211 | The bytes of every string: its length in the first byte, or in two or four bytes behind it. |
| SerialForms.TableForm | tower/share/skynet/lualib-src/lua-seri.c:216-254 | The bytes of a table: its size in the first byte or as an integer behind it, the array part, the pairs with the key first, and a nil. |
| SerialForms.NilForm | tower/share/skynet/lualib-src/lua-seri.c:128-133 | A nil is the byte 0. |
| SerialForms.BoolForm | tower/share/skynet/lualib-src/lua-seri.c:135-139 | A boolean is the byte 1 or 9. |
| SerialForms.RealForm | tower/share/skynet/lualib-src/lua-seri.c:174-180 | A real is the byte 66 and its eight bytes. |
| SerialForms.PointerForm | tower/share/skynet/lualib-src/lua-seri.c:182-187 | A pointer is the byte 3 and its bytes. |
| SerialBlocks.WriteBlock.Push | tower/share/skynet/lualib-src/lua-seri.c:64-83 | Bytes written across the ends of blocks are appended to the contents. |
| SerialBlocks.WriteBlock.PushInteger | tower/share/skynet/lualib-src/lua-seri.c:141-172 | The integer is written in the narrowest form the code chooses. |
| SerialBlocks.WriteBlock.PushString | tower/share/skynet/lualib-src/lua-seri.c:189-211 | The string is written after its short or long header. |
| SerialBlocks.WriteBlock.PushArray | tower/share/skynet/lualib-src/lua-seri.c:216-235 | The array part is written after its size, in its long form too. |
| SerialBlocks.WriteBlock.PushPairs | tower/share/skynet/lualib-src/lua-seri.c:238-255 | The other pairs are written in the order visited, then a nil. |
| SerialBlocks.WriteBlock.PackOne | tower/share/skynet/lualib-src/lua-seri.c:295-338 | Packing succeeds exactly when tables are nested within the limit, and then appends the form of the value. |
| SerialBlocks.WriteBlock.Seri | tower/share/skynet/lualib-src/lua-seri.c:533-551 | The blocks are copied together into exactly the contents. |
| SerialBlocks.ReadBlock.Read | tower/share/skynet/lualib-src/lua-seri.c:117-126 | A read takes the next bytes, or fails without enough of them; a negative size is never refused and moves the cursor back. |
| SerialBlocks.ReadBlock.GetBuffer | tower/share/skynet/lualib-src/lua-seri.c:423-430 | For any length, also one that is negative as an int: the string, a failure, or a read outside the buffer, as the byte form says. |
| SerialBlocks.ReadBlock.GetInteger | tower/share/skynet/lualib-src/lua-seri.c:358-398 | An integer is read back by its width, negative ones included; other widths fail. |
| SerialBlocks.ReadBlock.PushValue | tower/share/skynet/lualib-src/lua-seri.c:466-519 | For any bytes, also malformed ones, the cursor reads what the byte form says, fails where it does, or leaves the buffer where it does. |
| SerialBlocks.ReadBlock.UnpackTable | tower/share/skynet/lualib-src/lua-seri.c:433-463 | A table is read up to its nil key, or it fails, also on a key that is not a number, or leaves the buffer, as the byte form says. |
| SerialBlocks.ReadBlock.Unpack | tower/share/skynet/lualib-src/lua-seri.c:554-595 | Values are read up to the end of the buffer, or it fails or leaves the buffer, as the byte form says. |
| SerialBlocks.PackUnpack | tower/share/skynet/lualib-src/lua-seri.c:554-610 | Values nested within the limit come back unchanged from pack and unpack; others are refused. |
| Des.FinalUndoesInitial | tower/share/skynet/lualib-src/lua-crypt.c:201-225 | The final permutation undoes the initial one. |
| Des.InitialUndoesFinal | tower/share/skynet/lualib-src/lua-crypt.c:201-225 | The initial permutation undoes the final one. |
| Des.RoundsUndo | tower/share/skynet/lualib-src/lua-crypt.c:227-240 | Sixteen rounds with the subkey pairs reversed undo sixteen rounds, for any substitution tables. |
| Des.BlockRoundTrip | tower/share/skynet/lualib-src/lua-crypt.c:314-335 | Deciphering a block with the reversed subkeys undoes enciphering it, for any tables and subkeys. |
| DesStandard.InitialIsIP | tower/share/skynet/lualib-src/lua-crypt.c:201-212 | DES_IP is the table IP of FIPS 46-3, bit by bit, with both halves rotated by one bit. |
| DesStandard.ScrambleIsF | tower/share/skynet/lualib-src/lua-crypt.c:227-240 | What DES_ROUND adds is the cipher function of the standard: the eight rows of the table E of the half that is not rotated, with six bits of the key each, through the eight tables. |
| DesStandard.RoundsAreStandard | tower/share/skynet/lualib-src/lua-crypt.c:322-329 | The sixteen rounds, in which the halves do not move, are those of the standard, in which they do, for tables with rotated values. |
| DesStandard.CryptIsStandard | tower/share/skynet/lualib-src/lua-crypt.c:314-335 | des_crypt is the algorithm of the standard: under the table IP the result is what its sixteen rounds make of the block under IP, with the halves exchanged. |
| DesStandard.BlockBytes | tower/share/skynet/lualib-src/lua-crypt.c:183-198 | The first byte of a block is the leftmost. |
| Des.DesEncode | tower/share/skynet/lualib-src/lua-crypt.c:364-396 | The text is enciphered block by block after padding with 0x80 and zeros. |
| DesStandard.PaddedIs | tower/share/skynet/lualib-src/lua-crypt.c:379-396 | A text is padded with 0x80 and zeros up to the next whole block. |
| DesStandard.BlockByBlock | tower/share/skynet/lualib-src/lua-crypt.c:364-378 | Each block of the result is the block of the text at that place, enciphered. |
| Des.StripPadding | tower/share/skynet/lualib-src/lua-crypt.c:420-434 | The backward scan, its index compared with an unsigned bound, takes off exactly the padding, refuses text without one, and leaves the buffer exactly when the buffer is one block of zeros. |
| Des.DesDecode | tower/share/skynet/lualib-src/lua-crypt.c:399-436 | Deciphering refuses empty or ragged text, else deciphers all blocks and takes the padding off; it leaves its buffer if and only if the text is one block that deciphers to zeros. |
| Des.OutsideExactly | tower/share/skynet/lualib-src/lua-crypt.c:420-431 | The scan goes outside for one block of zeros and for nothing else. |
| Des.ReadsOutside | tower/share/skynet/lualib-src/lua-crypt.c:420-431 | A failing input for every key: the block that eight zeros are enciphered to. |
| Des.PaddingComesOff | tower/share/skynet/lualib-src/lua-crypt.c:364-436 | The padding comes off exactly, whatever the text ends with. |
| Des.RoundTrip | tower/share/skynet/lualib-src/lua-crypt.c:364-436 | For every text, every key schedule and all tables, deciphering what was enciphered gives the text. |
| KeyExchange.MulModP | tower/share/skynet/lualib-src/lua-crypt.c:665-684 | For a up to P and every 64-bit b the loop with wrap-around computes a*b mod P. |
| KeyExchange.PowModP | tower/share/skynet/lualib-src/lua-crypt.c:687-697 | The recursion ends for every b >= 1 and computes the power mod P, except that for the exponent 1 the base is returned as it is. |
| KeyExchange.PowMod64 | tower/share/skynet/lualib-src/lua-crypt.c:701-705 | The result is the power mod P if and only if not (a == P and b == 1); it always agrees with it modulo P. |
| KeyExchange.Exchange | tower/share/skynet/lualib-src/lua-crypt.c:723-757 | Both sides derive the same secret, base 5 to the product of the exponents. |
| KeyExchange.SentNotZero | tower/share/skynet/lualib-src/lua-crypt.c:723-757 | What is sent is never 0, so the other side does not reject it. |

## Left out

LPeg
- Grammars (rules, calls, `correctcalls`), run-time captures, and the Lua values that captures are turned into.
- Interpreter.MatchPattern: says when the stack or the captures overflow in terms of the run of the code, not of the pattern alone.
- The sizes to which `realloccode` doubles the code array: the code is a sequence.
- A set inside an instruction is kept as a set in its first slot, with the room of the bitmap; the loops over bitmaps are proved by themselves.
- In the tree array a TSet node holds its set; in C the bitmap takes the room of further nodes.
- The construction of trees (`seqaux`, `fillseq`, key tables); what the constructors check is the predicate `WellFormed`.

Collector
- GarbageCollector.GlobalState.Traverse: does not model weak tables, ephemerons and open upvalues, which a traversal treats in their own ways.
- GarbageCollector.GlobalState.Atomic: does not model the passes over weak tables, ephemerons, objects with finalizers and open upvalues.
- GarbageCollector.GlobalState.SingleStep: does not model the finalizers called in the state after sweeping.
- Weak and ephemeron tables, finalizers (the lists finobj and tobefnz are empty), open upvalues, fixed objects, prototypes shared between states, pacing and debt.
- Gray lists are sequences; the intrusive links and the aliasing of `grayagain` after the atomic phase are not shown.
- Clearing of dead keys of tables; table parts and nodes are one sequence of slots.

Scheduler
- Sleeping and waking of workers, overload warnings, the monitor, `skynet_context_dispatchall`.
- The gap between registering a context and storing its handle in it is one step; that before its queue is made is modelled.
- Dispatching.NoReuseIsSafe: the condition is about the run; which handle a registration gives out is the subject of `HandleStorage`.
- What a service does inside its init function and its callback, other than through messages, is done by other threads of the model; so is the sending of the error message in `drop_message`.
- Memory order: every locked block and atomic operation takes effect at once, in one order seen by all threads.
- In the table of handles contexts are identities; their reference counts are in `Scheduler`.
- `skynet_handle_retireall`.

Timer
- The links of lists are sequences; what a dispatched message does is modelled as requests of other threads.
- A timeout of zero or less, which pushes a message at once and does not reach the wheel.

Sockets
- UDP, buffers that belong to user objects, the control pipe, opening, listening and accepting, the mechanism of epoll and kqueue, the bytes that are read. One socket is modelled; sockets do not share state that sending uses.
- The links of write buffers are sequences.

Shared snapshots
- Freeing of the object itself by its last reader, and the counting of readers.

netpack
- The Lua side of the filter, the messages for opening, errors and warnings (an error drops what is left like a close), links of the lists, negative descriptors, chunks of size zero.

sharedata
- Values are opaque, nested tables included; strings are kept as keys where C keeps an index of an interned string.
- Keys that are integers beyond 32 bits or neither integers nor strings, marking dirty, updating, deleting.

Serializer
- Values with a `__pairs` metamethod, light user data other than their bytes, the limits of the Lua and the C stack, memory running out.
- The byte order is little-endian. A malformed table with equal keys or nil values keeps all its pairs in the model.

Crypt
- The key schedule `des_main_ks` and the constants of the substitution tables: what is proved of the cipher holds for any subkeys and any tables.
- Texts of 2^31 bytes and more, whose length an int index does not hold.
- Hex and base64 coding, hashes and the challenge codes.
