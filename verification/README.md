# Alternating automata: a verified model of the evaluator, its server and its data structures

The repository evaluates words on alternating finite automata. Testers send words to a server; the
server starts one worker per word; a worker loads the automaton, evaluates the word, sequentially or by
forking itself over the branches, and reports. Everything rests on hand-written containers, text
messages and an allocation ledger. This project models that system in Dafny and proves what it is for.

`dafny verify dfyconfig.toml` checks the whole project.

## The parts

**Acceptance.** `Automata.dfy` holds the recursive acceptance function and, independently of it, run
trees as the repository's README defines them. `Graph.dfy` is the sequential evaluator over the
transition graph's arrays. `ForkJoin.dfy` is the fork-join evaluator as a machine of processes whose
events are single steps (entering a call, forking, failing to fork, waiting for one child, reading one
pipe, writing the answer, exiting, crashing); a schedule is any sequence of enabled events. The workload
limit and the fork limit are arbitrary, and so is the choice between the code as written and a variant
that skips unopened pipes. `ForkJoinProofs`, `ForkJoinSafety` (an invariant kept by every event),
`ForkJoinTheorems`, `ForkJoinBounds` and `ForkJoinTermination` prove that run trees, the sequential
evaluator and the fork-join evaluator agree under every schedule, and bound processes and steps;
`ForkJoinCollection` says what the collection loop computes from whatever it reads, and `ForkJoinWorkload`
what the workload counts. `RunWorker.dfy` is a
worker: it loads the automaton and evaluates a word by either evaluator.

**The protocol.** `Server.dfy` and `Tester.dfy` are the two event loops, in phases in the order of the
code, each as a class proved against a function on traces of inputs. `ServerProofs.dfy` proves the
server's conservation laws and throttling over every trace. `Protocol.dfy` puts any number of testers,
the server and its workers together over first-in first-out queues, with the very phase functions of the
two loops; what a queue hands out is what scanning the printed message gives (`ReportArrives`,
`OthersArrive`). `ProtocolProofs.dfy` proves an invariant of every event and `ProtocolTheorems.dfy` what
follows from it end to end. `ProtocolLoops.dfy` closes the circle: under every schedule of the machine the
server and each tester do exactly what their loops do on the trace of what they read.

The environment assumptions of `Protocol.Enabled` are: process ids are not used twice; a worker either
reports once and then exits with 0, or fails without a report; nobody else writes to the queues; and
what a worker reports is what some schedule of its own fork-join evaluation answers, on which no fork
failed, unless reads are guarded or the workload limit is above 2 so that nothing forks
(`RunWorker.Dependable`). On a word with letters that the tables cannot hold a worker may report anything.
`ServerProofs` does without the assumptions on workers and queues and states what it needs per theorem
(`FreshPids`, `WellFormedRuns`, `CleanTrace`).

**The containers.** `ArrayList.dfy`, `LinkedList.dfy` (heap nodes with left and right pointers) and
`HashMap.dfy` on top of both, proved against `HashMapSpec.dfy`, where the table is shown to be a finite
map. The hash is a parameter; only that equal keys collide is asked of it. `ConstantHashOrder` then says
in which order the iterator meets the pairs under the constant hash the code returns, which is the order
in which `Server.State` keeps its sessions.

**Text.** `Text.dfy` gives the conversions of printf and sscanf that the messages use and proves, for
every format, that scanning undoes printing; `Decimal.dfy` says what the numerals mean. `Wire.dfy` gives
every message and its text. `Lines.dfy`
is the line splitter, `Loader.dfy` the automaton loader.

**The ledger.** `Ledger.dfy` models the allocation wrappers and the map of live blocks behind them,
whose own blocks are allocated through the same wrappers while the ledger is off. **Waiting.**
`Fork.dfy` is the wait loop.

## What the proofs found

* After a failed fork whose locally computed value does not decide the node, the collection loop reads a
  pipe that was never opened (src/automaton.h:382-383). `FailedForkWrongAnswer` gives a schedule on which
  a rejected word is accepted. `StrayReadsHarmlessIff` says, of every state in which a node reaches the
  loop, exactly when its result is right on every schedule: some opened branch decides the node, or there
  is no unopened branch. With reads guarded by `opened_state` the answer is right even when forks fail
  (`ForkJoinRefines` with `guarded`).
* A node without successors returns without waiting (src/automaton.h:311-313). Evaluated as branch 0 it
  returns while siblings are still running: `NodeReturnWaits`, `EmptyNodeReturnsEarly`.
* The word of a request is scanned with `%[^NULL]`, a set of the letters N, U and L. A word arrives
  unchanged exactly when it has none of these and no leading blank (`ParseRoundTripIff`); the words of
  the documentation, lower-case letters, do.
* The server can block on the report queue while an answer waits (`AnswerCanWait`), so there is no
  liveness theorem. `BlockedIff` says exactly when it is blocked, `UnblockedIff` exactly which event ends
  that, and `WaitsForTester` that in normal mode the reports of workers never do: only a tester that sends
  something moves the server.
* A transition line without targets, which the documented grammar does not have, ends the loading of the
  remaining lines (src/automaton.h:233). A description is recovered exactly when no line with targets
  comes after one without (`RecoveredIff`); `BareLineStopsLoading` is a text for which a word changes
  its verdict.
* The evaluator starts at workload 1 and counts its first node (src/automaton.h:423, src/automaton.h:489),
  so with any workload limit above 2, and the shipped one is 5, it never forks (`NeverForks`, `ForksIff`). The limits are
  therefore parameters here.
* The line reader writes past the end of its 256 characters exactly on lines longer than 254 characters,
  255 for a last line without newline (`BufferHolds`).

## Model

| member | source | states |
|---|---|---|
| Automata.AcceptsIffRun | README.md:311-328 | a word is accepted by the recursive function exactly when it has an accepting run tree: one child at existential nodes, one per target at universal nodes, early leaves universal, full-depth leaves final |
| Automata.AcceptsByIndex | src/automaton.h:270-289 | acceptance at a node in terms of the stored successors, some or all of them |
| Automata.OrderIrrelevant | src/automaton.h:272-289 | order and repetitions in the stored successor lists do not change acceptance |
| Graph.TransitionGraph.Init | src/automaton.h:86-101 | the graph is cleared in place: no successors, no final states, every slot -1 |
| Graph.TransitionGraph.SomeBranch | src/automaton.h:273-281 | the early-exit loop of an existential state finds an accepting branch exactly if there is one |
| Graph.TransitionGraph.EveryBranch | src/automaton.h:283-289 | the early-exit loop of a universal state fails exactly if some branch rejects |
| Graph.TransitionGraph.AcceptSyncRec | src/automaton.h:260-290 | 1 or 0, as acceptance of the rest of the word from the state |
| Graph.TransitionGraph.AcceptSync | src/automaton.h:476-478 | 1 exactly when an accepting run tree exists, 0 exactly when none does |
| ForkJoinProofs.NodeValue | src/automaton.h:375-397 | a node has its deciding value exactly when some branch has it |
| ForkJoinSafety.EventStep | src/automaton.h:301-466 | every event of every process keeps the invariant: frames, children, pipes and values in step |
| ForkJoinSafety.PipeReady | src/automaton.h:369-383 | when an opened pipe is read, its writer is the child forked for that branch, it has delivered, and the pipe holds exactly its one message |
| ForkJoinTheorems.AnswerIsRight | src/automaton.h:421-491 | under every schedule, limit, crash and failed fork, an answer given without a read of an unopened pipe is acceptance |
| ForkJoinTheorems.ForkJoinRefines | src/automaton.h:301-398 | if all forks succeed, or reads are guarded, the answer is that of the sequential evaluator |
| ForkJoinTheorems.NeverForks | src/automaton.h:423-433 | with a workload limit above 2 every evaluation stays in one process |
| ForkJoinTheorems.ForksIff | src/automaton.h:423-433 | at a root with two successors or more, some schedule forks if and only if the workload limit is at most 2 |
| ForkJoinWorkload.WorkloadCounts | src/automaton.h:402-423 | while forks succeed, the workload of a process is the number of calls it has entered itself since it was forked, and one more in the first process |
| ForkJoinCollection.LoopBegins | src/automaton.h:369-383 | when a node reaches its collection loop, every opened branch has its value in its pipe, and branch 0 and the unopened branches do not decide |
| ForkJoinCollection.CollectionValue | src/automaton.h:382-397 | on every schedule, whatever other processes do, the node is left with the value of the loop for the answers it read |
| ForkJoinCollection.StrayReadsHarmlessIff | src/automaton.h:382-391 | from any state in which a node reaches the loop, its result is right on every schedule, whatever reads of unopened pipes return, if and only if an opened branch decides the node or no branch is unopened |
| ForkJoinTheorems.FailedForkWrongAnswer | src/automaton.h:322-344 | a concrete schedule with one failed fork on which a rejected word is accepted |
| ForkJoinTheorems.NodeReturnWaits | src/automaton.h:333-373 | after a return from the node evaluator every child has been waited for and exited normally, except after a node without successors, which waits for nobody |
| ForkJoinTheorems.EmptyNodeReturnsEarly | src/automaton.h:311-313 | a reachable state in which the exception leaves a running child unwaited |
| ForkJoinTheorems.DescendantsFinished | src/automaton.h:369-373 | once the root has answered, every process ever forked has exited normally and been waited for |
| ForkJoinTheorems.FailStop | src/automaton.h:333-373 | if some descendant exited abnormally, runs, or was not waited for, the root has not answered |
| ForkJoinTheorems.Progress | src/automaton.h:301-398 | until the root finishes some process can act, so no wait and no read blocks for ever |
| ForkJoinBounds.ShareSplits | src/automaton.h:332-367 | a node with b branches splits its share of processes into b shares of its calls |
| ForkJoinBounds.AccountStep | src/automaton.h:421-466 | every event keeps the fork counts in bounds and never increases the processes accounted for |
| ForkJoinBounds.ProcessBound | src/automaton_config.h:35-41 | with at most B branches and fork limit L, no call carries a count above L + B - 1 and at most 2 to that power processes are ever created |
| ForkJoinTermination.CostStep | src/automaton.h:301-466 | every event but a failing wait uses up cost |
| ForkJoinTermination.ScheduleBound | src/automaton.h:421-466 | every schedule is finite, with an explicit bound in the word length and the branch bound |
| ForkJoinTermination.UndisturbedAnswers | src/automaton.h:488-491 | total correctness: an undisturbed schedule that cannot go on has answered, with acceptance |
| ForkJoinTermination.AnswerExists | src/automaton.h:488-491 | on every automaton and word some undisturbed schedule ends with the answer |
| RunWorker.AnswersIff | src/run.c:141-146 | what the fork-join evaluator can answer on dependable schedules is acceptance: it has that answer and no other |
| RunWorker.Work | src/run.c:131-147 | loading a description and evaluating a word answers 1 exactly when the word has an accepting run of the loaded automaton, else 0, and agrees with every fork-join evaluation; the loaded automaton is the described one when no targets were missed |
| Fork.ProcessWaitForAll | src/fork.h:107-136 | waits until no child is left; 1 exactly when every child exited with 0 and no wait failed, else -1 |
| Fork.ProcessWaitForAllNonBlocking | src/fork.h:169-198 | one wait: -1 for a failed child or call, 1 for a child that exited with 0, 0 if none ended |
| Server.ScanInRange | src/validator.c:271-279 | the scan for a session ends at one of the sessions, if there are any |
| Server.Validator.ReadRegisters | src/validator.c:172-197 | the register loop, as the fold over the messages read that `RegisterSessions` is about |
| ServerProofs.RegisterSessions | src/validator.c:172-197 | every tester that registers has a new session with the queue of its last registration; all other sessions are as before |
| Server.Validator.FindSession | src/validator.c:271-279 | the scan stops at the first session with the pid, else stands at the last |
| Server.Validator.Spawn | src/validator.c:462-470 | the pid of the first of at most three attempts that succeeds; none exactly if those all fail |
| Server.Validator.BroadcastExit | src/validator.c:508-515 | one exit message for every session, in iteration order |
| Server.Validator.EventLoop | src/validator.c:164-519 | the event loop over any trace computes the final state and the messages of `RunServer`, which `LoopMessages`, `Conservation`, `SessionCounts` and `ActiveBound` are about |
| Server.Stopped | src/validator.c:508-519 | once left, the loop reads nothing more |
| ServerProofs.PutTesterSessions | src/validator.c:182-192 | storing a session keeps one per tester and loses none |
| ServerProofs.ScanFinds | src/validator.c:271-279 | the linear scan finds the tester's own session whenever it has one |
| ServerProofs.ThrottleEffects | src/validator.c:204-248 | throttling starts exactly above the limit and ends exactly below it, and the modes of the two queues mirror it before and after |
| ServerProofs.RunAnswers | src/validator.c:228-311 | a report ends the open slot of its worker and no other, and sends one answer, to the queue of the slot's tester under its local id; a stray report sends nothing |
| ServerProofs.ForwardEffects | src/validator.c:280-302 | an answer counts once, for the server and for the slot's tester, and changes no other session |
| ServerProofs.ForwardKeeps | src/validator.c:263-306 | answering a slot keeps the conservation laws and sends to the queue of the slot's tester, under its local id |
| ServerProofs.ChargeKeeps | src/validator.c:391-424 | charging a request adds one to the server's total, at most one to the sessions, and leaves the tester with a session |
| ServerProofs.ChargeSessions | src/validator.c:391-424 | a request counts once for its own tester, whose session is opened with the request's queue if missing, and changes no other session |
| ServerProofs.ReportEffects | src/validator.c:375-503 | a parse request opens a slot for its own tester and local id if a worker started and none otherwise; other messages at most ask to stop |
| ServerProofs.Conservation | src/validator.c:163-519 | over every trace with fresh worker pids, strays included: received = sent + open slots + failed spawns, accepted at most sent, every slot's tester has a session, sessions sum to at most the totals, queue modes mirror the throttle |
| ServerProofs.LoopMessages | src/validator.c:228-306 | the messages of the loop over every trace are the answers owed for the reports read, in reading order, each to the session of the slot's tester under its local id, as many as counted as sent and with as many results 1 as counted as accepted; after forced termination exactly one exit to each session follows |
| ServerProofs.SessionCounts | src/validator.c:177-192 | the count of each session is the number of parse requests since the session was last created |
| ServerProofs.ActiveBound | src/validator.c:204-248 | with well-formed run messages at most limit + 1 workers count as active |
| ServerProofs.BlockingReadHasWorkers | src/validator.c:204-228 | without crashes and strays, active workers are the open slots, and a blocking read has at least limit workers still to report |
| Tester.Process.TakeInput | src/tester.c:117-146 | one line of input: a request under a new local id, a stop request, or the end |
| Tester.Process.TakeMessage | src/tester.c:149-183 | one message: a line printed, counted and its word forgotten, an unknown id, an exit, or an invalid message; `LinesPrinted` says what the counts are |
| Tester.Process.Loop | src/tester.c:115-189 | the loop over any trace computes the final state, the messages and the lines of `RunTester`, which `SentIsInput`, `LinesPrinted` and `TesterLedger` are about |
| Tester.AfterStop | src/tester.c:174-188 | once left, the loop does nothing more |
| Tester.InputKeeps | src/tester.c:117-146 | input keeps the ledger |
| Tester.MessageKeeps | src/tester.c:149-183 | any message, with unknown, repeated or negative ids too, keeps the ledger |
| Tester.TesterLedger | src/tester.c:115-189 | over every stream: requests = answers + words outstanding, accepted at most answered; the loop is left if and only if an exit was read, or the input is finished and nothing is outstanding |
| Tester.SentIsInput | src/tester.c:117-146 | over every stream one message is sent for each line of input, in order, a request under the line's number or a request to stop, up to the end of the input; the requests are counted |
| Tester.LinesPrinted | src/tester.c:149-172 | over every stream as many lines are printed as answers counted, and as many say A as are counted as accepted; each is for a word sent under its local id, no id twice, in the order in which the answers were read and with the verdict read |
| Protocol.ReportArrives | src/validator.c:384-390 | scanning a tester's printed message gives exactly what the machine puts in the report queue |
| Protocol.OthersArrive | src/validator.c:177-231 | registrations, workers' reports, answers and exits survive printing and scanning |
| ProtocolProofs.ParseStep | src/tester.c:131-141 | a new request is in the report queue and in its tester's table, under an id never used before |
| ProtocolProofs.AnswerExpected | src/tester.c:154-172 | the tester finds the word of every answer it reads and has not printed it before |
| ProtocolProofs.AnswersStep | src/validator.c:230-306 | reading a worker's report moves its request from the open slots to the tester's queue |
| ProtocolProofs.NoneActive | src/validator.c:362-370 | no worker counts as active if and only if every open slot is that of a crashed worker that was waited for |
| ProtocolProofs.TerminationDecided | src/validator.c:362-370 | termination is forced exactly when it was requested, no child was found, no report was read, and every open slot is that of a crashed worker |
| ProtocolProofs.ReapStep | src/validator.c:320-348 | waiting for a child keeps the accounting: a failed worker lowers the active count once and keeps its slot |
| ProtocolProofs.SpawnStep | src/validator.c:390-484 | starting a worker moves the request from the report queue to an open slot with the right tester, id and word |
| ProtocolProofs.FinishStep | src/validator.c:508-518 | the exit messages come after everything else |
| ProtocolProofs.ReportsRight | src/run.c:141-161 | a worker can report exactly the right results, by evaluating |
| ProtocolProofs.WorkerReportStep | src/run.c:141-161 | a report is evaluated, hence right, and the first of its worker |
| ProtocolProofs.EventStep | src/validator.c:163-519 | every event of testers, server and workers keeps the invariant of the system |
| ProtocolLoops.ServerIsItsLoop | src/validator.c:164-519 | under every schedule, before each turn and at the end, the server's state and all messages it has sent are those of its event loop on the trace of what it read |
| ProtocolLoops.TesterIsItsLoop | src/tester.c:115-189 | under every schedule, between turns, a tester's state, the messages it has sent and the lines it has printed are those of its loop on the trace of what it read |
| ProtocolTheorems.EndToEnd | src/tester.c:154-160 | every printed line is for a word sent under that id and is printed once; over letters that the tables hold it says A exactly when the automaton accepts the word, transmitted unchanged if lower-case |
| ProtocolTheorems.WordCanBeAnswered | src/tester.c:115-189 | under every automaton and every limit from 1, every lower-case word can be sent, evaluated and answered, with the verdict of the automaton |
| ProtocolTheorems.HistoriesGrow | src/tester.c:131-141 | no event changes the word of a request or takes back a line |
| ProtocolTheorems.RequestsConserved | src/validator.c:388-497 | each request is, exactly once, in the report queue, an open slot, a tester's queue, given up, or printed |
| ProtocolTheorems.ShutdownSafety | src/validator.c:320-370 | the active count is the run slots less the crashes waited for; when termination is forced every worker that did not crash has its answer forwarded |
| ProtocolTheorems.AnswersBeforeExit | src/validator.c:508-518 | in each tester's queue all answers precede an exit |
| ProtocolTheorems.DismissedHasItsAnswers | src/tester.c:174-176 | a request of a tester that read an exit is printed, or was never taken, or no worker started, or its worker crashed |
| ProtocolTheorems.BlockedIff | src/validator.c:228-377 | the server is blocked if and only if it is gone, or throttled without a report of a worker, or in normal mode without a message of a tester |
| ProtocolTheorems.UnblockedIff | src/validator.c:228-377 | a blocked server is unblocked by exactly these events: a worker's report if it waits for one, something sent by a tester if it waits for that |
| ProtocolTheorems.ReportWaitsIff | src/validator.c:228-377 | a report waits for a blocked server exactly when the server is gone or waits for a tester |
| ProtocolTheorems.WaitsForTester | src/validator.c:375-377 | while no tester sends anything a server that waits for one stays as it is, and workers' reports pile up |
| ProtocolTheorems.AnswerCanWait | src/validator.c:375-377 | such a state, with the only worker's report waiting, is reached under every automaton and every limit from 1 |
| ArrayLists.ArrayList.ResizeCapacity | src/array_lists.c:35-40 | growth keeps the elements; capacity one above the request |
| ArrayLists.ArrayList.Resize | src/array_lists.c:46-54 | capacity strictly above the request, doubled where that suffices, elements kept |
| ArrayLists.ArrayList.ResizeFill | src/array_lists.c:59-69 | the new elements are null and only added |
| ArrayLists.ArrayList.GetValueAt | src/array_lists.h:220-235 | the element or null; access outside extends with nulls |
| ArrayLists.ArrayList.SetValueAt | src/array_lists.h:251-268 | the element replaced and returned; access outside extends with nulls first |
| ArrayLists.ArrayList.PushBack | src/array_lists.c:88-97 | appends, and keeps the copying within its budget |
| ArrayLists.ArrayList.PopBack | src/array_lists.c:104-114 | removes and returns the last element, null when empty |
| ArrayLists.ArrayList.Copy | src/array_lists.c:202-212 | a fresh list with the same elements |
| ArrayLists.PushAll | src/array_lists.c:46-97 | n pushes onto a new list copy at most 2n + 1 slots in all |
| LinkedLists.List.PushFront | src/dynamic_lists.c:48-62 | prepends a fresh node, links mutually inverse |
| LinkedLists.List.PushBack | src/dynamic_lists.c:67-81 | appends a fresh node, links mutually inverse |
| LinkedLists.List.PopFront | src/dynamic_lists.c:88-105 | removes, frees and returns the first element |
| LinkedLists.List.PopBack | src/dynamic_lists.c:112-129 | removes, frees and returns the last element |
| LinkedLists.List.DetachElement | src/dynamic_lists.c:327-344 | deletes the node at its position and frees it |
| LinkedLists.List.InsertListAt | src/dynamic_lists.c:363-398 | splices the other list in, left of the node; the other list becomes empty |
| LinkedLists.List.InsertElementAt | src/dynamic_lists.c:404-409 | inserts one value left of the node |
| LinkedLists.List.Split | src/dynamic_lists.c:416-432 | cuts after the node; the rest is the new list |
| LinkedLists.List.DestroyRecLeft | src/dynamic_lists.c:37-43 | frees a node and everything left of it, each node once |
| LinkedLists.List.Clear | src/dynamic_lists.c:134-141 | frees each node once and empties the list |
| LinkedLists.List.Destroy | src/dynamic_lists.c:146-158 | frees each node once and empties the list |
| LinkedLists.List.Size | src/dynamic_lists.c:191-198 | the length of the sequence |
| LinkedLists.List.GetValueAt | src/dynamic_lists.h:561-574 | the element at the position, null outside |
| LinkedLists.List.CopyInto | src/dynamic_lists.c:203-210 | appends the elements to the target |
| LinkedLists.List.Copy | src/dynamic_lists.c:235-280 | both branches give the same sequence on fresh nodes |
| HashMapSpec.RemoveLaws | src/hashmap.h:346-371 | removal deletes the key and leaves every other alone |
| HashMapSpec.PutLaws | src/hashmap.h:475-492 | storing binds the key and leaves every other alone |
| HashMapSpec.TouchedOk | src/array_lists.h:220-235 | growth of the bucket array on a read never changes the map |
| HashMapSpec.PairsAreTheMap | src/hashmap.h:529-554 | the pairs in iteration order hold every key once, with its value, and no other |
| HashMapSpec.ConstantHashOrder | src/hashmap.h:284-286 | under the constant hash the pairs are in the order of their last store |
| HashMaps.HashMap.FindNode | src/hashmap.h:307-316 | the search in a bucket stops at the first element with an equal key |
| HashMaps.HashMap.HashMapGet | src/hashmap.h:297-319 | lookup in the finite map; null for a null or missing key |
| HashMaps.HashMap.HashMapRemove | src/hashmap.h:346-371 | returns the old value and removes the key |
| HashMaps.HashMap.HashMapSet | src/hashmap.h:475-492 | returns the overwritten value and stores the new one |
| HashMaps.HashMap.HashMapBegin | src/hashmap.h:562-578 | stands at the first pair |
| HashMaps.HashMap.HashMapNext | src/hashmap.h:529-554 | moves to the next pair over empty and null buckets |
| HashMaps.HashMap.HashMapIsEnd | src/hashmap.h:586-589 | true exactly when no pair is left, though it may grow the array |
| HashMaps.HashMap.Iterate | src/hashmap.h:125-127 | the iteration terminates, visits every pair exactly once, and leaves the map unchanged |
| HashMaps.HashMap.HashMapDestroy | src/hashmap.h:421-434 | frees the element records of all pairs, each once and in order, every bucket once, and every list node |
| Text.NumberOfShow | src/msg_pipe.h:102-134 | reading a printed number gives the number and the rest of the text |
| Decimal.ShowNatLength | src/tester.c:62 | a number is printed with as many decimal digits as it needs |
| Decimal.ShowNatDigit | src/tester.c:62 | the digit at place i from the right is the number divided by ten to the i, modulo ten |
| Decimal.NumberPositional | src/automaton.h:212-239 | reading takes all digits, leading zeros too, after an optional sign, and gives their positional decimal value |
| Text.ScanPrint | src/tester.c:139-154 | for every format, scanning what was printed gives back the values, if each is separated from what follows |
| Wire.QueueNameInjective | src/tester.c:61-62 | testers with different pids have different queues |
| Wire.MessagesAsText | src/tester.c:69-139 | the text of every message, keyword and fields with single spaces |
| Wire.RegisterRoundTrip | src/validator.c:177 | a registration arrives as it was sent |
| Wire.RunRoundTrip | src/validator.c:231 | a worker's report arrives as it was sent |
| Wire.AnswerRoundTrip | src/tester.c:154 | an answer arrives as it was sent |
| Wire.ExitRoundTrip | src/tester.c:174 | an exit message is never read as an answer, nor a stop request as a parse request |
| Wire.ExitIff | src/tester.c:174 | only the text `exit` is read as a request to stop or as an exit message |
| Wire.PipeRoundTrip | src/msg_pipe.h:97-140 | a pipe identifier survives printing and scanning |
| Wire.ParseTransmits | src/validator.c:390 | what the server makes of any word: leading blanks and everything from the first N, U or L on are lost |
| Wire.ParseRoundTripIff | src/validator.c:390 | a request arrives unchanged if and only if its word has no leading blank and no N, U or L |
| Wire.ParseRoundTrip | src/tester.c:139 | requests for lower-case words, the empty word too, arrive unchanged |
| Lines.SplitJoin | src/getline.h:92-120 | splitting undoes joining, with or without a final newline |
| Lines.StrGets | src/getline.h:92-120 | copies up to and including the newline, or n characters, or fails at the end |
| Lines.BufferHolds | src/getline.h:92-120 | the reader's buffer is not overrun if and only if the line has at most 254 characters, or 255 at the end of the text |
| Lines.StrGetline | src/getline.h:130-167 | one line without its newline, or -1 at the end with the buffer unchanged, for every line that does not overrun the buffer |
| Lines.ReadLines | src/getline.h:130-167 | repeated reading yields exactly the newline-split of the text |
| Loader.LoadFinals | src/automaton.h:217-223 | marks exactly the listed final states |
| Loader.LoadTargets | src/automaton.h:234-239 | stores every target of a transition line, in order, after those already there |
| Loader.LoadTransitions | src/automaton.h:225-242 | stores the targets of the transition lines up to the first line without targets |
| Loader.LoadTransitionGraph | src/automaton.h:195-245 | loading a text recovers header, initial state, final states and T(q,a) for all q and a as listed before the first line without targets; all of them if and only if no targets come after it |
| Loader.RecoveredIff | src/automaton.h:231-233 | what is read means what was described if and only if no line with targets comes after one without |
| Loader.BareLineStopsLoading | src/automaton.h:231-233 | a text whose last line is not loaded, and a word accepted as described and rejected as loaded |
| Ledger.Heap.OnAlloc | src/gcinit.h:85-101 | a block is entered while the ledger's own allocations leave no trace in it |
| Ledger.Heap.OnFree | src/gcinit.h:104-116 | a block is taken out; null is ignored |
| Ledger.Heap.AllocateMemoryBlock | src/memalloc.h:124-136 | keeps the ledger exactly the program's live blocks |
| Ledger.Heap.ReallocateMemoryBlock | src/memalloc.h:148-164 | keeps it so when the block moves, stays, or was null |
| Ledger.Heap.ReallocateMemoryBlockArray | src/memalloc.h:206-224 | keeps it so, a null block being passed on |
| Ledger.Heap.FreePtr | src/memalloc.h:235-240 | keeps it so |
| Ledger.Heap.FreeAll | src/gcinit.h:144-157 | the calls of free are for the live blocks, all of them and each once |
| Ledger.RunProgram | src/gcinit.h:63-212 | over any sequence of requests the program's blocks follow the requests, the ledger is exact after each, and the cleanup frees exactly the blocks then live, each once |

## Left out

- Ledger.Heap.FreeAll: modes 3 to 7 and custom destructors are not modelled, and the wait for children that ends mode 2 is left to `Fork`.
- Ledger.Heap.AllocateMemoryBlock: failing allocations and negative sizes end the program and are not modelled; the calloc form differs only in the contents.
- Ledger.Heap.OnAlloc: the ledger's map is a list of addresses here, as `HashMap` under the constant hash has been shown to be one; its own blocks are any sequence of allocations, reallocations and frees.
- Graph.TransitionGraph.AcceptSync: words are over the letters a to z; other characters index outside the array in the code.
- ForkJoinTheorems.ForkJoinRefines: the evaluator is a state machine and not an imperative program, since its steps interleave with those of other processes; the stack of activations stands for the C stack.
- ForkJoinCollection.StrayReadsHarmlessIff: a read of an unopened pipe returns an arbitrary answer; that it may instead block, crash, or take another pipe's message is not modelled.
- ForkJoinBounds.ProcessBound: the fork limit is any number from 0 and the branch bound any from 1; C integer overflow of the counters is not modelled, here or elsewhere.
- Loader.LoadTransitionGraph: for lines of at most 254 characters without trailing blanks, and at most as many targets per state and letter as the array has room for; other texts are not modelled.
- RunWorker.Work: parent-death signals and the transfer of the graph over the pipe are not modelled.
- Lines.StrGetline: a line that overruns the buffer is undefined in the code and excluded by the precondition, which `BufferHolds` makes explicit; the file version is not modelled.
- Wire.ParseTransmits: messages that convert only in part, which the code accepts with stale fields, are read as bad here; buffer lengths and message sizes are not modelled.
- Server.Validator.EventLoop: reads and forks are inputs of a trace; the abnormal-exit broadcast, which reads variables that main shadows, the build with SERVER_TERMINATE_ON_RUN_FAILURE, the cycle counter and the cleanup after the loop are not modelled.
- Tester.Process.Loop: what was read, and whether a message was there, are inputs of a trace; the final report is not modelled.
- ProtocolTheorems.EndToEnd: the capacity of the queues is unbounded, process ids are not reused, no foreign process writes to the queues, and workers report what they evaluated on a dependable schedule; without that last assumption a wrong answer can be printed, as `FailedForkWrongAnswer` shows for the worker. On words with letters outside the tables nothing is said of the verdict.
- ProtocolTheorems.ShutdownSafety: a worker that fails after its report would lower the count twice; the environment assumption excludes it.
- HashMaps.HashMap.HashMapGet: elements with null keys cannot arise and are not represented; the wrapper struct around a bucket's list is the list itself; the deep variants and the computed hash that is then overwritten are not modelled.
- HashMaps.HashMap.HashMapDestroy: the element records are values here, so that they are freed is stated of the list of records freed; the array's own memory is not modelled.
- LinkedLists.List.InsertListAt: null arguments, for which the operations do nothing, are not represented.
- Liveness of the server: false; `BlockedIff` and `UnblockedIff` say exactly when and until when it is blocked.
- System calls, logging, flags, the exit handlers and the automatic validator, which only wrap or print.
