# Proofs about the Linux IPC exercises

This project models the seven parts of the repository that hold real state, and proves what each
of them keeps in every run or for every input. `dafny verify dfyconfig.toml` checks all of it.

| part of the repository | files here | what is modelled |
|---|---|---|
| ring-buffer broadcast, `SP_HW10` | `Broadcast`, `BroadcastSafety`, `BroadcastLocked`, `BroadcastResults`, `BroadcastOutcomes`, `BroadcastSignals`, `BroadcastTorn`, `BroadcastSchedules`, `BroadcastPrograms` | one producer and any number of consumers, one byte of `strcpy`/`sprintf` per step, lossy signals, with and without the compare-and-swap lock |
| shared-memory transfer, `SP_HW9/54` | `SharedMemoryTransfer`, `SharedMemorySchedules` | writer and reader under two binary semaphores, short reads, interrupted `semop` |
| message-queue file transfer, `SP_HW9/52` | `FileTransfer`, `FileTransferSchedules` | server child and client over a 20-slot queue, with the message structs kept byte by byte |
| signal ping-pong, `SP_HW7/SP_HW7-1` | `SignalPingPong` | both waiting styles, with a signal that does not queue |
| process tree, `SP_HW3/hw3_part2.c` | `ProcessForest`, `ProcessTable` | the linking loops on arrays, the recursive printer and its global counter |
| shell, `SP_HW4/part2` | `CommandLine`, `Pipelines`, `PipeCommand`, `ShellLine` | parsing, background and redirection, `fork`/`pipe`/`dup2` over descriptor tables, and the way from a typed line to the programs that run |
| dictionary, `SP_HW4/part3` and `SP_HW11/part1` | `DictionaryFile`, `DictionaryLookup` | the converter, the linear lookup and the `bsearch` lookup |

`CStrings` holds the C library functions they share, `Common` a few plain definitions.

Each concurrent part has a pure transition system, in which a run is any sequence of steps that
the processes can take, and a class whose methods make the same steps on fields and arrays in
place. The main results are lemmas about all runs of the transition system; the methods are tied
to it by their `ensures`. The `Schedules` files show the other direction, that a run with a given
outcome exists. The nondeterministic `if` in `SharedMemoryTransfer.Transfer.Turn`,
`FileTransfer.Session.Turn`, `SignalPingPong.PingPong` and `PipeCommand.Kernel.Connect` has no
default case, so that some process can always move is a proof obligation there;
`BroadcastPrograms.Ring.Turn` is handed its step instead, as a consumer can wait for ever.
Sequential parts are methods over arrays, with functions for what they compute and lemmas about
those.

Where the code does not do what it seems meant to do, a lemma gives the exact condition and
another one an input that fails:

- the client of the message queue can report a wrong length: exactly if the file is not empty and
  the last seven bytes of its `mtype` were not zero before the first message
  (`FileTransferSchedules.WrongReportIff`, `FileTransfer.ReportRightIff`,
  `FileTransfer.SmallFileMiscounted`);
- each message carries its block without the last eight bytes, because the type is sent in front
  and not counted (`FileTransfer.MessagesLoseEightBytes`);
- the broadcast can lose every signal and leave all consumers waiting for ever
  (`BroadcastSchedules.SomeRunStrandsAll`), and a comparison whose copy has no number is decided by
  a missing return value (`BroadcastSignals.ComparesLastHandled`);
- entries of the process table are printed twice exactly if entry 1 is a child of entry 0
  (`ProcessForest.NoneTwiceIff`, `ProcessForest.ChildVisitedTwice`);
- a child can be printed no deeper than its father: exactly if a later child has pid 2, or if
  entry 1 is a child of entry 0 and has pid 2 or a child of its own (`ProcessTable.DeeperIff`,
  `ProcessTable.LaterChild2NotDeeper`, `ProcessTable.GrandchildNotDeeper`);
- a leading `&` is left in the child's vector (`CommandLine.ChildWordsIff`,
  `CommandLine.AmpersandStays`), and a `<` behind it still counts
  (`CommandLine.InputRedirectedIff`, `CommandLine.AmpersandRedirects`);
- `cmd < in > out` loses its output redirection (`CommandLine.OutputRedirectedIff`,
  `CommandLine.OutputLost`), and `cmd < in | wc` loses `wc` (`ShellLine.RunsAllIff`,
  `ShellLine.PipeDropped`);
- a file named behind a `|` is read by the first program and not by the one it is written at
  (`ShellLine.InputReachesIff`, `ShellLine.InputGoesToTheFirst`);
- a leading `<` or `>` makes the child dereference NULL (`CommandLine.CrashIff`,
  `CommandLine.OnlyRedirection`);
- a line with a command missing next to a `|` runs something before, or instead of, the error
  message: exactly if a `|` is at an end or two are in a row (`Pipelines.LinePlanIff`,
  `Pipelines.PipeAtTheEnd`, `Pipelines.PipesInARow`);
- the loss rate that `program_enhanced.c` prints is 0 or 1, and right only if all or nothing was
  counted (`BroadcastResults.LossRateMeaning`, `BroadcastResults.HalfIsPrintedAsAll`);
- newlines behind the words of a sorted table disturb its order exactly if a word continues an
  earlier one with a character below the newline (`DictionaryLookup.NewlineKeepsSortedIff`,
  `DictionaryLookup.TabDisturbsOrder`).

## Model

| member | source | states |
|---|---|---|
| BroadcastResults.LockExcludes | SP_HW10/program_enhanced.c:83-119 | in every run the lock word is 1 exactly when a process is between its compare-and-swap and its release, and no two ever are |
| BroadcastResults.CopiesAreWhole | SP_HW10/program_enhanced.c:83-93 | with the lock, the copy of iteration b is one whole message m with m >= b and m congruent to b modulo the slots, and for m > 0 it counts exactly when the signal carried m; the copy fits its array |
| BroadcastResults.ReceivedNumbersIncrease | SP_HW10/program_enhanced.c:83-103 | under any loss of signals the received numbers at the comparisons strictly increase and the one of iteration b is at least b, so nothing is counted twice |
| BroadcastResults.MessagesMissTheWords | SP_HW10/program_enhanced.c:111-118 | every byte of `strcpy` goes to one message byte below the counter and the lock word and changes nothing else |
| BroadcastResults.CounterIsExact | SP_HW10/program.c:80-98 | no increment is lost: the counter is the sum of the matches (less those about to be added) and at most consumers times messages |
| BroadcastResults.LossRateMeaning | SP_HW10/program.c:132-136 | the exact loss rate is in [0, 1] and 0 iff every consumer matched every time; the integer form of the other program is 0 then and 1 otherwise, so right then and if nothing was counted |
| BroadcastResults.PrintedRateIff | SP_HW10/program_enhanced.c:139-143 | the printed rate equals the exact one exactly if the counter is 0 or the total |
| BroadcastResults.HalfIsPrintedAsAll | SP_HW10/program_enhanced.c:139-143 | one of two counted is a loss of one half, and 1 is printed |
| BroadcastOutcomes.CountedIff | SP_HW10/program.c:82-88 | in every run of either program, if `seqcmp` has a number for the copy, the receipt is counted exactly when the signal carried that number |
| BroadcastOutcomes.WholeCopyCountsIff | SP_HW10/program.c:82-88 | also without the lock, a copy that is a whole message m > 0 counts exactly when the signal carried m |
| BroadcastOutcomes.ConsumersFinish | SP_HW10/program_enhanced.c:69-101 | a consumer that has left had its open fail before any comparison, or has made exactly one comparison per message; without a failed open only the second |
| BroadcastSignals.SignalsComeInOrder | SP_HW10/program.c:13-16 | in every run the handler takes the numbers that got through in the order sent and loses none, the number at hand is the last one handled, and until the consumer leaves the handler can run exactly while one is waiting |
| BroadcastSignals.ComparesLastHandled | SP_HW10/program.c:84-88 | each comparison is of the whole copy with the last number handled, what `seqcmp` returns without a return statement decides where it has no number, and exactly a match is added |
| BroadcastSignals.NumbersThatArrive | SP_HW10/program.c:113-120 | the numbers that get through to a consumer ascend, and are those of all messages if none is dropped and the producer has finished |
| BroadcastTorn.CopiesMixOneSlot | SP_HW10/program.c:82-90 | without the lock a copy may mix messages, but each of its characters stands at the same place in some message congruent to the iteration modulo the slots |
| BroadcastSchedules.SomeRunMatchesAll | SP_HW10/program_enhanced.c:82-133 | for any numbers of messages, consumers and slots, locked or not, some run lets every consumer match in every iteration and leave, with the counter full |
| BroadcastSchedules.SomeRunStrandsAll | SP_HW10/program_enhanced.c:68-102 | in some run all signals are dropped, the producer ends, and every consumer waits in its first `pause` with no step left |
| BroadcastSchedules.SomeRunGivesUp | SP_HW10/program_enhanced.c:69-78 | any consumer can leave without a comparison because its open fails |
| BroadcastSafety.StepKeepsInv | SP_HW10/program.c:80-126 | every step of either program keeps the message area, the order of received numbers, the bounds and the counter sum |
| BroadcastLocked.StepKeepsGuarded | SP_HW10/program_enhanced.c:83-119 | every step of the locked program keeps mutual exclusion, the contents of all slots, and the partial copies as prefixes of whole messages |
| Broadcast.SlotIsRemainder | SP_HW10/program_enhanced.c:94-95 | the slot reached by stepping is the remainder of the iteration number |
| Broadcast.NextSlotIsSlot | SP_HW10/program_enhanced.c:129-132 | moving `ptr` and wrapping it keeps it at the slot of the loop counter |
| Broadcast.MessageFits | SP_HW10/program_enhanced.c:112-118 | a message with any printed int is at most 26 characters, so it fits its 40-byte and 30-byte arrays |
| Broadcast.SeqCmpMeaning | SP_HW10/program_enhanced.c:17-29 | the first of the first four words that is a number other than 0 counts; without one, a fifth word means -1 or 0 and no fifth word means no result |
| Broadcast.SeqCmpOfMessage | SP_HW10/program_enhanced.c:17-29 | `seqcmp` of a whole copy of message m yields m, and has no defined result for m = 0 |
| Broadcast.ScanNumber | SP_HW10/program_enhanced.c:17-29 | the loop over the words returns what `SeqCmp` specifies, including the too-many-words value and the missing return |
| BroadcastPrograms.Ring.constructor | SP_HW10/program_enhanced.c:54-57 | the segment and variables at the start are the initial state |
| BroadcastPrograms.Ring.StoreLock | SP_HW10/program_enhanced.c:85-88 | the lock word is stored in the locked program and nothing happens in the other |
| BroadcastPrograms.Ring.StrcpyByte | SP_HW10/program_enhanced.c:118 | one byte of the copy in place is the producer's step |
| BroadcastPrograms.Ring.SendOne | SP_HW10/program_enhanced.c:122-127 | one turn of the `sigqueue` loop, delivered or dropped, is the producer's step |
| BroadcastPrograms.Ring.ProducerTurn | SP_HW10/program_enhanced.c:111-133 | each statement of the producer on the shared arrays is its step in the transition system |
| BroadcastPrograms.Ring.FetchAndAdd | SP_HW10/program_enhanced.c:90 | the counter word goes up by one and no other byte changes |
| BroadcastPrograms.Ring.Compare | SP_HW10/program_enhanced.c:89-93 | the comparison of the received number with the scanned one is the model's |
| BroadcastPrograms.Ring.ConsumerTurn | SP_HW10/program_enhanced.c:82-103 | each statement of a consumer is its step in the transition system |
| BroadcastPrograms.Ring.CaptureSignal | SP_HW10/program_enhanced.c:13-16 | the handler stores the oldest pending number and ends a pause |
| BroadcastPrograms.Ring.FailToOpen | SP_HW10/program_enhanced.c:69-78 | a consumer whose `shm_open` or `mmap` fails leaves, and nothing else changes |
| BroadcastPrograms.Ring.Run | SP_HW10/program_enhanced.c:82-133 | any interleaving on the arrays ends where the transition system does and keeps the invariant |
| SharedMemoryTransfer.EveryRunIsSafe | SP_HW9/54/svshm_xfr_writer.c:41-68 | in every run one token in all (so filling and draining never overlap), output + in flight + unread = input, and removal only after the reader's last access |
| SharedMemoryTransfer.LateCountIsStable | SP_HW9/54/svshm_xfr_writer.c:41-56 | after the writer gave the token away `cnt` keeps its value until the writer has counted it |
| SharedMemoryTransfer.NoDeadlock | SP_HW9/54/svshm_xfr_reader.c:30-51 | while one program is not finished some program can move |
| SharedMemoryTransfer.StepUsesWork | SP_HW9/54/svshm_xfr_writer.c:41-62 | every step, interruptions included, lowers a measure |
| SharedMemoryTransfer.EveryRunEndsWell | SP_HW9/54/svshm_xfr_reader.c:30-53 | runs are linear in the input; one that cannot go on has both programs done, output = input, byte counts equal to its length, and both transfer counts equal to the number of non-empty blocks read in the schedule |
| SharedMemoryTransfer.TransfersAreBlocks | SP_HW9/54/svshm_xfr_writer.c:41-56 | at any moment the writer's count is the number of non-empty blocks it has read, less one that is not yet counted |
| SharedMemorySchedules.ReportsIff | SP_HW9/54/svshm_xfr_writer.c:41-71 | some run ends with both programs reporting k transfers exactly if k is at most the length of the input and k buffers hold it |
| SharedMemoryTransfer.Transfer.WriterTurn | SP_HW9/54/svshm_xfr_writer.c:41-68 | each statement of the writer on the fields is an enabled step, for any short read |
| SharedMemoryTransfer.Transfer.Fill | SP_HW9/54/svshm_xfr_writer.c:44 | any short read fills the buffer and sets `cnt` as the step does |
| SharedMemoryTransfer.Transfer.Interrupt | SP_HW9/54/binary_sems.c:40-42 | an interrupted `semop` changes nothing and is repeated |
| SharedMemoryTransfer.Transfer.ReaderTurn | SP_HW9/54/svshm_xfr_reader.c:30-51 | each statement of the reader on the fields is an enabled step |
| SharedMemoryTransfer.Transfer.Turn | SP_HW9/54/svshm_xfr_reader.c:30-51 | whichever program is scheduled makes an enabled step, which keeps the invariant and lowers the measure |
| SharedMemoryTransfer.Transfer.Run | SP_HW9/54/svshm_xfr_writer.c:41-71 | both programs end with the whole input written, its length as both byte counts and the number of blocks read as both transfer counts |
| SharedMemoryTransfer.Settled | SP_HW9/54/binary_sems.c:40-42 | the first answer of `semop` that is not retried |
| SharedMemoryTransfer.SemaphoreSet.InitSemAvailable | SP_HW9/54/binary_sems.c:12-19 | the semaphore becomes 1, the others stay |
| SharedMemoryTransfer.SemaphoreSet.InitSemInUse | SP_HW9/54/binary_sems.c:20-27 | the semaphore becomes 0, the others stay |
| SharedMemoryTransfer.SemaphoreSet.Attempt | SP_HW9/54/binary_sems.c:40-42 | one turn of the loop: a granted call takes one from a positive value, any other changes nothing |
| SharedMemoryTransfer.SemaphoreSet.ReserveSem | SP_HW9/54/binary_sems.c:31-45 | however often it blocks or is interrupted while others change the set, the value at the granting moment goes down once if 0 is returned and nothing is taken otherwise |
| SharedMemoryTransfer.SemaphoreSet.ReleaseSem | SP_HW9/54/binary_sems.c:46-56 | the semaphore goes up once, the others stay |
| FileTransfer.DecodeSmall | SP_HW9/52/svmsg_file_client.c:63-72 | eight bytes read as a `long` equal a small value exactly when they are its encoding |
| FileTransfer.TypeTested | SP_HW9/52/svmsg_file_client.c:63-72 | the test for DATA succeeds exactly when the last message was data and the first one primed `mtype`; the test for FAILURE never does |
| FileTransfer.EveryRunConserves | SP_HW9/52/svmsg_file_server.c:45-56 | received + queued + about to be sent + unread = file length, plus 1 once END is sent, and the client's count is what it received |
| FileTransfer.TypeIsLastReceived | SP_HW9/52/svmsg_file_client.c:59-78 | if the first message has at least 8 bytes, `mtype` always equals the type just received |
| FileTransfer.ReportRightIff | SP_HW9/52/svmsg_file_client.c:71-80 | the reported bytes and messages are right exactly when the file is empty or the first message primed `mtype`, and then the queue is drained up to END |
| FileTransfer.SmallFileMiscounted | SP_HW9/52/svmsg_file_client.c:72-80 | a three-byte file is reported as two bytes when the client's stack is not clean |
| FileTransferSchedules.WrongReportIff | SP_HW9/52/svmsg_file_client.c:71-80 | for any file, some run reports a wrong length exactly if the file is not empty and the last seven bytes of the client's `mtype` were not zero at the start |
| FileTransfer.MessagesLoseEightBytes | SP_HW9/52/svmsg_file_server.c:45-47 | in every run each data message received is the type followed by its block of the file without the last eight bytes, block after block |
| FileTransferSchedules.SomeRunFillsQueue | SP_HW9/52/svmsg_file_server.c:46-47 | a file of 20 bytes or more can fill the queue with 20 messages before the client receives one, and the server then waits |
| FileTransfer.NoDeadlock | SP_HW9/52/svmsg_file_client.c:72-78 | until the client reports, it or the server can move, whether the queue is full or empty |
| FileTransfer.ClientAlwaysReports | SP_HW9/52/svmsg_file_client.c:72-80 | runs are linear in the file, and one that cannot go on ends with the report |
| FileTransfer.OpenFailureReported | SP_HW9/52/svmsg_file_server.c:32-40 | a failed open always reaches the client as a failure, never as a report, with "Couldn" as all that is left of the text |
| FileTransfer.Session.ServerTurn | SP_HW9/52/svmsg_file_server.c:32-56 | each statement of `serveRequest` is an enabled step, for any short read |
| FileTransfer.Session.Receive | SP_HW9/52/svmsg_file_client.c:73-77 | the oldest message leaves the queue and overwrites a prefix of the struct |
| FileTransfer.Session.ClientTurn | SP_HW9/52/svmsg_file_client.c:59-80 | each statement of the receiving loop is an enabled step |
| FileTransfer.Session.Turn | SP_HW9/52/svmsg_file_client.c:72-78 | whoever is scheduled makes an enabled step, which keeps the invariant and lowers the measure |
| FileTransfer.Session.Run | SP_HW9/52/svmsg_file_client.c:59-80 | both programs follow a run to a report that is right under the exact condition |
| SignalPingPong.EveryRunAlternates | SP_HW7/SP_HW7-1/sig_speed_sigsuspend.c:58-88 | in every run the kills alternate, none is coalesced or misses its target, at most one signal is pending, and both sides end after numSigs rounds, in exactly 6 * numSigs steps with sigsuspend and 4 * numSigs with sigwaitinfo |
| SignalPingPong.StepRefines | SP_HW7/SP_HW7-1/sig_speed_sigwaitinfo.c:29-59 | every step of either program is a send or a take of one alternating automaton, or the entry into `sigsuspend` |
| SignalPingPong.NoDeadlock | SP_HW7/SP_HW7-1/sig_speed_sigsuspend.c:71-88 | until both have exited, one process can move |
| SignalPingPong.StepUsesWork | SP_HW7/SP_HW7-1/sig_speed_sigsuspend.c:71-88 | every step lowers the count of steps to come by exactly one |
| SignalPingPong.Task.Signal | SP_HW7/SP_HW7-1/sig_speed_sigsuspend.c:73-74 | a kill makes the signal pending in a live target and does nothing to a dead one |
| SignalPingPong.Task.Await | SP_HW7/SP_HW7-1/sig_speed_sigsuspend.c:75-76 | the wait takes the pending signal, in one step or after unblocking it first |
| SignalPingPong.ChildTurn | SP_HW7/SP_HW7-1/sig_speed_sigsuspend.c:72-77 | each statement of the child is its step |
| SignalPingPong.ParentTurn | SP_HW7/SP_HW7-1/sig_speed_sigsuspend.c:81-86 | each statement of the parent is its step |
| SignalPingPong.PingPong | SP_HW7/SP_HW7-1/sig_speed_sigwaitinfo.c:42-58 | both loops end after numSigs rounds each with 2 * numSigs alternating signals |
| ProcessForest.WalkIsPreorder | SP_HW3/hw3_part2.c:69-93 | the walk from entry 0 terminates and is the preorder of the tree under 0 and then of the tree under 1 |
| ProcessForest.VisitCount | SP_HW3/hw3_part2.c:69-93 | an entry is visited once for each of the two roots above it |
| ProcessForest.NoneTwiceIff | SP_HW3/hw3_part2.c:69-93 | no entry is visited twice exactly when the ppid of entry 1 is not the pid of entry 0 |
| ProcessForest.ChildVisitedTwice | SP_HW3/hw3_part2.c:69-93 | a table of process 1 and its child visits the child twice |
| ProcessForest.AllOnceIff | SP_HW3/hw3_part2.c:53-93 | all entries are visited exactly once exactly when entries 0 and 1 have no father and every later one has |
| ProcessForest.ChainIsChildren | SP_HW3/hw3_part2.c:59-64 | the chain of k lists exactly the entries with father k, in strictly decreasing order |
| ProcessTable.NodesAreWalk | SP_HW3/hw3_part2.c:74-93 | what the pointers reach, in the order of the recursion, is the walk |
| ProcessTable.PrintIsLines | SP_HW3/hw3_part2.c:74-93 | the recursion with its global counter prints the entries of the walk, each with a running count |
| ProcessTable.IndentMeaning | SP_HW3/hw3_part2.c:80-89 | the indentation is 1 plus the number of entries with children visited since the start or the last reset at pid 2 |
| ProcessTable.FirstChildFollows | SP_HW3/hw3_part2.c:80-84 | a first child is printed right after its father, indented by exactly one more |
| ProcessTable.UnfoldFollows | SP_HW3/hw3_part2.c:80-84 | the unfolded links are those of the child array, so that `FirstChildFollows` applies |
| ProcessTable.DeeperIff | SP_HW3/hw3_part2.c:74-93 | every child is indented more than its father exactly when no printed entry that is a later child has pid 2 and, if entry 1 is a child of entry 0, it has no child and not pid 2 |
| ProcessTable.GrandchildNotDeeper | SP_HW3/hw3_part2.c:69-93 | for pids 1, 7, 8 each the child of the one before, the condition fails without any pid 2 |
| ProcessTable.LaterChild2NotDeeper | SP_HW3/hw3_part2.c:86 | a table with pid 2 as a later child prints it no deeper than its father |
| ProcessTable.Table.constructor | SP_HW3/hw3_part2.c:23-52 | every link is NULL and every indentation 1 |
| ProcessTable.Table.Attach | SP_HW3/hw3_part2.c:59-64 | hanging an entry at the end of a chain keeps all chains right |
| ProcessTable.Table.Link | SP_HW3/hw3_part2.c:53-68 | each father is the last earlier entry whose pid is the ppid, and all child and sibling links follow from the fathers |
| ProcessTable.Table.Traversal | SP_HW3/hw3_part2.c:74-93 | the recursion in place prints `Print` of what it can reach and leaves the counter at `Counter` |
| ProcessTable.Table.Show | SP_HW3/hw3_part2.c:53-71 | the whole program links the table and prints the forest from entry 0 |
| CommandLine.StrTok | SP_HW4/part2/parse.c:27 | one call of `strtok` yields the next token and the rest |
| CommandLine.Parse | SP_HW4/part2/parse.c:12-53 | NULL for a line without tokens, and the tokens followed by NULL otherwise |
| CommandLine.ParseIff | SP_HW4/part2/parse.c:12-53 | parsing a line gives the given tokens exactly when the line is a blank-separated rendering of them |
| CommandLine.IsBackground | SP_HW4/part2/is_background.c:9-27 | the index of the first "&", and 0 both for none and for one at index 0; it is positive exactly if there is an "&" that is not the first word |
| CommandLine.BackgroundIff | SP_HW4/part2/is_background.c:9-27 | the index is positive exactly if there is an "&" that is not the first word, and then it is that of the first "&" |
| CommandLine.Redirect | SP_HW4/part2/redirect_in.c:18-45 | in place, the vector is cut at the first operator and the word behind it is what is opened (`redirect_out.c` is the same with ">") |
| CommandLine.RedirectionNamed | SP_HW4/part2/redirect_in.c:24-40 | for any operator, no redirection without one, and otherwise the word behind the first one, or NULL |
| CommandLine.InputFile | SP_HW4/part2/redirect_in.c:24-40 | the input is the word behind the first "<" before the first "&" that is not in front, NULL if nothing stands there, and unchanged without such a "<" |
| CommandLine.OutputFile | SP_HW4/part2/redirect_out.c:24-40 | the output is the word behind the first ">" before that "&" and before the first "<", NULL if nothing stands there, and unchanged without such a ">" |
| CommandLine.OutputGoesToTheFile | SP_HW4/part2/redirect_out.c:37 | `ls > out` writes to `out` |
| CommandLine.Length | SP_HW4/part2/pipe_present.c:26-27 | the number of words before NULL |
| CommandLine.PipePresent | SP_HW4/part2/pipe_present.c:14-38 | -1 for a pipe symbol at an end, 0 for none, the first index otherwise |
| CommandLine.PrepareChild | SP_HW4/part2/run_command.c:50-55 | the vector and both redirections after background and redirection handling |
| CommandLine.RunCommand | SP_HW4/part2/run_command.c:14-64 | what the child executes, and that the shell waits exactly unless there is an "&" that is not the first word, while the parent's vector stays as it was |
| CommandLine.LaunchIff | SP_HW4/part2/run_command.c:56-61 | the child crashes exactly on an empty vector, and makes a pipeline exactly if there is a pipe symbol and none at an end |
| CommandLine.ChildWordsIff | SP_HW4/part2/run_command.c:50-55 | the child's vector is the longest prefix free of "&", "<" and ">" exactly when the first word is not "&" |
| CommandLine.CrashIff | SP_HW4/part2/pipe_present.c:28 | NULL is dereferenced exactly when the first word is "<" or ">" |
| CommandLine.InputRedirectedIff | SP_HW4/part2/redirect_in.c:24-40 | input is redirected iff "<" precedes the first "&", except exactly when the line starts with "&" and has a "<" |
| CommandLine.OutputRedirectedIff | SP_HW4/part2/redirect_out.c:24-40 | output is redirected iff ">" precedes the first "&", except exactly when a "<" precedes that ">", or the line starts with "&" and has a ">" before any "<" |
| CommandLine.OutputLost | SP_HW4/part2/run_command.c:53-55 | `cmd < in > out` has its input redirected and its output not |
| CommandLine.AmpersandStays | SP_HW4/part2/run_command.c:51 | "&" alone stays in the child's vector |
| CommandLine.AmpersandRedirects | SP_HW4/part2/run_command.c:51-53 | `& < in` has its input redirected although "&" precedes the "<" |
| CommandLine.OnlyRedirection | SP_HW4/part2/pipe_present.c:28 | `< in` crashes the child |
| Pipelines.SegmentsJoin | SP_HW4/part2/pipe_command.c:40-62 | splitting at a pipe symbol undoes joining by a pipe symbol |
| Pipelines.LegalIff | SP_HW4/part2/pipe_present.c:14-38 | all segments are non-empty exactly when no pipe symbol is at an end and no two are adjacent |
| Pipelines.LegalLineComposes | SP_HW4/part2/pipe_command.c:64-91 | the stages of a legal line are its segments in order, chained output to input, and compute their composition |
| Pipelines.JoinedLines | SP_HW4/part2/pipe_command.c:81-82 | unless refused for its end, a joined line runs what the first line runs and, if that was all of it, what the second runs on its output; it is legal iff both are |
| PipeCommand.FinalTables | SP_HW4/part2/pipe_command.c:74-89 | after its calls the parent's table differs only in 0 being the read end, and the child's only in 1 being the write end |
| PipeCommand.NoOldWriteEnd | SP_HW4/part2/pipe_command.c:74-89 | at no step does either process hold the write end of an older pipe |
| PipeCommand.NeverWriters | SP_HW4/part2/pipe_command.c:68-91 | at any pair of steps nobody holds the write end of the pipe the child reads |
| PipeCommand.Kernel.Execute | SP_HW4/part2/pipe_command.c:90 | a program started with no writer on its input reads all of it and appends what it computes to its output, and nothing else changes |
| PipeCommand.Kernel.Connect | SP_HW4/part2/pipe_command.c:68-90 | in any interleaving of parent and child, without deadlock, the left program runs once and its output is all the pipe holds |
| PipeCommand.Kernel.RunLeft | SP_HW4/part2/pipe_command.c:68-80 | afterwards the parent's input is exactly the left program's output, with no writer left, and its output is as before |
| PipeCommand.Kernel.CopyWords | SP_HW4/part2/pipe_command.c:46-49 | the copying loops yield that part of the vector |
| PipeCommand.Kernel.RunRest | SP_HW4/part2/pipe_command.c:81-82 | the recursive call, and the last program if it returns, do what the rest of the line asks for |
| PipeCommand.Kernel.PipeAndExec | SP_HW4/part2/pipe_command.c:16-95 | it returns exactly when there is no pipe, and otherwise the trace, the end and the output are those the line asks for, up to the first empty segment |
| PipeCommand.Kernel.Command | SP_HW4/part2/run_command.c:56-62 | the child runs the line as a pipeline only if a pipe is inside it |
| Pipelines.LinePlanIff | SP_HW4/part2/pipe_command.c:28-33 | the shell runs just the programs the line asks for (all its segments, or none if one is missing) exactly when no pipe symbol is at an end of it and no two are in a row |
| Pipelines.PipedIff | SP_HW4/part2/run_command.c:56-61 | the child does what `pipe_and_exec` would exactly when no pipe symbol is at an end |
| Pipelines.PipesInARow | SP_HW4/part2/pipe_command.c:81 | with two pipe symbols behind `a`, `a` runs and its output is lost before the error is noticed |
| Pipelines.PipeAtTheEnd | SP_HW4/part2/run_command.c:56-61 | a pipe symbol at the end is passed to the program as an argument |
| Pipelines.LegalPlan | SP_HW4/part2/pipe_command.c:16-95 | a legal line runs each segment once and in order, the first on the original input, each later one on its predecessor's output with no writer on its pipe, the last to the original output |
| ShellLine.ChildWordsAreCut | SP_HW4/part2/run_command.c:50-55 | on every line, a leading "&" included, the child's vector ends at the first operator that cuts it |
| ShellLine.SegmentsOfPrefix | SP_HW4/part2/redirect_in.c:34-40 | a cut keeps the segments before it, and all of them exactly when no pipe symbol is cut off |
| ShellLine.RunsAllIff | SP_HW4/part2/run_command.c:50-61 | every segment of a typed line runs exactly when the child's segments are non-empty and no pipe symbol stands behind the first operator |
| ShellLine.TypedLineIsChained | SP_HW4/part2/run_command.c:50-61 | the programs that run are the segments up to the cut, chained, the first on the terminal or on the file named behind "<" |
| ShellLine.PipeDropped | SP_HW4/part2/run_command.c:53-56 | `cmd < in` followed by a pipe to `wc` runs `cmd` alone |
| ShellLine.InputReachesIff | SP_HW4/part2/run_command.c:53-57 | whatever the programs and files, a redirected input reaches the segment it is written in exactly when no pipe symbol precedes the "<" |
| ShellLine.InputGoesToTheFirst | SP_HW4/part2/run_command.c:53-57 | with `< in` behind the second of two programs, the first reads `in` and the second reads its output |
| ShellLine.RunChild | SP_HW4/part2/run_command.c:56-62 | the child leaves the trace and output of its plan, and nothing on an empty vector |
| ShellLine.ForkAndRun | SP_HW4/part2/run_command.c:26-62 | the forked child leaves the shell's descriptors as they were |
| ShellLine.RunLine | SP_HW4/part2/shell.c:17-30 | a typed line runs the programs of its plan, with the input and the output target it asks for, and the shell waits exactly unless there is an "&" that is not the first word |
| DictionaryFile.EntriesOfPrint | SP_HW4/part3/convert.c:38-86 | reading a printed dictionary gives its entries back in order and goes on with what follows |
| DictionaryFile.EntriesIff | SP_HW4/part3/convert.c:38-86 | for every text, it has exactly these entries if and only if it is their print and a rest in which no blank line follows the first line |
| DictionaryFile.FileIsPrinted | SP_HW4/part3/convert.c:38-86 | every text is the print of its entries and a rest without one |
| DictionaryFile.NoEntryIff | SP_HW4/part3/convert.c:67-85 | a text yields no record exactly when no blank line follows its first line |
| DictionaryFile.ConvertedPrint | SP_HW4/part3/convert.c:38-86 | converting a printed dictionary yields one record per entry, and drops an unterminated last one |
| DictionaryFile.StringsOfText | SP_HW4/part3/convert.c:67-75 | splitting the text field at its NULs gives back the lines of the definition |
| DictionaryFile.RecordHolds | SP_HW4/part3/convert.c:47-81 | a record is 32 + 480 bytes, its word is the entry's word line and its text all its lines, and everything behind them is NUL |
| DictionaryFile.Converter.GetLine | SP_HW4/part3/convert.c:54 | the next line, with end of file noticed only behind a line without newline |
| DictionaryFile.Converter.Clear | SP_HW4/part3/convert.c:47-49 | both fields are all NUL |
| DictionaryFile.Converter.CopyWord | SP_HW4/part3/convert.c:54-61 | the word field is the line padded with NULs, whether or not the loop stops early |
| DictionaryFile.Converter.AppendLine | SP_HW4/part3/convert.c:70-73 | the line and a NUL follow what was there |
| DictionaryFile.Converter.ReadText | SP_HW4/part3/convert.c:67-75 | the text field holds the lines up to the blank one, and end of file is set exactly if there is none |
| DictionaryFile.Converter.ReadEntry | SP_HW4/part3/convert.c:38-86 | one record goes out for a complete entry and none for an incomplete one |
| DictionaryFile.Converter.Convert | SP_HW4/part3/convert.c:38-86 | the records written are those of the complete entries of the file |
| DictionaryLookup.NewlineKeepsOrderIff | SP_HW4/part3/lookup1.c:27-29 | a newline behind two ordered words keeps their order exactly when the longer one does not go on with a character below the newline |
| DictionaryLookup.TabDisturbsOrder | SP_HW4/part3/lookup1.c:27-29 | "a" sorts before "a" and a tab, but behind it once both end in a newline |
| DictionaryLookup.NewlineKeepsSortedIff | SP_HW4/part3/lookup1.c:27-29 | a strictly sorted table stays so exactly when no word continues an earlier one with a character below the newline |
| DictionaryLookup.NewlineKeepsSorted | SP_HW4/part3/lookup1.c:27-29 | a strictly sorted table of words above the newline stays strictly sorted with the newlines |
| DictionaryLookup.SearchIsFirst | SP_HW11/part1/lookup5.c:57 | in a strictly sorted table any match is the first match |
| DictionaryLookup.LookupsAgree | SP_HW11/part1/lookup5.c:56-63 | whatever match `bsearch` returns on the bare table, the linear lookup on the newline table gives the same result and text |
| DictionaryLookup.LookupConverted | SP_HW4/part3/lookup1.c:24-38 | on a converted file the linear lookup finds exactly the entry words, first entry first, with the text of that entry |
| DictionaryLookup.Dictrec.AppendNewline | SP_HW4/part3/lookup1.c:27 | the query word gets a newline and a new NUL |
| DictionaryLookup.Dictrec.RemoveNewline | SP_HW4/part3/lookup1.c:37 | the last character of the query word goes away |
| DictionaryLookup.Dictrec.Scan | SP_HW4/part3/lookup1.c:28-36 | the loop stops at the first record whose word compares equal, or at the end |
| DictionaryLookup.Dictrec.LookupLinear | SP_HW4/part3/lookup1.c:24-38 | found exactly if some word equals the query plus newline, with the whole text of the first such record; the query word is unchanged |
| DictionaryLookup.Dictrec.CopyText | SP_HW11/part1/lookup5.c:59 | the text becomes the found text as a C string and the bytes behind stay |
| DictionaryLookup.Dictrec.Search | SP_HW11/part1/lookup5.c:57 | on a sorted table, some matching index, or none if no word matches |
| DictionaryLookup.Dictrec.LookupBinary | SP_HW11/part1/lookup5.c:56-63 | found exactly if the word is in the table, with its text; on a strictly sorted table that of the first match |
| CStrings.StrCmpZero | SP_HW11/part1/lookup5.c:22-24 | the comparison is 0 exactly for equal words and changes sign with its arguments |
| CStrings.StrCmpIff | SP_HW11/part1/lookup5.c:22-24 | the comparison is negative exactly if the first word goes on, behind what both share, with a smaller character or not at all |
| CStrings.DecimalReads | SP_HW10/program_enhanced.c:113 | a printed number is its digits, the most significant first |
| CStrings.AtoiOfSpaced | SP_HW10/program_enhanced.c:23 | `atoi` skips the six white-space characters and reads up to the first other character |
| CStrings.AtoiOfSigned | SP_HW10/program_enhanced.c:23 | behind one sign it reads the number with that sign |
| CStrings.AtoiOfOther | SP_HW10/program_enhanced.c:23 | it yields 0 where no number starts |
| CStrings.AtoiOfDecimal | SP_HW10/program_enhanced.c:23 | `atoi` reads back a printed number, whatever non-digit follows |

## Left out

- System calls: opening, mapping, permissions, printing of errors and exit paths; each call is an abstract step that succeeds, except where a failure is named above.
- Start-up: semaphores, queue, handlers and signal masks are in place before the first step.
- Liveness of the broadcast: a consumer can miss its signal and stay in `pause` (`BroadcastSchedules.SomeRunStrandsAll`), so for all runs only safety is stated.
- Signals of the broadcast: SIGUSR1 does not queue, so at most one is ever pending; here more may be, and a signal that would be merged is one that is dropped, so every real run is among those of the model.
- Integers: byte, message and transfer counters are unbounded; `data_num` is at most the largest int.
- Heap sizes and buffer overruns: `malloc(strlen)`, lines longer than their arrays and words without room for a NUL are outside the preconditions.
- Handler re-entry in the broadcast: the handler runs between two modelled steps, and the number it stores is read in the step that compares it.
- Rounding of the loss rate to `float`; it is an exact real here.
- FileTransfer.EveryRunConserves: several clients share the reply queue "/MSG12" in the code; one session is modelled.
- ProcessTable.Table.Show: takes the two entries the code takes for granted, and does not model reading /proc.
- PipeCommand.Kernel.Execute: pipes hold any amount of data and `execvp` succeeds; a program is a function of its arguments and of everything on its standard input.
- PipeCommand.Kernel.RunRest: the vector of the right side ends at index j, where pipe_command.c:62 writes index j + 1.
- ShellLine.RunLine: the child is followed to its end before the next line also when the shell does not wait for it; built-in commands are not recognised.
- PipeCommand.Kernel.PipeAndExec: the vector is only read there, so it is passed as a value and its tail stands for the pointer into it.
- CommandLine.StrTok: the NULs `strtok` writes into the line, and its static pointer, are the returned rest.
- CommandLine.Redirect: records the name that is opened; what can be read under a name, or under NULL, is the parameter `files` of `ShellLine.RunLine`, and an open that fails is not modelled.
- DictionaryLookup.Dictrec.LookupLinear: the file is a sequence of whole records, opened once.
- `free_argv` and the prompt of the shell.
- `SP_HW8` (one accumulator), `SP_HW7/SP_HW7-2`, `SP_HW2` (an earlier version of the shell), and the I/O wrappers of the other exercises: they hold no state worth a proof.
