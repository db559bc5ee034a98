# ArchLab, verified

ArchLab is a set of tools for teaching computer architecture: a register renamer and dependence
analyser for instruction traces, cache simulators, Pin tools that record and profile executed
code, hand-unrolled loops and random generators for experiments, a spreadsheet calculator, and a
service that takes lab submissions from students and runs them on remote machines. This project
models the parts of it that hold state and proves what they are for.

`dafny verify dfyconfig.toml` checks everything. The files, by component:

| file | models |
|---|---|
| `Renaming.dfy`, `Dependence.dfy`, `RenameTool.dfy` | `tools/rename-x86.py`: the alias table as a function of an allocation log, the meaning of a trace, depths, edges; then the main loop itself as a class |
| `LocalQueue.dfy`, `LocalPubSub.dfy` | `archcloud/src/ArchLab/LocalPubSub.py`: all interleavings of publishers and pullers on one directory; then `do_pull` itself, run among other processes |
| `JobProtocol.dfy`, `JobStatus.dfy`, `JobRunner.dfy` | `Runner.py`, `runlab_daemon.py`, `BaseDataStore.py`: all interleavings of clients and daemons; when the status of a job only moves forward; then the client and the daemon themselves, as loops over shared stores |
| `Bits.dfy`, `Fifo.dfy`, `CacheLines.dfy`, `SetCache.dfy` | `pin-tools/dcache.H`: bit tricks, FIFO queues, the walk over cache lines, the simulator's classes |
| `Calc.dfy`, `CalcHeader.dfy` | `tools/calc.py`: derived columns by repeated passes; then which headers the passes evaluate right |
| `LruCache.dfy` | `archcloud/src/ArchLab/QDCache.py`: the LRU cache |
| `TraceTool.dfy`, `CatMix.dfy` | `pin-tools/trace_archlab.cpp`, `pin-tools/catmix.cpp`: compressed traces, category profiles |
| `Unrolled.dfy`, `Generators.dfy`, `Periods.dfy` | `examples/x86-asm`, `libarchlab/archlab.h`: unrolled loops, xorshift and LFSR generators, and the period of the 8-bit one |

How the pieces fit together:

- Code that updates variables in place is a class or a method with loops, proved against functions;
  the theorems are lemmas about those functions. `RenameTool.Analyzer.Process` keeps every variable
  of the renamer's loop equal to a function of the instructions read so far, so what
  `Renaming` and `Dependence` prove holds of it.
- Concurrency is a state machine in which each file-system or store operation is one step, and a
  lemma about "every run" quantifies over every finite sequence of enabled steps. The imperative
  forms (`LocalPubSub.Subscription`, `JobRunner.Site`, `JobRunner.Daemon`) carry the history of all
  steps as ghost state; between any two of their own operations a `Meanwhile` method may do anything
  that others could do. They can therefore only take steps of the machine, and its theorems hold of
  them.
- A register of the analyser is either an architectural name or a physical number, so one analysis
  serves both with and without renaming.

Where the code does not do what its documentation or a reader would expect, the model follows the
code and says exactly when it is right:

- `CACHE::Access` never ends for an access that ends inside the top line of the address space, and
  is right for one that ends exactly at its end only within one line (`CacheLines.AccessExact`).
- `do_pull` loses messages it has already removed when another puller takes its temporary file;
  nothing is ever lost exactly when pulls ask for one message (`LocalQueue.LosesNothingExact`).
- The status of a job can move back. A client that times out writes COMPLETED while a daemon is about
  to write STARTED, and a pull that raises is reported as ERROR against the job of an earlier round,
  completed as it may be. In all runs the status moves forward, for all jobs, exactly when neither
  time-outs nor raising pulls are permitted (`JobStatus.StatusForwardExact`); no client of a completed
  job ends in failure exactly when raising pulls are not (`JobStatus.CompletedNeverFailsExact`).
- In `calc.py` a column that only copies a later column can keep the text it copied
  (`CalcHeader.ForwardCopyIsStale`), and two columns that copy each other are returned although
  neither has a value (`CalcHeader.CopyCycleIsReturned`). The passes are right on every row exactly
  when, in a rehearsal on the header alone, every column is final by the first pass in which nothing
  fails (`CalcHeader.EvaluateExact`); on any row, CalcException is raised exactly when a column that
  can fail has no value (`Calc.RaisesExact`).
- The trace tool's block counter has 32 bits. The round trip holds for all runs of at most n blocks
  exactly when n is at most 2^32 (`TraceTool.RoundTripExact`); beyond that no reader can restore the
  trace (`TraceTool.NoReaderRestores`).
- `catmix` is exact unless an unpredicated instruction of category 0 is executed
  (`CatMix.ProfileExact`).
- `IsPower2(0)` holds (`Bits.IsPower2Exact`), so the simulator's constructor requires positive sizes.
- The LRU cache stays within its capacity exactly as long as no more different lines have been used
  than fit; after that it holds one line too many (`LruCache.CapacityExact`).
- The depth of a register also rises when it is read, so the depths solve a constraint system with
  zero-weight edges between any two instructions that touch a register the earlier one reads
  (`Dependence.DepthsLeast`).
- The 16-way loops sum up to the next multiple of 16, which is the sum of the first n terms, for all
  terms, exactly when n is a multiple of 16 or not positive (`Unrolled.RoundUp16Exact`).

## Model

| member | source | states |
|---|---|---|
| Renaming.LastIndex | tools/rename-x86.py:231-232 | the alias table of an allocation log: its keys are the registers handed out, and each maps to the last position at which it was |
| Renaming.AliasInjective | tools/rename-x86.py:359-362 | two registers never share a physical register, and all aliases are below `next_free_reg` |
| Renaming.OutsAreFresh | tools/rename-x86.py:359-362 | every physical register an instruction writes was free before it, and stands for one of its outputs, duplicates included |
| Renaming.LogPosition | tools/rename-x86.py:359-362 | the physical registers handed out for an instruction are numbered on from those handed out before it, and stand for its outputs in their order |
| Renaming.SingleAssignment | tools/rename-x86.py:359-362 | a physical register is written by one instruction of the trace only |
| Renaming.AliasWriterIsLatest | tools/rename-x86.py:352-362 | whoever writes the physical register that `r` is mapped to is the latest writer of `r` |
| Renaming.LatestWritesAlias | tools/rename-x86.py:352-362 | and the latest writer of `r` writes the physical register that `r` is mapped to |
| Renaming.TouchedOwner | tools/rename-x86.py:352-364 | a physical register that an instruction reads or writes stands for an architectural register that it reads or writes |
| Renaming.LocatedInst | tools/rename-x86.py:352-364 | renamed or not, an instruction keeps its operation, latency and branch flag and the number of its operands; without renaming it keeps their names |
| Renaming.RenameInstPreserves | tools/rename-x86.py:352-362 | one renamed instruction keeps the physical state, read through the table, equal to the architectural state |
| Renaming.RenamingPreservesMeaning | tools/rename-x86.py:352-362 | for every trace and every interpretation of the instructions, running the renamed trace and reading back through the final table gives the architectural state of the original run |
| Renaming.CheckpointsSurvive | tools/rename-x86.py:352-362 | the final physical registers, read through the table of any earlier point, still give the architectural state of that point |
| Dependence.DepthsSatisfy | tools/rename-x86.py:374-387 | the depths meet every constraint between an earlier and a later instruction: its latency, or 1 if latencies are not tracked, to whoever touches a register it writes, zero for a shared input, one for a branch |
| Dependence.DepthsLeast | tools/rename-x86.py:374-387 | and are the pointwise least assignment that does, for every trace, with or without latencies |
| Dependence.MaxDepthBounded | tools/rename-x86.py:449-451 | the maximum bounds the depth of every instruction, counting a branch as one more |
| Dependence.MaxDepthAttained | tools/rename-x86.py:449-451 | and is reached by one of them unless none exceeds its initial 1 |
| Dependence.UnrenamedSatisfies | tools/rename-x86.py:352-364 | any depths that are right for the original trace are right for the renamed one |
| Dependence.RenamingNeverDeeper | tools/rename-x86.py:352-387 | renaming never makes an instruction deeper |
| Dependence.BranchDelays | tools/rename-x86.py:385-387 | renamed or not, whatever comes after a branch is at least one deeper |
| Dependence.ReaderDelayed | tools/rename-x86.py:374-443 | renamed or not, whoever reads what an instruction was the latest to write is deeper by its latency, or by 1 if latencies are not tracked |
| Dependence.WritersExact | tools/rename-x86.py:440-443 | the last writer on record for a register is the latest instruction that has it as an output, if there is one |
| Dependence.ReadersExact | tools/rename-x86.py:435-437 | the last reader on record is the latest instruction that has it as an input |
| Dependence.EdgeMeaning | tools/rename-x86.py:403-428 | every edge goes forward between two instructions that share a register in the way its kind says, or starts at a branch |
| Dependence.EdgesHonoured | tools/rename-x86.py:374-428 | every edge drawn is respected by the depths computed |
| Dependence.NoFalseDependences | tools/rename-x86.py:409-419 | with renaming on, no output dependence and no anti-dependence edge is drawn for any trace |
| Dependence.RawEdgesExact | tools/rename-x86.py:403-407 | with renaming on, a read-after-write edge joins j to k exactly when k reads an architectural register of which j is the latest earlier writer |
| Dependence.RegisterEdgesCounted | tools/rename-x86.py:403-419 | renamed or not: from j to k there is one read-after-write edge for each input of k of which j is the latest writer, one write-after-write edge for each output of which it is, and one write-after-read edge for each output of which j is the latest reader; no others |
| Dependence.ControlEdgesCounted | tools/rename-x86.py:421-431 | from j to k there is a control edge if both are branches with none between, one more if j is a branch and k is behind it, and no other |
| RenameTool.Analyzer.constructor | tools/rename-x86.py:231-251 | the initial tables are those of the empty trace: every register is its own physical register |
| RenameTool.Analyzer.Locate | tools/rename-x86.py:352-364 | inputs go through the table before, outputs after fresh registers are handed out; the located trace grows by the result (Renaming.LocatedInst says what it keeps) |
| RenameTool.Analyzer.Measure | tools/rename-x86.py:374-391 | the depth is the maximum over the registers touched and the last branch; a branch raises the branch depth |
| RenameTool.Analyzer.Draw | tools/rename-x86.py:403-428 | the edges into an instruction: true, output and anti-dependences, then control |
| RenameTool.Analyzer.Account | tools/rename-x86.py:374-453 | all ten variables of the loop are again the functions of the trace they are meant to be |
| RenameTool.Analyzer.Process | tools/rename-x86.py:254-453 | one round of the main loop extends the trace by the instruction and keeps every variable right |
| RenameTool.AnswersMean | tools/rename-x86.py:254-453 | what is reported in terms of the trace as given: delays after branches and latest writers, control edges, with renaming the true dependences and no other register edge, and a critical path longer than every depth, for a branch by two |
| RenameTool.Analyze | tools/rename-x86.py:254-460 | the reported depths, edges, critical path, number of physical registers and final table are those of the located trace, and mean what RenameTool.AnswersMean says of the trace as given |
| LocalQueue.StepMoves | archcloud/src/ArchLab/LocalPubSub.py:109-135 | a step moves each message to exactly the place it should: directory, puller, returned or lost |
| LocalQueue.StepOrigin | archcloud/src/ArchLab/LocalPubSub.py:64-135 | and puts nothing anywhere else, except a published message into the directory |
| LocalQueue.StepKeepsInv | archcloud/src/ArchLab/LocalPubSub.py:109-135 | each step keeps every published message in exactly one place |
| LocalQueue.RunKeepsInv | archcloud/src/ArchLab/LocalPubSub.py:109-135 | so does every run of any number of publishers and pullers, although pullers can take each other's temporary files |
| LocalQueue.DeliveredOnce | archcloud/src/ArchLab/LocalPubSub.py:109-135 | no message is returned twice; what is returned was published, is no longer in the directory and is not lost |
| LocalQueue.SinglePullsLoseNothing | archcloud/src/ArchLab/LocalPubSub.py:109-135 | when pulls ask for one message, a published message is in the directory or was returned, even if any listing, rename, read or remove fails |
| LocalQueue.BatchPullCanLose | archcloud/src/ArchLab/LocalPubSub.py:115-131 | for every other limit there is a run that loses a message |
| LocalQueue.LosesNothingExact | archcloud/src/ArchLab/LocalPubSub.py:109-135 | no run loses a message exactly when pulls ask for one message |
| LocalPubSub.OthersKeepMine | archcloud/src/ArchLab/LocalPubSub.py:109-135 | what others do leaves a puller's own progress alone |
| LocalPubSub.Listing | archcloud/src/ArchLab/LocalPubSub.py:111 | every name of the directory once, in some order |
| LocalPubSub.Subscription.Publish | archcloud/src/ArchLab/LocalPubSub.py:64-77 | a new file with the message under a name that no file has |
| LocalPubSub.SomebodyTookIt | archcloud/src/ArchLab/LocalPubSub.py:118-124 | a file that was there and is gone was taken by one of the steps in between |
| LocalPubSub.Subscription.Rename | archcloud/src/ArchLab/LocalPubSub.py:118-124 | the file moves to its temporary name; unless something is wrong with the operation itself, it fails only if the file is not there |
| LocalPubSub.Subscription.Take | archcloud/src/ArchLab/LocalPubSub.py:115-131 | one round of the loop, rename, read, remove, among the steps of others: a message, a miss or an exception, as the machine says; without trouble a file that was there is missed or lost only if another process took it, under its own or its temporary name, and otherwise returned whole and removed |
| LocalPubSub.Subscription.DoPull | archcloud/src/ArchLab/LocalPubSub.py:109-135 | the whole pull is one puller of the machine, returns exactly what the machine delivers to it, and at most the number asked for; without trouble, and if no other process took a step, it returns exactly min(max, files) messages, all of them if no positive number is asked for: the contents of different files, which are removed, and no others |
| JobProtocol.StepKeepsTokens | archcloud/src/ArchLab/runlab_daemon.py:199-328 | every step keeps each job held by at most one daemon and by none once it has run |
| JobProtocol.StepKeepsData | archcloud/src/ArchLab/Runner.py:548-617 | every step keeps the stores consistent: a completed job whose client has not timed out has its archive entry and its result |
| JobProtocol.RunKeepsInvariants | archcloud/src/ArchLab/runlab_daemon.py:199-328 | so does every run of any number of clients and daemons |
| JobProtocol.RunAtMostOnce | archcloud/src/ArchLab/runlab_daemon.py:205-239 | each submitted job is run at most once, over all daemons, although the status check and the STARTED write are separate steps |
| JobProtocol.ClientGetsItsResult | archcloud/src/ArchLab/Runner.py:606-617 | a client that reads COMPLETED before timing out finds the result blob, and it is the result of the one execution of its job, on exactly what it submitted |
| JobProtocol.PublishedIsNotDropped | archcloud/src/ArchLab/Runner.py:539-563 | a published job is waiting in the subscription or was handed to a daemon, never both and never neither |
| JobStatus.StepKeepsStatuses | archcloud/src/ArchLab/runlab_daemon.py:205-328 | a step other than a raising pull keeps at most one daemon on a job and its record fitting that daemon's stage, and moves the status of every job whose client has not timed out forward |
| JobStatus.RunKeepsStatuses | archcloud/src/ArchLab/runlab_daemon.py:215-311 | in every run without raising pulls a job that was once completed stays completed unless its client gives up; without time-outs every step moves status forward: SUBMITTED, STARTED, then COMPLETED or ERROR for good |
| JobStatus.RaisingPullUndoes | archcloud/src/ArchLab/runlab_daemon.py:300-311 | a run in which no operation fails on its own and nobody times out: a daemon completes a job, its next pull raises because another daemon took its temporary file, and it writes ERROR over COMPLETED |
| JobStatus.TimeOutUndone | archcloud/src/ArchLab/Runner.py:591-598 | a run without raising pulls: a client times out and writes COMPLETED, and a daemon then writes STARTED |
| JobStatus.StatusForwardExact | archcloud/src/ArchLab/runlab_daemon.py:205-311 | status moves forward in all permitted runs exactly when neither time-outs nor raising pulls are permitted |
| JobStatus.CompletedJobFails | archcloud/src/ArchLab/Runner.py:606-619 | a run with a raising pull after which the client of a completed job, with its result stored, ends in failure |
| JobStatus.CompletedNeverFailsExact | archcloud/src/ArchLab/Runner.py:583-619 | with or without time-outs, the client of a job that was ever completed never ends in failure exactly when no pull raises |
| JobRunner.OthersKeepClient | archcloud/src/ArchLab/Runner.py:548-617 | what others do leaves a client's own progress alone |
| JobRunner.OthersKeepDaemon | archcloud/src/ArchLab/runlab_daemon.py:199-328 | what others do leaves a daemon's own progress alone |
| JobRunner.DaemonFinds | archcloud/src/ArchLab/runlab_daemon.py:224-288 | in every run, the submission, the record and, once stored, the result of a job that a daemon has pulled are there when they are looked up |
| JobRunner.Site.NewJob | archcloud/src/ArchLab/Runner.py:543-550 | a job id never used before, with the subscription in place |
| JobRunner.Site.Push | archcloud/src/ArchLab/BaseDataStore.py:16-36 | a new record with status SUBMITTED and no archive, and nothing else is written |
| JobRunner.Site.ClientUpdates | archcloud/src/ArchLab/BaseDataStore.py:38-54 | an update writes the record it read earlier with status COMPLETED; others may act in between |
| JobRunner.Site.Fetch | archcloud/src/ArchLab/Runner.py:613-617 | reading the result blob and the archive entry succeeds and gives the only result of the job |
| JobRunner.WaitForJob | archcloud/src/ArchLab/Runner.py:565-576 | the wait ends: the record was found after at most 20 reads without it, or the 21st read found nothing either; the reads counted are all the client did |
| JobRunner.LookOnce | archcloud/src/ArchLab/Runner.py:583-604 | the read at the head of the polling loop: what the record was after the steps so far, and whether the time is over then |
| JobRunner.PollOnce | archcloud/src/ArchLab/Runner.py:583-622 | one round of polling is decided by one read: over the limit it cancels the job and raises the user error, whatever it read, and never within the limit; within it a record that says COMPLETED gives the result, ERROR or no record raises, STARTED and SUBMITTED go on |
| JobRunner.Poll | archcloud/src/ArchLab/Runner.py:578-626 | polling ends, and its last read decides what it returns or raises |
| JobRunner.RunSubmissionRemotely | archcloud/src/ArchLab/Runner.py:509-626 | the call ends; if it returns, the result is that of the one execution of its job on what was submitted. It raises without having seen the record only after the three operations that submit the job and 21 reads; otherwise the last read decides, and a user error means that more than the limit has passed since polling began |
| JobRunner.Daemon.Check | archcloud/src/ArchLab/runlab_daemon.py:215-221 | a job is taken exactly when its record says SUBMITTED |
| JobRunner.Daemon.Update | archcloud/src/ArchLab/BaseDataStore.py:38-54 | STARTED, COMPLETED with the archive, or ERROR, by a read and a later write, either of which may raise |
| JobRunner.Daemon.RunJob | archcloud/src/ArchLab/runlab_daemon.py:235-239 | one more execution, of this job by this daemon, on the submission read |
| JobRunner.Daemon.Recheck | archcloud/src/ArchLab/runlab_daemon.py:245-248 | the result is kept exactly when the record still says STARTED |
| JobRunner.Daemon.StoreResult | archcloud/src/ArchLab/runlab_daemon.py:277-278 | the result is stored under its job before the job is completed |
| JobRunner.Daemon.Work | archcloud/src/ArchLab/runlab_daemon.py:213-288 | the loop body after the pull leaves the job to others, completes it, or raises; it leaves it only if it read a record that was not SUBMITTED before, or not STARTED after running it; completed means: the record says COMPLETED and the stored result is what its one execution, here, produced on what was submitted |
| JobRunner.ResultIsOnly | archcloud/src/ArchLab/runlab_daemon.py:277-278 | in every run, a stored result is that of the one execution of its job, on what was submitted under that id |
| JobRunner.ResultStays | archcloud/src/ArchLab/runlab_daemon.py:277-278 | whatever anybody does afterwards, a stored result never changes |
| JobRunner.Daemon.Round | archcloud/src/ArchLab/runlab_daemon.py:199-328 | whatever raises, a round ends ready for the next pull, and the job that raised is recorded as ERROR unless that raises too; a pull that raises always goes to the handler, with the job id of an earlier round, as in the code; without trouble the job is completed with what this round's run produced, or was left because a record read on the way was not SUBMITTED, or not STARTED after the run |
| Bits.AndLowMask | pin-tools/dcache.H:278 | masking with 2^k - 1 is the remainder by 2^k |
| Bits.AndHighMask | pin-tools/dcache.H:406-425 | masking with the complement rounds down to a multiple of 2^k |
| Bits.IsPower2Exact | pin-tools/dcache.H:66-69 | the test accepts the powers of two, and zero |
| Bits.FloorLog2 | pin-tools/dcache.H:76-89 | for 32-bit n the position of the highest bit, and -1 for 0 |
| Fifo.QueueIsTail | pin-tools/dcache.H:187-195 | a set holds the last `associativity` tags of everything ever brought in |
| Fifo.MissesSpread | pin-tools/dcache.H:172-195 | between two allocating misses on one tag lie at least `associativity` allocating misses, on tags different from it and from each other |
| Fifo.FewTagsMissOnce | pin-tools/dcache.H:172-195 | references to at most `associativity` tags make at most one allocating miss on each |
| Fifo.SetsIndependent | pin-tools/dcache.H:412-423 | each set evolves as the FIFO queue of the references that fall into it |
| Fifo.WorkingSetMissesOnce | pin-tools/dcache.H:412-423 | in any run from a new cache, a set of which at most `associativity` tags are used allocates at most that often |
| Fifo.PlacedAlways | pin-tools/dcache.H:275-279 | every tag other than 0 sits in the set its low bits name |
| Fifo.RepeatHits | pin-tools/dcache.H:400-432 | repeating an allocating pass over at most as many lines as there are sets hits everywhere and changes nothing |
| CacheLines.NextAddrIs | pin-tools/dcache.H:425 | the masked increment is the start of the next line, and address 0 after the last line |
| CacheLines.CoveringExact | pin-tools/dcache.H:389-390 | the reference list of lines is exactly the lines overlapping [addr, addr + size) |
| CacheLines.WalkIsVisits | pin-tools/dcache.H:407-427 | the loop ends and looks up exactly the lines of `Walk`, unless the access ends inside the top line |
| CacheLines.WalkCovers | pin-tools/dcache.H:400-427 | for accesses that stay below the top line, or lie within it and end with it, these are exactly the lines overlapping the access, in order |
| CacheLines.TopLineNeverStops | pin-tools/dcache.H:425-427 | an access that ends inside the top line of the address space never ends |
| CacheLines.AccessExact | pin-tools/dcache.H:400-432 | for every access that does not overflow: the loop ends having probed exactly the overlapping lines if and only if the access does not end in the top line, or ends with it and lies within it |
| SetCache.MaskIsMod | pin-tools/dcache.H:278 | the set index is the line number modulo the number of sets |
| SetCache.RoundRobin.constructor | pin-tools/dcache.H:152-162 | every way of a new set holds tag 0 |
| SetCache.RoundRobin.SetAssociativity | pin-tools/dcache.H:164-169 | the ways left form a queue of the new length, in array order from the top |
| SetCache.RoundRobin.Find | pin-tools/dcache.H:172-185 | membership in the queue |
| SetCache.RoundRobin.Replace | pin-tools/dcache.H:187-195 | the backwards ring buffer is a FIFO queue: the oldest tag leaves, the new one is last |
| SetCache.Cache.constructor | pin-tools/dcache.H:291-308 | the sizes, the shift and the mask; every queue holds tag 0 only and the counters are 0 |
| SetCache.Cache.SplitAddress | pin-tools/dcache.H:275-279 | the tag is the line number, the set index the tag modulo the number of sets |
| SetCache.Cache.ProbeLine | pin-tools/dcache.H:412-423 | a look-up in one queue; after a load the line is in its set, after a store if the cache allocates on stores, and otherwise a store changes nothing; nor does a hit; no other set changes |
| SetCache.Cache.CountAccess | pin-tools/dcache.H:429 | one counter of four grows by one, and so does the sum of hits or that of misses |
| SetCache.Cache.AccessSingleLine | pin-tools/dcache.H:438-458 | one probe, with the line in its set afterwards as for ProbeLine, and one count |
| SetCache.Cache.ProbeLines | pin-tools/dcache.H:402-427 | the do-while loop probes the lines of `Walk` in order and reports whether all hit |
| SetCache.Cache.Access | pin-tools/dcache.H:400-432 | queues, result and counters after an access; hits plus misses is the number of accesses. After a load, and after a store that allocates, every line that a regular access overlaps is in its set, if there are no more of them than sets; any other store changes no queue |
| SetCache.AllHitExact | pin-tools/dcache.H:402-427 | an access hits exactly when each of its lines is there when it is probed, after the lines before it |
| SetCache.Cache.Accessing | pin-tools/dcache.H:400-432 | any sequence of accesses: the queues are those of `Replay`, every result is that of its access after the ones before, and all are counted |
| SetCache.SingleLineAgrees | pin-tools/dcache.H:400-458 | inside one line `Access` and `AccessSingleLine` do the same |
| SetCache.RepeatedAccessHits | pin-tools/dcache.H:400-432 | repeating an allocating access over at most NumSets lines hits and leaves the cache as it is |
| SetCache.ReplayIsReferences | pin-tools/dcache.H:400-432 | a sequence of accesses is the sequence of references to the single lines it probes |
| SetCache.RunRefinesQueues | pin-tools/dcache.H:399-432 | after any accesses on a new cache (Accessing) every set is the FIFO queue of the references that fall into it, and every non-zero tag is in its set |
| Calc.CallApplies | tools/calc.py:86 | a call whose operands are numbers gives its function applied to them in their order, or fails if the function does |
| Calc.CallRaises | tools/calc.py:85-92 | a call with an operand that fails or is a text fails |
| Calc.LeavesAre | tools/calc.py:81-86 | a literal is its number, a name is the cell of the row, and fails if there is none |
| Calc.Evaluate | tools/calc.py:76-95 | the passes that overwrite the row in place, with retry and with failure in the last pass |
| Calc.FinalSettles | tools/calc.py:76 | no dependency chain is longer than the number of columns |
| Calc.ValuesSolve | tools/calc.py:76-95 | in the values in dependency order each derived cell is its expression evaluated over these values |
| Calc.PassAdvances | tools/calc.py:79-92 | after pass d every column of dependency depth at most d + 1 is final and nothing final was lost |
| Calc.CleanPass | tools/calc.py:93-94 | a pass without failure leaves its value in dependency order in every column that can fail, for any header |
| Calc.RaisesExact | tools/calc.py:76-95 | on every row, CalcException is raised exactly when some column that can fail, a call or a copy of a column that does not exist, has no value in dependency order, and it names the first of these columns |
| CalcHeader.CallFails | tools/calc.py:85-92 | a call fails if any column it reads, however deep, is not a number |
| CalcHeader.RunFollows | tools/calc.py:76-95 | on rows where functions are defined wherever they have operands, the run ends as the rehearsal on the header says: columns that are ready have their values, the others still texts |
| CalcHeader.SettledIsRight | tools/calc.py:76-95 | if every column is ready by the first pass in which nothing fails, every row gets the values in dependency order, or CalcException if some column has none |
| CalcHeader.UnsettledIsWrong | tools/calc.py:76-95 | otherwise there is a row that is returned wrong |
| CalcHeader.EvaluateExact | tools/calc.py:76-95 | for every header: the passes are right on all rows, whatever the functions, exactly when the header settles |
| CalcHeader.AcyclicExact | tools/calc.py:76-95 | for every header without cycles: all rows with a value in every column are returned with these values exactly when the header settles |
| CalcHeader.BackwardCopiesExact | tools/calc.py:76-95 | headers with strict expressions and copies of earlier columns settle: a row is returned exactly when every column has a value, and holds these values |
| CalcHeader.ForwardCopyIsStale | tools/calc.py:85 | a bare copy of a later column can keep the text that column started with |
| CalcHeader.CopyCycleIsReturned | tools/calc.py:85-95 | two columns that copy each other never fail, so the row is returned although neither has a value |
| LruCache.ContentsAreMostRecent | archcloud/src/ArchLab/QDCache.py:25-32 | after any trace the cache holds exactly the most recently used lines, in order of last use |
| LruCache.RecencySplit | archcloud/src/ArchLab/QDCache.py:25-32 | the lines behind a line in that order are exactly those used since its last use |
| LruCache.SinceExact | archcloud/src/ArchLab/QDCache.py:25-32 | used since the last use of x means: at a place from which on x does not occur |
| LruCache.HitExact | archcloud/src/ArchLab/QDCache.py:21-22 | a line hits exactly when it was used and fewer than k other lines have been used since |
| LruCache.MissesCount | archcloud/src/ArchLab/QDCache.py:25-32 | the misses of a trace are the accesses at which the line was not there |
| LruCache.Inclusion | archcloud/src/ArchLab/QDCache.py:12-32 | on the same trace a larger cache contains what a smaller one contains |
| LruCache.LargerMissesLess | archcloud/src/ArchLab/QDCache.py:25-32 | and never misses more often |
| LruCache.FullExact | archcloud/src/ArchLab/QDCache.py:30 | the code's comparison evicts from floor(capacity / line size) + 1 lines on |
| LruCache.CapacityExact | archcloud/src/ArchLab/QDCache.py:25-32 | after any trace what the cache holds fits its capacity exactly if no more different lines were used than fit; otherwise it holds exactly one line more than fit |
| LruCache.Cache.LineAddr | archcloud/src/ArchLab/QDCache.py:18-19 | the multiple of the line size at or just below the address |
| LruCache.Cache.HitMeans | archcloud/src/ArchLab/QDCache.py:21-23 | an address hits exactly when its line has been used, and since then fewer other lines than floor(capacity / line size) + 1 |
| LruCache.Cache.AccessAddr | archcloud/src/ArchLab/QDCache.py:25-32 | the dictionary keeps holding the contents that the trace of lines so far determines |
| TraceTool.DecInjective | pin-tools/trace_archlab.cpp:157 | different block numbers are written differently |
| TraceTool.DecExact | pin-tools/trace_archlab.cpp:157 | a block number is written in decimal digits, with its value and no leading zero |
| TraceTool.TextIs | pin-tools/trace_archlab.cpp:134-139 | the text of a block: one line for each instruction, after a percent sign |
| TraceTool.Tracer.Trace | pin-tools/trace_archlab.cpp:127-169 | instrumentation of a trace of blocks, in both modes; while tracing is off it changes neither file nor calls; otherwise it adds one call for each block, in plain mode the text of the block, and leaves the earlier calls |
| TraceTool.Tracer.DoCount | pin-tools/trace_archlab.cpp:119-123 | an execution adds what the call inserted for its block says to the file |
| TraceTool.CallNumbers | pin-tools/trace_archlab.cpp:150-167 | compressed, the call of block k writes the line with the number k + 1, modulo 2^32 |
| TraceTool.PlainStream | pin-tools/trace_archlab.cpp:119-148 | in plain mode the file of any run is the header and the text of each execution of a block; the blocks are those seen while tracing was on |
| TraceTool.BlockAgrees | pin-tools/trace_archlab.cpp:150-167 | instrumenting a block in both modes keeps the compressed file, expanded, equal to the plain one |
| TraceTool.RunAgrees | pin-tools/trace_archlab.cpp:119-168 | so does every run of instrumentations, executions and switches of tracing with at most 2^32 blocks |
| TraceTool.ExpandRestores | pin-tools/trace_archlab.cpp:119-178 | round trip: expanding the compressed stream of any run of at most 2^32 blocks gives exactly the stream of the plain mode, header and footer included |
| TraceTool.NoReaderRestores | pin-tools/trace_archlab.cpp:154-157 | with more than 2^32 blocks, runs that execute different blocks 2^32 apart have different plain streams and the same compressed stream |
| TraceTool.RoundTripExact | pin-tools/trace_archlab.cpp:119-178 | the round trip holds for all runs of at most n blocks exactly when n is at most 2^32 |
| TraceTool.Tracer.SetTracing | pin-tools/trace_archlab.cpp:69-74 | starting and stopping switch tracing and change nothing else |
| CatMix.Profiler.Summarize | pin-tools/catmix.cpp:127-153 | for each instruction of a block in order its category, plus 64 if it is predicated; then a zero |
| CatMix.Profiler.Trace | pin-tools/catmix.cpp:121-160 | one list and one counter at zero for each new block |
| CatMix.Profiler.Execute | pin-tools/catmix.cpp:114-117 | an execution is counted in the block's own counter and nowhere else |
| CatMix.Profiler.AddBlock | pin-tools/catmix.cpp:95-98 | walking a list up to its zero adds the block's count times the occurrences of each slot |
| CatMix.Profiler.ComputeGlobalStats | pin-tools/catmix.cpp:90-100 | each of the 128 slots grows by the sum over all blocks |
| CatMix.CountersSum | pin-tools/catmix.cpp:90-117 | multiplying counters at the end equals counting at every execution |
| CatMix.ExecutedCounts | pin-tools/catmix.cpp:104-110 | what should be counted in slot c are the executions of unpredicated instructions of category c, in slot 64 + c those of predicated ones |
| CatMix.ProfileExact | pin-tools/catmix.cpp:90-160 | every executed instruction is counted in its own slot, for every slot, exactly when no executed block has an unpredicated instruction of category 0 |
| CatMix.StatsIndexInjective | pin-tools/catmix.cpp:104-110 | each of the 128 slots belongs to one category and one kind of instruction |
| Unrolled.Rolled | examples/x86-asm/ilp_unrolled_1.c:1-9 | the rolled loop sums the first 8n terms modulo 2^32, for any term |
| Unrolled.SumIs | examples/x86-asm/ilp_unrolled_1.c:1-9 | the sum of the first n terms: 0 for none, and term n more for n + 1 |
| Unrolled.Unrolled16 | examples/x86-asm/ilp_unrolled_16.c:1-24 | the 16-way loop sums the terms up to n rounded up to a multiple of 16 |
| Unrolled.Unrolled16Smart | examples/x86-asm/ilp_unrolled_16_smart.c:1-25 | so does the form with computed indices |
| Unrolled.Unrolled16Smarter | examples/x86-asm/ilp_unrolled_16_smarter.c:1-37 | so does the form with eight accumulators |
| Unrolled.Unrolled5 | examples/x86-asm/ilp_unrolled_5.c:1-29 | the 5-way form with its fall-through switch sums exactly the first n terms, for every n |
| Unrolled.RoundUp16Exact | examples/x86-asm/ilp_unrolled_16.c:4-22 | the 16-way sum equals the sum of the first n terms, for all terms, exactly when n is a multiple of 16 or not positive |
| Unrolled.LoopCarried | examples/x86-asm/tiny-loop-carried.c:2-10 | the rolled loop-carried sum, 1 + 0 + 1 + ... + (8n - 1) modulo 2^64, or 1 if n is negative |
| Unrolled.LoopCarried8 | examples/x86-asm/tiny-loop-carried-manual-8.c:1-23 | the 8-way form computes the same |
| Unrolled.CarriedResult | examples/x86-asm/tiny-loop-carried.c:2-10 | which is 1 + 8n(8n - 1)/2 modulo 2^64 |
| Generators.FastRand | libarchlab/archlab.h:74-85 | the new seed is the xorshift step of the old one, 0 counting as 1 |
| Generators.FastRandStepIs | libarchlab/archlab.h:74-85 | the step bit by bit: 13 to the left, 7 to the right, 17 to the left, each added to what it shifts |
| Generators.FastRandPermutes | libarchlab/archlab.h:74-85 | the step is a bijection on the non-zero seeds, with its inverse given |
| Generators.RandLfsr64 | libarchlab/archlab.h:89-100 | the new seed is the LFSR step of the old one, 0 counting as 1 |
| Generators.Lfsr64Is | libarchlab/archlab.h:87-100 | the 64-bit step: a shift to the right, and bits 64, 63, 61 and 60 flipped if the bit shifted out was set |
| Generators.RandLfsr32 | libarchlab/archlab.h:89-101 | the same with 32 bits |
| Generators.Lfsr32Is | libarchlab/archlab.h:87-101 | the 32-bit step: a shift to the right, and bits 32, 30, 26 and 25 flipped if the bit shifted out was set |
| Generators.RandLfsr16 | libarchlab/archlab.h:89-102 | the same with 16 bits |
| Generators.Lfsr16Is | libarchlab/archlab.h:87-102 | the 16-bit step: a shift to the right, and bits 16, 14, 13 and 11 flipped if the bit shifted out was set |
| Generators.RandLfsr8 | libarchlab/archlab.h:89-103 | the same with 8 bits |
| Generators.Lfsr8Is | libarchlab/archlab.h:87-103 | the 8-bit step: a shift to the right, and bits 8, 6, 5 and 4 flipped if the bit shifted out was set |
| Generators.Lfsr64Permutes | libarchlab/archlab.h:89-100 | the 64-bit LFSR step is a bijection on the non-zero seeds |
| Generators.Lfsr32Permutes | libarchlab/archlab.h:89-101 | so is the 32-bit one |
| Generators.Lfsr16Permutes | libarchlab/archlab.h:89-102 | so is the 16-bit one |
| Generators.Lfsr8Permutes | libarchlab/archlab.h:89-103 | so is the 8-bit one |
| Periods.FullPeriod8 | libarchlab/archlab.h:89-103 | a run of the 8-bit LFSR from any non-zero seed is back at its seed after n steps exactly when n is a multiple of 255 |
| Generators.NeverZero | libarchlab/archlab.h:74-103 | a run of any length from a non-zero seed never reaches 0 |
| Generators.NeverMerge | libarchlab/archlab.h:74-103 | runs of any length from different non-zero seeds never meet at the same step |

## Left out

- Renamer: parsing of assembly, addressing modes, and the numbering of skipped lines; an
  instruction's number here counts parsed instructions only. Registers outside the alias table
  stop the tool and are excluded. Edges are drawn always and control edges are never omitted.
- Renamer reports: dot and csv output, average parallelism and the reordering of registers for
  display.
- LocalPubSub.Subscription.Publish: one subscription; the loop over the subscriptions of a topic,
  and the deletion of topics and subscriptions, are not modelled. Publishing to a subscription, and
  creating it together with its topic file, are atomic.
- JobProtocol.ClientGetsItsResult: each blob or record is written and read atomically; a read of a
  half-written file is not modelled. A client's time limit may pass at any poll.
- JobProtocol.RunAtMostOnce: an operation that raises has had no effect, except that a run that
  raises counts as a run. Jobs are submitted once, each by its own client; the cleanup tool, which
  marks jobs as completed without a result, is excluded.
- JobRunner.Daemon.Round: the heartbeat and command threads, the zip archive, the two kinds of error
  handler (which write the same status) and the pull itself, which is
  LocalPubSub.Subscription.DoPull. The exit after one job or in debug mode is not modelled either.
- JobRunner.WaitForJob: the pause between retries, half a second, is a pause of any length.
- SetCache.Cache.Access: counters are unbounded, accesses that end inside the top line of the
  address space are excluded because the loop does not end for them (CacheLines.TopLineNeverStops).
- Cache simulator: the direct-mapped set class, the statistics report and CeilLog2, which add no
  new behaviour.
- CalcHeader.EvaluateExact: operators and functions fail on operands that are not numbers, as arithmetic
  does; Python's string arithmetic and other expressions that succeed on text are not modelled, nor
  are duplicate column names, a column called `math`, headers with one column or several equals
  signs in a name.
- LruCache.Cache.LineAddr: the division is exact integer division; the code divides floating-point
  numbers, which agrees for addresses below 2^53.
- TraceTool.ExpandRestores: Pin's calls. Disassembled instructions have no line breaks.
- Catmix: the count of predicated instructions that were really executed, the exclusion of shared
  libraries and the static counts, which add independent counters.
- Unrolled.Unrolled5: terms are an arbitrary function of the index and addition wraps around; C's
  undefined shifts and overflows are not modelled, and n is limited so that the index does not
  overflow. The other unrolled variants index differently and are not equivalent to the rolled loop.
- LocalPubSub.Subscription.DoPull: why an operation would fail for a reason of its own is not modelled;
  `trouble` says that any of them may. The sleep after an empty pull is left out.
- Periods.FullPeriod8: the periods of the wider LFSRs are not stated; their steps are permutations
  (Generators.Lfsr16Permutes and the others).
- Google Cloud back ends, docker, git, grading front ends, hardware counters, the kernel module and
  the build files: external services without logic of their own.
