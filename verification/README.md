# Models of samu, libsum and libcmd

This project models three groups of algorithms of the repository and proves what they are for.

**samu**, the build tool under `src/cmd/INIT/samu`. The modules `BuildGraph`, `Schedule*`,
`Planning`, `Announcements`, `Builder`, `JobSlots`, `BuildLoop` and `Session` model the scheduler of
`build.c`. `Builder.Build` is a class with the program's variables: the work queue, the pool queues,
the flags and the two counters of every edge. A ghost snapshot of them (`Schedule.Sched`) carries
the invariant `Schedule.Inv`, which says what the variables mean in terms of the graph: `nblock`
counts the blocking inputs that are not done, `nprune` those that still keep the edge from being
pruned, `numjobs` the edges that hold a slot of a pool, `ntotal`, `nstarted` and `nfinished` sets of
edges. Each step of the scheduler is a function on snapshots with a lemma that it keeps the
invariant, and each method is proved to do that step. Whether a job starts, when it ends, whether it
failed, whether its outputs changed and what the load is are arbitrary, so what is proved holds of
every run. `ScheduleTheorems` and `Session` say what the invariant means for whole builds, and
`Planning` what the flags mean in terms of the graph alone. `Outdated` says what the dirty check means for
files, and that what a finished edge records is found clean in the next build.
`GraphSteps` and `GraphStore` show that the graph which the parser and the dependency log build is
of the form the scheduler counts on. `AvlShape` and `TreeMap` model `tree.c` on heap nodes,
`HashTable` models `htab.c`, `CanonPath` models `canonpath`, and `DepsFormat`, `DepsReplay`, `DepsLog`
and `DepsLayout` model the log of `deps.c` down to its bytes.

**libsum**. `Sha256`, `Sha512` and `Sha1` are engines with the program's buffer and counters, proved
against `Sha256Spec`, `Sha512Spec` and `Sha1Spec`, which follow sections 5 and 6 of FIPS 180-4;
`Sha512` has the count of 128 bits and makes SHA-384 too. Engine and specification share the tables of
constants and the functions of a round, so these are pinned in two more ways: `ShaConstants` proves that
the constants are the fractional parts of roots of the first primes, and `Sha256Example`,
`Sha512Example` and `Sha1Example` work out the digest of "abc" of the standard. `Md5` is the engine of MD5, for any
compression function. The part that is common to streaming engines is in `Blocks`, and words and bytes
are in `Words` and `Words64`. `CrcAlgebra`, `CrcDivision` and `CrcReflected` relate the two forms of the
table-driven CRC to the division of polynomials bit by bit, `CksumTable` has the table that is spelled
out for POSIX cksum, and `Crc` is the engine.

**libcmd**. `Wc`, `RevLine`, `Tail` and `Context` model `wclib.c`, `revlib.c`, `tail.c` and
`context.c`. Their specifications speak of whole streams, so that the blocks a stream is read in
cannot matter.

Where the code does not meet its purpose, the exact condition under which it does is proved, and an
input for which it does not is given:

- SHA-1's bit count is right after a chunk exactly if the chunk has fewer than 2^29 bytes or the low
  half of the count carries (`Sha1.CountAfter`, `Sha1.LongChunkMiscounts`).
- The loop of SHA-1 over a chunk ends exactly if the chunk and the bytes kept before it are less than
  2^32 (`Sha1.IndexStops`, `Sha1.LongChunkNeverEnds`).
- `rev_line` writes a newline in place of the last byte exactly if that byte is not a newline, is
  alone in its block, and a newline precedes it in the block before (`RevLine.RightUnlessLone`,
  `RevLine.OneMoreByteIsLost`).
- `canonpath` turns a path into the empty string exactly if the path reduces to the root
  (`CanonPath.EmptyExactlyAtRoot`, `CanonPath.RootIsLost`), and exactly then its result does not lead
  where the path led.
- The load rule of the hash table leaves an empty slot exactly if the capacity is at least four
  (`HashTable.LoadRule`, `HashTable.SmallTableFills`), and a lookup ends exactly if the key is stored
  or a slot is empty (`HashTable.Table.ProbeEnds`, `HashTable.FullTable`).
- `tail` on a pipe gives the last records exactly if nothing is asked for or the last record has its
  delimiter (`Tail.PipeTail`, `Tail.UnfinishedIsLost`).
- A rotating CRC under any name but that of POSIX cksum computes its table but leaves the pointer to
  it null (`Crc.Engine.constructor`, `Crc.RotateHasNoTable`).
- A dependency log that was written reads back exactly if it has no record of an empty path
  (`DepsReplay.ReadsBackUnlessEmptyPath`, `DepsReplay.EmptyPathIsBad`).
- A record appended to a log reads back exactly if no bytes of a torn record are left in front of it, or
  these make up its own size again and the record, with its bytes shifted, says the same
  (`DepsReplay.AppendedReads`). Bytes that get past the checks of the size exist exactly for some sizes
  (`DepsReplay.TornSize`); for all others the record reads back exactly if there are none
  (`DepsReplay.OrdinaryAppended`, `DepsReplay.LeftoverByteSpoils`).

## Model

| member | source | states |
|---|---|---|
| Session.Session | src/cmd/INIT/samu/samu.c:262-273 | Planning all targets and running the build. Planning succeeds exactly if no cycle and no missing file is below a target; the plan holds the targets, nothing but what is below them, and flags that are those of the graph; the build keeps the plan and only starts commands below the targets that are out of date. A run that ends by itself without failures has dealt with every such command: it was pruned and never started, or it is done and was started exactly once; the same for every edge that a change concerns if there was any command to run. With failures to spare the build is at rest. No job is started once as many jobs have failed as may. The polls that report an ended job are at most as many as the edges, and a poll that reports none was made while jobs were running, as many as could be started and no more than may. |
| Session.AddTargets | src/cmd/INIT/samu/samu.c:263-272 | Succeeds if and only if every target is sound; then all targets are planned, and only edges below them; a cycle is only reported where one is reachable, and the cycle is exhibited. |
| Builder.Build.constructor | src/cmd/INIT/samu/build.c:32-36 | The initial state satisfies the planning invariant, with no edge planned. |
| Builder.Build.BuildAdd | src/cmd/INIT/samu/build.c:119-193 | The memoised search terminates on every graph; it plans the node, and nothing but edges below it, and leaves planned edges and those on the stack alone, or reports a cycle that exists, or a missing file that a path leads to. |
| Builder.Build.AddEdge | src/cmd/INIT/samu/build.c:136-193 | The same for an edge not visited before, which ends up planned. |
| Builder.Build.CountInput | src/cmd/INIT/samu/build.c:150-161 | One input is counted: only inputs that are not order-only dirty the edge or take part in the search for the newest, every dirty or blocked one blocks. |
| Builder.Build.CheckOutputs | src/cmd/INIT/samu/build.c:162-171 | FLAG_DIRTY_OUT ends up set exactly if some output is out of date with respect to the newest input, or the recorded dependencies are, although the loop stops at the first one. |
| Planning.NewestIsMax | src/cmd/INIT/samu/build.c:149-158 | The newest input is the maximum of the mtimes of the existing inputs that are not order-only, and there is none exactly if none exists. |
| Planning.AdmitKeeps | src/cmd/INIT/samu/build.c:184-191 | Giving an edge its counters, queueing it if it is dirty and unblocked, and counting it keeps the invariant. |
| Planning.ActiveMeans | src/cmd/INIT/samu/build.c:159-160 | In a fresh plan an edge has work to do exactly if it is dirty or its block count is positive. |
| Planning.InputMeans | src/cmd/INIT/samu/build.c:153-160 | The test of the program, on node marks and block counts, decides whether an input is dirty and whether it is awaited. |
| Planning.DirtyMeans | src/cmd/INIT/samu/build.c:150-183 | The flags of a planned edge are set exactly if a path through inputs that are not order-only leads from it to an edge with an output that is out of date: what the search computes is what the graph alone says. |
| Planning.ActiveReaches | src/cmd/INIT/samu/build.c:159-160 | A planned edge has something to do exactly if a path, through order-only inputs too, leads to an edge with an output that is out of date. |
| Planning.PlannedIsSound | src/cmd/INIT/samu/build.c:136-140 | Below a planned edge there is no cycle and no missing file. |
| Planning.PlanUnique | src/cmd/INIT/samu/build.c:119-193 | Two plans of one graph agree on the dirty flags and on the awaited inputs of every edge that both contain: the order of visits does not matter. |
| Planning.CycleFound | src/cmd/INIT/samu/build.c:136-137 | An edge met again while it is being visited closes a cycle from the root of the search. |
| Outdated.UpToDateMeans | src/cmd/INIT/samu/build.c:54-101 | An output of a command edge is found up to date exactly if it exists; no existing input that is not order-only is newer, unless the edge is restat and the output has a record; it has a record or the edge is a generator; no such input is newer than the record; and the command is the recorded one or the edge is a generator. |
| Outdated.PhonyMeans | src/cmd/INIT/samu/build.c:61-67 | An output of a phony edge is out of date exactly if it is missing and the edge has no inputs. |
| Outdated.RecordedIsClean | src/cmd/INIT/samu/build.c:390-438 | What a finished edge records for an output is found clean by the next build exactly if the output exists, and no input is newer or the run of a restat edge left it as it was. |
| Outdated.DoneStaysDone | src/cmd/INIT/samu/build.c:411-438 | The same for all outputs of a finished edge together: the edge is not dirty in the next build exactly if that holds of each of them. |
| ScheduleTheorems.CountersMean | src/cmd/INIT/samu/build.c:150-185 | At every point the block count of a waiting edge is the positive number of its inputs not done yet, and its prune count the positive number of inputs that still keep it from being pruned. |
| ScheduleTheorems.SettledBefore | src/cmd/INIT/samu/build.c:365-388 | An edge that was queued, started or pruned waits only for edges that are done or pruned. |
| ScheduleTheorems.NothingPastAFailure | src/cmd/INIT/samu/build.c:484-485 | No edge that depends, however indirectly, on an unsettled edge, such as a failed one, is ever queued. |
| ScheduleTheorems.PoolBound | src/cmd/INIT/samu/build.c:109-114 | The running jobs of a pool are at most its numjobs, which is at most its depth. |
| ScheduleTheorems.ParkedBehindStuck | src/cmd/INIT/samu/build.c:592-595 | At rest an edge is parked only if its pool is full of jobs that failed to start and kept their slots. |
| ScheduleTheorems.WaitingHasCause | src/cmd/INIT/samu/build.c:365-388 | At rest every waiting edge has a chain of dependencies to an edge that failed, failed to start or is parked. |
| ScheduleTheorems.RestAfterFailures | src/cmd/INIT/samu/build.c:564-602 | If all jobs could start, a build at rest has settled, or tried, exactly the edges that depend on no failed one. |
| ScheduleTheorems.Complete | src/cmd/INIT/samu/build.c:542-615 | At rest without failures every active edge ran or was pruned, all pool queues are empty, and started, finished and total agree. |
| ScheduleTheorems.HistoryInOrder | src/cmd/INIT/samu/build.c:365-388 | In the history of a build a started edge was started once, was never pruned, and was queued before, after every producer it waits for had finished or been pruned. |
| ScheduleTheorems.PrunedExactly | src/cmd/INIT/samu/build.c:371-386 | An edge that is through with was pruned, rather than run, exactly if its own outputs were not out of date and, where an input made it dirty, every input it waited for turned out to be unchanged. |
| ScheduleTheorems.UnchangedNodes | src/cmd/INIT/samu/build.c:376-427 | Only outputs of pruned edges, and of restat edges that ran, count as unchanged. |
| ScheduleSteps.TellFacts | src/cmd/INIT/samu/build.c:371-386 | When an edge is told of an input it is waiting, has not been told of it before, and neither counter can underflow. |
| ScheduleTell.TellWaits | src/cmd/INIT/samu/build.c:376-384 | Counting down without reaching zero keeps the invariant. |
| ScheduleTell.TellQueues | src/cmd/INIT/samu/build.c:384-386 | Queueing an edge whose block count reaches zero keeps the invariant. |
| ScheduleTell.TellDrops | src/cmd/INIT/samu/build.c:376-383 | Pruning an edge whose prune count reaches zero keeps the invariant, and its outputs are announced for the first time. |
| ScheduleTell.EnqueueKeeps | src/cmd/INIT/samu/build.c:103-117 | Putting an edge that awaits nothing into the work queue, or into its pool's queue if the pool is full, restores the invariant, with the pool counts. |
| ScheduleTell.DropKeeps | src/cmd/INIT/samu/build.c:376-383 | Dropping an edge all of whose counted inputs are pruned restores the invariant. |
| Announcements.MarkKeeps | src/cmd/INIT/samu/build.c:421-427 | Treating an unchanged output of a finished restat edge as pruned keeps the invariant. |
| Announcements.PayKeeps | src/cmd/INIT/samu/build.c:382-383 | Taking a pruned command edge out of ntotal after its outputs were announced keeps the totals exact. |
| Builder.Build.Queue | src/cmd/INIT/samu/build.c:103-117 | The method does the step Enqueue: work queue, or pool queue when the pool is full, with the pool's count. |
| Builder.Build.NodeDone | src/cmd/INIT/samu/build.c:365-388 | Every use of the node in this build is announced exactly once, with all the pruning that follows, and the invariant holds afterwards. |
| Builder.Build.TellEdge | src/cmd/INIT/samu/build.c:376-386 | One edge is told of one input; it goes on waiting, is queued or is pruned, and the invariant holds. |
| Builder.Build.PruneOutputs | src/cmd/INIT/samu/build.c:380-383 | All outputs of a pruned edge are announced, recursively, and the total is corrected once. |
| Builder.Build.EdgeDone | src/cmd/INIT/samu/build.c:411-427 | All outputs of a finished edge are announced, none twice; an output ends up marked as pruned exactly if the edge is restat and the run left that output untouched. |
| Builder.Build.EndJob | src/cmd/INIT/samu/build.c:468-483 | A finished job's slot goes to the first parked edge, or back to the pool; the console is given up. |
| Builder.Build.JobDone | src/cmd/INIT/samu/build.c:440-486 | After a job ended the invariant holds with no announcement pending; a failed job announces nothing. |
| Builder.Build.TakePhony | src/cmd/INIT/samu/build.c:565-576 | A phony edge taken off the queue is done at once and announced. |
| Builder.Build.TakeJob | src/cmd/INIT/samu/build.c:565-599 | The first ready edge is taken off the queue and started, or stuck if it fails to start, which does not free its pool slot. |
| ScheduleJobs.BeginKeeps | src/cmd/INIT/samu/build.c:592-599 | Starting a job, or failing to, keeps the invariant. |
| ScheduleJobs.SkipKeeps | src/cmd/INIT/samu/build.c:572-576 | Finishing a phony edge without a job keeps the invariant. |
| ScheduleJobs.JobEndKeeps | src/cmd/INIT/samu/build.c:447-485 | Ending a job keeps the invariant, with pool counts, pool queues, console flag and totals. |
| ScheduleJobs.OneConsoleJob | src/cmd/INIT/samu/build.c:472-473 | At most one job of the console pool runs, so that clearing the flag is right. |
| JobSlots.JobTable.Grow | src/cmd/INIT/samu/build.c:577-591 | Doubling the slots keeps the busy ones and their edges, links all new ones into the free list, stays within the job limit and leaves a free slot. |
| JobSlots.JobTable.Take | src/cmd/INIT/samu/build.c:592-599 | The first free slot becomes busy; the free list stays acyclic and complements the busy slots. |
| JobSlots.JobTable.Release | src/cmd/INIT/samu/build.c:608-611 | A busy slot becomes the head of the free list. |
| JobSlots.EveryCell | src/cmd/INIT/samu/build.c:583-590 | Busy slots and free slots add up to all slots, hence the list ends at the array's length exactly if all are busy. |
| BuildLoop.StartReady | src/cmd/INIT/samu/build.c:564-600 | Starting edges ends, keeps the plan and continues the history, with every running edge in exactly one busy slot and numfail the number of broken edges. It leaves no ready edge unless a limit is reached, and stays within the limits: no more than `limit` jobs run unless they ran before, at every start in the history fewer than `maxfail` failures came before it, and nothing happens at all if a limit is reached already. |
| BuildLoop.FailuresCounted | src/cmd/INIT/samu/build.c:593-613 | The history has exactly one failure for every edge that failed or failed to start, so that numfail counts them. |
| BuildLoop.Round | src/cmd/INIT/samu/build.c:559-614 | One turn of the loop: with the machine overloaded at most one job runs at the poll, unless more ran before; starts stay within the limit on failures, and a poll starts nothing. |
| BuildLoop.Poll | src/cmd/INIT/samu/build.c:603-614 | Whatever set of slots the poll reports and whichever of their jobs failed: the jobs in the busy ones among these slots have ended, with a failure exactly for those, and no other job has; the slots are free, nfinished and numfail grow by their numbers, and nothing is started. |
| BuildLoop.RunningCount | src/cmd/INIT/samu/build.c:592-611 | There are as many running edges as busy slots. |
| BuildLoop.Run | src/cmd/INIT/samu/build.c:542-615 | Every run keeps the plan it started from and continues its history, and at every start in it fewer than `maxfail` failures came before. If the loop ends with failures to spare the build is at rest, without failures it is complete with finished equal to total. The numbers of jobs that ended at each poll add up to nfinished, and the polls at which some job ended are at most as many as the edges; the loop ends by itself, with no job running, or makes all the polls it may, and a poll at which no job ended was made while jobs were running, as many as could be started and no more than may. |
| GraphSteps.EdgeKeeps | src/cmd/INIT/samu/graph.c:135-152 | Adding an empty edge keeps the graph well formed. |
| GraphSteps.OutputKeeps | src/cmd/INIT/samu/parse.c:118-122 | Giving an edge a node without producer as output keeps the graph well formed. |
| GraphSteps.InputKeeps | src/cmd/INIT/samu/graph.c:126-133 | Inserting an input anywhere, with its use, keeps every input position recorded exactly once. |
| GraphSteps.PhonyKeeps | src/cmd/INIT/samu/graph.c:180-195 | A phony edge for a node without producer keeps the graph well formed. |
| GraphSteps.DepKeeps | src/cmd/INIT/samu/graph.c:197-216 | Adding one recorded dependency, with a phony edge if nothing produces it, keeps the graph well formed. |
| GraphStore.NewOutsAre | src/cmd/INIT/samu/parse.c:107-123 | The outputs an edge gets are the listed nodes without a producer, each once; they are all of the listed ones exactly if none is produced already or listed twice. |
| GraphStore.Store.AddStatement | src/cmd/INIT/samu/parse.c:106-131 | A build statement is refused exactly if an output has a producer and that is not only a warning; otherwise the graph has the new edge with exactly those outputs and all inputs, and is well formed. |
| GraphStore.Store.AddDeps | src/cmd/INIT/samu/graph.c:197-216 | The dependencies come before the order-only inputs, those without producer get exactly one phony edge each, no producer changes, and the graph is well formed. |
| GraphStore.Store.MakeNode | src/cmd/INIT/samu/graph.c:44-70 | A path that has a node gets that node and nothing changes; otherwise a new node is made, without producer and uses, and is found by its path from then on; the graph stays well formed. |
| AvlShape.RotEntries | src/cmd/INIT/samu/tree.c:30-71 | Single and double rotation keep the sequence of entries. |
| AvlShape.RotAvl | src/cmd/INIT/samu/tree.c:30-71 | Rotation of a tree that is two too deep on one side gives a balanced tree with exact stored heights, at most as high as before. |
| AvlShape.BalanceStep | src/cmd/INIT/samu/tree.c:73-86 | After a subtree grew by one, balancing its parent gives a balanced tree with the same entries, whose height differs from the stored, stale one by zero or one. |
| AvlShape.StopEarly | src/cmd/INIT/samu/tree.c:127-128 | A subtree that did not change its height leaves all ancestors balanced with right heights: stopping at the first zero is sound. |
| AvlShape.PathHeight | src/cmd/INIT/samu/tree.c:109-119 | The path of ancestors is no longer than the tree is high. |
| AvlShape.SizeBound | src/cmd/INIT/samu/tree.c:73-86 | A balanced tree has at least as many nodes as the Fibonacci-like minimum for its height. |
| AvlShape.MinSizeExponential | src/cmd/INIT/samu/tree.c:8 | The minimum is at least 2^(2k) for height 3k. |
| AvlShape.HeightBound | src/cmd/INIT/samu/tree.c:8 | With fewer than 2^(2k) nodes a tree has fewer than 3k levels, the size of the ancestor array for 2k-bit pointers. |
| AvlShape.SizeIsEntries | src/cmd/INIT/samu/tree.c:102-130 | The size of a tree is the number of its entries. |
| TreeMap.Rot | src/cmd/INIT/samu/tree.c:30-71 | On the heap: the nodes form the rotated tree, and the result is the change over the stale stored height. |
| TreeMap.Balance | src/cmd/INIT/samu/tree.c:73-86 | On the heap: updates the height or rotates, and returns the change over the stored height. |
| TreeMap.Map.Find | src/cmd/INIT/samu/tree.c:88-100 | Returns the node with the key, or null exactly if the key is not in the map. |
| TreeMap.Map.Insert | src/cmd/INIT/samu/tree.c:102-130 | Map update, returning the replaced value; search order, balance and stored heights are kept. |
| TreeMap.Map.Descend | src/cmd/INIT/samu/tree.c:109-119 | The walk ends at the key or at the slot where it belongs, with all slots on the way recorded and no index beyond the array. |
| TreeMap.StillRoom | src/cmd/INIT/samu/tree.c:105-118 | The ancestor array of 96 entries does not overflow while the tree has fewer than 2^64 nodes. |
| HashTable.LoadRule | src/cmd/INIT/samu/htab.c:85-108 | The load rule leaves an empty slot after every insertion exactly if the capacity is at least four. |
| HashTable.SmallTableFills | src/cmd/INIT/samu/htab.c:85-108 | A table of capacity two is full after two entries, which the load rule lets in. |
| HashTable.MaskFolds | src/cmd/INIT/samu/htab.c:72-74 | Masking with a power of two less one folds an index into the table and wraps the end to zero. |
| HashTable.OnceOnly | src/cmd/INIT/samu/htab.c:67-76 | A key is in at most one slot. |
| HashTable.NotStored | src/cmd/INIT/samu/htab.c:67-76 | A key not met before the first empty slot of its probe run is in no slot. |
| HashTable.FillKeeps | src/cmd/INIT/samu/htab.c:104-109 | Filling the first empty slot of a run keeps every stored key reachable by an unbroken run. |
| HashTable.EmptySlot | src/cmd/INIT/samu/htab.c:73-74 | While there are fewer entries than slots some slot is empty, so that the probe loop ends. |
| HashTable.Table.constructor | src/cmd/INIT/samu/htab.c:23-39 | A new table of any power of two holds the empty map. |
| HashTable.Table.KeyIndex | src/cmd/INIT/samu/htab.c:67-76 | The loop ends, at the slot of the key or at the first empty slot of its run, if there is such a slot. |
| HashTable.Table.ProbeEnds | src/cmd/INIT/samu/htab.c:73-74 | Probing for a key comes to an end exactly if the key is stored or some slot is empty. |
| HashTable.FullTable | src/cmd/INIT/samu/htab.c:67-76 | A full table of capacity two, made by puts, and a third key: every slot that the loop looks at is taken by another key. |
| HashTable.Table.FullIsSmall | src/cmd/INIT/samu/htab.c:85-108 | In any table that was made by puts, of any capacity, some slot is empty if the capacity is at least four. |
| HashTable.Table.Get | src/cmd/INIT/samu/htab.c:114-121 | Lookup in the map, nothing for an absent key; a full table can only be asked for a key it has. |
| HashTable.Table.Grow | src/cmd/INIT/samu/htab.c:86-102 | Doubling and entering all keys again keeps the map. |
| HashTable.Table.Put | src/cmd/INIT/samu/htab.c:78-112 | The map is unchanged for a stored key and gets the key without a value otherwise; the slot returned holds the key; the table grows exactly if more than half is used. |
| HashTable.Table.Store | src/cmd/INIT/samu/htab.c:111 | A store through the returned pointer updates the map at that key only. |
| CanonPath.Canonicalise | src/cmd/INIT/samu/util.c:152-206 | In place: the empty path is an error, and so is exactly a path in which at some point more than 60 names are live; otherwise the buffer holds the path that splitting, folding with a stack and rejoining gives, no longer than before. |
| CanonPath.CopyComponent | src/cmd/INIT/samu/util.c:195-197 | Copying a component down to the write cursor, which is never ahead of the read cursor, moves exactly its characters. |
| CanonPath.MoveKeeps | src/cmd/INIT/samu/util.c:184-197 | One component moved keeps the relation between the text written, the text to be read and the fold. |
| CanonPath.FailsExactly | src/cmd/INIT/samu/util.c:155-193 | Reducing fails exactly if in some prefix of the components, a name counting one up and two dots one down, more than 60 names are live. |
| CanonPath.ReducedIsPlain | src/cmd/INIT/samu/util.c:168-198 | What is left has no empty, dot or dot-dot names after the leading dot-dots, and at most 60 names. |
| CanonPath.EmptyExactlyAtRoot | src/cmd/INIT/samu/util.c:199-204 | The result is empty exactly for paths that reduce to the root. |
| CanonPath.RootIsLost | src/cmd/INIT/samu/util.c:199-204 | The path "/" becomes the empty string. |
| CanonPath.Idempotent | src/cmd/INIT/samu/util.c:152-206 | Doing it twice is doing it once exactly if the result is not empty. |
| CanonPath.KeepsMeaning | src/cmd/INIT/samu/util.c:152-206 | The result leads where the path led, from every directory, exactly if it is not empty. |
| CanonPath.RelativeIsUnique | src/cmd/INIT/samu/util.c:152-206 | Relative paths have the same canonical form exactly if they lead to the same place from every directory. |
| CanonPath.AbsoluteIsUnique | src/cmd/INIT/samu/util.c:152-206 | Absolute paths have the same canonical form exactly if they lead to the same place and climb above the root equally often. |
| DepsFormat.JoinHalves | src/cmd/INIT/samu/deps.c:105-108 | The two words of a 64-bit mtime, joined with sign, give it back. |
| DepsFormat.Dec32Enc32 | src/cmd/INIT/samu/deps.c:64-69 | A written word is read back at any offset. |
| DepsReplay.NodeReads | src/cmd/INIT/samu/deps.c:71-91 | A node record, padding and checksum included, is read back as one new entry. |
| DepsReplay.DepsReads | src/cmd/INIT/samu/deps.c:93-111 | A dependency record is read back with its mtime and paths. |
| DepsReplay.ReadsBackUnlessEmptyPath | src/cmd/INIT/samu/deps.c:155-234 | Records that were written, with any paths, are read back completely if and only if none of them is of an empty path. |
| DepsReplay.ReadsUpToEmptyPath | src/cmd/INIT/samu/deps.c:207-210 | A log is read as far as its first record of an empty path, and is bad there. |
| DepsReplay.EmptyPathIsBad | src/cmd/INIT/samu/deps.c:207-210 | The log of one record, of an empty path, is one that can be written and is bad. |
| DepsReplay.EntriesAreNodes | src/cmd/INIT/samu/deps.c:231-232 | Ids are dense in file order: entry k is for the k-th node record. |
| DepsReplay.RecordsRead | src/cmd/INIT/samu/deps.c:155-234 | All records that were written are read back, whatever follows them. |
| DepsReplay.WrittenLogReads | src/cmd/INIT/samu/deps.c:155-234 | A written log, cut off within the size of its next record, is read completely. |
| DepsReplay.AppendedReads | src/cmd/INIT/samu/deps.c:155-158 | A record, of any size, that is appended to a log reads back if and only if no bytes of a torn record are left in front of it, or those bytes and the first bytes of its size make up its size again and what is then read as the record makes the entries the same. |
| DepsReplay.TornSize | src/cmd/INIT/samu/deps.c:155-177 | There are one, two or three left-over bytes that get past the checks of the size exactly if the low part of the record's size, which is read as the high part, is small enough: never for one byte, for two if the size is a multiple of 2^15 (or 4 more, and large), for three if it is a multiple of 128. |
| DepsReplay.OrdinaryAppended | src/cmd/INIT/samu/deps.c:155-177 | For all other sizes an appended record reads back if and only if there are no left-over bytes, and with them the log is bad there, with all entries before it kept. |
| DepsReplay.LeftoverByteSpoils | src/cmd/INIT/samu/deps.c:155-177 | One zero byte left over in front of the record of the path "a" makes the log bad. |
| DepsLog.Log.RecordId | src/cmd/INIT/samu/deps.c:71-91 | A path, empty or not, gets the next id and one record unless it has one; it gives up exactly if there are 2^31 - 1 ids or the record has 2^19 bytes or more. |
| DepsLog.Log.RecordDeps | src/cmd/INIT/samu/deps.c:93-111 | Appends one record that refers only to ids written before, or gives up exactly if it is too large. |
| DepsLog.ReadsBack | src/cmd/INIT/samu/deps.c:71-111 | What a log in use has written reads back if and only if no empty path was given an id. |
| DepsLog.Replay | src/cmd/INIT/samu/deps.c:155-234 | The loop over the file does what reading record by record does, on every sequence of bytes, with the same errors. |
| DepsLog.ReadGivesOk | src/cmd/INIT/samu/deps.c:155-234 | Whatever the bytes, the entries read have proper paths and mtimes, and dependencies only where wanted. |
| DepsLog.Rewrite | src/cmd/INIT/samu/deps.c:255-276 | The rewritten log says the same about every path as the entries, restricted to those with dependencies: it has one record for each of these and one for each path mentioned in them; it gives up exactly if more paths are mentioned than there are ids or something about an entry is too large for its record. |
| DepsLog.NeverTooMany | src/cmd/INIT/samu/deps.c:215-218 | What is read from a file never mentions more paths than there are ids. |
| DepsLog.Compact | src/cmd/INIT/samu/deps.c:239-276 | Compacting a log that was written never fails, and reading the result gives the same mtime and dependencies for every path as the log and as its records. |
| DepsLog.Init | src/cmd/INIT/samu/deps.c:113-285 | Whatever the file, the log that is left says the same as what was read from it; it is the file itself exactly if that was good and has at most 1000 records or fewer than three per entry, and otherwise the rewritten log; it gives up exactly if the log is to be written anew and something in it is too large. For a log that was written it never gives up, and the log that is left answers as the records. |
| DepsLayout.NodeLayout | src/cmd/INIT/samu/deps.c:14-33 | Byte by byte: size, path, zeros to the next multiple of four, and the complement of the id. |
| DepsLayout.DepsRecordLayout | src/cmd/INIT/samu/deps.c:22-41 | Byte by byte: the size with the highest bit set, the id of the output, the low and the high half of the time, and the ids of the dependencies. |
| DepsLayout.LogLayout | src/cmd/INIT/samu/deps.c:14-20 | A log in use is the text "# ninjadeps" with a newline, the version 4, and its records one after the other. |
| Blocks.KeepShort | src/lib/libsum/sum-sha2.c:584-591 | Bytes that do not complete a block change nothing but what is kept. |
| Blocks.CompleteBlock | src/lib/libsum/sum-sha2.c:577-583 | Bytes that complete a block are compressed together with what was kept. |
| Blocks.GapIsLeast | src/lib/libsum/sum-sha2.c:652-675 | The zeros of the padding are the fewest that make whole blocks. |
| Blocks.PaddedShort | src/lib/libsum/sum-sha2.c:652-658 | For any block size and compression function: padding within the last block hashes the padded message. |
| Blocks.PaddedLong | src/lib/libsum/sum-sha2.c:659-668 | The same for padding that needs one more block. |
| Sha256.NextWord | src/lib/libsum/sum-sha2.c:524-533 | The word computed in the circular buffer is the word of the full 64-word schedule. |
| Sha256.UsedSpace | src/lib/libsum/sum-sha2.c:572 | The wrapping bit count tells how many bytes are kept. |
| Sha256.PadShort | src/lib/libsum/sum-sha2.c:653-680 | Padding within the last block hashes the padded message. |
| Sha256.PadLong | src/lib/libsum/sum-sha2.c:659-680 | Padding that needs one more block hashes the padded message. |
| Sha256.Engine.Transform | src/lib/libsum/sum-sha2.c:483-559 | The transform is the compression function of FIPS 180-4, also when the block is the engine's own buffer, which it overwrites. |
| Sha256.Engine.LaterRounds | src/lib/libsum/sum-sha2.c:524-545 | Rounds 16 to 63 with the schedule computed in place are the rounds of the standard. |
| Sha256.Engine.Block | src/lib/libsum/sum-sha2.c:563-609 | For every chunk, the engine stands for the message read so far followed by the chunk. |
| Sha256.Engine.Done | src/lib/libsum/sum-sha2.c:637-705 | The digest is SHA-256 of the whole message, however it was cut up; it is added to the running exclusive or; the state is cleared. |
| Sha256.Digest | src/lib/libcmd/cksum.c:193-227 | For every list of chunks the digest is SHA-256 of their concatenation. |
| ShaConstants.Constants256 | src/lib/libsum/sum-sha2.c:199-216 | Constant t is the first 32 bits of the fractional part of the cube root of the t-th prime. |
| ShaConstants.Initial256 | src/lib/libsum/sum-sha2.c:219-228 | The initial values are the first 32 bits of the fractional parts of the square roots of the first eight primes. |
| Sha256Example.OfAbc | src/lib/libsum/sum-sha2.c:182-189 | The digest of "abc" is that of the standard, which fixes functions, rotations and constants. |
| Sha512.CountMore | src/lib/libsum/sum-sha2.c:126-133 | Adding with the carry of ADDINC128 keeps the number of bits, modulo 2^128, in the two words. |
| Sha512.UsedSpace | src/lib/libsum/sum-sha2.c:936 | The low word tells how many bytes are kept. |
| Sha512.FieldByte | src/lib/libsum/sum-sha2.c:1009-1013 | The two words, with their bytes reversed, are the length field of the standard. |
| Sha512.NextWord | src/lib/libsum/sum-sha2.c:888-897 | The word computed in the circular buffer is the word of the full 80-word schedule. |
| Sha512.Engine.FirstRounds | src/lib/libsum/sum-sha2.c:864-886 | Rounds 0 to 15 are those of the standard while each word, its bytes reversed, is put into the buffer, which may be where it is read from. |
| Sha512.Engine.LaterRounds | src/lib/libsum/sum-sha2.c:888-909 | Rounds 16 to 79 with the schedule computed in place are the rounds of the standard. |
| Sha512.Engine.Transform | src/lib/libsum/sum-sha2.c:849-923 | The transform is the compression function of FIPS 180-4, also when the block is the engine's own buffer, which it overwrites. |
| Sha512.Engine.Block | src/lib/libsum/sum-sha2.c:927-973 | For every chunk, the engine stands for the message read so far followed by the chunk, and the two words count its bits. |
| Sha512.Engine.Done | src/lib/libsum/sum-sha2.c:1001-1067 | The digest is that of the whole message, however it was cut up; it is added to the running exclusive or; the state is cleared. |
| Sha512.Digest | src/lib/libcmd/cksum.c:193-227 | For every list of chunks the digest is SHA-512 of their concatenation. |
| Sha512.Digest384 | src/lib/libsum/sum-sha2.c:1095-1123 | With the other initial value, the first 48 bytes are SHA-384 of the concatenation. |
| ShaConstants.Constants512 | src/lib/libsum/sum-sha2.c:231-315 | Constant t is the first 64 bits of the fractional part of the cube root of the t-th prime. |
| ShaConstants.Initial512 | src/lib/libsum/sum-sha2.c:341-350 | The initial values are the first 64 bits of the fractional parts of the square roots of the first eight primes. |
| ShaConstants.Initial384 | src/lib/libsum/sum-sha2.c:318-327 | The same for the ninth to sixteenth prime. |
| ShaConstants.NthIsUnique | src/lib/libsum/sum-sha2.c:199-315 | Only one number is the t-th prime, so that the constants are determined by these statements. |
| ShaConstants.CubeRootIsUnique | src/lib/libsum/sum-sha2.c:199-315 | A number has only one cube root, rounded down. |
| ShaConstants.SquareRootIsUnique | src/lib/libsum/sum-sha2.c:219-350 | A number has only one square root, rounded down. |
| Sha512Example.OfAbc | src/lib/libsum/sum-sha2.c:182-195 | The digest of "abc" is that of the standard. |
| Words64.ReversedBytes | src/lib/libsum/sum-sha2.c:102-109 | A word that REVERSE64 was applied to is stored with its most significant byte first. |
| Md5.CountAfter | src/lib/libsum/sum-md5.c:279-282 | The bit count stays right exactly if the part of the length above 32 bits is a multiple of 2^29, hence for every chunk of less than 2^32 bytes. |
| Md5.PadLength | src/lib/libsum/sum-md5.c:314-316 | The length of the padding is one more than the zeros that RFC 1321 asks for. |
| Md5.Engine.Block | src/lib/libsum/sum-md5.c:267-301 | For every compression function and chunk, the engine stands for the message read so far followed by the chunk, with the right bit count. |
| Md5.Engine.Done | src/lib/libsum/sum-md5.c:303-330 | The digest is that of the message padded as in RFC 1321, the length in little-endian order. |
| Md5.Digest | src/lib/libcmd/cksum.c:193-227 | For every list of chunks the digest is that of their concatenation. |
| Sha1.ChoiceRewritten | src/lib/libsum/sum-sha1.c:57-62 | The rewritten choice function is the standard's. |
| Sha1.MajorityRewritten | src/lib/libsum/sum-sha1.c:66-68 | The rewritten majority function is the standard's. |
| Sha1.NextWord | src/lib/libsum/sum-sha1.c:48-52 | The word computed in the circular buffer is the word of the full 80-word schedule. |
| Sha1.R | src/lib/libsum/sum-sha1.c:57-71 | A macro round, which changes two of the five variables in place, is a round of the standard with the variables renamed. |
| Sha1.AllRounds | src/lib/libsum/sum-sha1.c:172-192 | The 80 rounds with renamed registers are those of the standard. |
| Sha1.CountAfter | src/lib/libsum/sum-sha1.c:214-216 | The low half of the bit count is always right, and the high half stays right exactly if the chunk has fewer than 2^29 bytes or the low half carries. |
| Sha1.LongChunkMiscounts | src/lib/libsum/sum-sha1.c:214-216 | A first chunk of 2^29 bytes leaves the high half wrong. |
| Sha1.IndexStops | src/lib/libsum/sum-sha1.c:221-222 | The loop over whole blocks, whose index has 32 bits, stops at some round exactly if the chunk and the bytes kept are less than 2^32. |
| Sha1.LongChunkNeverEnds | src/lib/libsum/sum-sha1.c:221-222 | A chunk of 2^32 bytes, and one of a byte less after one byte, for which the loop goes on at every round. |
| Sha1.CountBits | src/lib/libsum/sum-sha1.c:276-281 | The two halves together are the length in bits exactly if the high half is right. |
| Sha1.Engine.Transform | src/lib/libsum/sum-sha1.c:150-204 | The transform is the compression function of FIPS 180-4. |
| Sha1.Engine.Block | src/lib/libsum/sum-sha1.c:206-231 | For every chunk for which the loop ends, the engine stands for the message so far followed by the chunk, and the count stays right exactly under the condition above. |
| Sha1.Engine.Done | src/lib/libsum/sum-sha1.c:269-298 | The digest is that of the message padded with the count, hence SHA-1 of the message if the count is right. |
| Sha1.Digest | src/lib/libcmd/cksum.c:193-227 | For every list of chunks of less than 2^29 bytes the digest is SHA-1 of their concatenation. |
| ShaConstants.ConstantsSha1 | src/lib/libsum/sum-sha1.c:57-71 | The constants of the rounds are the square roots of 2, 3, 5 and 10 times 2^30, rounded down. |
| ShaConstants.InitialSha1 | src/lib/libsum/sum-sha1.c:239-243 | The bytes of the initial value count up and down as in the standard. |
| Sha1Example.OfAbc | src/lib/libsum/sum-sha1.c:48-71 | The digest of "abc" is that of the standard. |
| CrcAlgebra.TableStep | src/lib/libsum/sum-crc.c:56 | The reflected table step is eight single-bit steps, for all states and bytes. |
| CrcAlgebra.TableTurn | src/lib/libsum/sum-crc.c:57 | The rotating table step is eight single-bit steps, for all states and bytes. |
| CrcDivision.FeedIsRemainder | src/lib/libsum/sum-crc.c:57 | The register after some bits is the remainder of the bits times x^32 by the polynomial. |
| CrcDivision.BytesRemainder | src/lib/libsum/sum-crc.c:310-329 | The same for a message of bytes. |
| CrcReflected.MirrorStep | src/lib/libsum/sum-crc.c:198 | A step of the reflected form is a step of the rotating form with all bits in the opposite order. |
| CrcReflected.FeedIsSum | src/lib/libsum/sum-crc.c:56-57 | Whatever the register starts with, after n bits it is the sum of two remainders: of the start times x^n and of the message times x^32. |
| CrcReflected.ReflectedIsDivision | src/lib/libsum/sum-crc.c:233-289 | For every polynomial, start and message, the reflected register in the opposite bit order is that sum for the mirrored polynomial and start and the bits of the message, the least significant of each byte first. |
| CksumTable.LiteralIsComputed | src/lib/libsum/sum-crc.c:59-113 | Each of the 256 entries spelled out for POSIX cksum is the one that eight turns of its index give. |
| CksumTable.Children | src/lib/libsum/sum-crc.c:59-113 | The entry for twice an index is one turn of the entry for the index, and the one after it differs by the polynomial. |
| Crc.BytesAppend | src/lib/libsum/sum-crc.c:233-308 | The CRC of a concatenation is the CRC of the second part started with that of the first. |
| Crc.CheckIsCksum | src/lib/libsum/sum-crc.c:310-339 | With the options of POSIX cksum the check, length octets included, is that of POSIX.1-2017, by division of polynomials. |
| Crc.CheckIsZip | src/lib/libsum/sumlib.c:207-211 | With the options of zip the check is the CRC-32 of ITU-T V.42, the complement of a sum of two remainders by its polynomial. |
| Crc.LengthOctetsMean | src/lib/libsum/sum-crc.c:322-328 | The octets of the size are its digits in base 256, the lowest first, and no more than needed. |
| Crc.SizeWordMeans | src/lib/libsum/sum-crc.c:322 | The size goes into the check as its exclusive or with the option, on 64 bits. |
| Crc.Engine.constructor | src/lib/libsum/sum-crc.c:115-207 | The table in use is right; it is missing exactly for a rotating form under another name than that of POSIX cksum, whose table data are right all the same. |
| Crc.RotateHasNoTable | src/lib/libsum/sum-crc.c:144-191 | With the option rotate and the default polynomial the pointer to the table is null. |
| Crc.Engine.RotatingTable | src/lib/libsum/sum-crc.c:171-191 | The generator of the rotating table gives eight turns of every index. |
| Crc.Engine.ReflectedTable | src/lib/libsum/sum-crc.c:194-200 | The generator of the reflected table gives eight steps of every index. |
| Crc.Engine.Block | src/lib/libsum/sum-crc.c:233-289 | With its blocks of 64 bytes, the sum is the bitwise CRC of the message read so far followed by the chunk. |
| Crc.Engine.Done | src/lib/libsum/sum-crc.c:310-339 | The result is the check of the whole message, with the length as the options ask. |
| Crc.Checksum | src/lib/libcmd/cksum.c:193-227 | For every list of chunks the result is the check of their concatenation. |
| Crc.PosixCksum | src/lib/libcmd/cksum.c:193-227 | For every list of chunks the result is POSIX cksum of their concatenation. |
| Crc.ZipSum | src/lib/libcmd/cksum.c:193-227 | For every list of chunks the result is the CRC-32 of their concatenation. |
| Wc.StartsAndEnds | src/lib/libcmd/wclib.c:312-325 | Words that start and words that end differ by the word that is going on at the end. |
| Wc.CountBuffer | src/lib/libcmd/wclib.c:285-320 | The sentinel loop over one buffer, newline counts deferred and the last word corrected, adds the lines and the ended words of the buffer after the last byte before it. |
| Wc.CountWords | src/lib/libcmd/wclib.c:270-326 | Lines, words and bytes are those of the concatenated stream, for every split into non-empty buffers, of one byte or more. |
| Wc.CountLines | src/lib/libcmd/wclib.c:251-269 | Lines and bytes are those of the concatenated stream, for every split. |
| Wc.NewlinesAreLines | src/lib/libcmd/wclib.c:249-326 | The two branches count the same lines. |
| RevLine.Involution | src/lib/libcmd/revlib.c:28-31 | Reversing the lines twice gives back a file that ends with a newline. |
| RevLine.ReversedMeans | src/lib/libcmd/revlib.c:28-31 | For every list of lines, the reversal of their text is the text of the lines in the opposite order. |
| RevLine.MadeOfLines | src/lib/libcmd/revlib.c:28-31 | Every text is made of such lines. |
| RevLine.RightUnlessLone | src/lib/libcmd/revlib.c:70-76 | The output is the reversal exactly if there is no lone last byte. |
| RevLine.OneMoreByteIsLost | src/lib/libcmd/revlib.c:70-76 | For every block size: a newline that ends the first block, and one more byte that is not a newline, which is lost. |
| RevLine.ReverseBlock | src/lib/libcmd/revlib.c:62-96 | One block: the lines that begin in it are written, and nleft is exactly what is left of the line that begins before it. |
| RevLine.ReverseRange | src/lib/libcmd/revlib.c:50-107 | For every block size and range the output is the lines in reverse order, of the data with a lone last byte replaced. |
| RevLine.Rev | src/lib/libcmd/revlib.c:32-108 | The same for files and for inputs that cannot seek; fails exactly if such an input ends before the range. |
| Tail.StartMeans | src/lib/libcmd/tail.c:155-207 | The start is at the beginning of a record, and exactly the asked number of records follow, or all. |
| Tail.ScanFinds | src/lib/libcmd/tail.c:176-206 | Scanning backwards for delimiters finds that start, an unterminated last line counting as a line. |
| Tail.TailPos | src/lib/libcmd/tail.c:155-207 | The position is that start, for every block size. |
| Tail.BothAreTail | src/lib/libcmd/tail.c:246-260 | The end of the full file followed by the other file are the last records of the stream. |
| Tail.PipeTail | src/lib/libcmd/tail.c:213-263 | The two alternating files output exactly the last records that have their delimiter, for every length of the stream and what the files held before; these are the last records if and only if nothing is asked for or no unfinished record is at the end. |
| Tail.LastOfFinished | src/lib/libcmd/tail.c:213-263 | On a stream of finished records the output is the last of them. |
| Tail.FinishedIsTail | src/lib/libast/sfio/sfmove.c:47-67 | Leaving the unfinished record behind changes the result exactly if something is asked for and there is one. |
| Tail.UnfinishedIsLost | src/lib/libcmd/tail.c:229-238 | A single line without its newline is lost in a pipe. |
| Context.ListingMeans | src/lib/libcmd/context.c:71-77 | The listing has exactly the lines within reach of a match, each once, in increasing order, marked as matching exactly if they match, with a separator exactly at gaps. |
| Context.OnlyListing | src/lib/libcmd/context.c:71-77 | Nothing else satisfies that. |
| Context.Ring.constructor | src/lib/libcmd/context.c:42-58 | A new ring has seen no line and listed none. |
| Context.Ring.Line | src/lib/libcmd/context.c:60-82 | Going on to the next line completes the listing of all lines before it. |
| Context.Ring.Show | src/lib/libcmd/context.c:150-176 | A match lists the lines before it that were not listed, and marks those after it. |
| Context.Search | src/lib/libcmd/grep.c:496-511 | For every sequence of matches and every context, what is listed is the listing. |

## Left out

- Md5.Engine.Block: the compression function, which is that of RFC 1321 written out, is a parameter; a chunk and the bytes kept before it have less than 2^32 bytes, since with more the loop does not end, as in `Sha1.IndexStops`.
- The unrolled variant of the SHA-2 transforms, and big-endian hosts.
- Sha256.Engine.Done: the length is written as big-endian bytes at once, where the program swaps the bytes of the count and copies it.
- Sha512.Engine.Done: the length is written as big-endian bytes at once, where the program swaps the bytes of the two words and copies them.
- Session.Session: the manifest is not rebuilt and `buildreset` is not modelled; a run of the program that rebuilds its manifest is one session before another.
- BuildLoop.Run: dry runs are not modelled; exit status, start failures, load and whether outputs changed are arbitrary; processes, pipes and messages are left out. The number of polls is a parameter, since jobs may never end.
- Builder.Build.BuildAdd: the graph does not change while it is planned; that the recorded dependencies of an edge are missing or outdated is given by the set `stale`, and the change that loading dependencies makes to the graph is `GraphStore.Store.AddDeps`.
- Builder.Build.EdgeDone: response files are left out, commands are not hashed, and neither log is written; what is recorded for an output is in `Outdated`, on a graph that stays as it is during a build.
- BuildGraph.Use records at which input position an edge uses a node; the program stores the edge only, once for every position.
- Pools have a positive depth; `parse.c` also accepts a negative one.
- Parsing of manifests and evaluation of variables (`env.c`, `scan.c`) are left out; `GraphStore` starts from lists of nodes.
- TreeMap.Map.Insert: the size of the tree is required to be below 2^64, which the addresses of a machine ensure.
- HashTable.Table.constructor: the capacity is not zero, for which `mkhtab` makes a table that no lookup may be made in.
- HashTable.Table.Put: capacities do not overflow; keys are a string with its hash, and the hash function itself is left out.
- DepsLog.Init: errors of reading and writing files, the entries in memory after a rewrite, and parsing of dependency files of compilers are left out; nodes are identified with their paths.
- DepsLog.Replay: when a dependency record names an id that is out of range the program has already replaced the array of the entry, and the model keeps the old one; a path of only zero bytes, at which the program reads before its buffer, counts as bad.
- DepsReplay.WrittenLogReads: at most three bytes of a further record follow.
- DepsReplay.OrdinaryAppended: sizes for which left-over bytes can get past the checks are left out, exactly those of `DepsReplay.TornSize`; `DepsReplay.AppendedReads` has no such restriction.
- DepsLog.Log.RecordId: paths do not end with a zero byte.
- CanonPath.Canonicalise: the path has no zero bytes.
- Sha1.Engine.Block: a chunk and the bytes kept before it have less than 2^32 bytes; with more the loop does not end.
- Sha1.Digest: chunks have at most 2^32 - 64 bytes, for the same reason.
- Crc.Engine.constructor: the parsing of the name into options, with `strtoul`, is left out.
- Crc.CheckIsCksum: messages have fewer than 2^64 bytes, since the program's size wraps there.
- Wc.CountWords: UTF-8 and other multibyte branches and longest lines are left out.
- RevLine.Rev: failures to seek, read or write are left out.
- Tail.TailPos: files that cannot seek, and failures to reserve a block, are left out.
- Tail.PipeTail: `sfmove` is an exact operation on sequences, which leaves an unfinished record behind when it moves records.
- Context.Ring.Line: lines are abstract, so that the buffers (`drop`, `span`) are left out; a last line without a newline, which the program drops, is not part of the input, and the function that lists never stops the search. There are no calls after the end of the input.
