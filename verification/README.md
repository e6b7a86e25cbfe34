# A verified model of the repository's tools

The repository carries, beside its network simulator, a set of tools with real algorithms in them.
This project states in Dafny what those algorithms do and proves the properties they are there for.
`dafny verify dfyconfig.toml` verifies the whole project.

* **Dependency graphs** (`bindings/python/topsort.py`): the topological sort with its shrinking tables,
  the level-by-level generator and the enumerator of cycles, proved against walks, chains and cycles of
  the graph of (parent, child) pairs. `Walks` and `Cycles` hold the graph theory, `TopSort` and
  `FindCycles` the programs.
* **Test pool** (`test.py`): main, the worker threads, the two queues and the interrupt flag as a step
  relation in which any enabled step may come next (`TestPool`).
* **Small shell** (`waf-tools/shellcmd.py`): the token machine with its printer (`ShellSyntax`), the meaning
  of a pipeline and its comparison with POSIX (`ShellEval`), and the `Pipeline` object whose `parse` and
  `run` are proved against both, with a ledger of processes and files (`ShellPipeline`).
* **Configuration paths** (`utils/print-introspected-doxygen.cc`): the depth-first gathering of attribute
  paths with its two explicit stacks (`Gather`).
* **Unified diffs** (`utils/check-style.py`): writing patches and parsing them again (`PatchSet`).
* **Enumerations** (`bindings/python/rad_util.py`): permutations (`Permutations`), binary strings and the
  binary counter (`BinaryStrings`).
* **Resumable writer** (`examples/tcp/tcp-large-transfer.cc`): a periodic stream across partial and refused
  writes (`TransferStream`).

`Sequences` holds the little that all of them share. Local dictionaries and lists are `map` and `seq`
variables that the methods reassign; the objects whose methods update fields are the classes
`ShellPipeline.Pipeline`, `Gather.StaticInformation` and `TransferStream.Sender`; the binary counter works
on arrays in place.

Properties that turned out false of the code, with the exact condition under which they hold:

* The comments at `bindings/python/topsort.py:109-110` and `227-228` say that every leftover node has a
  child. What is left over is everything downstream of a cycle, and a node that merely hangs below a cycle
  need not have a child (`TopSort.LeftoverWithoutChild`). The comment is right exactly when everything
  downstream of a cycle also lies on or above one (`TopSort.SortLeftovers`, `TopSort.LevelLeftovers`). The
  conclusion drawn there, that there is a cycle, is always right.
* The pool comes to an end from every state exactly when it has a worker or no job (`TestPool.DeadlockFreeIff`).
* `parse` accepts a `cd` without a directory, or at the end, on which `run` fails: it comes to a status,
  whatever the commands return, exactly when each `cd` is ready (`ShellEval.AlwaysReturnsIff`). It leaves
  no process unwaited and no file open, whatever they return, exactly when the first `cd` that is not
  ready, if there is one, does not stand in a pipe chain (`ShellEval.AlwaysFinishesIff`).
* `run` nests && and || to the right, and after a `cd` that follows a pipe it goes on with the chain. On a
  parsed pipeline whose `cd`s are ready it agrees with the left-associative rule of POSIX.1-2017 for all
  results of the commands exactly when no `cd` follows a pipe and, after the first chain, the operators do
  not change (`ShellEval.AgreesWithPosixIff`); `a | cd d && b` is an input of the first kind
  (`ShellEval.PipedCdDeparts`). A `cd` is taken to succeed.
* A written patch set reads back as itself exactly when no name or text holds a newline, no position is
  negative, no removed line starts with "-- " and no added line with "++ " (`PatchSet.ComesBackIff`).
* `int2bin` refuses exactly the numbers that are too large only when it is given at least one digit; with
  none it refuses nothing (`BinaryStrings.ErrorMeansTooLargeIff`), and `binary_range(0)` is empty.

## Model

| member | source | states |
|---|---|---|
| Walks.DownstreamIffAllChains | bindings/python/topsort.py:108-111 | a node is on or below a cycle if and only if chains of parents of every length end in it |
| Walks.StarvedIsDownstream | bindings/python/topsort.py:108-111 | any set of nodes in which each has a parent in the set lies downstream of a cycle, which is why non-zero counts mean a cycle |
| Walks.LongestChainByNeighbours | bindings/python/topsort.py:203-212 | a node has depth k if and only if it ends a chain of k edges and none of k + 1 |
| TopSort.BuildTables | bindings/python/topsort.py:77-90 | both tables after the loop over the pairs: for each mentioned node the number of pairs that give it a parent, for each parent its children in order, repeats kept |
| TopSort.KeysWithoutParents | bindings/python/topsort.py:93 | exactly the keys with count zero, once each, in any order |
| TopSort.KnockDown | bindings/python/topsort.py:100-103 | every child loses one for each time it is listed, and exactly those that reach zero are appended, once |
| TopSort.FinishParent | bindings/python/topsort.py:98-106 | a parent leaves both tables and its children lose their counts; no lookup misses a key |
| TopSort.TopSort | bindings/python/topsort.py:61-112 | CycleError if and only if the pairs have a directed cycle; the order lists, once each and parents first, exactly the nodes not downstream of a cycle; the tables in the error hold exactly the others, each with a remaining parent |
| TopSort.LeftoversAreDownstream | bindings/python/topsort.py:108-111 | when no count is zero the remaining keys feed each other, so each is downstream of a cycle |
| TopSort.PositionBoundsChains | bindings/python/topsort.py:92-103 | in a parents-first order no chain into a node is longer than its position |
| TopSort.OrderAvoidsCycles | bindings/python/topsort.py:92-112 | a parents-first order holds no node downstream of a cycle |
| TopSort.SortLeftovers | bindings/python/topsort.py:108-111 | every node in the error of `topsort` has a child in its table if and only if everything downstream of a cycle lies on or above a cycle |
| TopSort.LevelLeftovers | bindings/python/topsort.py:226-229 | the same for the error of the level generator, for any consistent tables |
| TopSort.LeftoverWithoutChild | bindings/python/topsort.py:108-111 | an input on which the comment about children is false: for (a, a), (a, b) the node b is left over, has no child and reaches no cycle |
| Walks.FertileIsUpstream | bindings/python/topsort.py:108-111 | any set of nodes in which each has a child in the set lies on or above cycles |
| TopSort.TopSortLevels | bindings/python/topsort.py:157-172 | the levels of the graph the pairs describe: level k holds, once each, exactly the nodes whose longest chain of parents has k edges; an error exactly on a cycle, with the levels of the nodes without a cyclic ancestor offered first |
| TopSort.TopSortLevelsCore | bindings/python/topsort.py:203-232 | the same for any tables that count and list the same edges, whatever the order of the child lists |
| TopSort.NextLevel | bindings/python/topsort.py:203-224 | with k levels done, the keys with count zero are exactly the nodes of depth k |
| TopSort.LevelsDisjoint | bindings/python/topsort.py:203-224 | no node is offered in two levels |
| Cycles.CyclicIffElementary | bindings/python/topsort.py:235-245 | there is a closed walk if and only if there is an elementary cycle |
| Cycles.CycleRotates | bindings/python/topsort.py:241-245 | every rotation of an elementary cycle is one |
| Cycles.RotationTransitive | bindings/python/rad_util.py:735-775 | being a rotation is transitive |
| Cycles.RotationSymmetric | bindings/python/rad_util.py:735-775 | and symmetric, so that discarding duplicates leaves one cycle of each class |
| Cycles.RoundTheCycle | bindings/python/topsort.py:367-385 | a simple approach to a cycle and once round it is a simple path whose last edge closes the cycle |
| FindCycles.IsRotated | bindings/python/rad_util.py:735-775 | true if and only if one sequence is a rotation of the other |
| FindCycles.RecordCycle | bindings/python/topsort.py:369-378 | the cycle is represented afterwards and no two listed cycles are rotations of each other |
| FindCycles.Expand | bindings/python/topsort.py:362-385 | the popped path hands on its work to the stack: no simple path is missed, and what its extensions put on the stack is one less than the work of the popped path |
| FindCycles.PopStack | bindings/python/topsort.py:352-355 | popping takes exactly the popped path's work off the stack, and leaves only that path's extensions to be pushed |
| FindCycles.SearchFrom | bindings/python/topsort.py:351-385 | the search from one root finds every elementary cycle the root reaches, and ends after exactly as many pops as the root's work, which each pop lowers by one |
| FindCycles.FindCycles | bindings/python/topsort.py:343-385 | run to its end it yields only elementary cycles, every one of them up to rotation, and no two that are rotations of each other |
| FindCycles.ClosedPathsCover | bindings/python/topsort.py:351-378 | closing every simple path from a root finds every elementary cycle the root reaches |
| FindCycles.CoverPassesOn | bindings/python/topsort.py:346-349 | what a root covers, every node it reaches covers, so skipping visited roots loses nothing |
| FindCycles.EverythingFound | bindings/python/topsort.py:346-385 | covering the keys finds every elementary cycle of the graph |
| FindCycles.CycleErrorIffCycleFound | bindings/python/topsort.py:108-111 | the sort fails on exactly the graphs in which the enumerator finds a cycle |
| FindCycles.TablesKeepEdges | bindings/python/topsort.py:77-90 | the child lists the sort builds describe the edges of its pairs |
| TestPool.InvStep | test.py:965-1033 | every step of main, a worker or the interrupt keeps the invariant |
| TestPool.InvReachable | test.py:965-1033 | every state of every run, under any interleaving, satisfies it |
| TestPool.EachJobInOnePlace | test.py:1421-1460 | each job dispatched so far is in exactly one place: input queue, one worker, output queue or collected |
| TestPool.InputIsPristine | test.py:979-982 | the input queue only ever holds jobs as main made them; a job handed back as a break never re-enters it |
| TestPool.NoExitBeforeLastTest | test.py:967-973 | once a worker has left, no test is waiting in the input queue |
| TestPool.MeasureDecreases | test.py:965-1033 | each step lowers a natural number |
| TestPool.RunsAreBounded | test.py:1667-1690 | n tests and p workers: no run is longer than 6n + 7p + 6 steps |
| TestPool.NoNewCommand | test.py:979-982 | once interrupted, each step ends a command that is under way or leaves their number alone or lower; none is started |
| TestPool.InterruptBoundsCommands | test.py:572-577 | after an interrupt at most one command for each worker still returns, however the run goes on |
| TestPool.NoDeadlock | test.py:1399-1402 | with a worker, or nothing to do, every state before the end has a step other than an interrupt |
| TestPool.DeadlockFreeIff | test.py:1382-1402 | no reachable state is stuck before the end if and only if there is a worker or there is no job |
| TestPool.CanAlwaysFinish | test.py:1667-1690 | from every reachable state the pool can be driven to its end |
| TestPool.AtTheEnd | test.py:1828-1829 | at the end each test has been collected exactly once, both queues are empty and every worker has left on one break job of its own |
| TestPool.CountResults | test.py:1682-1718 | the counters of the collection loop are the tally of the results that arrived, and each is the number of results of its kind: skips, and of the others those with code 0, 1, 2 or any other |
| TestPool.TallyCountsKinds | test.py:1699-1718 | for every list of results: passed, failed, valgrind and crashed are the numbers of positions without break and skip and with code 0, 1, 2 and any other, skipped those of skips |
| TestPool.FinalTallyCountsKinds | test.py:1682-1718 | so it is for the final tally of every run |
| TestPool.UndisturbedCounts | test.py:1682-1718 | without an interrupt the final counters are the numbers of tests that skip or whose command returns 0, 1, 2 or any other code |
| TestPool.TallyOfAnyOrder | test.py:1682-1718 | undisturbed results give the same counters in whatever order they arrive |
| TestPool.ScheduleDoesNotMatter | test.py:1682-1718 | without an interrupt the counters equal those of a sequential run, and their sum is the number of tests |
| TestPool.ShortfallIsBreaks | test.py:1689-1692 | with an interrupt they fall short by exactly the jobs returned as breaks |
| TestPool.BreaksAreUntouched | test.py:979-992 | a test is collected as a break if and only if no worker had looked at it when the interrupt came, be it a skip or not |
| TestPool.ShortfallIsUntouched | test.py:979-982 | the counters fall short by exactly the tests nobody had looked at when the interrupt came |
| TestPool.ExitCodeZeroIff | test.py:1913-1916 | the exit code is 0 if and only if every dispatched test was collected as PASS or SKIP |
| ShellSyntax.ParseInvertsPrint | waf-tools/shellcmd.py:121-201 | parsing the canonical tokens of any well-formed pipeline gives the pipeline back |
| ShellSyntax.ParsedIsWellFormed | waf-tools/shellcmd.py:121-201 | whatever is accepted alternates operands and operators, with output into a pipe if and only if a pipe follows, and only && after a `cd` |
| ShellSyntax.ParseRange | waf-tools/shellcmd.py:121-201 | the pipelines some tokens parse to are exactly the well-formed ones |
| ShellSyntax.SetEnvKeepsOk | waf-tools/shellcmd.py:138-140 | setting a variable keeps names unique and changes the keys by that name only |
| ShellSyntax.SetEnvSets | waf-tools/shellcmd.py:138-140 | the set name has the new value in its old place, or comes last; every other name keeps place and value |
| ShellSyntax.LaterValueCounts | waf-tools/shellcmd.py:138-140 | of two values given to one name before a command the later one counts |
| ShellSyntax.MatchEnvIff | waf-tools/shellcmd.py:24 | a word sets a variable if and only if it is NAME=VALUE, with or without a final newline |
| ShellSyntax.EnvWordMatches | waf-tools/shellcmd.py:24 | NAME=VALUE matches the pattern with exactly its two groups, even when the value holds more equals signs |
| ShellSyntax.RedirectionWords | waf-tools/shellcmd.py:154-162 | what `<`, `>`, `2>` and `2>&1` do to a command |
| ShellSyntax.OperatorWords | waf-tools/shellcmd.py:163-176 | which operator `\|`, `&&` and `\|\|` put after a command |
| ShellSyntax.CdWords | waf-tools/shellcmd.py:144-147 | `cd` takes one directory and is ended by && only; any further word fails |
| ShellSyntax.SecondRedirectionFails | waf-tools/shellcmd.py:158-199 | no stream is redirected twice, and output does not go to a file and a pipe |
| ShellEval.AlwaysReturnsIff | waf-tools/shellcmd.py:225-231 | a parsed pipeline comes to a status, whatever its commands return, if and only if each `cd` names a directory and is not last |
| ShellEval.AlwaysFinishesIff | waf-tools/shellcmd.py:225-231 | a parsed pipeline never leaves a chain that nobody waits for if and only if the first `cd` that is not ready, if any, is not in a chain |
| ShellEval.WhyItFails | waf-tools/shellcmd.py:225-231 | a run of a parsed pipeline that comes to no status stops with IndexError only when the pipeline ends in a `cd`, and with TypeError only when a `cd` before the end has no directory |
| ShellEval.JoinGoesOn | waf-tools/shellcmd.py:228 | an absolute directory starts afresh, any other is entered from the one before, after exactly one slash |
| ShellEval.JoinAssociates | waf-tools/shellcmd.py:228 | entering one directory after the other is entering the joined one |
| ShellEval.EvalStartsInOrder | waf-tools/shellcmd.py:242-291 | whatever a run starts stands for commands at increasing places of the pipeline, each with that command's words, variables, outputs and errors, reading from a pipe, its file or the parent by the nodes before it, in the directory the `cd`s before it join to |
| ShellEval.EvalIsRightNested | waf-tools/shellcmd.py:293-346 | for every list of chains and `cd`s, the commands started and the status are those of the right-nested tree of && and \|\|, each chain having the status of its last command |
| ShellEval.RunIsRightNested | waf-tools/shellcmd.py:214-346 | the same for every parsed pipeline whose `cd`s are ready, a `cd` after a pipe included |
| ShellEval.GroupUngroups | waf-tools/shellcmd.py:164-201 | in either reading, such a pipeline is the node list of exactly the list of chains it is grouped into |
| ShellEval.AgreesWithPosixIff | waf-tools/shellcmd.py:242-346 | for every parsed pipeline whose `cd`s are ready: running agrees with the left-associative reading for all results of the commands if and only if no `cd` follows a pipe and the list is aligned |
| ShellEval.PipedCdDeparts | waf-tools/shellcmd.py:225-243 | for `a \| cd d && b`, aligned as it is, the run starts b in d reading from a, and POSIX in the old directory reading from the parent |
| ShellEval.UniformIsAligned | waf-tools/shellcmd.py:306-346 | lists with only && or only \|\| are aligned |
| ShellPipeline.Pipeline.Parse | waf-tools/shellcmd.py:121-201 | the fields after parsing are those the token machine reaches, also when an assertion fails |
| ShellPipeline.Pipeline.ReadToken | waf-tools/shellcmd.py:134-199 | one turn of the token loop is one step of the machine |
| ShellPipeline.Pipeline.CommitCommand | waf-tools/shellcmd.py:101-104 | moves the current command to the pipeline, or fails and changes nothing |
| ShellPipeline.Pipeline.Run | waf-tools/shellcmd.py:214-346 | for every pipeline the processes started and the outcome are those of the evaluator; each process stands for a command node, at increasing places, with exactly that node's words, variables and redirections, its pipe and its directory; each file is opened once for each use a process has for it; on a parsed pipeline the log is settled if and only if the run does not break off inside a chain, and so whenever it returns a status or no chain can be broken off |
| ShellPipeline.WaitForAll | waf-tools/shellcmd.py:204-206 | waits for the processes first to last and collects what each returns |
| ShellPipeline.ExecPipedCommands | waf-tools/shellcmd.py:203-212 | waits for every process of the chain, first to last, and returns the code of the last |
| ShellPipeline.Connect | waf-tools/shellcmd.py:306-346 | a pipe prolongs the chain; && and \|\| finish it, close its files and stop the run exactly on the status they do |
| ShellPipeline.StartCommand | waf-tools/shellcmd.py:242-291 | opens exactly the files of the command and starts it with all its words, variables and redirections, the pipe if there is one, and the directory |
| ShellPipeline.FilesAreOpenedFor | waf-tools/shellcmd.py:242-273 | a name is opened as often as started processes read from it, write to it or send errors to it, the null device never for writing |
| ShellPipeline.LedgerCounts | waf-tools/shellcmd.py:203-206 | in any log without violation a process is started at most once and waited for exactly once when it has left the ledger |
| ShellPipeline.LedgerCountsFiles | waf-tools/shellcmd.py:296-305 | the same for files opened and closed |
| ShellPipeline.SettledMeansOnce | waf-tools/shellcmd.py:296-305 | in a settled log each started process is waited for exactly once and each opened file closed exactly once |
| Gather.StaticInformation.DoGather | utils/print-introspected-doxygen.cc:1185-1269 | ends, appends one report for each listed itinerary, and leaves both stacks as they were |
| Gather.StaticInformation.Enter | utils/print-introspected-doxygen.cc:1214-1218 | the stacks are pushed for the time of the inner call only |
| Gather.StaticInformation.Gather | utils/print-introspected-doxygen.cc:1176-1182 | as `DoGather`: making a copy unique leaves the output alone |
| Gather.StaticInformation.GetCurrentPath | utils/print-introspected-doxygen.cc:1091-1102 | the items of the path, each after a slash |
| Gather.StaticInformation.HasAlreadyBeenProcessed | utils/print-introspected-doxygen.cc:1113-1125 | true if and only if the type is on the stack |
| Gather.StaticInformation.Get | utils/print-introspected-doxygen.cc:1128-1141 | the paths reported for a type, in order |
| Gather.PathsToInOrder | utils/print-introspected-doxygen.cc:1128-1141 | the paths to a type are the texts reported for it, all of them and in order |
| Gather.EdgeIff | utils/print-introspected-doxygen.cc:1195-1268 | an edge leaves a type if and only if it is that of a pointer attribute whose pointee is not the object type, of a container attribute under its name and "/[i]", of a registered child under "$" and its name, or of an aggregation to the other side under "$" and its name |
| Gather.EdgesByOrigin | utils/print-introspected-doxygen.cc:1195-1268 | the edges come in order: attributes, then registered types, then aggregations, each by number, and none is left out or repeated |
| Gather.StepAt | utils/print-introspected-doxygen.cc:1214-1216 | the labels and stops of an itinerary are the names and targets of the edges it numbers |
| Gather.PathTextAt | utils/print-introspected-doxygen.cc:1091-1102 | the text of a path is each label after a slash, and nothing else |
| Gather.ListingIsExact | utils/print-introspected-doxygen.cc:1185-1269 | an itinerary is listed if and only if it follows edges, stops at no type twice and at none already processed |
| Gather.ListingInOrder | utils/print-introspected-doxygen.cc:1185-1269 | the listing is in strict depth-first preorder, so nothing is listed twice |
| Gather.ListingIsTheOrderedList | utils/print-introspected-doxygen.cc:1185-1269 | a list is the listing if and only if it holds exactly the simple itineraries in that order |
| Gather.PathsAreSimpleItineraries | utils/print-introspected-doxygen.cc:1128-1141 | from empty stacks, a text is among the paths to a type if and only if some simple itinerary spells it and ends there |
| Gather.EveryReachableTypeIsListed | utils/print-introspected-doxygen.cc:1185-1269 | a type can be reached from the root at all if and only if some listed itinerary ends in it |
| PatchSet.ComesBackIff | utils/check-style.py:359-403 | parsing what was written gives the same patches if and only if they are plain and no line is misleading |
| PatchSet.HeaderComesBack | utils/check-style.py:286-295 | the header's four numbers, positions and line counts, are read back exactly when the positions are not negative |
| PatchSet.HeaderCounts | utils/check-style.py:274-293 | the second and fourth number of a written header are the numbers of positions whose kind is source or both, and destination or both |
| PatchSet.WrittenPatch | utils/check-style.py:204-215 | what a written patch looks like, on an example with a line of every kind |
| PatchSet.ParseFailsIff | utils/check-style.py:367-402 | parsing raises if and only if some line fits no pattern, names a file or starts a chunk before any patch, or is content before any chunk |
| PatchSet.FeedAllHasSeen | utils/check-style.py:367-402 | there are as many patches as names, and content goes to the patch that was current when the last chunk started, even after a later name |
| PatchSet.FeedPatches | utils/check-style.py:348-403 | the parser turns the lines of written patches back into these patches, whatever it has read before |
| PatchSet.FeedAllCounts | utils/check-style.py:367-402 | in a successful parse the patches gain exactly as many lines as lines read as content |
| PatchSet.PatchLinesCount | utils/check-style.py:204-217 | written patches have at most as many content lines as they hold, and as many only when none is misleading |
| PatchSet.FeedAllStaysPlain | utils/check-style.py:367-402 | no parse ever yields a newline in a name or text, or a negative position |
| PatchSet.SrcLines | utils/check-style.py:254-263 | exactly the lines at positions whose kind is source or both, in order |
| PatchSet.DstLines | utils/check-style.py:264-273 | exactly the lines at positions whose kind is destination or both, in order |
| PatchSet.WriteChunk | utils/check-style.py:286-295 | appends the header and the lines; read back, the header tells the positions and the numbers of lines of kind source or both, and destination or both |
| PatchSet.WritePatch | utils/check-style.py:348-357 | appends both names and every chunk |
| PatchSet.ParsePatchset | utils/check-style.py:359-403 | the loop computes the parse, exceptions included |
| Permutations.PermsAreAll | bindings/python/rad_util.py:310-326 | a list occurs if and only if it has the same items as often |
| Permutations.PermsCount | bindings/python/rad_util.py:310-326 | n items give n! lists |
| Permutations.PermsDistinctIff | bindings/python/rad_util.py:310-326 | no list occurs twice if and only if no item does |
| Permutations.AllPermutations | bindings/python/rad_util.py:293-326 | the two nested loops compute that list of lists |
| BinaryStrings.Int2BinIsExact | bindings/python/rad_util.py:74-105 | for n >= 1 the error is raised if and only if i >= 2^n, and otherwise the result has n binary digits and `bin2int` gives i back |
| BinaryStrings.ErrorMeansTooLargeIff | bindings/python/rad_util.py:99-105 | the error means "too large" for every number if and only if n >= 1 |
| BinaryStrings.ReversedIsInt2Bin | bindings/python/rad_util.py:642-647 | the reversed counter is the number it holds as written by `int2bin` |
| BinaryStrings.AddOne | bindings/python/rad_util.py:649-659 | the carry loop adds one in place, and signals an overflow exactly when every digit was one |
| BinaryStrings.BinaryRange | bindings/python/rad_util.py:632-660 | ends with 2^bits strings, the k-th equal to `int2bin(k, bits)`; with none for bits = 0 |
| TransferStream.Sender.constructor | examples/tcp/tcp-large-transfer.cc:81-86 | the buffer spells the alphabet over and over |
| TransferStream.AlphabetGoesRound | examples/tcp/tcp-large-transfer.cc:82-86 | the letters run from a to z and start again |
| TransferStream.Offer | examples/tcp/tcp-large-transfer.cc:202-206 | the offer is exactly the least of the three amounts and stays inside the buffer |
| TransferStream.Sender.Send | examples/tcp/tcp-large-transfer.cc:202-207 | every read of the buffer is in bounds, and the bytes taken are the next ones of the stream |
| TransferStream.Sender.WriteUntilBufferFull | examples/tcp/tcp-large-transfer.cc:198-216 | over any sequence of calls with any free space and any partial or refused sends the bytes accepted are exactly the first `currentTxBytes` letters of the stream, never more than the total; the write of each turn is exactly the least of the rest of the window, the bytes left and the space of that turn, and the count reached is the start plus what the socket took of these offers |
| TransferStream.SeamlessIff | examples/tcp/tcp-large-transfer.cc:50-53 | a buffer read round and round gives a seamless stream if and only if its width is a multiple of 26 or it is never read round |

## Left out

- The Raft code advertised in the repository's own introduction is not part of this model.
- Launching and killing processes, files, reports, option parsing, `run_job_synchronously`: a test's return code and a command's exit code are given beforehand, in the order the processes are started.
- Generators are methods that return everything yielded, and how they ended; the order of a dictionary's keys is left open.
- FindCycles.IsRotated: requires a non-empty second sequence when both lengths agree, because the source raises IndexError on two empty sequences.
- TestPool: a Job is a value in the place it is held, so that aliasing of one Job object by two threads is not modelled; that each job is in one place is what is proved. Spawning fails in no run, and commands end.
- TestPool.RunsAreBounded: counts a command as one step, so that how long commands take is not modelled.
- Splitting a string into tokens is not part of this model; `Pipeline.Parse` starts from tokens.
- White space in an environment value means what it means in a Python 3 text string, beyond ASCII too; byte strings of Python 2 are not modelled.
- Verbose output of `run`, which reads a variable before it is set, and `get_abbreviated_command`, which never prints `||`.
- Exceptions from opening files or starting processes in the middle of a run, and the parent's own ends of pipes, which the source never closes.
- ShellEval.AgreesWithPosixIff: compares runs that come to a status; what a shell does with a `cd` that has no directory or fails is not modelled, because `run` never looks at the directory itself.
- TopSort.TopSortLevelsCore: requires tables that describe the same edges, as its documentation asks of callers; what the loop does with counts that disagree with the child lists is not modelled.
- Gather: the type registry is given, with the set of ancestors of each type; the walk up the parents in `IsChildOf` is not modelled. Attributes whose checker is neither a pointer nor a container are `Plain`.
- Gather: `RecordAggregationInfo`, `GetNoTypeIds` and `Print`; the aggregations are given to the constructor.
- PatchSet: patches, chunks and lines are values and not objects, so that a line shared by two chunks is not modelled; lines without a kind, which `write` refuses, do not occur. Lines end at newlines only. `remove_trailing_whitespace_changes` and the external tools are left out.
- BinaryStrings.Int2BinIsExact: negative numbers, for which the source raises KeyError, are not modelled; nor are the other notations `int(s, 2)` reads.
- Permutations: lists are values, so that the list returned unchanged for at most one item is not shared with the argument.
- TransferStream.Sender.WriteUntilBufferFull: a socket takes at least one byte of a write or refuses it; widths of integers are not modelled because no value exceeds the total.
- The floating-point helpers of `rad_util.py`, `grid.py`, the simulator scripts and the binding generators.
