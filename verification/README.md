# Verified models of the repository's self-contained components

Besides the simulation scripts, the repository holds a number of small programs whose logic is
complete in itself. This project models them in Dafny, in the form the programs have (objects
with methods where state is updated, a state machine where threads share queues), and proves
what they promise, for all inputs and all runs.

| files | component |
|---|---|
| `Csv.dfy`, `CsvRoundTrip.dfy`, `CsvParser.dfy` | the buffered CSV parser and its row iterator |
| `WorkerPool.dfy`, `WorkerPoolResults.dfy`, `WorkerPoolTallies.dfy`, `WorkerPoolOrder.dfy`, `WorkerPoolInterrupt.dfy` | the worker threads of the test runner |
| `Reachability.dfy`, `Graph.dfy`, `Topology.dfy` | BRITE's graph, depth-first search and classification |
| `ConfigPaths.dfy`, `PathGatherer.dfy`, `ConfigEdges.dfy` | the gatherer of configuration paths |
| `ShellPipeline.dfy`, `ShellEvaluation.dfy`, `ShellRunner.dfy`, `ShellLaunches.dfy`, `ShellComparison.dfy` | the shell pipeline parser and runner |
| `PatchSets.dfy`, `PatchForms.dfy`, `PatchFiles.dfy` | unified diffs: writing and parsing |
| `Seeds.dfy` | BRITE's seed files: printing and parsing |
| `ListSort.dfy`, `Sorting.dfy` | bucket sort and binary search |
| `Timelines.dfy` | time line slices of the grid viewer |
| `Decimal.dfy`, `Options.dfy`, `Sequences.dfy` | shared by the others |

**CSV.** `Csv` reads a whole text without a buffer. `CsvParser.Parser` is the parser with its
refilled buffer, of any capacity from one character up; each of its calls does exactly what the
unbuffered reader does. Characters are signed bytes because the value that stands for "any line
end" is itself the character -2. `CsvRoundTrip` writes rows as section 2 of RFC 4180 has it, with
every cell quoted, bare, or with more behind its closing quote, and proves what reading gives
back: all of it if every cell is quoted and every row ended, and otherwise all but a bare empty
cell at the end of a row, and, without a line end after the last row, all but an empty cell at
the very end.

**Worker pool.** The state has the main thread's place in its loops, each worker's place, both
queues, the interrupt flag and the tallies. Every interleaving is a run of `Next`. Proved: an
invariant of all runs, that no state is stuck before the end, that each run is finite, what a run
that can go on no further has done, and that without an interrupt the order of the steps makes no
difference to the tallies and the return value. After an interrupt at most one more test is run by
each worker, and exactly the tests that were undecided when it came come back as interrupted.

**Graph and topology.** Depth-first search is the recursive method over the two arrays of
colours and parents. It finds exactly the nodes reachable through white nodes, leaves a tree of
parents behind, and so `IsConnected` decides reachability. The four passes of `Classify` are
four methods; together they give each node and edge the role of a declarative description.

**Configuration paths.** A walk in the type graph is a list of edge numbers. The recursive
search with its two stacks appends exactly one entry for each walk that comes through no type
twice, in lexicographic order, and puts both stacks back.

**Shell pipelines.** The token state machine is proved to accept exactly the token lists that
spell a command line of a given grammar (with one oddity: a redirection operator that is the
last token is dropped), and to give the nodes that the line means. Running the nodes evaluates
the chain they stand for, from the right, stopping at a short circuit; every process started is
waited for and every file opened is closed, once, unless an exception is raised; no exit codes
can lead to one exactly when no `cd` is at the end of the line or without a directory.

`ShellComparison` says what the POSIX shell does with the same line: it reads `&&` and `||` from
the left, takes a `cd` for a command like any other, gives a `cd` in a pipe an environment of its
own, connects pipes first and then performs redirections from the left, and opens files in the
directory it is in. Run and shell start the same processes in the same way, open the same files in
the same order and return the same status, whatever the commands return, exactly when all of the
following hold:

- no `cd` is at the end, without a directory or right after a pipe;
- no `&&` stands after an `||`, and no `||` after an `&&` that follows a command;
- no command after a pipe has an input file;
- each command names its input, output and error files in this order, outputs to the null device
  aside, and does not send errors to the output before that is redirected;
- no output file is called `NUL:`;
- each command is run where the program thinks the `cd`s lead, and its files, outputs to the null
  device aside, have the same names there as in the program's own directory.

So `a || b && c` and `a || cd d && b` go different ways if `a` succeeds, `a | b < f`,
`a 2>&1 > f` and, where `f` is another file in `d`, `cd d && a > f` always do, and
`cd d && a || b` goes the same way if the `cd` leads where the program thinks. The comparison is
of lines whose words are quoted, so that none is an operator, reserved or expanded, whose commands
other than `cd` are programs that can be started, and whose files and directories can be opened
and entered; which words are assignments is the parser's word, and where a `cd` leads (be it
`cd -`) is a parameter. A line with a redirection operator left over at its end, which the parser
drops, is refused by the shell.

**Patches and seeds.** Two print/parse pairs. A patch set is read back as it was exactly when it
has no removed line beginning with `-- ` and no added line beginning with `++ `; a set that was
parsed from a file never has. All eighteen seeds come back from a seed file whatever they are.

**Sorting and slices.** Bucket sort sorts in place, with every bucket and every write in bounds
exactly because the numbers lie in [0, 1). A window of a time line selects the ranges it meets;
it is exact when no range lies beyond an end of the window that falls in a gap.

Where code and comments disagree the code is followed. The sort of a time line is that of
Python 2, which takes a comparison function. The null-device file is shared by all commands and
never closed.

## Model

| member | source | states |
|---|---|---|
| Csv.Next | 3rd-party/csv-parser/parser.hpp:117-212 | one call never gives characters back, and the end of the input is for ever: after it the state is empty and every call gives it again |
| Csv.ScanConsumes | 3rd-party/csv-parser/parser.hpp:125-212 | with characters left, reading a field consumes at least one |
| Csv.NextDecreasesMeasure | 3rd-party/csv-parser/parser.hpp:117-135 | twice the characters left plus the rank of the state falls on every call until the end of the input |
| Csv.Events | 3rd-party/csv-parser/parser.hpp:117-135 | calling again and again ends with exactly one end of input |
| Csv.RowsAfterStep | 3rd-party/csv-parser/parser.hpp:310-336 | the rows of a text follow from one call and the rows of what is left |
| Csv.RowsAfterRow | 3rd-party/csv-parser/parser.hpp:310-336 | one advance of the iterator takes one row off the rows of the text, and a last row without end exists exactly when it has a field |
| CsvRoundTrip.ScanDoubled | 3rd-party/csv-parser/parser.hpp:173-202 | inside quotes a text whose quotes are doubled is read as the text itself, whatever it holds |
| CsvRoundTrip.ScanCell | 3rd-party/csv-parser/parser.hpp:137-202 | a written cell, bare, quoted, or with more behind its closing quote, is collected as its text |
| CsvRoundTrip.LineEndSkipped | 3rd-party/csv-parser/parser.hpp:213-227 | each of the line ends CR, LF, CR LF or the chosen terminator is taken as one end |
| CsvRoundTrip.TerminatedLine | 3rd-party/csv-parser/parser.hpp:137-206 | a written row and its line end are read as the row's texts, but for a bare empty cell at its end |
| CsvRoundTrip.LastLine | 3rd-party/csv-parser/parser.hpp:128-133 | what a last row without line end is read as: an empty cell at its end is lost even if quoted |
| CsvRoundTrip.ReadFile | 3rd-party/csv-parser/parser.hpp:117-227 | the rows of any written file, for every choice of such cells, with or without a last line end |
| CsvRoundTrip.RoundTrip | 3rd-party/csv-parser/parser.hpp:117-227 | rows written with every cell quoted and every row ended are read back exactly, empty rows and empty cells included |
| CsvRoundTrip.RoundTripWithoutLastLineEnd | 3rd-party/csv-parser/parser.hpp:128-133 | without the last line end they are read back exactly when the last row has a cell and does not end in an empty one |
| CsvRoundTrip.MixedRoundTrip | 3rd-party/csv-parser/parser.hpp:138-148 | rows of bare and quoted cells are read back exactly when no row ends in a bare empty cell |
| CsvRoundTrip.BareEmptyIsLost | 3rd-party/csv-parser/parser.hpp:138-143 | a row of a cell and a bare empty one is read back as the one cell |
| CsvRoundTrip.LastEmptyIsLost | 3rd-party/csv-parser/parser.hpp:128-133 | a quoted empty cell alone, without a line end, is read back as no row |
| CsvRoundTrip.UnclosedQuotes | 3rd-party/csv-parser/parser.hpp:128-133 | quotes that are never closed end with the input, and the text in them is the last cell |
| CsvRoundTrip.Precedence | 3rd-party/csv-parser/parser.hpp:137-202 | when the special characters are not distinct: a line end comes first outside quotes, then a quote at the start of a cell and behind a quote, and a delimiter inside a cell |
| CsvParser.Parser.constructor | 3rd-party/csv-parser/parser.hpp:52-83 | the buffer begins as if fully read, so that the position is 0 and all of the input is still to come |
| CsvParser.Parser.SetQuote | 3rd-party/csv-parser/parser.hpp:85-89 | only the quote character changes |
| CsvParser.Parser.SetDelimiter | 3rd-party/csv-parser/parser.hpp:91-95 | only the delimiter changes |
| CsvParser.Parser.SetTerminator | 3rd-party/csv-parser/parser.hpp:97-101 | only the terminator changes |
| CsvParser.Parser.TopToken | 3rd-party/csv-parser/parser.hpp:229-258 | gives the next character of the input exactly when there is one, refilling where needed, and consumes nothing |
| CsvParser.Parser.HandleCrlf | 3rd-party/csv-parser/parser.hpp:218-227 | skips the LF after a CR, also when a refill lies between the two |
| CsvParser.Parser.AtStartOfField | 3rd-party/csv-parser/parser.hpp:138-154 | on one character at the start of a field the buffered parser does what the state machine does, result, state and input left |
| CsvParser.Parser.InsideField | 3rd-party/csv-parser/parser.hpp:156-171 | the same inside a field |
| CsvParser.Parser.InsideQuotes | 3rd-party/csv-parser/parser.hpp:173-181 | the same inside quotes |
| CsvParser.Parser.AfterQuote | 3rd-party/csv-parser/parser.hpp:183-202 | the same after a quote inside quotes |
| CsvParser.Parser.NextField | 3rd-party/csv-parser/parser.hpp:109-212 | for every capacity the result, the state and the input left are those of the unbuffered reader, and the position is the number of characters consumed |
| CsvParser.ReadAll | 3rd-party/csv-parser/parser.hpp:117-258 | the whole stream of results is that of the unbuffered reader on the whole input, for every capacity and input length |
| CsvParser.Iterator.Begin | 3rd-party/csv-parser/parser.hpp:270-276 | the iterator begins at the first row |
| CsvParser.Iterator.Store | 3rd-party/csv-parser/parser.hpp:327-333 | the cell takes the place of one of an earlier row, or is added |
| CsvParser.Iterator.Next | 3rd-party/csv-parser/parser.hpp:310-336 | the row is exactly the fields up to the next end, with nothing of an earlier longer row, and the row number is -1 exactly at the end of the input |
| CsvParser.CollectRows | 3rd-party/csv-parser/parser.hpp:262-340 | going from begin to end gives all rows: the groups of fields between row ends, and a last group without end iff it has a field |
| CsvParser.ReadBack | 3rd-party/csv-parser/parser.hpp:117-340 | writing rows with the default settings and iterating the buffered parser over the text returns exactly those rows, for every capacity |
| WorkerPool.InitInv | test.py:1360-1366 | the pool's invariant holds at the start |
| WorkerPool.ConservedStep | test.py:929-997 | no step loses, doubles or invents a job: each dispatched job stays in exactly one place |
| WorkerPool.PoisonLastStep | test.py:1622-1629 | no step puts a test behind a poison job in the input queue |
| WorkerPool.CountedStep | test.py:929-997 | as many jobs are in the queues, in workers' hands and collected, all together, as were dispatched |
| WorkerPool.MainOkMain | test.py:1360-1787 | every step of the main thread keeps its place in range, the tallies the counts of what was collected, and the workers joined so far gone |
| WorkerPool.MainOkWorker | test.py:929-997 | so does every step of a worker and an interrupt |
| WorkerPool.StepInv | test.py:929-997 | every step of any thread, and an interrupt at any moment, keeps the invariant |
| WorkerPool.RunInv | test.py:929-997 | the invariant holds in every state of every run |
| WorkerPool.RunSafe | test.py:929-997 | in every state of every run each dispatched test is in exactly one of input queue, a worker's hands, output queue and collected; and once a worker has left, no test is in the input queue |
| WorkerPool.CollectingProgress | test.py:1648-1651 | while main waits for a result some worker can go on |
| WorkerPool.JoiningProgress | test.py:1786-1787 | while main waits for a worker to end, that worker can go on or has left |
| WorkerPool.NoDeadlock | test.py:929-1787 | with at least one worker, every state of a run but the finished one has a step other than an interrupt |
| WorkerPool.StepDecreases | test.py:929-997 | every step brings the end nearer by a fixed measure |
| WorkerPool.RunsAreFinite | test.py:929-1787 | no run has more than 6 steps a test, 8 a worker and 5 more |
| WorkerPool.CountSums | test.py:1648-1677 | the tallies and the interrupted jobs add up to the jobs collected, and passed plus skipped are all of them iff each passed or was skipped |
| WorkerPool.MaximalRun | test.py:1641-1868 | a run that can go on no further has empty queues, every worker gone with exactly one poison job, every test collected once, tallies and interrupted tests adding up to all; it returns 0 exactly when each test was collected as passed or skipped; without an interrupt none is missing |
| WorkerPoolResults.RunExact | test.py:929-997 | when each test has a return code of its own, every job that comes back has the result of its test or was interrupted |
| WorkerPoolResults.CountInAnyOrder | test.py:1648-1677 | the results of all tests, each once, make the same tallies in any order |
| WorkerPoolResults.SameInAnyOrder | test.py:929-1868 | every uninterrupted run that can go on no further has the tallies of the tests one after the other, whatever the order of steps, and returns 0 iff each test is skipped or has code 0; an interrupted one returns 0 only then |
| WorkerPoolTallies.CountIsPlaces | test.py:1648-1677 | each tally is the number of jobs that were skipped, or were run and returned 0, 1, 2 or anything else; jobs with the break mark are in none |
| WorkerPoolTallies.TalliesOfCollected | test.py:1641-1677 | in every state of every run the tallies are these numbers of the collected jobs |
| WorkerPoolTallies.TalliesOfTests | test.py:1641-1677 | at the end of an uninterrupted run skipped is the number of tests to be skipped, and passed, failed, valgrind and crashed are the numbers of the others whose code is 0, 1, 2 and anything else |
| WorkerPoolOrder.TakenInOrder | test.py:929-936 | workers take the tests in the order in which they were dispatched, and poison only after all of them |
| WorkerPoolOrder.CollectedInOrder | test.py:1648-1651 | results are collected in the order in which workers report them |
| WorkerPoolInterrupt.StepAfterInterrupt | test.py:944-951 | once the interrupt flag is set it stays set, no worker decides to run a test, and running one uses up such a decision |
| WorkerPoolInterrupt.InterruptStopsWork | test.py:1632-1637 | after an interrupt a run runs no more tests than workers had decided to run one then, so at most one a worker |
| WorkerPoolInterrupt.DecidedByInterrupt | test.py:936-962 | when an interrupt comes, each test is either undecided (not dispatched, queued or just taken) or decided on, and is nowhere else |
| WorkerPoolInterrupt.InterruptedTests | test.py:936-962 | a test comes back as interrupted iff it was undecided when the interrupt came, skipped ones included; the others come back with their results |
| Reachability.ReachesTransitive | 3rd-party/brite/Topology.cc:67-87 | reachability is transitive |
| Reachability.ReachesSymmetric | 3rd-party/brite/Topology.cc:67-87 | in a symmetric graph it is symmetric |
| Reachability.ExploredIsReachable | 3rd-party/brite/Graph.cc:130-147 | a set of nodes reached from u that no edge leaves is the set of all nodes reachable from u |
| Reachability.AncestorIsRoot | 3rd-party/brite/Graph.cc:137-143 | when every found node has an earlier found parent, following parents leads to the first |
| Graphs.Graph.AddIncListNode | 3rd-party/brite/Graph.cc:80-89 | the edge is put in front of the lists of both ends, twice in one list for a loop, and no other list changes |
| Graphs.Graph.AddAdjListNode | 3rd-party/brite/Graph.cc:74-78 | the neighbour is put in front of one list and no other changes |
| Graphs.Graph.AddEdge | 3rd-party/brite/Graph.cc:66-72 | the edge is added at the end and counted |
| Graphs.Graph.AddNode | 3rd-party/brite/Graph.cc:47-64 | only the place of the node changes |
| Graphs.Graph.AdjListFind | 3rd-party/brite/Graph.cc:117-128 | true iff the node is in the other's list |
| Graphs.Graph.DFS | 3rd-party/brite/Graph.cc:130-147 | called on a white node it ends (white nodes get fewer), and the nodes found, in order, are black, each but the first with an earlier found parent, all else unchanged, and no white neighbour of one was left out |
| Graphs.SearchNeighbour | 3rd-party/brite/Graph.cc:137-143 | the nodes a nested search found continue the search that called it |
| Graphs.WhitePath | 3rd-party/brite/Graph.cc:130-147 | after a search from u exactly the nodes reachable from u through white nodes changed colour, all to black, and each but u has a parent joined to it by an edge; the other parents are as they were |
| Graphs.ParentsLeadToStart | 3rd-party/brite/Topology.cc:67-87 | from every node found, following parents leads to the start in fewer steps than there are nodes |
| Graphs.Graph.IsConnected | 3rd-party/brite/Topology.cc:67-87 | true iff every node is reachable from node 0 |
| Graphs.ConnectedFromEverywhere | 3rd-party/brite/Topology.cc:67-87 | in a symmetric graph every node is reachable from node 0 iff every two nodes are joined by a path |
| Topologies.Topology.PopulateIncidence | 3rd-party/brite/Topology.cc:317-322 | each list gains the edges at its node, the last edge first |
| Topologies.Topology.LabelLeaves | 3rd-party/brite/Topology.cc:324-346 | a node becomes a leaf exactly when its out-degree is small; the others keep their role |
| Topologies.Topology.LabelStubEdges | 3rd-party/brite/Topology.cc:348-371 | an edge becomes a stub exactly when an end is a leaf |
| Topologies.Topology.CountStubLinks | 3rd-party/brite/Topology.cc:384-395 | the number of stub edges in a node's list |
| Topologies.Topology.LabelNode | 3rd-party/brite/Topology.cc:375-426 | a leaf stays a leaf; another node becomes stub, border or backbone iff one, several or none of its incidences are stub edges; no other node changes |
| Topologies.Topology.LabelNodes | 3rd-party/brite/Topology.cc:373-426 | each node that is no leaf gets the role its number of stub incidences asks for |
| Topologies.Topology.LabelEdges | 3rd-party/brite/Topology.cc:428-471 | each edge that is no stub is a border edge iff it joins a stub and a border node, else backbone |
| Topologies.Topology.Classify | 3rd-party/brite/Topology.cc:315-472 | all roles and incidence lists at the end, in terms of the leaves, stubs and lists at the start, for routers and for AS nodes |
| Topologies.StubLinksAreStubEnds | 3rd-party/brite/Topology.cc:384-395 | the count over a node's fresh list is the number of ends that stub edges have at the node |
| Topologies.StubEndsArePlaces | 3rd-party/brite/Topology.cc:384-395 | that number is the size of the set of places of stub edges from the node plus that of those to it |
| Topologies.NodeRoleFor | 3rd-party/brite/Topology.cc:397-424 | stub iff one stub link, border iff several, backbone iff none, unless a leaf |
| Topologies.EdgeRoleFor | 3rd-party/brite/Topology.cc:428-471 | border iff the two ends are a stub and a border node in either order, unless a stub |
| Topologies.TwoEntriesPerEdge | 3rd-party/brite/Graph.cc:80-89 | the lists of all nodes together hold two entries an edge |
| Topologies.ClassifyNew | 3rd-party/brite/Topology.cc:315-472 | for a topology without roles and incidences, in plain roles and numbers of places: a node ends as a leaf iff its out-degree is at most the given one, the others as stub, border or backbone iff one, several or no ends of stub edges are at them; an edge as a stub iff an end is a leaf, the others as border iff one end is a stub and the other a border node, else backbone; and the lists hold two entries an edge |
| Topologies.RoleOfTwice | 3rd-party/brite/Topology.cc:397-411 | with every incidence listed twice, a stub node becomes a border node and every other role stays |
| Topologies.ClassifyTwice | 3rd-party/brite/Topology.cc:315-472 | classifying a second time doubles the lists, so every stub node becomes a border node, every other node keeps its role, and every edge that is no stub becomes a backbone edge |
| ConfigPaths.WalksAreTheSimpleOnes | utils/print-introspected-doxygen.cc:1185-1269 | the walks the search follows are exactly those that come through no type twice and through none to be avoided |
| ConfigPaths.WalksIncrease | utils/print-introspected-doxygen.cc:1185-1269 | they are followed in lexicographic order of their edges |
| ConfigPaths.EachWalkOnce | utils/print-introspected-doxygen.cc:1185-1269 | so no walk is followed twice |
| PathGatherer.StaticInformation.GetCurrentPath | utils/print-introspected-doxygen.cc:1091-1102 | every item of the stack after a slash |
| PathGatherer.StaticInformation.RecordOutput | utils/print-introspected-doxygen.cc:1105-1110 | one entry with the text of the stack is appended |
| PathGatherer.StaticInformation.HasAlreadyBeenProcessed | utils/print-introspected-doxygen.cc:1113-1125 | true iff the type is on the stack |
| PathGatherer.StaticInformation.GatherAttributes | utils/print-introspected-doxygen.cc:1194-1233 | appends the entries of all walks along attributes, in order, and restores both stacks |
| PathGatherer.StaticInformation.GatherChildren | utils/print-introspected-doxygen.cc:1234-1246 | the same for derived types |
| PathGatherer.StaticInformation.GatherAggregates | utils/print-introspected-doxygen.cc:1247-1268 | the same for aggregated types |
| PathGatherer.FoundNext | utils/print-introspected-doxygen.cc:1214-1218 | following one more edge adds the entries of the walks behind it, with its item on the path |
| PathGatherer.StaticInformation.DoGather | utils/print-introspected-doxygen.cc:1185-1269 | appends one entry for each simple walk from the type through types not on the stack, with the text of path and walk; both stacks are restored; it ends because the types not on the stack get fewer |
| PathGatherer.StaticInformation.Get | utils/print-introspected-doxygen.cc:1128-1142 | the paths recorded for a type, in order |
| PathGatherer.PathsBetween | utils/print-introspected-doxygen.cc:1128-1269 | gathering from a root and asking for a type gives a text iff it is that of a simple walk from the root to the type |
| PathGatherer.PathsOfEntries | utils/print-introspected-doxygen.cc:1128-1142 | as many paths as entries of the type, each that of its entry, in order |
| ConfigEdges.EdgesAre | utils/print-introspected-doxygen.cc:1194-1268 | the edges out of a type are exactly those of its pointers to other than plain objects (item: the name), of its containers (the name and "/[i]"), of the registered types that derive from it and of the aggregations with it at either end (a dollar sign and the name of the type they lead to) |
| ConfigEdges.AttributesExample | utils/print-introspected-doxygen.cc:1194-1233 | a container and a pointer give an edge each, a pointer to plain objects and another attribute none |
| ConfigEdges.AggregatesExample | utils/print-introspected-doxygen.cc:1247-1268 | an aggregation is followed from either of its ends, and from itself to itself |
| ConfigEdges.EdgesExample | utils/print-introspected-doxygen.cc:1194-1268 | the edges come in the order attributes, derived types, aggregations |
| ConfigEdges.PathTextExample | utils/print-introspected-doxygen.cc:1091-1102 | a path of two items, as literal text |
| ConfigEdges.PathOfEdge | utils/print-introspected-doxygen.cc:1105-1110 | an edge to another type is a simple walk, recorded as a slash and its item |
| ConfigEdges.PathToNeighbour | utils/print-introspected-doxygen.cc:1128-1269 | gathering from a type finds that path for each of its pointers, containers, derived types and aggregations |
| ShellPipeline.TokenConsistent | waf-tools/shellcmd.py:135-198 | every token keeps what the parse knows about its nodes and its current command |
| ShellPipeline.AcceptedIsWellFormed | waf-tools/shellcmd.py:121-201 | an accepted list has commands and operators in turn, begins and ends with a command, has its output piped exactly on commands before a pipe, and a change of directory only before `&&` or at the end |
| ShellPipeline.ParseSegment | waf-tools/shellcmd.py:135-198 | the tokens of a command with its assignments, arguments and redirections, or of a `cd`, lead to that command |
| ShellPipeline.ParseSpelled | waf-tools/shellcmd.py:121-201 | a legal line parses to the nodes it means, with a redirection operator left dangling at its end or without |
| ShellPipeline.SpellFromBegin | waf-tools/shellcmd.py:121-201 | every accepted token list spells some legal line |
| ShellPipeline.AcceptedLines | waf-tools/shellcmd.py:121-201 | a token list is accepted iff it spells a legal line, and then parses to the nodes of any line it spells |
| ShellEvaluation.EvalPrepend | waf-tools/shellcmd.py:308-310 | a command before a pipe is started first and pipes into the rest of its group |
| ShellEvaluation.MeaningOfChdir | waf-tools/shellcmd.py:225-231 | a change of directory holds for all commands after it, or fails at the end or without a directory |
| ShellEvaluation.MeaningOfCommand | waf-tools/shellcmd.py:233-346 | a command is started and then ends its group, the run, or neither, by the operator after it and the status |
| ShellEvaluation.CompleteIsUnbroken | waf-tools/shellcmd.py:225-228 | the chain of a parsed line holds no failing `cd` iff no `cd` of the line is at the end or without a directory |
| ShellEvaluation.UnbrokenExits | waf-tools/shellcmd.py:214-346 | the run of a chain without a failing `cd` ends with an exit code |
| ShellEvaluation.GoingOnRaises | waf-tools/shellcmd.py:225-228 | a `cd` at the end or without a directory is reached, and raises an exception, when every command before lets the next one run |
| ShellEvaluation.NeverRaises | waf-tools/shellcmd.py:214-346 | no exit codes make the run of a parsed line raise an exception iff no `cd` is at the end or without a directory |
| ShellEvaluation.CdAlone | waf-tools/shellcmd.py:225-228 | the line of a single `cd` is accepted and always raises an exception |
| ShellComparison.FittingAgrees | waf-tools/shellcmd.py:242-274 | one more redirection that the program deals with as the shell does leaves both with the same streams and files |
| ShellComparison.UnfittingInput | waf-tools/shellcmd.py:242-248 | an input file behind a pipe, after an output file, or named in another directory leaves the process or the files different, whatever redirections follow |
| ShellComparison.UnfittingOutput | waf-tools/shellcmd.py:252-274 | so does an output file after an error file or after errors were sent to the output, one called NUL:, and one named in another directory |
| ShellComparison.UnfittingError | waf-tools/shellcmd.py:262-274 | so does an error file called NUL: or named in another directory |
| ShellComparison.ComparedStreams | waf-tools/shellcmd.py:242-274 | the program gives a command the streams, and opens the files, that the shell does (sections 2.7 and 2.9.2 of the POSIX.1-2017 Shell Command Language) iff each of its redirections is dealt with alike |
| ShellComparison.ComparedStarts | waf-tools/shellcmd.py:242-291 | the process it starts and the files it opens are the shell's iff that is so and both are in the same directory; else a difference is made that no later step undoes |
| ShellComparison.RunOfCommand | waf-tools/shellcmd.py:233-346 | the run of a line by its first command, in terms of the line |
| ShellComparison.ShellGrows | waf-tools/shellcmd.py:214-346 | the shell's part of the comparison: it takes back nothing, starts something for each line it runs, and gives no pipe to a command outside one |
| ShellComparison.RunGrows | waf-tools/shellcmd.py:242-291 | the run takes back nothing, and the next command after a pipe reads the pipe, whatever `cd`s lie between |
| ShellComparison.SkippedLine | waf-tools/shellcmd.py:312-341 | the shell skips all that follows a short circuit iff no operator of the other kind follows, the and-operator after a `cd` included |
| ShellComparison.RunIsShellLine | waf-tools/shellcmd.py:214-346 | given the exit codes, the run of a line with complete `cd`s does what the shell does (sections 2.7, 2.9.2, 2.9.3 and 2.12) iff it comes to no `cd` in a pipe and no command started otherwise, and no operator of the other kind follows the one at which it ends |
| ShellComparison.MisleadingLeadsApart | waf-tools/shellcmd.py:312-346 | a line with a `cd` in a pipe, with mixed operators or with a command started otherwise has exit codes for which the run and the shell part |
| ShellComparison.AlwaysLikeTheShell | waf-tools/shellcmd.py:214-346 | the run of a line does what the shell does whatever the commands return iff no `cd` is at the end, without a directory or in a pipe, no and-operator stands after an or-operator, no or-operator after an and-operator that follows a command, and every command is started alike |
| ShellComparison.InputAfterPipe | waf-tools/shellcmd.py:242-248 | two commands in a pipe, the second with an input file: accepted, and never run as the shell does, which opens the file |
| ShellComparison.ErrorsBeforeOutput | waf-tools/shellcmd.py:252-274 | errors sent to the output before that goes to a file: accepted, and never run as the shell does |
| ShellComparison.FileAfterCd | waf-tools/shellcmd.py:252-258 | an output file after a `cd`: accepted, and never run as the shell does, which opens the file in the new directory |
| ShellComparison.MixedExample | waf-tools/shellcmd.py:312-323 | a succeeds in the line a-or-b-and-c, which is accepted: the run ends with a, the shell goes on to c |
| ShellComparison.CdAfterOr | waf-tools/shellcmd.py:225-231 | a succeeds in the line a-or-cd-and-b, which is accepted: the run ends with a, the shell goes on to b in the directory of a |
| ShellComparison.CdBeforeOr | waf-tools/shellcmd.py:225-231 | the line cd-and-a-or-b is run as the shell does, whatever the commands return, if the `cd` leads to the same place |
| ShellRunner.Pipeline.CommitCommand | waf-tools/shellcmd.py:101-104 | the current command goes to the end of the pipeline |
| ShellRunner.Pipeline.TakeCommandToken | waf-tools/shellcmd.py:155-182 | a token inside a command does what the state machine says, or fails where its assertion does |
| ShellRunner.Pipeline.TakeToken | waf-tools/shellcmd.py:135-198 | the same for a token in any state |
| ShellRunner.Pipeline.ParseTokens | waf-tools/shellcmd.py:121-201 | succeeds iff the state machine accepts, with a well-formed pipeline |
| ShellRunner.Pipeline.StartCommand | waf-tools/shellcmd.py:242-291 | the process gets its input, outputs, variables and directory, and every file opened for it is noted to be closed |
| ShellRunner.Pipeline.ExecPipedCommands | waf-tools/shellcmd.py:203-212 | waits for each process of the group once, in order; the result is the status of the last |
| ShellRunner.Pipeline.FinishGroup | waf-tools/shellcmd.py:312-319 | after a group nothing is left to wait for or to close |
| ShellRunner.Pipeline.RunCommand | waf-tools/shellcmd.py:233-346 | one command and the operator after it keep the meaning of the whole run, or end it with that meaning |
| ShellRunner.Pipeline.Run | waf-tools/shellcmd.py:214-346 | the outcome, the processes with their inputs, outputs and directories, and the files are those of evaluating the chain; unless an assertion fails every process was waited for once and every file closed once |
| ShellRunner.ParseAndRun | waf-tools/shellcmd.py:121-346 | a refused line starts nothing; the run of an accepted one starts the processes, opens the files and gives the code of its evaluation, and gives none iff that raises an exception, which it cannot when the `cd`s are complete; with a code, every process was waited for and every file closed, once |
| ShellLaunches.AssignedAreVariables | waf-tools/shellcmd.py:138-153 | exactly the variables assigned before a command have a value, each that of its last assignment |
| ShellLaunches.RedirectionsOf | waf-tools/shellcmd.py:155-198 | a command has an input file, an output file, an error file or errors sent to the output iff such a redirection is among its parts |
| ShellLaunches.LaunchOfSegment | waf-tools/shellcmd.py:242-291 | a command starts one process: its words are the name and the arguments, its variables those assigned, its streams inherited, piped or in the named files, opened for it, its directory that of the `cd`s before |
| ShellLaunches.FirstLaunch | waf-tools/shellcmd.py:214-291 | the first process of a line has the words, variables and streams of its first command, in terms of the line's own words |
| ShellLaunches.RunWords | waf-tools/shellcmd.py:121-346 | so it has when the words of the line are parsed and run |
| ShellLaunches.PipeFeedsNext | waf-tools/shellcmd.py:203-212 | of two commands in a pipe the second reads from the first, and its status is the status of the line |
| Decimal.ValueOfDigits | utils/check-style.py:286-290 | printed decimal digits have the value printed |
| Decimal.DigitsOfValue | utils/check-style.py:286-290 | digits without a zero in front are how their value is printed |
| Decimal.NoLeadingZero | utils/check-style.py:286-290 | no number is printed with a zero in front |
| Decimal.DigitsExample | utils/check-style.py:286-290 | a number with all ten digits, as literal text |
| PatchSets.HeaderIsStart | utils/check-style.py:286-290 | a written chunk header is read as the start of a chunk at both positions |
| PatchSets.SourceLine | utils/check-style.py:204-217 | a written removed line is read as itself, or as a file header iff its text begins with `-- ` |
| PatchSets.DestinationLine | utils/check-style.py:204-217 | a written added line is read as itself, or as a file header iff its text begins with `++ ` |
| PatchSets.CommonLine | utils/check-style.py:204-217 | a written common line is always read as itself |
| PatchSets.ReadChunks | utils/check-style.py:359-403 | the lines of chunks put those chunks into the current patch |
| PatchSets.ReadSet | utils/check-style.py:359-403 | the lines of a patch set put together that set |
| PatchSets.ParseSize | utils/check-style.py:359-403 | parsing makes as many chunk lines as there are content lines |
| PatchSets.WrittenSet | utils/check-style.py:348-357 | written patches never have more content lines than lines, and as many iff none is misread |
| PatchSets.RoundTrip | utils/check-style.py:348-403 | the lines of a patch set parse to that set iff no removed line begins with `-- ` and no added line with `++ ` |
| PatchSets.ClassIsGood | utils/check-style.py:360-365 | a line taken for content has a kind, one line of text, and does not look like a file header when written |
| PatchSets.ParsedRoundTrip | utils/check-style.py:348-403 | whatever lines are parsed as a patch set, that set is written and parsed again without any change, with no condition |
| PatchForms.HeaderOfWritten | utils/check-style.py:274-290 | a written chunk header holds, in this order, the source position, the number of lines after it that begin with a minus or a space, the destination position, and the number that begin with a plus or a space |
| PatchForms.HeaderExample | utils/check-style.py:204-295 | the literal text of a chunk of a common and an added line |
| PatchForms.AfterIs | utils/check-style.py:360-365 | a line matches a mark and a text iff it is just that, with its line feed or without |
| PatchForms.ChunkStartIs | utils/check-style.py:362 | every line that begins with two pairs of decimal numbers between the marks is a chunk header at the first of each pair, whatever follows |
| PatchForms.ChunkStartOnly | utils/check-style.py:362 | and no other line is |
| PatchForms.LineFeedIgnored | utils/check-style.py:360-365 | the last line of a file is taken for the same without its line feed |
| PatchForms.AcceptedFiles | utils/check-style.py:359-403 | parsing raises no exception iff every line is known, second names and chunk headers come after a first name, and content comes after a chunk header |
| PatchForms.StrayContent | utils/check-style.py:378-400 | content goes to the chunk begun last, even when another patch was begun since |
| PatchForms.SecondName | utils/check-style.py:374-377 | a second name replaces the one before |
| PatchFiles.WriteLine | utils/check-style.py:204-217 | the line is written with its mark, and nothing for a line of no kind, which raises an exception |
| PatchFiles.WriteChunk | utils/check-style.py:286-295 | the header line, described by PatchForms.HeaderOfWritten, then all lines |
| PatchFiles.WritePatch | utils/check-style.py:348-357 | both names and all chunks are written |
| PatchFiles.LinesOfJoined | utils/check-style.py:359-363 | splitting written text into lines gives the lines written |
| PatchFiles.LinesOfText | utils/check-style.py:368 | the lines of any text make it up, and each but the last ends in the only line feed it has |
| PatchFiles.MatchLine | utils/check-style.py:359-402 | the first of the six patterns that a line matches, with what it captures |
| PatchFiles.TakeLine | utils/check-style.py:370-402 | what matched changes the patches as the parser says, or raises an exception |
| PatchFiles.ParsePatchset | utils/check-style.py:359-403 | the whole loop gives the parsed set or an exception |
| PatchFiles.WriteAndParse | utils/check-style.py:348-403 | writing patches to a file and parsing it gives them back iff no line is misread |
| Seeds.AtoiOfDigits | 3rd-party/brite/Parser.cc:398-415 | the conversion of a printed number is the number |
| Seeds.WordIsToken | 3rd-party/brite/Parser.cc:212-250 | a word and a delimiter after it are read as that word |
| Seeds.TokensOfSeedLine | 3rd-party/brite/Brite.cc:142-146 | a printed line has the keyword and three numbers as its tokens, whatever follows |
| Seeds.Separators | 3rd-party/brite/Parser.cc:47-55 | a character separates tokens iff it is a space, a tab, a colon, a line feed, a slash or a zero character |
| Seeds.CommentSkipped | 3rd-party/brite/Parser.cc:233-236 | a line from a number sign on makes no difference to the tokens after it |
| Seeds.NumberSigns | 3rd-party/brite/Parser.cc:233-242 | so does one that is never ended; a number sign inside a token is part of it |
| Seeds.LastWord | 3rd-party/brite/Parser.cc:238-242 | a word at the end of the file is a token |
| Seeds.Conversions | 3rd-party/brite/Parser.cc:398-415 | the conversion takes a sign and digits and ignores what follows |
| Seeds.OtherConversions | 3rd-party/brite/Parser.cc:398-415 | it skips white space, gives 0 for anything else, and is stored in sixteen bits |
| Seeds.SeedLineExample | 3rd-party/brite/Brite.cc:142-145 | a line of the seed file, as literal text |
| Seeds.SeedFileExample | 3rd-party/brite/Brite.cc:142-170 | a whole seed file, as literal text |
| Seeds.Parse.SkipToToken | 3rd-party/brite/Parser.cc:222-230 | skips all delimiters, or meets the end of the file |
| Seeds.Parse.ReadToken | 3rd-party/brite/Parser.cc:237-241 | the characters up to the next delimiter, which is dropped, or up to the end |
| Seeds.Parse.GetNextToken | 3rd-party/brite/Parser.cc:212-250 | the next token behind delimiters and comments, its length, and the text after it; 0 at the end |
| Seeds.Parse.TakeToken | 3rd-party/brite/Parser.cc:212-250 | each call takes the first of the tokens left |
| Seeds.Parse.ParseSeed | 3rd-party/brite/Parser.cc:398-415 | succeeds iff the keyword and three more tokens are next, and stores their numbers in sixteen bits |
| Seeds.Model.OutputSeeds | 3rd-party/brite/Brite.cc:132-170 | the text has one line a use, keyword and three numbers |
| Seeds.Model.InitSeeds | 3rd-party/brite/Brite.cc:50-126 | succeeds iff the file begins with the tokens of a seed file, sets all eighteen seeds to its numbers and prints them again |
| Seeds.RoundTrip | 3rd-party/brite/Brite.cc:132-170 | the tokens of a printed seed file give back all eighteen seeds, whatever they are |
| Seeds.CopySeeds | 3rd-party/brite/Brite.cc:50-170 | a model that reads what another printed has its seeds, and prints the same text |
| ListSort.SortBy | 3rd-party/brite/Util.cc:98 | the library's list sort: sorted, the same elements, and those of one key in the order they had |
| Sorting.IndexInBounds | 3rd-party/brite/Util.cc:91 | a number has a bucket iff it is at least 0 and less than 1 |
| Sorting.BucketIs | 3rd-party/brite/Util.cc:91 | bucket k of n is for the numbers from k/n on and below (k+1)/n |
| Sorting.IndexOrdered | 3rd-party/brite/Util.cc:91 | larger numbers are in no earlier bucket |
| Sorting.FlatSorted | 3rd-party/brite/Util.cc:97-102 | sorted buckets, each number in its own, are sorted one after the other |
| Sorting.FillBuckets | 3rd-party/brite/Util.cc:90-93 | every number is in its bucket, and none is lost or added |
| Sorting.BucketSort | 3rd-party/brite/Util.cc:83-105 | the array ends sorted and with the same numbers; all places written are in it |
| Sorting.SortedOnce | 3rd-party/brite/Util.cc:83-105 | there is one sorted order only, so the result is that of any other sort |
| Sorting.BinarySearch | 3rd-party/brite/Util.cc:108-120 | in any numbers the result splits them: the one before it is smaller than the value and the one at it is not |
| Sorting.SearchInSorted | 3rd-party/brite/Util.cc:108-120 | in sorted numbers the result is the only place with exactly the smaller numbers before it, and putting the value there keeps them sorted |
| Timelines.SortedIsInOrder | utils/grid.py:74-81 | ranges are in order iff they do not overlap and are sorted by their starts |
| Timelines.TimelineDataRange.Sort | utils/grid.py:170-175 | sorted by start, the same ranges, and those of one start in the order they had |
| Timelines.TimelineEvent.Sort | utils/grid.py:246-251 | sorted by time, the same events, and those of one time in the order they had |
| Timelines.TimelineDataRange.Search | utils/grid.py:105-122 | a range that holds the key; among ranges in order the only one, or -1 iff none does |
| Timelines.TimelineDataRange.GetRangesBounds | utils/grid.py:153-169 | from the range that holds the start, or the first, to the one that holds the end, or the last, and nothing if neither is held, for any start and end; with both ends covered exactly the ranges the window meets, with one all of them and those beyond the other end |
| Timelines.TimelineDataRange.GetRanges | utils/grid.py:136-152 | the slice between these bounds; the ranges that meet the window, iff none lies beyond an end of the window that is in a gap |
| Timelines.SelectedIsMeeting | utils/grid.py:136-169 | the exact condition under which such a slice is the ranges that meet the window |
| Timelines.BothEndsInGaps | utils/grid.py:162-163 | a window with both ends in gaps around a range selects nothing, though it meets the range |
| Timelines.TimelineEvent.Search | utils/grid.py:201-218 | the place of an event at the key, or of the first one after it |
| Timelines.TimelineEvent.GetEventsBounds | utils/grid.py:236-245 | the places of both ends of the window |
| Timelines.TimelineEvent.GetEvents | utils/grid.py:226-235 | of sorted events, a stretch with all those strictly inside the window, none before it and at most one after it; with at most one event at each end of the window, all events in it, and the first one after it iff none is at its end |

## Left out

- Everything built on the simulator: `scratch/`, the benchmarks and the Python unit tests configure or call classes that are not part of this repository.
- The network animator (`3rd-party/netanim`): widgets, painting and floating-point geometry.
- The build files and scripts other than the ones above.
- CSV: opening the stream, a stream that fails while reading, and the pointer inside a result, which is valid only until the next call; a row counter that overflows.
- CsvParser.Parser.constructor: the capacity is a parameter, where the parser has 131072.
- Worker pool: starting processes, verbose printing and the XML report; running a job is one step that ends with some return code, and a worker that dies of an exception is not modelled. The pool is a transition system on values rather than thread objects, because no Dafny method can be interleaved with another. Interrupts after the first change nothing and are no steps.
- Graph: nodes and edges are objects with their role in a field of their own; the configuration objects between them are not modelled, nor are topologies that mix routers and AS nodes, where the program's casts have no defined result.
- Graphs.Graph.DFS: recursion is as deep as the path searched; the call stack's limit is not modelled.
- BRITE's random models, its other configuration parsers and its output formats.
- Gathering: the type system is a parameter (a finite registry, closed under its edges), and recording aggregations and the removal of duplicates after a gather, which works on a copy and so has no effect, are not modelled.
- Shell: splitting a string into words, matching an assignment (a parameter of the model), joining directories (a parameter), opening files that cannot be opened, processes that cannot be started, the environment of the parent, and verbose mode. A process is given by an exit code that may depend on all processes started.
- ShellComparison.AlwaysLikeTheShell: starting a process or opening a file may not fail, and a `cd` that is run succeeds, since the program never looks whether a directory exists; shells that run the last command of a pipe in their own environment, and the numbers shells give to commands killed by a signal, are not considered.
- Patches: patches are values, so the aliasing of a line shared by both sides does not appear; texts with line ends inside them cannot be written and read as lines at all and are excluded; translation of CR at line ends, applying patches and removing trailing white space are not modelled.
- Seeds.Parse.GetNextToken: a comment longer than the line buffer of 10000 characters makes the stream fail, which is not modelled; nor are numbers too large for the conversion function, whose result is undefined. A parse error ends the program there and makes the call fail here.
- Sorting.BucketSort: numbers are reals, so rounding in the product with the length is not modelled.
- Timelines.TimelineEvent.GetEvents: with several events at the very same end of the window the search may stop at any of them, so which of those are in the result is not stated.
- Timelines: drawing, and reading the trace file; times are reals.
