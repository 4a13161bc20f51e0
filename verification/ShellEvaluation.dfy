/** What running a pipeline means: groups of piped commands, combined by `&&` and `||` nested
    to the right, each command in the directory of the `cd`s before it. */
module ShellEvaluation {
  import opened ShellPipeline
  import opened Options
  import S = Sequences

  /** A command and the directory it is to run in. */
  datatype Placed = Placed(command: Command, cwd: string)

  /** `Broken` stands for running into a `cd` that nothing follows or that names no directory,
      which raises an exception. */
  datatype Chain =
    | Group(commands: seq<Placed>)
    | AndThen(commands: seq<Placed>, rest: Chain)
    | OrElse(commands: seq<Placed>, rest: Chain)
    | Broken(commands: seq<Placed>)

  type Join = (string, string) -> string

  /** Every group that is run has a command. */
  predicate Proper(chain: Chain) {
    match chain
    case Group(cs) => cs != []
    case AndThen(cs, rest) => cs != [] && Proper(rest)
    case OrElse(cs, rest) => cs != [] && Proper(rest)
    case Broken(_) => true
  }

  function Prepend(c: Placed, chain: Chain): Chain {
    match chain
    case Group(cs) => Group([c] + cs)
    case AndThen(cs, rest) => AndThen([c] + cs, rest)
    case OrElse(cs, rest) => OrElse([c] + cs, rest)
    case Broken(cs) => Broken([c] + cs)
  }

  /** The chain a well-formed pipeline stands for. */
  function ChainOf(join: Join, nodes: seq<Node>, cwd: string): (chain: Chain)
    requires WellFormed(nodes)
    ensures Proper(chain)
    decreases |nodes|
  {
    RestWellFormed(nodes);
    if nodes[0].Chdir? then
      if |nodes| == 1 || nodes[0].dir == None then Broken([])
      else ChainOf(join, nodes[2..], join(cwd, nodes[0].dir.value))
    else
      var first := Placed(nodes[0].command, cwd);
      if |nodes| == 1 then Group([first])
      else if nodes[1] == Pipe then Prepend(first, ChainOf(join, nodes[2..], cwd))
      else if nodes[1] == And then AndThen([first], ChainOf(join, nodes[2..], cwd))
      else OrElse([first], ChainOf(join, nodes[2..], cwd))
  }

  lemma RestWellFormed(nodes: seq<Node>)
    requires WellFormed(nodes)
    ensures |nodes| > 1 ==> !IsCommand(nodes[1]) && |nodes| > 2 && WellFormed(nodes[2..])
  {
    assert Fits(nodes[0], NextOf(nodes, 0));
    if |nodes| > 1 {
      assert Fits(nodes[1], NextOf(nodes, 1));
      var rest := nodes[2..];
      forall i | 0 <= i < |rest| ensures Fits(rest[i], NextOf(rest, i)) {
        assert Fits(nodes[i + 2], NextOf(nodes, i + 2));
        assert NextOf(rest, i) == NextOf(nodes, i + 2);
      }
    }
  }

  // ---- processes and files ----

  datatype Source = INHERIT | FROM_FILE(file: nat) | FROM_PROCESS(process: nat)

  /** `TO_STDOUT` is the output of the process itself, `TO_OUTER_STDOUT` that of the program. */
  datatype Sink = INHERITED | TO_PIPE | TO_STDOUT | TO_OUTER_STDOUT | TO_FILE(file: nat) | TO_NULL

  /** A process as it is started. The directory is left out when it is the one the program
      runs in. */
  datatype Launch = Launch(argv: seq<string>, stdin: Source, stdout: Sink, stderr: Sink,
                           env: map<string, string>, cwd: Option<string>)

  datatype OpenFile = Reading(name: string) | Writing(name: string)

  /** Processes started and files opened so far; the position is the identity. */
  datatype World = World(started: seq<Launch>, files: seq<OpenFile>)

  predicate IsNullDevice(name: string) {
    name == "NUL:" || name == "/dev/null"
  }

  /** Where an output goes, and what files are open then. */
  function OutputTo(r: Redirect, files: seq<OpenFile>): (Sink, seq<OpenFile>) {
    match r
    case DEFAULT => (INHERITED, files)
    case PIPE => (TO_PIPE, files)
    case STDOUT => (TO_STDOUT, files)
    case FILE(name) =>
      if IsNullDevice(name) then (TO_NULL, files) else (TO_FILE(|files|), files + [Writing(name)])
  }

  /** The input comes from the process before in the pipe, else from a file if one is named. */
  function InputFrom(c: Command, prev: Option<nat>, files: seq<OpenFile>): (Source, seq<OpenFile>) {
    if prev.Some? then (FROM_PROCESS(prev.value), files)
    else if c.stdin.Some? then (FROM_FILE(|files|), files + [Reading(c.stdin.value)])
    else (INHERIT, files)
  }

  function Start(w: World, p: Placed, prev: Option<nat>): World {
    var c := p.command;
    var (stdin, f0) := InputFrom(c, prev, w.files);
    var (stdout, f1) := OutputTo(c.stdout, f0);
    var (stderr, f2) := OutputTo(c.stderr, f1);
    var cwd := if p.cwd == "." then None else Some(p.cwd);
    World(w.started + [Launch(c.argv, stdin, stdout, stderr, c.env, cwd)], f2)
  }

  /** Starts the commands of a group, each after the first with the output of the one before. */
  function StartAll(w: World, cs: seq<Placed>, prev: Option<nat>): (w': World)
    ensures |w'.started| == |w.started| + |cs|
    decreases |cs|
  {
    if cs == [] then w else StartAll(Start(w, cs[0], prev), cs[1..], Some(|w.started|))
  }

  /** The exit code of a process, given all processes started when it is waited for. */
  type ExitCodes = (seq<Launch>, nat) -> int

  datatype Outcome = Exit(code: int) | Raised

  /** The status of a group is that of the last process started. */
  function StatusOf(exit: ExitCodes, w: World): int
    requires w.started != []
  {
    exit(w.started, |w.started| - 1)
  }

  /** Runs a chain: `a && rest` is `a` if that fails and else `rest`; `a || rest` is 0 if `a`
      succeeds and else `rest`. */
  function Eval(exit: ExitCodes, chain: Chain, w: World, prev: Option<nat>): (Outcome, World)
    requires Proper(chain)
    decreases chain
  {
    var w' := StartAll(w, chain.commands, prev);
    match chain
    case Broken(_) => (Raised, w')
    case Group(_) => (Exit(StatusOf(exit, w')), w')
    case AndThen(_, rest) =>
      if StatusOf(exit, w') != 0 then (Exit(StatusOf(exit, w')), w') else Eval(exit, rest, w', None)
    case OrElse(_, rest) =>
      if StatusOf(exit, w') == 0 then (Exit(StatusOf(exit, w')), w') else Eval(exit, rest, w', None)
  }

  lemma StartOne(w: World, c: Placed, prev: Option<nat>)
    ensures StartAll(w, [c], prev) == Start(w, c, prev)
  {
    assert StartAll(w, [c], prev) == StartAll(Start(w, c, prev), [], Some(|w.started|));
  }

  /** A command in front of a chain is started first and pipes into the rest of its group. */
  lemma EvalPrepend(exit: ExitCodes, c: Placed, chain: Chain, w: World, prev: Option<nat>)
    requires Proper(chain)
    ensures Eval(exit, Prepend(c, chain), w, prev) == Eval(exit, chain, Start(w, c, prev), Some(|w.started|))
  {
    S.Cons(c, chain.commands);
  }

  /** What running the nodes from here on gives. */
  function Meaning(exit: ExitCodes, join: Join, nodes: seq<Node>, cwd: string, w: World, prev: Option<nat>)
    : (Outcome, World)
    requires WellFormed(nodes)
  {
    Eval(exit, ChainOf(join, nodes, cwd), w, prev)
  }

  lemma MeaningOfChdir(exit: ExitCodes, join: Join, nodes: seq<Node>, cwd: string, w: World, prev: Option<nat>)
    requires WellFormed(nodes) && nodes[0].Chdir?
    ensures |nodes| > 1 ==> nodes[1] == And && WellFormed(nodes[2..])
    ensures Meaning(exit, join, nodes, cwd, w, prev) ==
            if |nodes| == 1 || nodes[0].dir == None then (Raised, w)
            else Meaning(exit, join, nodes[2..], join(cwd, nodes[0].dir.value), w, prev)
  {
    RestWellFormed(nodes);
    assert Fits(nodes[0], NextOf(nodes, 0));
  }

  lemma MeaningOfCommand(exit: ExitCodes, join: Join, nodes: seq<Node>, cwd: string, w: World, prev: Option<nat>)
    requires WellFormed(nodes) && nodes[0].Cmd?
    ensures |nodes| > 1 ==> nodes[1] in {Pipe, And, Or} && WellFormed(nodes[2..])
    ensures var w' := Start(w, Placed(nodes[0].command, cwd), prev);
            var status := StatusOf(exit, w');
            Meaning(exit, join, nodes, cwd, w, prev) ==
            if |nodes| == 1 || (nodes[1] == And && status != 0) || (nodes[1] == Or && status == 0)
            then (Exit(status), w')
            else Meaning(exit, join, nodes[2..], cwd, w', if nodes[1] == Pipe then Some(|w.started|) else None)
  {
    RestWellFormed(nodes);
    var first := Placed(nodes[0].command, cwd);
    StartOne(w, first, prev);
    if |nodes| > 1 && nodes[1] == Pipe {
      EvalPrepend(exit, first, ChainOf(join, nodes[2..], cwd), w, prev);
    }
  }

  // ---- exceptions ----

  /** No `cd` at the end and none without a directory. */
  predicate CdsComplete(nodes: seq<Node>) {
    && (nodes != [] ==> !nodes[|nodes| - 1].Chdir?)
    && forall i :: 0 <= i < |nodes| ==> nodes[i] != Chdir(None)
  }

  lemma RestComplete(nodes: seq<Node>)
    requires WellFormed(nodes) && |nodes| > 1
    ensures CdsComplete(nodes) <==> nodes[0] != Chdir(None) && CdsComplete(nodes[2..])
  {
    RestWellFormed(nodes);
    var rest := nodes[2..];
    assert rest[|rest| - 1] == nodes[|nodes| - 1];
    assert forall i :: 0 <= i < |rest| ==> rest[i] == nodes[i + 2];
    assert !IsCommand(nodes[1]);
    if nodes[0] != Chdir(None) && CdsComplete(rest) {
      forall i | 0 <= i < |nodes| ensures nodes[i] != Chdir(None) {
        if i >= 2 {
          assert nodes[i] == rest[i - 2];
        }
      }
    }
  }

  predicate Unbroken(chain: Chain) {
    match chain
    case Group(_) => true
    case AndThen(_, rest) => Unbroken(rest)
    case OrElse(_, rest) => Unbroken(rest)
    case Broken(_) => false
  }

  lemma {:induction false} CompleteIsUnbroken(join: Join, nodes: seq<Node>, cwd: string)
    requires WellFormed(nodes)
    ensures Unbroken(ChainOf(join, nodes, cwd)) <==> CdsComplete(nodes)
    decreases |nodes|
  {
    RestWellFormed(nodes);
    if |nodes| > 1 {
      RestComplete(nodes);
      if nodes[0] != Chdir(None) {
        CompleteIsUnbroken(join, nodes[2..], if nodes[0].Chdir? then join(cwd, nodes[0].dir.value) else cwd);
      }
    }
  }

  /** A run of a pipeline whose changes of directory are complete ends with an exit code. */
  lemma {:induction false} UnbrokenExits(exit: ExitCodes, chain: Chain, w: World, prev: Option<nat>)
    requires Proper(chain) && Unbroken(chain)
    ensures Eval(exit, chain, w, prev).0.Exit?
    decreases chain
  {
    if chain.AndThen? || chain.OrElse? {
      UnbrokenExits(exit, chain.rest, StartAll(w, chain.commands, prev), None);
    }
  }

  /** The processes started from number `base` on exit with these codes. */
  ghost predicate Follows(exit: ExitCodes, codes: seq<int>, base: nat) {
    forall started: seq<Launch>, id :: base <= id < base + |codes| ==> exit(started, id) == codes[id - base]
  }

  function ExitBy(codes: seq<int>, base: nat): ExitCodes {
    (started: seq<Launch>, id: nat) => if base <= id < base + |codes| then codes[id - base] else 0
  }

  lemma ExitByFollows(codes: seq<int>, base: nat)
    ensures Follows(ExitBy(codes, base), codes, base)
  {}

  lemma FollowsRest(exit: ExitCodes, code: int, codes: seq<int>, base: nat)
    requires Follows(exit, [code] + codes, base)
    ensures forall started: seq<Launch> :: exit(started, base) == code
    ensures Follows(exit, codes, base + 1)
  {
    var all := [code] + codes;
    forall started: seq<Launch>, id | base <= id < base + |all|
      ensures exit(started, id) == if id == base then code else codes[id - base - 1]
    {
      assert exit(started, id) == all[id - base];
    }
  }

  /** Exit codes with which every command lets the next one run. */
  function GoingOn(nodes: seq<Node>): seq<int>
    decreases |nodes|
  {
    if |nodes| < 2 then []
    else (if nodes[0].Chdir? then [] else [if nodes[1] == Or then 1 else 0]) + GoingOn(nodes[2..])
  }

  lemma {:induction false} GoingOnRaises(exit: ExitCodes, join: Join, nodes: seq<Node>, cwd: string, w: World,
                                         prev: Option<nat>)
    requires WellFormed(nodes) && !CdsComplete(nodes) && Follows(exit, GoingOn(nodes), |w.started|)
    ensures Meaning(exit, join, nodes, cwd, w, prev).0 == Raised
    decreases |nodes|
  {
    if |nodes| > 1 {
      RestComplete(nodes);
    }
    if nodes[0].Chdir? {
      MeaningOfChdir(exit, join, nodes, cwd, w, prev);
      if |nodes| > 1 && nodes[0].dir != None {
        S.Empty(GoingOn(nodes[2..]));
        GoingOnRaises(exit, join, nodes[2..], join(cwd, nodes[0].dir.value), w, prev);
      }
    } else {
      MeaningOfCommand(exit, join, nodes, cwd, w, prev);
      FollowsRest(exit, if nodes[1] == Or then 1 else 0, GoingOn(nodes[2..]), |w.started|);
      var w' := Start(w, Placed(nodes[0].command, cwd), prev);
      GoingOnRaises(exit, join, nodes[2..], cwd, w', if nodes[1] == Pipe then Some(|w.started|) else None);
    }
  }

  /** No exit codes make the run raise an exception exactly when no `cd` stands at the end or
      without a directory. */
  lemma NeverRaises(join: Join, nodes: seq<Node>, cwd: string, w: World)
    requires WellFormed(nodes)
    ensures (forall exit: ExitCodes :: Meaning(exit, join, nodes, cwd, w, None).0 != Raised) <==> CdsComplete(nodes)
  {
    CompleteIsUnbroken(join, nodes, cwd);
    if CdsComplete(nodes) {
      forall exit: ExitCodes ensures Meaning(exit, join, nodes, cwd, w, None).0 != Raised {
        UnbrokenExits(exit, ChainOf(join, nodes, cwd), w, None);
      }
    } else {
      var exit := ExitBy(GoingOn(nodes), |w.started|);
      ExitByFollows(GoingOn(nodes), |w.started|);
      GoingOnRaises(exit, join, nodes, cwd, w, None);
    }
  }

  /** A single `cd` is accepted and always raises an exception. */
  lemma CdAlone(env: EnvMatch, exit: ExitCodes, join: Join, w: World)
    requires env("cd") == None
    ensures ParseFrom(env, START, ["cd"]) == Some([Chdir(None)])
    ensures Meaning(exit, join, [Chdir(None)], ".", w, None) == (Raised, w)
  {
    S.Empty(["cd"]);
    ParseStep(env, START, "cd", []);
    S.Empty([Chdir(None)]);
    MeaningOfChdir(exit, join, [Chdir(None)], ".", w, None);
  }
}
