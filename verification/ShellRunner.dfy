/** The pipeline object: parsing token by token and running the parsed nodes, with the
    processes it starts and waits for and the files it opens and closes. */
module ShellRunner {
  import opened ShellPipeline
  import opened ShellEvaluation
  import opened Options
  import S = Sequences

  /** The first numbers in order: what waiting once for every process looks like. */
  function UpTo(n: nat): seq<nat> {
    seq(n, i => i)
  }

  lemma NextUpTo(a: seq<nat>, b: seq<nat>, n: nat)
    requires a + b == UpTo(n)
    ensures a + (b + [n]) == UpTo(n + 1)
  {
    S.Assoc(a, b, [n]);
    assert UpTo(n) + [n] == UpTo(n + 1);
  }

  /** The process that pipes into the next command. */
  function LastOf(pipedCommands: seq<nat>): Option<nat> {
    if pipedCommands == [] then None else Some(pipedCommands[|pipedCommands| - 1])
  }

  /** The operating system as far as the runner uses it. */
  class System {
    const exit: ExitCodes
    var started: seq<Launch>
    var files: seq<OpenFile>
    /** Processes waited for and files closed, in order. */
    var waited: seq<nat>
    var closed: seq<nat>

    constructor (exit: ExitCodes)
      ensures this.exit == exit && started == [] && files == [] && waited == [] && closed == []
    {
      this.exit := exit;
      started, files, waited, closed := [], [], [], [];
    }

    method Open(file: OpenFile) returns (id: nat)
      modifies this`files
      ensures files == old(files) + [file] && id == |old(files)|
    {
      id := |files|;
      files := files + [file];
    }

    method Close(id: nat)
      modifies this`closed
      ensures closed == old(closed) + [id]
    {
      closed := closed + [id];
    }

    method Popen(launch: Launch) returns (id: nat)
      modifies this`started
      ensures started == old(started) + [launch] && id == |old(started)|
    {
      id := |started|;
      started := started + [launch];
    }

    method Wait(id: nat) returns (code: int)
      requires id < |started|
      modifies this`waited
      ensures waited == old(waited) + [id] && code == exit(started, id)
    {
      waited := waited + [id];
      code := exit(started, id);
    }

    /** Every process started was waited for and every file opened was closed, once and in
        order. */
    predicate Settled()
      reads this
    {
      waited == UpTo(|started|) && closed == UpTo(|files|)
    }
  }

  class Pipeline {
    var currentCommand: Option<Node>
    var pipeline: seq<Node>

    constructor ()
      ensures currentCommand == None && pipeline == []
    {
      currentCommand, pipeline := None, [];
    }

    /** The parse under way, with the local variables of the parser. */
    function Now(state: State, vars: map<string, string>): Parse
      reads this
    {
      Parse.Parse(state, currentCommand, vars, pipeline)
    }

    method CommitCommand()
      requires currentCommand != None
      modifies this
      ensures currentCommand == None && pipeline == old(pipeline) + [old(currentCommand).value]
    {
      pipeline := pipeline + [currentCommand.value];
      currentCommand := None;
    }

    method CommitWith(op: Node)
      requires currentCommand != None
      modifies this
      ensures currentCommand == None && pipeline == old(pipeline) + [old(currentCommand).value, op]
    {
      CommitCommand();
      pipeline := pipeline + [op];
    }

    /** A token inside a command. */
    method TakeCommandToken(token: string, vars: map<string, string>) returns (ok: bool, state: State)
      requires currentCommand.Some? && currentCommand.value.Cmd?
      modifies this
      ensures CommandToken(old(Now(COMMAND, vars)), old(currentCommand).value.command, token)
           == if ok then Some(Now(state, vars)) else None
    {
      var c := currentCommand.value.command;
      ok, state := true, COMMAND;
      if token == ">" {
        state := IN_STDOUT;
      } else if token == "2>" {
        state := IN_STDERR;
      } else if token == "2>&1" {
        if c.stderr != DEFAULT {
          return false, state;
        }
        currentCommand := Some(Cmd(c.(stderr := STDOUT)));
      } else if token == "<" {
        state := IN_STDIN;
      } else if token == "|" {
        if c.stdout != DEFAULT {
          return false, state;
        }
        currentCommand := Some(Cmd(c.(stdout := PIPE)));
        CommitWith(Pipe);
        state := BEGIN;
      } else if token == "&&" {
        CommitWith(And);
        state := BEGIN;
      } else if token == "||" {
        CommitWith(Or);
        state := BEGIN;
      } else {
        currentCommand := Some(Cmd(c.(argv := c.argv + [token])));
      }
    }

    /** One token in any state; not `ok` when an assertion of the parser fails. */
    method TakeToken(env: EnvMatch, token: string, state: State, vars: map<string, string>)
      returns (ok: bool, state': State, vars': map<string, string>)
      requires Consistent(Now(state, vars))
      modifies this
      ensures Token(env, old(Now(state, vars)), token) == if ok then Some(Now(state', vars')) else None
    {
      ok, state', vars' := true, state, vars;
      match state
      case BEGIN =>
        var envVarMatch := env(token);
        if envVarMatch.Some? {
          vars' := vars[envVarMatch.value.0 := envVarMatch.value.1];
        } else if token == "cd" {
          ok := vars == map[];
          currentCommand, state' := Some(Chdir(None)), CHDIR;
        } else {
          currentCommand, vars', state' := Some(Cmd(NewCommand(token, vars))), map[], COMMAND;
        }
      case COMMAND =>
        ok, state' := TakeCommandToken(token, vars);
      case CHDIR =>
        if token == "&&" {
          CommitWith(And);
          state' := BEGIN;
        } else {
          ok := currentCommand.value.dir == None;
          currentCommand := Some(Chdir(Some(token)));
        }
      case IN_STDOUT =>
        var c := currentCommand.value.command;
        ok := c.stdout == DEFAULT;
        currentCommand, state' := Some(Cmd(c.(stdout := FILE(token)))), COMMAND;
      case IN_STDERR =>
        var c := currentCommand.value.command;
        ok := c.stderr == DEFAULT;
        currentCommand, state' := Some(Cmd(c.(stderr := FILE(token)))), COMMAND;
      case IN_STDIN =>
        var c := currentCommand.value.command;
        ok := c.stdin == None;
        currentCommand, state' := Some(Cmd(c.(stdin := Some(token)))), COMMAND;
    }

    /** Parses a token list; not `ok` when an assertion fails. */
    method ParseTokens(env: EnvMatch, command: seq<string>) returns (ok: bool)
      modifies this
      ensures ok <==> ParseFrom(env, START, command).Some?
      ensures ok ==> Some(pipeline) == ParseFrom(env, START, command) && WellFormed(pipeline)
    {
      currentCommand, pipeline := None, [];
      var tokens, state, vars := command, BEGIN, map[];
      while tokens != []
        invariant Consistent(Now(state, vars))
        invariant ParseFrom(env, Now(state, vars), tokens) == ParseFrom(env, START, command)
        decreases |tokens|
      {
        ghost var before := Now(state, vars);
        ok, state, vars := TakeToken(env, tokens[0], state, vars);
        if !ok {
          return;
        }
        TokenConsistent(env, before, tokens[0]);
        tokens := tokens[1..];
      }
      if currentCommand == None {
        return false;
      }
      CommitCommand();
      AcceptedIsWellFormed(env, command);
      return true;
    }

    /** Opens what an output is redirected to. */
    method OpenOutFile(sys: System, r: Redirect, filesToClose: seq<nat>) returns (sink: Sink, filesToClose': seq<nat>)
      requires sys.closed + filesToClose == UpTo(|sys.files|)
      modifies sys`files
      ensures (sink, sys.files) == OutputTo(r, old(sys.files))
      ensures sys.closed + filesToClose' == UpTo(|sys.files|)
    {
      filesToClose' := filesToClose;
      match r
      case DEFAULT => sink := INHERITED;
      case PIPE => sink := TO_PIPE;
      case STDOUT => sink := TO_STDOUT;
      case FILE(name) =>
        if IsNullDevice(name) {
          sink := TO_NULL;
        } else {
          var id := sys.Open(Writing(name));
          NextUpTo(sys.closed, filesToClose, id);
          filesToClose' := filesToClose + [id];
          sink := TO_FILE(id);
        }
    }

    /** Starts a command with its input, outputs and directory. */
    method StartCommand(sys: System, cmd: Command, cwd: string, prev: Option<nat>, filesToClose: seq<nat>)
      returns (proc: nat, filesToClose': seq<nat>)
      requires sys.closed + filesToClose == UpTo(|sys.files|)
      modifies sys`files, sys`started
      ensures World(sys.started, sys.files) == Start(old(World(sys.started, sys.files)), Placed(cmd, cwd), prev)
      ensures proc == |old(sys.started)|
      ensures sys.closed + filesToClose' == UpTo(|sys.files|)
    {
      var stdin, stdout, stderr;
      filesToClose' := filesToClose;
      if prev.Some? {
        stdin := FROM_PROCESS(prev.value);
      } else if cmd.stdin.Some? {
        var id := sys.Open(Reading(cmd.stdin.value));
        NextUpTo(sys.closed, filesToClose, id);
        filesToClose' := filesToClose + [id];
        stdin := FROM_FILE(id);
      } else {
        stdin := INHERIT;
      }
      stdout, filesToClose' := OpenOutFile(sys, cmd.stdout, filesToClose');
      stderr, filesToClose' := OpenOutFile(sys, cmd.stderr, filesToClose');
      var procCwd := if cwd == "." then None else Some(cwd);
      proc := sys.Popen(Launch(cmd.argv, stdin, stdout, stderr, cmd.env, procCwd));
    }

    /** Waits for all commands of a group; the result is 0 if none failed and else the status
        of the last, which is the status of the last in any case. */
    method ExecPipedCommands(sys: System, commands: seq<nat>) returns (retval: int)
      requires commands != [] && forall i :: 0 <= i < |commands| ==> commands[i] < |sys.started|
      modifies sys`waited
      ensures sys.waited == old(sys.waited) + commands
      ensures retval == sys.exit(sys.started, commands[|commands| - 1])
    {
      var retvals := [];
      for i := 0 to |commands|
        invariant |retvals| == i && sys.waited == old(sys.waited) + commands[..i]
        invariant forall j :: 0 <= j < i ==> retvals[j] == sys.exit(sys.started, commands[j])
      {
        var code := sys.Wait(commands[i]);
        retvals := retvals + [code];
      }
      assert commands[..|commands|] == commands;
      retval := 0;
      for i := 0 to |retvals|
        invariant retval == 0 && forall j :: 0 <= j < i ==> retvals[j] == 0
      {
        if retvals[i] != 0 {
          retval := retvals[|retvals| - 1];
          break;
        }
      }
    }

    method CloseAll(sys: System, files: seq<nat>)
      modifies sys`closed
      ensures sys.closed == old(sys.closed) + files
    {
      for i := 0 to |files|
        invariant sys.closed == old(sys.closed) + files[..i]
      {
        sys.Close(files[i]);
      }
      assert files[..|files|] == files;
    }

    /** The end of a group: waits for its processes and closes its files. */
    method FinishGroup(sys: System, pipedCommands: seq<nat>, filesToClose: seq<nat>) returns (retval: int)
      requires pipedCommands != [] && sys.waited + pipedCommands == UpTo(|sys.started|)
      requires sys.closed + filesToClose == UpTo(|sys.files|)
      modifies sys`waited, sys`closed
      ensures sys.Settled() && sys.started != [] && retval == StatusOf(sys.exit, World(sys.started, sys.files))
    {
      ghost var all, k := sys.waited + pipedCommands, |sys.waited|;
      assert forall i :: 0 <= i < |pipedCommands| ==> pipedCommands[i] == all[k + i];
      retval := ExecPipedCommands(sys, pipedCommands);
      CloseAll(sys, filesToClose);
    }

    /** Runs the command in front and then does what the node after it says: ends the group and
        perhaps the run, or goes on. */
    method RunCommand(sys: System, ghost join: Join, nodes: seq<Node>, cwd: string, pipedCommands: seq<nat>,
                      filesToClose: seq<nat>, ghost goal: (Outcome, World))
      returns (done: bool, retval: int, pipedCommands': seq<nat>, filesToClose': seq<nat>)
      requires WellFormed(nodes) && nodes[0].Cmd?
      requires sys.waited + pipedCommands == UpTo(|sys.started|) && sys.closed + filesToClose == UpTo(|sys.files|)
      requires Meaning(sys.exit, join, nodes, cwd, World(sys.started, sys.files), LastOf(pipedCommands)) == goal
      modifies sys
      ensures done ==> sys.Settled() && (Exit(retval), World(sys.started, sys.files)) == goal
      ensures !done ==> |nodes| > 1 && WellFormed(nodes[2..])
      ensures !done ==> sys.waited + pipedCommands' == UpTo(|sys.started|)
      ensures !done ==> sys.closed + filesToClose' == UpTo(|sys.files|)
      ensures !done ==>
                Meaning(sys.exit, join, nodes[2..], cwd, World(sys.started, sys.files), LastOf(pipedCommands')) == goal
    {
      MeaningOfCommand(sys.exit, join, nodes, cwd, World(sys.started, sys.files), LastOf(pipedCommands));
      var proc;
      proc, filesToClose' := StartCommand(sys, nodes[0].command, cwd, LastOf(pipedCommands), filesToClose);
      NextUpTo(sys.waited, pipedCommands, proc);
      pipedCommands' := pipedCommands + [proc];
      if |nodes| > 1 && nodes[1] == Pipe {
        return false, 0, pipedCommands', filesToClose';
      }
      retval := FinishGroup(sys, pipedCommands', filesToClose');
      done := |nodes| == 1 || (nodes[1] == Or && retval == 0) || (nodes[1] == And && retval != 0);
      S.Empty(sys.waited);
      S.Empty(sys.closed);
      pipedCommands', filesToClose' := [], [];
    }

    /** Runs the parsed nodes. The outcome, the processes started, each with its input, outputs
        and directory, and the files opened are those of evaluating the chain the nodes stand
        for; and unless an exception is raised, every process was waited for and every file
        closed. */
    method Run(sys: System, join: Join) returns (outcome: Option<Outcome>)
      requires (pipeline != [] ==> WellFormed(pipeline)) && sys.Settled()
      modifies sys
      ensures outcome == None <==> pipeline == []
      ensures outcome.Some? ==>
                (outcome.value, World(sys.started, sys.files))
                  == Eval(sys.exit, ChainOf(join, pipeline, "."), old(World(sys.started, sys.files)), None)
      ensures outcome != Some(Raised) ==> sys.Settled()
    {
      if pipeline == [] {
        return None;
      }
      var nodes := pipeline;
      var filesToClose, pipedCommands := [], [];
      var cwd := ".";
      S.Empty(sys.waited);
      S.Empty(sys.closed);
      ghost var goal := Meaning(sys.exit, join, nodes, cwd, World(sys.started, sys.files), None);
      while nodes != []
        invariant WellFormed(nodes)
        invariant sys.waited + pipedCommands == UpTo(|sys.started|) && sys.closed + filesToClose == UpTo(|sys.files|)
        invariant Meaning(sys.exit, join, nodes, cwd, World(sys.started, sys.files), LastOf(pipedCommands)) == goal
        decreases |nodes|
      {
        var node := nodes[0];
        if node.Chdir? {
          MeaningOfChdir(sys.exit, join, nodes, cwd, World(sys.started, sys.files), LastOf(pipedCommands));
          if |nodes| == 1 || node.dir == None {
            return Some(Raised);
          }
          cwd := join(cwd, node.dir.value);
        } else {
          var done, retval;
          done, retval, pipedCommands, filesToClose :=
            RunCommand(sys, join, nodes, cwd, pipedCommands, filesToClose, goal);
          if done {
            return Some(Exit(retval));
          }
        }
        nodes := nodes[2..];
      }
    }
  }

  /** Parsing a token list and running what it gives, from a system where nothing is started or
      open. A list that is refused starts nothing, and the run of an accepted one gives the code
      of its evaluation, or none when that raises an exception, which cannot happen if its
      changes of directory are complete. With a code, every process was waited for and every
      file was closed, once and in order. */
  method ParseAndRun(env: EnvMatch, join: Join, exit: ExitCodes, command: seq<string>)
    returns (code: Option<int>, w: World, waited: seq<nat>, closed: seq<nat>)
    ensures ParseFrom(env, START, command) == None ==> code == None && w == World([], [])
    ensures ParseFrom(env, START, command).Some? ==>
              var nodes := ParseFrom(env, START, command).value;
              && WellFormed(nodes)
              && Meaning(exit, join, nodes, ".", World([], []), None)
                 == (if code.Some? then Exit(code.value) else Raised, w)
              && (CdsComplete(nodes) ==> code.Some?)
    ensures code.Some? ==> waited == UpTo(|w.started|) && closed == UpTo(|w.files|)
  {
    var p := new Pipeline();
    var ok := p.ParseTokens(env, command);
    if !ok {
      return None, World([], []), [], [];
    }
    var sys := new System(exit);
    assert sys.Settled();
    var outcome := p.Run(sys, join);
    NeverRaises(join, p.pipeline, ".", World([], []));
    code := if outcome.Some? && outcome.value.Exit? then Some(outcome.value.code) else None;
    return code, World(sys.started, sys.files), sys.waited, sys.closed;
  }
}
