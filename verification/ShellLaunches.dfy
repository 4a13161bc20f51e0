/** What the processes of a line are started with, told from the words of the line. */
module ShellLaunches {
  import opened ShellPipeline
  import opened ShellEvaluation
  import opened ShellComparison
  import opened ShellRunner
  import opened Options
  import S = Sequences

  // ---- variables ----

  /** Some assignment gives this variable. */
  predicate Assigns(env: EnvMatch, assigns: seq<string>, name: string)
    requires forall i :: 0 <= i < |assigns| ==> env(assigns[i]).Some?
  {
    exists i :: 0 <= i < |assigns| && env(assigns[i]).value.0 == name
  }

  /** Assignment `i` is the last that gives its variable. */
  predicate IsLast(env: EnvMatch, assigns: seq<string>, i: nat)
    requires i < |assigns| && forall j :: 0 <= j < |assigns| ==> env(assigns[j]).Some?
  {
    forall j :: i < j < |assigns| ==> env(assigns[j]).value.0 != env(assigns[i]).value.0
  }

  /** Exactly the variables that are assigned have a value, each that of its last assignment. */
  ghost predicate AreVariables(env: EnvMatch, assigns: seq<string>, vars: map<string, string>)
    requires forall i :: 0 <= i < |assigns| ==> env(assigns[i]).Some?
  {
    && (forall name :: name in vars <==> Assigns(env, assigns, name))
    && (forall i :: 0 <= i < |assigns| && IsLast(env, assigns, i) ==>
          env(assigns[i]).value.0 in vars && vars[env(assigns[i]).value.0] == env(assigns[i]).value.1)
  }

  lemma {:induction false} AssignedFromFront(env: EnvMatch, assigns: seq<string>, last: string,
                                             vars: map<string, string>)
    requires env(last).Some? && forall i :: 0 <= i < |assigns| ==> env(assigns[i]).Some?
    ensures Assigned(env, assigns + [last], vars)
         == Assigned(env, assigns, vars)[env(last).value.0 := env(last).value.1]
    decreases |assigns|
  {
    if assigns == [] {
      assert assigns + [last] == [last];
      assert [last][1..] == [];
    } else {
      S.HeadTail(assigns, [last]);
      var pair := env(assigns[0]).value;
      AssignedFromFront(env, assigns[1..], last, vars[pair.0 := pair.1]);
    }
  }

  lemma {:induction false} AssignedAreVariables(env: EnvMatch, assigns: seq<string>)
    requires forall i :: 0 <= i < |assigns| ==> env(assigns[i]).Some?
    ensures AreVariables(env, assigns, Assigned(env, assigns, map[]))
  {
    if assigns != [] {
      var n := |assigns| - 1;
      var front, last := assigns[..n], assigns[n];
      assert assigns == front + [last];
      AssignedAreVariables(env, front);
      AssignedFromFront(env, front, last, map[]);
      OneMoreVariable(env, front, last, Assigned(env, front, map[]));
    }
  }

  lemma OneMoreVariable(env: EnvMatch, front: seq<string>, last: string,
                                             vars: map<string, string>)
    requires env(last).Some? && forall i :: 0 <= i < |front| ==> env(front[i]).Some?
    requires AreVariables(env, front, vars)
    ensures AreVariables(env, front + [last], vars[env(last).value.0 := env(last).value.1])
  {
    var all := front + [last];
    var (name, value) := env(last).value;
    forall x ensures Assigns(env, all, x) <==> Assigns(env, front, x) || x == name {
      if Assigns(env, front, x) {
        var i :| 0 <= i < |front| && env(front[i]).value.0 == x;
        assert all[i] == front[i];
      }
      assert all[|front|] == last;
    }
    forall i | 0 <= i < |front| && IsLast(env, all, i) ensures IsLast(env, front, i) && env(front[i]).value.0 != name {
      assert all[|front|] == last;
      forall j | i < j < |front| ensures env(front[j]).value.0 != env(front[i]).value.0 {
        assert all[j] == front[j];
      }
    }
  }

  // ---- redirections ----

  /** A command has the redirections among its parts, and no others. */
  lemma {:induction false} RedirectionsOf(c: Command, parts: seq<Part>, name: string)
    requires LegalParts(c, parts)
    ensures var d := WithParts(c, parts);
            && (d.stdin == Some(name) <==> c.stdin == Some(name) || In(name) in parts)
            && (d.stdout == FILE(name) <==> c.stdout == FILE(name) || Out(name) in parts)
            && (d.stderr == FILE(name) <==> c.stderr == FILE(name) || Err(name) in parts)
            && (d.stderr == STDOUT <==> c.stderr == STDOUT || ErrToOut in parts)
            && (d.stdout == PIPE <==> c.stdout == PIPE) && (d.stdout == STDOUT <==> c.stdout == STDOUT)
            && (d.stderr == PIPE <==> c.stderr == PIPE)
    decreases |parts|
  {
    if parts != [] {
      var part, rest := parts[0], parts[1..];
      RedirectionsOf(WithPart(c, part), rest, name);
      InParts(parts, In(name));
      InParts(parts, Out(name));
      InParts(parts, Err(name));
      InParts(parts, ErrToOut);
      OneRedirection(c, part, name);
    }
  }

  lemma InParts(parts: seq<Part>, part: Part)
    requires parts != []
    ensures part in parts <==> part == parts[0] || part in parts[1..]
  {
    S.Uncons(parts);
    S.InConcat(part, [parts[0]], parts[1..]);
  }

  lemma OneRedirection(c: Command, part: Part, name: string)
    requires LegalPart(c, part)
    ensures var d := WithPart(c, part);
            && (d.stdin == Some(name) <==> c.stdin == Some(name) || part == In(name))
            && (d.stdout == FILE(name) <==> c.stdout == FILE(name) || part == Out(name))
            && (d.stderr == FILE(name) <==> c.stderr == FILE(name) || part == Err(name))
            && (d.stderr == STDOUT <==> c.stderr == STDOUT || part == ErrToOut)
            && (d.stdout == PIPE <==> c.stdout == PIPE) && (d.stdout == STDOUT <==> c.stdout == STDOUT)
            && (d.stderr == PIPE <==> c.stderr == PIPE)
  {}

  // ---- the process of a command ----

  /** Where a process has its input, its output and its error output, told from the parts of its
      command; `n` files are open before, and `prev` pipes into it. */
  ghost predicate AreStreams(l: Launch, files: seq<OpenFile>, n: nat, parts: seq<Part>, prev: Option<nat>, into: bool) {
    && (prev.Some? ==> l.stdin == FROM_PROCESS(prev.value))
    && (prev == None && (forall name :: In(name) !in parts) ==> l.stdin == INHERIT)
    && (prev == None ==> forall name :: In(name) in parts ==> IsInput(l.stdin, files, n, name))
    && (into ==> l.stdout == TO_PIPE)
    && (!into && (forall name :: Out(name) !in parts) ==> l.stdout == INHERITED)
    && (!into ==> forall name :: Out(name) in parts ==> IsOutput(l.stdout, files, n, name))
    && (ErrToOut in parts ==> l.stderr == TO_STDOUT)
    && (ErrToOut !in parts && (forall name :: Err(name) !in parts) ==> l.stderr == INHERITED)
    && (forall name :: Err(name) in parts ==> IsOutput(l.stderr, files, n, name))
  }

  predicate IsInput(source: Source, files: seq<OpenFile>, n: nat, name: string) {
    source.FROM_FILE? && n <= source.file < |files| && files[source.file] == Reading(name)
  }

  predicate IsOutput(sink: Sink, files: seq<OpenFile>, n: nat, name: string) {
    if name == "NUL:" || name == "/dev/null" then sink == TO_NULL
    else sink.TO_FILE? && n <= sink.file < |files| && files[sink.file] == Writing(name)
  }

  /** The program starts one process for a segment: its words are the name and the arguments, its
      variables those assigned, its streams as redirected, its directory that of the `cd`s before,
      left out when that is the program's own. */
  lemma LaunchOfSegment(env: EnvMatch, segment: Segment, cwd: string, w: World, prev: Option<nat>, into: bool)
    requires LegalSegment(env, segment) && segment.Run? && (into ==> NodeOf(env, segment).command.stdout == DEFAULT)
    ensures var w' := ProgramStart(env, segment, cwd, w, prev, into);
            && |w'.started| == |w.started| + 1 && w.started <= w'.started && w.files <= w'.files
            && var l := w'.started[|w.started|];
            && l.argv == [segment.name] + Words(segment.parts)
            && AreVariables(env, segment.assigns, l.env)
            && l.cwd == (if cwd == "." then None else Some(cwd))
            && AreStreams(l, w'.files, |w.files|, segment.parts, prev, into)
  {
    var vars := Assigned(env, segment.assigns, map[]);
    var c := Command([segment.name], None, DEFAULT, DEFAULT, vars);
    assert NewCommand(segment.name, vars) == c;
    AssignedAreVariables(env, segment.assigns);
    PartsAddWords(c, segment.parts);
    var d := Into(WithParts(c, segment.parts), into);
    StartIs(d, cwd, w, prev);
    StartGrows(d, cwd, w, prev);
    StreamsOfParts(c, segment.parts, cwd, w, prev, into);
  }

  lemma StreamsOfParts(c: Command, parts: seq<Part>, cwd: string, w: World, prev: Option<nat>, into: bool)
    requires LegalParts(c, parts) && c.stdin == None && c.stdout == DEFAULT && c.stderr == DEFAULT
    requires into ==> WithParts(c, parts).stdout == DEFAULT
    ensures var s := ProgramStreams(Into(WithParts(c, parts), into), prev, w.files);
            AreStreams(LaunchWith(c, cwd, s), s.files, |w.files|, parts, prev, into)
  {
    var d := WithParts(c, parts);
    forall name
      ensures d.stdin == Some(name) <==> In(name) in parts
      ensures d.stdout == FILE(name) <==> Out(name) in parts
      ensures d.stderr == FILE(name) <==> Err(name) in parts
      ensures d.stderr == STDOUT <==> ErrToOut in parts
      ensures d.stdout != PIPE && d.stdout != STDOUT && d.stderr != PIPE
    {
      RedirectionsOf(c, parts, name);
    }
    RedirectionsOf(c, parts, "");
  }

  // ---- the first processes of a line ----

  lemma {:induction false} StartAllGrows(w: World, cs: seq<Placed>, prev: Option<nat>)
    ensures Grows(w, StartAll(w, cs, prev))
    decreases |cs|
  {
    if cs != [] {
      StartGrows(cs[0].command, cs[0].cwd, w, prev);
      StartAllGrows(Start(w, cs[0], prev), cs[1..], Some(|w.started|));
    }
  }

  lemma {:induction false} EvalGrows(exit: ExitCodes, chain: Chain, w: World, prev: Option<nat>)
    requires Proper(chain)
    ensures Grows(w, Eval(exit, chain, w, prev).1)
    decreases chain
  {
    StartAllGrows(w, chain.commands, prev);
    if chain.AndThen? || chain.OrElse? {
      EvalGrows(exit, chain.rest, StartAll(w, chain.commands, prev), None);
    }
  }

  lemma LineGrows(exit: ExitCodes, join: Join, env: EnvMatch, line: Line, cwd: string, w: World, prev: Option<nat>)
    requires LegalLine(env, line)
    ensures Grows(w, RunLine(exit, join, env, line, cwd, w, prev).1)
  {
    LineNodes(env, line);
    EvalGrows(exit, ChainOf(join, NodesOf(env, line), cwd), w, prev);
  }

  /** What the first command of a line is started as, whatever follows it. */
  ghost predicate StartsWith(env: EnvMatch, line: Line, w: World)
    requires LegalLine(env, line)
  {
    line.segment.Run? && w.started != [] &&
    var l, s := w.started[0], line.segment;
    && l.argv == [s.name] + Words(s.parts)
    && AreVariables(env, s.assigns, l.env)
    && l.cwd == None
    && AreStreams(l, w.files, 0, s.parts, None, line.Then? && line.op == Pipe)
  }

  lemma StreamsStay(l: Launch, files: seq<OpenFile>, more: seq<OpenFile>, n: nat, parts: seq<Part>,
                    prev: Option<nat>, into: bool)
    requires AreStreams(l, files, n, parts, prev, into) && files <= more
    ensures AreStreams(l, more, n, parts, prev, into)
  {
    forall name | prev == None && In(name) in parts ensures IsInput(l.stdin, more, n, name) {
      assert IsInput(l.stdin, files, n, name);
    }
    forall name | !into && Out(name) in parts ensures IsOutput(l.stdout, more, n, name) {
      assert IsOutput(l.stdout, files, n, name);
    }
    forall name | Err(name) in parts ensures IsOutput(l.stderr, more, n, name) {
      assert IsOutput(l.stderr, files, n, name);
    }
  }

  lemma FirstLaunch(exit: ExitCodes, join: Join, env: EnvMatch, line: Line)
    requires LegalLine(env, line) && line.segment.Run?
    ensures StartsWith(env, line, RunLine(exit, join, env, line, ".", World([], []), None).1)
  {
    var w, into := World([], []), line.Then? && line.op == Pipe;
    LaunchOfSegment(env, line.segment, ".", w, None, into);
    RunOfCommand(exit, join, env, line, ".", w, None);
    var w' := ProgramStart(env, line.segment, ".", w, None, into);
    var end := RunLine(exit, join, env, line, ".", w, None).1;
    if line.Then? {
      LineGrows(exit, join, env, line.rest, ".", w', if into then Some(0) else None);
      LineGrows(exit, join, env, line.rest, ".", w', None);
    }
    assert Grows(w', end);
    StreamsStay(w'.started[0], w'.files, end.files, 0, line.segment.parts, None, into);
  }

  /** `a | b` with any words: the second process reads from the first, and its status is that of
      the line. */
  lemma PipeFeedsNext(exit: ExitCodes, join: Join, env: EnvMatch, a: Segment, b: Segment)
    requires LegalLine(env, Then(a, Pipe, Last(b))) && b.Run?
    ensures var (outcome, w) := RunLine(exit, join, env, Then(a, Pipe, Last(b)), ".", World([], []), None);
            && |w.started| == 2 && outcome == Exit(exit(w.started, 1))
            && w.started[0].stdout == TO_PIPE && w.started[1].stdin == FROM_PROCESS(0)
            && w.started[0].argv == [a.name] + Words(a.parts) && w.started[1].argv == [b.name] + Words(b.parts)
  {
    var line, w := Then(a, Pipe, Last(b)), World([], []);
    LaunchOfSegment(env, a, ".", w, None, true);
    RunOfCommand(exit, join, env, line, ".", w, None);
    var w' := ProgramStart(env, a, ".", w, None, true);
    LaunchOfSegment(env, b, ".", w', Some(0), false);
    RunOfCommand(exit, join, env, Last(b), ".", w', Some(0));
  }

  /** Parsing and running the words of a line starts its first command with its own words,
      variables and streams. */
  method RunWords(env: EnvMatch, join: Join, exit: ExitCodes, line: Line) returns (code: Option<int>, w: World)
    requires LegalLine(env, line) && line.segment.Run?
    ensures StartsWith(env, line, w)
    ensures RunLine(exit, join, env, line, ".", World([], []), None)
         == (if code.Some? then Exit(code.value) else Raised, w)
  {
    Accepted(env, line);
    FirstLaunch(exit, join, env, line);
    var waited, closed;
    code, w, waited, closed := ParseAndRun(env, join, exit, LineTokens(line));
  }
}
