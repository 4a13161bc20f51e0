/** What the shell does with the command lines that the parser accepts, and when the runner does
    the same. Words are taken as if quoted, so that none of them is an operator, a reserved word or
    expanded, and every command but `cd` as a program that is found and started; which words are
    assignments is for the parser to say, and a status is what the program learns by waiting. A
    file can be opened and a directory entered. A line here has no redirection operator left over
    at its end, which the parser drops and the shell refuses. */
module ShellComparison {
  import opened ShellPipeline
  import opened ShellEvaluation
  import opened Options
  import S = Sequences

  /** What is particular to a shell: where a `cd` leads, given the directories it has been in, the
      last of which is the current one; where a `cd` without a directory leads; and by what name
      the program knows a file that is named in another directory than its own. */
  datatype Shell = Shell(chdir: (seq<string>, string) -> string, home: string, seen: (string, string) -> string)

  function Current(dirs: seq<string>): string
    requires dirs != []
  {
    dirs[|dirs| - 1]
  }

  function SeenFrom(sh: Shell, dir: string, name: string): string {
    if dir == "." then name else sh.seen(dir, name)
  }

  // ---- how the shell starts a command ----

  /** The streams of a process to be started, and the files opened so far. */
  datatype Streams = Streams(stdin: Source, stdout: Sink, stderr: Sink, files: seq<OpenFile>)

  /** Pipes come before redirections (section 2.9.2 of the POSIX.1-2017 Shell Command Language). */
  function FirstStreams(prev: Option<nat>, into: bool, files: seq<OpenFile>): Streams {
    Streams(if prev.Some? then FROM_PROCESS(prev.value) else INHERIT,
            if into then TO_PIPE else INHERITED, INHERITED, files)
  }

  /** What a stream keeps that was made the same as an output that then goes elsewhere. */
  function Kept(stdout: Sink): Sink {
    if stdout == INHERITED then TO_OUTER_STDOUT else stdout
  }

  /** Redirections are performed one by one from the left (section 2.7), on files named in the
      current directory. */
  function Redirected(sh: Shell, dir: string, s: Streams, part: Part): Streams {
    var id := |s.files|;
    match part
    case Arg(_) => s
    case In(name) => s.(stdin := FROM_FILE(id), files := s.files + [Reading(SeenFrom(sh, dir, name))])
    case Out(name) =>
      var t := s.(stderr := if s.stderr == TO_STDOUT then Kept(s.stdout) else s.stderr);
      if name == "/dev/null" then t.(stdout := TO_NULL)
      else t.(stdout := TO_FILE(id), files := t.files + [Writing(SeenFrom(sh, dir, name))])
    case Err(name) =>
      if name == "/dev/null" then s.(stderr := TO_NULL)
      else s.(stderr := TO_FILE(id), files := s.files + [Writing(SeenFrom(sh, dir, name))])
    case ErrToOut => s.(stderr := TO_STDOUT)
  }

  function RedirectedAll(sh: Shell, dir: string, s: Streams, parts: seq<Part>): Streams
    decreases |parts|
  {
    if parts == [] then s else RedirectedAll(sh, dir, Redirected(sh, dir, s, parts[0]), parts[1..])
  }

  function Words(parts: seq<Part>): seq<string> {
    if parts == [] then [] else (if parts[0].Arg? then [parts[0].word] else []) + Words(parts[1..])
  }

  function LaunchWith(c: Command, cwd: string, s: Streams): Launch {
    Launch(c.argv, s.stdin, s.stdout, s.stderr, c.env, if cwd == "." then None else Some(cwd))
  }

  /** The shell starts the command of a segment. */
  function ShellStart(sh: Shell, env: EnvMatch, segment: Segment, dir: string, w: World, prev: Option<nat>,
                      into: bool): World
    requires LegalSegment(env, segment) && segment.Run?
  {
    var s := RedirectedAll(sh, dir, FirstStreams(prev, into, w.files), segment.parts);
    var c := NewCommand(segment.name, Assigned(env, segment.assigns, map[]));
    World(w.started + [LaunchWith(c.(argv := c.argv + Words(segment.parts)), dir, s)], s.files)
  }

  // ---- and how the program does ----

  function ProgramStreams(c: Command, prev: Option<nat>, files: seq<OpenFile>): Streams {
    var (stdin, f0) := InputFrom(c, prev, files);
    var (stdout, f1) := OutputTo(c.stdout, f0);
    var (stderr, f2) := OutputTo(c.stderr, f1);
    Streams(stdin, stdout, stderr, f2)
  }

  function Into(c: Command, into: bool): Command {
    if into then c.(stdout := PIPE) else c
  }

  lemma StartIs(c: Command, cwd: string, w: World, prev: Option<nat>)
    ensures var s := ProgramStreams(c, prev, w.files);
            Start(w, Placed(c, cwd), prev) == World(w.started + [LaunchWith(c, cwd, s)], s.files)
  {}

  predicate OpensFile(r: Redirect) {
    r.FILE? && !IsNullDevice(r.name)
  }

  /** Whether the program deals with a redirection as the shell does, after those in `c`: it
      ignores an input file behind a pipe, opens input, output and error output in this order,
      makes error output the same as output last, takes the name NUL: for the null device, and
      knows files only by their names in its own directory. */
  predicate Fitting(sh: Shell, dir: string, c: Command, part: Part, piped: bool) {
    match part
    case In(name) => !piped && !OpensFile(c.stdout) && !OpensFile(c.stderr) && SeenFrom(sh, dir, name) == name
    case Out(name) =>
      && name != "NUL:" && c.stderr != STDOUT
      && (name != "/dev/null" ==> !OpensFile(c.stderr) && SeenFrom(sh, dir, name) == name)
    case Err(name) => name != "NUL:" && (name != "/dev/null" ==> SeenFrom(sh, dir, name) == name)
    case _ => true
  }

  predicate AllFitting(sh: Shell, dir: string, c: Command, parts: seq<Part>, piped: bool)
    decreases |parts|
  {
    parts != [] ==>
      Fitting(sh, dir, c, parts[0], piped) && AllFitting(sh, dir, WithPart(c, parts[0]), parts[1..], piped)
  }

  lemma FittingAgrees(sh: Shell, dir: string, c: Command, part: Part, prev: Option<nat>, into: bool,
                      files: seq<OpenFile>)
    requires LegalPart(c, part) && Fitting(sh, dir, c, part, prev.Some?) && (into ==> !part.Out?)
    ensures Redirected(sh, dir, ProgramStreams(Into(c, into), prev, files), part)
         == ProgramStreams(Into(WithPart(c, part), into), prev, files)
  {}

  /** What legal parts leave alone: redirections are made once. */
  lemma {:induction false} PartsKeep(sh: Shell, dir: string, c: Command, parts: seq<Part>, s: Streams)
    requires LegalParts(c, parts)
    ensures var d, t := WithParts(c, parts), RedirectedAll(sh, dir, s, parts);
            && s.files <= t.files
            && (c.stdin.Some? ==> d.stdin == c.stdin && t.stdin == s.stdin)
            && (c.stdout.FILE? ==> d.stdout == c.stdout && t.stdout == s.stdout)
            && (c.stderr.FILE? ==> d.stderr == c.stderr && (s.stderr != TO_STDOUT ==> t.stderr == s.stderr))
            && (c.stderr == STDOUT ==> d.stderr == STDOUT && (s.stderr != TO_STDOUT ==> t.stderr == s.stderr))
    decreases |parts|
  {
    if parts != [] {
      PartsKeep(sh, dir, WithPart(c, parts[0]), parts[1..], Redirected(sh, dir, s, parts[0]));
    }
  }

  predicate StreamsApart(a: Streams, b: Streams) {
    || a.stdin != b.stdin || a.stdout != b.stdout || a.stderr != b.stderr
    || exists i :: 0 <= i < |a.files| && i < |b.files| && a.files[i] != b.files[i]
  }

  lemma UnfittingInput(sh: Shell, dir: string, c: Command, name: string, rest: seq<Part>, prev: Option<nat>, into: bool,
                       files: seq<OpenFile>)
    requires LegalPart(c, In(name)) && LegalParts(WithPart(c, In(name)), rest) && (into ==> !c.stdout.FILE?)
    requires !Fitting(sh, dir, c, In(name), prev.Some?)
    ensures var s := Redirected(sh, dir, ProgramStreams(Into(c, into), prev, files), In(name));
            var d := WithParts(WithPart(c, In(name)), rest);
            StreamsApart(ProgramStreams(Into(d, into), prev, files), RedirectedAll(sh, dir, s, rest))
  {
    var s0 := ProgramStreams(Into(c, into), prev, files);
    var s, c' := Redirected(sh, dir, s0, In(name)), WithPart(c, In(name));
    PartsKeep(sh, dir, c', rest, s);
    var p, t := ProgramStreams(Into(WithParts(c', rest), into), prev, files), RedirectedAll(sh, dir, s, rest);
    assert t.stdin == FROM_FILE(|s0.files|) && t.files[|s0.files|] == Reading(SeenFrom(sh, dir, name));
    if prev == None {
      assert p.stdin == FROM_FILE(|files|) && p.files[|files|] == Reading(name);
    }
  }

  lemma UnfittingOutput(sh: Shell, dir: string, c: Command, name: string, rest: seq<Part>, prev: Option<nat>,
                        files: seq<OpenFile>)
    requires LegalPart(c, Out(name)) && LegalParts(WithPart(c, Out(name)), rest)
    requires !Fitting(sh, dir, c, Out(name), prev.Some?)
    ensures var s := Redirected(sh, dir, ProgramStreams(c, prev, files), Out(name));
            var d := WithParts(WithPart(c, Out(name)), rest);
            StreamsApart(ProgramStreams(d, prev, files), RedirectedAll(sh, dir, s, rest))
  {
    var s0 := ProgramStreams(c, prev, files);
    var s, c' := Redirected(sh, dir, s0, Out(name)), WithPart(c, Out(name));
    PartsKeep(sh, dir, c', rest, s);
    var p, t := ProgramStreams(WithParts(c', rest), prev, files), RedirectedAll(sh, dir, s, rest);
    if c.stderr == STDOUT {
      assert p.stderr == TO_STDOUT && t.stderr == TO_OUTER_STDOUT;
    } else if name != "/dev/null" {
      var id := |s0.files|;
      assert t.stdout == TO_FILE(id) && t.files[id] == Writing(SeenFrom(sh, dir, name));
      if name != "NUL:" {
        assert p.stdout.TO_FILE? && p.files[p.stdout.file] == Writing(name);
        if OpensFile(c.stderr) {
          assert p.stderr == TO_FILE(p.stdout.file + 1) && t.stderr == s0.stderr && s0.stderr.file < id;
        }
      }
    }
  }

  lemma UnfittingError(sh: Shell, dir: string, c: Command, name: string, rest: seq<Part>, prev: Option<nat>, into: bool,
                       files: seq<OpenFile>)
    requires LegalPart(c, Err(name)) && LegalParts(WithPart(c, Err(name)), rest)
    requires !Fitting(sh, dir, c, Err(name), prev.Some?)
    ensures var s := Redirected(sh, dir, ProgramStreams(Into(c, into), prev, files), Err(name));
            var d := WithParts(WithPart(c, Err(name)), rest);
            StreamsApart(ProgramStreams(Into(d, into), prev, files), RedirectedAll(sh, dir, s, rest))
  {
    var s0 := ProgramStreams(Into(c, into), prev, files);
    var s, c' := Redirected(sh, dir, s0, Err(name)), WithPart(c, Err(name));
    PartsKeep(sh, dir, c', rest, s);
    var p, t := ProgramStreams(Into(WithParts(c', rest), into), prev, files), RedirectedAll(sh, dir, s, rest);
    var id := |s0.files|;
    assert t.stderr == TO_FILE(id) && t.files[id] == Writing(SeenFrom(sh, dir, name));
    if name != "NUL:" {
      assert p.stderr.TO_FILE? && p.files[p.stderr.file] == Writing(name);
    }
  }

  /** The streams of a command are those the shell gives it if all its redirections fit, and
      otherwise they are, or what they lead to is, different. */
  lemma {:induction false} ComparedStreams(sh: Shell, dir: string, c: Command, parts: seq<Part>, prev: Option<nat>,
                                           into: bool, files: seq<OpenFile>)
    requires LegalParts(c, parts) && (into ==> !WithParts(c, parts).stdout.FILE?)
    ensures var p := ProgramStreams(Into(WithParts(c, parts), into), prev, files);
            var s := RedirectedAll(sh, dir, ProgramStreams(Into(c, into), prev, files), parts);
            if AllFitting(sh, dir, c, parts, prev.Some?) then p == s else StreamsApart(p, s)
    decreases |parts|
  {
    if parts != [] {
      var part, rest := parts[0], parts[1..];
      var s := ProgramStreams(Into(c, into), prev, files);
      PartsKeep(sh, dir, c, parts, s);
      PartsKeep(sh, dir, WithPart(c, part), rest, Redirected(sh, dir, s, part));
      if Fitting(sh, dir, c, part, prev.Some?) {
        FittingAgrees(sh, dir, c, part, prev, into, files);
        ComparedStreams(sh, dir, WithPart(c, part), rest, prev, into, files);
      } else {
        match part
        case In(name) => UnfittingInput(sh, dir, c, name, rest, prev, into, files);
        case Out(name) => UnfittingOutput(sh, dir, c, name, rest, prev, files);
        case Err(name) => UnfittingError(sh, dir, c, name, rest, prev, into, files);
      }
    }
  }

  // ---- worlds ----

  predicate Grows(a: World, b: World) {
    a.started <= b.started && a.files <= b.files
  }

  predicate WorldsApart(a: World, b: World) {
    || (exists i :: 0 <= i < |a.started| && i < |b.started| && a.started[i] != b.started[i])
    || (exists i :: 0 <= i < |a.files| && i < |b.files| && a.files[i] != b.files[i])
  }

  lemma StayApart(a: World, b: World, a': World, b': World)
    requires WorldsApart(a, b) && Grows(a, a') && Grows(b, b')
    ensures a' != b'
  {
    if i :| 0 <= i < |a.started| && i < |b.started| && a.started[i] != b.started[i] {
      assert a'.started[i] != b'.started[i];
    } else {
      var i :| 0 <= i < |a.files| && i < |b.files| && a.files[i] != b.files[i];
      assert a'.files[i] != b'.files[i];
    }
  }

  /** Whether the program starts the command of a segment as the shell does. */
  predicate StartsAlike(sh: Shell, env: EnvMatch, segment: Segment, dirs: seq<string>, cwd: string, piped: bool)
    requires LegalSegment(env, segment) && segment.Run? && dirs != []
  {
    && Current(dirs) == cwd
    && AllFitting(sh, cwd, NewCommand(segment.name, Assigned(env, segment.assigns, map[])), segment.parts, piped)
  }

  lemma {:induction false} PartsAddWords(c: Command, parts: seq<Part>)
    ensures WithParts(c, parts).argv == c.argv + Words(parts) && WithParts(c, parts).env == c.env
    decreases |parts|
  {
    if parts == [] {
      S.Empty(c.argv);
    } else {
      PartsAddWords(WithPart(c, parts[0]), parts[1..]);
      S.Empty(Words(parts[1..]));
      if parts[0].Arg? {
        S.Assoc(c.argv, [parts[0].word], Words(parts[1..]));
      }
    }
  }

  /** What the program starts for a segment, into a pipe or not. */
  function ProgramStart(env: EnvMatch, segment: Segment, cwd: string, w: World, prev: Option<nat>, into: bool): World
    requires LegalSegment(env, segment) && segment.Run?
  {
    Start(w, Placed(Into(NodeOf(env, segment).command, into), cwd), prev)
  }

  lemma LaunchesApart(c: Command, cwd: string, a: Streams, d: Command, dir: string, b: Streams, w: World)
    requires c.argv == d.argv && c.env == d.env && w.files <= a.files && w.files <= b.files
    ensures var u := World(w.started + [LaunchWith(c, cwd, a)], a.files);
            var v := World(w.started + [LaunchWith(d, dir, b)], b.files);
            && Grows(w, u) && Grows(w, v)
            && (cwd != dir || StreamsApart(a, b) ==> WorldsApart(u, v))
  {
    var u := World(w.started + [LaunchWith(c, cwd, a)], a.files);
    var v := World(w.started + [LaunchWith(d, dir, b)], b.files);
    assert u.started[|w.started|] == LaunchWith(c, cwd, a) && v.started[|w.started|] == LaunchWith(d, dir, b);
  }

  lemma ComparedStarts(sh: Shell, env: EnvMatch, segment: Segment, dirs: seq<string>, cwd: string, w: World,
                       prev: Option<nat>, into: bool)
    requires LegalSegment(env, segment) && segment.Run? && dirs != []
    requires into ==> NodeOf(env, segment).command.stdout == DEFAULT
    ensures var a := ProgramStart(env, segment, cwd, w, prev, into);
            var b := ShellStart(sh, env, segment, Current(dirs), w, prev, into);
            && Grows(w, a) && Grows(w, b) && |w.started| + 1 == |a.started| == |b.started|
            && if StartsAlike(sh, env, segment, dirs, cwd, prev.Some?) then a == b else WorldsApart(a, b)
  {
    var c, parts := NewCommand(segment.name, Assigned(env, segment.assigns, map[])), segment.parts;
    var d, e := Into(WithParts(c, parts), into), c.(argv := c.argv + Words(parts));
    var dir := Current(dirs);
    var p := ProgramStreams(d, prev, w.files);
    var s := RedirectedAll(sh, dir, FirstStreams(prev, into, w.files), parts);
    PartsAddWords(c, parts);
    StartIs(d, cwd, w, prev);
    PartsKeep(sh, dir, c, parts, FirstStreams(prev, into, w.files));
    assert ProgramStreams(Into(c, into), prev, w.files) == FirstStreams(prev, into, w.files);
    ComparedStreams(sh, dir, c, parts, prev, into, w.files);
    LaunchesApart(d, cwd, p, e, dir, s, w);
  }

  // ---- lines ----

  lemma LineNodes(env: EnvMatch, line: Line)
    requires LegalLine(env, line)
    ensures var nodes := NodesOf(env, line);
            && WellFormed(nodes)
            && (line.Last? ==> nodes == [NodeOf(env, line.segment)])
            && (line.Then? ==> |nodes| > 2 && nodes[0] == BeforeOp(NodeOf(env, line.segment), line.op)
                               && nodes[1] == line.op && nodes[2..] == NodesOf(env, line.rest))
  {
    S.Empty(LineTokens(line));
    S.Empty(NodesOf(env, line));
    ParseSpelled(env, [], line, [], LineTokens(line));
    AcceptedIsWellFormed(env, LineTokens(line));
    if line.Then? {
      LineNodesNotEmpty(env, line.rest);
    }
  }

  lemma LineNodesNotEmpty(env: EnvMatch, line: Line)
    requires LegalLine(env, line)
    ensures NodesOf(env, line) != []
  {}

  /** What the program does with a line. */
  function RunLine(exit: ExitCodes, join: Join, env: EnvMatch, line: Line, cwd: string, w: World, prev: Option<nat>)
    : (Outcome, World)
    requires LegalLine(env, line)
  {
    LineNodes(env, line);
    Meaning(exit, join, NodesOf(env, line), cwd, w, prev)
  }

  /** No `cd` at the end and none without a directory. */
  predicate Complete(line: Line) {
    match line
    case Last(segment) => segment.Run?
    case Then(segment, _, rest) => segment != Cd(None) && Complete(rest)
  }

  lemma RunOfCd(exit: ExitCodes, join: Join, env: EnvMatch, line: Line, cwd: string, w: World, prev: Option<nat>)
    requires LegalLine(env, line) && Complete(line) && line.segment.Cd?
    ensures line.Then? && line.op == And && line.segment.dir.Some?
    ensures RunLine(exit, join, env, line, cwd, w, prev)
         == RunLine(exit, join, env, line.rest, join(cwd, line.segment.dir.value), w, prev)
  {
    LineNodes(env, line);
    LineNodes(env, line.rest);
    MeaningOfChdir(exit, join, NodesOf(env, line), cwd, w, prev);
  }

  lemma RunOfCommand(exit: ExitCodes, join: Join, env: EnvMatch, line: Line, cwd: string, w: World, prev: Option<nat>)
    requires LegalLine(env, line) && line.segment.Run?
    ensures var into := line.Then? && line.op == Pipe;
            var w' := ProgramStart(env, line.segment, cwd, w, prev, into);
            var status := StatusOf(exit, w');
            RunLine(exit, join, env, line, cwd, w, prev) ==
            if line.Last? then (Exit(status), w')
            else if line.op == Pipe then RunLine(exit, join, env, line.rest, cwd, w', Some(|w.started|))
            else if (line.op == And) == (status == 0) then RunLine(exit, join, env, line.rest, cwd, w', None)
            else (Exit(status), w')
  {
    LineNodes(env, line);
    MeaningOfCommand(exit, join, NodesOf(env, line), cwd, w, prev);
    if line.Then? {
      LineNodes(env, line.rest);
    }
  }

  /** What the shell makes of a line (sections 2.9.2, 2.9.3 and 2.12). `&&` and `||` bind alike and
      to the left, so each pipe group is run or skipped by the status of what was run last. A `cd`
      is a command like any other: run, it gives status 0 and changes the directory, unless it
      stands in a pipe, where it has an environment of its own. */
  function ShellLine(exit: ExitCodes, sh: Shell, env: EnvMatch, line: Line, dirs: seq<string>, w: World,
                     prev: Option<nat>, run: bool, status: int): (int, World)
    requires LegalLine(env, line) && dirs != []
    decreases line
  {
    var first := line.segment;
    var dirs' :=
      if !run || prev.Some? || first.Run? then dirs
      else dirs + [if first.dir == None then sh.home else sh.chdir(dirs, first.dir.value)];
    var w' :=
      if run && first.Run? then ShellStart(sh, env, first, Current(dirs), w, prev, line.Then? && line.op == Pipe)
      else w;
    var status' := if !run then status else if first.Run? then StatusOf(exit, w') else 0;
    match line
    case Last(_) => (status', w')
    case Then(_, op, rest) =>
      if op == Pipe then ShellLine(exit, sh, env, rest, dirs', w', if run then Some(|w.started|) else None, run, status)
      else ShellLine(exit, sh, env, rest, dirs', w', None, (op == And) == (status' == 0), status')
  }

  predicate SameAsShell(exit: ExitCodes, sh: Shell, join: Join, env: EnvMatch, line: Line, dirs: seq<string>,
                        cwd: string, w: World, prev: Option<nat>, status: int)
    requires LegalLine(env, line) && dirs != []
  {
    var (code, w') := ShellLine(exit, sh, env, line, dirs, w, prev, true, status);
    RunLine(exit, join, env, line, cwd, w, prev) == (Exit(code), w')
  }

  predicate HasOp(line: Line, op: Node) {
    line.Then? && (line.op == op || HasOp(line.rest, op))
  }

  /** The operator that does not end the run. */
  function OtherOp(op: Node): Node {
    if op == And then Or else And
  }

  /** Whether the run and the shell go the same way: the run comes to no `cd` in a pipe and to no
      command that the program starts otherwise, and after the operator at which it ends, if any,
      there is none of the other kind, be it the `&&` after a `cd`. */
  predicate GoesTheSameWay(exit: ExitCodes, sh: Shell, join: Join, env: EnvMatch, line: Line, dirs: seq<string>,
                           cwd: string, w: World, prev: Option<nat>)
    requires LegalLine(env, line) && Complete(line) && dirs != []
    decreases line
  {
    if line.segment.Cd? then
      var d := line.segment.dir.value;
      prev == None && GoesTheSameWay(exit, sh, join, env, line.rest, dirs + [sh.chdir(dirs, d)], join(cwd, d), w, None)
    else
      StartsAlike(sh, env, line.segment, dirs, cwd, prev.Some?) &&
      match line
      case Last(_) => true
      case Then(_, op, rest) =>
        var w' := ProgramStart(env, line.segment, cwd, w, prev, op == Pipe);
        if op == Pipe then GoesTheSameWay(exit, sh, join, env, rest, dirs, cwd, w', Some(|w.started|))
        else if (op == And) == (StatusOf(exit, w') == 0) then
          GoesTheSameWay(exit, sh, join, env, rest, dirs, cwd, w', None)
        else !HasOp(rest, OtherOp(op))
  }

  /** The shell goes back on nothing, and what it runs starts a command of its own. */
  lemma {:induction false} ShellGrows(exit: ExitCodes, sh: Shell, env: EnvMatch, line: Line, dirs: seq<string>,
                                      w: World, prev: Option<nat>, run: bool, status: int)
    requires LegalLine(env, line) && Complete(line) && dirs != []
    ensures var w' := ShellLine(exit, sh, env, line, dirs, w, prev, run, status).1;
            && Grows(w, w') && (run ==> |w.started| < |w'.started|)
            && (run && prev == None ==> !w'.started[|w.started|].stdin.FROM_PROCESS?)
    decreases line
  {
    var first := line.segment;
    var into := line.Then? && line.op == Pipe;
    var dirs' :=
      if !run || prev.Some? || first.Run? then dirs
      else dirs + [if first.dir == None then sh.home else sh.chdir(dirs, first.dir.value)];
    var w' := if run && first.Run? then ShellStart(sh, env, first, Current(dirs), w, prev, into) else w;
    var status' := if !run then status else if first.Run? then StatusOf(exit, w') else 0;
    if run && first.Run? {
      ComparedStarts(sh, env, first, dirs, Current(dirs), w, prev, into);
      RedirectedInput(sh, Current(dirs), FirstStreams(prev, into, w.files), first.parts);
    }
    if into {
      ShellGrows(exit, sh, env, line.rest, dirs', w', if run then Some(|w.started|) else None, run, status);
    } else if line.Then? {
      ShellGrows(exit, sh, env, line.rest, dirs', w', None, (line.op == And) == (status' == 0), status');
    }
  }

  lemma {:induction false} RedirectedInput(sh: Shell, dir: string, s: Streams, parts: seq<Part>)
    ensures RedirectedAll(sh, dir, s, parts).stdin.FROM_PROCESS? ==> s.stdin.FROM_PROCESS?
    decreases |parts|
  {
    if parts != [] {
      RedirectedInput(sh, dir, Redirected(sh, dir, s, parts[0]), parts[1..]);
    }
  }

  lemma StartGrows(c: Command, cwd: string, w: World, prev: Option<nat>)
    ensures var w' := Start(w, Placed(c, cwd), prev);
            && Grows(w, w') && |w'.started| == |w.started| + 1
            && (prev.Some? ==> w'.started[|w.started|].stdin.FROM_PROCESS?)
  {}

  /** So does the run, and it keeps the pipe. */
  lemma {:induction false} RunGrows(exit: ExitCodes, join: Join, env: EnvMatch, line: Line, cwd: string, w: World,
                                    prev: Option<nat>)
    requires LegalLine(env, line) && Complete(line)
    ensures var w' := RunLine(exit, join, env, line, cwd, w, prev).1;
            && Grows(w, w') && |w.started| < |w'.started|
            && (prev.Some? ==> w'.started[|w.started|].stdin.FROM_PROCESS?)
    decreases line
  {
    if line.segment.Cd? {
      RunOfCd(exit, join, env, line, cwd, w, prev);
      RunGrows(exit, join, env, line.rest, join(cwd, line.segment.dir.value), w, prev);
    } else {
      var into := line.Then? && line.op == Pipe;
      var w' := ProgramStart(env, line.segment, cwd, w, prev, into);
      RunOfCommand(exit, join, env, line, cwd, w, prev);
      StartGrows(Into(NodeOf(env, line.segment).command, into), cwd, w, prev);
      if line.Then? {
        RunGrows(exit, join, env, line.rest, cwd, w', if into then Some(|w.started|) else None);
      }
    }
  }

  /** What follows a short circuit is skipped altogether exactly when it has only the operator
      that was short-circuited, the `&&` after a `cd` included. */
  lemma {:induction false} SkippedLine(exit: ExitCodes, sh: Shell, env: EnvMatch, line: Line, dirs: seq<string>,
                                       w: World, status: int)
    requires LegalLine(env, line) && Complete(line) && dirs != []
    ensures ShellLine(exit, sh, env, line, dirs, w, None, false, status) == (status, w)
       <==> !HasOp(line, if status != 0 then Or else And)
    decreases line
  {
    if line.Then? {
      if line.op == Pipe || (line.op == And) != (status == 0) {
        SkippedLine(exit, sh, env, line.rest, dirs, w, status);
      } else {
        ShellGrows(exit, sh, env, line.rest, dirs, w, None, true, status);
      }
    }
  }

  /** A command that is started otherwise makes a difference that stays. */
  lemma UnlikeStart(exit: ExitCodes, sh: Shell, join: Join, env: EnvMatch, line: Line, dirs: seq<string>, cwd: string,
                    w: World, prev: Option<nat>, status: int)
    requires LegalLine(env, line) && Complete(line) && dirs != [] && line.segment.Run?
    requires !StartsAlike(sh, env, line.segment, dirs, cwd, prev.Some?)
    ensures !SameAsShell(exit, sh, join, env, line, dirs, cwd, w, prev, status)
  {
    var into := line.Then? && line.op == Pipe;
    RunOfCommand(exit, join, env, line, cwd, w, prev);
    ComparedStarts(sh, env, line.segment, dirs, cwd, w, prev, into);
    var a := ProgramStart(env, line.segment, cwd, w, prev, into);
    var b := ShellStart(sh, env, line.segment, Current(dirs), w, prev, into);
    if line.Then? {
      var next := if into then Some(|w.started|) else None;
      RunGrows(exit, join, env, line.rest, cwd, a, next);
      if into {
        ShellGrows(exit, sh, env, line.rest, dirs, b, next, true, status);
      } else {
        var status' := StatusOf(exit, b);
        ShellGrows(exit, sh, env, line.rest, dirs, b, None, (line.op == And) == (status' == 0), status');
      }
    }
    StayApart(a, b, RunLine(exit, join, env, line, cwd, w, prev).1,
              ShellLine(exit, sh, env, line, dirs, w, prev, true, status).1);
  }

  /** The run does what the shell does exactly when both go the same way. */
  lemma {:induction false} RunIsShellLine(exit: ExitCodes, sh: Shell, join: Join, env: EnvMatch, line: Line,
                                          dirs: seq<string>, cwd: string, w: World, prev: Option<nat>, status: int)
    requires LegalLine(env, line) && Complete(line) && dirs != []
    ensures SameAsShell(exit, sh, join, env, line, dirs, cwd, w, prev, status)
       <==> GoesTheSameWay(exit, sh, join, env, line, dirs, cwd, w, prev)
    decreases line
  {
    if line.segment.Cd? {
      var d := line.segment.dir.value;
      RunOfCd(exit, join, env, line, cwd, w, prev);
      if prev == None {
        RunIsShellLine(exit, sh, join, env, line.rest, dirs + [sh.chdir(dirs, d)], join(cwd, d), w, None, 0);
      } else {
        RunGrows(exit, join, env, line.rest, join(cwd, d), w, prev);
        ShellGrows(exit, sh, env, line.rest, dirs, w, None, true, 0);
      }
    } else {
      var into := line.Then? && line.op == Pipe;
      RunOfCommand(exit, join, env, line, cwd, w, prev);
      ComparedStarts(sh, env, line.segment, dirs, cwd, w, prev, into);
      if StartsAlike(sh, env, line.segment, dirs, cwd, prev.Some?) {
        var w' := ProgramStart(env, line.segment, cwd, w, prev, into);
        if into {
          RunIsShellLine(exit, sh, join, env, line.rest, dirs, cwd, w', Some(|w.started|), status);
        } else if line.Then? {
          var code := StatusOf(exit, w');
          if (line.op == And) == (code == 0) {
            RunIsShellLine(exit, sh, join, env, line.rest, dirs, cwd, w', None, code);
          } else {
            SkippedLine(exit, sh, env, line.rest, dirs, w', code);
          }
        }
      } else {
        UnlikeStart(exit, sh, join, env, line, dirs, cwd, w, prev, status);
      }
    }
  }

  // ---- lines on which the run is always like the shell ----

  /** After an `||`, or an `&&` that follows a command, stands no operator of the other kind. The
      `&&` after a `cd` may stand before an `||`, since a `cd` that is run has status 0. */
  predicate NoneMixed(line: Line) {
    line.Then? ==>
      && NoneMixed(line.rest)
      && (line.op == Or ==> !HasOp(line.rest, And))
      && (line.op == And && line.segment.Run? ==> !HasOp(line.rest, Or))
  }

  predicate NoCdInPipe(line: Line, piped: bool) {
    && (piped ==> line.segment.Run?)
    && (line.Then? ==> NoCdInPipe(line.rest, line.op == Pipe))
  }

  /** Every command, in the directory to which the `cd`s before it lead, is started alike. */
  predicate AllStartAlike(sh: Shell, join: Join, env: EnvMatch, line: Line, dirs: seq<string>, cwd: string, piped: bool)
    requires LegalLine(env, line) && dirs != []
    decreases line
  {
    match line.segment
    case Cd(None) => true
    case Cd(Some(d)) =>
      line.Then? ==> AllStartAlike(sh, join, env, line.rest, dirs + [sh.chdir(dirs, d)], join(cwd, d), false)
    case Run(_, _, _) =>
      && StartsAlike(sh, env, line.segment, dirs, cwd, piped)
      && (line.Then? ==> AllStartAlike(sh, join, env, line.rest, dirs, cwd, line.op == Pipe))
  }

  predicate Straight(sh: Shell, join: Join, env: EnvMatch, line: Line, dirs: seq<string>, cwd: string, piped: bool)
    requires LegalLine(env, line) && dirs != []
  {
    NoneMixed(line) && NoCdInPipe(line, piped) && AllStartAlike(sh, join, env, line, dirs, cwd, piped)
  }

  /** Exit codes that lead the run and the shell apart, where something can. */
  function Misleading(line: Line): seq<int> {
    match line
    case Last(_) => []
    case Then(segment, op, rest) =>
      if segment.Cd? then Misleading(rest)
      else
        var mixed := op != Pipe && HasOp(rest, OtherOp(op));
        [if (op == Or) != mixed then 1 else 0] + Misleading(rest)
  }

  lemma {:induction false} MisleadingLeadsApart(exit: ExitCodes, sh: Shell, join: Join, env: EnvMatch, line: Line,
                                                dirs: seq<string>, cwd: string, w: World, prev: Option<nat>)
    requires LegalLine(env, line) && Complete(line) && dirs != []
    requires !Straight(sh, join, env, line, dirs, cwd, prev.Some?)
    requires Follows(exit, Misleading(line), |w.started|)
    ensures !GoesTheSameWay(exit, sh, join, env, line, dirs, cwd, w, prev)
    decreases line
  {
    if line.segment.Cd? {
      if prev == None {
        var d := line.segment.dir.value;
        MisleadingLeadsApart(exit, sh, join, env, line.rest, dirs + [sh.chdir(dirs, d)], join(cwd, d), w, None);
      }
    } else if line.Then? && StartsAlike(sh, env, line.segment, dirs, cwd, prev.Some?) {
      var op, rest := line.op, line.rest;
      var mixed := op != Pipe && HasOp(rest, OtherOp(op));
      FollowsRest(exit, if (op == Or) != mixed then 1 else 0, Misleading(rest), |w.started|);
      if !mixed {
        var w' := ProgramStart(env, line.segment, cwd, w, prev, op == Pipe);
        MisleadingLeadsApart(exit, sh, join, env, rest, dirs, cwd, w', if op == Pipe then Some(|w.started|) else None);
      }
    }
  }

  lemma {:induction false} StraightGoesTheSameWay(exit: ExitCodes, sh: Shell, join: Join, env: EnvMatch, line: Line,
                                                  dirs: seq<string>, cwd: string, w: World, prev: Option<nat>)
    requires LegalLine(env, line) && Complete(line) && dirs != []
    requires Straight(sh, join, env, line, dirs, cwd, prev.Some?)
    ensures GoesTheSameWay(exit, sh, join, env, line, dirs, cwd, w, prev)
    decreases line
  {
    if line.segment.Cd? {
      var d := line.segment.dir.value;
      StraightGoesTheSameWay(exit, sh, join, env, line.rest, dirs + [sh.chdir(dirs, d)], join(cwd, d), w, None);
    } else if line.Then? {
      var w' := ProgramStart(env, line.segment, cwd, w, prev, line.op == Pipe);
      StraightGoesTheSameWay(exit, sh, join, env, line.rest, dirs, cwd, w',
                             if line.op == Pipe then Some(|w.started|) else None);
    }
  }

  lemma {:induction false} CompleteNodes(env: EnvMatch, line: Line)
    requires LegalLine(env, line)
    ensures CdsComplete(NodesOf(env, line)) <==> Complete(line)
    decreases line
  {
    LineNodes(env, line);
    if line.Then? {
      RestComplete(NodesOf(env, line));
      CompleteNodes(env, line.rest);
    }
  }

  /** Exit codes for which the run does something else than the shell, if there are any. */
  lemma ApartFromTheShell(sh: Shell, join: Join, env: EnvMatch, line: Line, dirs: seq<string>, cwd: string, w: World)
    returns (exit: ExitCodes)
    requires LegalLine(env, line) && dirs != []
    requires !(Complete(line) && Straight(sh, join, env, line, dirs, cwd, false))
    ensures !SameAsShell(exit, sh, join, env, line, dirs, cwd, w, None, 0)
  {
    var codes := if Complete(line) then Misleading(line) else GoingOn(NodesOf(env, line));
    exit := ExitBy(codes, |w.started|);
    ExitByFollows(codes, |w.started|);
    if Complete(line) {
      MisleadingLeadsApart(exit, sh, join, env, line, dirs, cwd, w, None);
      RunIsShellLine(exit, sh, join, env, line, dirs, cwd, w, None, 0);
    } else {
      LineNodes(env, line);
      CompleteNodes(env, line);
      GoingOnRaises(exit, join, NodesOf(env, line), cwd, w, None);
    }
  }

  lemma LikeTheShell(exit: ExitCodes, sh: Shell, join: Join, env: EnvMatch, line: Line, dirs: seq<string>, cwd: string,
                     w: World)
    requires LegalLine(env, line) && dirs != []
    requires Complete(line) && Straight(sh, join, env, line, dirs, cwd, false)
    ensures SameAsShell(exit, sh, join, env, line, dirs, cwd, w, None, 0)
  {
    StraightGoesTheSameWay(exit, sh, join, env, line, dirs, cwd, w, None);
    RunIsShellLine(exit, sh, join, env, line, dirs, cwd, w, None, 0);
  }

  /** Whatever the commands return, the run starts the processes that the shell starts, with the
      same streams and in the same directories, opens the same files in the same order and has the
      same status: this is so exactly when the line has no `cd` at the end, without a directory or
      in a pipe, does not mix operators, and all its commands are started alike. */
  lemma AlwaysLikeTheShell(sh: Shell, join: Join, env: EnvMatch, line: Line, dirs: seq<string>, cwd: string, w: World)
    requires LegalLine(env, line) && dirs != []
    ensures (forall exit: ExitCodes :: SameAsShell(exit, sh, join, env, line, dirs, cwd, w, None, 0))
       <==> && Complete(line) && NoCdInPipe(line, false) && NoneMixed(line)
            && AllStartAlike(sh, join, env, line, dirs, cwd, false)
  {
    if Complete(line) && Straight(sh, join, env, line, dirs, cwd, false) {
      forall exit: ExitCodes ensures SameAsShell(exit, sh, join, env, line, dirs, cwd, w, None, 0) {
        LikeTheShell(exit, sh, join, env, line, dirs, cwd, w);
      }
    } else {
      var exit := ApartFromTheShell(sh, join, env, line, dirs, cwd, w);
    }
  }

  // ---- lines on which they differ, and one on which they do not ----

  function Word(name: string): Segment {
    Run([], name, [])
  }

  predicate IsName(env: EnvMatch, name: string) {
    env(name) == None && name != "cd"
  }

  lemma Accepted(env: EnvMatch, line: Line)
    requires LegalLine(env, line)
    ensures ParseFrom(env, START, LineTokens(line)) == Some(NodesOf(env, line))
  {
    S.Empty(LineTokens(line));
    S.Empty(NodesOf(env, line));
    ParseSpelled(env, [], line, [], LineTokens(line));
  }

  lemma OnePart(sh: Shell, dir: string, c: Command, part: Part, s: Streams, piped: bool)
    ensures PartsTokens([part]) == PartTokens(part)
    ensures RedirectedAll(sh, dir, s, [part]) == Redirected(sh, dir, s, part)
    ensures WithParts(c, [part]) == WithPart(c, part) && LegalParts(c, [part]) == LegalPart(c, part)
    ensures AllFitting(sh, dir, c, [part], piped) == Fitting(sh, dir, c, part, piped)
  {
    S.Cons<Part>(part, []);
    assert PartsTokens([]) == [];
    S.Empty(PartTokens(part));
  }

  /** `a | b < f`: the shell opens `f` for `b`; the program gives `b` the pipe and does not open `f`. */
  lemma InputAfterPipe(exit: ExitCodes, sh: Shell, join: Join, env: EnvMatch, a: string, b: string, f: string, w: World)
    requires IsName(env, a) && IsName(env, b)
    ensures var line := Then(Word(a), Pipe, Last(Run([], b, [In(f)])));
            && LegalLine(env, line) && ParseFrom(env, START, [a, "|", b, "<", f]) == Some(NodesOf(env, line))
            && !SameAsShell(exit, sh, join, env, line, ["."], ".", w, None, 0)
            && RunLine(exit, join, env, line, ".", w, None).1.files == w.files
            && ShellLine(exit, sh, env, line, ["."], w, None, true, 0).1.files == w.files + [Reading(f)]
  {
    var last := Last(Run([], b, [In(f)]));
    var line := Then(Word(a), Pipe, last);
    var w' := ProgramStart(env, Word(a), ".", w, None, true);
    OnePart(sh, ".", NewCommand(b, map[]), In(f), FirstStreams(Some(|w.started|), false, w'.files), true);
    assert LegalLine(env, last) && LineTokens(last) == [b, "<", f];
    assert LineTokens(line) == [a, "|", b, "<", f];
    Accepted(env, line);
    RunOfCommand(exit, join, env, line, ".", w, None);
    RunOfCommand(exit, join, env, last, ".", w', Some(|w.started|));
    ComparedStarts(sh, env, Word(a), ["."], ".", w, None, true);
    assert StartsAlike(sh, env, Word(a), ["."], ".", false);
    assert ShellLine(exit, sh, env, line, ["."], w, None, true, 0)
        == ShellLine(exit, sh, env, last, ["."], w', Some(|w.started|), true, 0);
    assert w'.files == w.files;
  }

  /** `a 2>&1 > f`: the shell sends errors to the old output; the program sends them to `f`. */
  lemma ErrorsBeforeOutput(exit: ExitCodes, sh: Shell, join: Join, env: EnvMatch, a: string, f: string, w: World)
    requires IsName(env, a) && !IsNullDevice(f)
    ensures var line := Last(Run([], a, [ErrToOut, Out(f)]));
            && LegalLine(env, line) && ParseFrom(env, START, [a, "2>&1", ">", f]) == Some(NodesOf(env, line))
            && !SameAsShell(exit, sh, join, env, line, ["."], ".", w, None, 0)
  {
    var line := Last(Run([], a, [ErrToOut, Out(f)]));
    var c, parts := NewCommand(a, map[]), [ErrToOut, Out(f)];
    S.Cons(ErrToOut, [Out(f)]);
    OnePart(sh, ".", WithPart(c, ErrToOut), Out(f), FirstStreams(None, false, w.files), false);
    assert parts[1..] == [Out(f)];
    assert !AllFitting(sh, ".", c, parts, false);
    assert LineTokens(line) == [a, "2>&1", ">", f];
    Accepted(env, line);
    assert !StartsAlike(sh, env, line.segment, ["."], ".", false);
    RunIsShellLine(exit, sh, join, env, line, ["."], ".", w, None, 0);
  }

  /** `cd d && a > f`: the shell opens the `f` in `d`; the program opens its own `f`. */
  lemma FileAfterCd(exit: ExitCodes, sh: Shell, join: Join, env: EnvMatch, d: string, a: string, f: string, w: World)
    requires IsName(env, a) && env("cd") == None && d != "&&" && !IsNullDevice(f)
    requires join(".", d) != "." && sh.seen(join(".", d), f) != f
    ensures var line := Then(Cd(Some(d)), And, Last(Run([], a, [Out(f)])));
            && LegalLine(env, line) && ParseFrom(env, START, ["cd", d, "&&", a, ">", f]) == Some(NodesOf(env, line))
            && !SameAsShell(exit, sh, join, env, line, ["."], ".", w, None, 0)
  {
    var last := Last(Run([], a, [Out(f)]));
    var line := Then(Cd(Some(d)), And, last);
    var dir := join(".", d);
    OnePart(sh, dir, NewCommand(a, map[]), Out(f), FirstStreams(None, false, w.files), false);
    assert LegalLine(env, last) && LineTokens(last) == [a, ">", f];
    assert LineTokens(line) == ["cd", d, "&&", a, ">", f];
    Accepted(env, line);
    assert !StartsAlike(sh, env, last.segment, ["."] + [sh.chdir(["."], d)], dir, false);
    RunIsShellLine(exit, sh, join, env, line, ["."], ".", w, None, 0);
  }

  /** `a || b && c` where `a` succeeds: the run ends with `a`, the shell goes on to `c`. */
  lemma MixedExample(sh: Shell, join: Join, env: EnvMatch, a: string, b: string, c: string, w: World)
    requires IsName(env, a) && IsName(env, b) && IsName(env, c)
    ensures var line := Then(Word(a), Or, Then(Word(b), And, Last(Word(c))));
            var exit: ExitCodes := (_, _) => 0;
            var afterA := ProgramStart(env, Word(a), ".", w, None, false);
            && LegalLine(env, line) && ParseFrom(env, START, [a, "||", b, "&&", c]) == Some(NodesOf(env, line))
            && RunLine(exit, join, env, line, ".", w, None) == (Exit(0), afterA)
            && ShellLine(exit, sh, env, line, ["."], w, None, true, 0)
               == (0, ProgramStart(env, Word(c), ".", afterA, None, false))
  {
    var last := Last(Word(c));
    var rest := Then(Word(b), And, last);
    var line := Then(Word(a), Or, rest);
    assert LegalLine(env, last) && LineTokens(last) == [c];
    assert LegalLine(env, rest) && LineTokens(rest) == [b, "&&", c];
    assert LineTokens(line) == [a, "||", b, "&&", c];
    Accepted(env, line);
    SkipsToLast(sh, join, env, a, Word(b), c, w);
  }

  /** `a || cd d && b` where `a` succeeds: the run ends with `a`; the shell skips the `cd` and goes
      on to `b`, in the directory of `a`. */
  lemma CdAfterOr(sh: Shell, join: Join, env: EnvMatch, a: string, d: string, b: string, w: World)
    requires IsName(env, a) && env("cd") == None && IsName(env, b) && d != "&&"
    ensures var line := Then(Word(a), Or, Then(Cd(Some(d)), And, Last(Word(b))));
            var exit: ExitCodes := (_, _) => 0;
            var afterA := ProgramStart(env, Word(a), ".", w, None, false);
            && LegalLine(env, line) && ParseFrom(env, START, [a, "||", "cd", d, "&&", b]) == Some(NodesOf(env, line))
            && RunLine(exit, join, env, line, ".", w, None) == (Exit(0), afterA)
            && ShellLine(exit, sh, env, line, ["."], w, None, true, 0)
               == (0, ProgramStart(env, Word(b), ".", afterA, None, false))
  {
    var last := Last(Word(b));
    var rest := Then(Cd(Some(d)), And, last);
    var line := Then(Word(a), Or, rest);
    assert LegalLine(env, last) && LineTokens(last) == [b];
    assert LegalLine(env, rest) && LineTokens(rest) == ["cd", d, "&&", b];
    assert LineTokens(line) == [a, "||", "cd", d, "&&", b];
    Accepted(env, line);
    SkipsToLast(sh, join, env, a, Cd(Some(d)), b, w);
  }

  lemma SkipsToLast(sh: Shell, join: Join, env: EnvMatch, a: string, skipped: Segment, b: string, w: World)
    requires IsName(env, a) && IsName(env, b) && LegalSegment(env, skipped)
    ensures var line := Then(Word(a), Or, Then(skipped, And, Last(Word(b))));
            var exit: ExitCodes := (_, _) => 0;
            var afterA := ProgramStart(env, Word(a), ".", w, None, false);
            && LegalLine(env, line)
            && RunLine(exit, join, env, line, ".", w, None) == (Exit(0), afterA)
            && ShellLine(exit, sh, env, line, ["."], w, None, true, 0)
               == (0, ProgramStart(env, Word(b), ".", afterA, None, false))
  {
    var exit: ExitCodes := (_, _) => 0;
    var last := Last(Word(b));
    var rest := Then(skipped, And, last);
    var line := Then(Word(a), Or, rest);
    assert LegalLine(env, last) && LegalLine(env, rest);
    RunOfCommand(exit, join, env, line, ".", w, None);
    ComparedStarts(sh, env, Word(a), ["."], ".", w, None, false);
    var afterA := ProgramStart(env, Word(a), ".", w, None, false);
    ComparedStarts(sh, env, Word(b), ["."], ".", afterA, None, false);
    assert ShellLine(exit, sh, env, rest, ["."], afterA, None, false, 0)
        == ShellLine(exit, sh, env, last, ["."], afterA, None, true, 0);
  }

  lemma WordStartsAlike(sh: Shell, env: EnvMatch, name: string, dirs: seq<string>, piped: bool)
    requires IsName(env, name) && dirs != []
    ensures LegalSegment(env, Word(name)) && StartsAlike(sh, env, Word(name), dirs, Current(dirs), piped)
  {}

  /** `cd d && a || b` mixes the operators, and if the `cd` leads where the program takes it, the
      run is always like the shell. */
  lemma CdBeforeOr(exit: ExitCodes, sh: Shell, join: Join, env: EnvMatch, d: string, a: string, b: string, w: World)
    requires IsName(env, a) && env("cd") == None && IsName(env, b) && d != "&&" && sh.chdir(["."], d) == join(".", d)
    ensures var line := Then(Cd(Some(d)), And, Then(Word(a), Or, Last(Word(b))));
            LegalLine(env, line) && SameAsShell(exit, sh, join, env, line, ["."], ".", w, None, 0)
  {
    var last := Last(Word(b));
    var rest := Then(Word(a), Or, last);
    var line := Then(Cd(Some(d)), And, rest);
    assert LegalLine(env, last) && LegalLine(env, rest);
    var dirs := ["."] + [sh.chdir(["."], d)];
    assert Current(dirs) == join(".", d);
    WordStartsAlike(sh, env, a, dirs, false);
    WordStartsAlike(sh, env, b, dirs, false);
    assert AllStartAlike(sh, join, env, last, dirs, join(".", d), false);
    assert AllStartAlike(sh, join, env, rest, dirs, join(".", d), false);
    assert !HasOp(last, And) && NoneMixed(last) && rest.rest == last;
    assert NoneMixed(rest) && NoCdInPipe(rest, false);
    assert NoneMixed(line) && NoCdInPipe(line, false) && Complete(rest);
    LikeTheShell(exit, sh, join, env, line, ["."], ".", w);
  }
}
