/** Command lines: the nodes of a pipeline and the token state machine that parses them. */
module ShellPipeline {
  import opened Options
  import S = Sequences

  /** Where an output of a command goes. */
  datatype Redirect = DEFAULT | PIPE | STDOUT | FILE(name: string)

  datatype Command = Command(argv: seq<string>, stdin: Option<string>, stdout: Redirect, stderr: Redirect,
                             env: map<string, string>)

  datatype Node = Cmd(command: Command) | Chdir(dir: Option<string>) | Pipe | And | Or

  datatype State = BEGIN | COMMAND | CHDIR | IN_STDERR | IN_STDOUT | IN_STDIN

  /** What matches a token as an environment assignment, with the name and the value. */
  type EnvMatch = string -> Option<(string, string)>

  /** A parse under way. */
  datatype Parse = Parse(state: State, current: Option<Node>, env: map<string, string>, nodes: seq<Node>)

  const START: Parse := Parse(BEGIN, None, map[], [])

  function NewCommand(name: string, env: map<string, string>): Command {
    Command([name], None, DEFAULT, DEFAULT, env)
  }

  /** The command is complete and an operator follows. */
  function Commit(p: Parse, node: Node, op: Node): Parse {
    p.(state := BEGIN, current := None, nodes := p.nodes + [node, op])
  }

  function WithCommand(p: Parse, state: State, c: Command): Parse {
    p.(state := state, current := Some(Cmd(c)))
  }

  /** A token inside a command. */
  function CommandToken(p: Parse, c: Command, token: string): Option<Parse> {
    if token == ">" then Some(p.(state := IN_STDOUT))
    else if token == "2>" then Some(p.(state := IN_STDERR))
    else if token == "2>&1" then
      if c.stderr == DEFAULT then Some(WithCommand(p, COMMAND, c.(stderr := STDOUT))) else None
    else if token == "<" then Some(p.(state := IN_STDIN))
    else if token == "|" then
      if c.stdout == DEFAULT then Some(Commit(p, Cmd(c.(stdout := PIPE)), Pipe)) else None
    else if token == "&&" then Some(Commit(p, Cmd(c), And))
    else if token == "||" then Some(Commit(p, Cmd(c), Or))
    else Some(WithCommand(p, COMMAND, c.(argv := c.argv + [token])))
  }

  /** One token; None when an assertion fails. */
  function Token(env: EnvMatch, p: Parse, token: string): Option<Parse> {
    match (p.state, p.current)
    case (BEGIN, _) =>
      if env(token).Some? then
        Some(p.(env := p.env[env(token).value.0 := env(token).value.1]))
      else if p.current != None then None
      else if token == "cd" then
        if p.env == map[] then Some(p.(state := CHDIR, current := Some(Chdir(None)))) else None
      else Some(p.(state := COMMAND, current := Some(Cmd(NewCommand(token, p.env))), env := map[]))
    case (COMMAND, Some(Cmd(c))) => CommandToken(p, c, token)
    case (CHDIR, Some(Chdir(dir))) =>
      if token == "&&" then Some(Commit(p, Chdir(dir), And))
      else if dir == None then Some(p.(current := Some(Chdir(Some(token)))))
      else None
    case (IN_STDOUT, Some(Cmd(c))) =>
      if c.stdout == DEFAULT then Some(WithCommand(p, COMMAND, c.(stdout := FILE(token)))) else None
    case (IN_STDERR, Some(Cmd(c))) =>
      if c.stderr == DEFAULT then Some(WithCommand(p, COMMAND, c.(stderr := FILE(token)))) else None
    case (IN_STDIN, Some(Cmd(c))) =>
      if c.stdin == None then Some(WithCommand(p, COMMAND, c.(stdin := Some(token)))) else None
    case _ => None
  }

  /** The pipeline of a token list, or None when parsing it fails. */
  function ParseFrom(env: EnvMatch, p: Parse, tokens: seq<string>): Option<seq<Node>>
    decreases |tokens|
  {
    if tokens == [] then
      if p.current == None then None else Some(p.nodes + [p.current.value])
    else
      match Token(env, p, tokens[0])
      case None => None
      case Some(q) => ParseFrom(env, q, tokens[1..])
  }

  // ---- what every accepted line looks like ----

  predicate IsCommand(node: Node) {
    node.Cmd? || node.Chdir?
  }

  /** A node and what may follow it. */
  predicate Fits(node: Node, next: Option<Node>) {
    match node
    case Cmd(c) => (c.stdout == PIPE <==> next == Some(Pipe)) && (next.Some? ==> !IsCommand(next.value))
    case Chdir(_) => next.Some? ==> next == Some(And)
    case _ => next.Some? && IsCommand(next.value)
  }

  function NextOf(nodes: seq<Node>, i: nat): Option<Node> {
    if i + 1 < |nodes| then Some(nodes[i + 1]) else None
  }

  /** Commands and operators alternate, a command first and last; output is piped exactly
      before a `|`; a change of directory is followed only by `&&`. */
  predicate WellFormed(nodes: seq<Node>) {
    && nodes != [] && IsCommand(nodes[0])
    && forall i :: 0 <= i < |nodes| ==> Fits(nodes[i], NextOf(nodes, i))
  }

  /** The nodes committed so far, which end in an operator, and the command under way. */
  predicate Consistent(p: Parse) {
    && (p.nodes != [] ==> IsCommand(p.nodes[0]) && !IsCommand(p.nodes[|p.nodes| - 1]))
    && (forall i :: 0 <= i < |p.nodes| - 1 ==> Fits(p.nodes[i], NextOf(p.nodes, i)))
    && (p.state == BEGIN <==> p.current == None)
    && (p.state == CHDIR <==> p.current.Some? && p.current.value.Chdir?)
    && (p.current.Some? ==> IsCommand(p.current.value))
    && (p.current.Some? && p.current.value.Cmd? ==> p.current.value.command.stdout != PIPE)
  }

  lemma CommitConsistent(p: Parse, node: Node, op: Node)
    requires Consistent(p) && IsCommand(node) && !IsCommand(op) && Fits(node, Some(op))
    ensures Consistent(Commit(p, node, op))
  {
    var n := |p.nodes|;
    var nodes := p.nodes + [node, op];
    forall i | 0 <= i < |nodes| - 1 ensures Fits(nodes[i], NextOf(nodes, i)) {
      if i < n - 1 {
        assert NextOf(nodes, i) == NextOf(p.nodes, i);
      }
    }
  }

  lemma CommandTokenConsistent(p: Parse, c: Command, token: string)
    requires Consistent(p) && p.state == COMMAND && p.current == Some(Cmd(c)) && CommandToken(p, c, token).Some?
    ensures Consistent(CommandToken(p, c, token).value)
  {
    if token == "|" {
      CommitConsistent(p, Cmd(c.(stdout := PIPE)), Pipe);
    } else if token == "&&" {
      CommitConsistent(p, Cmd(c), And);
    } else if token == "||" {
      CommitConsistent(p, Cmd(c), Or);
    }
  }

  lemma TokenConsistent(env: EnvMatch, p: Parse, token: string)
    requires Consistent(p) && Token(env, p, token).Some?
    ensures Consistent(Token(env, p, token).value)
  {
    if p.state == COMMAND {
      CommandTokenConsistent(p, p.current.value.command, token);
    } else if p.state == CHDIR && token == "&&" {
      CommitConsistent(p, p.current.value, And);
    }
  }

  lemma {:induction false} ParseWellFormed(env: EnvMatch, p: Parse, tokens: seq<string>)
    requires Consistent(p) && ParseFrom(env, p, tokens).Some?
    ensures WellFormed(ParseFrom(env, p, tokens).value)
    decreases |tokens|
  {
    if tokens == [] {
      var n := |p.nodes|;
      var nodes := p.nodes + [p.current.value];
      forall i | 0 <= i < |nodes| ensures Fits(nodes[i], NextOf(nodes, i)) {
        if i < n - 1 {
          assert NextOf(nodes, i) == NextOf(p.nodes, i);
        }
      }
    } else {
      TokenConsistent(env, p, tokens[0]);
      ParseWellFormed(env, Token(env, p, tokens[0]).value, tokens[1..]);
    }
  }

  /** Every pipeline a parse accepts is well formed. */
  lemma AcceptedIsWellFormed(env: EnvMatch, tokens: seq<string>)
    requires ParseFrom(env, START, tokens).Some?
    ensures WellFormed(ParseFrom(env, START, tokens).value)
  {
    ParseWellFormed(env, START, tokens);
  }

  // ---- command lines as they are meant to be written ----

  /** What may follow the name of a command. */
  datatype Part = Arg(word: string) | Out(name: string) | Err(name: string) | ErrToOut | In(name: string)

  /** Environment assignments, a name and parts; or a change of directory. */
  datatype Segment = Run(assigns: seq<string>, name: string, parts: seq<Part>) | Cd(dir: Option<string>)

  datatype Line = Last(segment: Segment) | Then(segment: Segment, op: Node, rest: Line)

  function PartTokens(part: Part): seq<string> {
    match part
    case Arg(word) => [word]
    case Out(name) => [">", name]
    case Err(name) => ["2>", name]
    case ErrToOut => ["2>&1"]
    case In(name) => ["<", name]
  }

  function PartsTokens(parts: seq<Part>): seq<string> {
    if parts == [] then [] else PartTokens(parts[0]) + PartsTokens(parts[1..])
  }

  function SegmentTokens(segment: Segment): seq<string> {
    match segment
    case Run(assigns, name, parts) => assigns + ([name] + PartsTokens(parts))
    case Cd(None) => ["cd"]
    case Cd(Some(dir)) => ["cd", dir]
  }

  function OpToken(op: Node): string {
    if op == Pipe then "|" else if op == And then "&&" else "||"
  }

  function LineTokens(line: Line): seq<string> {
    match line
    case Last(segment) => SegmentTokens(segment)
    case Then(segment, op, rest) => SegmentTokens(segment) + ([OpToken(op)] + LineTokens(rest))
  }

  /** The command with one more part. */
  function WithPart(c: Command, part: Part): Command {
    match part
    case Arg(word) => c.(argv := c.argv + [word])
    case Out(name) => c.(stdout := FILE(name))
    case Err(name) => c.(stderr := FILE(name))
    case ErrToOut => c.(stderr := STDOUT)
    case In(name) => c.(stdin := Some(name))
  }

  function WithParts(c: Command, parts: seq<Part>): Command
    decreases |parts|
  {
    if parts == [] then c else WithParts(WithPart(c, parts[0]), parts[1..])
  }

  function Assigned(env: EnvMatch, assigns: seq<string>, vars: map<string, string>): map<string, string>
    requires forall i :: 0 <= i < |assigns| ==> env(assigns[i]).Some?
    decreases |assigns|
  {
    if assigns == [] then vars
    else
      var pair := env(assigns[0]).value;
      Assigned(env, assigns[1..], vars[pair.0 := pair.1])
  }

  const SPECIAL: set<string> := {">", "2>", "2>&1", "<", "|", "&&", "||"}

  /** An argument is no operator, and nothing is redirected twice. */
  predicate LegalPart(c: Command, part: Part) {
    match part
    case Arg(word) => word !in SPECIAL
    case Out(_) => c.stdout == DEFAULT
    case In(_) => c.stdin == None
    case _ => c.stderr == DEFAULT
  }

  predicate LegalParts(c: Command, parts: seq<Part>)
    decreases |parts|
  {
    parts != [] ==> LegalPart(c, parts[0]) && LegalParts(WithPart(c, parts[0]), parts[1..])
  }

  predicate LegalSegment(env: EnvMatch, segment: Segment) {
    match segment
    case Run(assigns, name, parts) =>
      && (forall i :: 0 <= i < |assigns| ==> env(assigns[i]).Some?)
      && env(name) == None && name != "cd" && LegalParts(NewCommand(name, Assigned(env, assigns, map[])), parts)
    case Cd(dir) => env("cd") == None && dir != Some("&&")
  }

  function NodeOf(env: EnvMatch, segment: Segment): Node
    requires LegalSegment(env, segment)
  {
    match segment
    case Run(assigns, name, parts) => Cmd(WithParts(NewCommand(name, Assigned(env, assigns, map[])), parts))
    case Cd(dir) => Chdir(dir)
  }

  /** Before a pipe stands a command whose output is not redirected; after a change of
      directory only `&&`. */
  predicate LegalLine(env: EnvMatch, line: Line)
    decreases line
  {
    && LegalSegment(env, line.segment)
    && (line.Then? ==>
          && LegalLine(env, line.rest)
          && (line.op == Pipe || line.op == And || line.op == Or)
          && (line.segment.Cd? ==> line.op == And)
          && (line.op == Pipe ==> line.segment.Run? && NodeOf(env, line.segment).command.stdout == DEFAULT))
  }

  /** The output of a command before a pipe goes into the pipe. */
  function BeforeOp(node: Node, op: Node): Node
    requires op == Pipe ==> node.Cmd?
  {
    if op == Pipe then Cmd(node.command.(stdout := PIPE)) else node
  }

  function NodesOf(env: EnvMatch, line: Line): seq<Node>
    requires LegalLine(env, line)
    decreases line
  {
    var node := NodeOf(env, line.segment);
    match line
    case Last(_) => [node]
    case Then(_, op, rest) =>
      [BeforeOp(node, op), op] + NodesOf(env, rest)
  }

  // ---- they parse to what they mean ----

  lemma ParseStep(env: EnvMatch, p: Parse, token: string, rest: seq<string>)
    ensures ParseFrom(env, p, [token] + rest) ==
            match Token(env, p, token) { case None => None case Some(q) => ParseFrom(env, q, rest) }
  {
    S.Cons(token, rest);
  }

  lemma {:induction false} ParseAssigns(env: EnvMatch, p: Parse, assigns: seq<string>, rest: seq<string>)
    requires p.state == BEGIN && forall i :: 0 <= i < |assigns| ==> env(assigns[i]).Some?
    ensures ParseFrom(env, p, assigns + rest) == ParseFrom(env, p.(env := Assigned(env, assigns, p.env)), rest)
    decreases |assigns|
  {
    if assigns == [] {
      S.Empty(rest);
    } else {
      S.HeadTail(assigns, rest);
      var pair := env(assigns[0]).value;
      ParseAssigns(env, p.(env := p.env[pair.0 := pair.1]), assigns[1..], rest);
    }
  }

  lemma ParsePart(env: EnvMatch, p: Parse, c: Command, part: Part, rest: seq<string>)
    requires p.state == COMMAND && p.current == Some(Cmd(c)) && LegalPart(c, part)
    ensures ParseFrom(env, p, PartTokens(part) + rest)
         == ParseFrom(env, WithCommand(p, COMMAND, WithPart(c, part)), rest)
  {
    var tokens := PartTokens(part);
    if |tokens| == 1 {
      ParseStep(env, p, tokens[0], rest);
    } else {
      S.Assoc([tokens[0]], [tokens[1]], rest);
      ParseStep(env, p, tokens[0], [tokens[1]] + rest);
      ParseStep(env, Token(env, p, tokens[0]).value, tokens[1], rest);
    }
  }

  lemma {:induction false} ParseParts(env: EnvMatch, p: Parse, c: Command, parts: seq<Part>, rest: seq<string>)
    requires p.state == COMMAND && p.current == Some(Cmd(c)) && LegalParts(c, parts)
    ensures ParseFrom(env, p, PartsTokens(parts) + rest)
         == ParseFrom(env, WithCommand(p, COMMAND, WithParts(c, parts)), rest)
    decreases |parts|
  {
    if parts == [] {
      S.Empty(rest);
    } else {
      S.Assoc(PartTokens(parts[0]), PartsTokens(parts[1..]), rest);
      ParsePart(env, p, c, parts[0], PartsTokens(parts[1..]) + rest);
      ParseParts(env, WithCommand(p, COMMAND, WithPart(c, parts[0])), WithPart(c, parts[0]), parts[1..], rest);
    }
  }

  /** The state a segment leaves the parse in. */
  function AfterSegment(env: EnvMatch, nodes: seq<Node>, segment: Segment): Parse
    requires LegalSegment(env, segment)
  {
    Parse(if segment.Cd? then CHDIR else COMMAND, Some(NodeOf(env, segment)), map[], nodes)
  }

  lemma ParseSegment(env: EnvMatch, nodes: seq<Node>, segment: Segment, rest: seq<string>)
    requires LegalSegment(env, segment)
    ensures ParseFrom(env, Parse(BEGIN, None, map[], nodes), SegmentTokens(segment) + rest)
         == ParseFrom(env, AfterSegment(env, nodes, segment), rest)
  {
    var p := Parse(BEGIN, None, map[], nodes);
    match segment
    case Run(assigns, name, parts) =>
      var vars := Assigned(env, assigns, map[]);
      S.Assoc(assigns, [name] + PartsTokens(parts), rest);
      ParseAssigns(env, p, assigns, [name] + PartsTokens(parts) + rest);
      S.Assoc([name], PartsTokens(parts), rest);
      ParseStep(env, p.(env := vars), name, PartsTokens(parts) + rest);
      ParseParts(env, WithCommand(p, COMMAND, NewCommand(name, vars)), NewCommand(name, vars), parts, rest);
    case Cd(None) =>
      ParseStep(env, p, "cd", rest);
    case Cd(Some(dir)) =>
      S.Assoc(["cd"], [dir], rest);
      ParseStep(env, p, "cd", [dir] + rest);
      ParseStep(env, AfterSegment(env, nodes, Cd(None)), dir, rest);
  }

  // ---- and nothing else parses ----

  /** A redirection at the very end may lack its file name; it is ignored. */
  predicate Dangling(line: Line, rest: seq<string>)
    decreases line
  {
    rest == [] ||
    match line {
      case Last(segment) => segment.Run? && (rest == [">"] || rest == ["2>"] || rest == ["<"])
      case Then(_, _, more) => Dangling(more, rest)
    }
  }

  /** `tokens` are those of a legal line and perhaps one dangling token. */
  predicate Spells(env: EnvMatch, line: Line, rest: seq<string>, tokens: seq<string>) {
    LegalLine(env, line) && Dangling(line, rest) && tokens == LineTokens(line) + rest
  }

  lemma DanglingIgnored(env: EnvMatch, p: Parse, token: string)
    requires p.state == COMMAND && p.current.Some? && p.current.value.Cmd? && token in {">", "2>", "<"}
    ensures ParseFrom(env, p, [token]) == ParseFrom(env, p, [])
  {
    S.Empty([token]);
    ParseStep(env, p, token, []);
  }

  /** A legal line parses to the nodes it means, with a dangling token or without. */
  lemma {:induction false} ParseSpelled(env: EnvMatch, nodes: seq<Node>, line: Line, rest: seq<string>,
                                        tokens: seq<string>)
    requires Spells(env, line, rest, tokens)
    ensures ParseFrom(env, Parse(BEGIN, None, map[], nodes), tokens) == Some(nodes + NodesOf(env, line))
    decreases line
  {
    match line
    case Last(segment) =>
      ParseSegment(env, nodes, segment, rest);
      if rest != [] {
        DanglingIgnored(env, AfterSegment(env, nodes, segment), rest[0]);
      }
    case Then(segment, op, more) =>
      S.Assoc(SegmentTokens(segment), [OpToken(op)] + LineTokens(more), rest);
      S.Assoc([OpToken(op)], LineTokens(more), rest);
      var pair := [BeforeOp(NodeOf(env, segment), op), op];
      ParseThen(env, nodes, segment, op, LineTokens(more) + rest);
      ParseSpelled(env, nodes + pair, more, rest, LineTokens(more) + rest);
      S.Assoc(nodes, pair, NodesOf(env, more));
  }

  lemma ParseThen(env: EnvMatch, nodes: seq<Node>, segment: Segment, op: Node, rest: seq<string>)
    requires LegalSegment(env, segment) && (op == Pipe || op == And || op == Or)
    requires segment.Cd? ==> op == And
    requires op == Pipe ==> segment.Run? && NodeOf(env, segment).command.stdout == DEFAULT
    ensures ParseFrom(env, Parse(BEGIN, None, map[], nodes), SegmentTokens(segment) + ([OpToken(op)] + rest))
         == ParseFrom(env, Parse(BEGIN, None, map[], nodes + [BeforeOp(NodeOf(env, segment), op), op]), rest)
  {
    ParseSegment(env, nodes, segment, [OpToken(op)] + rest);
    ParseStep(env, AfterSegment(env, nodes, segment), OpToken(op), rest);
  }

  lemma {:induction false} LegalPartsIgnoreEnv(c: Command, vars: map<string, string>, parts: seq<Part>)
    ensures LegalParts(c.(env := vars), parts) == LegalParts(c, parts)
    ensures WithParts(c.(env := vars), parts).stdout == WithParts(c, parts).stdout
    decreases |parts|
  {
    if parts != [] {
      LegalPartsIgnoreEnv(WithPart(c, parts[0]), vars, parts[1..]);
    }
  }

  /** The part a token begins, once an operator is ruled out. */
  function PartFrom(token: string, next: string): Part {
    if token == ">" then Out(next)
    else if token == "2>" then Err(next)
    else if token == "2>&1" then ErrToOut
    else if token == "<" then In(next)
    else Arg(token)
  }

  /** Inside a command: parts up to the end, to a dangling token or to an operator, after
      which the rest is accepted from the begin of a segment. */
  lemma {:induction false} SpellFromCommand(env: EnvMatch, p: Parse, c: Command, tokens: seq<string>)
    returns (parts: seq<Part>, op: Option<Node>, after: seq<string>, committed: seq<Node>)
    requires p.state == COMMAND && p.current == Some(Cmd(c)) && p.env == map[] && ParseFrom(env, p, tokens).Some?
    ensures LegalParts(c, parts) && tokens == PartsTokens(parts) + after
    ensures op == None ==> after == [] || after == [">"] || after == ["2>"] || after == ["<"]
    ensures op.Some? ==> op.value in {Pipe, And, Or} && after != [] && after[0] == OpToken(op.value)
    ensures op == Some(Pipe) ==> WithParts(c, parts).stdout == DEFAULT
    ensures op.Some? ==> ParseFrom(env, Parse(BEGIN, None, map[], committed), after[1..]).Some?
    decreases |tokens|
  {
    parts, op, after, committed := [], None, tokens, [];
    S.Empty(tokens);
    if tokens != [] && tokens[0] in {"|", "&&", "||"} {
      op := Some(if tokens[0] == "|" then Pipe else if tokens[0] == "&&" then And else Or);
      committed := Token(env, p, tokens[0]).value.nodes;
    } else if |tokens| == 1 && tokens[0] in {">", "2>", "<"} {
      assert tokens == [tokens[0]];
    } else if tokens != [] {
      var part, rest := FirstPart(tokens);
      ParsePartLegal(env, p, c, part, rest);
      parts, op, after, committed :=
        SpellFromCommand(env, WithCommand(p, COMMAND, WithPart(c, part)), WithPart(c, part), rest);
      S.Assoc(PartTokens(part), PartsTokens(parts), after);
      S.Cons(part, parts);
      parts := [part] + parts;
    }
  }

  lemma FirstPart(tokens: seq<string>) returns (part: Part, rest: seq<string>)
    requires tokens != [] && tokens[0] !in {"|", "&&", "||"} && (|tokens| == 1 ==> tokens[0] !in {">", "2>", "<"})
    ensures tokens == PartTokens(part) + rest && |rest| < |tokens| && (part.Arg? ==> part.word !in SPECIAL)
  {
    if tokens[0] in {">", "2>", "<"} {
      part, rest := PartFrom(tokens[0], tokens[1]), tokens[2..];
      assert tokens[..2] == [tokens[0], tokens[1]];
    } else {
      part, rest := PartFrom(tokens[0], ""), tokens[1..];
    }
  }

  lemma ParsePartLegal(env: EnvMatch, p: Parse, c: Command, part: Part, rest: seq<string>)
    requires p.state == COMMAND && p.current == Some(Cmd(c)) && (part.Arg? ==> part.word !in SPECIAL)
    requires ParseFrom(env, p, PartTokens(part) + rest).Some?
    ensures LegalPart(c, part)
    ensures ParseFrom(env, WithCommand(p, COMMAND, WithPart(c, part)), rest).Some?
  {
    var tokens := PartTokens(part);
    if |tokens| == 1 {
      ParseStep(env, p, tokens[0], rest);
    } else {
      S.Assoc([tokens[0]], [tokens[1]], rest);
      ParseStep(env, p, tokens[0], [tokens[1]] + rest);
      ParseStep(env, Token(env, p, tokens[0]).value, tokens[1], rest);
    }
  }

  /** Inside a change of directory: a directory, if there is one, and `&&` or the end. */
  lemma SpellFromChdir(env: EnvMatch, nodes: seq<Node>, tokens: seq<string>)
    returns (dir: Option<string>, more: bool, after: seq<string>, committed: seq<Node>)
    requires ParseFrom(env, Parse(CHDIR, Some(Chdir(None)), map[], nodes), tokens).Some?
    ensures dir != Some("&&") && tokens == (if dir == None then [] else [dir.value]) + after
    ensures if more then after != [] && after[0] == "&&" else after == []
    ensures more ==> ParseFrom(env, Parse(BEGIN, None, map[], committed), after[1..]).Some?
  {
    dir, more, after, committed := None, tokens != [], tokens, nodes + [Chdir(None), And];
    S.Empty(tokens);
    if tokens != [] && tokens[0] != "&&" {
      dir, after := Some(tokens[0]), tokens[1..];
      more, committed := after != [], nodes + [Chdir(dir), And];
      S.Uncons(tokens);
    }
  }

  /** A command without assignments, up to the end, to a dangling token or to an operator. */
  lemma SpellRun(env: EnvMatch, p: Parse, name: string, tail: seq<string>)
    returns (segment: Segment, op: Option<Node>, after: seq<string>, committed: seq<Node>)
    requires p.state == BEGIN && env(name) == None && name != "cd" && Token(env, p, name).Some?
    requires ParseFrom(env, Token(env, p, name).value, tail).Some?
    ensures segment.Run? && LegalSegment(env, segment) && [name] + tail == SegmentTokens(segment) + after
    ensures op == None ==> Dangling(Last(segment), after)
    ensures op.Some? ==> op.value in {Pipe, And, Or} && after != [] && after[0] == OpToken(op.value)
    ensures op == Some(Pipe) ==> NodeOf(env, segment).command.stdout == DEFAULT
    ensures op.Some? ==> ParseFrom(env, Parse(BEGIN, None, map[], committed), after[1..]).Some?
  {
    var c := NewCommand(name, p.env);
    var parts;
    parts, op, after, committed := SpellFromCommand(env, WithCommand(p, COMMAND, c).(env := map[]), c, tail);
    segment := Run([], name, parts);
    LegalPartsIgnoreEnv(c, map[], parts);
    S.Empty([name] + PartsTokens(parts));
    S.Assoc([name], PartsTokens(parts), after);
  }

  /** From the begin of a segment, with the assignments `vars` read already. */
  lemma {:induction false} SpellFromBegin(env: EnvMatch, nodes: seq<Node>, vars: map<string, string>,
                                          tokens: seq<string>)
    returns (line: Line, rest: seq<string>)
    requires ParseFrom(env, Parse(BEGIN, None, vars, nodes), tokens).Some?
    ensures Spells(env, line, rest, tokens)
    ensures line.segment.Cd? ==> vars == map[]
    decreases |tokens|
  {
    var p := Parse(BEGIN, None, vars, nodes);
    var token, tail := tokens[0], tokens[1..];
    S.Uncons(tokens);
    if env(token).Some? {
      var pair := env(token).value;
      line, rest := SpellFromBegin(env, nodes, vars[pair.0 := pair.1], tail);
      assert pair.0 in vars[pair.0 := pair.1];
      line := WithAssign(env, token, line, rest, tail);
    } else if token == "cd" {
      var dir, more, after, committed := SpellFromChdir(env, nodes, tail);
      if more {
        var next;
        next, rest := SpellFromBegin(env, committed, map[], after[1..]);
        line := Then(Cd(dir), And, next);
        SpellThen(env, Cd(dir), And, next, rest, after, tokens);
      } else {
        line, rest := Last(Cd(dir)), [];
        S.Empty(tokens);
      }
    } else {
      var segment, op, after, committed := SpellRun(env, p, token, tail);
      if op.Some? {
        var next;
        next, rest := SpellFromBegin(env, committed, map[], after[1..]);
        line := Then(segment, op.value, next);
        SpellThen(env, segment, op.value, next, rest, after, tokens);
      } else {
        line, rest := Last(segment), after;
      }
    }
  }

  lemma SpellThen(env: EnvMatch, segment: Segment, op: Node, next: Line, rest: seq<string>,
                  after: seq<string>, tokens: seq<string>)
    requires LegalSegment(env, segment) && after != [] && after[0] == OpToken(op) && Spells(env, next, rest, after[1..])
    requires LegalLine(env, Then(segment, op, next))
    requires tokens == SegmentTokens(segment) + after
    ensures Spells(env, Then(segment, op, next), rest, tokens)
  {
    S.Uncons(after);
    S.Assoc([OpToken(op)], LineTokens(next), rest);
    S.Assoc(SegmentTokens(segment), [OpToken(op)] + LineTokens(next), rest);
  }

  /** An assignment in front of a legal line whose first segment is a command. */
  lemma WithAssign(env: EnvMatch, token: string, line: Line, rest: seq<string>, tokens: seq<string>)
    returns (longer: Line)
    requires env(token).Some? && Spells(env, line, rest, tokens) && line.segment.Run?
    ensures Spells(env, longer, rest, [token] + tokens) && longer.segment.Run?
  {
    var Run(assigns, name, parts) := line.segment;
    var segment := Run([token] + assigns, name, parts);
    var c := NewCommand(name, Assigned(env, assigns, map[]));
    LegalPartsIgnoreEnv(c, Assigned(env, [token] + assigns, map[]), parts);
    S.Assoc([token], assigns, [name] + PartsTokens(parts));
    assert SegmentTokens(segment) == [token] + SegmentTokens(line.segment);
    match line
    case Last(_) =>
      longer := Last(segment);
      S.Assoc([token], LineTokens(line), rest);
    case Then(_, op, more) =>
      longer := Then(segment, op, more);
      S.Assoc([token], SegmentTokens(line.segment), [OpToken(op)] + LineTokens(more));
      S.Assoc([token], LineTokens(line), rest);
  }

  /** A token list is accepted exactly when it spells a legal line, and then gives the nodes
      that the line means. */
  lemma AcceptedLines(env: EnvMatch, tokens: seq<string>)
    ensures ParseFrom(env, START, tokens).Some? <==> exists line, rest :: Spells(env, line, rest, tokens)
    ensures forall line, rest :: Spells(env, line, rest, tokens) ==>
              ParseFrom(env, START, tokens) == Some(NodesOf(env, line))
  {
    forall line, rest | Spells(env, line, rest, tokens)
      ensures ParseFrom(env, START, tokens) == Some(NodesOf(env, line))
    {
      ParseSpelled(env, [], line, rest, tokens);
      S.Empty(NodesOf(env, line));
    }
    if ParseFrom(env, START, tokens).Some? {
      var line, rest := SpellFromBegin(env, [], map[], tokens);
    }
  }
}
