/** Unified diffs: the lines a patch set is written as, and parsing lines. */
module PatchSets {
  import opened Decimal
  import opened Options
  import S = Sequences

  datatype Kind = UNSET | SRC | DST | BOTH

  datatype ChunkLine = ChunkLine(kind: Kind, text: string)

  datatype Chunk = Chunk(srcPos: nat, dstPos: nat, lines: seq<ChunkLine>)

  datatype Patch = Patch(src: string, dst: string, chunks: seq<Chunk>)

  // ---- writing ----

  function KindMark(kind: Kind): string {
    match kind
    case SRC => "-"
    case DST => "+"
    case _ => " "
  }

  function LineText(l: ChunkLine): string {
    KindMark(l.kind) + l.text + "\n"
  }

  /** How many lines of a chunk belong to the source, to the destination. */
  function Count(lines: seq<ChunkLine>, kind: Kind): nat {
    if lines == [] then 0
    else
      var last := lines[|lines| - 1];
      Count(lines[..|lines| - 1], kind) + (if last.kind == kind || last.kind == BOTH then 1 else 0)
  }

  function ChunkHeader(c: Chunk): string {
    "@@ -" + (Digits(c.srcPos) + ("," + (Digits(Count(c.lines, SRC))
      + (" +" + (Digits(c.dstPos) + ("," + (Digits(Count(c.lines, DST)) + " @@\n")))))))
  }

  function ContentLines(lines: seq<ChunkLine>): seq<string> {
    if lines == [] then [] else ContentLines(lines[..|lines| - 1]) + [LineText(lines[|lines| - 1])]
  }

  function ChunksLines(chunks: seq<Chunk>): seq<string> {
    if chunks == [] then []
    else
      var c := chunks[|chunks| - 1];
      ChunksLines(chunks[..|chunks| - 1]) + ([ChunkHeader(c)] + ContentLines(c.lines))
  }

  function NameLines(p: Patch): seq<string> {
    ["--- " + p.src + "\n", "+++ " + p.dst + "\n"]
  }

  function PatchLines(p: Patch): seq<string> {
    NameLines(p) + ChunksLines(p.chunks)
  }

  /** The lines of a patch set, each with its line feed. */
  function SetLines(patches: seq<Patch>): seq<string> {
    if patches == [] then [] else SetLines(patches[..|patches| - 1]) + PatchLines(patches[|patches| - 1])
  }

  // ---- parsing ----

  predicate OneLine(s: string) {
    forall i :: 0 <= i < |s| ==> s[i] != '\n'
  }

  /** A line without the line feed at its end, if it has one. */
  function Body(line: string): string {
    if line != [] && line[|line| - 1] == '\n' then line[..|line| - 1] else line
  }

  /** What follows `mark` up to the end of the line: matching `^mark(.*)$`. */
  function After(mark: string, line: string): Option<string> {
    if mark <= Body(line) && OneLine(Body(line)[|mark|..]) then Some(Body(line)[|mark|..]) else None
  }

  function Expect(mark: string, s: string): Option<string> {
    if mark <= s then Some(s[|mark|..]) else None
  }

  /** One or more digits, and the rest. */
  function Number(s: string): Option<(nat, string)> {
    var k := DigitRun(s);
    if k == 0 then None else Some((Value(s[..k]), s[k..]))
  }

  /** The source and destination positions of a chunk header; the counts are not looked at. */
  function ChunkStart(line: string): Option<(nat, nat)> {
    var s1 :- Expect("@@ -", line);
    var (srcPos, s2) :- Number(s1);
    var s3 :- Expect(",", s2);
    var (_, s4) :- Number(s3);
    var s5 :- Expect(" +", s4);
    var (dstPos, s6) :- Number(s5);
    var s7 :- Expect(",", s6);
    var (_, s8) :- Number(s7);
    var _ :- Expect(" @@", s8);
    Some((srcPos, dstPos))
  }

  /** What a line is taken for, by the first pattern it matches. */
  datatype LineClass =
    | SrcFile(name: string)
    | DstFile(name: string)
    | Start(srcPos: nat, dstPos: nat)
    | Content(l: ChunkLine)
    | Unknown

  function Classify(line: string): LineClass {
    if After("--- ", line).Some? then SrcFile(After("--- ", line).value)
    else if After("+++ ", line).Some? then DstFile(After("+++ ", line).value)
    else if ChunkStart(line).Some? then Start(ChunkStart(line).value.0, ChunkStart(line).value.1)
    else if After("-", line).Some? then Content(ChunkLine(SRC, After("-", line).value))
    else if After("+", line).Some? then Content(ChunkLine(DST, After("+", line).value))
    else if After(" ", line).Some? then Content(ChunkLine(BOTH, After(" ", line).value))
    else Unknown
  }

  /** The patches so far, the last of which is the current one, and where the current chunk
      is; that stays where it was when a new patch begins. */
  datatype Parser = Parser(patches: seq<Patch>, chunk: Option<(nat, nat)>)

  predicate Ok(p: Parser) {
    p.chunk.Some? ==> p.chunk.value.0 < |p.patches| && p.chunk.value.1 < |p.patches[p.chunk.value.0].chunks|
  }

  function AddLine(patches: seq<Patch>, i: nat, j: nat, l: ChunkLine): seq<Patch>
    requires i < |patches| && j < |patches[i].chunks|
  {
    var c := patches[i].chunks[j];
    patches[i := patches[i].(chunks := patches[i].chunks[j := c.(lines := c.lines + [l])])]
  }

  /** One line; None where the parser raises an exception. */
  function ParseLine(p: Parser, line: LineClass): (r: Option<Parser>)
    requires Ok(p)
    ensures r.Some? ==> Ok(r.value)
  {
    var n := |p.patches|;
    match line
    case SrcFile(name) => Some(p.(patches := p.patches + [Patch(name, "", [])]))
    case DstFile(name) =>
      if n == 0 then None else Some(p.(patches := p.patches[n - 1 := p.patches[n - 1].(dst := name)]))
    case Start(srcPos, dstPos) =>
      if n == 0 then None
      else
        var chunks := p.patches[n - 1].chunks;
        Some(Parser(p.patches[n - 1 := p.patches[n - 1].(chunks := chunks + [Chunk(srcPos, dstPos, [])])],
                    Some((n - 1, |chunks|))))
    case Content(l) =>
      if p.chunk == None then None
      else Some(p.(patches := AddLine(p.patches, p.chunk.value.0, p.chunk.value.1, l)))
    case Unknown => None
  }

  function ParseLines(p: Parser, lines: seq<LineClass>): (r: Option<Parser>)
    requires Ok(p)
    ensures r.Some? ==> Ok(r.value)
    decreases |lines|
  {
    if lines == [] then Some(p)
    else
      var q :- ParseLine(p, lines[0]);
      ParseLines(q, lines[1..])
  }

  const EMPTY: Parser := Parser([], None)

  function ClassifyAll(classify: string -> LineClass, lines: seq<string>): seq<LineClass> {
    if lines == [] then [] else [classify(lines[0])] + ClassifyAll(classify, lines[1..])
  }

  function ParseSet(lines: seq<string>): Option<seq<Patch>> {
    var p :- ParseLines(EMPTY, ClassifyAll(Classify, lines));
    Some(p.patches)
  }

  // ---- what written lines are taken for ----

  /** Nothing in a patch set spans lines, and every line has a kind. */
  predicate Legal(patches: seq<Patch>) {
    patches != [] ==> Legal(patches[..|patches| - 1]) && LegalPatch(patches[|patches| - 1])
  }

  predicate LegalPatch(p: Patch) {
    OneLine(p.src) && OneLine(p.dst) && LegalChunks(p.chunks)
  }

  predicate LegalChunks(chunks: seq<Chunk>) {
    chunks != [] ==> LegalChunks(chunks[..|chunks| - 1]) && LegalLines(chunks[|chunks| - 1].lines)
  }

  predicate LegalLines(lines: seq<ChunkLine>) {
    forall k :: 0 <= k < |lines| ==> lines[k].kind != UNSET && OneLine(lines[k].text)
  }

  /** A line that, written, looks like a file header. */
  predicate Misread(l: ChunkLine) {
    (l.kind == SRC && "-- " <= l.text) || (l.kind == DST && "++ " <= l.text)
  }

  lemma AfterMark(mark: string, text: string)
    requires OneLine(text) && OneLine(mark)
    ensures Body(mark + text + "\n") == mark + text
    ensures After(mark, mark + text + "\n") == Some(text)
  {
    var line := mark + text + "\n";
    assert line[..|line| - 1] == mark + text;
    assert (mark + text)[|mark|..] == text;
  }

  /** A mark is not found where the text begins differently. */
  lemma NotAfter(mark: string, line: string, k: nat)
    requires k < |mark| && k < |line| && line[k] != mark[k]
    ensures After(mark, line) == None && Expect(mark, line) == None
  {}

  lemma ExpectConcat(mark: string, rest: string)
    ensures Expect(mark, mark + rest) == Some(rest)
  {
    assert (mark + rest)[|mark|..] == rest;
  }

  lemma NumberConcat(n: nat, rest: string)
    requires rest != [] && !IsDigit(rest[0])
    ensures Number(Digits(n) + rest) == Some((n, rest))
  {
    var s := Digits(n) + rest;
    DigitRunOf(Digits(n), rest);
    ValueOfDigits(n);
    assert s[..|Digits(n)|] == Digits(n) && s[|Digits(n)|..] == rest;
  }

  lemma HeaderIsStart(c: Chunk)
    ensures Classify(ChunkHeader(c)) == Start(c.srcPos, c.dstPos)
  {
    var s8 := " @@\n";
    var s7 := Digits(Count(c.lines, DST)) + s8;
    var s6 := "," + s7;
    var s5 := Digits(c.dstPos) + s6;
    var s4 := " +" + s5;
    var s3 := Digits(Count(c.lines, SRC)) + s4;
    var s2 := "," + s3;
    var s1 := Digits(c.srcPos) + s2;
    ExpectConcat("@@ -", s1);
    NumberConcat(c.srcPos, s2);
    ExpectConcat(",", s3);
    NumberConcat(Count(c.lines, SRC), s4);
    ExpectConcat(" +", s5);
    NumberConcat(c.dstPos, s6);
    ExpectConcat(",", s7);
    NumberConcat(Count(c.lines, DST), s8);
    assert " @@" <= s8;
    NotAfter("--- ", ChunkHeader(c), 0);
    NotAfter("+++ ", ChunkHeader(c), 0);
  }

  lemma NamesAreFiles(p: Patch)
    requires LegalPatch(p)
    ensures Classify("--- " + p.src + "\n") == SrcFile(p.src)
    ensures Classify("+++ " + p.dst + "\n") == DstFile(p.dst)
  {
    AfterMark("--- ", p.src);
    AfterMark("+++ ", p.dst);
    NotAfter("--- ", "+++ " + p.dst + "\n", 0);
  }

  /** A longer mark is found exactly when what it has more begins the text. */
  lemma LongerMark(mark: string, more: string, text: string)
    requires OneLine(text) && OneLine(mark)
    ensures After(mark + more, mark + text + "\n").Some? <==> more <= text
  {
    AfterMark(mark, text);
    var body := mark + text;
    if more <= text {
      assert body[..|mark + more|] == mark + more;
    }
    if mark + more <= body {
      assert body[..|mark + more|][|mark|..] == more;
      assert body[|mark|..|mark + more|] == text[..|more|];
    }
  }

  lemma SourceLine(text: string)
    requires OneLine(text)
    ensures var c := Classify("-" + text + "\n");
            if "-- " <= text then c.SrcFile? else c == Content(ChunkLine(SRC, text))
  {
    var line := "-" + text + "\n";
    assert "-" + "-- " == "--- ";
    LongerMark("-", "-- ", text);
    AfterMark("-", text);
    NotAfter("+++ ", line, 0);
    NotAfter("@@ -", line, 0);
  }

  lemma DestinationLine(text: string)
    requires OneLine(text)
    ensures var c := Classify("+" + text + "\n");
            if "++ " <= text then c.DstFile? else c == Content(ChunkLine(DST, text))
  {
    var line := "+" + text + "\n";
    assert "+" + "++ " == "+++ ";
    LongerMark("+", "++ ", text);
    AfterMark("+", text);
    NotAfter("--- ", line, 0);
    NotAfter("@@ -", line, 0);
    NotAfter("-", line, 0);
  }

  lemma CommonLine(text: string)
    requires OneLine(text)
    ensures Classify(" " + text + "\n") == Content(ChunkLine(BOTH, text))
  {
    var line := " " + text + "\n";
    AfterMark(" ", text);
    NotAfter("--- ", line, 0);
    NotAfter("+++ ", line, 0);
    NotAfter("@@ -", line, 0);
    NotAfter("-", line, 0);
    NotAfter("+", line, 0);
  }

  /** A written line is taken for the line it is, unless it is taken for a file header. */
  lemma ClassifyWritten(l: ChunkLine)
    requires l.kind != UNSET && OneLine(l.text)
    ensures var c := Classify(LineText(l)); if Misread(l) then c.SrcFile? || c.DstFile? else c == Content(l)
  {
    match l.kind
    case SRC => SourceLine(l.text);
    case DST => DestinationLine(l.text);
    case BOTH => CommonLine(l.text);
  }

  // ---- the lines of a patch set, taken for what they are ----

  function ContentClasses(lines: seq<ChunkLine>): seq<LineClass> {
    if lines == [] then [] else ContentClasses(lines[..|lines| - 1]) + [Content(lines[|lines| - 1])]
  }

  function ChunksClasses(chunks: seq<Chunk>): seq<LineClass> {
    if chunks == [] then []
    else
      var c := chunks[|chunks| - 1];
      ChunksClasses(chunks[..|chunks| - 1]) + ([Start(c.srcPos, c.dstPos)] + ContentClasses(c.lines))
  }

  function PatchClasses(p: Patch): seq<LineClass> {
    [SrcFile(p.src), DstFile(p.dst)] + ChunksClasses(p.chunks)
  }

  function SetClasses(patches: seq<Patch>): seq<LineClass> {
    if patches == [] then [] else SetClasses(patches[..|patches| - 1]) + PatchClasses(patches[|patches| - 1])
  }

  predicate NoneMisread(lines: seq<ChunkLine>) {
    forall k :: 0 <= k < |lines| ==> !Misread(lines[k])
  }

  predicate NoChunkMisread(chunks: seq<Chunk>) {
    chunks != [] ==> NoChunkMisread(chunks[..|chunks| - 1]) && NoneMisread(chunks[|chunks| - 1].lines)
  }

  predicate NoPatchMisread(patches: seq<Patch>) {
    patches != [] ==> NoPatchMisread(patches[..|patches| - 1]) && NoChunkMisread(patches[|patches| - 1].chunks)
  }

  lemma {:induction false} ClassifyConcat(classify: string -> LineClass, a: seq<string>, b: seq<string>)
    ensures ClassifyAll(classify, a + b) == ClassifyAll(classify, a) + ClassifyAll(classify, b)
  {
    if a == [] {
      S.Empty(b);
      S.Empty(ClassifyAll(classify, b));
    } else {
      S.HeadTail(a, b);
      ClassifyConcat(classify, a[1..], b);
      S.Assoc([classify(a[0])], ClassifyAll(classify, a[1..]), ClassifyAll(classify, b));
    }
  }

  lemma ClassifyOne(classify: string -> LineClass, line: string)
    ensures ClassifyAll(classify, [line]) == [classify(line)]
  {
    S.Cons<string>(line, []);
    S.Empty([line]);
    S.Empty([classify(line)]);
  }

  /** What the proofs use of the classification of lines. */
  ghost predicate Reads(classify: string -> LineClass) {
    && (forall l: ChunkLine :: l.kind != UNSET && OneLine(l.text) ==>
          var c := classify(LineText(l)); if Misread(l) then !c.Content? else c == Content(l))
    && (forall c: Chunk :: classify(ChunkHeader(c)) == Start(c.srcPos, c.dstPos))
    && (forall p: Patch :: LegalPatch(p) ==> ClassifyAll(classify, NameLines(p)) == [SrcFile(p.src), DstFile(p.dst)])
  }

  lemma ClassifyReads()
    ensures Reads(Classify)
  {
    forall l: ChunkLine | l.kind != UNSET && OneLine(l.text)
      ensures var c := Classify(LineText(l)); if Misread(l) then !c.Content? else c == Content(l)
    {
      ClassifyWritten(l);
    }
    forall c: Chunk ensures Classify(ChunkHeader(c)) == Start(c.srcPos, c.dstPos) {
      HeaderIsStart(c);
    }
    forall p: Patch | LegalPatch(p) ensures ClassifyAll(Classify, NameLines(p)) == [SrcFile(p.src), DstFile(p.dst)] {
      NamesAreFiles(p);
      ClassifyTwo(Classify, "--- " + p.src + "\n", "+++ " + p.dst + "\n");
    }
  }

  lemma ClassifyTwo(classify: string -> LineClass, a: string, b: string)
    ensures ClassifyAll(classify, [a, b]) == [classify(a), classify(b)]
  {
    assert [a, b] == [a] + [b];
    ClassifyConcat(classify, [a], [b]);
    ClassifyOne(classify, a);
    ClassifyOne(classify, b);
  }

  lemma {:induction false} ClassifyContent(classify: string -> LineClass, lines: seq<ChunkLine>)
    requires Reads(classify) && LegalLines(lines) && NoneMisread(lines)
    ensures ClassifyAll(classify, ContentLines(lines)) == ContentClasses(lines)
  {
    if lines != [] {
      var n := |lines| - 1;
      ClassifyContent(classify, lines[..n]);
      ClassifyConcat(classify, ContentLines(lines[..n]), [LineText(lines[n])]);
      ClassifyOne(classify, LineText(lines[n]));
    }
  }

  lemma {:induction false} ClassifyChunks(classify: string -> LineClass, chunks: seq<Chunk>)
    requires Reads(classify) && LegalChunks(chunks) && NoChunkMisread(chunks)
    ensures ClassifyAll(classify, ChunksLines(chunks)) == ChunksClasses(chunks)
  {
    if chunks != [] {
      var n := |chunks| - 1;
      var c := chunks[n];
      ClassifyChunks(classify, chunks[..n]);
      ClassifyContent(classify, c.lines);
      ClassifyConcat(classify, ChunksLines(chunks[..n]), [ChunkHeader(c)] + ContentLines(c.lines));
      ClassifyConcat(classify, [ChunkHeader(c)], ContentLines(c.lines));
      ClassifyOne(classify, ChunkHeader(c));
    }
  }

  lemma {:induction false} ClassifySet(classify: string -> LineClass, patches: seq<Patch>)
    requires Reads(classify) && Legal(patches) && NoPatchMisread(patches)
    ensures ClassifyAll(classify, SetLines(patches)) == SetClasses(patches)
  {
    if patches != [] {
      var n := |patches| - 1;
      var p := patches[n];
      ClassifySet(classify, patches[..n]);
      ClassifyChunks(classify, p.chunks);
      ClassifyConcat(classify, SetLines(patches[..n]), PatchLines(p));
      ClassifyConcat(classify, NameLines(p), ChunksLines(p.chunks));
    }
  }

  // ---- reading back what was written ----

  lemma {:induction false} ParseConcat(p: Parser, a: seq<LineClass>, b: seq<LineClass>)
    requires Ok(p)
    ensures ParseLines(p, a + b) == (match ParseLines(p, a) { case None => None case Some(q) => ParseLines(q, b) })
    decreases |a|
  {
    if a == [] {
      S.Empty(b);
    } else {
      S.HeadTail(a, b);
      var r := ParseLine(p, a[0]);
      if r.Some? {
        ParseConcat(r.value, a[1..], b);
      }
    }
  }

  lemma ParseOne(p: Parser, line: LineClass)
    requires Ok(p)
    ensures ParseLines(p, [line]) == ParseLine(p, line)
  {
    S.Cons<LineClass>(line, []);
    S.Empty([line]);
  }

  /** The parser inside a chunk at the end of the last patch. */
  function InChunk(done: seq<Patch>, p: Patch, a: nat, b: nat, lines: seq<ChunkLine>): (q: Parser)
    ensures Ok(q)
  {
    Parser(done + [p.(chunks := p.chunks + [Chunk(a, b, lines)])], Some((|done|, |p.chunks|)))
  }

  lemma AddLineAtEnd(done: seq<Patch>, p: Patch, a: nat, b: nat, lines: seq<ChunkLine>, l: ChunkLine)
    ensures ParseLine(InChunk(done, p, a, b, lines), Content(l)) == Some(InChunk(done, p, a, b, lines + [l]))
  {
    var c, c' := Chunk(a, b, lines), Chunk(a, b, lines + [l]);
    assert (p.chunks + [c])[|p.chunks| := c'] == p.chunks + [c'];
    var q, q' := p.(chunks := p.chunks + [c]), p.(chunks := p.chunks + [c']);
    assert (done + [q])[|done| := q'] == done + [q'];
  }

  /** In a chunk just begun at the end of the last patch, lines are added one by one. */
  lemma {:induction false} ReadContent(done: seq<Patch>, p: Patch, a: nat, b: nat, lines: seq<ChunkLine>)
    ensures ParseLines(InChunk(done, p, a, b, []), ContentClasses(lines)) == Some(InChunk(done, p, a, b, lines))
    decreases |lines|
  {
    if lines != [] {
      var n := |lines| - 1;
      ReadContent(done, p, a, b, lines[..n]);
      ParseConcat(InChunk(done, p, a, b, []), ContentClasses(lines[..n]), [Content(lines[n])]);
      ParseOne(InChunk(done, p, a, b, lines[..n]), Content(lines[n]));
      AddLineAtEnd(done, p, a, b, lines[..n], lines[n]);
      assert lines[..n] + [lines[n]] == lines;
    }
  }

  lemma ReadChunk(done: seq<Patch>, p: Patch, at: Option<(nat, nat)>, c: Chunk)
    requires Ok(Parser(done + [p], at))
    ensures ParseLines(Parser(done + [p], at), [Start(c.srcPos, c.dstPos)] + ContentClasses(c.lines))
         == Some(InChunk(done, p, c.srcPos, c.dstPos, c.lines))
  {
    var chunks := p.chunks + [Chunk(c.srcPos, c.dstPos, [])];
    assert (done + [p])[|done| := p.(chunks := chunks)] == done + [p.(chunks := chunks)];
    S.Cons(Start(c.srcPos, c.dstPos), ContentClasses(c.lines));
    ReadContent(done, p, c.srcPos, c.dstPos, c.lines);
  }

  lemma {:induction false} ReadChunks(done: seq<Patch>, p: Patch, at: Option<(nat, nat)>, chunks: seq<Chunk>)
    returns (at': Option<(nat, nat)>)
    requires Ok(Parser(done + [p.(chunks := [])], at))
    ensures Ok(Parser(done + [p.(chunks := chunks)], at'))
    ensures ParseLines(Parser(done + [p.(chunks := [])], at), ChunksClasses(chunks))
         == Some(Parser(done + [p.(chunks := chunks)], at'))
    decreases |chunks|
  {
    at' := at;
    if chunks != [] {
      var n := |chunks| - 1;
      var c := chunks[n];
      at' := ReadChunks(done, p, at, chunks[..n]);
      ParseConcat(Parser(done + [p.(chunks := [])], at), ChunksClasses(chunks[..n]),
                  [Start(c.srcPos, c.dstPos)] + ContentClasses(c.lines));
      ReadChunk(done, p.(chunks := chunks[..n]), at', c);
      assert chunks[..n] + [c] == chunks;
      at' := Some((|done|, n));
    }
  }

  lemma ReadNames(done: seq<Patch>, at: Option<(nat, nat)>, p: Patch)
    requires Ok(Parser(done, at))
    ensures Ok(Parser(done + [p.(chunks := [])], at))
    ensures ParseLines(Parser(done, at), [SrcFile(p.src), DstFile(p.dst)])
         == Some(Parser(done + [p.(chunks := [])], at))
  {
    var first, both := Patch(p.src, "", []), p.(chunks := []);
    assert (done + [first])[|done| := both] == done + [both];
    assert [SrcFile(p.src), DstFile(p.dst)][1..] == [DstFile(p.dst)];
    ParseOne(Parser(done + [first], at), DstFile(p.dst));
  }

  lemma ReadPatch(done: seq<Patch>, at: Option<(nat, nat)>, p: Patch) returns (at': Option<(nat, nat)>)
    requires Ok(Parser(done, at))
    ensures Ok(Parser(done + [p], at'))
    ensures ParseLines(Parser(done, at), PatchClasses(p)) == Some(Parser(done + [p], at'))
  {
    ParseConcat(Parser(done, at), [SrcFile(p.src), DstFile(p.dst)], ChunksClasses(p.chunks));
    ReadNames(done, at, p);
    at' := ReadChunks(done, p, at, p.chunks);
  }

  lemma {:induction false} ReadSet(patches: seq<Patch>) returns (at: Option<(nat, nat)>)
    ensures Ok(Parser(patches, at)) && ParseLines(EMPTY, SetClasses(patches)) == Some(Parser(patches, at))
    decreases |patches|
  {
    at := None;
    if patches != [] {
      var n := |patches| - 1;
      at := ReadSet(patches[..n]);
      ParseConcat(EMPTY, SetClasses(patches[..n]), PatchClasses(patches[n]));
      at := ReadPatch(patches[..n], at, patches[n]);
      assert patches[..n] + [patches[n]] == patches;
    }
  }

  // ---- a line taken for a header is lost ----

  function ChunksSize(chunks: seq<Chunk>): nat {
    if chunks == [] then 0 else ChunksSize(chunks[..|chunks| - 1]) + |chunks[|chunks| - 1].lines|
  }

  /** How many lines a patch set has in its chunks. */
  function Size(patches: seq<Patch>): nat {
    if patches == [] then 0 else Size(patches[..|patches| - 1]) + ChunksSize(patches[|patches| - 1].chunks)
  }

  lemma {:induction false} ChunksSizeUpdate(chunks: seq<Chunk>, j: nat, c: Chunk)
    requires j < |chunks|
    ensures ChunksSize(chunks[j := c]) + |chunks[j].lines| == ChunksSize(chunks) + |c.lines|
  {
    var n := |chunks| - 1;
    if j < n {
      assert chunks[j := c][..n] == chunks[..n][j := c];
      ChunksSizeUpdate(chunks[..n], j, c);
    } else {
      assert chunks[j := c][..n] == chunks[..n];
    }
  }

  lemma {:induction false} SizeUpdate(patches: seq<Patch>, i: nat, p: Patch)
    requires i < |patches|
    ensures Size(patches[i := p]) + ChunksSize(patches[i].chunks) == Size(patches) + ChunksSize(p.chunks)
  {
    var n := |patches| - 1;
    if i < n {
      assert patches[i := p][..n] == patches[..n][i := p];
      SizeUpdate(patches[..n], i, p);
    } else {
      assert patches[i := p][..n] == patches[..n];
    }
  }

  /** How many lines add to a chunk. */
  function Contents(lines: seq<LineClass>): nat {
    if lines == [] then 0 else (if lines[0].Content? then 1 else 0) + Contents(lines[1..])
  }

  lemma {:induction false} ContentsConcat(a: seq<LineClass>, b: seq<LineClass>)
    ensures Contents(a + b) == Contents(a) + Contents(b)
  {
    if a == [] {
      S.Empty(b);
    } else {
      S.HeadTail(a, b);
      ContentsConcat(a[1..], b);
    }
  }

  lemma StartSize(patches: seq<Patch>, i: nat, c: Chunk)
    requires i < |patches| && c.lines == []
    ensures Size(patches[i := patches[i].(chunks := patches[i].chunks + [c])]) == Size(patches)
  {
    var chunks := patches[i].chunks;
    assert (chunks + [c])[..|chunks|] == chunks;
    SizeUpdate(patches, i, patches[i].(chunks := chunks + [c]));
  }

  lemma AddLineSize(patches: seq<Patch>, i: nat, j: nat, l: ChunkLine)
    requires i < |patches| && j < |patches[i].chunks|
    ensures Size(AddLine(patches, i, j, l)) == Size(patches) + 1
  {
    var c := patches[i].chunks[j];
    var c' := c.(lines := c.lines + [l]);
    ChunksSizeUpdate(patches[i].chunks, j, c');
    SizeUpdate(patches, i, patches[i].(chunks := patches[i].chunks[j := c']));
  }

  lemma ParseLineSize(p: Parser, line: LineClass)
    requires Ok(p) && ParseLine(p, line).Some?
    ensures Size(ParseLine(p, line).value.patches) == Size(p.patches) + (if line.Content? then 1 else 0)
  {
    var n := |p.patches|;
    match line
    case SrcFile(name) =>
      assert (p.patches + [Patch(name, "", [])])[..n] == p.patches;
    case DstFile(name) =>
      SizeUpdate(p.patches, n - 1, p.patches[n - 1].(dst := name));
    case Start(a, b) =>
      StartSize(p.patches, n - 1, Chunk(a, b, []));
    case Content(l) =>
      AddLineSize(p.patches, p.chunk.value.0, p.chunk.value.1, l);
  }

  lemma {:induction false} ParseSize(p: Parser, lines: seq<LineClass>)
    requires Ok(p) && ParseLines(p, lines).Some?
    ensures Size(ParseLines(p, lines).value.patches) == Size(p.patches) + Contents(lines)
    decreases |lines|
  {
    if lines != [] {
      ParseLineSize(p, lines[0]);
      ParseSize(ParseLine(p, lines[0]).value, lines[1..]);
    }
  }

  lemma {:induction false} WrittenContent(classify: string -> LineClass, lines: seq<ChunkLine>)
    requires Reads(classify) && LegalLines(lines)
    ensures Contents(ClassifyAll(classify, ContentLines(lines))) <= |lines|
    ensures Contents(ClassifyAll(classify, ContentLines(lines))) == |lines| <==> NoneMisread(lines)
  {
    if lines != [] {
      var n := |lines| - 1;
      var line := LineText(lines[n]);
      WrittenContent(classify, lines[..n]);
      ClassifyConcat(classify, ContentLines(lines[..n]), [line]);
      ClassifyOne(classify, line);
      ContentsConcat(ClassifyAll(classify, ContentLines(lines[..n])), [classify(line)]);
      S.Cons<LineClass>(classify(line), []);
      assert NoneMisread(lines[..n]) && !Misread(lines[n]) ==> NoneMisread(lines);
    }
  }

  lemma {:induction false} WrittenChunks(classify: string -> LineClass, chunks: seq<Chunk>)
    requires Reads(classify) && LegalChunks(chunks)
    ensures Contents(ClassifyAll(classify, ChunksLines(chunks))) <= ChunksSize(chunks)
    ensures Contents(ClassifyAll(classify, ChunksLines(chunks))) == ChunksSize(chunks) <==> NoChunkMisread(chunks)
  {
    if chunks != [] {
      var n := |chunks| - 1;
      var c := chunks[n];
      var a, b := ChunksLines(chunks[..n]), ContentLines(c.lines);
      WrittenChunks(classify, chunks[..n]);
      WrittenContent(classify, c.lines);
      ClassifyConcat(classify, a, [ChunkHeader(c)] + b);
      S.Cons(ChunkHeader(c), b);
      S.Cons(classify(ChunkHeader(c)), ClassifyAll(classify, b));
      ContentsConcat(ClassifyAll(classify, a), [classify(ChunkHeader(c))] + ClassifyAll(classify, b));
    }
  }

  lemma {:induction false} WrittenSet(classify: string -> LineClass, patches: seq<Patch>)
    requires Reads(classify) && Legal(patches)
    ensures Contents(ClassifyAll(classify, SetLines(patches))) <= Size(patches)
    ensures Contents(ClassifyAll(classify, SetLines(patches))) == Size(patches) <==> NoPatchMisread(patches)
  {
    if patches != [] {
      var n := |patches| - 1;
      var p := patches[n];
      var names := [SrcFile(p.src), DstFile(p.dst)];
      WrittenSet(classify, patches[..n]);
      WrittenChunks(classify, p.chunks);
      ClassifyConcat(classify, SetLines(patches[..n]), PatchLines(p));
      ClassifyConcat(classify, NameLines(p), ChunksLines(p.chunks));
      ContentsConcat(ClassifyAll(classify, SetLines(patches[..n])),
                     names + ClassifyAll(classify, ChunksLines(p.chunks)));
      ContentsConcat(names, ClassifyAll(classify, ChunksLines(p.chunks)));
      assert names[1..] == [DstFile(p.dst)] && names[1..][1..] == [];
    }
  }

  /** Parsing what a patch set is written as gives it back exactly when no line of it, written,
      looks like a file header. */
  lemma RoundTrip(patches: seq<Patch>)
    requires Legal(patches)
    ensures ParseSet(SetLines(patches)) == Some(patches) <==> NoPatchMisread(patches)
  {
    ClassifyReads();
    if NoPatchMisread(patches) {
      ClassifySet(Classify, patches);
      var at := ReadSet(patches);
    } else {
      WrittenSet(Classify, patches);
      var lines := ClassifyAll(Classify, SetLines(patches));
      if ParseLines(EMPTY, lines).Some? {
        ParseSize(EMPTY, lines);
      }
    }
  }

  // ---- what parsing gives is written faithfully ----

  /** A line that is written and read back as itself. */
  predicate GoodLine(l: ChunkLine) {
    l.kind != UNSET && OneLine(l.text) && !Misread(l)
  }

  predicate GoodChunk(c: Chunk) {
    forall k :: 0 <= k < |c.lines| ==> GoodLine(c.lines[k])
  }

  predicate GoodPatch(p: Patch) {
    OneLine(p.src) && OneLine(p.dst) && forall j :: 0 <= j < |p.chunks| ==> GoodChunk(p.chunks[j])
  }

  predicate GoodPatches(patches: seq<Patch>) {
    forall i :: 0 <= i < |patches| ==> GoodPatch(patches[i])
  }

  predicate GoodClass(line: LineClass) {
    match line
    case SrcFile(name) => OneLine(name)
    case DstFile(name) => OneLine(name)
    case Content(l) => GoodLine(l)
    case _ => true
  }

  /** A line taken for content would have been taken for a header if it looked like one. */
  lemma ClassIsGood(line: string)
    ensures GoodClass(Classify(line))
  {
    var body := Body(line);
    if After("-", line).Some? && "-- " <= body[1..] {
      assert "--- " <= body;
      assert OneLine(body[4..]);
    }
    if After("+", line).Some? && "++ " <= body[1..] {
      assert "+++ " <= body;
      assert OneLine(body[4..]);
    }
  }

  lemma GoodStep(p: Parser, line: LineClass)
    requires Ok(p) && GoodPatches(p.patches) && GoodClass(line) && ParseLine(p, line).Some?
    ensures GoodPatches(ParseLine(p, line).value.patches)
  {
    if line.Content? {
      var (i, j) := p.chunk.value;
      var c := p.patches[i].chunks[j];
      assert GoodPatch(p.patches[i]) && GoodChunk(c);
      assert GoodChunk(c.(lines := c.lines + [line.l]));
      assert GoodPatch(p.patches[i].(chunks := p.patches[i].chunks[j := c.(lines := c.lines + [line.l])]));
    }
  }

  lemma {:induction false} GoodParse(p: Parser, lines: seq<string>)
    requires Ok(p) && GoodPatches(p.patches) && ParseLines(p, ClassifyAll(Classify, lines)).Some?
    ensures GoodPatches(ParseLines(p, ClassifyAll(Classify, lines)).value.patches)
    decreases |lines|
  {
    if lines != [] {
      var c := Classify(lines[0]);
      S.Cons(c, ClassifyAll(Classify, lines[1..]));
      ClassIsGood(lines[0]);
      GoodStep(p, c);
      GoodParse(ParseLine(p, c).value, lines[1..]);
    }
  }

  lemma {:induction false} GoodChunks(chunks: seq<Chunk>)
    requires forall j :: 0 <= j < |chunks| ==> GoodChunk(chunks[j])
    ensures LegalChunks(chunks) && NoChunkMisread(chunks)
  {
    if chunks != [] {
      GoodChunks(chunks[..|chunks| - 1]);
      assert GoodChunk(chunks[|chunks| - 1]);
    }
  }

  lemma {:induction false} GoodIsLegal(patches: seq<Patch>)
    requires GoodPatches(patches)
    ensures Legal(patches) && NoPatchMisread(patches)
  {
    if patches != [] {
      var p := patches[|patches| - 1];
      GoodIsLegal(patches[..|patches| - 1]);
      assert GoodPatch(p);
      GoodChunks(p.chunks);
    }
  }

  /** Whatever a file is parsed as is written and parsed again without any change. */
  lemma ParsedRoundTrip(lines: seq<string>, patches: seq<Patch>)
    requires ParseSet(lines) == Some(patches)
    ensures ParseSet(SetLines(patches)) == Some(patches)
  {
    GoodParse(EMPTY, lines);
    GoodIsLegal(patches);
    RoundTrip(patches);
  }
}
