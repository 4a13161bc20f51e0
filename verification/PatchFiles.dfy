/** Patch sets as text: writing them piece by piece to a file, and parsing the lines of one. */
module PatchFiles {
  import opened PatchSets
  import opened Decimal
  import opened Options
  import S = Sequences

  class TextFile {
    var text: string

    constructor ()
      ensures text == ""
    {
      text := "";
    }

    method Write(s: string)
      modifies this
      ensures text == old(text) + s
    {
      text := text + s;
    }
  }

  function Joined(lines: seq<string>): string {
    if lines == [] then "" else Joined(lines[..|lines| - 1]) + lines[|lines| - 1]
  }

  lemma {:induction false} JoinedConcat(a: seq<string>, b: seq<string>)
    ensures Joined(a + b) == Joined(a) + Joined(b)
  {
    if b == [] {
      S.Empty(a);
      S.Empty(Joined(a));
    } else {
      var n := |b| - 1;
      assert (a + b)[..|a + b| - 1] == a + b[..n];
      JoinedConcat(a, b[..n]);
      S.Assoc(Joined(a), Joined(b[..n]), b[n]);
    }
  }

  lemma JoinedOne(line: string)
    ensures Joined([line]) == line
  {
    assert [line][..0] == [];
    S.Empty(line);
  }

  // ---- writing ----

  predicate HasKinds(lines: seq<ChunkLine>) {
    forall k :: 0 <= k < |lines| ==> lines[k].kind != UNSET
  }

  /** Not `ok` when the line has no kind. */
  method WriteLine(l: ChunkLine, f: TextFile) returns (ok: bool)
    modifies f
    ensures ok <==> l.kind != UNSET
    ensures ok ==> f.text == old(f.text) + LineText(l)
    ensures !ok ==> f.text == old(f.text)
  {
    match l.kind
    case SRC => f.Write("-" + l.text + "\n"); return true;
    case DST => f.Write("+" + l.text + "\n"); return true;
    case BOTH => f.Write(" " + l.text + "\n"); return true;
    case UNSET => return false;
  }

  method SideLen(c: Chunk, kind: Kind) returns (n: nat)
    ensures n == Count(c.lines, kind)
  {
    n := 0;
    for k := 0 to |c.lines|
      invariant n == Count(c.lines[..k], kind)
    {
      assert c.lines[..k + 1][..k] == c.lines[..k];
      if c.lines[k].kind == kind || c.lines[k].kind == BOTH {
        n := n + 1;
      }
    }
    assert c.lines[..|c.lines|] == c.lines;
  }

  method WriteChunkHeader(c: Chunk, f: TextFile)
    modifies f
    ensures f.text == old(f.text) + Joined([ChunkHeader(c)])
  {
    var srcLen := SideLen(c, SRC);
    var dstLen := SideLen(c, DST);
    f.Write("@@ -" + (Digits(c.srcPos) + ("," + (Digits(srcLen)
      + (" +" + (Digits(c.dstPos) + ("," + (Digits(dstLen) + " @@\n"))))))));
    JoinedOne(ChunkHeader(c));
  }

  method WriteContent(lines: seq<ChunkLine>, f: TextFile) returns (ok: bool)
    modifies f
    ensures ok <==> HasKinds(lines)
    ensures ok ==> f.text == old(f.text) + Joined(ContentLines(lines))
  {
    S.Empty(f.text);
    for k := 0 to |lines|
      invariant HasKinds(lines[..k])
      invariant f.text == old(f.text) + Joined(ContentLines(lines[..k]))
    {
      assert lines[..k + 1][..k] == lines[..k];
      ok := WriteLine(lines[k], f);
      if !ok {
        return;
      }
      AppendLine(old(f.text), ContentLines(lines[..k]), LineText(lines[k]));
    }
    assert lines[..|lines|] == lines;
    ok := true;
  }

  method WriteChunk(c: Chunk, f: TextFile) returns (ok: bool)
    modifies f
    ensures ok <==> HasKinds(c.lines)
    ensures ok ==> f.text == old(f.text) + Joined([ChunkHeader(c)] + ContentLines(c.lines))
  {
    WriteChunkHeader(c, f);
    ok := WriteContent(c.lines, f);
    AppendLines(old(f.text), [ChunkHeader(c)], ContentLines(c.lines));
  }

  lemma AppendLine(text: string, lines: seq<string>, line: string)
    ensures text + Joined(lines) + line == text + Joined(lines + [line])
  {
    JoinedConcat(lines, [line]);
    JoinedOne(line);
    S.Assoc(text, Joined(lines), line);
  }

  lemma AppendLines(text: string, a: seq<string>, b: seq<string>)
    ensures text + Joined(a) + Joined(b) == text + Joined(a + b)
  {
    JoinedConcat(a, b);
    S.Assoc(text, Joined(a), Joined(b));
  }

  predicate ChunksHaveKinds(chunks: seq<Chunk>) {
    chunks != [] ==> ChunksHaveKinds(chunks[..|chunks| - 1]) && HasKinds(chunks[|chunks| - 1].lines)
  }

  lemma {:induction false} PrefixHasKinds(chunks: seq<Chunk>, n: nat)
    requires n <= |chunks| && ChunksHaveKinds(chunks)
    ensures ChunksHaveKinds(chunks[..n])
  {
    if n < |chunks| {
      assert chunks[..|chunks| - 1][..n] == chunks[..n];
      PrefixHasKinds(chunks[..|chunks| - 1], n);
    } else {
      assert chunks[..n] == chunks;
    }
  }

  method WriteNames(p: Patch, f: TextFile)
    modifies f
    ensures f.text == old(f.text) + Joined(NameLines(p))
  {
    var src, dst := "--- " + p.src + "\n", "+++ " + p.dst + "\n";
    f.Write(src);
    f.Write(dst);
    JoinedOne(src);
    AppendLine(old(f.text), [src], dst);
    assert NameLines(p) == [src] + [dst];
  }

  method WriteChunks(chunks: seq<Chunk>, f: TextFile) returns (ok: bool)
    modifies f
    ensures ok <==> ChunksHaveKinds(chunks)
    ensures ok ==> f.text == old(f.text) + Joined(ChunksLines(chunks))
  {
    S.Empty(f.text);
    for j := 0 to |chunks|
      invariant ChunksHaveKinds(chunks[..j])
      invariant f.text == old(f.text) + Joined(ChunksLines(chunks[..j]))
    {
      var c := chunks[j];
      assert chunks[..j + 1][..j] == chunks[..j];
      ok := WriteChunk(c, f);
      if !ok {
        if ChunksHaveKinds(chunks) {
          PrefixHasKinds(chunks, j + 1);
        }
        return;
      }
      AppendLines(old(f.text), ChunksLines(chunks[..j]), [ChunkHeader(c)] + ContentLines(c.lines));
    }
    assert chunks[..|chunks|] == chunks;
    ok := true;
  }

  method WritePatch(p: Patch, f: TextFile) returns (ok: bool)
    modifies f
    ensures ok <==> ChunksHaveKinds(p.chunks)
    ensures ok ==> f.text == old(f.text) + Joined(PatchLines(p))
  {
    WriteNames(p, f);
    ok := WriteChunks(p.chunks, f);
    AppendLines(old(f.text), NameLines(p), ChunksLines(p.chunks));
  }

  // ---- the lines of a text ----

  /** How many characters the first line has, its line feed included. */
  function LineLength(text: string): (k: nat)
    requires text != []
    ensures 0 < k <= |text|
  {
    if text[0] == '\n' || |text| == 1 then 1 else 1 + LineLength(text[1..])
  }

  /** What iterating over a file gives: its lines, each with its line feed if it has one. */
  function Lines(text: string): seq<string>
    decreases |text|
  {
    if text == "" then [] else [text[..LineLength(text)]] + Lines(text[LineLength(text)..])
  }

  predicate IsLine(line: string) {
    line != [] && line[|line| - 1] == '\n' && OneLine(line[..|line| - 1])
  }

  lemma {:induction false} FirstLine(line: string, text: string)
    requires IsLine(line)
    ensures LineLength(line + text) == |line|
  {
    S.HeadTail(line, text);
    if |line| > 1 {
      var front := line[..|line| - 1];
      assert front[0] == line[0];
      assert line[1..][..|line| - 2] == front[1..];
      FirstLine(line[1..], text);
    }
  }

  /** Splitting joined lines gives the lines. */
  lemma {:induction false} LinesOfJoined(lines: seq<string>)
    requires forall i :: 0 <= i < |lines| ==> IsLine(lines[i])
    ensures Lines(Joined(lines)) == lines
    decreases |lines|
  {
    if lines != [] {
      S.Uncons(lines);
      JoinedConcat([lines[0]], lines[1..]);
      JoinedOne(lines[0]);
      FirstLine(lines[0], Joined(lines[1..]));
      var text := lines[0] + Joined(lines[1..]);
      assert text[..|lines[0]|] == lines[0] && text[|lines[0]|..] == Joined(lines[1..]);
      LinesOfJoined(lines[1..]);
    }
  }

  lemma {:induction false} LengthOfLine(text: string)
    requires text != ""
    ensures var k := LineLength(text);
            OneLine(text[..k - 1]) && (text[k - 1] == '\n' || k == |text|)
  {
    if text[0] != '\n' && |text| > 1 {
      LengthOfLine(text[1..]);
      var k := LineLength(text[1..]);
      assert text[..k] == [text[0]] + text[1..][..k - 1];
      assert text[1..][k - 1] == text[k];
    }
  }

  lemma FirstOfText(text: string)
    requires text != ""
    ensures var k := LineLength(text);
            && text == text[..k] + text[k..] && text[..k] != ""
            && (IsLine(text[..k]) || (text[k..] == "" && OneLine(text[..k])))
  {
    LengthOfLine(text);
    var k := LineLength(text);
    assert text[..k][..k - 1] == text[..k - 1];
    assert text[..k] == text[..k - 1] + [text[k - 1]];
  }

  lemma JoinedCons(line: string, lines: seq<string>)
    ensures Joined([line] + lines) == line + Joined(lines)
  {
    JoinedConcat([line], lines);
    JoinedOne(line);
  }

  /** The lines of any text make up the text, and each but the last, which may lack it, ends in the
      only line feed it has. */
  lemma {:induction false} LinesOfText(text: string)
    ensures var lines := Lines(text);
            && Joined(lines) == text
            && forall i :: 0 <= i < |lines| ==>
                 IsLine(lines[i]) || (i == |lines| - 1 && lines[i] != "" && OneLine(lines[i]))
    decreases |text|
  {
    if text != "" {
      var k := LineLength(text);
      FirstOfText(text);
      LinesOfText(text[k..]);
      JoinedCons(text[..k], Lines(text[k..]));
      S.Cons(text[..k], Lines(text[k..]));
    }
  }

  predicate AreLines(lines: seq<string>) {
    forall i :: 0 <= i < |lines| ==> IsLine(lines[i])
  }

  lemma AreLinesConcat(a: seq<string>, b: seq<string>)
    requires AreLines(a) && AreLines(b)
    ensures AreLines(a + b)
  {}

  lemma WithLineFeed(s: string)
    requires OneLine(s)
    ensures IsLine(s + "\n")
  {
    assert (s + "\n")[..|s|] == s;
  }

  lemma OneLineConcat(a: string, b: string)
    requires OneLine(a) && OneLine(b)
    ensures OneLine(a + b)
  {}

  lemma HeaderIsLine(c: Chunk)
    ensures IsLine(ChunkHeader(c))
  {
    var t0 := Digits(Count(c.lines, DST)) + " @@";
    var t1 := "," + t0;
    var t2 := Digits(c.dstPos) + t1;
    var t3 := " +" + t2;
    var t4 := Digits(Count(c.lines, SRC)) + t3;
    var t5 := "," + t4;
    var t6 := Digits(c.srcPos) + t5;
    var t7 := "@@ -" + t6;
    OneLineConcat(Digits(c.srcPos), t5);
    WithLineFeed(t7);
    assert ChunkHeader(c) == t7 + "\n";
  }

  lemma {:induction false} ContentAreLines(lines: seq<ChunkLine>)
    requires LegalLines(lines)
    ensures AreLines(ContentLines(lines))
  {
    if lines != [] {
      var n := |lines| - 1;
      ContentAreLines(lines[..n]);
      WithLineFeed(KindMark(lines[n].kind) + lines[n].text);
      AreLinesConcat(ContentLines(lines[..n]), [LineText(lines[n])]);
    }
  }

  lemma {:induction false} ChunksAreLines(chunks: seq<Chunk>)
    requires LegalChunks(chunks)
    ensures AreLines(ChunksLines(chunks))
  {
    if chunks != [] {
      var n := |chunks| - 1;
      ChunksAreLines(chunks[..n]);
      HeaderIsLine(chunks[n]);
      ContentAreLines(chunks[n].lines);
      AreLinesConcat([ChunkHeader(chunks[n])], ContentLines(chunks[n].lines));
      AreLinesConcat(ChunksLines(chunks[..n]), [ChunkHeader(chunks[n])] + ContentLines(chunks[n].lines));
    }
  }

  lemma NamesAreLines(p: Patch)
    requires LegalPatch(p)
    ensures AreLines(NameLines(p))
  {
    WithLineFeed("--- " + p.src);
    WithLineFeed("+++ " + p.dst);
  }

  lemma {:induction false} SetAreLines(patches: seq<Patch>)
    requires Legal(patches)
    ensures AreLines(SetLines(patches))
  {
    if patches != [] {
      var n := |patches| - 1;
      SetAreLines(patches[..n]);
      NamesAreLines(patches[n]);
      ChunksAreLines(patches[n].chunks);
      AreLinesConcat(NameLines(patches[n]), ChunksLines(patches[n].chunks));
      AreLinesConcat(SetLines(patches[..n]), PatchLines(patches[n]));
    }
  }

  // ---- parsing ----

  /** Line by line: the patches found, and where in them the current chunk is. None when an
      exception is raised. */
  method ParsePatchset(generator: seq<string>) returns (patchset: Option<seq<Patch>>)
    ensures patchset == ParseSet(generator)
  {
    var patches: seq<Patch> := [];
    var currentChunk: Option<(nat, nat)> := None;
    for n := 0 to |generator|
      invariant Ok(Parser(patches, currentChunk))
      invariant ParseLines(EMPTY, ClassifyAll(Classify, generator))
             == ParseLines(Parser(patches, currentChunk), ClassifyAll(Classify, generator[n..]))
    {
      var line := generator[n];
      assert generator[n..][0] == line && generator[n..][1..] == generator[n + 1..];
      S.Cons(Classify(line), ClassifyAll(Classify, generator[n + 1..]));
      var ok;
      var c := MatchLine(line);
      ok, patches, currentChunk := TakeLine(c, patches, currentChunk);
      if !ok {
        return None;
      }
    }
    return Some(patches);
  }

  /** The patterns are tried in turn. */
  method MatchLine(line: string) returns (c: LineClass)
    ensures c == Classify(line)
  {
    var m := After("--- ", line);
    if m.Some? {
      return SrcFile(m.value);
    }
    m := After("+++ ", line);
    if m.Some? {
      return DstFile(m.value);
    }
    var start := ChunkStart(line);
    if start.Some? {
      return Start(start.value.0, start.value.1);
    }
    m := After("-", line);
    if m.Some? {
      return Content(ChunkLine(SRC, m.value));
    }
    m := After("+", line);
    if m.Some? {
      return Content(ChunkLine(DST, m.value));
    }
    m := After(" ", line);
    if m.Some? {
      return Content(ChunkLine(BOTH, m.value));
    }
    return Unknown;
  }

  /** What matched changes the current patch or chunk; not `ok` when there is none or nothing
      matched. */
  method TakeLine(c: LineClass, patches: seq<Patch>, currentChunk: Option<(nat, nat)>)
    returns (ok: bool, patches': seq<Patch>, currentChunk': Option<(nat, nat)>)
    requires Ok(Parser(patches, currentChunk))
    ensures ParseLine(Parser(patches, currentChunk), c) == if ok then Some(Parser(patches', currentChunk')) else None
  {
    ok, patches', currentChunk' := true, patches, currentChunk;
    var current := |patches| - 1;
    match c
    case SrcFile(name) =>
      patches' := patches + [Patch(name, "", [])];
    case DstFile(name) =>
      if patches == [] {
        return false, patches, currentChunk;
      }
      patches' := patches[current := patches[current].(dst := name)];
    case Start(srcPos, dstPos) =>
      if patches == [] {
        return false, patches, currentChunk;
      }
      var chunks := patches[current].chunks;
      patches' := patches[current := patches[current].(chunks := chunks + [Chunk(srcPos, dstPos, [])])];
      currentChunk' := Some((current, |chunks|));
    case Content(l) =>
      if currentChunk == None {
        return false, patches, currentChunk;
      }
      patches' := AddLine(patches, currentChunk.value.0, currentChunk.value.1, l);
    case Unknown =>
      ok := false;
  }

  /** Writing a patch set to a file and parsing the lines of the file. A patch set of which
      nothing spans lines and every line has a kind comes back exactly when no line of it,
      written, looks like a file header. */
  method WriteAndParse(patches: seq<Patch>) returns (back: Option<seq<Patch>>)
    requires Legal(patches)
    ensures back == Some(patches) <==> NoPatchMisread(patches)
  {
    var f := new TextFile();
    for i := 0 to |patches|
      invariant fresh(f) && f.text == Joined(SetLines(patches[..i]))
    {
      assert patches[..i + 1][..i] == patches[..i];
      LegalPrefix(patches, i + 1);
      KindsOfLegal(patches[i].chunks);
      var ok := WritePatch(patches[i], f);
      JoinedConcat(SetLines(patches[..i]), PatchLines(patches[i]));
    }
    assert patches[..|patches|] == patches;
    SetAreLines(patches);
    LinesOfJoined(SetLines(patches));
    RoundTrip(patches);
    back := ParsePatchset(Lines(f.text));
  }

  lemma {:induction false} LegalPrefix(patches: seq<Patch>, n: nat)
    requires Legal(patches) && n <= |patches|
    ensures Legal(patches[..n])
  {
    if n < |patches| {
      assert patches[..|patches| - 1][..n] == patches[..n];
      LegalPrefix(patches[..|patches| - 1], n);
    } else {
      assert patches[..n] == patches;
    }
  }

  lemma {:induction false} KindsOfLegal(chunks: seq<Chunk>)
    requires LegalChunks(chunks)
    ensures ChunksHaveKinds(chunks)
  {
    if chunks != [] {
      KindsOfLegal(chunks[..|chunks| - 1]);
    }
  }
}
