/** The forms of the lines of a unified diff: what stands in the header of a chunk, which headers
    are taken, and which files are parsed. */
module PatchForms {
  import opened PatchSets
  import opened Decimal
  import opened Options
  import S = Sequences

  // ---- the header of a chunk ----

  predicate InSource(l: ChunkLine) {
    l.kind == SRC || l.kind == BOTH
  }

  predicate InDestination(l: ChunkLine) {
    l.kind == DST || l.kind == BOTH
  }

  lemma {:induction false} CountIsPlaces(lines: seq<ChunkLine>)
    ensures Count(lines, SRC) == |S.Places(lines, InSource)|
    ensures Count(lines, DST) == |S.Places(lines, InDestination)|
  {
    if lines == [] {
      assert S.Places(lines, InSource) == {} && S.Places(lines, InDestination) == {};
    } else {
      CountIsPlaces(lines[..|lines| - 1]);
      S.PlacesGrow(lines, InSource);
      S.PlacesGrow(lines, InDestination);
    }
  }

  lemma {:induction false} ContentLineAt(lines: seq<ChunkLine>, k: nat)
    requires k < |lines|
    ensures |ContentLines(lines)| == |lines| && ContentLines(lines)[k] == LineText(lines[k])
  {
    var n := |lines| - 1;
    if k < n {
      ContentLineAt(lines[..n], k);
    } else if n > 0 {
      ContentLineAt(lines[..n], 0);
    }
  }

  /** Whether a written line begins with one of two characters. */
  predicate BeginsWith(line: string, a: char, b: char) {
    line != [] && (line[0] == a || line[0] == b)
  }

  /** A written chunk header gives the source position, how many of the lines after it begin with
      a minus or a space, the destination position, and how many begin with a plus or a space. */
  lemma HeaderOfWritten(c: Chunk)
    requires forall k :: 0 <= k < |c.lines| ==> c.lines[k].kind != UNSET
    ensures var text := ContentLines(c.lines);
            var srcLen := |set k | 0 <= k < |text| && BeginsWith(text[k], '-', ' ')|;
            var dstLen := |set k | 0 <= k < |text| && BeginsWith(text[k], '+', ' ')|;
            ChunkHeader(c) == "@@ -" + (Digits(c.srcPos) + ("," + (Digits(srcLen)
              + (" +" + (Digits(c.dstPos) + ("," + (Digits(dstLen) + " @@\n")))))))
  {
    var text := ContentLines(c.lines);
    CountIsPlaces(c.lines);
    forall k | 0 <= k < |c.lines|
      ensures |text| == |c.lines| && BeginsWith(text[k], '-', ' ') == InSource(c.lines[k])
      ensures BeginsWith(text[k], '+', ' ') == InDestination(c.lines[k])
    {
      ContentLineAt(c.lines, k);
    }
    if c.lines == [] {
      assert text == [];
    }
    assert S.Places(c.lines, InSource) == set k | 0 <= k < |text| && BeginsWith(text[k], '-', ' ');
    assert S.Places(c.lines, InDestination) == set k | 0 <= k < |text| && BeginsWith(text[k], '+', ' ');
  }

  /** A common and an added line. */
  lemma HeaderExample()
    ensures var c := Chunk(1, 1, [ChunkLine(BOTH, "x"), ChunkLine(DST, "y")]);
            ChunkHeader(c) == "@@ -1,1 +1,2 @@\n" && ContentLines(c.lines) == [" x\n", "+y\n"]
  {
    var x, y := ChunkLine(BOTH, "x"), ChunkLine(DST, "y");
    var lines := [x, y];
    assert lines[..1] == [x] && [x][..0] == [];
    assert Count([], SRC) == 0 && Count([], DST) == 0;
    assert Count([x], SRC) == 1 && Count([x], DST) == 1;
    assert Count(lines, SRC) == 1 && Count(lines, DST) == 2;
    assert Digits(1) == "1" && Digits(2) == "2";
    assert LineText(x) == " x\n" && LineText(y) == "+y\n";
    assert ContentLines([]) == [];
    assert ContentLines([x]) == [" x\n"];
    assert ContentLines(lines) == [" x\n"] + ["+y\n"];
  }

  // ---- what is accepted ----

  /** A line matches a mark and the rest when it is just that, with its line feed or without. */
  lemma AfterIs(mark: string, line: string, text: string)
    requires OneLine(mark)
    ensures After(mark, line) == Some(text)
       <==> OneLine(text) && (line == mark + text + "\n" || (line == mark + text && !EndsInLineFeed(line)))
  {
    assert Body(mark + text + "\n") == mark + text;
    assert (mark + text)[|mark|..] == text;
    if After(mark, line) == Some(text) {
      var body := Body(line);
      assert body[..|mark|] == mark && body == mark + text;
      assert body != line ==> line == body + "\n";
    }
  }

  predicate EndsInLineFeed(line: string) {
    line != "" && line[|line| - 1] == '\n'
  }

  function HeaderText(a: string, b: string, c: string, d: string, rest: string): string {
    "@@ -" + (a + ("," + (b + (" +" + (c + ("," + (d + (" @@" + rest))))))))
  }

  /** The headers of chunks are the lines that begin with two pairs of decimal numbers between
      these marks, and may go on. */
  lemma ChunkStartIs(line: string, a: string, b: string, c: string, d: string, rest: string)
    requires AreDigits(a) && AreDigits(b) && AreDigits(c) && AreDigits(d)
    requires line == HeaderText(a, b, c, d, rest)
    ensures ChunkStart(line) == Some((Value(a), Value(c)))
  {
    var s8 := " @@" + rest;
    var s6 := "," + (d + s8);
    var s4 := " +" + (c + s6);
    var s2 := "," + (b + s4);
    ExpectConcat("@@ -", a + s2);
    NumberOf(a, s2);
    ExpectConcat(",", b + s4);
    NumberOf(b, s4);
    ExpectConcat(" +", c + s6);
    NumberOf(c, s6);
    ExpectConcat(",", d + s8);
    NumberOf(d, s8);
    ExpectConcat(" @@", rest);
  }

  predicate AreDigits(s: string) {
    s != [] && forall i :: 0 <= i < |s| ==> IsDigit(s[i])
  }

  lemma NumberOf(a: string, rest: string)
    requires AreDigits(a) && rest != [] && !IsDigit(rest[0])
    ensures Number(a + rest) == Some((Value(a), rest))
  {
    DigitRunOf(a, rest);
    assert (a + rest)[..|a|] == a && (a + rest)[|a|..] == rest;
  }

  lemma NumberIs(s: string) returns (a: string)
    requires Number(s).Some?
    ensures AreDigits(a) && s == a + Number(s).value.1 && Number(s).value.0 == Value(a)
  {
    var k := DigitRun(s);
    a := s[..k];
    assert s == s[..k] + s[k..];
  }

  lemma ExpectIs(mark: string, s: string)
    requires Expect(mark, s).Some?
    ensures s == mark + Expect(mark, s).value
  {
    assert s[..|mark|] == mark;
  }

  lemma ChunkStartOnly(line: string) returns (a: string, b: string, c: string, d: string, rest: string)
    requires ChunkStart(line).Some?
    ensures AreDigits(a) && AreDigits(b) && AreDigits(c) && AreDigits(d)
    ensures line == HeaderText(a, b, c, d, rest)
    ensures ChunkStart(line) == Some((Value(a), Value(c)))
  {
    var s1 := Expect("@@ -", line).value;
    ExpectIs("@@ -", line);
    a := NumberIs(s1);
    var s2 := Number(s1).value.1;
    ExpectIs(",", s2);
    var s3 := Expect(",", s2).value;
    b := NumberIs(s3);
    var s4 := Number(s3).value.1;
    ExpectIs(" +", s4);
    var s5 := Expect(" +", s4).value;
    c := NumberIs(s5);
    var s6 := Number(s5).value.1;
    ExpectIs(",", s6);
    var s7 := Expect(",", s6).value;
    d := NumberIs(s7);
    var s8 := Number(s7).value.1;
    ExpectIs(" @@", s8);
    rest := Expect(" @@", s8).value;
  }

  lemma HeaderTextMore(a: string, b: string, c: string, d: string, rest: string, more: string)
    ensures HeaderText(a, b, c, d, rest) + more == HeaderText(a, b, c, d, rest + more)
  {
    var s8 := " @@" + rest;
    var s6 := "," + (d + s8);
    var s4 := " +" + (c + s6);
    var s2 := "," + (b + s4);
    S.Assoc("@@ -", a + s2, more);
    S.Assoc(a, s2, more);
    S.Assoc(",", b + s4, more);
    S.Assoc(b, s4, more);
    S.Assoc(" +", c + s6, more);
    S.Assoc(c, s6, more);
    S.Assoc(",", d + s8, more);
    S.Assoc(d, s8, more);
    S.Assoc(" @@", rest, more);
  }

  lemma WithoutLineFeed(line: string, head: string, rest: string) returns (front: string)
    requires line + "\n" == head + rest && head != "" && head[|head| - 1] != '\n'
    ensures line == head + front
  {
    assert (line + "\n")[|line|] == '\n' && (head + rest)[|head| - 1] != '\n';
    front := rest[..|rest| - 1];
    assert line == (line + "\n")[..|line|];
  }

  /** The text of a header with all that follows it. */
  lemma HeaderAndRest(a: string, b: string, c: string, d: string, rest: string)
    ensures HeaderText(a, b, c, d, rest) == HeaderText(a, b, c, d, "") + rest
  {
    S.Empty(rest);
    HeaderTextMore(a, b, c, d, "", rest);
  }

  lemma StartWithLineFeed(line: string)
    requires ChunkStart(line).Some?
    ensures ChunkStart(line + "\n") == ChunkStart(line)
  {
    var a, b, c, d, rest := ChunkStartOnly(line);
    HeaderTextMore(a, b, c, d, rest, "\n");
    ChunkStartIs(line + "\n", a, b, c, d, rest + "\n");
  }

  lemma StartOfWithout(line: string)
    requires ChunkStart(line + "\n").Some?
    ensures ChunkStart(line).Some?
  {
    var a, b, c, d, rest := ChunkStartOnly(line + "\n");
    HeaderAndRest(a, b, c, d, rest);
    LastOfHeader(a, b, c, d);
    var front := WithoutLineFeed(line, HeaderText(a, b, c, d, ""), rest);
    HeaderAndRest(a, b, c, d, front);
    ChunkStartIs(line, a, b, c, d, front);
  }

  lemma StartWithoutLineFeed(line: string)
    ensures ChunkStart(line) == ChunkStart(line + "\n")
  {
    if ChunkStart(line).Some? {
      StartWithLineFeed(line);
    } else if ChunkStart(line + "\n").Some? {
      StartOfWithout(line);
    }
  }

  lemma LastOfHeader(a: string, b: string, c: string, d: string)
    ensures var head := HeaderText(a, b, c, d, ""); head != "" && head[|head| - 1] == '@'
  {
    var front := "@@ -" + (a + ("," + (b + (" +" + (c + ("," + d))))));
    var s := " @@" + "";
    assert HeaderText(a, b, c, d, "") == front + s by {
      S.Assoc("@@ -", a + ("," + (b + (" +" + (c + ("," + d))))), s);
      S.Assoc(a, "," + (b + (" +" + (c + ("," + d)))), s);
      S.Assoc(",", b + (" +" + (c + ("," + d))), s);
      S.Assoc(b, " +" + (c + ("," + d)), s);
      S.Assoc(" +", c + ("," + d), s);
      S.Assoc(c, "," + d, s);
      S.Assoc(",", d, s);
    }
    assert s == " @@";
  }

  /** So the last line of a file may lack its line feed. */
  lemma LineFeedIgnored(line: string)
    requires OneLine(line)
    ensures Classify(line) == Classify(line + "\n")
  {
    StartWithoutLineFeed(line);
    assert Body(line + "\n") == line && Body(line) == line;
  }

  predicate SrcFileBefore(classes: seq<LineClass>, i: nat)
    requires i <= |classes|
  {
    exists j :: 0 <= j < i && classes[j].SrcFile?
  }

  predicate StartBefore(classes: seq<LineClass>, i: nat)
    requires i <= |classes|
  {
    exists j :: 0 <= j < i && classes[j].Start?
  }

  /** A line is in its place when it is known, a second name or a chunk header comes after a first
      name, and content comes after a chunk header. */
  predicate InPlace(classes: seq<LineClass>, i: nat)
    requires i < |classes|
  {
    match classes[i]
    case SrcFile(_) => true
    case DstFile(_) => SrcFileBefore(classes, i)
    case Start(_, _) => SrcFileBefore(classes, i)
    case Content(_) => StartBefore(classes, i)
    case Unknown => false
  }

  lemma SameBefore(classes: seq<LineClass>, n: nat, i: nat)
    requires i <= n <= |classes|
    ensures SrcFileBefore(classes[..n], i) == SrcFileBefore(classes, i)
    ensures StartBefore(classes[..n], i) == StartBefore(classes, i)
    ensures i < n ==> InPlace(classes[..n], i) == InPlace(classes, i)
  {
    assert forall j :: 0 <= j < n ==> classes[..n][j] == classes[j];
  }

  lemma {:induction false} ParsedInPlace(classes: seq<LineClass>)
    ensures ParseLines(EMPTY, classes).Some? <==> forall i :: 0 <= i < |classes| ==> InPlace(classes, i)
    ensures ParseLines(EMPTY, classes).Some? ==>
              var p := ParseLines(EMPTY, classes).value;
              && (p.patches != [] <==> SrcFileBefore(classes, |classes|))
              && (p.chunk.Some? <==> StartBefore(classes, |classes|))
  {
    if classes != [] {
      var n := |classes| - 1;
      var front, last := classes[..n], classes[n];
      ParsedInPlace(front);
      assert classes == front + [last];
      ParseConcat(EMPTY, front, [last]);
      forall i | 0 <= i <= n
        ensures SrcFileBefore(front, i) == SrcFileBefore(classes, i) && StartBefore(front, i) == StartBefore(classes, i)
        ensures i < n ==> InPlace(front, i) == InPlace(classes, i)
      {
        SameBefore(classes, n, i);
      }
      OneMoreBefore(classes);
      assert (forall i :: 0 <= i < |classes| ==> InPlace(classes, i))
        <==> (forall i :: 0 <= i < n ==> InPlace(front, i)) && InPlace(classes, n);
      if ParseLines(EMPTY, front).Some? {
        var p := ParseLines(EMPTY, front).value;
        ParseOne(p, last);
        assert ParseLine(p, last).Some? <==> InPlace(classes, n);
      }
    }
  }

  lemma OneMoreBefore(classes: seq<LineClass>)
    requires classes != []
    ensures var n := |classes| - 1;
            && (SrcFileBefore(classes, n + 1) <==> SrcFileBefore(classes, n) || classes[n].SrcFile?)
            && (StartBefore(classes, n + 1) <==> StartBefore(classes, n) || classes[n].Start?)
  {}

  lemma {:induction false} ClassifiedLines(lines: seq<string>)
    ensures |ClassifyAll(Classify, lines)| == |lines|
    ensures forall i :: 0 <= i < |lines| ==> ClassifyAll(Classify, lines)[i] == Classify(lines[i])
  {
    if lines != [] {
      ClassifiedLines(lines[1..]);
    }
  }

  /** Parsing raises no exception exactly when every line is in its place. */
  lemma AcceptedFiles(lines: seq<string>)
    ensures var classes := ClassifyAll(Classify, lines);
            && |classes| == |lines| && (forall i :: 0 <= i < |lines| ==> classes[i] == Classify(lines[i]))
            && (ParseSet(lines).Some? <==> forall i :: 0 <= i < |lines| ==> InPlace(classes, i))
  {
    ClassifiedLines(lines);
    ParsedInPlace(ClassifyAll(Classify, lines));
  }

  lemma OneChunk(a: string, b: string)
    ensures ParseLines(EMPTY, [SrcFile(a), DstFile(b), Start(1, 2)])
         == Some(Parser([Patch(a, b, [Chunk(1, 2, [])])], Some((0, 0))))
  {
    var p1 := Parser([Patch(a, "", [])], None);
    var p2 := Parser([Patch(a, b, [])], None);
    assert EMPTY.patches + [Patch(a, "", [])] == p1.patches && p1.patches[0 := Patch(a, b, [])] == p2.patches;
    assert [] + [Chunk(1, 2, [])] == [Chunk(1, 2, [])];
    assert p2.patches[0 := Patch(a, b, [Chunk(1, 2, [])])] == [Patch(a, b, [Chunk(1, 2, [])])];
    ParseOne(p2, Start(1, 2));
    ParseCons(p1, DstFile(b), [Start(1, 2)]);
    ParseCons(EMPTY, SrcFile(a), [DstFile(b), Start(1, 2)]);
  }

  /** Content goes to the chunk begun last, even when another patch was begun since. */
  lemma StrayContent(a: string, b: string, c: string, x: ChunkLine)
    ensures var p := ParseLines(EMPTY, [SrcFile(a), DstFile(b), Start(1, 2)] + [SrcFile(c), Content(x)]);
            p.Some? && p.value.patches == [Patch(a, b, [Chunk(1, 2, [x])]), Patch(c, "", [])]
  {
    OneChunk(a, b);
    ParseConcat(EMPTY, [SrcFile(a), DstFile(b), Start(1, 2)], [SrcFile(c), Content(x)]);
    var p3 := Parser([Patch(a, b, [Chunk(1, 2, [])])], Some((0, 0)));
    var p4 := Parser([Patch(a, b, [Chunk(1, 2, [])]), Patch(c, "", [])], Some((0, 0)));
    assert p3.patches + [Patch(c, "", [])] == p4.patches;
    assert [] + [x] == [x] && [Chunk(1, 2, [])][0 := Chunk(1, 2, [x])] == [Chunk(1, 2, [x])];
    assert p4.patches[0 := Patch(a, b, [Chunk(1, 2, [x])])] == [Patch(a, b, [Chunk(1, 2, [x])]), Patch(c, "", [])];
    ParseOne(p4, Content(x));
    ParseCons(p3, SrcFile(c), [Content(x)]);
  }

  /** A second name replaces the one before. */
  lemma SecondName(a: string, b: string, c: string)
    ensures var p := ParseLines(EMPTY, [SrcFile(a), DstFile(b), DstFile(c)]);
            p.Some? && p.value.patches == [Patch(a, c, [])]
  {
    var p1, p2 := Parser([Patch(a, "", [])], None), Parser([Patch(a, b, [])], None);
    var p3 := Parser([Patch(a, c, [])], None);
    assert EMPTY.patches + [Patch(a, "", [])] == p1.patches && p1.patches[0 := Patch(a, b, [])] == p2.patches;
    assert p2.patches[0 := Patch(a, c, [])] == p3.patches;
    ParseOne(p2, DstFile(c));
    ParseCons(p1, DstFile(b), [DstFile(c)]);
    ParseCons(EMPTY, SrcFile(a), [DstFile(b), DstFile(c)]);
  }

  lemma ParseCons(p: Parser, line: LineClass, rest: seq<LineClass>)
    requires Ok(p) && ParseLine(p, line).Some?
    ensures ParseLines(p, [line] + rest) == ParseLines(ParseLine(p, line).value, rest)
  {
    S.Cons(line, rest);
  }
}
