/** Writing rows in the form of section 2 of RFC 4180 and reading them back. */
module CsvRoundTrip {
  import opened Csv
  import S = Sequences

  /** A field as it stands in a file: as it is, between quotes, or with more behind the closing
      quote, which section 2 does not have but the parser takes. */
  datatype Cell = Bare(bare: Text) | Quoted(quoted: Text) | Closed(quoted: Text, more: Text) {
    function Content(): Text {
      match this
      case Bare(text) => text
      case Quoted(text) => text
      case Closed(text, more) => text + more
    }
  }

  type Line = seq<Cell>

  /** Quote, delimiter and terminator do not collide. */
  predicate Distinct(cfg: Config) {
    && cfg.quote != cfg.delimiter
    && !cfg.IsTerminator(cfg.quote)
    && !cfg.IsTerminator(cfg.delimiter)
  }

  /** The line ends a file may use for `cfg`. */
  predicate IsLineEnd(cfg: Config, eol: Text) {
    if cfg.terminator == CRLF then eol == [CR] || eol == [LF] || eol == [CR, LF]
    else eol == [cfg.terminator]
  }

  /** A bare field has no delimiter and no terminator in it and does not begin with a quote, and
      so has what follows a closing quote; between quotes may stand anything. */
  predicate Legal(cfg: Config, cell: Cell) {
    match cell
    case Bare(text) => Plain(cfg, text) && (text != [] ==> text[0] != cfg.quote)
    case Quoted(_) => true
    case Closed(_, more) => more != [] && Plain(cfg, more) && more[0] != cfg.quote
  }

  predicate Plain(cfg: Config, text: Text) {
    forall i :: 0 <= i < |text| ==> text[i] != cfg.delimiter && !cfg.IsTerminator(text[i])
  }

  predicate LegalLine(cfg: Config, line: Line) {
    forall i :: 0 <= i < |line| ==> Legal(cfg, line[i])
  }

  predicate LegalLines(cfg: Config, lines: seq<Line>) {
    forall i :: 0 <= i < |lines| ==> LegalLine(cfg, lines[i])
  }

  /** Every quote written twice. */
  function Doubled(cfg: Config, text: Text): Text {
    if text == [] then []
    else (if text[0] == cfg.quote then [cfg.quote, cfg.quote] else [text[0]]) + Doubled(cfg, text[1..])
  }

  function WriteCell(cfg: Config, cell: Cell): Text {
    match cell
    case Bare(text) => text
    case Quoted(text) => [cfg.quote] + Doubled(cfg, text) + [cfg.quote]
    case Closed(text, more) => [cfg.quote] + Doubled(cfg, text) + [cfg.quote] + more
  }

  function WriteLine(cfg: Config, line: Line): Text {
    if line == [] then []
    else if |line| == 1 then WriteCell(cfg, line[0])
    else WriteCell(cfg, line[0]) + [cfg.delimiter] + WriteLine(cfg, line[1..])
  }

  /** Terminated lines. */
  function WriteLines(cfg: Config, eol: Text, lines: seq<Line>): Text {
    if lines == [] then [] else WriteLine(cfg, lines[0]) + eol + WriteLines(cfg, eol, lines[1..])
  }

  /** The texts of the fields of a line. */
  function Texts(line: Line): Row {
    if line == [] then [] else [line[0].Content()] + Texts(line[1..])
  }

  /** What the parser keeps of a terminated line: all but a bare empty field at its end. */
  function Kept(line: Line): Row {
    if line == [] then []
    else if |line| == 1 && line[0] == Bare([]) then []
    else [line[0].Content()] + Kept(line[1..])
  }

  /** What it keeps of the text after the last line end: all but an empty field at its end. */
  function KeptAtEnd(line: Line): Row {
    if line == [] then []
    else if |line| == 1 && line[0].Content() == [] then []
    else [line[0].Content()] + KeptAtEnd(line[1..])
  }

  function KeptLines(lines: seq<Line>): seq<Row> {
    if lines == [] then [] else [Kept(lines[0])] + KeptLines(lines[1..])
  }

  function TextLines(lines: seq<Line>): seq<Row> {
    if lines == [] then [] else [Texts(lines[0])] + TextLines(lines[1..])
  }

  // ---- one field ----

  lemma {:induction false} ScanBare(cfg: Config, buf: Text, text: Text, tail: Text)
    requires Plain(cfg, text)
    ensures Scan(cfg, InField, buf, text + tail) == Scan(cfg, InField, buf + text, tail)
    decreases |text|
  {
    if text == [] {
      S.Empty(tail);
      S.Empty(buf);
    } else {
      S.HeadTail(text, tail);
      S.Uncons(text);
      S.Assoc(buf, [text[0]], text[1..]);
      ScanBare(cfg, buf + [text[0]], text[1..], tail);
    }
  }

  /** Inside quotes the doubled text is collected as it was before doubling. */
  lemma {:induction false} ScanDoubled(cfg: Config, buf: Text, text: Text, tail: Text)
    requires Distinct(cfg)
    ensures Scan(cfg, InQuotedField, buf, Doubled(cfg, text) + tail)
         == Scan(cfg, InQuotedField, buf + text, tail)
    decreases |text|
  {
    var d := Doubled(cfg, text) + tail;
    if text == [] {
      S.Empty(tail);
      S.Empty(buf);
    } else {
      var rest := Doubled(cfg, text[1..]) + tail;
      S.Assoc(if text[0] == cfg.quote then [cfg.quote, cfg.quote] else [text[0]], Doubled(cfg, text[1..]), tail);
      if text[0] == cfg.quote {
        S.HeadTail([cfg.quote, cfg.quote], rest);
        S.HeadTail([cfg.quote, cfg.quote][1..], rest);
        S.Empty(rest);
        assert Scan(cfg, InQuotedField, buf, d) == Scan(cfg, InEscapedQuote, buf, d[1..]);
      } else {
        S.Cons(text[0], rest);
      }
      S.Uncons(text);
      S.Assoc(buf, [text[0]], text[1..]);
      ScanDoubled(cfg, buf + [text[0]], text[1..], tail);
    }
  }

  lemma ScanBareCell(cfg: Config, text: Text, tail: Text)
    requires Legal(cfg, Bare(text)) && text != []
    ensures Scan(cfg, StartOfField, [], text + tail) == Scan(cfg, InField, text, tail)
  {
    S.HeadTail(text, tail);
    S.Empty([text[0]]);
    ScanBare(cfg, [text[0]], text[1..], tail);
    S.Uncons(text);
  }

  lemma ScanQuotedCell(cfg: Config, text: Text, tail: Text)
    requires Distinct(cfg)
    ensures Scan(cfg, StartOfField, [], WriteCell(cfg, Quoted(text)) + tail)
         == Scan(cfg, InEscapedQuote, text, tail)
  {
    var q := [cfg.quote] + tail;
    var d := Doubled(cfg, text);
    S.Assoc([cfg.quote] + d, [cfg.quote], tail);
    S.Assoc([cfg.quote], d, q);
    S.Cons(cfg.quote, d + q);
    ScanDoubled(cfg, [], text, q);
    S.Empty(text);
    S.Cons(cfg.quote, tail);
  }

  /** A whole field ends up in the buffer, in the state from which a delimiter, a line end or
      the end of the text returns it. */
  lemma ScanCell(cfg: Config, cell: Cell, tail: Text) returns (state: State)
    requires Distinct(cfg) && Legal(cfg, cell) && cell != Bare([])
    ensures state == InField || state == InEscapedQuote
    ensures Scan(cfg, StartOfField, [], WriteCell(cfg, cell) + tail) == Scan(cfg, state, cell.Content(), tail)
  {
    match cell
    case Bare(text) =>
      state := InField;
      ScanBareCell(cfg, text, tail);
    case Quoted(text) =>
      state := InEscapedQuote;
      ScanQuotedCell(cfg, text, tail);
    case Closed(text, more) =>
      state := InField;
      S.Assoc(WriteCell(cfg, Quoted(text)), more, tail);
      ScanQuotedCell(cfg, text, more + tail);
      S.HeadTail(more, tail);
      ScanBare(cfg, text + [more[0]], more[1..], tail);
      S.Assoc(text, [more[0]], more[1..]);
      S.Uncons(more);
  }

  lemma FieldBeforeDelimiter(cfg: Config, cell: Cell, tail: Text)
    requires Distinct(cfg) && Legal(cfg, cell)
    ensures Next(cfg, StartOfField, WriteCell(cfg, cell) + ([cfg.delimiter] + tail))
         == Step(Data(cell.Content()), StartOfField, tail)
  {
    var rest := [cfg.delimiter] + tail;
    S.Cons(cfg.delimiter, tail);
    if cell == Bare([]) {
      S.Empty(rest);
    } else {
      var state := ScanCell(cfg, cell, rest);
    }
  }

  /** `tail` does not begin with a LF that would complete a CR line end. */
  predicate NoStrayLf(cfg: Config, tail: Text) {
    cfg.terminator == CRLF && tail != [] ==> tail[0] != LF
  }

  lemma LineEndSkipped(cfg: Config, eol: Text, tail: Text)
    requires IsLineEnd(cfg, eol) && (eol == [CR] ==> NoStrayLf(cfg, tail))
    ensures cfg.IsTerminator((eol + tail)[0]) && cfg.SkipLf((eol + tail)[0], (eol + tail)[1..]) == tail
  {
    S.HeadTail(eol, tail);
    S.Empty(tail);
    if eol == [CR, LF] {
      S.Cons(LF, tail);
      assert eol[1..] == [LF];
    }
  }

  lemma FieldBeforeLineEnd(cfg: Config, cell: Cell, eol: Text, tail: Text)
    requires Distinct(cfg) && Legal(cfg, cell) && IsLineEnd(cfg, eol) && (eol == [CR] ==> NoStrayLf(cfg, tail))
    ensures Next(cfg, StartOfField, WriteCell(cfg, cell) + (eol + tail))
         == if cell == Bare([]) then Step(RowEnd, StartOfField, tail) else Step(Data(cell.Content()), EndOfRow, tail)
  {
    LineEndSkipped(cfg, eol, tail);
    if cell == Bare([]) {
      S.Empty(eol + tail);
    } else {
      var state := ScanCell(cfg, cell, eol + tail);
    }
  }

  lemma FieldAtEnd(cfg: Config, cell: Cell)
    requires Distinct(cfg) && Legal(cfg, cell)
    ensures Next(cfg, StartOfField, WriteCell(cfg, cell))
         == Step(if cell.Content() == [] then CsvEnd else Data(cell.Content()), Empty, [])
  {
    if cell != Bare([]) {
      S.Empty(WriteCell(cfg, cell));
      var state := ScanCell(cfg, cell, []);
    }
  }

  // ---- one line ----

  lemma WriteLineCons(cfg: Config, line: Line, tail: Text)
    requires |line| > 1
    ensures WriteLine(cfg, line) + tail
         == WriteCell(cfg, line[0]) + ([cfg.delimiter] + (WriteLine(cfg, line[1..]) + tail))
  {
    var w, d, r := WriteCell(cfg, line[0]), [cfg.delimiter], WriteLine(cfg, line[1..]);
    S.Assoc(w + d, r, tail);
    S.Assoc(w, d, r + tail);
  }

  /** The row end that follows a field is reported only when more text follows; the row is
      complete either way. */
  lemma RowsAfterLineEnd(cfg: Config, tail: Text, row: Row)
    requires row != []
    ensures RowsFrom(cfg, EndOfRow, tail, row) == [row] + RowsFrom(cfg, StartOfField, tail, [])
  {
    RowsAfterStep(cfg, EndOfRow, tail, row);
    if tail == [] {
      RowsAfterStep(cfg, StartOfField, tail, []);
      S.Empty([row]);
    }
  }

  lemma LastFieldOfLine(cfg: Config, text: Text, field: Text, tail: Text, partial: Row)
    requires Next(cfg, StartOfField, text) == Step(Data(field), EndOfRow, tail)
    ensures RowsFrom(cfg, StartOfField, text, partial)
         == [partial + [field]] + RowsFrom(cfg, StartOfField, tail, [])
  {
    RowsAfterStep(cfg, StartOfField, text, partial);
    RowsAfterLineEnd(cfg, tail, partial + [field]);
  }

  lemma NoFieldBeforeLineEnd(cfg: Config, eol: Text, tail: Text, partial: Row)
    requires Distinct(cfg) && IsLineEnd(cfg, eol) && (eol == [CR] ==> NoStrayLf(cfg, tail))
    ensures RowsFrom(cfg, StartOfField, eol + tail, partial) == [partial] + RowsFrom(cfg, StartOfField, tail, [])
  {
    LineEndSkipped(cfg, eol, tail);
    RowsAfterStep(cfg, StartOfField, eol + tail, partial);
  }

  lemma OneCellLine(cfg: Config, cell: Cell, eol: Text, tail: Text, partial: Row)
    requires Distinct(cfg) && Legal(cfg, cell) && IsLineEnd(cfg, eol) && (eol == [CR] ==> NoStrayLf(cfg, tail))
    ensures RowsFrom(cfg, StartOfField, WriteCell(cfg, cell) + (eol + tail), partial)
         == [if cell == Bare([]) then partial else partial + [cell.Content()]] + RowsFrom(cfg, StartOfField, tail, [])
  {
    if cell == Bare([]) {
      S.Empty(eol + tail);
      NoFieldBeforeLineEnd(cfg, eol, tail, partial);
    } else {
      FieldBeforeLineEnd(cfg, cell, eol, tail);
      LastFieldOfLine(cfg, WriteCell(cfg, cell) + (eol + tail), cell.Content(), tail, partial);
    }
  }

  lemma {:induction false} TerminatedLine(cfg: Config, line: Line, eol: Text, tail: Text, partial: Row)
    requires Distinct(cfg) && LegalLine(cfg, line) && IsLineEnd(cfg, eol) && (eol == [CR] ==> NoStrayLf(cfg, tail))
    ensures RowsFrom(cfg, StartOfField, WriteLine(cfg, line) + (eol + tail), partial)
         == [partial + Kept(line)] + RowsFrom(cfg, StartOfField, tail, [])
    decreases |line|
  {
    var text := WriteLine(cfg, line) + (eol + tail);
    if line == [] {
      S.Empty(eol + tail);
      S.Empty(partial);
      NoFieldBeforeLineEnd(cfg, eol, tail, partial);
    } else if |line| == 1 {
      assert line == [line[0]];
      OneCellLine(cfg, line[0], eol, tail, partial);
      S.Empty(partial);
      S.Empty([line[0].Content()]);
    } else {
      var rest := WriteLine(cfg, line[1..]) + (eol + tail);
      WriteLineCons(cfg, line, eol + tail);
      FieldBeforeDelimiter(cfg, line[0], rest);
      RowsAfterStep(cfg, StartOfField, text, partial);
      TerminatedLine(cfg, line[1..], eol, tail, partial + [line[0].Content()]);
      S.Assoc(partial, [line[0].Content()], Kept(line[1..]));
    }
  }

  lemma OneCellAtEnd(cfg: Config, cell: Cell, partial: Row)
    requires Distinct(cfg) && Legal(cfg, cell)
    ensures RowsFrom(cfg, StartOfField, WriteCell(cfg, cell), partial)
         == var row := partial + KeptAtEnd([cell]); if row == [] then [] else [row]
  {
    RowsAfterStep(cfg, StartOfField, WriteCell(cfg, cell), partial);
    FieldAtEnd(cfg, cell);
    S.Empty(partial);
    if cell.Content() != [] {
      S.Empty([cell.Content()]);
      RowsAfterStep(cfg, Empty, [], partial + [cell.Content()]);
    }
  }

  lemma {:induction false} LastLine(cfg: Config, line: Line, partial: Row)
    requires Distinct(cfg) && LegalLine(cfg, line)
    ensures RowsFrom(cfg, StartOfField, WriteLine(cfg, line), partial)
         == var row := partial + KeptAtEnd(line); if row == [] then [] else [row]
    decreases |line|
  {
    var text := WriteLine(cfg, line);
    if line == [] {
      S.Empty(partial);
      RowsAfterStep(cfg, StartOfField, text, partial);
    } else if |line| == 1 {
      assert line == [line[0]];
      OneCellAtEnd(cfg, line[0], partial);
    } else {
      var rest := WriteLine(cfg, line[1..]);
      S.Assoc(WriteCell(cfg, line[0]), [cfg.delimiter], rest);
      FieldBeforeDelimiter(cfg, line[0], rest);
      RowsAfterStep(cfg, StartOfField, text, partial);
      LastLine(cfg, line[1..], partial + [line[0].Content()]);
      S.Assoc(partial, [line[0].Content()], KeptAtEnd(line[1..]));
    }
  }

  // ---- a file ----

  lemma LineHead(cfg: Config, line: Line, tail: Text)
    requires Distinct(cfg) && LegalLine(cfg, line) && NoStrayLf(cfg, tail)
    ensures NoStrayLf(cfg, WriteLine(cfg, line) + tail)
  {
    if line != [] {
      assert Legal(cfg, line[0]);
    }
  }

  lemma WriteLinesCons(cfg: Config, eol: Text, lines: seq<Line>, last: Text)
    requires lines != []
    ensures WriteLines(cfg, eol, lines) + last
         == WriteLine(cfg, lines[0]) + (eol + (WriteLines(cfg, eol, lines[1..]) + last))
  {
    var w, r := WriteLine(cfg, lines[0]), WriteLines(cfg, eol, lines[1..]);
    S.Assoc(w + eol, r, last);
    S.Assoc(w, eol, r + last);
  }

  /** What follows a CR line end is no LF. */
  lemma FileHead(cfg: Config, eol: Text, lines: seq<Line>, last: Line)
    requires Distinct(cfg) && LegalLines(cfg, lines) && LegalLine(cfg, last) && IsLineEnd(cfg, eol)
    ensures eol == [CR] ==> NoStrayLf(cfg, WriteLines(cfg, eol, lines) + WriteLine(cfg, last))
  {
    if lines == [] {
      LineHead(cfg, last, []);
      S.Empty(WriteLine(cfg, last));
    } else {
      WriteLinesCons(cfg, eol, lines, WriteLine(cfg, last));
      var tail := WriteLines(cfg, eol, lines[1..]) + WriteLine(cfg, last);
      if eol == [CR] {
        S.Cons(CR, tail);
        LineHead(cfg, lines[0], eol + tail);
      }
    }
  }

  /** Reading a file of terminated lines and a last line without line end: every terminated
      line gives one row, and so does the last one if anything of it is kept. */
  lemma {:induction false} ReadFile(cfg: Config, eol: Text, lines: seq<Line>, last: Line)
    requires Distinct(cfg) && LegalLines(cfg, lines) && LegalLine(cfg, last) && IsLineEnd(cfg, eol)
    ensures RowsOf(cfg, WriteLines(cfg, eol, lines) + WriteLine(cfg, last))
         == KeptLines(lines) + (if KeptAtEnd(last) == [] then [] else [KeptAtEnd(last)])
    decreases |lines|
  {
    var end := if KeptAtEnd(last) == [] then [] else [KeptAtEnd(last)];
    if lines == [] {
      S.Empty(WriteLine(cfg, last));
      S.Empty(KeptAtEnd(last));
      S.Empty(end);
      LastLine(cfg, last, []);
    } else {
      var tail := WriteLines(cfg, eol, lines[1..]) + WriteLine(cfg, last);
      WriteLinesCons(cfg, eol, lines, WriteLine(cfg, last));
      FileHead(cfg, eol, lines[1..], last);
      TerminatedLine(cfg, lines[0], eol, tail, []);
      S.Empty(Kept(lines[0]));
      ReadFile(cfg, eol, lines[1..], last);
      S.Assoc([Kept(lines[0])], KeptLines(lines[1..]), end);
    }
  }

  lemma ReadLines(cfg: Config, eol: Text, lines: seq<Line>)
    requires Distinct(cfg) && LegalLines(cfg, lines) && IsLineEnd(cfg, eol)
    ensures RowsOf(cfg, WriteLines(cfg, eol, lines)) == KeptLines(lines)
  {
    ReadFile(cfg, eol, lines, []);
    S.Empty(WriteLines(cfg, eol, lines));
    S.Empty(KeptLines(lines));
  }

  // ---- the round trips ----

  /** Every field between quotes. */
  function QuoteRow(row: Row): Line {
    if row == [] then [] else [Quoted(row[0])] + QuoteRow(row[1..])
  }

  function QuoteRows(rows: seq<Row>): seq<Line> {
    if rows == [] then [] else [QuoteRow(rows[0])] + QuoteRows(rows[1..])
  }

  predicate EndsInEmptyField(row: Row) {
    row != [] && row[|row| - 1] == []
  }

  lemma {:induction false} QuotedRow(cfg: Config, row: Row)
    ensures LegalLine(cfg, QuoteRow(row))
    ensures Kept(QuoteRow(row)) == row
    ensures KeptAtEnd(QuoteRow(row)) == if EndsInEmptyField(row) then row[..|row| - 1] else row
    ensures |QuoteRow(row)| == |row|
  {
    if row != [] {
      QuotedRow(cfg, row[1..]);
      S.Uncons(row);
      S.Cons(Quoted(row[0]), QuoteRow(row[1..]));
      if |row| > 1 && EndsInEmptyField(row) {
        assert row[1..][..|row| - 2] == row[1..|row| - 1];
        assert [row[0]] + row[1..|row| - 1] == row[..|row| - 1];
      }
    }
  }

  lemma {:induction false} QuotedRows(cfg: Config, rows: seq<Row>)
    ensures LegalLines(cfg, QuoteRows(rows))
    ensures KeptLines(QuoteRows(rows)) == rows
  {
    if rows != [] {
      QuotedRow(cfg, rows[0]);
      QuotedRows(cfg, rows[1..]);
      S.Uncons(rows);
      S.Cons(QuoteRow(rows[0]), QuoteRows(rows[1..]));
    }
  }

  /** Rows of any fields, all quoted and all terminated, are read back unchanged. */
  lemma RoundTrip(cfg: Config, eol: Text, rows: seq<Row>)
    requires Distinct(cfg) && IsLineEnd(cfg, eol)
    ensures RowsOf(cfg, WriteLines(cfg, eol, QuoteRows(rows))) == rows
  {
    QuotedRows(cfg, rows);
    ReadLines(cfg, eol, QuoteRows(rows));
  }

  /** The line end after the last row may be left out exactly when that row has fields and
      the last of them is not empty. */
  lemma RoundTripWithoutLastLineEnd(cfg: Config, eol: Text, rows: seq<Row>, last: Row)
    requires Distinct(cfg) && IsLineEnd(cfg, eol)
    ensures RowsOf(cfg, WriteLines(cfg, eol, QuoteRows(rows)) + WriteLine(cfg, QuoteRow(last))) == rows + [last]
       <==> last != [] && last[|last| - 1] != []
  {
    QuotedRows(cfg, rows);
    QuotedRow(cfg, last);
    ReadFile(cfg, eol, QuoteRows(rows), QuoteRow(last));
    var kept := KeptAtEnd(QuoteRow(last));
    if kept != [] {
      assert (rows + [kept])[|rows|] == kept && (rows + [last])[|rows|] == last;
    } else {
      S.Empty(rows);
    }
  }

  predicate EndsInBareEmpty(line: Line) {
    line != [] && line[|line| - 1] == Bare([])
  }

  lemma {:induction false} KeptWhole(line: Line)
    ensures Kept(line) == Texts(line) <==> !EndsInBareEmpty(line)
  {
    if line != [] {
      KeptWhole(line[1..]);
      S.Uncons(line);
      S.Cons(line[0].Content(), Kept(line[1..]));
      S.Cons(line[0].Content(), Texts(line[1..]));
      if |line| == 1 {
        assert line == [line[0]];
      }
    }
  }

  lemma {:induction false} KeptLinesWhole(lines: seq<Line>)
    ensures KeptLines(lines) == TextLines(lines) <==> forall line :: line in lines ==> !EndsInBareEmpty(line)
  {
    if lines != [] {
      KeptWhole(lines[0]);
      KeptLinesWhole(lines[1..]);
      S.Cons(Kept(lines[0]), KeptLines(lines[1..]));
      S.Cons(Texts(lines[0]), TextLines(lines[1..]));
      assert forall line :: line in lines <==> line == lines[0] || line in lines[1..];
    }
  }

  /** A file of terminated lines with quoted and bare fields is read back unchanged exactly
      when no line ends in a bare empty field. */
  lemma MixedRoundTrip(cfg: Config, eol: Text, lines: seq<Line>)
    requires Distinct(cfg) && LegalLines(cfg, lines) && IsLineEnd(cfg, eol)
    ensures RowsOf(cfg, WriteLines(cfg, eol, lines)) == TextLines(lines)
       <==> forall line :: line in lines ==> !EndsInBareEmpty(line)
  {
    ReadLines(cfg, eol, lines);
    KeptLinesWhole(lines);
  }

  /** A row of a cell `text` and a bare empty one comes back without the second. */
  lemma BareEmptyIsLost(cfg: Config, eol: Text, text: Text)
    requires Distinct(cfg) && IsLineEnd(cfg, eol) && Legal(cfg, Bare(text))
    ensures RowsOf(cfg, WriteLines(cfg, eol, [[Bare(text), Bare([])]])) == [[text]]
  {
    var line: Line := [Bare(text), Bare([])];
    var lines: seq<Line> := [line];
    assert line[1..] == [Bare([])] && Kept(line[1..]) == [];
    assert Kept(line) == [text];
    assert lines[1..] == [] && KeptLines(lines[1..]) == [];
    assert LegalLine(cfg, line) && LegalLines(cfg, lines);
    ReadLines(cfg, eol, lines);
  }

  /** Without a line end after it, a row of one quoted empty cell does not come back at all. */
  lemma LastEmptyIsLost(cfg: Config, eol: Text)
    requires Distinct(cfg) && IsLineEnd(cfg, eol)
    ensures RowsOf(cfg, WriteLine(cfg, QuoteRow([[]]))) == []
  {
    var line := QuoteRow([[]]);
    assert line == [Quoted([])];
    assert KeptAtEnd(line) == [];
    ReadFile(cfg, eol, [], line);
    S.Empty(WriteLine(cfg, line));
  }

  /** Quotes that are never closed end with the text. */
  lemma UnclosedQuotes(cfg: Config, text: Text)
    requires Distinct(cfg)
    ensures Next(cfg, StartOfField, [cfg.quote] + Doubled(cfg, text))
         == Step(if text == [] then CsvEnd else Data(text), Empty, [])
  {
    S.Cons(cfg.quote, Doubled(cfg, text));
    S.Empty(Doubled(cfg, text));
    ScanDoubled(cfg, [], text, []);
    S.Empty(text);
  }

  /** Of the three special characters, if some are the same, a line end comes first everywhere
      outside quotes, then a quote at the start of a field and after a quote inside quotes, and a
      delimiter inside a field. */
  lemma Precedence(cfg: Config, buf: Text, c: Char, tail: Text)
    ensures cfg.IsTerminator(c) ==>
              && Scan(cfg, StartOfField, buf, [c] + tail) == Step(RowEnd, StartOfField, cfg.SkipLf(c, tail))
              && Scan(cfg, InField, buf, [c] + tail) == Step(Data(buf), EndOfRow, cfg.SkipLf(c, tail))
              && Scan(cfg, InEscapedQuote, buf, [c] + tail) == Step(Data(buf), EndOfRow, cfg.SkipLf(c, tail))
    ensures !cfg.IsTerminator(c) && c == cfg.quote == cfg.delimiter ==>
              && Scan(cfg, StartOfField, buf, [c] + tail) == Scan(cfg, InQuotedField, buf, tail)
              && Scan(cfg, InEscapedQuote, buf, [c] + tail) == Scan(cfg, InQuotedField, buf + [c], tail)
              && Scan(cfg, InField, buf, [c] + tail) == Step(Data(buf), StartOfField, tail)
    ensures c == cfg.quote ==> Scan(cfg, InQuotedField, buf, [c] + tail) == Scan(cfg, InEscapedQuote, buf, tail)
  {
    S.Cons(c, tail);
  }
}
