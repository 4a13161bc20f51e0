/** The buffered parser and its row iterator, proved equal to the unbuffered reading of
    Csv.dfy for every input and every buffer capacity. */
module CsvParser {
  import opened Csv
  import R = CsvRoundTrip
  import S = Sequences

  class Parser {
    var state: State
    var quote: Char
    var delimiter: Char
    var terminator: Char
    /** The characters the stream has not delivered yet. */
    var input: Text
    var fieldBuf: Text
    const inputBuf: array<Char>
    var eof: bool
    var cursor: nat
    var inputBufSize: nat
    var scanPosition: int
    /** The whole text of the stream. */
    ghost const source: Text

    /** The characters the state machine has not consumed yet. */
    ghost var rest: Text

    ghost predicate Valid()
      reads this`input, this`rest, this`eof, this`cursor, this`inputBufSize, this`scanPosition, inputBuf
    {
      && 1 <= inputBuf.Length
      && cursor <= inputBufSize <= inputBuf.Length
      && (if eof then input == [] else inputBufSize == inputBuf.Length)
      && rest == inputBuf[cursor..inputBufSize] + input
      && |rest| <= |source|
      && Position() == |source| - |rest|
      && rest == source[|source| - |rest|..]
    }

    function Settings(): Config
      reads this`quote, this`delimiter, this`terminator
    {
      Config(quote, delimiter, terminator)
    }

    /** A parser over a stream in good condition. */
    constructor (input: Text, capacity: nat)
      requires 1 <= capacity
      ensures Valid() && fresh(inputBuf)
      ensures state == StartOfField && rest == source == input && Position() == 0 && inputBuf.Length == capacity
      ensures Settings() == Config('"' as int as Char, ',' as int as Char, CRLF)
    {
      state := StartOfField;
      quote, delimiter, terminator := '"' as int as Char, ',' as int as Char, CRLF;
      this.input, source, rest := input, input, input;
      fieldBuf := [];
      inputBuf := new Char[capacity];
      eof := false;
      cursor, inputBufSize, scanPosition := capacity, capacity, 0 - capacity as int;
      new;
      S.Empty(input);
      assert inputBuf[cursor..inputBufSize] == [];
    }

    method SetQuote(c: Char)
      requires Valid()
      modifies this`quote
      ensures Valid() && Settings() == old(Settings()).(quote := c)
    {
      quote := c;
    }

    method SetDelimiter(c: Char)
      requires Valid()
      modifies this`delimiter
      ensures Valid() && Settings() == old(Settings()).(delimiter := c)
    {
      delimiter := c;
    }

    method SetTerminator(c: Char)
      requires Valid()
      modifies this`terminator
      ensures Valid() && Settings() == old(Settings()).(terminator := c)
    {
      terminator := c;
    }

    function Position(): int
      reads this`scanPosition, this`cursor
    {
      scanPosition + cursor
    }

    /** Fills the buffer with what the stream has left of it; short of a whole buffer the end
        of the stream has been met. */
    method Refill()
      requires Valid() && !eof && cursor == inputBufSize
      modifies this`input, this`rest, this`eof, this`cursor, this`inputBufSize, this`scanPosition, inputBuf
      ensures Valid() && rest == old(rest)
      ensures cursor == inputBufSize ==> rest == [] && eof
    {
      assert inputBuf[cursor..inputBufSize] == [];
      S.Empty(input);
      scanPosition := scanPosition + cursor;
      cursor := 0;
      var count := if |input| < inputBuf.Length then |input| else inputBuf.Length;
      forall i | 0 <= i < count {
        inputBuf[i] := input[i];
      }
      ghost var delivered := input[..count];
      assert inputBuf[..count] == delivered;
      if |input| < inputBuf.Length {
        eof := true;
        inputBufSize := count;
      }
      assert inputBuf[cursor..inputBufSize] == delivered;
      input := input[count..];
      assert delivered + input == rest;
    }

    /** The next character without consuming it; refills the buffer when it is used up. */
    method TopToken() returns (found: bool, c: Char)
      requires Valid()
      modifies this`input, this`rest, this`eof, this`cursor, this`inputBufSize, this`scanPosition, inputBuf
      ensures Valid() && rest == old(rest)
      ensures found <==> rest != []
      ensures found ==> cursor < inputBufSize && c == inputBuf[cursor] == rest[0]
    {
      if eof && cursor == inputBufSize {
        return false, 0;
      }
      if cursor == inputBufSize {
        Refill();
        if cursor == inputBufSize {
          return false, 0;
        }
      }
      return true, inputBuf[cursor];
    }

    method Advance()
      requires Valid() && cursor < inputBufSize
      modifies this`cursor, this`rest
      ensures Valid() && rest == old(rest)[1..]
    {
      assert inputBuf[cursor..inputBufSize][1..] == inputBuf[cursor + 1..inputBufSize];
      S.HeadTail(inputBuf[cursor..inputBufSize], input);
      cursor := cursor + 1;
      rest := rest[1..];
    }

    /** Skips the LF of a CR LF. */
    method HandleCrlf(c: Char)
      requires Valid()
      modifies this`input, this`rest, this`eof, this`cursor, this`inputBufSize, this`scanPosition, inputBuf
      ensures Valid() && rest == Settings().SkipLf(c, old(rest))
    {
      if terminator != CRLF || c != CR {
        return;
      }
      var found, token := TopToken();
      if found && token == LF {
        Advance();
      }
    }

    // The four states that consume a character. Each does what the state machine says: it ends
    // the call with a result or goes on.

    method AtStartOfField(c: Char) returns (done: bool, field: Field)
      requires Valid() && cursor < inputBufSize && rest[0] == c && state == StartOfField
      modifies this`state, this`fieldBuf, this`input, this`rest, this`eof, this`cursor, this`inputBufSize
      modifies this`scanPosition, inputBuf
      ensures Valid() && (!done ==> rest == old(rest)[1..])
      ensures OnChar(Settings(), StartOfField, old(fieldBuf), c, old(rest)[1..])
           == if done then Done(field, state, rest) else More(state, fieldBuf)
    {
      field, done := Data(fieldBuf), true;
      Advance();
      if Settings().IsTerminator(c) {
        HandleCrlf(c);
        field := RowEnd;
      } else if c == quote {
        state, done := InQuotedField, false;
      } else if c != delimiter {
        state, fieldBuf, done := InField, fieldBuf + [c], false;
      }
    }

    method InsideField(c: Char) returns (done: bool, field: Field)
      requires Valid() && cursor < inputBufSize && rest[0] == c && state == InField
      modifies this`state, this`fieldBuf, this`input, this`rest, this`eof, this`cursor, this`inputBufSize
      modifies this`scanPosition, inputBuf
      ensures Valid() && (!done ==> rest == old(rest)[1..])
      ensures OnChar(Settings(), InField, old(fieldBuf), c, old(rest)[1..])
           == if done then Done(field, state, rest) else More(state, fieldBuf)
    {
      field, done := Data(fieldBuf), true;
      Advance();
      if Settings().IsTerminator(c) {
        HandleCrlf(c);
        state := EndOfRow;
      } else if c == delimiter {
        state := StartOfField;
      } else {
        fieldBuf, done := fieldBuf + [c], false;
      }
    }

    method InsideQuotes(c: Char) returns (done: bool, field: Field)
      requires Valid() && cursor < inputBufSize && rest[0] == c && state == InQuotedField
      modifies this`state, this`fieldBuf, this`input, this`rest, this`eof, this`cursor, this`inputBufSize
      modifies this`scanPosition, inputBuf
      ensures Valid() && (!done ==> rest == old(rest)[1..])
      ensures OnChar(Settings(), InQuotedField, old(fieldBuf), c, old(rest)[1..])
           == if done then Done(field, state, rest) else More(state, fieldBuf)
    {
      field, done := Data(fieldBuf), true;
      Advance();
      done := false;
      if c == quote {
        state := InEscapedQuote;
      } else {
        fieldBuf := fieldBuf + [c];
      }
    }

    method AfterQuote(c: Char) returns (done: bool, field: Field)
      requires Valid() && cursor < inputBufSize && rest[0] == c && state == InEscapedQuote
      modifies this`state, this`fieldBuf, this`input, this`rest, this`eof, this`cursor, this`inputBufSize
      modifies this`scanPosition, inputBuf
      ensures Valid() && (!done ==> rest == old(rest)[1..])
      ensures OnChar(Settings(), InEscapedQuote, old(fieldBuf), c, old(rest)[1..])
           == if done then Done(field, state, rest) else More(state, fieldBuf)
    {
      field, done := Data(fieldBuf), true;
      Advance();
      if Settings().IsTerminator(c) {
        HandleCrlf(c);
        state := EndOfRow;
      } else if c == quote {
        state, fieldBuf, done := InQuotedField, fieldBuf + [c], false;
      } else if c == delimiter {
        state := StartOfField;
      } else {
        state, fieldBuf, done := InField, fieldBuf + [c], false;
      }
    }

    /** The unbuffered reading from here on gives `goal`. */
    ghost predicate Reading(goal: Step)
      reads this
    {
      state != Empty && Scan(Settings(), state, fieldBuf, rest) == goal
    }

    /** One turn of the loop of a call. */
    method Turn(ghost goal: Step) returns (done: bool, field: Field)
      requires Valid() && Reading(goal)
      modifies this`state, this`fieldBuf, this`input, this`rest, this`eof, this`cursor, this`inputBufSize
      modifies this`scanPosition, inputBuf
      ensures Valid()
      ensures if done then Step(field, state, rest) == goal else Reading(goal)
      ensures !done ==> |rest| < |old(rest)|
    {
      var found, c := TopToken();
      if !found {
        state := Empty;
        return true, if fieldBuf != [] then Data(fieldBuf) else CsvEnd;
      }
      match state
      case StartOfField => done, field := AtStartOfField(c);
      case InField => done, field := InsideField(c);
      case InQuotedField => done, field := InsideQuotes(c);
      case InEscapedQuote => done, field := AfterQuote(c);
      case EndOfRow =>
        state := StartOfField;
        return true, RowEnd;
    }

    /** One result. Whatever the capacity and however the text falls into buffers, it is the
        result of the unbuffered reading, and the parser is left where that leaves off. */
    method NextField() returns (field: Field)
      requires Valid()
      modifies this`state, this`fieldBuf, this`input, this`rest, this`eof, this`cursor, this`inputBufSize
      modifies this`scanPosition, inputBuf
      ensures Valid()
      ensures Step(field, state, rest) == Next(Settings(), old(state), old(rest))
      ensures Position() == |source| - |rest| && rest == source[Position()..]
    {
      if state == Empty {
        return CsvEnd;
      }
      fieldBuf := [];
      ghost var goal := Scan(Settings(), state, [], rest);
      while true
        invariant Valid() && Reading(goal)
        decreases |rest|
      {
        var done;
        done, field := Turn(goal);
        if done {
          return;
        }
      }
    }
  }

  /** All results of a parser up to the end are those of the unbuffered reading of its text. */
  method ReadAll(p: Parser) returns (events: seq<Field>)
    requires p.Valid()
    modifies p, p.inputBuf
    ensures events == Events(old(p.Settings()), old(p.state), old(p.rest))
    ensures p.Valid() && p.state == Empty
  {
    events := [];
    var field := RowEnd;
    ghost var all := Events(p.Settings(), p.state, p.rest);
    while !field.CsvEnd?
      invariant p.Valid() && p.Settings() == old(p.Settings())
      invariant field.CsvEnd? ==> p.state == Empty && events == all
      invariant !field.CsvEnd? ==> events + Events(p.Settings(), p.state, p.rest) == all
      decreases Measure(p.state, p.rest), if field.CsvEnd? then 0 else 1
    {
      ghost var cfg, state, rest := p.Settings(), p.state, p.rest;
      NextDecreasesMeasure(cfg, state, rest);
      field := p.NextField();
      S.Assoc(events, [field], Events(cfg, p.state, p.rest));
      events := events + [field];
    }
  }

  /** Goes through the rows of a parser. */
  class Iterator {
    var row: Row
    const parser: Parser
    var currentRow: int

    /** At the first row. */
    constructor Begin(p: Parser)
      requires p.Valid()
      modifies p, p.inputBuf
      ensures parser == p && p.Valid() && p.Settings() == old(p.Settings())
      ensures var r := NextRow(old(p.Settings()), old(p.state), [], old(p.rest));
              p.state == r.state && p.rest == r.rest && row == r.row && currentRow == if r.ended then -1 else 1
    {
      parser, row, currentRow := p, [], 0;
      new;
      Next();
    }

    /** Past the last row. */
    constructor End(p: Parser)
      ensures parser == p && row == [] && currentRow == -1
    {
      parser, row, currentRow := p, [], -1;
    }

    predicate Equals(other: Iterator)
      reads this, other
    {
      currentRow == other.currentRow && |row| == |other.row|
    }

    /** Puts a field in cell `k`, a new one if the row is not that long. */
    method Store(k: nat, text: Text)
      requires k <= |row|
      modifies this`row
      ensures k < |row| && row[..k + 1] == old(row[..k]) + [text]
    {
      if k < |row| {
        row := row[k := text];
      } else {
        row := row + [text];
      }
    }

    /** One field of the row, of which `partial` was read before and which is to come to `goal`. */
    method ReadField(ghost partial: Row, ghost goal: RowStep) returns (field: Field)
      requires parser.Valid() && NextRow(parser.Settings(), parser.state, partial, parser.rest) == goal
      modifies parser, parser.inputBuf
      ensures parser.Valid() && parser.Settings() == old(parser.Settings())
      ensures Measure(parser.state, parser.rest) < old(Measure(parser.state, parser.rest)) || field.CsvEnd?
      ensures match field
              case Data(text) => NextRow(parser.Settings(), parser.state, partial + [text], parser.rest) == goal
              case _ => goal == RowStep(partial, field.CsvEnd?, parser.state, parser.rest)
    {
      NextDecreasesMeasure(parser.Settings(), parser.state, parser.rest);
      field := parser.NextField();
    }

    /** Overwrites the cells of the row it holds, adds or drops cells as the next row is longer
        or shorter, and so holds exactly the next row. */
    method Next()
      requires parser.Valid()
      modifies this, parser, parser.inputBuf
      ensures parser.Valid() && parser.Settings() == old(parser.Settings())
      ensures var r := NextRow(old(parser.Settings()), old(parser.state), [], old(parser.rest));
              parser.state == r.state && parser.rest == r.rest && row == r.row &&
              currentRow == if r.ended then -1 else old(currentRow) + 1
    {
      var numFields := 0;
      ghost var goal := NextRow(parser.Settings(), parser.state, [], parser.rest);
      while true
        invariant parser.Valid() && parser.Settings() == old(parser.Settings())
        invariant numFields <= |row| && currentRow == old(currentRow)
        invariant NextRow(parser.Settings(), parser.state, row[..numFields], parser.rest) == goal
        decreases Measure(parser.state, parser.rest)
      {
        var field := ReadField(row[..numFields], goal);
        match field
        case CsvEnd =>
          row := row[..numFields];
          currentRow := -1;
          return;
        case RowEnd =>
          row := row[..numFields];
          currentRow := currentRow + 1;
          return;
        case Data(text) =>
          Store(numFields, text);
          numFields := numFields + 1;
      }
    }
  }

  /** A loop over the iterator from its begin to its end: it sees exactly the rows of the text. */
  method CollectRows(p: Parser) returns (rows: seq<Row>)
    requires p.Valid()
    modifies p, p.inputBuf
    ensures rows == Rows(Events(old(p.Settings()), old(p.state), old(p.rest)), [])
  {
    ghost var cfg := p.Settings();
    ghost var all, held := RowsFrom(cfg, p.state, p.rest, []), NextRow(cfg, p.state, [], p.rest);
    RowsAfterRow(cfg, p.state, [], p.rest);
    var it := new Iterator.Begin(p);
    var end := new Iterator.End(p);
    rows := [];
    while !it.Equals(end)
      invariant fresh(it) && fresh(end) && it != end && it.parser == p
      invariant end.row == [] && end.currentRow == -1
      invariant p.Valid() && p.Settings() == cfg
      invariant it.currentRow >= -1 && held == RowStep(it.row, it.currentRow == -1, p.state, p.rest)
      invariant held.ended ==> p.state == Empty
      invariant all == rows + RowsWith(held, cfg)
      decreases Measure(p.state, p.rest), it.currentRow + 1, |it.row|
    {
      RowsAfterHeld(held, cfg);
      held := NextRow(cfg, p.state, [], p.rest);
      S.Assoc(rows, [it.row], RowsWith(held, cfg));
      rows := rows + [it.row];
      it.Next();
    }
    S.Empty(rows);
  }

  /** Rows written with quotes everywhere come back through the buffered parser and its
      iterator as they were, for every buffer capacity. */
  method ReadBack(eol: Text, rows: seq<Row>, capacity: nat) returns (back: seq<Row>)
    requires 1 <= capacity && (eol == [CR] || eol == [LF] || eol == [CR, LF])
    ensures back == rows
  {
    var text := R.WriteLines(Config('"' as int as Char, ',' as int as Char, CRLF), eol, R.QuoteRows(rows));
    var p := new Parser(text, capacity);
    R.RoundTrip(p.Settings(), eol, rows);
    back := CollectRows(p);
  }
}
