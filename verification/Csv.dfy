/** The unbuffered reading of a CSV text: what each call of the parser returns when it
    sees the whole rest of the input at once. The class in CsvParser.dfy reads the same
    text through a refilled buffer and is proved equal to this one. */
module Csv {
  import S = Sequences

  /** C++ `char`, signed; so that the terminator enumeration and a character share values. */
  newtype Char = c: int | -128 <= c < 128
  type Text = seq<Char>
  type Row = seq<Text>

  const LF: Char := 10
  const CR: Char := 13
  /** The terminator value that stands for any of CR, LF and CR LF. */
  const CRLF: Char := -2

  datatype Config = Config(quote: Char, delimiter: Char, terminator: Char) {
    predicate IsTerminator(c: Char) {
      if terminator == CRLF then c == CR || c == LF else c == terminator
    }

    /** What is left after terminator `c` once a LF that completes a CR LF is skipped. */
    function SkipLf(c: Char, rest: Text): Text {
      if terminator == CRLF && c == CR && rest != [] && rest[0] == LF then rest[1..] else rest
    }
  }

  datatype State = StartOfField | InField | InQuotedField | InEscapedQuote | EndOfRow | Empty

  datatype Field = Data(text: Text) | RowEnd | CsvEnd

  datatype Step = Step(field: Field, state: State, rest: Text)

  /** What the state machine makes of one character: the result of the call, or the state and
      the field collected so far. */
  datatype Turn = Done(field: Field, state: State, rest: Text) | More(state: State, buf: Text)

  function OnChar(cfg: Config, state: State, buf: Text, c: Char, tail: Text): Turn
    requires state != Empty && state != EndOfRow
  {
    match state
    case StartOfField =>
      if cfg.IsTerminator(c) then Done(RowEnd, StartOfField, cfg.SkipLf(c, tail))
      else if c == cfg.quote then More(InQuotedField, buf)
      else if c == cfg.delimiter then Done(Data(buf), StartOfField, tail)
      else More(InField, buf + [c])
    case InField =>
      if cfg.IsTerminator(c) then Done(Data(buf), EndOfRow, cfg.SkipLf(c, tail))
      else if c == cfg.delimiter then Done(Data(buf), StartOfField, tail)
      else More(InField, buf + [c])
    case InQuotedField =>
      if c == cfg.quote then More(InEscapedQuote, buf)
      else More(InQuotedField, buf + [c])
    case InEscapedQuote =>
      if cfg.IsTerminator(c) then Done(Data(buf), EndOfRow, cfg.SkipLf(c, tail))
      else if c == cfg.quote then More(InQuotedField, buf + [c])
      else if c == cfg.delimiter then Done(Data(buf), StartOfField, tail)
      else More(InField, buf + [c])
  }

  /** Reads on from inside a call: `buf` is the part of the field collected so far. At a row
      end that is still to be reported nothing is consumed. */
  function Scan(cfg: Config, state: State, buf: Text, rest: Text): (r: Step)
    requires state != Empty
    ensures |r.rest| <= |rest|
    ensures r.state == StartOfField || r.state == EndOfRow || r.state == Empty
    ensures r.field.CsvEnd? ==> r.state == Empty
    decreases |rest|
  {
    if rest == [] then Step(if buf != [] then Data(buf) else CsvEnd, Empty, [])
    else if state == EndOfRow then Step(RowEnd, StartOfField, rest)
    else
      match OnChar(cfg, state, buf, rest[0], rest[1..])
      case Done(field, state', rest') => Step(field, state', rest')
      case More(state', buf') => Scan(cfg, state', buf', rest[1..])
  }

  /** One whole call. */
  function Next(cfg: Config, state: State, rest: Text): (r: Step)
    ensures |r.rest| <= |rest|
    ensures state == Empty ==> r.field.CsvEnd?
    ensures r.field.CsvEnd? ==> r.state == Empty
  {
    if state == Empty then Step(CsvEnd, Empty, rest) else Scan(cfg, state, [], rest)
  }

  function Rank(state: State): nat {
    match state
    case Empty => 0
    case EndOfRow => 2
    case _ => 1
  }

  /** Twice the characters to come plus the rank of the state. */
  function Measure(state: State, rest: Text): nat {
    2 * |rest| + Rank(state)
  }

  lemma {:induction false} ScanConsumes(cfg: Config, state: State, buf: Text, rest: Text)
    requires state != Empty && state != EndOfRow
    ensures var r := Scan(cfg, state, buf, rest); rest != [] ==> |r.rest| < |rest|
    decreases |rest|
  {
    if |rest| > 1 && Scan(cfg, state, buf, rest).rest == rest {
      var c, tail := rest[0], rest[1..];
      assert |Scan(cfg, state, buf, rest).rest| <= |tail|;
    }
  }

  /** Every call made before the end lowers the measure, so the end is reached; after it
      every call reports the end again. */
  lemma NextDecreasesMeasure(cfg: Config, state: State, rest: Text)
    ensures var r := Next(cfg, state, rest);
            if state == Empty then r == Step(CsvEnd, Empty, rest)
            else Measure(r.state, r.rest) < Measure(state, rest)
  {
    if state != Empty && state != EndOfRow {
      ScanConsumes(cfg, state, [], rest);
    }
  }

  /** All results from here to the first end of the text, which closes the sequence. */
  function Events(cfg: Config, state: State, rest: Text): (events: seq<Field>)
    ensures events != [] && events[|events| - 1].CsvEnd?
    ensures forall i :: 0 <= i < |events| - 1 ==> !events[i].CsvEnd?
    decreases Measure(state, rest)
  {
    NextDecreasesMeasure(cfg, state, rest);
    var r := Next(cfg, state, rest);
    if r.field.CsvEnd? then [CsvEnd] else [r.field] + Events(cfg, r.state, r.rest)
  }

  /** The rows a result sequence spells: the groups of data between row ends, and a last
      group without row end only when it has a field. `partial` is the group under way. */
  function Rows(events: seq<Field>, partial: Row): seq<Row> {
    if events == [] || events[0].CsvEnd? then (if partial == [] then [] else [partial])
    else
      match events[0]
      case RowEnd => [partial] + Rows(events[1..], [])
      case Data(text) => Rows(events[1..], partial + [text])
      case CsvEnd => []
  }

  /** The rows of a text. */
  function RowsOf(cfg: Config, input: Text): seq<Row> {
    Rows(Events(cfg, StartOfField, input), [])
  }

  /** The rows still to come when the parser is inside a row that has `partial` already. */
  ghost function RowsFrom(cfg: Config, state: State, rest: Text, partial: Row): seq<Row> {
    Rows(Events(cfg, state, rest), partial)
  }

  lemma RowsAfterStep(cfg: Config, state: State, rest: Text, partial: Row)
    ensures var r := Next(cfg, state, rest);
            RowsFrom(cfg, state, rest, partial) ==
            match r.field {
              case CsvEnd => if partial == [] then [] else [partial]
              case RowEnd => [partial] + RowsFrom(cfg, r.state, r.rest, [])
              case Data(text) => RowsFrom(cfg, r.state, r.rest, partial + [text])
            }
  {
    var r := Next(cfg, state, rest);
    if !r.field.CsvEnd? {
      NextDecreasesMeasure(cfg, state, rest);
      S.Cons(r.field, Events(cfg, r.state, r.rest));
    }
  }

  /** What one step of the row iterator reads: a row, and whether the text ended instead of
      the row. */
  datatype RowStep = RowStep(row: Row, ended: bool, state: State, rest: Text)

  function NextRow(cfg: Config, state: State, partial: Row, rest: Text): (r: RowStep)
    ensures r.ended ==> r.state == Empty
    ensures state != Empty ==> Measure(r.state, r.rest) < Measure(state, rest)
    ensures state == Empty ==> r == RowStep(partial, true, Empty, rest)
    decreases Measure(state, rest)
  {
    NextDecreasesMeasure(cfg, state, rest);
    var r := Next(cfg, state, rest);
    match r.field
    case CsvEnd => RowStep(partial, true, r.state, r.rest)
    case RowEnd => RowStep(partial, false, r.state, r.rest)
    case Data(text) => NextRow(cfg, r.state, partial + [text], r.rest)
  }

  /** The row an iterator holds and those after it; at the end only a last row that has a field. */
  ghost function RowsWith(r: RowStep, cfg: Config): seq<Row> {
    if r.ended then (if r.row == [] then [] else [r.row]) else [r.row] + RowsFrom(cfg, r.state, r.rest, [])
  }

  lemma {:induction false} RowsAfterRow(cfg: Config, state: State, partial: Row, rest: Text)
    ensures var r := NextRow(cfg, state, partial, rest);
            RowsFrom(cfg, state, rest, partial) == RowsWith(r, cfg)
    decreases Measure(state, rest)
  {
    RowsAfterStep(cfg, state, rest, partial);
    NextDecreasesMeasure(cfg, state, rest);
    var r := Next(cfg, state, rest);
    if r.field.Data? {
      RowsAfterRow(cfg, r.state, partial + [r.field.text], r.rest);
    }
  }

  /** Once the row held is taken, the next one is held. */
  lemma RowsAfterHeld(r: RowStep, cfg: Config)
    requires r.ended ==> r.state == Empty
    requires !(r.ended && r.row == [])
    ensures RowsWith(r, cfg) == [r.row] + RowsWith(NextRow(cfg, r.state, [], r.rest), cfg)
  {
    RowsAfterRow(cfg, r.state, [], r.rest);
    S.Empty([r.row]);
  }
}
