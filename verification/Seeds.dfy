/** The seed file of the topology generator: printing eighteen seeds and reading them back
    token by token. */
module Seeds {
  import opened Decimal
  import S = Sequences

  newtype UShort = x: int | 0 <= x < 65536

  /** The stored delimiters; the last place of the table is left at zero. */
  const DELIMITERS: seq<char> := [' ', '\t', ':', '\n', '/', '\0']

  predicate IsDelim(c: char) {
    c in DELIMITERS
  }

  predicate IsComment(c: char) {
    c == '#'
  }

  // ---- what reading a token makes of the text to come ----

  function SkipDelims(s: string): (r: string)
    ensures |r| <= |s|
  {
    if s != "" && IsDelim(s[0]) then SkipDelims(s[1..]) else s
  }

  function TokenOf(s: string): string {
    if s == "" || IsDelim(s[0]) then "" else [s[0]] + TokenOf(s[1..])
  }

  /** What follows the token in front and the delimiter after it. */
  function AfterToken(s: string): (r: string)
    ensures |r| <= |s| && (s != "" ==> |r| < |s|)
  {
    if s == "" then "" else if IsDelim(s[0]) then s[1..] else AfterToken(s[1..])
  }

  predicate EndsInToken(s: string) {
    s == "" || (!IsDelim(s[0]) && EndsInToken(s[1..]))
  }

  predicate HasLineFeed(s: string) {
    '\n' in s
  }

  function AfterLine(s: string): (r: string)
    ensures |r| <= |s|
  {
    if s == "" then "" else if s[0] == '\n' then s[1..] else AfterLine(s[1..])
  }

  /** A token, or "" at the end of the text; the text after it; and whether the end was met. */
  function NextToken(s: string): (r: (string, string, bool))
    ensures r.0 != "" ==> |r.1| < |s|
    decreases |s|
  {
    var t := SkipDelims(s);
    if t == "" then ("", "", true)
    else if IsComment(t[0]) then
      if HasLineFeed(t) then NextToken(AfterLine(t[1..])) else ("", "", true)
    else (TokenOf(t), AfterToken(t), EndsInToken(t))
  }

  /** All tokens of a text. */
  function Tokens(s: string): seq<string>
    decreases |s|
  {
    var (token, rest, end) := NextToken(s);
    if token == "" then [] else if end then [token] else [token] + Tokens(rest)
  }

  // ---- numbers ----

  predicate IsSpace(c: char) {
    c == ' ' || '\t' <= c <= '\r'
  }

  function SkipSpace(s: string): string {
    if s != "" && IsSpace(s[0]) then SkipSpace(s[1..]) else s
  }

  /** The number a text begins with, as atoi reads it. */
  function Atoi(s: string): int {
    var t := SkipSpace(s);
    if t != "" && t[0] == '-' then 0 - Value(t[1..][..DigitRun(t[1..])])
    else if t != "" && t[0] == '+' then Value(t[1..][..DigitRun(t[1..])])
    else Value(t[..DigitRun(t)])
  }

  /** Stored in sixteen bits. */
  function ToUShort(n: int): UShort {
    (n % 65536) as UShort
  }

  lemma AtoiOfDigits(n: nat)
    ensures Atoi(Digits(n)) == n
  {
    var s := Digits(n);
    assert IsDigit(s[0]);
    assert s + "" == s;
    DigitRunOf(s, "");
    ValueOfDigits(n);
    assert s[..|s|] == s;
  }

  // ---- one line of the seed file ----

  function SeedLine(key: string, a: UShort, b: UShort, c: UShort): string {
    key + (" " + (Digits(a as nat) + (" " + (Digits(b as nat) + (" " + (Digits(c as nat) + "\n"))))))
  }

  /** A word that is read as one token. */
  predicate IsWord(w: string) {
    w != "" && !IsComment(w[0]) && forall i :: 0 <= i < |w| ==> !IsDelim(w[i])
  }

  lemma {:induction false} TokenBefore(w: string, d: char, rest: string)
    requires forall i :: 0 <= i < |w| ==> !IsDelim(w[i])
    requires IsDelim(d)
    ensures var s := w + ([d] + rest); TokenOf(s) == w && AfterToken(s) == rest && !EndsInToken(s)
  {
    if w == "" {
      S.Empty([d] + rest);
      S.Cons(d, rest);
    } else {
      S.HeadTail(w, [d] + rest);
      S.Uncons(w);
      TokenBefore(w[1..], d, rest);
    }
  }

  /** A word and a delimiter after it are read as that word. */
  lemma WordIsToken(w: string, d: char, rest: string)
    requires IsWord(w) && IsDelim(d)
    ensures NextToken(w + ([d] + rest)) == (w, rest, false)
  {
    TokenBefore(w, d, rest);
  }

  lemma DigitsAreWord(n: nat)
    ensures IsWord(Digits(n))
  {
    var s := Digits(n);
    assert IsDigit(s[0]);
    forall i | 0 <= i < |s| ensures !IsDelim(s[i]) {
      assert IsDigit(s[i]);
    }
  }

  function Number(token: string): UShort {
    ToUShort(Atoi(token))
  }

  lemma NumberOfDigits(n: UShort)
    ensures Number(Digits(n as nat)) == n
  {
    AtoiOfDigits(n as nat);
  }

  lemma TokensOfWord(w: string, d: char, rest: string)
    requires IsWord(w) && IsDelim(d)
    ensures Tokens(w + ([d] + rest)) == [w] + Tokens(rest)
  {
    WordIsToken(w, d, rest);
  }

  /** A printed line has the keyword and the numbers as its tokens, whatever follows. */
  lemma TokensOfSeedLine(key: string, a: UShort, b: UShort, c: UShort, rest: string)
    requires IsWord(key)
    ensures Tokens(SeedLine(key, a, b, c) + rest)
         == [key] + ([Digits(a as nat)] + ([Digits(b as nat)] + ([Digits(c as nat)] + Tokens(rest))))
  {
    var da, db, dc := Digits(a as nat), Digits(b as nat), Digits(c as nat);
    var s2 := dc + ("\n" + rest);
    var s1 := db + (" " + s2);
    var s0 := da + (" " + s1);
    assert SeedLine(key, a, b, c) + rest == key + (" " + s0) by {
      S.Assoc(key, " " + (da + (" " + (db + (" " + (dc + "\n"))))), rest);
      S.Assoc(" ", da + (" " + (db + (" " + (dc + "\n")))), rest);
      S.Assoc(da, " " + (db + (" " + (dc + "\n"))), rest);
      S.Assoc(" ", db + (" " + (dc + "\n")), rest);
      S.Assoc(db, " " + (dc + "\n"), rest);
      S.Assoc(" ", dc + "\n", rest);
      S.Assoc(dc, "\n", rest);
    }
    DigitsAreWord(a as nat);
    DigitsAreWord(b as nat);
    DigitsAreWord(c as nat);
    TokensOfWord(key, ' ', s0);
    TokensOfWord(da, ' ', s1);
    TokensOfWord(db, ' ', s2);
    TokensOfWord(dc, '\n', rest);
  }

  // ---- the parser ----

  class Parse {
    /** What the stream has not delivered yet, and whether its end was met. */
    var infile: string
    var eof: bool

    constructor (text: string)
      ensures infile == text && !eof
    {
      infile, eof := text, false;
    }

    /** At the end the character is left as it was. */
    method Get(ch: char) returns (ch': char)
      modifies this
      ensures old(infile) == "" ==> ch' == ch && eof && infile == ""
      ensures old(infile) != "" ==> ch' == old(infile)[0] && infile == old(infile)[1..] && eof == old(eof)
    {
      if infile == "" {
        eof := true;
        return ch;
      }
      ch' := infile[0];
      infile := infile[1..];
    }

    method GetLine()
      modifies this
      ensures infile == AfterLine(old(infile)) && eof == (old(eof) || !HasLineFeed(old(infile)))
      ensures !HasLineFeed(old(infile)) ==> infile == ""
    {
      while infile != "" && infile[0] != '\n'
        invariant AfterLine(infile) == AfterLine(old(infile)) && HasLineFeed(infile) == HasLineFeed(old(infile))
        invariant eof == old(eof)
        decreases |infile|
      {
        infile := infile[1..];
      }
      if infile == "" {
        eof := true;
      } else {
        infile := infile[1..];
      }
    }

    /** Gets characters until one that is no delimiter. */
    method SkipToToken() returns (ch: char)
      requires !eof
      modifies this
      ensures if eof then infile == "" && SkipDelims(old(infile)) == ""
              else !IsDelim(ch) && SkipDelims(old(infile)) == [ch] + infile && |infile| < |old(infile)|
    {
      ch := *;
      ch := Get(ch);
      while IsDelim(ch) && !eof
        invariant eof ==> infile == "" && SkipDelims(old(infile)) == ""
        invariant !eof ==> SkipDelims([ch] + infile) == SkipDelims(old(infile)) && |infile| < |old(infile)|
        decreases |infile|, !eof
      {
        S.Cons(ch, infile);
        ch := Get(ch);
      }
    }

    /** Gets characters until a delimiter, which is dropped. */
    method ReadToken(first: char) returns (j: nat, toks: string)
      requires !eof && !IsDelim(first)
      modifies this
      ensures var s := [first] + old(infile);
              toks == TokenOf(s) && infile == AfterToken(s) && eof == EndsInToken(s) && j == |toks|
    {
      ghost var s := [first] + infile;
      var ch := first;
      toks, j := "", 0;
      S.Empty(TokenOf(s));
      while !IsDelim(ch) && !eof
        invariant j == |toks|
        invariant eof ==> infile == "" && toks == TokenOf(s) && AfterToken(s) == "" && EndsInToken(s)
        invariant !eof ==> toks + TokenOf([ch] + infile) == TokenOf(s)
        invariant !eof ==> AfterToken([ch] + infile) == AfterToken(s) && EndsInToken([ch] + infile) == EndsInToken(s)
        decreases |infile|, !eof
      {
        S.Cons(ch, infile);
        S.Assoc(toks, [ch], TokenOf(infile));
        S.Empty(toks + [ch]);
        if infile != "" {
          S.Uncons(infile);
        }
        toks := toks + [ch];
        j := j + 1;
        ch := Get(ch);
      }
      if !eof {
        S.Cons(ch, infile);
        S.Empty(toks);
      }
    }

    /** The next token and its length; 0 at the end of the file. */
    method GetNextToken() returns (j: nat, toks: string)
      modifies this
      ensures j == |toks|
      ensures old(eof) ==> toks == "" && eof && infile == old(infile)
      ensures !old(eof) ==> (toks, infile, eof) == NextToken(old(infile))
    {
      toks, j := "", 0;
      while !eof
        invariant toks == "" && j == 0
        invariant old(eof) ==> infile == old(infile)
        invariant !old(eof) ==> NextToken(old(infile)) == if eof then ("", infile, true) else NextToken(infile)
        decreases |infile|, !eof
      {
        ghost var s := infile;
        var ch := SkipToToken();
        if eof {
          return;
        }
        S.Cons(ch, infile);
        if IsComment(ch) {
          GetLine();
          continue;
        }
        j, toks := ReadToken(ch);
        break;
      }
    }

    /** The tokens not read yet. */
    ghost function Remaining(): seq<string>
      reads this
    {
      if eof then [] else Tokens(infile)
    }

    /** The same in terms of tokens: takes the first of those not read yet. */
    method TakeToken() returns (i: nat, toks: string, ghost left: seq<string>)
      modifies this
      ensures left == Remaining()
      ensures i == 0 <==> old(Remaining()) == []
      ensures i != 0 ==> toks == old(Remaining())[0] && left == old(Remaining())[1..]
    {
      ghost var s := infile;
      i, toks := GetNextToken();
      left := Remaining();
      S.Cons(toks, left);
    }

    /** A keyword and three numbers into `seed`; not `ok` on anything else. */
    method ParseSeed(f: string, seed: array<UShort>, ghost tokens: seq<string>)
      returns (ok: bool, ghost left: seq<string>)
      requires seed.Length == 3 && tokens == Remaining()
      modifies this, seed
      ensures left == Remaining()
      ensures ok <==> |tokens| >= 4 && tokens[0] == f
      ensures ok ==> seed[..] == [Number(tokens[1]), Number(tokens[2]), Number(tokens[3])] && left == tokens[4..]
    {
      var i, toks;
      i, toks, left := TakeToken();
      if i == 0 || toks != f {
        return false, left;
      }
      i, toks, left := TakeToken();
      if i == 0 {
        return false, left;
      }
      seed[0] := Number(toks);
      i, toks, left := TakeToken();
      if i == 0 {
        return false, left;
      }
      seed[1] := Number(toks);
      i, toks, left := TakeToken();
      if i == 0 {
        return false, left;
      }
      seed[2] := Number(toks);
      return true, left;
    }
  }

  // ---- all seeds ----

  /** The seeds of the generator, three numbers for each use. */
  class Model {
    const places: array<UShort>
    const connect: array<UShort>
    const edgeConn: array<UShort>
    const grouping: array<UShort>
    const assignment: array<UShort>
    const bandwidth: array<UShort>

    ghost predicate Valid() {
      && places.Length == connect.Length == edgeConn.Length == 3
      && grouping.Length == assignment.Length == bandwidth.Length == 3
      && places !in {connect, edgeConn, grouping, assignment, bandwidth}
      && connect !in {edgeConn, grouping, assignment, bandwidth}
      && edgeConn !in {grouping, assignment, bandwidth}
      && grouping !in {assignment, bandwidth}
      && assignment != bandwidth
    }

    ghost function Arrays(): set<array<UShort>> {
      {places, connect, edgeConn, grouping, assignment, bandwidth}
    }

    constructor ()
      ensures Valid() && fresh(Arrays())
    {
      places, connect, edgeConn := new UShort[3](_ => 0), new UShort[3](_ => 0), new UShort[3](_ => 0);
      grouping, assignment, bandwidth := new UShort[3](_ => 0), new UShort[3](_ => 0), new UShort[3](_ => 0);
    }

    /** The eighteen seeds. */
    ghost function Values(): seq<seq<UShort>>
      reads Arrays()
    {
      [places[..], connect[..], edgeConn[..], grouping[..], assignment[..], bandwidth[..]]
    }

    /** The text of the seed file. */
    method OutputSeeds() returns (file: string)
      requires Valid()
      ensures file == SeedFile(Values())
    {
      var l0 := SeedLine("PLACES", places[0], places[1], places[2]);
      var l1 := SeedLine("CONNECT", connect[0], connect[1], connect[2]);
      var l2 := SeedLine("EDGE_CONN", edgeConn[0], edgeConn[1], edgeConn[2]);
      var l3 := SeedLine("GROUPING", grouping[0], grouping[1], grouping[2]);
      var l4 := SeedLine("ASSIGNMENT", assignment[0], assignment[1], assignment[2]);
      var l5 := SeedLine("BANDWIDTH", bandwidth[0], bandwidth[1], bandwidth[2]);
      file := l0 + (l1 + (l2 + (l3 + (l4 + l5))));
    }

    /** Reads all seeds; not `ok` when the text does not begin with the tokens of a seed file.
        What was read is printed once more, to `lastSeedFile`. */
    method InitSeeds(file: string) returns (ok: bool, lastSeedFile: string)
      requires Valid()
      modifies Arrays()
      ensures ok <==> HasSeeds(KEYS, Tokens(file))
      ensures ok ==> Values() == SeedsOf(KEYS, Tokens(file)) && lastSeedFile == SeedFile(Values())
    {
      var p := new Parse(file);
      lastSeedFile := "";
      ok := ParseSeeds(p, KEYS, Tokens(file));
      if ok {
        lastSeedFile := OutputSeeds();
      }
    }

    method ParseSeeds(p: Parse, ghost keys: seq<string>, ghost all: seq<string>) returns (ok: bool)
      requires Valid() && all == p.Remaining() && |keys| == 6
      requires keys[0] == "PLACES" && keys[1] == "CONNECT" && keys[2] == "EDGE_CONN"
      requires keys[3] == "GROUPING" && keys[4] == "ASSIGNMENT" && keys[5] == "BANDWIDTH"
      modifies p, Arrays()
      ensures ok <==> HasSeeds(keys, all)
      ensures ok ==> Values() == SeedsOf(keys, all)
    {
      ghost var tokens, values := all, [];
      S.Empty(SeedsIn(keys, all));
      ok, tokens, values := ParseThree(p, "PLACES", "CONNECT", "EDGE_CONN", places, connect, edgeConn,
                                       keys, all, keys, tokens, values);
      if !ok { return; }
      ok, tokens, values := ParseThree(p, "GROUPING", "ASSIGNMENT", "BANDWIDTH", grouping, assignment, bandwidth,
                                       keys, all, keys[3..], tokens, values);
      if ok {
        S.Empty(values);
      }
    }
  }

  /** Three calls in a row. */
  method ParseThree(p: Parse, f0: string, f1: string, f2: string,
                    seed0: array<UShort>, seed1: array<UShort>, seed2: array<UShort>,
                    ghost keys: seq<string>, ghost all: seq<string>, ghost left: seq<string>,
                    ghost tokens: seq<string>, ghost values: seq<seq<UShort>>)
    returns (ok: bool, ghost tokens': seq<string>, ghost values': seq<seq<UShort>>)
    requires seed0.Length == 3 && seed1.Length == 3 && seed2.Length == 3
    requires seed0 != seed1 && seed0 != seed2 && seed1 != seed2
    requires tokens == p.Remaining() && Progress(keys, all, left, tokens, values)
    requires |left| >= 3 && left[0] == f0 && left[1] == f1 && left[2] == f2
    modifies p, seed0, seed1, seed2
    ensures !ok ==> !HasSeeds(keys, all)
    ensures ok ==> tokens' == p.Remaining() && Progress(keys, all, left[3..], tokens', values')
    ensures ok ==> values' == values + [seed0[..], seed1[..], seed2[..]]
  {
    ghost var left' := left;
    ok, left', tokens', values' := ParseNext(p, f0, seed0, keys, all, left, tokens, values);
    if !ok { return; }
    ok, left', tokens', values' := ParseNext(p, f1, seed1, keys, all, left', tokens', values');
    if !ok { return; }
    ok, left', tokens', values' := ParseNext(p, f2, seed2, keys, all, left', tokens', values');
  }

  /** One keyword of a seed file, where `values` were read before it and `left` are the keywords
      still to come. */
  method ParseNext(p: Parse, key: string, seed: array<UShort>, ghost keys: seq<string>, ghost all: seq<string>,
                   ghost left: seq<string>, ghost tokens: seq<string>, ghost values: seq<seq<UShort>>)
    returns (ok: bool, ghost left': seq<string>, ghost tokens': seq<string>, ghost values': seq<seq<UShort>>)
    requires seed.Length == 3 && tokens == p.Remaining()
    requires left != [] && left[0] == key && Progress(keys, all, left, tokens, values)
    modifies p, seed
    ensures tokens' == p.Remaining() && left' == left[1..]
    ensures !ok ==> !HasSeeds(keys, all)
    ensures ok ==> Progress(keys, all, left', tokens', values') && values' == values + [seed[..]]
  {
    ok, tokens' := p.ParseSeed(key, seed, tokens);
    left', values' := left[1..], values + [seed[..]];
    if ok && HasSeeds(left', tokens') {
      S.Assoc(values, [seed[..]], SeedsOf(left', tokens'));
    }
  }

  ghost function SeedsIn(keys: seq<string>, tokens: seq<string>): seq<seq<UShort>> {
    if HasSeeds(keys, tokens) then SeedsOf(keys, tokens) else []
  }

  /** What is left to read of `all`, and the seeds read so far. */
  ghost predicate Progress(keys: seq<string>, all: seq<string>, left: seq<string>, tokens: seq<string>,
                           values: seq<seq<UShort>>) {
    && (HasSeeds(keys, all) <==> HasSeeds(left, tokens))
    && (HasSeeds(keys, all) ==> SeedsOf(keys, all) == values + SeedsOf(left, tokens))
  }

  const KEYS: seq<string> := ["PLACES", "CONNECT", "EDGE_CONN", "GROUPING", "ASSIGNMENT", "BANDWIDTH"]

  predicate AreSeeds(values: seq<seq<UShort>>) {
    |values| == 6 && forall i :: 0 <= i < 6 ==> |values[i]| == 3
  }

  function SeedFile(values: seq<seq<UShort>>): string
    requires AreSeeds(values)
  {
    SeedLines(KEYS, values)
  }

  function SeedLines(keys: seq<string>, values: seq<seq<UShort>>): string
    requires |keys| == |values| && forall i :: 0 <= i < |values| ==> |values[i]| == 3
    decreases |keys|
  {
    if keys == [] then ""
    else SeedLine(keys[0], values[0][0], values[0][1], values[0][2]) + SeedLines(keys[1..], values[1..])
  }

  /** Each keyword stands before three more tokens. */
  predicate HasSeeds(keys: seq<string>, tokens: seq<string>) {
    keys == [] || (|tokens| >= 4 && tokens[0] == keys[0] && HasSeeds(keys[1..], tokens[4..]))
  }

  function SeedsOf(keys: seq<string>, tokens: seq<string>): seq<seq<UShort>>
    requires HasSeeds(keys, tokens)
  {
    if keys == [] then []
    else [[Number(tokens[1]), Number(tokens[2]), Number(tokens[3])]] + SeedsOf(keys[1..], tokens[4..])
  }

  lemma {:induction false} TokensOfSeedLines(keys: seq<string>, values: seq<seq<UShort>>)
    requires |keys| == |values| && forall i :: 0 <= i < |values| ==> |values[i]| == 3
    requires forall i :: 0 <= i < |keys| ==> IsWord(keys[i])
    ensures var tokens := Tokens(SeedLines(keys, values)); HasSeeds(keys, tokens) && SeedsOf(keys, tokens) == values
    decreases |keys|
  {
    if keys != [] {
      var v, rest := values[0], SeedLines(keys[1..], values[1..]);
      TokensOfSeedLines(keys[1..], values[1..]);
      TokensOfSeedLine(keys[0], v[0], v[1], v[2], rest);
      FourTokens(keys[0], v, Tokens(rest));
      S.Uncons(values);
    }
  }

  /** The tokens of one line, in front of the others. */
  lemma FourTokens(key: string, v: seq<UShort>, rest: seq<string>)
    requires |v| == 3
    ensures var tokens := [key] + ([Digits(v[0] as nat)] + ([Digits(v[1] as nat)] + ([Digits(v[2] as nat)] + rest)));
            |tokens| >= 4 && tokens[0] == key && tokens[4..] == rest
            && [Number(tokens[1]), Number(tokens[2]), Number(tokens[3])] == v
  {
    FirstFour(key, Digits(v[0] as nat), Digits(v[1] as nat), Digits(v[2] as nat), rest);
    NumberOfDigits(v[0]);
    NumberOfDigits(v[1]);
    NumberOfDigits(v[2]);
  }

  lemma FirstFour(a: string, b: string, c: string, d: string, rest: seq<string>)
    ensures var tokens := [a] + ([b] + ([c] + ([d] + rest)));
            |tokens| >= 4 && tokens[..4] == [a, b, c, d] && tokens[4..] == rest
            && tokens[0] == a && tokens[1] == b && tokens[2] == c && tokens[3] == d
  {}

  /** Reading back a printed seed file restores all eighteen seeds, whatever they are. */
  lemma RoundTrip(values: seq<seq<UShort>>)
    requires AreSeeds(values)
    ensures var tokens := Tokens(SeedFile(values)); HasSeeds(KEYS, tokens) && SeedsOf(KEYS, tokens) == values
  {
    forall i | 0 <= i < |KEYS| ensures IsWord(KEYS[i]) {
    }
    TokensOfSeedLines(KEYS, values);
  }

  /** The same through the two objects: what one writes, the other takes over and
      prints the same way. */
  method CopySeeds(m: Model, other: Model) returns (file: string, again: string)
    requires m.Valid() && other.Valid() && m.Arrays() !! other.Arrays()
    modifies other.Arrays()
    ensures other.Values() == old(m.Values()) && again == file
  {
    file := m.OutputSeeds();
    RoundTrip(m.Values());
    var ok;
    ok, again := other.InitSeeds(file);
  }

  // ---- texts in general ----

  /** A character between two letters separates them exactly when it is a space, a tab, a colon, a
      line feed, a slash or a zero character. */
  lemma Separators(c: char)
    ensures Tokens(['a', c, 'b']) == ["a", "b"] <==> c in {' ', '\t', ':', '\n', '/', '\0'}
    ensures c !in {' ', '\t', ':', '\n', '/', '\0'} ==> Tokens(['a', c, 'b']) == [['a', c, 'b']]
  {
    var text := ['a', c, 'b'];
    if IsDelim(c) {
      assert text == "a" + ([c] + "b");
      TokensOfWord("a", c, "b");
      LastWord("b");
    } else {
      LastWord(text);
    }
  }

  lemma {:induction false} WordToEnd(w: string)
    requires forall i :: 0 <= i < |w| ==> !IsDelim(w[i])
    ensures TokenOf(w) == w && EndsInToken(w)
  {
    if w != "" {
      WordToEnd(w[1..]);
      S.Uncons(w);
    }
  }

  lemma LastWord(w: string)
    requires IsWord(w)
    ensures Tokens(w) == [w]
  {
    WordToEnd(w);
  }

  /** A delimiter in front of a text makes no difference to its tokens. */
  lemma DelimiterSkipped(d: char, rest: string)
    requires IsDelim(d)
    ensures Tokens([d] + rest) == Tokens(rest)
  {
    S.Cons(d, rest);
    NextSkips(d, rest);
  }

  lemma NextSkips(d: char, rest: string)
    requires IsDelim(d)
    ensures NextToken([d] + rest) == NextToken(rest)
  {
    S.Cons(d, rest);
    assert SkipDelims([d] + rest) == SkipDelims(rest);
  }

  lemma {:induction false} LineSkipped(text: string, rest: string)
    requires '\n' !in text
    ensures AfterLine(text + ("\n" + rest)) == rest && HasLineFeed(text + ("\n" + rest))
  {
    if text == "" {
      S.Empty("\n" + rest);
      S.Cons('\n', rest);
    } else {
      S.HeadTail(text, "\n" + rest);
      LineSkipped(text[1..], rest);
    }
  }

  /** From a number sign at the start of a token to the end of its line is a comment, which makes
      no difference to the tokens. */
  lemma CommentSkipped(text: string, rest: string)
    requires '\n' !in text
    ensures Tokens("#" + (text + ("\n" + rest))) == Tokens(rest)
  {
    S.Cons('#', text + ("\n" + rest));
    LineSkipped(text, rest);
    NextAfterComment("#" + (text + ("\n" + rest)));
  }

  lemma NextAfterComment(s: string)
    requires s != "" && IsComment(s[0]) && HasLineFeed(s)
    ensures NextToken(s) == NextToken(AfterLine(s[1..]))
  {}

  /** A comment that is never ended, and a number sign that is not at the start of a token. */
  lemma NumberSigns(text: string)
    requires '\n' !in text
    ensures Tokens("#" + text) == [] && Tokens("a#b") == ["a#b"]
  {
    S.Cons('#', text);
    S.InConcat('\n', "#", text);
    LastWord("a#b");
  }

  lemma FirstDigits(n: nat, rest: string)
    requires rest != "" ==> !IsDigit(rest[0])
    ensures var s := Digits(n) + rest; IsDigit(s[0]) && Value(s[..DigitRun(s)]) == n
  {
    assert IsDigit(Digits(n)[0]);
    DigitRunOf(Digits(n), rest);
    ValueOfDigits(n);
    assert (Digits(n) + rest)[..|Digits(n)|] == Digits(n);
  }

  /** The conversion takes a sign and digits in front and ignores what follows. */
  lemma Conversions(n: nat, rest: string)
    requires rest != "" ==> !IsDigit(rest[0])
    ensures var s := Digits(n) + rest; Atoi(s) == n && Atoi("+" + s) == n && Atoi("-" + s) == 0 - n
  {
    var s := Digits(n) + rest;
    FirstDigits(n, rest);
    S.Cons('+', s);
    S.Cons('-', s);
  }

  /** White space in front is skipped, anything else gives 0, and a number is stored in sixteen bits. */
  lemma OtherConversions(n: nat, c: char, rest: string)
    ensures c in {' ', '\t', '\n', '\r', '\U{0b}', '\U{0c}'} ==> Atoi([c] + rest) == Atoi(rest)
    ensures !IsDigit(c) && c !in {'+', '-', ' ', '\t', '\n', '\r', '\U{0b}', '\U{0c}'} ==> Atoi([c] + rest) == 0
    ensures Number(Digits(n)) as int == n % 65536
  {
    S.Cons(c, rest);
    AtoiOfDigits(n);
  }

  lemma SeedLineExample()
    ensures SeedLine("EDGE_CONN", 1, 2, 3) == "EDGE_CONN 1 2 3\n"
  {
    assert Digits(1) == "1" && Digits(2) == "2" && Digits(3) == "3";
  }

  /** The uses in the order in which they are printed. */
  lemma SeedFileExample(zeros: seq<seq<UShort>>)
    requires zeros == [[0, 0, 0], [0, 0, 0], [0, 0, 0], [0, 0, 0], [0, 0, 0], [0, 0, 0]]
    ensures SeedFile(zeros) == "PLACES 0 0 0\n" + ("CONNECT 0 0 0\n" + ("EDGE_CONN 0 0 0\n" + ("GROUPING 0 0 0\n"
              + ("ASSIGNMENT 0 0 0\n" + ("BANDWIDTH 0 0 0\n" + "")))))
  {
    assert Digits(0) == "0";
    assert SeedLine("PLACES", 0, 0, 0) == "PLACES 0 0 0\n" && SeedLine("CONNECT", 0, 0, 0) == "CONNECT 0 0 0\n";
    assert SeedLine("EDGE_CONN", 0, 0, 0) == "EDGE_CONN 0 0 0\n" && SeedLine("GROUPING", 0, 0, 0) == "GROUPING 0 0 0\n";
    assert SeedLine("ASSIGNMENT", 0, 0, 0) == "ASSIGNMENT 0 0 0\n";
    assert SeedLine("BANDWIDTH", 0, 0, 0) == "BANDWIDTH 0 0 0\n";
  }
}
