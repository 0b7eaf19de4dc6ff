/** What each line of a .service file says, and exactly which texts are refused, with which error and at which line. */
module DesktopFileLines {
  import opened BusTypes
  import opened DesktopFile
  import opened DesktopFileProofs
  import L = Lists

  // ---------------------------------------------------------------------------------------------
  // Escapes

  /** A character as it may be written: as itself, or escaped. */
  predicate Piece(p: string, c: char) {
    || (p == [c] && c != '\0' && c != '\\')
    || (p == "\\s" && c == ' ')
    || (p == "\\t" && c == '\t')
    || (p == "\\n" && c == '\n')
    || (p == "\\r" && c == '\r')
    || (p == "\\\\" && c == '\\')
  }

  function Joined(pieces: seq<string>): string {
    if pieces == [] then [] else pieces[0] + Joined(pieces[1..])
  }

  predicate Pieces(pieces: seq<string>, text: string) {
    |pieces| == |text| && forall i :: 0 <= i < |text| ==> Piece(pieces[i], text[i])
  }

  /** A text is what was written, piece by piece. */
  ghost predicate Spells(raw: string, text: string) {
    exists pieces: seq<string> :: Pieces(pieces, text) && Joined(pieces) == raw
  }

  lemma PieceUnescapes(p: string, c: char, rest: string)
    requires Piece(p, c)
    ensures Unescape(p + rest) == Prepend(c, Unescape(rest))
  {
    var s := p + rest;
    if |p| == 1 {
      assert s[1..] == rest && s[0] == c;
    } else {
      assert s[2..] == rest && s[0] == p[0] && s[1] == p[1];
    }
  }

  lemma {:induction false} PiecesUnescape(pieces: seq<string>, text: string)
    requires Pieces(pieces, text)
    ensures Unescape(Joined(pieces)) == Some(text)
    decreases |text|
  {
    if text != [] {
      assert Piece(pieces[0], text[0]);
      assert Pieces(pieces[1..], text[1..]);
      PiecesUnescape(pieces[1..], text[1..]);
      PieceUnescapes(pieces[0], text[0], Joined(pieces[1..]));
      assert [text[0]] + text[1..] == text;
    }
  }

  lemma SpellsOn(p: string, c: char, raw: string, text: string)
    requires Piece(p, c) && Spells(raw, text)
    ensures Spells(p + raw, [c] + text)
  {
    var pieces: seq<string> :| Pieces(pieces, text) && Joined(pieces) == raw;
    assert ([p] + pieces)[1..] == pieces;
    assert Pieces([p] + pieces, [c] + text);
  }

  lemma EscapePiece(code: char)
    requires UnescapedChar(code).Some?
    ensures Piece(['\\', code], UnescapedChar(code).value)
  {
  }

  lemma {:induction false} UnescapedSpells(raw: string)
    ensures Unescape(raw).Some? ==> Spells(raw, Unescape(raw).value)
    decreases |raw|
  {
    if raw == [] {
      assert Pieces([], []) && Joined([]) == raw;
    } else if raw[0] != NUL && raw[0] != '\\' {
      UnescapedSpells(raw[1..]);
      assert [raw[0]] + raw[1..] == raw;
      if Unescape(raw).Some? { SpellsOn([raw[0]], raw[0], raw[1..], Unescape(raw[1..]).value); }
    } else if raw[0] == '\\' && |raw| > 1 && UnescapedChar(raw[1]).Some? {
      UnescapedSpells(raw[2..]);
      assert ['\\', raw[1]] + raw[2..] == raw;
      EscapePiece(raw[1]);
      if Unescape(raw).Some? {
        SpellsOn(['\\', raw[1]], UnescapedChar(raw[1]).value, raw[2..], Unescape(raw[2..]).value);
      }
    }
  }

  /** Unescaping finds the one text that was written, if there is one. */
  lemma UnescapesIff(raw: string, text: string)
    ensures Unescape(raw) == Some(text) <==> Spells(raw, text)
  {
    UnescapedSpells(raw);
    if Spells(raw, text) {
      var pieces: seq<string> :| Pieces(pieces, text) && Joined(pieces) == raw;
      PiecesUnescape(pieces, text);
    }
  }

  ghost predicate Unreadable(raw: string) {
    forall text :: !Spells(raw, text)
  }

  lemma UnreadableIff(raw: string)
    ensures Unescape(raw).None? <==> Unreadable(raw)
  {
    if Unescape(raw).Some? {
      UnescapesIff(raw, Unescape(raw).value);
    } else {
      forall text ensures !Spells(raw, text) { UnescapesIff(raw, text); }
    }
  }

  // ---------------------------------------------------------------------------------------------
  // The parts of a line

  /** White space, in which a carriage return is no end, up to a newline, a NUL or the end of the text. */
  predicate SpaceUpTo(s: string, k: nat) {
    && k <= |s|
    && (forall j :: 0 <= j < k ==> s[j] in " \t\r\U{0C}")
    && (k == |s| || s[k] == '\n' || s[k] == '\0')
  }

  ghost predicate OnlySpace(s: string) {
    exists k: nat :: SpaceUpTo(s, k)
  }

  lemma SpaceIs(c: char)
    ensures IsSpace(c) <==> c in " \t\r\U{0C}"
  {
  }

  lemma {:induction false} BlankIff(s: string)
    ensures IsBlank(s) <==> OnlySpace(s)
  {
    if s == [] || s[0] == NUL || s[0] == '\n' {
      assert SpaceUpTo(s, 0);
    } else {
      BlankIff(s[1..]);
      SpaceIs(s[0]);
      if IsBlank(s) {
        var k: nat :| SpaceUpTo(s[1..], k);
        forall j | 0 <= j < k + 1 ensures s[j] in " \t\r\U{0C}" {
          if j > 0 { assert s[1..][j - 1] in " \t\r\U{0C}"; }
        }
        assert SpaceUpTo(s, k + 1);
      } else if OnlySpace(s) {
        var k: nat :| SpaceUpTo(s, k);
        assert SpaceUpTo(s[1..], k - 1);
      }
    }
  }

  predicate Begins(s: string, c: char) {
    s != [] && s[0] == c
  }

  /** A line of a key, spaces and more. */
  predicate KeyThen(line: string, key: string, b: nat, more: string) {
    && IsKey(key)
    && line == key + Blanks(b) + more
    && !Begins(more, ' ')
    && (b == 0 && more != [] ==> !IsKeyChar(more[0]))
  }

  lemma {:induction false} SpacesAre(s: string)
    ensures s == Blanks(Spaces(s)) + s[Spaces(s)..] && !Begins(s[Spaces(s)..], ' ')
  {
    if Begins(s, ' ') {
      SpacesAre(s[1..]);
      var k := Spaces(s[1..]);
      assert s[1..][k..] == s[k + 1..];
      assert s == [' '] + s[1..];
      L.Regroup([' '], Blanks(k), s[k + 1..]);
    } else {
      assert Blanks(0) + s == s;
    }
  }

  lemma {:induction false} KeyLengthStops(line: string)
    ensures KeyLength(line) < |line| ==> !IsKeyChar(line[KeyLength(line)])
  {
    if line != [] && IsKeyChar(line[0]) { KeyLengthStops(line[1..]); }
  }

  lemma KeyPart(line: string)
    requires line != [] && IsKeyChar(line[0])
    ensures IsKey(line[..KeyLength(line)])
  {
    KeyLengthChars(line);
    assert KeyLength(line) > 0;
  }

  lemma AfterPart(line: string, k: nat)
    requires k <= |line| && (k < |line| ==> !IsKeyChar(line[k]))
    ensures line == line[..k] + line[k..] && (line[k..] != [] ==> !IsKeyChar(line[k..][0]))
  {
  }

  lemma AfterKey(line: string, key: string, after: string)
    requires IsKey(key) && line == key + after && (after != [] ==> !IsKeyChar(after[0]))
    ensures KeyThen(line, key, Spaces(after), after[Spaces(after)..])
  {
    var (b, more) := (Spaces(after), after[Spaces(after)..]);
    SpacesAre(after);
    L.Regroup(key, Blanks(b), more);
    if b == 0 { assert more == after; }
  }

  /** Every line that begins with a character of keys has a key, spaces and more. */
  lemma HasKey(line: string)
    requires line != [] && IsKeyChar(line[0])
    ensures var (key, after) := (line[..KeyLength(line)], line[KeyLength(line)..]);
            KeyThen(line, key, Spaces(after), after[Spaces(after)..])
  {
    KeyPart(line);
    KeyLengthStops(line);
    AfterPart(line, KeyLength(line));
    AfterKey(line, line[..KeyLength(line)], line[KeyLength(line)..]);
  }

  /** And the parser takes them apart like that. */
  lemma KeyThenParses(line: string, key: string, b: nat, more: string, n: nat)
    requires KeyThen(line, key, b, more)
    ensures ParsePair(line, n) == if b == 0 && Begins(more, '[') then Nothing else ParseValue(key, more, n)
  {
    var after := Blanks(b) + more;
    assert line == key + after;
    SpacesAt(b, more);
    if b > 0 { assert after[0] == ' '; }
    KeyLengthAt(key, after);
    assert line[|key|..] == after && line[..|key|] == key;
  }

  lemma ValueThenParses(key: string, a: nat, raw: string, n: nat)
    requires !Begins(raw, ' ')
    ensures ParseValue(key, ['='] + Blanks(a) + raw, n)
         == match Unescape(raw) case None => Wrong(InvalidEscapes(n)) case Some(text) => Pair(key, text)
  {
    var rest := ['='] + Blanks(a) + raw;
    assert rest[1..] == Blanks(a) + raw;
    SpacesAt(a, raw);
  }

  lemma HasValue(more: string)
    requires Begins(more, '=')
    ensures var a := Spaces(more[1..]); var raw := more[1..][a..];
            more == ['='] + Blanks(a) + raw && !Begins(raw, ' ')
  {
    SpacesAre(more[1..]);
    assert more == ['='] + more[1..];
  }

  // ---------------------------------------------------------------------------------------------
  // What a line says

  ghost predicate IsHeaderOf(line: string, raw: string) {
    raw != [] && line == ['['] + raw + [']']
  }

  ghost predicate IsPairOf(line: string, key: string, b: nat, a: nat, raw: string) {
    KeyThen(line, key, b, ['='] + Blanks(a) + raw) && !Begins(raw, ' ')
  }

  ghost predicate SaysHeader(line: string, name: string) {
    exists raw :: IsHeaderOf(line, raw) && Spells(raw, name)
  }

  ghost predicate SaysPair(line: string, key: string, value: string) {
    exists b: nat, a: nat, raw :: IsPairOf(line, key, b, a, raw) && Spells(raw, value)
  }

  /** A key with a locale. */
  ghost predicate IsLocalized(line: string) {
    exists key, more :: Begins(more, '[') && KeyThen(line, key, 0, more)
  }

  /** A header that is not closed or has no name. */
  predicate BrokenHeader(line: string) {
    Begins(line, '[') && (|line| <= 2 || line[|line| - 1] != ']')
  }

  /** A line that begins with none of the characters of keys. */
  predicate NoKey(line: string) {
    !Begins(line, '[') && !Begins(line, '#') && (line == [] || !IsKeyChar(line[0]))
  }

  /** A line that ends after its key. */
  ghost predicate NoEquals(line: string) {
    exists key, b: nat :: KeyThen(line, key, b, [])
  }

  /** Something else than an equals sign after the key. */
  ghost predicate OtherThanEquals(line: string) {
    exists key, b: nat, more ::
      KeyThen(line, key, b, more) && more != [] && more[0] != '=' && (b == 0 ==> more[0] != '[')
  }

  ghost predicate BadEscapes(line: string) {
    || (exists raw :: IsHeaderOf(line, raw) && Unreadable(raw))
    || (exists key, b: nat, a: nat, raw :: IsPairOf(line, key, b, a, raw) && Unreadable(raw))
  }

  /** What a line says, the n-th of a text; blank says that it begins with white space only. */
  ghost predicate Says(line: string, blank: bool, n: nat, saying: Saying) {
    match saying
    case Header(name) => SaysHeader(line, name)
    case Pair(key, value) => SaysPair(line, key, value)
    case Nothing => blank || Begins(line, '#') || IsLocalized(line)
    case Wrong(InvalidSyntax(m)) => m == n && (BrokenHeader(line) || (NoKey(line) && !blank) || NoEquals(line))
    case Wrong(InvalidChars(m)) => m == n && OtherThanEquals(line)
    case Wrong(InvalidEscapes(m)) => m == n && BadEscapes(line)
    case Wrong(_) => false
  }

  lemma HeaderSays(line: string, n: nat)
    requires Begins(line, '[')
    ensures Says(line, false, n, ParseHeader(line, n))
  {
    if !BrokenHeader(line) {
      var raw := line[1..|line| - 1];
      assert IsHeaderOf(line, raw);
      UnreadableIff(raw);
      if Unescape(raw).Some? { UnescapesIff(raw, Unescape(raw).value); }
    }
  }

  lemma KeySays(line: string, n: nat)
    requires line != [] && IsKeyChar(line[0])
    ensures Says(line, false, n, ParsePair(line, n))
  {
    HasKey(line);
    var key := line[..KeyLength(line)];
    var after := line[KeyLength(line)..];
    var (b, more) := (Spaces(after), after[Spaces(after)..]);
    KeyThenParses(line, key, b, more, n);
    if b == 0 && Begins(more, '[') {
      assert IsLocalized(line);
    } else if Begins(more, '=') {
      HasValue(more);
      ValueSays(line, key, b, Spaces(more[1..]), more[1..][Spaces(more[1..])..], n);
    }
  }

  lemma ValueSays(line: string, key: string, b: nat, a: nat, raw: string, n: nat)
    requires IsPairOf(line, key, b, a, raw)
    ensures Says(line, false, n, ParseValue(key, ['='] + Blanks(a) + raw, n))
  {
    ValueThenParses(key, a, raw, n);
    UnreadableIff(raw);
    if Unescape(raw).Some? { UnescapesIff(raw, Unescape(raw).value); }
  }

  lemma FirstOfLine(s: string)
    requires s != []
    ensures FirstLine(s) != [] <==> !IsEol(s[0])
    ensures FirstLine(s) != [] ==> FirstLine(s)[0] == s[0]
  {
  }

  lemma LineSays(s: string, n: nat)
    requires s != []
    ensures Says(FirstLine(s), IsBlank(s), n, ParseLine(s, n))
  {
    var line := FirstLine(s);
    FirstOfLine(s);
    if s[0] == '[' {
      HeaderSays(line, n);
    } else if !IsBlank(s) && s[0] != '#' && line != [] && IsKeyChar(line[0]) {
      KeySays(line, n);
    } else if !IsBlank(s) && s[0] != '#' {
      assert KeyLength(line) == 0 && line[..0] == [];
    }
  }

  lemma HeaderParsed(line: string, raw: string, n: nat)
    requires IsHeaderOf(line, raw)
    ensures Begins(line, '[')
    ensures ParseHeader(line, n) == match Unescape(raw) case None => Wrong(InvalidEscapes(n)) case Some(t) => Header(t)
  {
    assert line[1..|line| - 1] == raw;
  }

  lemma PairParsed(line: string, key: string, b: nat, a: nat, raw: string, n: nat)
    requires IsPairOf(line, key, b, a, raw)
    ensures line != [] && IsKeyChar(line[0])
    ensures ParsePair(line, n) == match Unescape(raw) case None => Wrong(InvalidEscapes(n)) case Some(t) => Pair(key, t)
  {
    KeyThenParses(line, key, b, ['='] + Blanks(a) + raw, n);
    ValueThenParses(key, a, raw, n);
    KeyBegins(line, key, b, ['='] + Blanks(a) + raw);
  }

  lemma KeyBegins(line: string, key: string, b: nat, more: string)
    requires KeyThen(line, key, b, more)
    ensures line != [] && IsKeyChar(line[0])
  {
    assert key[0] in key && line[0] == key[0];
  }

  lemma KeyRefused(s: string, n: nat)
    requires s != []
    requires NoEquals(FirstLine(s)) || OtherThanEquals(FirstLine(s)) || IsLocalized(FirstLine(s))
    ensures NoEquals(FirstLine(s)) ==> ParseLine(s, n) == Wrong(InvalidSyntax(n))
    ensures OtherThanEquals(FirstLine(s)) ==> ParseLine(s, n) == Wrong(InvalidChars(n))
    ensures IsLocalized(FirstLine(s)) ==> ParseLine(s, n) == Nothing
  {
    var line := FirstLine(s);
    if NoEquals(line) {
      var key, b: nat :| KeyThen(line, key, b, []);
      KeyBegins(line, key, b, []);
      KeyThenParses(line, key, b, [], n);
    }
    if OtherThanEquals(line) {
      var key, b: nat, more :|
        KeyThen(line, key, b, more) && more != [] && more[0] != '=' && (b == 0 ==> more[0] != '[');
      KeyBegins(line, key, b, more);
      KeyThenParses(line, key, b, more, n);
    }
    if IsLocalized(line) {
      var key, more :| Begins(more, '[') && KeyThen(line, key, 0, more);
      KeyBegins(line, key, 0, more);
      KeyThenParses(line, key, 0, more, n);
    }
    FirstOfLine(s);
    KeyLineParses(s, n);
  }

  lemma EscapesRefused(s: string, n: nat)
    requires s != [] && BadEscapes(FirstLine(s))
    ensures ParseLine(s, n) == Wrong(InvalidEscapes(n))
  {
    var line := FirstLine(s);
    FirstOfLine(s);
    if raw :| IsHeaderOf(line, raw) && Unreadable(raw) {
      UnreadableIff(raw);
      HeaderParsed(line, raw, n);
    } else {
      var key, b: nat, a: nat, raw :| IsPairOf(line, key, b, a, raw) && Unreadable(raw);
      UnreadableIff(raw);
      PairParsed(line, key, b, a, raw, n);
      KeyLineParses(s, n);
    }
  }

  lemma SaidIsParsed(s: string, n: nat, saying: Saying)
    requires s != [] && Says(FirstLine(s), IsBlank(s), n, saying)
    ensures ParseLine(s, n) == saying
  {
    var line := FirstLine(s);
    FirstOfLine(s);
    match saying
    case Header(name) =>
      var raw :| IsHeaderOf(line, raw) && Spells(raw, name);
      UnescapesIff(raw, name);
      HeaderParsed(line, raw, n);
    case Pair(key, value) =>
      var b: nat, a: nat, raw :| IsPairOf(line, key, b, a, raw) && Spells(raw, value);
      UnescapesIff(raw, value);
      PairParsed(line, key, b, a, raw, n);
      KeyLineParses(s, n);
    case Nothing =>
      if IsLocalized(line) { KeyRefused(s, n); }
    case Wrong(InvalidSyntax(_)) =>
      if NoEquals(line) { KeyRefused(s, n); } else { SyntaxRefused(s, n); }
    case Wrong(InvalidChars(_)) =>
      KeyRefused(s, n);
    case Wrong(InvalidEscapes(_)) =>
      EscapesRefused(s, n);
  }

  lemma SyntaxRefused(s: string, n: nat)
    requires s != [] && (BrokenHeader(FirstLine(s)) || (NoKey(FirstLine(s)) && !IsBlank(s)))
    ensures ParseLine(s, n) == Wrong(InvalidSyntax(n))
  {
    var line := FirstLine(s);
    FirstOfLine(s);
    if !BrokenHeader(line) { assert KeyLength(line) == 0 && line[..0] == []; }
  }

  // ---------------------------------------------------------------------------------------------
  // Texts, line by line

  datatype Row = Row(line: string, end: string)

  function Text(rows: seq<Row>): string {
    if rows == [] then [] else rows[0].line + rows[0].end + Text(rows[1..])
  }

  /** Lines as they end: only the last may have no end, and a carriage return takes the line feed after it. */
  predicate IsRow(row: Row, below: string) {
    && '\r' !in row.line && '\n' !in row.line
    && (row.end == "\n" || row.end == "\r\n" || (row.end == "\r" && !Begins(below, '\n'))
        || (row.end == "" && row.line != "" && below == ""))
  }

  predicate RowAt(rows: seq<Row>, i: nat) {
    i < |rows| && IsRow(rows[i], Text(rows[i + 1..]))
  }

  predicate Rows(rows: seq<Row>) {
    forall i :: 0 <= i < |rows| ==> RowAt(rows, i)
  }

  lemma RowSplits(row: Row, below: string)
    requires IsRow(row, below)
    ensures var s := row.line + row.end + below;
            s != [] && FirstLine(s) == row.line && NextLines(s) == below
  {
    if row.end == "" {
      assert row.line + row.end + below == row.line;
      NoEnd(row.line);
    } else {
      var e := if row.end == "\n" then Lf else if row.end == "\r" then Cr else CrLf;
      assert EolText(e) == row.end;
      SplitsHere(row.line, e, below);
    }
  }

  lemma {:induction false} NoEnd(line: string)
    requires OneLine(line)
    ensures LineEnd(line) == |line|
  {
    if line != [] {
      assert line[0] in line;
      NoEnd(line[1..]);
    }
  }

  lemma RowsFirst(row: Row, rest: seq<Row>)
    requires IsRow(row, Text(rest)) && Rows(rest)
    ensures Rows([row] + rest) && Text([row] + rest) == row.line + row.end + Text(rest)
  {
    var rows := [row] + rest;
    assert rows[1..] == rest;
    forall i | 0 <= i < |rows| ensures RowAt(rows, i) {
      if i > 0 { assert RowAt(rest, i - 1) && rows[i] == rest[i - 1] && rows[i + 1..] == rest[i..]; }
    }
  }

  lemma {:induction false} FirstIsOneLine(s: string)
    ensures '\r' !in FirstLine(s) && '\n' !in FirstLine(s)
    ensures LineEnd(s) < |s| ==> IsEol(s[LineEnd(s)])
  {
    if s != [] && !IsEol(s[0]) {
      FirstIsOneLine(s[1..]);
      assert FirstLine(s) == [s[0]] + FirstLine(s[1..]);
    }
  }

  lemma InThree(s: string, k: nat, l: nat)
    requires k + l <= |s|
    ensures s[..k] + s[k..k + l] + s[k + l..] == s
  {
  }

  function FirstRow(s: string): Row {
    Row(FirstLine(s), s[LineEnd(s)..LineEnd(s) + EolLength(s, LineEnd(s))])
  }

  lemma FirstIsRow(s: string)
    requires s != []
    ensures IsRow(FirstRow(s), NextLines(s))
  {
    FirstIsOneLine(s);
  }

  /** Every text has lines. */
  lemma {:induction false} HasRows(s: string) returns (rows: seq<Row>)
    ensures Rows(rows) && Text(rows) == s
    decreases |s|
  {
    if s == [] {
      rows := [];
    } else {
      NextLinesShorter(s);
      var rest := HasRows(NextLines(s));
      FirstIsRow(s);
      RowsFirst(FirstRow(s), rest);
      InThree(s, LineEnd(s), EolLength(s, LineEnd(s)));
      rows := [FirstRow(s)] + rest;
    }
  }

  /** What a line says is what is parsed, whatever is below it. */
  lemma LineSaysIff(row: Row, below: string, n: nat, saying: Saying)
    requires IsRow(row, below)
    ensures var s := row.line + row.end + below;
            s != [] && (ParseLine(s, n) == saying <==> Says(row.line, OnlySpace(s), n, saying))
  {
    var s := row.line + row.end + below;
    RowSplits(row, below);
    BlankIff(s);
    LineSays(s, n);
    if Says(row.line, OnlySpace(s), n, saying) { SaidIsParsed(s, n, saying); }
  }

  // ---------------------------------------------------------------------------------------------
  // Texts that are refused

  ghost predicate RowSays(rows: seq<Row>, k: nat, saying: Saying)
    requires k < |rows|
  {
    Says(rows[k].line, OnlySpace(Text(rows[k..])), k + 1, saying)
  }

  ghost predicate HeaderRow(rows: seq<Row>, k: nat)
    requires k < |rows|
  {
    exists name :: RowSays(rows, k, Header(name))
  }

  ghost predicate PairRow(rows: seq<Row>, k: nat)
    requires k < |rows|
  {
    exists key, value :: RowSays(rows, k, Pair(key, value))
  }

  ghost predicate HeaderBefore(rows: seq<Row>, k: nat)
    requires k <= |rows|
  {
    exists i: nat :: i < k && HeaderRow(rows, i)
  }

  /** A line is wrong, or it is a pair that no header comes before. */
  ghost predicate Refused(rows: seq<Row>, k: nat, error: Error)
    requires k < |rows|
  {
    RowSays(rows, k, Wrong(error)) || (error == NoSection(k + 1) && PairRow(rows, k) && !HeaderBefore(rows, k))
  }

  ghost predicate AllRight(rows: seq<Row>, k: nat)
    requires k <= |rows|
  {
    forall i: nat, error :: i < k ==> !Refused(rows, i, error)
  }

  ghost predicate FirstRefused(rows: seq<Row>, k: nat, error: Error) {
    k < |rows| && AllRight(rows, k) && Refused(rows, k, error)
  }

  ghost predicate RefusedFrom(rows: seq<Row>, start: nat, error: Error) {
    exists k: nat :: start <= k && FirstRefused(rows, k, error)
  }

  lemma RowIs(rows: seq<Row>, k: nat, saying: Saying)
    requires Rows(rows) && k < |rows|
    ensures var s := Text(rows[k..]);
            && s != [] && NextLines(s) == Text(rows[k + 1..])
            && (RowSays(rows, k, saying) <==> ParseLine(s, k + 1) == saying)
  {
    var s := Text(rows[k..]);
    assert rows[k..][1..] == rows[k + 1..];
    assert RowAt(rows, k);
    RowSplits(rows[k], Text(rows[k + 1..]));
    LineSaysIff(rows[k], Text(rows[k + 1..]), k + 1, saying);
  }

  lemma RefusedIff(rows: seq<Row>, k: nat, file: File, error: Error)
    requires Rows(rows) && k < |rows| && (file != [] <==> HeaderBefore(rows, k)) && Text(rows[k..]) != []
    ensures Refused(rows, k, error) <==> Take(ParseLine(Text(rows[k..]), k + 1), file, k + 1) == Err(error)
  {
    var saying := ParseLine(Text(rows[k..]), k + 1);
    RowIs(rows, k, saying);
    RowIs(rows, k, Wrong(error));
    if PairRow(rows, k) {
      var key, value :| RowSays(rows, k, Pair(key, value));
      RowIs(rows, k, Pair(key, value));
    }
  }

  lemma HeadersSoFar(rows: seq<Row>, k: nat, file: File, file': File)
    requires Rows(rows) && k < |rows| && (file != [] <==> HeaderBefore(rows, k)) && Text(rows[k..]) != []
    requires Take(ParseLine(Text(rows[k..]), k + 1), file, k + 1) == Ok(file')
    ensures file' != [] <==> HeaderBefore(rows, k + 1)
  {
    var saying := ParseLine(Text(rows[k..]), k + 1);
    RowIs(rows, k, saying);
    if HeaderRow(rows, k) {
      var name :| RowSays(rows, k, Header(name));
      RowIs(rows, k, Header(name));
    }
    assert saying.Header? ==> HeaderRow(rows, k);
  }

  lemma {:induction false} ParseFrom(rows: seq<Row>, k: nat, file: File, error: Error)
    requires Rows(rows) && k <= |rows| && AllRight(rows, k) && (file != [] <==> HeaderBefore(rows, k))
    ensures Parse(Text(rows[k..]), file, k + 1) == Err(error) <==> RefusedFrom(rows, k, error)
    decreases |rows| - k
  {
    if k < |rows| {
      var s := Text(rows[k..]);
      RowIs(rows, k, Nothing);
      var saying := ParseLine(s, k + 1);
      RefusedIff(rows, k, file, error);
      match Take(saying, file, k + 1)
      case Err(e) =>
        RefusedIff(rows, k, file, e);
        if e == error { assert FirstRefused(rows, k, error); }
      case Ok(file') =>
        HeadersSoFar(rows, k, file, file');
        forall e ensures !Refused(rows, k, e) { RefusedIff(rows, k, file, e); }
        ParseFrom(rows, k + 1, file', error);
    } else {
      assert Text(rows[k..]) == [];
    }
  }

  lemma NoneBefore(rows: seq<Row>)
    ensures AllRight(rows, 0) && !HeaderBefore(rows, 0)
  {
  }

  /** A text is refused if and only if one of its lines is, with the error of the first such line and its number. */
  lemma TextRefusedIff(rows: seq<Row>, error: Error)
    requires Rows(rows)
    ensures Parse(Text(rows), [], 1) == Err(error) <==> RefusedFrom(rows, 0, error)
  {
    NoneBefore(rows);
    assert rows[0..] == rows;
    ParseFrom(rows, 0, [], error);
  }

  /** A file of more than 128 kilobytes is refused, then one that is not UTF-8, then one with a line that is refused. */
  lemma LoadRefusedIff(rows: seq<Row>, size: nat, utf8: bool, error: Error)
    requires Rows(rows)
    ensures Load(Text(rows), size, utf8) == Err(error)
            <==> if size > 131072 then error == TooLarge
                 else if !utf8 then error == NotUtf8
                 else RefusedFrom(rows, 0, error)
  {
    TextRefusedIff(rows, error);
  }
}
