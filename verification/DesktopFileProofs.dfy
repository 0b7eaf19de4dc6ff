/** Parsing gives back every file that can be written, however its lines are laid out. */
module DesktopFileProofs {
  import opened BusTypes
  import opened DesktopFile

  // ---------------------------------------------------------------------------------------------
  // Escapes

  /** Characters that an escaped string does not have. */
  predicate NeedsEscape(c: char) {
    c == ' ' || c == '\t' || c == '\n' || c == '\r'
  }

  predicate Plain(s: string) {
    forall c :: c in s ==> !NeedsEscape(c)
  }

  lemma {:induction false} EscapePlain(s: string)
    ensures Plain(Escape(s)) && (s != [] ==> Escape(s) != [])
  {
    if s != [] {
      EscapePlain(s[1..]);
      assert Plain(EscapedChar(s[0]));
    }
  }

  lemma UnescapeOne(c: char, rest: string)
    requires c != NUL
    ensures Unescape(EscapedChar(c) + rest) == Prepend(c, Unescape(rest))
  {
    var s := EscapedChar(c) + rest;
    if |EscapedChar(c)| == 1 {
      assert s[1..] == rest;
    } else {
      assert s[2..] == rest && s[1] == EscapedChar(c)[1];
    }
  }

  /** Unescaping undoes escaping, for every string without a NUL. */
  lemma {:induction false} UnescapeEscape(s: string)
    requires NoNul(s)
    ensures Unescape(Escape(s)) == Some(s)
  {
    if s != [] {
      assert s[0] in s;
      UnescapeEscape(s[1..]);
      UnescapeOne(s[0], Escape(s[1..]));
      assert [s[0]] + s[1..] == s;
    }
  }

  /** Unescaping never makes a string longer, nor empty, and lets no NUL through. */
  lemma {:induction false} UnescapeShrinks(s: string)
    ensures Unescape(s).Some? ==>
              |Unescape(s).value| <= |s| && NoNul(Unescape(s).value) && (s != [] ==> Unescape(s).value != [])
    decreases |s|
  {
    if s != [] {
      if s[0] != '\\' {
        UnescapeShrinks(s[1..]);
      } else if |s| > 1 {
        UnescapeShrinks(s[2..]);
      }
    }
  }

  // ---------------------------------------------------------------------------------------------
  // Lines

  /** What follows a line: an end of line, told from what comes next. */
  predicate Follows(e: Eol, rest: string) {
    e == Cr ==> rest == [] || rest[0] != '\n'
  }

  lemma {:induction false} LineEndAt(line: string, e: Eol, rest: string)
    requires OneLine(line) && Follows(e, rest)
    ensures var s := line + EolText(e) + rest;
            LineEnd(s) == |line| && EolLength(s, |line|) == |EolText(e)|
  {
    var s := line + EolText(e) + rest;
    if line == [] {
      assert s == EolText(e) + rest;
    } else {
      LineEndAt(line[1..], e, rest);
      assert s[1..] == line[1..] + EolText(e) + rest;
    }
  }

  lemma SplitsHere(line: string, e: Eol, rest: string)
    requires OneLine(line) && Follows(e, rest)
    ensures var s := line + EolText(e) + rest; FirstLine(s) == line && NextLines(s) == rest
  {
    LineEndAt(line, e, rest);
  }

  lemma {:induction false} KeyLengthAt(key: string, rest: string)
    requires (forall c :: c in key ==> IsKeyChar(c)) && (rest == [] || !IsKeyChar(rest[0]))
    ensures KeyLength(key + rest) == |key|
  {
    if key == [] {
      assert key + rest == rest;
    } else {
      assert (key + rest)[1..] == key[1..] + rest;
      KeyLengthAt(key[1..], rest);
    }
  }

  lemma {:induction false} SpacesAt(n: nat, rest: string)
    requires rest == [] || rest[0] != ' '
    ensures Spaces(Blanks(n) + rest) == n && (Blanks(n) + rest)[n..] == rest && |Blanks(n)| == n
  {
    if n == 0 {
      assert Blanks(n) + rest == rest;
    } else {
      assert (Blanks(n) + rest)[1..] == Blanks(n - 1) + rest;
      SpacesAt(n - 1, rest);
    }
  }

  lemma {:induction false} BlanksOneLine(n: nat)
    ensures OneLine(Blanks(n))
  {
    if n > 0 { BlanksOneLine(n - 1); }
  }

  lemma {:induction false} SpacesAreBlank(spaces: string, e: Eol, rest: string)
    requires ItemRight(BlankItem(spaces))
    ensures IsBlank(spaces + EolText(e) + rest) <==> e != Cr || IsBlank(rest)
  {
    var s := spaces + EolText(e) + rest;
    if spaces == [] {
      assert s == EolText(e) + rest;
      if e == CrLf { assert s[1] == '\n' && IsBlank(s[1..]); }
      if e == Cr { assert s[1..] == rest; }
    } else {
      assert s[1..] == spaces[1..] + EolText(e) + rest;
      assert forall c :: c in spaces[1..] ==> c in spaces;
      SpacesAreBlank(spaces[1..], e, rest);
      assert s[0] in spaces;
    }
  }

  // ---------------------------------------------------------------------------------------------
  // One line

  function SayingOf(item: Item): Saying {
    match item
    case HeaderItem(name) => Header(name)
    case PairItem(key, _, _, value) => Pair(key, value)
    case _ => Nothing
  }

  lemma HeaderParses(name: string, n: nat)
    requires name != [] && NoNul(name)
    ensures ParseHeader(ItemText(HeaderItem(name)), n) == Header(name)
  {
    EscapePlain(name);
    UnescapeEscape(name);
    var line := ItemText(HeaderItem(name));
    assert line[1..|line| - 1] == Escape(name);
  }

  lemma ValueParses(key: string, after: nat, value: string, n: nat)
    requires NoNul(value)
    ensures ParseValue(key, ['='] + Blanks(after) + Escape(value), n) == Pair(key, value)
  {
    EscapePlain(value);
    UnescapeEscape(value);
    var rest := ['='] + Blanks(after) + Escape(value);
    assert rest[1..] == Blanks(after) + Escape(value);
    SpacesAt(after, Escape(value));
  }

  lemma KeyParses(key: string, afterKey: string, n: nat)
    requires IsKey(key) && afterKey != [] && !IsKeyChar(afterKey[0]) && afterKey[0] != '['
    ensures ParsePair(key + afterKey, n) == ParseValue(key, afterKey[Spaces(afterKey)..], n)
  {
    KeyLengthAt(key, afterKey);
    var line := key + afterKey;
    assert line[|key|..] == afterKey && line[..|key|] == key;
  }

  lemma PairParses(key: string, before: nat, after: nat, value: string, n: nat)
    requires IsKey(key) && NoNul(value)
    ensures ParsePair(ItemText(PairItem(key, before, after, value)), n) == Pair(key, value)
  {
    var rest := ['='] + Blanks(after) + Escape(value);
    var afterKey := Blanks(before) + rest;
    assert ItemText(PairItem(key, before, after, value)) == key + afterKey;
    SpacesAt(before, rest);
    assert afterKey[0] == ' ' || afterKey[0] == '=';
    KeyParses(key, afterKey, n);
    ValueParses(key, after, value, n);
  }

  lemma LocalizedParses(key: string, more: string, n: nat)
    requires IsKey(key)
    ensures ParsePair(ItemText(LocalizedItem(key, more)), n) == Nothing
  {
    var line := ItemText(LocalizedItem(key, more));
    var afterKey := ['['] + more;
    assert line == key + afterKey;
    KeyLengthAt(key, afterKey);
    assert line[|key|..] == afterKey;
  }

  lemma ItemOneLine(item: Item)
    requires ItemRight(item)
    ensures OneLine(ItemText(item))
    ensures !item.BlankItem? ==> ItemText(item) != [] && ItemText(item)[0] != '\n'
  {
    match item
    case HeaderItem(name) => EscapePlain(name);
    case PairItem(key, before, after, value) =>
      EscapePlain(value);
      BlanksOneLine(before);
      BlanksOneLine(after);
    case LocalizedItem(_, _) =>
    case CommentItem(_) =>
    case BlankItem(_) =>
  }

  lemma KeyLineParses(s: string, n: nat)
    requires s != [] && IsKeyChar(s[0])
    ensures ParseLine(s, n) == ParsePair(FirstLine(s), n)
  {
  }

  /** What a line with a given text says, whatever comes below it. */
  lemma TextParses(item: Item, s: string, n: nat)
    requires ItemRight(item) && !item.BlankItem? && s != []
    requires FirstLine(s) == ItemText(item) && s[0] == ItemText(item)[0]
    ensures ParseLine(s, n) == SayingOf(item)
  {
    match item
    case HeaderItem(name) => HeaderParses(name, n);
    case PairItem(key, before, after, value) =>
      assert s[0] == key[0] && key[0] in key;
      KeyLineParses(s, n);
      PairParses(key, before, after, value, n);
    case LocalizedItem(key, more) =>
      assert s[0] == key[0] && key[0] in key;
      KeyLineParses(s, n);
      LocalizedParses(key, more, n);
    case CommentItem(_) =>
  }

  lemma ItemParses(item: Item, e: Eol, rest: string, n: nat)
    requires ItemRight(item) && Follows(e, rest) && (item.BlankItem? && e == Cr ==> IsBlank(rest))
    ensures var s := ItemText(item) + EolText(e) + rest;
            s != [] && ParseLine(s, n) == SayingOf(item) && NextLines(s) == rest
  {
    ItemOneLine(item);
    SplitsHere(ItemText(item), e, rest);
    var s := ItemText(item) + EolText(e) + rest;
    if item.BlankItem? {
      SpacesAreBlank(item.spaces, e, rest);
      if item.spaces != [] { assert s[0] in item.spaces; }
    } else {
      TextParses(item, s, n);
    }
  }

  // ---------------------------------------------------------------------------------------------
  // Whole files

  /** A blank line that a lone carriage return does not end is no line at all. */
  lemma BlankFails(spaces: string, rest: string, n: nat)
    requires ItemRight(BlankItem(spaces)) && Follows(Cr, rest) && !IsBlank(rest)
    ensures var s := spaces + EolText(Cr) + rest; s != [] && ParseLine(s, n) == Wrong(InvalidSyntax(n))
  {
    ItemOneLine(BlankItem(spaces));
    SplitsHere(spaces, Cr, rest);
    SpacesAreBlank(spaces, Cr, rest);
    var s := spaces + EolText(Cr) + rest;
    if spaces != [] { assert s[0] in spaces && spaces[0] in spaces; }
    assert KeyLength(spaces) == 0 && spaces[..0] == [];
  }

  /** A lone carriage return and the line feed of an empty line below it are one line end. */
  predicate Absorbs(items: seq<Written>) {
    |items| >= 2 && items[0].eol == Cr && items[1] == Written(BlankItem([]), Lf)
  }

  lemma AbsorbedRenders(items: seq<Written>)
    requires Absorbs(items)
    ensures Render(items) == ItemText(items[0].item) + EolText(CrLf) + Render(items[2..])
  {
    assert items[1..][1..] == items[2..];
    assert Render(items[1..]) == EolText(Lf) + Render(items[2..]);
    assert EolText(Cr) + EolText(Lf) == EolText(CrLf);
  }

  lemma BeginsWith(text: string, end: string, rest: string)
    requires end != []
    ensures text + end + rest != [] && (text + end + rest)[0] == if text != [] then text[0] else end[0]
  {
  }

  /** What a line begins with: its text, or its end if it has none. */
  lemma RenderBegins(items: seq<Written>)
    requires items != []
    ensures Render(items) != []
    ensures var text := ItemText(items[0].item);
            Render(items)[0] == if text != [] then text[0] else EolText(items[0].eol)[0]
  {
    BeginsWith(ItemText(items[0].item), EolText(items[0].eol), Render(items[1..]));
  }

  lemma TextBegins(item: Item)
    requires ItemRight(item)
    ensures ItemText(item) != [] ==> ItemText(item)[0] != '\n'
    ensures ItemText(item) == [] ==> item == BlankItem([])
  {
    ItemOneLine(item);
    if ItemText(item) != [] { assert ItemText(item)[0] in ItemText(item); }
  }

  lemma NextItemFollows(items: seq<Written>)
    requires items != [] && !Absorbs(items) && forall i :: 0 <= i < |items| ==> ItemRight(items[i].item)
    ensures Follows(items[0].eol, Render(items[1..]))
  {
    if |items| > 1 {
      assert items[1..][0] == items[1];
      RenderBegins(items[1..]);
      TextBegins(items[1].item);
    }
  }

  /** The first line's part in `EolsRight`, and the others'. */
  lemma EolsRightFirst(items: seq<Written>)
    requires items != []
    ensures EolsRight(items) <==>
              (items[0].item.BlankItem? && items[0].eol == Cr ==> IsBlank(Render(items[1..]))) && EolsRight(items[1..])
  {
    var rest := items[1..];
    if EolsRight(items) {
      forall i | 0 <= i < |rest| && rest[i].item.BlankItem? && rest[i].eol == Cr
        ensures IsBlank(Render(rest[i + 1..]))
      {
        assert rest[i] == items[i + 1] && rest[i + 1..] == items[i + 2..];
      }
    } else {
      var i :| 0 <= i < |items| && items[i].item.BlankItem? && items[i].eol == Cr && !IsBlank(Render(items[i + 1..]));
      if i > 0 { assert rest[i - 1] == items[i] && rest[i..] == items[i + 1..]; }
    }
  }

  ghost predicate WellWritten(items: seq<Written>, file: File) {
    (forall i :: 0 <= i < |items| ==> ItemRight(items[i].item)) && Sectioned(items, file != [])
  }

  /** Reading the first line, and what it absorbs, leaves the rest to be read, with the same meaning. */
  ghost predicate ReadsOn(items: seq<Written>, file: File, n: nat, rest: seq<Written>, file': File) {
    && WellWritten(items, file) && WellWritten(rest, file') && |rest| < |items|
    && Parse(Render(items), file, n) == Parse(Render(rest), file', n + 1)
    && Meaning(items, file) == Meaning(rest, file')
    && (EolsRight(items) <==> EolsRight(rest))
  }

  lemma FirstMeans(items: seq<Written>, file: File, n: nat)
    requires items != [] && WellWritten(items, file)
    ensures var taken := Take(SayingOf(items[0].item), file, n);
            && taken.Ok? && WellWritten(items[1..], taken.value)
            && Meaning(items, file) == Meaning(items[1..], taken.value)
  {
  }

  lemma ParseOneLine(text: string, e: Eol, below: string, saying: Saying, file: File, n: nat)
    requires var s := text + EolText(e) + below; s != [] && ParseLine(s, n) == saying && NextLines(s) == below
    ensures Parse(text + EolText(e) + below, file, n)
         == match Take(saying, file, n)
            case Ok(file') => Parse(below, file', n + 1)
            case Err(error) => Err(error)
  {
  }

  lemma ReadsAbsorbing(items: seq<Written>, file: File, n: nat)
    requires Absorbs(items) && WellWritten(items, file)
    ensures ReadsOn(items, file, n, items[2..], Take(SayingOf(items[0].item), file, n).value)
  {
    var item := items[0].item;
    assert items[1..][1..] == items[2..];
    FirstMeans(items, file, n);
    FirstMeans(items[1..], Take(SayingOf(item), file, n).value, n + 1);
    EolsRightFirst(items);
    EolsRightFirst(items[1..]);
    assert Render(items[1..])[0] == '\n';
    AbsorbedRenders(items);
    ItemParses(item, CrLf, Render(items[2..]), n);
    ParseOneLine(ItemText(item), CrLf, Render(items[2..]), SayingOf(item), file, n);
  }

  lemma ReadsNext(items: seq<Written>, file: File, n: nat)
    requires items != [] && !Absorbs(items) && WellWritten(items, file)
    requires items[0].item.BlankItem? && items[0].eol == Cr ==> IsBlank(Render(items[1..]))
    ensures ReadsOn(items, file, n, items[1..], Take(SayingOf(items[0].item), file, n).value)
  {
    var (item, e) := (items[0].item, items[0].eol);
    NextItemFollows(items);
    FirstMeans(items, file, n);
    EolsRightFirst(items);
    ItemParses(item, e, Render(items[1..]), n);
    ParseOneLine(ItemText(item), e, Render(items[1..]), SayingOf(item), file, n);
  }

  lemma ReadsNoFurther(items: seq<Written>, file: File, n: nat)
    requires items != [] && !Absorbs(items) && WellWritten(items, file)
    requires items[0].item.BlankItem? && items[0].eol == Cr && !IsBlank(Render(items[1..]))
    ensures Parse(Render(items), file, n) == Err(InvalidSyntax(n)) && !EolsRight(items)
  {
    NextItemFollows(items);
    EolsRightFirst(items);
    BlankFails(items[0].item.spaces, Render(items[1..]), n);
  }

  /**
   Every file is read as meant, however it is laid out, comments, blank lines, keys with a locale, spaces around the
   equals sign and any kind of line end making no difference, if and only if no blank line is ended by a lone carriage
   return with something other than a blank line below it.
   */
  lemma {:induction false} ParseRender(items: seq<Written>, file: File, n: nat)
    requires (forall i :: 0 <= i < |items| ==> ItemRight(items[i].item)) && Sectioned(items, file != [])
    ensures Parse(Render(items), file, n) == Ok(Meaning(items, file)) <==> EolsRight(items)
    decreases |items|
  {
    if items != [] {
      var file' := Take(SayingOf(items[0].item), file, n).value;
      if Absorbs(items) {
        ReadsAbsorbing(items, file, n);
        ParseRender(items[2..], file', n + 1);
      } else if items[0].item.BlankItem? && items[0].eol == Cr && !IsBlank(Render(items[1..])) {
        ReadsNoFurther(items, file, n);
      } else {
        ReadsNext(items, file, n);
        ParseRender(items[1..], file', n + 1);
      }
    }
  }

  /** A blank line that a lone carriage return ends, above a header: the file is refused. */
  lemma BlankWithLoneReturn()
    ensures var items := [Written(BlankItem(" "), Cr), Written(HeaderItem("S"), Lf)];
            Render(items) == " \r[S]\n" && Parse(Render(items), [], 1) == Err(InvalidSyntax(1))
  {
    var items := [Written(BlankItem(" "), Cr), Written(HeaderItem("S"), Lf)];
    assert items[1..] == [Written(HeaderItem("S"), Lf)] && items[1..][1..] == [];
    assert Escape("S") == EscapedChar('S') + Escape("S"[1..]) == "S";
    assert Render(items[1..]) == "[S]" + "\n" + [] == "[S]\n";
    BlankFails(" ", "[S]\n", 1);
  }

  lemma {:induction false} MeaningOfLines(lines: seq<Line>, more: seq<Written>, file: File, s: Section)
    requires Sectioned(more, true)
    ensures var items := LineItems(lines) + more;
            Sectioned(items, true)
            && Meaning(items, file + [s]) == Meaning(more, file + [s.(lines := s.lines + lines)])
    decreases |lines|
  {
    var items := LineItems(lines) + more;
    if lines == [] {
      assert items == more && s.lines + lines == s.lines;
    } else {
      assert items[1..] == LineItems(lines[1..]) + more;
      var s' := s.(lines := s.lines + [lines[0]]);
      assert AddLine(file + [s], lines[0]) == file + [s'];
      MeaningOfLines(lines[1..], more, file, s');
      assert s'.lines + lines[1..] == s.lines + lines;
    }
  }

  lemma MeaningOfHeader(name: string, rest: seq<Written>, before: File)
    requires Sectioned(rest, true)
    ensures var items := [Written(HeaderItem(name), Lf)] + rest;
            Sectioned(items, before != []) && Meaning(items, before) == Meaning(rest, before + [Section(name, [])])
  {
    assert ([Written(HeaderItem(name), Lf)] + rest)[1..] == rest;
  }

  lemma MeaningOfSection(s: Section, more: seq<Written>, before: File)
    requires Sectioned(more, true)
    ensures var items := [Written(HeaderItem(s.name), Lf)] + LineItems(s.lines) + more;
            Sectioned(items, before != []) && Meaning(items, before) == Meaning(more, before + [s])
  {
    var header := [Written(HeaderItem(s.name), Lf)];
    var rest := LineItems(s.lines) + more;
    assert header + LineItems(s.lines) + more == header + rest;
    assert [] + s.lines == s.lines;
    MeaningOfLines(s.lines, more, before, Section(s.name, []));
    MeaningOfHeader(s.name, rest, before);
  }

  lemma {:induction false} MeaningOfFile(file: File, before: File)
    ensures Sectioned(FileItems(file), before != []) && Meaning(FileItems(file), before) == before + file
    decreases |file|
  {
    if file == [] {
      assert before + file == before;
    } else {
      MeaningOfFile(file[1..], before + [file[0]]);
      MeaningOfSection(file[0], FileItems(file[1..]), before);
      assert before + [file[0]] + file[1..] == before + file;
    }
  }

  lemma {:induction false} LineItemsRight(lines: seq<Line>)
    requires forall i :: 0 <= i < |lines| ==> IsKey(lines[i].key) && NoNul(lines[i].value)
    ensures forall i :: 0 <= i < |LineItems(lines)| ==>
              ItemRight(LineItems(lines)[i].item) && LineItems(lines)[i].eol == Lf
  {
    if lines != [] { LineItemsRight(lines[1..]); }
  }

  lemma {:induction false} FileItemsRight(file: File)
    requires Writable(file)
    ensures forall i :: 0 <= i < |FileItems(file)| ==>
              ItemRight(FileItems(file)[i].item) && FileItems(file)[i].eol == Lf
  {
    if file != [] {
      assert SectionWritable(file[0]);
      LineItemsRight(file[0].lines);
      FileItemsRight(file[1..]);
    }
  }

  /** Writing a file and parsing it gives the same sections, keys and values, in the same order. */
  lemma RoundTrip(file: File)
    requires Writable(file)
    ensures Parse(Write(file), [], 1) == Ok(file)
  {
    FileItemsRight(file);
    MeaningOfFile(file, []);
    assert EolsRight(FileItems(file));
    ParseRender(FileItems(file), [], 1);
    assert [] + file == file;
  }

  /** Loading a file as written gives it back if and only if it is not too large. */
  lemma LoadWritten(file: File)
    requires Writable(file)
    ensures Load(Write(file), |Write(file)|, true) == Ok(file) <==> |Write(file)| <= MAX_SIZE
  {
    RoundTrip(file);
  }

  // ---------------------------------------------------------------------------------------------
  // What parsing gives can be written

  lemma {:induction false} KeyLengthChars(line: string)
    ensures forall c :: c in line[..KeyLength(line)] ==> IsKeyChar(c)
  {
    if line != [] && IsKeyChar(line[0]) {
      KeyLengthChars(line[1..]);
      assert line[..KeyLength(line)] == [line[0]] + line[1..][..KeyLength(line[1..])];
    }
  }

  predicate SayingWritable(saying: Saying) {
    match saying
    case Header(name) => name != [] && NoNul(name)
    case Pair(key, value) => IsKey(key) && NoNul(value)
    case _ => true
  }

  lemma TakesWritable(saying: Saying, file: File, n: nat)
    requires SayingWritable(saying) && Writable(file)
    ensures Take(saying, file, n).Ok? ==> Writable(Take(saying, file, n).value)
  {
    if saying.Pair? && file != [] {
      assert SectionWritable(file[|file| - 1]);
      assert SectionWritable(AddLine(file, Line(saying.key, saying.value))[|file| - 1]);
    }
  }

  lemma SaysWritable(s: string, n: nat)
    requires s != []
    ensures SayingWritable(ParseLine(s, n))
  {
    var line := FirstLine(s);
    if s[0] == '[' {
      if |line| > 2 { UnescapeShrinks(line[1..|line| - 1]); }
    } else {
      KeyLengthChars(line);
      var afterKey := line[KeyLength(line)..];
      var rest := afterKey[Spaces(afterKey)..];
      if rest != [] { UnescapeShrinks(rest[1..][Spaces(rest[1..])..]); }
    }
  }

  lemma {:induction false} ParsedIsWritable(s: string, file: File, n: nat)
    requires Writable(file)
    ensures Parse(s, file, n).Ok? ==> Writable(Parse(s, file, n).value)
    decreases |s|
  {
    if s != [] {
      NextLinesShorter(s);
      SaysWritable(s, n);
      TakesWritable(ParseLine(s, n), file, n);
      match Take(ParseLine(s, n), file, n)
      case Ok(file') => ParsedIsWritable(NextLines(s), file', n + 1);
      case Err(_) =>
    }
  }

  /** A file is what some text parses to if and only if it can be written. */
  lemma ParsedIffWritable(file: File)
    ensures (exists s :: Parse(s, [], 1) == Ok(file)) <==> Writable(file)
  {
    if Writable(file) {
      RoundTrip(file);
    }
    forall s | Parse(s, [], 1) == Ok(file) ensures Writable(file) {
      ParsedIsWritable(s, [], 1);
    }
  }

  // ---------------------------------------------------------------------------------------------
  // Lookups

  lemma {:induction false} FindsSection(file: File, name: string)
    ensures var i := FindSection(file, name);
            (i < |file| ==> file[i].name == name) && forall k :: 0 <= k < i ==> file[k].name != name
  {
    if file != [] && file[0].name != name {
      FindsSection(file[1..], name);
      forall k | 0 < k < FindSection(file, name) ensures file[k].name != name {
        assert file[k] == file[1..][k - 1];
      }
    }
  }

  lemma {:induction false} FindsLine(lines: seq<Line>, key: string)
    ensures var i := FindLine(lines, key);
            (i < |lines| ==> lines[i].key == key) && forall k :: 0 <= k < i ==> lines[k].key != key
  {
    if lines != [] && lines[0].key != key {
      FindsLine(lines[1..], key);
      forall k | 0 < k < FindLine(lines, key) ensures lines[k].key != key {
        assert lines[k] == lines[1..][k - 1];
      }
    }
  }

  predicate FirstSection(file: File, name: string, i: nat) {
    i < |file| && file[i].name == name && forall k :: 0 <= k < i ==> file[k].name != name
  }

  predicate FirstLineOf(lines: seq<Line>, key: string, j: nat) {
    j < |lines| && lines[j].key == key && forall k :: 0 <= k < j ==> lines[k].key != key
  }

  /** The value found is that of the first such key in the first such section, later ones notwithstanding. */
  lemma GetRawFindsFirst(file: File, name: string, key: string, value: string)
    ensures GetRaw(file, name, key) == Some(value)
            <==> exists i: nat, j: nat :: FirstSection(file, name, i) && FirstLineOf(file[i].lines, key, j)
                                && file[i].lines[j].value == value
  {
    var i := FindSection(file, name);
    FindsSection(file, name);
    if i < |file| {
      var j := FindLine(file[i].lines, key);
      FindsLine(file[i].lines, key);
      assert FirstSection(file, name, i);
      if j < |file[i].lines| { assert FirstLineOf(file[i].lines, key, j); }
    }
  }
}
