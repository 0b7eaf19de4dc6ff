/** The .service file parser, as functions on the text that is left to parse; a char is one byte. */
module DesktopFile {
  import opened BusTypes

  datatype Line = Line(key: string, value: string)
  datatype Section = Section(name: string, lines: seq<Line>)
  type File = seq<Section>

  /**
   The errors of the parser, with the number of the line; NoSection is no error of the source, which would use the
   section at index -1 there.
   */
  datatype Error = InvalidSyntax(line: nat) | InvalidEscapes(line: nat) | InvalidChars(line: nat) | NoSection(line: nat)
                 | TooLarge | NotUtf8

  datatype Result<+T> = Ok(value: T) | Err(error: Error)

  const NUL := '\0'
  const FORM_FEED := '\U{0C}'

  // ---------------------------------------------------------------------------------------------
  // Escapes

  function UnescapedChar(code: char): Option<char> {
    match code
    case 's' => Some(' ')
    case 't' => Some('\t')
    case 'n' => Some('\n')
    case 'r' => Some('\r')
    case '\\' => Some('\\')
    case _ => None
  }

  /** `unescape_string` */
  function Unescape(s: string): (r: Option<string>)
    decreases |s|
  {
    if s == [] then Some([])
    else if s[0] == NUL then None
    else if s[0] != '\\' then Prepend(s[0], Unescape(s[1..]))
    else if |s| == 1 || UnescapedChar(s[1]).None? then None
    else Prepend(UnescapedChar(s[1]).value, Unescape(s[2..]))
  }

  function Prepend(c: char, r: Option<string>): Option<string> {
    match r case None => None case Some(rest) => Some([c] + rest)
  }

  // ---------------------------------------------------------------------------------------------
  // Lines

  predicate IsEol(c: char) {
    c == '\r' || c == '\n'
  }

  /** `_dbus_string_find_eol`: where the first line ends, and how long its end is. */
  function LineEnd(s: string): (n: nat)
    ensures n <= |s|
  {
    if s == [] || IsEol(s[0]) then 0 else 1 + LineEnd(s[1..])
  }

  function EolLength(s: string, end: nat): (n: nat)
    requires end <= |s|
    ensures end + n <= |s|
  {
    if end == |s| then 0 else if s[end] == '\r' && end + 1 < |s| && s[end + 1] == '\n' then 2 else 1
  }

  function FirstLine(s: string): string {
    s[..LineEnd(s)]
  }

  function NextLines(s: string): string {
    s[LineEnd(s) + EolLength(s, LineEnd(s))..]
  }

  predicate IsSpace(c: char) {
    c == ' ' || c == '\t' || c == '\r' || c == FORM_FEED
  }

  /** `is_blank_line`: it looks as far as a newline or a NUL, past a lone carriage return. */
  predicate IsBlank(s: string) {
    s == [] || s[0] == NUL || s[0] == '\n' || (IsSpace(s[0]) && IsBlank(s[1..]))
  }

  predicate IsKeyChar(c: char) {
    c == '-' || '0' <= c <= '9' || 'A' <= c <= 'Z' || 'a' <= c <= 'z'
  }

  function KeyLength(line: string): (n: nat)
    ensures n <= |line|
  {
    if line == [] || !IsKeyChar(line[0]) then 0 else 1 + KeyLength(line[1..])
  }

  function Spaces(line: string): (n: nat)
    ensures n <= |line|
  {
    if line == [] || line[0] != ' ' then 0 else 1 + Spaces(line[1..])
  }

  /** What one line says. */
  datatype Saying = Nothing | Header(name: string) | Pair(key: string, value: string) | Wrong(error: Error)

  /** `parse_section_start`, on the line without its end; any name is accepted that unescapes. */
  function ParseHeader(line: string, n: nat): Saying
    requires line != []
  {
    if |line| <= 2 || line[|line| - 1] != ']' then Wrong(InvalidSyntax(n))
    else
      match Unescape(line[1..|line| - 1])
      case None => Wrong(InvalidEscapes(n))
      case Some(name) => Header(name)
  }

  /** `parse_key_value`, on the line without its end; a key with a locale is passed over. */
  function ParsePair(line: string, n: nat): Saying {
    var key := line[..KeyLength(line)];
    var afterKey := line[KeyLength(line)..];
    if key == [] then Wrong(InvalidSyntax(n))
    else if afterKey != [] && afterKey[0] == '[' then Nothing
    else ParseValue(key, afterKey[Spaces(afterKey)..], n)
  }

  /** From the equals sign on. */
  function ParseValue(key: string, rest: string, n: nat): Saying {
    if rest != [] && rest[0] != '=' then Wrong(InvalidChars(n))
    else if rest == [] then Wrong(InvalidSyntax(n))
    else
      var value := rest[1..];
      match Unescape(value[Spaces(value)..])
      case None => Wrong(InvalidEscapes(n))
      case Some(text) => Pair(key, text)
  }

  function ParseLine(s: string, n: nat): Saying
    requires s != []
  {
    if s[0] == '[' then ParseHeader(FirstLine(s), n)
    else if IsBlank(s) || s[0] == '#' then Nothing
    else ParsePair(FirstLine(s), n)
  }

  function AddLine(file: File, line: Line): File
    requires file != []
  {
    var last := file[|file| - 1];
    file[|file| - 1 := last.(lines := last.lines + [line])]
  }

  lemma NextLinesShorter(s: string)
    requires s != []
    ensures |NextLines(s)| < |s|
  {
  }

  /** The file after one more line. */
  function Take(saying: Saying, file: File, n: nat): Result<File> {
    match saying
    case Nothing => Ok(file)
    case Header(name) => Ok(file + [Section(name, [])])
    case Pair(key, value) => if file == [] then Err(NoSection(n)) else Ok(AddLine(file, Line(key, value)))
    case Wrong(error) => Err(error)
  }

  /** The loop of `bus_desktop_file_load`, from the n-th line on. */
  function Parse(s: string, file: File, n: nat): Result<File>
    decreases |s|
  {
    if s == [] then Ok(file)
    else
      NextLinesShorter(s);
      match Take(ParseLine(s, n), file, n)
      case Ok(file') => Parse(NextLines(s), file', n + 1)
      case Err(error) => Err(error)
  }

  const MAX_SIZE := 128 * 1024

  /** `bus_desktop_file_load`, of a file that can be read; size is what stat says, a little earlier. */
  function Load(data: string, size: nat, utf8: bool): Result<File> {
    if size > MAX_SIZE then Err(TooLarge) else if !utf8 then Err(NotUtf8) else Parse(data, [], 1)
  }

  // ---------------------------------------------------------------------------------------------
  // Lookups

  function FindSection(file: File, name: string): (i: nat)
    ensures i <= |file|
  {
    if file == [] || file[0].name == name then 0 else 1 + FindSection(file[1..], name)
  }

  function FindLine(lines: seq<Line>, key: string): (i: nat)
    ensures i <= |lines|
  {
    if lines == [] || lines[0].key == key then 0 else 1 + FindLine(lines[1..], key)
  }

  /** `bus_desktop_file_get_raw`: only the first section of the name is searched. */
  function GetRaw(file: File, name: string, key: string): Option<string> {
    var i := FindSection(file, name);
    if i == |file| then None
    else
      var j := FindLine(file[i].lines, key);
      if j == |file[i].lines| then None else Some(file[i].lines[j].value)
  }

  // ---------------------------------------------------------------------------------------------
  // Writing

  function EscapedChar(c: char): string {
    match c
    case ' ' => "\\s"
    case '\t' => "\\t"
    case '\n' => "\\n"
    case '\r' => "\\r"
    case '\\' => "\\\\"
    case _ => [c]
  }

  function Escape(s: string): string {
    if s == [] then [] else EscapedChar(s[0]) + Escape(s[1..])
  }

  datatype Eol = Lf | CrLf | Cr

  function EolText(e: Eol): string {
    match e case Lf => "\n" case CrLf => "\r\n" case Cr => "\r"
  }

  /** A line as a person might write it. */
  datatype Item =
    | HeaderItem(name: string)
    | PairItem(key: string, before: nat, after: nat, value: string)
    | LocalizedItem(key: string, rest: string)
    | CommentItem(text: string)
    | BlankItem(spaces: string)

  datatype Written = Written(item: Item, eol: Eol)

  function Blanks(n: nat): string {
    if n == 0 then [] else [' '] + Blanks(n - 1)
  }

  function ItemText(item: Item): string {
    match item
    case HeaderItem(name) => ['['] + Escape(name) + [']']
    case PairItem(key, before, after, value) => key + Blanks(before) + ['='] + Blanks(after) + Escape(value)
    case LocalizedItem(key, rest) => key + ['['] + rest
    case CommentItem(text) => ['#'] + text
    case BlankItem(spaces) => spaces
  }

  function Render(items: seq<Written>): string {
    if items == [] then [] else ItemText(items[0].item) + EolText(items[0].eol) + Render(items[1..])
  }

  predicate NoNul(s: string) {
    NUL !in s
  }

  predicate OneLine(s: string) {
    '\r' !in s && '\n' !in s
  }

  predicate IsKey(s: string) {
    s != [] && forall c :: c in s ==> IsKeyChar(c)
  }

  predicate ItemRight(item: Item) {
    match item
    case HeaderItem(name) => name != [] && NoNul(name)
    case PairItem(key, _, _, value) => IsKey(key) && NoNul(value)
    case LocalizedItem(key, rest) => IsKey(key) && OneLine(rest)
    case CommentItem(text) => OneLine(text)
    case BlankItem(spaces) => forall c :: c in spaces ==> c == ' ' || c == '\t' || c == FORM_FEED
  }

  /** A lone carriage return ends a blank line only if what is below is blank as well. */
  predicate EolsRight(items: seq<Written>) {
    forall i :: 0 <= i < |items| && items[i].item.BlankItem? && items[i].eol == Cr ==> IsBlank(Render(items[i + 1..]))
  }

  /** A header comes first among the lines that matter. */
  predicate Sectioned(items: seq<Written>, inSection: bool) {
    items == [] ||
    match items[0].item
    case HeaderItem(_) => Sectioned(items[1..], true)
    case PairItem(_, _, _, _) => inSection && Sectioned(items[1..], inSection)
    case _ => Sectioned(items[1..], inSection)
  }

  /** The file that lines stand for, after those read before. */
  function Meaning(items: seq<Written>, file: File): File
    requires Sectioned(items, file != [])
    decreases |items|
  {
    if items == [] then file
    else
      match items[0].item
      case HeaderItem(name) => Meaning(items[1..], file + [Section(name, [])])
      case PairItem(key, _, _, value) => Meaning(items[1..], AddLine(file, Line(key, value)))
      case _ => Meaning(items[1..], file)
  }

  /** The plainest lines for a section, and for a file. */
  function LineItems(lines: seq<Line>): seq<Written> {
    if lines == [] then [] else [Written(PairItem(lines[0].key, 0, 0, lines[0].value), Lf)] + LineItems(lines[1..])
  }

  function FileItems(file: File): seq<Written> {
    if file == [] then []
    else [Written(HeaderItem(file[0].name), Lf)] + LineItems(file[0].lines) + FileItems(file[1..])
  }

  function Write(file: File): string {
    Render(FileItems(file))
  }

  predicate SectionWritable(s: Section) {
    s.name != [] && NoNul(s.name) && forall i :: 0 <= i < |s.lines| ==> IsKey(s.lines[i].key) && NoNul(s.lines[i].value)
  }

  predicate Writable(file: File) {
    forall i :: 0 <= i < |file| ==> SectionWritable(file[i])
  }
}
