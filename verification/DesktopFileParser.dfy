/** The .service file parser as it runs: a position that moves through the text, and arrays that grow as they fill. */
module DesktopFileParser {
  import opened BusTypes
  import opened DesktopFile

  // ---------------------------------------------------------------------------------------------
  // Reading one line

  function PrependAll(done: string, r: Option<string>): Option<string> {
    match r case None => None case Some(rest) => Some(done + rest)
  }

  lemma PrependOneMore(done: string, c: char, r: Option<string>)
    ensures PrependAll([], r) == r
    ensures PrependAll(done, Prepend(c, r)) == PrependAll(done + [c], r)
  {
    if r.Some? {
      assert done + ([c] + r.value) == done + [c] + r.value;
      assert [] + r.value == r.value;
    }
  }

  /** `unescape_string`: the buffer is one longer than the text, and is never written past its end. */
  method UnescapeString(data: string, start: nat, end: nat) returns (r: Option<string>)
    requires start <= end <= |data|
    ensures r == Unescape(data[start..end])
  {
    var retval := new char[end - start + 1];
    var pos, q := start, 0;
    assert retval[..q] == [];
    PrependOneMore([], ' ', Unescape(data[start..end]));
    while pos < end
      invariant start <= pos <= end && q <= pos - start
      invariant Unescape(data[start..end]) == PrependAll(retval[..q], Unescape(data[pos..end]))
    {
      ghost var left := data[pos..end];
      ghost var done := retval[..q];
      if data[pos] == NUL {
        return None;
      }
      if data[pos] == '\\' {
        pos := pos + 1;
        if pos >= end {
          return None;
        }
        match data[pos] {
          case 's' => retval[q] := ' ';
          case 't' => retval[q] := '\t';
          case 'n' => retval[q] := '\n';
          case 'r' => retval[q] := '\r';
          case '\\' => retval[q] := '\\';
          case _ => return None;
        }
        pos := pos + 1;
        assert left[2..] == data[pos..end] && left[1] == data[pos - 1];
      } else {
        retval[q] := data[pos];
        pos := pos + 1;
        assert left[1..] == data[pos..end];
      }
      q := q + 1;
      assert retval[..q] == done + [retval[q - 1]];
      PrependOneMore(done, retval[q - 1], Unescape(data[pos..end]));
    }
    ghost var done := retval[..q];
    retval[q] := NUL;
    assert retval[..q] == done && done + [] == done;
    assert data[pos..end] == [];
    r := Some(retval[..q]);
  }

  /** `_dbus_string_find_eol` */
  method FindEol(data: string, start: nat) returns (end: nat, length: nat)
    requires start <= |data|
    ensures end == start + LineEnd(data[start..]) && length == EolLength(data[start..], LineEnd(data[start..]))
  {
    var i := start;
    while i < |data|
      invariant start <= i <= |data|
      invariant LineEnd(data[start..]) == i - start + LineEnd(data[i..])
    {
      if data[i] == '\r' {
        return i, if i + 1 < |data| && data[i + 1] == '\n' then 2 else 1;
      }
      if data[i] == '\n' {
        return i, 1;
      }
      assert data[i..][1..] == data[i + 1..];
      i := i + 1;
    }
    end, length := |data|, 0;
  }

  /** `is_blank_line`; the NUL that ends a C string stops it at the end of the text. */
  method IsBlankLine(data: string, pos: nat) returns (blank: bool)
    requires pos <= |data|
    ensures blank == IsBlank(data[pos..])
  {
    var p := pos;
    while p < |data| && data[p] != NUL && data[p] != '\n'
      invariant pos <= p <= |data|
      invariant IsBlank(data[pos..]) == IsBlank(data[p..])
    {
      if !IsSpace(data[p]) {
        return false;
      }
      assert data[p..][1..] == data[p + 1..];
      p := p + 1;
    }
    blank := true;
  }

  lemma SliceOfSlice(s: string, from: nat, to: nat, i: nat, j: nat)
    requires from <= to <= |s| && i <= j <= to - from
    ensures s[from..to][i..j] == s[from + i..from + j]
  {
    forall k | 0 <= k < j - i ensures s[from..to][i..j][k] == s[from + i..from + j][k] {
      assert s[from..to][i + k] == s[from + i + k];
    }
  }

  /** `parse_section_start`, as far as it reads. */
  method ReadHeader(data: string, pos: nat, end: nat, n: nat) returns (saying: Saying)
    requires pos < end <= |data|
    ensures saying == ParseHeader(data[pos..end], n)
  {
    if end - pos <= 2 || data[end - 1] != ']' {
      return Wrong(InvalidSyntax(n));
    }
    SliceOfSlice(data, pos, end, 1, end - pos - 1);
    var name := UnescapeString(data, pos + 1, end - 1);
    saying := if name.None? then Wrong(InvalidEscapes(n)) else Header(name.value);
  }

  /** The loop over the key of `parse_key_value`. */
  method KeyEnd(data: string, pos: nat, end: nat) returns (p: nat)
    requires pos <= end <= |data|
    ensures var n := KeyLength(data[pos..end]);
            p == pos + n && data[pos..end][..n] == data[pos..p] && data[pos..end][n..] == data[p..end]
  {
    p := pos;
    while p < end && IsKeyChar(data[p])
      invariant pos <= p <= end
      invariant KeyLength(data[pos..end]) == p - pos + KeyLength(data[p..end])
    {
      SliceOfSlice(data, p, end, 1, end - p);
      p := p + 1;
    }
    SliceOfSlice(data, pos, end, 0, p - pos);
    SliceOfSlice(data, pos, end, p - pos, end - pos);
  }

  /** The loops over spaces of `parse_key_value`. */
  method SkipSpaces(data: string, start: nat, end: nat) returns (p: nat)
    requires start <= end <= |data|
    ensures start <= p <= end && data[start..end][Spaces(data[start..end])..] == data[p..end]
  {
    p := start;
    while p < end && data[p] == ' '
      invariant start <= p <= end
      invariant Spaces(data[start..end]) == p - start + Spaces(data[p..end])
    {
      SliceOfSlice(data, p, end, 1, end - p);
      p := p + 1;
    }
    SliceOfSlice(data, start, end, p - start, end - start);
  }

  /** From the equals sign of `parse_key_value` on. */
  method ReadValue(data: string, key: string, p: nat, end: nat, n: nat) returns (saying: Saying)
    requires p <= end <= |data|
    ensures saying == ParseValue(key, data[p..end], n)
  {
    if p < end && data[p] != '=' {
      return Wrong(InvalidChars(n));
    }
    if p == end {
      return Wrong(InvalidSyntax(n));
    }
    SliceOfSlice(data, p, end, 1, end - p);
    var valueStart := SkipSpaces(data, p + 1, end);
    var value := UnescapeString(data, valueStart, end);
    saying := if value.None? then Wrong(InvalidEscapes(n)) else Pair(key, value.value);
  }

  /** `parse_key_value`, as far as it reads. */
  method ReadPair(data: string, pos: nat, end: nat, n: nat) returns (saying: Saying)
    requires pos <= end <= |data|
    ensures saying == ParsePair(data[pos..end], n)
  {
    var keyEnd := KeyEnd(data, pos, end);
    if keyEnd == pos {
      return Wrong(InvalidSyntax(n));
    }
    if keyEnd < end && data[keyEnd] == '[' {
      return Nothing;
    }
    var p := SkipSpaces(data, keyEnd, end);
    saying := ReadValue(data, data[pos..keyEnd], p, end, n);
  }

  // ---------------------------------------------------------------------------------------------
  // The parser

  /** A line is read as specified, or an error ends it all. */
  ghost predicate LineTaken(s: string, before: File, n: nat, error: Option<Error>, rest: string, after: File) {
    match error
    case None => Parse(s, before, n) == Parse(rest, after, n + 1)
    case Some(e) => Parse(s, before, n) == Err(e)
  }

  lemma ParseStep(s: string, before: File, n: nat, error: Option<Error>, rest: string, after: File)
    requires s != [] && Take(ParseLine(s, n), before, n) == if error.None? then Ok(after) else Err(error.value)
    requires error.None? ==> rest == NextLines(s)
    ensures LineTaken(s, before, n, error, rest, after)
  {
  }

  /** How arrays grow: from nothing to one, then by doubling. */
  function GrownSize(room: nat): nat {
    if room == 0 then 1 else 2 * room
  }

  /** `BusDesktopFileSection` */
  class SectionObject {
    const name: string
    var lines: array<Line>
    var n: nat

    ghost predicate Valid()
      reads this
    {
      n <= lines.Length
    }

    ghost function Value(): Section
      requires Valid()
      reads this, lines
    {
      Section(name, lines[..n])
    }

    /** `new_section`, which starts with room for one line */
    constructor (name: string)
      ensures this.name == name && fresh(lines) && lines.Length == 1
      ensures Valid() && Value() == Section(name, [])
    {
      this.name, lines, n := name, new Line[0], 0;
      new;
      Grow();
    }

    /** `grow_lines_in_section` */
    method Grow()
      requires Valid()
      modifies this`lines
      ensures Valid() && Value() == old(Value()) && fresh(lines) && lines.Length == GrownSize(old(lines.Length))
    {
      var bigger := new Line[GrownSize(lines.Length)];
      forall i | 0 <= i < n {
        bigger[i] := lines[i];
      }
      lines := bigger;
    }

    /** `new_line`, and what its caller puts in it: only a full array grows. */
    method Push(line: Line)
      requires Valid()
      modifies this, lines
      ensures Valid() && Value() == Section(name, old(Value()).lines + [line])
      ensures if old(n < lines.Length) then lines == old(lines)
              else fresh(lines) && lines.Length == GrownSize(old(lines.Length))
    {
      if n == lines.Length {
        Grow();
      }
      lines[n] := line;
      n := n + 1;
    }
  }

  class Parser {
    const data: string
    var sections: array<SectionObject?>
    var nSections: nat
    var pos: nat
    var lineNum: nat
    var currentSection: int
    ghost var objects: seq<SectionObject>
    ghost var Repr: set<object>

    ghost predicate ObjectValid(s: SectionObject)
      reads this, Repr
    {
      s in Repr && s.lines in Repr && s.Valid()
    }

    /** Nothing is used beyond what is allocated, no two sections share lines, and the open section is the last one. */
    ghost predicate Valid()
      reads this, Repr
    {
      && this in Repr && sections in Repr && nSections <= sections.Length
      && pos <= |data| && nSections == |objects| && currentSection == nSections - 1
      && (forall i :: 0 <= i < |objects| ==> sections[i] == objects[i] && ObjectValid(objects[i]))
      && forall i, j :: 0 <= i < j < |objects| ==> objects[i] != objects[j] && objects[i].lines != objects[j].lines
    }

    /** `BusDesktopFile` so far. */
    ghost function Sections(): (file: File)
      requires Valid()
      reads this, Repr
      ensures |file| == |objects| && forall i :: 0 <= i < |file| ==> file[i] == objects[i].Value()
    {
      seq(|objects|, i requires 0 <= i < |objects| && ObjectValid(objects[i]) reads this, Repr => objects[i].Value())
    }

    constructor (data: string)
      ensures Valid() && fresh(Repr) && this.data == data && pos == 0 && lineNum == 1 && Sections() == []
    {
      this.data, pos, lineNum, currentSection, objects := data, 0, 1, -1, [];
      sections, nSections := new SectionObject?[0], 0;
      new;
      Repr := {this, sections};
    }

    /** `grow_sections` */
    method GrowSections()
      requires Valid()
      modifies this`sections, this`Repr
      ensures Valid() && Repr == old(Repr) + {sections} && Sections() == old(Sections())
      ensures fresh(sections) && sections.Length == GrownSize(old(sections.Length))
    {
      var bigger := new SectionObject?[GrownSize(sections.Length)];
      forall i | 0 <= i < nSections {
        bigger[i] := sections[i];
      }
      sections := bigger;
      Repr := Repr + {bigger};
    }

    /** Put a new section where there is room. */
    method AppendSection(section: SectionObject)
      requires Valid() && nSections < sections.Length
      requires section.Valid() && section !in Repr && section.lines !in Repr
      modifies this, sections
      ensures Valid() && Repr == old(Repr) + {section, section.lines} && pos == old(pos) && lineNum == old(lineNum)
      ensures Sections() == old(Sections()) + [section.Value()]
    {
      sections[nSections] := section;
      nSections, currentSection := nSections + 1, nSections;
      objects, Repr := objects + [section], Repr + {section, section.lines};
    }

    /** `open_section` */
    method OpenSection(name: string)
      requires Valid()
      modifies Repr
      ensures Valid() && fresh(Repr - old(Repr)) && pos == old(pos) && lineNum == old(lineNum)
      ensures Sections() == old(Sections()) + [Section(name, [])]
    {
      if nSections == sections.Length {
        GrowSections();
      }
      var section := new SectionObject(name);
      AppendSection(section);
    }

    /** `new_line`, for the open section */
    method NewLine(key: string, value: string)
      requires Valid() && currentSection >= 0
      modifies Repr
      ensures Valid() && fresh(Repr - old(Repr)) && pos == old(pos) && lineNum == old(lineNum)
      ensures Sections() == AddLine(old(Sections()), Line(key, value))
    {
      var section := sections[currentSection];
      assert section == objects[currentSection] && ObjectValid(section);
      section.Push(Line(key, value));
      Repr := Repr + {section.lines};
    }

    /** The end of each of the line parsers. */
    method NextLine(end: nat, length: nat)
      requires Valid() && pos < |data|
      requires end == pos + LineEnd(data[pos..]) && length == EolLength(data[pos..], LineEnd(data[pos..]))
      modifies this`pos, this`lineNum
      ensures Valid() && Sections() == old(Sections())
      ensures data[pos..] == NextLines(data[old(pos)..]) && pos > old(pos) && lineNum == old(lineNum) + 1
    {
      NextLinesShorter(data[pos..]);
      assert NextLines(data[pos..]) == data[end + length..];
      pos := if end == |data| then |data| else end + length;
      lineNum := lineNum + 1;
    }

    /** Keep what a line says; a key before any section would index the sections at -1. */
    method KeepSaying(saying: Saying) returns (error: Option<Error>)
      requires Valid()
      modifies Repr
      ensures Valid() && fresh(Repr - old(Repr)) && pos == old(pos) && lineNum == old(lineNum)
      ensures Take(saying, old(Sections()), lineNum) == if error.None? then Ok(Sections()) else Err(error.value)
    {
      error := None;
      match saying
      case Wrong(e) => error := Some(e);
      case Pair(key, value) =>
        if currentSection < 0 {
          error := Some(NoSection(lineNum));
        } else {
          NewLine(key, value);
        }
      case Header(name) => OpenSection(name);
      case Nothing =>
    }

    /** Keep what a line says, and go on to the next. */
    method Keep(saying: Saying, end: nat, length: nat) returns (error: Option<Error>)
      requires Valid() && pos < |data| && saying == ParseLine(data[pos..], lineNum)
      requires end == pos + LineEnd(data[pos..]) && length == EolLength(data[pos..], LineEnd(data[pos..]))
      modifies Repr
      ensures Valid() && fresh(Repr - old(Repr))
      ensures LineTaken(data[old(pos)..], old(Sections()), old(lineNum), error, data[pos..], Sections())
      ensures error.None? ==> pos > old(pos) && lineNum == old(lineNum) + 1
    {
      ghost var (s, before, n) := (data[pos..], Sections(), lineNum);
      error := KeepSaying(saying);
      if error.None? {
        NextLine(end, length);
      }
      ParseStep(s, before, n, error, data[pos..], Sections());
    }

    /** `parse_section_start` */
    method ParseSectionStart() returns (error: Option<Error>)
      requires Valid() && pos < |data| && data[pos] == '['
      modifies Repr
      ensures Valid() && fresh(Repr - old(Repr))
      ensures LineTaken(data[old(pos)..], old(Sections()), old(lineNum), error, data[pos..], Sections())
      ensures error.None? ==> pos > old(pos) && lineNum == old(lineNum) + 1
    {
      var end, length := FindEol(data, pos);
      assert FirstLine(data[pos..]) == data[pos..end];
      var saying := ReadHeader(data, pos, end, lineNum);
      error := Keep(saying, end, length);
    }

    /** `parse_comment_or_blank` */
    method ParseCommentOrBlank() returns (error: Option<Error>)
      requires Valid() && pos < |data| && data[pos] != '[' && (IsBlank(data[pos..]) || data[pos] == '#')
      modifies Repr
      ensures Valid() && fresh(Repr - old(Repr))
      ensures LineTaken(data[old(pos)..], old(Sections()), old(lineNum), error, data[pos..], Sections())
      ensures error.None? ==> pos > old(pos) && lineNum == old(lineNum) + 1
    {
      var end, length := FindEol(data, pos);
      error := Keep(Nothing, end, length);
    }

    /** `parse_key_value` */
    method ParseKeyValue() returns (error: Option<Error>)
      requires Valid() && pos < |data| && data[pos] !in {'[', '#'} && !IsBlank(data[pos..])
      modifies Repr
      ensures Valid() && fresh(Repr - old(Repr))
      ensures LineTaken(data[old(pos)..], old(Sections()), old(lineNum), error, data[pos..], Sections())
      ensures error.None? ==> pos > old(pos) && lineNum == old(lineNum) + 1
    {
      var end, length := FindEol(data, pos);
      assert FirstLine(data[pos..]) == data[pos..end];
      var saying := ReadPair(data, pos, end, lineNum);
      error := Keep(saying, end, length);
    }

    /** The loop of `bus_desktop_file_load`; the position moves forward on every turn. */
    method ParseAll() returns (error: Option<Error>)
      requires Valid() && pos == 0 && lineNum == 1 && Sections() == []
      modifies Repr
      ensures Valid() && fresh(Repr - old(Repr))
      ensures Parse(data, [], 1) == if error.None? then Ok(Sections()) else Err(error.value)
    {
      assert data[0..] == data;
      while pos < |data|
        invariant Valid() && fresh(Repr - old(Repr))
        invariant Parse(data, [], 1) == Parse(data[pos..], Sections(), lineNum)
        decreases |data| - pos
      {
        if data[pos] == '[' {
          error := ParseSectionStart();
        } else {
          var blank := IsBlankLine(data, pos);
          if blank || data[pos] == '#' {
            error := ParseCommentOrBlank();
          } else {
            error := ParseKeyValue();
          }
        }
        if error.Some? {
          return;
        }
      }
      error := None;
    }
  }

  /** `bus_desktop_file_load`, of a file that can be read. */
  method LoadDesktopFile(data: string, size: nat, utf8: bool) returns (error: Option<Error>, parser: Parser?)
    ensures match error
            case None =>
              parser != null && parser.Valid() && fresh(parser.Repr)
              && Load(data, size, utf8) == Ok(parser.Sections())
            case Some(e) => parser == null && Load(data, size, utf8) == Err(e)
  {
    if size > MAX_SIZE {
      return Some(TooLarge), null;
    }
    if !utf8 {
      return Some(NotUtf8), null;
    }
    var started := new Parser(data);
    error := started.ParseAll();
    parser := if error.None? then started else null;
  }

  // ---------------------------------------------------------------------------------------------
  // Lookups

  /** `lookup_section` */
  method LookupSection(file: File, name: string) returns (i: nat)
    ensures i == FindSection(file, name)
  {
    i := 0;
    while i < |file|
      invariant i <= |file| && FindSection(file, name) == i + FindSection(file[i..], name)
    {
      if file[i].name == name {
        return;
      }
      assert file[i..][1..] == file[i + 1..];
      i := i + 1;
    }
  }

  /** `lookup_line` */
  method LookupLine(lines: seq<Line>, key: string) returns (j: nat)
    ensures j == FindLine(lines, key)
  {
    j := 0;
    while j < |lines|
      invariant j <= |lines| && FindLine(lines, key) == j + FindLine(lines[j..], key)
    {
      if lines[j].key == key {
        return;
      }
      assert lines[j..][1..] == lines[j + 1..];
      j := j + 1;
    }
  }

  /** `bus_desktop_file_get_raw` */
  method GetRawValue(file: File, name: string, key: string) returns (value: Option<string>)
    ensures value == GetRaw(file, name, key)
  {
    var i := LookupSection(file, name);
    if i == |file| {
      return None;
    }
    var j := LookupLine(file[i].lines, key);
    value := if j == |file[i].lines| then None else Some(file[i].lines[j].value);
  }
}
