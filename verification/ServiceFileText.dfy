/** What activation.c reads of a .service file. */
module ServiceFileText {
  import opened BusTypes
  import opened DesktopFile
  import opened DesktopFileLines
  import opened DesktopFileProofs
  import SF = ServiceFiles

  const SERVICE_SECTION := "D-BUS Service"

  /** The four lookups of `update_desktop_file_entry`: a name and a command are needed, a user and a unit are not. */
  function ContentOf(loaded: Result<File>): Option<SF.Content> {
    match loaded
    case Err(_) => None
    case Ok(file) =>
      match (GetRaw(file, SERVICE_SECTION, "Name"), GetRaw(file, SERVICE_SECTION, "Exec"))
      case (Some(name), Some(exec)) =>
        Some(SF.Content(name, exec, GetRaw(file, SERVICE_SECTION, "User"),
                        GetRaw(file, SERVICE_SECTION, "SystemdService")))
      case _ => None
  }

  function OptionalLine(key: string, value: Option<string>): seq<Line> {
    match value case None => [] case Some(v) => [Line(key, v)]
  }

  function ServiceLines(c: SF.Content): seq<Line> {
    [Line("Name", c.name), Line("Exec", c.exec)] + OptionalLine("User", c.user)
    + OptionalLine("SystemdService", c.systemdService)
  }

  /** A service file that says this. */
  function ServiceText(c: SF.Content): string {
    Write([Section(SERVICE_SECTION, ServiceLines(c))])
  }

  predicate ContentWritable(c: SF.Content) {
    NoNul(c.name) && NoNul(c.exec) && (c.user.Some? ==> NoNul(c.user.value))
    && (c.systemdService.Some? ==> NoNul(c.systemdService.value))
  }

  lemma KeysDiffer()
    ensures "Name" != "Exec" && "Name" != "User" && "Exec" != "User"
    ensures "Name" != "SystemdService" && "Exec" != "SystemdService" && "User" != "SystemdService"
  {
    assert "Name"[0] != "Exec"[0] && "Name"[0] != "User"[0] && "Exec"[0] != "User"[0];
    assert |"Name"| != |"SystemdService"| && |"Exec"| == |"Name"| == |"User"|;
  }

  /** The value of a key among lines, if it has one. */
  function ValueOf(lines: seq<Line>, key: string): Option<string> {
    var j := FindLine(lines, key);
    if j == |lines| then None else Some(lines[j].value)
  }

  lemma ValueAt(lines: seq<Line>, key: string, j: nat)
    requires j < |lines| && lines[j].key == key && forall k :: 0 <= k < j ==> lines[k].key != key
    ensures ValueOf(lines, key) == Some(lines[j].value)
  {
    FindsLine(lines, key);
  }

  lemma NoValue(lines: seq<Line>, key: string)
    requires forall k :: 0 <= k < |lines| ==> lines[k].key != key
    ensures ValueOf(lines, key) == None
  {
    FindsLine(lines, key);
  }

  lemma ServiceLinesFound(c: SF.Content)
    ensures var lines := ServiceLines(c);
            && ValueOf(lines, "Name") == Some(c.name) && ValueOf(lines, "Exec") == Some(c.exec)
            && ValueOf(lines, "User") == c.user && ValueOf(lines, "SystemdService") == c.systemdService
  {
    var lines := ServiceLines(c);
    KeysDiffer();
    ValueAt(lines, "Name", 0);
    ValueAt(lines, "Exec", 1);
    if c.user.Some? { ValueAt(lines, "User", 2); } else { NoValue(lines, "User"); }
    if c.systemdService.Some? { ValueAt(lines, "SystemdService", |lines| - 1); }
    else { NoValue(lines, "SystemdService"); }
  }

  lemma ServiceLinesWritable(c: SF.Content)
    requires ContentWritable(c)
    ensures Writable([Section(SERVICE_SECTION, ServiceLines(c))])
  {
    assert IsKey("Name") && IsKey("Exec") && IsKey("User") && IsKey("SystemdService");
    var s := Section(SERVICE_SECTION, ServiceLines(c));
    forall i | 0 <= i < |s.lines| ensures IsKey(s.lines[i].key) && NoNul(s.lines[i].value) {}
    assert SectionWritable(s);
  }

  lemma OneSection(name: string, lines: seq<Line>, key: string)
    ensures GetRaw([Section(name, lines)], name, key) == ValueOf(lines, key)
  {
  }

  /** A service file read back says what was written into it, if it is not too large. */
  lemma ServiceRoundTrip(c: SF.Content)
    requires ContentWritable(c) && |ServiceText(c)| <= MAX_SIZE
    ensures ContentOf(Load(ServiceText(c), |ServiceText(c)|, true)) == Some(c)
  {
    var lines := ServiceLines(c);
    var file := [Section(SERVICE_SECTION, lines)];
    ServiceLinesWritable(c);
    LoadWritten(file);
    ServiceLinesFound(c);
    OneSection(SERVICE_SECTION, lines, "Name");
    OneSection(SERVICE_SECTION, lines, "Exec");
    OneSection(SERVICE_SECTION, lines, "User");
    OneSection(SERVICE_SECTION, lines, "SystemdService");
    assert Load(ServiceText(c), |ServiceText(c)|, true) == Ok(file);
  }

  // ---------------------------------------------------------------------------------------------
  // As people write them

  /** A text that needs no escapes where it stands. */
  predicate PlainText(s: string) {
    OneLine(s) && '\0' !in s && '\\' !in s && !Begins(s, ' ')
  }

  /** Lines as people write them. */
  function PlainLines(lines: seq<Line>): string {
    if lines == [] then [] else lines[0].key + "=" + lines[0].value + "\n" + PlainLines(lines[1..])
  }

  lemma {:induction false} PlainUnescapes(s: string)
    requires '\0' !in s && '\\' !in s
    ensures Unescape(s) == Some(s)
  {
    if s != [] {
      assert s[0] in s;
      PlainUnescapes(s[1..]);
      assert [s[0]] + s[1..] == s;
    }
  }

  lemma PlainHeader(name: string, rest: string, file: File, n: nat)
    requires name != [] && PlainText(name)
    ensures Parse("[" + name + "]\n" + rest, file, n) == Parse(rest, file + [Section(name, [])], n + 1)
  {
    var line := "[" + name + "]";
    assert "[" + name + "]\n" + rest == line + EolText(Lf) + rest;
    SplitsHere(line, Lf, rest);
    PlainUnescapes(name);
    HeaderParsed(line, name, n);
  }

  lemma PlainPair(key: string, value: string, rest: string, file: File, n: nat)
    requires IsKey(key) && PlainText(value) && file != []
    ensures Parse(key + "=" + value + "\n" + rest, file, n) == Parse(rest, AddLine(file, Line(key, value)), n + 1)
  {
    var line := key + "=" + value;
    assert key + "=" + value + "\n" + rest == line + EolText(Lf) + rest;
    assert OneLine(key);
    SplitsHere(line, Lf, rest);
    PlainUnescapes(value);
    assert line == key + Blanks(0) + (['='] + Blanks(0) + value);
    PairParsed(line, key, 0, 0, value, n);
    KeyLineParses(line + EolText(Lf) + rest, n);
  }

  lemma PlainPairOnce(l: Line, rest: string, file: File, s: Section, n: nat)
    requires IsKey(l.key) && PlainText(l.value)
    ensures Parse(l.key + "=" + l.value + "\n" + rest, file + [s], n)
         == Parse(rest, file + [s.(lines := s.lines + [l])], n + 1)
  {
    PlainPair(l.key, l.value, rest, file + [s], n);
    assert AddLine(file + [s], l) == file + [s.(lines := s.lines + [l])];
  }

  predicate PlainPairLines(lines: seq<Line>) {
    forall i :: 0 <= i < |lines| ==> IsKey(lines[i].key) && PlainText(lines[i].value)
  }

  lemma {:induction false} PlainPairs(lines: seq<Line>, file: File, s: Section, n: nat)
    requires PlainPairLines(lines)
    ensures Parse(PlainLines(lines), file + [s], n) == Ok(file + [s.(lines := s.lines + lines)])
    decreases |lines|
  {
    if lines == [] {
      assert s.lines + lines == s.lines;
    } else {
      PlainPairOnce(lines[0], PlainLines(lines[1..]), file, s, n);
      PlainPairs(lines[1..], file, s.(lines := s.lines + [lines[0]]), n + 1);
      FirstOfLines(s.lines, lines);
    }
  }

  lemma FirstOfLines(before: seq<Line>, lines: seq<Line>)
    requires lines != []
    ensures before + [lines[0]] + lines[1..] == before + lines
  {
  }

  /** A section as people write it. */
  lemma PlainSection(name: string, lines: seq<Line>)
    requires name != [] && PlainText(name) && PlainPairLines(lines)
    ensures Parse("[" + name + "]\n" + PlainLines(lines), [], 1) == Ok([Section(name, lines)])
  {
    var (text, rest, s) := ("[" + name + "]\n" + PlainLines(lines), PlainLines(lines), Section(name, []));
    assert Parse(text, [], 1) == Parse(rest, [] + [s], 2) by { PlainHeader(name, rest, [], 1); }
    assert Parse(rest, [] + [s], 2) == Ok([] + [s.(lines := s.lines + lines)]) by { PlainPairs(lines, [], s, 2); }
    NothingBefore(name, lines);
  }

  lemma NothingBefore(name: string, lines: seq<Line>)
    ensures var s := Section(name, []); [] + [s.(lines := s.lines + lines)] == [Section(name, lines)]
  {
    assert [] + lines == lines;
  }

  /** The lines of a service, by their keys. */
  function FourLines(name: string, exec: string, user: string, unit: string): seq<Line> {
    [Line("Name", name), Line("Exec", exec), Line("User", user), Line("SystemdService", unit)]
  }

  lemma FourLinesPlain(name: string, exec: string, user: string, unit: string)
    requires PlainText(name) && PlainText(exec) && PlainText(user) && PlainText(unit)
    ensures PlainPairLines(FourLines(name, exec, user, unit)) && PlainPairLines([Line("Name", name)])
  {
    assert IsKey("Name") && IsKey("Exec") && IsKey("User") && IsKey("SystemdService");
  }

  lemma FourLinesFound(name: string, exec: string, user: string, unit: string)
    ensures var lines := FourLines(name, exec, user, unit);
            && ValueOf(lines, "Name") == Some(name) && ValueOf(lines, "Exec") == Some(exec)
            && ValueOf(lines, "User") == Some(user) && ValueOf(lines, "SystemdService") == Some(unit)
  {
    var lines := FourLines(name, exec, user, unit);
    KeysDiffer();
    ValueAt(lines, "Name", 0);
    ValueAt(lines, "Exec", 1);
    ValueAt(lines, "User", 2);
    ValueAt(lines, "SystemdService", 3);
  }

  /** What one section says, if it is the one for services. */
  lemma SectionSays(lines: seq<Line>)
    ensures ContentOf(Ok([Section(SERVICE_SECTION, lines)]))
         == match (ValueOf(lines, "Name"), ValueOf(lines, "Exec"))
            case (Some(name), Some(exec)) =>
              Some(SF.Content(name, exec, ValueOf(lines, "User"), ValueOf(lines, "SystemdService")))
            case _ => None
  {
    OneSection(SERVICE_SECTION, lines, "Name");
    OneSection(SERVICE_SECTION, lines, "Exec");
    OneSection(SERVICE_SECTION, lines, "User");
    OneSection(SERVICE_SECTION, lines, "SystemdService");
  }

  lemma OtherSectionSays(loaded: Result<File>, lines: seq<Line>)
    requires loaded == Ok([Section("D-Bus Service", lines)])
    ensures ContentOf(loaded) == None
  {
    assert "D-Bus Service"[3] != SERVICE_SECTION[3];
    FindsSection([Section("D-Bus Service", lines)], SERVICE_SECTION);
  }

  lemma ServiceParsed(text: string, lines: seq<Line>)
    requires PlainPairLines(lines) && text == "[D-BUS Service]\n" + PlainLines(lines)
    ensures Parse(text, [], 1) == Ok([Section(SERVICE_SECTION, lines)])
  {
    assert "[" + "D-BUS Service" + "]\n" == "[D-BUS Service]\n";
    PlainSection("D-BUS Service", lines);
  }

  lemma OtherParsed(text: string, lines: seq<Line>)
    requires PlainPairLines(lines) && text == "[D-Bus Service]\n" + PlainLines(lines)
    ensures Parse(text, [], 1) == Ok([Section("D-Bus Service", lines)])
  {
    assert "[" + "D-Bus Service" + "]\n" == "[D-Bus Service]\n";
    PlainSection("D-Bus Service", lines);
  }

  /** What such a file says, if its section is the one for services. */
  lemma PlainServiceRead(name: string, exec: string, user: string, unit: string, text: string)
    requires PlainText(name) && PlainText(exec) && PlainText(user) && PlainText(unit)
    requires text == "[D-BUS Service]\n" + PlainLines(FourLines(name, exec, user, unit))
    ensures ContentOf(Parse(text, [], 1)) == Some(SF.Content(name, exec, Some(user), Some(unit)))
  {
    var lines := FourLines(name, exec, user, unit);
    FourLinesPlain(name, exec, user, unit);
    ServiceParsed(text, lines);
    FourLinesFound(name, exec, user, unit);
    SectionSays(lines);
  }

  /** In another section the same lines say nothing. */
  lemma PlainServiceSkipped(name: string, exec: string, user: string, unit: string, text: string)
    requires PlainText(name) && PlainText(exec) && PlainText(user) && PlainText(unit)
    requires text == "[D-Bus Service]\n" + PlainLines(FourLines(name, exec, user, unit))
    ensures ContentOf(Parse(text, [], 1)) == None
  {
    var lines := FourLines(name, exec, user, unit);
    FourLinesPlain(name, exec, user, unit);
    OtherParsed(text, lines);
    OtherSectionSays(Parse(text, [], 1), lines);
  }

  /** And so does a service without a command. */
  lemma NoCommandSkipped(name: string, text: string)
    requires PlainText(name) && text == "[D-BUS Service]\n" + PlainLines([Line("Name", name)])
    ensures ContentOf(Parse(text, [], 1)) == None
  {
    var lines := [Line("Name", name)];
    FourLinesPlain(name, name, name, name);
    ServiceParsed(text, lines);
    KeysDiffer();
    NoValue(lines, "Exec");
    SectionSays(lines);
  }
}
