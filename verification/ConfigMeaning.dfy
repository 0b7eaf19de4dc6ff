/**
 What a configuration file without includes sets, by the names of its elements: texts, attributes and order, without the
 parser's types of elements, its stack or its edits.
 */
module ConfigMeaning {
  import opened BusTypes
  import opened ConfigElements
  import opened ConfigParser
  import I = ConfigInlining
  import S = ConfigStack
  import L = Lists

  // ---------------------------------------------------------------------------------------------
  // Elements by name

  /** An element that has started and not ended, with the text it had so far. */
  datatype OpenElement = OpenElement(name: string, attributes: seq<Attribute>, text: string)

  /** The elements that are open after an event, the innermost last. */
  function Opened(open: seq<OpenElement>, e: Event): seq<OpenElement> {
    match e
    case Start(name, attributes) => open + [OpenElement(name, attributes, "")]
    case End(_) => if open == [] then [] else open[..|open| - 1]
    case Text(text) => if open == [] then [] else open[|open| - 1 := open[|open| - 1].(text := text)]
  }

  predicate IsIn(open: seq<OpenElement>, name: string) {
    open != [] && open[|open| - 1].name == name
  }

  /** The text that an event gives an element of that name. */
  function TextIn(open: seq<OpenElement>, e: Event, name: string): seq<string> {
    if e.Text? && IsIn(open, name) then [e.content] else []
  }

  function TextsOf(open: seq<OpenElement>, events: seq<Event>, name: string): seq<string>
    decreases |events|
  {
    if events == [] then [] else TextIn(open, events[0], name) + TextsOf(Opened(open, events[0]), events[1..], name)
  }

  function LastOr(texts: seq<string>, before: Option<string>): Option<string> {
    if texts == [] then before else Some(texts[|texts| - 1])
  }

  /** The last one is a path. */
  function LastPathOr(env: Env, basedir: string, texts: seq<string>, before: Option<string>): Option<string> {
    if texts == [] then before else Some(env.fullPath(basedir, texts[|texts| - 1]))
  }

  predicate StartsNamed(e: Event, name: string) {
    e.Start? && e.name == name
  }

  predicate Occurs(events: seq<Event>, name: string) {
    exists i :: 0 <= i < |events| && StartsNamed(events[i], name)
  }

  /** The value of an attribute. */
  function ValueOf(attributes: seq<Attribute>, name: string): string {
    if attributes == [] then "" else if attributes[0].name == name then attributes[0].value
    else ValueOf(attributes[1..], name)
  }

  /** Directories of services: those given one by one, and the standard ones. */
  function DirsIn(env: Env, basedir: string, open: seq<OpenElement>, e: Event): seq<string> {
    if e.Text? && IsIn(open, "servicedir") then [env.fullPath(basedir, e.content)]
    else if StartsNamed(e, "standard_session_servicedirs") then env.sessionDirs
    else if StartsNamed(e, "standard_system_servicedirs") then env.systemDirs
    else []
  }

  function DirsOf(env: Env, basedir: string, open: seq<OpenElement>, events: seq<Event>): seq<string>
    decreases |events|
  {
    if events == [] then []
    else DirsIn(env, basedir, open, events[0]) + DirsOf(env, basedir, Opened(open, events[0]), events[1..])
  }

  /** A limit is set when its element ends, to the number that its text says. */
  function LimitsIn(env: Env, open: seq<OpenElement>, e: Event): seq<(string, int)> {
    if e.End? && IsIn(open, "limit") && env.parseInt(open[|open| - 1].text).Some? then
      [(ValueOf(open[|open| - 1].attributes, "name"), env.parseInt(open[|open| - 1].text).value)]
    else []
  }

  function LimitsOf(env: Env, open: seq<OpenElement>, events: seq<Event>): seq<(string, int)>
    decreases |events|
  {
    if events == [] then [] else LimitsIn(env, open, events[0]) + LimitsOf(env, Opened(open, events[0]), events[1..])
  }

  /** The SELinux contexts of names. */
  function ContextsIn(e: Event): seq<(string, string)> {
    if StartsNamed(e, "associate") then [(ValueOf(e.attributes, "own"), ValueOf(e.attributes, "context"))] else []
  }

  function ContextsOf(events: seq<Event>): seq<(string, string)>
    decreases |events|
  {
    if events == [] then [] else ContextsIn(events[0]) + ContextsOf(events[1..])
  }

  /** Whom the rules inside a policy element with these attributes are for. */
  predicate IsFor(env: Env, attributes: seq<Attribute>, scope: Scope) {
    match scope
    case Ignored => false
    case Default => attributes == [Attribute("context", "default")]
    case Mandatory => attributes == [Attribute("context", "mandatory")]
    case ForUser(uid) =>
      |attributes| == 1 && attributes[0].name == "user" && env.findUser(attributes[0].value) == Some(uid)
    case ForGroup(gid) =>
      |attributes| == 1 && attributes[0].name == "group" && env.findGroup(attributes[0].value) == Some(gid)
    case AtConsole(yes) => attributes == [Attribute("at_console", if yes then "true" else "false")]
  }

  /** The rule for this scope that an event makes. */
  function RulesIn(env: Env, open: seq<OpenElement>, e: Event, scope: Scope): seq<Rule> {
    if (StartsNamed(e, "allow") || StartsNamed(e, "deny")) && IsIn(open, "policy")
       && IsFor(env, open[|open| - 1].attributes, scope) && env.makeRule(e.name == "allow", e.attributes).RuleMade?
    then [env.makeRule(e.name == "allow", e.attributes).rule]
    else []
  }

  function RulesOf(env: Env, open: seq<OpenElement>, events: seq<Event>, scope: Scope): seq<Rule>
    decreases |events|
  {
    if events == [] then []
    else RulesIn(env, open, events[0], scope) + RulesOf(env, Opened(open, events[0]), events[1..], scope)
  }

  /** Each thing where it comes first. */
  function Firsts(s: seq<string>): seq<string> {
    if s == [] then []
    else
      var (before, last) := (s[..|s| - 1], s[|s| - 1]);
      Firsts(before) + if last in before then [] else [last]
  }

  /** The value given last to a key. */
  function LastFor<V>(pairs: seq<(string, V)>, key: string): Option<V> {
    if pairs == [] then None
    else if pairs[|pairs| - 1].0 == key then Some(pairs[|pairs| - 1].1)
    else LastFor(pairs[..|pairs| - 1], key)
  }

  /** A table after these were put in. */
  ghost predicate PutIn<V>(table: map<string, V>, table': map<string, V>, pairs: seq<(string, V)>) {
    forall key ::
      match LastFor(pairs, key)
      case Some(value) => key in table' && table'[key] == value
      case None => (key in table' <==> key in table) && (key in table ==> table'[key] == table[key])
  }

  // ---------------------------------------------------------------------------------------------
  // One event, on the settings

  ghost predicate TextsChange(env: Env, basedir: string, open: seq<OpenElement>, e: Event, s: Settings, s': Settings) {
    && s'.listenOn == s.listenOn + TextIn(open, e, "listen") && s'.mechanisms == s.mechanisms + TextIn(open, e, "auth")
    && s'.user == LastOr(TextIn(open, e, "user"), s.user) && s'.busType == LastOr(TextIn(open, e, "type"), s.busType)
    && s'.pidfile == LastOr(TextIn(open, e, "pidfile"), s.pidfile)
    && s'.serviceHelper == LastPathOr(env, basedir, TextIn(open, e, "servicehelper"), s.serviceHelper)
  }

  predicate FlagsChange(e: Event, s: Settings, s': Settings) {
    && s'.fork == (s.fork || StartsNamed(e, "fork")) && s'.syslog == (s.syslog || StartsNamed(e, "syslog"))
    && s'.keepUmask == (s.keepUmask || StartsNamed(e, "keep_umask"))
    && s'.allowAnonymous == (s.allowAnonymous || StartsNamed(e, "allow_anonymous"))
  }

  ghost predicate TablesChange(env: Env, basedir: string, open: seq<OpenElement>, e: Event, s: Settings, s': Settings) {
    && s'.serviceDirs == AppendUnique(s.serviceDirs, DirsIn(env, basedir, open, e)) && s'.confDirs == s.confDirs
    && PutIn(s.limits, s'.limits, LimitsIn(env, open, e)) && PutIn(s.contexts, s'.contexts, ContextsIn(e))
    && forall scope :: RulesFor(s'.policy, scope) == RulesFor(s.policy, scope) + RulesIn(env, open, e, scope)
  }

  ghost predicate Changes(env: Env, basedir: string, open: seq<OpenElement>, e: Event, s: Settings, s': Settings) {
    TextsChange(env, basedir, open, e, s, s') && FlagsChange(e, s, s') && TablesChange(env, basedir, open, e, s, s')
  }

  /** The parser's element is this one. */
  ghost predicate SameElement(env: Env, x: Element, y: OpenElement) {
    && x.kind == NameToType(y.name) && x.kind != NoElement
    && (x.kind == Policy ==>
          forall scope :: scope != Ignored ==> (x.scope == scope <==> IsFor(env, y.attributes, scope)))
    && (x.kind == Limit ==> x.limitName == ValueOf(y.attributes, "name")
                            && (x.hadContent ==> env.parseInt(y.text) == Some(x.limitValue)))
  }

  ghost predicate Matches(env: Env, stack: seq<Element>, open: seq<OpenElement>) {
    |stack| == |open| && forall i :: 0 <= i < |stack| ==> SameElement(env, stack[i], open[i])
  }

  /** Names and types of the elements that have a text of their own. */
  lemma TextNames(name: string)
    ensures (name == "listen" <==> NameToType(name) == Listen) && (name == "auth" <==> NameToType(name) == Auth)
    ensures (name == "user" <==> NameToType(name) == User) && (name == "type" <==> NameToType(name) == ConfigType)
    ensures (name == "pidfile" <==> NameToType(name) == PidFile)
    ensures (name == "servicehelper" <==> NameToType(name) == ServiceHelper)
    ensures (name == "servicedir" <==> NameToType(name) == ServiceDir)
  {
    NamesAndTypes(Listen, name);
    NamesAndTypes(Auth, name);
    NamesAndTypes(User, name);
    NamesAndTypes(ConfigType, name);
    NamesAndTypes(PidFile, name);
    NamesAndTypes(ServiceHelper, name);
    NamesAndTypes(ServiceDir, name);
  }

  lemma FlagNames(name: string)
    ensures (name == "fork" <==> NameToType(name) == Fork) && (name == "syslog" <==> NameToType(name) == Syslog)
    ensures (name == "keep_umask" <==> NameToType(name) == KeepUmask)
    ensures (name == "allow_anonymous" <==> NameToType(name) == AllowAnonymous)
    ensures (name == "standard_session_servicedirs" <==> NameToType(name) == StandardSessionServiceDirs)
    ensures (name == "standard_system_servicedirs" <==> NameToType(name) == StandardSystemServiceDirs)
  {
    NamesAndTypes(Fork, name);
    NamesAndTypes(Syslog, name);
    NamesAndTypes(KeepUmask, name);
    NamesAndTypes(AllowAnonymous, name);
    NamesAndTypes(StandardSessionServiceDirs, name);
    NamesAndTypes(StandardSystemServiceDirs, name);
  }

  lemma TableNames(name: string)
    ensures (name == "limit" <==> NameToType(name) == Limit) && (name == "policy" <==> NameToType(name) == Policy)
    ensures (name == "allow" <==> NameToType(name) == Allow) && (name == "deny" <==> NameToType(name) == Deny)
    ensures (name == "associate" <==> NameToType(name) == Associate)
    ensures (name == "selinux" <==> NameToType(name) == SELinux)
    ensures (name == "busconfig" <==> NameToType(name) == BusConfig)
  {
    NamesAndTypes(Limit, name);
    NamesAndTypes(Policy, name);
    NamesAndTypes(Allow, name);
    NamesAndTypes(Deny, name);
    NamesAndTypes(Associate, name);
    NamesAndTypes(SELinux, name);
    NamesAndTypes(BusConfig, name);
  }

  // ---------------------------------------------------------------------------------------------
  // Attributes

  /** What `locate_attributes` finds is what is there, each name once. */
  ghost predicate Located(attributes: seq<Attribute>, found: map<string, string>, all: map<string, string>) {
    && |all| == |found| + |attributes|
    && (forall key :: key in found ==> key in all && all[key] == found[key])
    && (forall a :: a in attributes ==> a.name in all && a.name !in found && all[a.name] == a.value)
    && forall key :: key in all && key !in found ==> ValueOf(attributes, key) == all[key]
  }

  lemma LocatedFirst(attributes: seq<Attribute>, found: map<string, string>, all: map<string, string>)
    requires attributes != [] && attributes[0].name !in found
    requires Located(attributes[1..], found[attributes[0].name := attributes[0].value], all)
    ensures Located(attributes, found, all)
  {
    var (first, rest) := (attributes[0], attributes[1..]);
    assert attributes == [first] + rest;
    var more := found[first.name := first.value];
    assert more.Keys == found.Keys + {first.name} && |more| == |more.Keys| && |found| == |found.Keys|;
    forall a | a in attributes ensures a.name in all && a.name !in found && all[a.name] == a.value {
      if a in rest { assert a.name !in more; }
    }
    forall key | key in all && key !in found ensures ValueOf(attributes, key) == all[key] {
      if key != first.name { assert key !in more; }
    }
  }

  lemma {:induction false} LocateFinds(attributes: seq<Attribute>, allowed: set<string>, found: map<string, string>)
    ensures var r := Locate(attributes, allowed, found); r.Ok? ==> Located(attributes, found, r.value)
    decreases |attributes|
  {
    if attributes != [] {
      var a := attributes[0];
      if a.name in allowed && a.name !in found {
        LocateFinds(attributes[1..], allowed, found[a.name := a.value]);
        var r := Locate(attributes, allowed, found);
        if r.Ok? { LocatedFirst(attributes, found, r.value); }
      }
    }
  }

  lemma WordsDiffer()
    ensures "context" != "user" && "context" != "group" && "context" != "at_console"
    ensures "user" != "group" && "user" != "at_console" && "group" != "at_console"
    ensures "default" != "mandatory" && "true" != "false"
  {
    assert |"context"| == 7 && |"user"| == 4 && |"group"| == 5 && |"at_console"| == 10;
    assert |"default"| == 7 && |"mandatory"| == 9 && |"true"| == 4 && |"false"| == 5;
  }

  /** With one attribute, that one. */
  lemma OneAttribute(attributes: seq<Attribute>, all: map<string, string>)
    requires Located(attributes, map[], all) && |all| == 1
    ensures |attributes| == 1 && all == map[attributes[0].name := attributes[0].value]
  {
    assert attributes[0] in attributes;
    var name := attributes[0].name;
    assert |all.Keys - {name}| == 0;
    forall key | key in all ensures key == name { assert key !in all.Keys - {name}; }
  }

  lemma ScopeIsFor(env: Env, attributes: seq<Attribute>, all: map<string, string>, scope: Scope)
    requires Located(attributes, map[], all) && PolicyScope(env, all).Some? && scope != Ignored
    ensures PolicyScope(env, all).value == scope <==> IsFor(env, attributes, scope)
  {
    WordsDiffer();
    OneAttribute(attributes, all);
    assert attributes == [Attribute(attributes[0].name, attributes[0].value)];
  }

  // ---------------------------------------------------------------------------------------------
  // Events, one kind after the other

  lemma NothingPutIn<V>(table: map<string, V>)
    ensures PutIn(table, table, [])
  {
  }

  lemma OnePutIn<V>(table: map<string, V>, key: string, value: V)
    ensures PutIn(table, table[key := value], [(key, value)])
  {
    var pairs := [(key, value)];
    assert pairs[..|pairs| - 1] == [];
    forall other ensures LastFor(pairs, other) == if other == key then Some(value) else None {
      assert LastFor(pairs[..|pairs| - 1], other) == None;
    }
  }

  lemma ReplacedMatches(env: Env, stack: seq<Element>, open: seq<OpenElement>, x: Element, y: OpenElement)
    requires Matches(env, stack, open) && stack != [] && SameElement(env, x, y)
    ensures Matches(env, stack[|stack| - 1 := x], open[|open| - 1 := y])
  {
  }

  /** A text marks its element, and tells a limit its value. */
  lemma TextMarks(env: Env, basedir: string, stack: seq<Element>, content: string)
    requires stack != [] && PlainContent(env, basedir, stack, content).Ok?
    ensures var (x, stack') := (stack[|stack| - 1], PlainContent(env, basedir, stack, content).value.stack);
            && |stack'| == |stack| && stack' == stack[|stack| - 1 := stack'[|stack| - 1]]
            && var x' := stack'[|stack| - 1];
            && x' == x.(hadContent := x'.hadContent, limitValue := x'.limitValue)
            && (x.kind == Limit ==> env.parseInt(content) == Some(x'.limitValue))
  {
  }

  lemma TextMatches(env: Env, basedir: string, stack: seq<Element>, open: seq<OpenElement>, content: string)
    requires Matches(env, stack, open) && PlainContent(env, basedir, stack, content).Ok?
    ensures Matches(env, PlainContent(env, basedir, stack, content).value.stack, Opened(open, Text(content)))
  {
    var (x, last) := (stack[|stack| - 1], open[|open| - 1]);
    assert SameElement(env, x, last);
    var stack' := PlainContent(env, basedir, stack, content).value.stack;
    TextMarks(env, basedir, stack, content);
    ReplacedMatches(env, stack, open, stack'[|stack| - 1], last.(text := content));
  }

  /** What the innermost element is called and what type it has. */
  ghost predicate TextKind(open: seq<OpenElement>, kind: ElementType) {
    && (IsIn(open, "listen") <==> kind == Listen) && (IsIn(open, "auth") <==> kind == Auth)
    && (IsIn(open, "user") <==> kind == User) && (IsIn(open, "type") <==> kind == ConfigType)
    && (IsIn(open, "pidfile") <==> kind == PidFile) && (IsIn(open, "servicehelper") <==> kind == ServiceHelper)
    && (IsIn(open, "servicedir") <==> kind == ServiceDir)
  }

  lemma MatchesTextKind(env: Env, stack: seq<Element>, open: seq<OpenElement>)
    requires Matches(env, stack, open) && stack != []
    ensures TextKind(open, TopType(stack))
  {
    assert SameElement(env, stack[|stack| - 1], open[|open| - 1]);
    TextNames(open[|open| - 1].name);
  }

  /** What an accepted text does, by the type of its element. */
  predicate IsEditOfText(env: Env, basedir: string, kind: ElementType, content: string, edit: Edit) {
    match kind
    case Listen => edit == AddListen(content)
    case Auth => edit == AddMechanism(content)
    case User => edit == SetUser(content)
    case ConfigType => edit == SetType(content)
    case PidFile => edit == SetPidfile(content)
    case ServiceHelper => edit == SetServiceHelper(env.fullPath(basedir, content))
    case ServiceDir => edit == AddServiceDirs([env.fullPath(basedir, content)])
    case _ => edit == NoEdit
  }

  lemma TextEdits(env: Env, basedir: string, stack: seq<Element>, content: string)
    requires PlainContent(env, basedir, stack, content).Ok?
    ensures IsEditOfText(env, basedir, TopType(stack), content, PlainContent(env, basedir, stack, content).value.edit)
  {
  }

  /** A text that some element has. */
  lemma TextTexts(env: Env, basedir: string, open: seq<OpenElement>, kind: ElementType, content: string, s: Settings)
    requires TextKind(open, kind)
    ensures kind == Listen ==> TextsChange(env, basedir, open, Text(content), s, ApplyEdit(s, AddListen(content)))
    ensures kind == Auth ==> TextsChange(env, basedir, open, Text(content), s, ApplyEdit(s, AddMechanism(content)))
    ensures kind == User ==> TextsChange(env, basedir, open, Text(content), s, ApplyEdit(s, SetUser(content)))
    ensures kind == ConfigType ==> TextsChange(env, basedir, open, Text(content), s, ApplyEdit(s, SetType(content)))
    ensures kind == PidFile ==> TextsChange(env, basedir, open, Text(content), s, ApplyEdit(s, SetPidfile(content)))
  {
    assert s.listenOn + [] == s.listenOn && s.mechanisms + [] == s.mechanisms;
  }

  lemma OtherTexts(env: Env, basedir: string, open: seq<OpenElement>, kind: ElementType, content: string, s: Settings)
    requires TextKind(open, kind)
    ensures var path := env.fullPath(basedir, content);
            && (kind == ServiceHelper ==>
                  TextsChange(env, basedir, open, Text(content), s, ApplyEdit(s, SetServiceHelper(path))))
            && (kind == ServiceDir ==>
                  TextsChange(env, basedir, open, Text(content), s, ApplyEdit(s, AddServiceDirs([path]))))
            && (kind !in {Listen, Auth, User, ConfigType, PidFile, ServiceHelper, ServiceDir} ==>
                  TextsChange(env, basedir, open, Text(content), s, s))
  {
    assert s.listenOn + [] == s.listenOn && s.mechanisms + [] == s.mechanisms;
  }

  /** Settings other than texts are left alone. */
  predicate SameTables(s: Settings, s': Settings) {
    && s'.confDirs == s.confDirs && s'.limits == s.limits && s'.contexts == s.contexts && s'.policy == s.policy
    && s'.fork == s.fork && s'.syslog == s.syslog && s'.keepUmask == s.keepUmask
    && s'.allowAnonymous == s.allowAnonymous
  }

  lemma TextTables(env: Env, basedir: string, open: seq<OpenElement>, kind: ElementType, content: string, s: Settings,
                   s': Settings)
    requires TextKind(open, kind) && SameTables(s, s')
    requires s'.serviceDirs == if kind == ServiceDir then AppendUnique(s.serviceDirs, [env.fullPath(basedir, content)])
                               else s.serviceDirs
    ensures FlagsChange(Text(content), s, s') && TablesChange(env, basedir, open, Text(content), s, s')
  {
    NothingPutIn(s.limits);
    NothingPutIn(s.contexts);
    forall scope ensures RulesFor(s.policy, scope) == RulesFor(s.policy, scope) + [] {}
  }

  lemma EditTexts(env: Env, basedir: string, open: seq<OpenElement>, kind: ElementType, content: string, edit: Edit,
                  s: Settings)
    requires TextKind(open, kind) && IsEditOfText(env, basedir, kind, content, edit)
    ensures TextsChange(env, basedir, open, Text(content), s, ApplyEdit(s, edit))
  {
    TextTexts(env, basedir, open, kind, content, s);
    OtherTexts(env, basedir, open, kind, content, s);
  }

  lemma EditTables(env: Env, basedir: string, open: seq<OpenElement>, kind: ElementType, content: string, edit: Edit,
                   s: Settings)
    requires TextKind(open, kind) && IsEditOfText(env, basedir, kind, content, edit)
    ensures FlagsChange(Text(content), s, ApplyEdit(s, edit))
    ensures TablesChange(env, basedir, open, Text(content), s, ApplyEdit(s, edit))
  {
    TextTables(env, basedir, open, kind, content, s, ApplyEdit(s, edit));
  }

  lemma TextChanges(env: Env, basedir: string, stack: seq<Element>, open: seq<OpenElement>, content: string,
                    s: Settings)
    requires TextKind(open, TopType(stack)) && PlainContent(env, basedir, stack, content).Ok?
    ensures Changes(env, basedir, open, Text(content), s,
                    ApplyEdit(s, PlainContent(env, basedir, stack, content).value.edit))
  {
    var edit := PlainContent(env, basedir, stack, content).value.edit;
    TextEdits(env, basedir, stack, content);
    EditTexts(env, basedir, open, TopType(stack), content, edit, s);
    EditTables(env, basedir, open, TopType(stack), content, edit, s);
  }

  lemma EndMatches(env: Env, stack: seq<Element>, open: seq<OpenElement>, name: string)
    requires Matches(env, stack, open) && EndElement(stack, name).Ok?
    ensures Matches(env, EndElement(stack, name).value.stack, Opened(open, End(name)))
  {
  }

  lemma MatchesLimit(env: Env, stack: seq<Element>, open: seq<OpenElement>)
    requires Matches(env, stack, open) && stack != []
    ensures var (x, y) := (stack[|stack| - 1], open[|open| - 1]);
            && (IsIn(open, "limit") <==> x.kind == Limit)
            && (x.kind == Limit ==> x.limitName == ValueOf(y.attributes, "name")
                                    && (x.hadContent ==> env.parseInt(y.text) == Some(x.limitValue)))
  {
    assert SameElement(env, stack[|stack| - 1], open[|open| - 1]);
    NamesAndTypes(Limit, open[|open| - 1].name);
  }

  /** An end sets a limit, if that is what ends. */
  lemma EndEdits(stack: seq<Element>, name: string)
    requires stack != [] && EndElement(stack, name).Ok?
    ensures var (x, edit) := (stack[|stack| - 1], EndElement(stack, name).value.edit);
            && edit == (if x.kind == Limit then SetLimit(x.limitName, x.limitValue) else NoEdit)
            && (x.kind == Limit ==> x.hadContent)
  {
  }

  /** What does nothing to texts and flags. */
  lemma NoTexts(env: Env, basedir: string, open: seq<OpenElement>, e: Event, s: Settings, s': Settings)
    requires forall name :: TextIn(open, e, name) == []
    requires s' == s.(limits := s'.limits, contexts := s'.contexts, policy := s'.policy, serviceDirs := s'.serviceDirs,
                      fork := s'.fork, syslog := s'.syslog, keepUmask := s'.keepUmask,
                      allowAnonymous := s'.allowAnonymous)
    ensures TextsChange(env, basedir, open, e, s, s')
  {
    assert s.listenOn + [] == s.listenOn && s.mechanisms + [] == s.mechanisms;
  }

  lemma EndTables(env: Env, basedir: string, open: seq<OpenElement>, name: string, s: Settings,
                  limits: map<string, int>)
    requires PutIn(s.limits, limits, LimitsIn(env, open, End(name)))
    ensures TablesChange(env, basedir, open, End(name), s, s.(limits := limits))
  {
    NothingPutIn(s.contexts);
    forall scope ensures RulesFor(s.policy, scope) == RulesFor(s.policy, scope) + [] {}
  }

  lemma EndChanges(env: Env, basedir: string, stack: seq<Element>, open: seq<OpenElement>, name: string, s: Settings)
    requires open != [] && stack != [] && EndElement(stack, name).Ok?
    requires var (x, y) := (stack[|stack| - 1], open[|open| - 1]);
             && (IsIn(open, "limit") <==> x.kind == Limit)
             && (x.kind == Limit ==> x.limitName == ValueOf(y.attributes, "name")
                                     && (x.hadContent ==> env.parseInt(y.text) == Some(x.limitValue)))
    ensures Changes(env, basedir, open, End(name), s, ApplyEdit(s, EndElement(stack, name).value.edit))
  {
    var x := stack[|stack| - 1];
    var s' := ApplyEdit(s, EndElement(stack, name).value.edit);
    EndEdits(stack, name);
    if x.kind == Limit { OnePutIn(s.limits, x.limitName, x.limitValue); } else { NothingPutIn(s.limits); }
    NoTexts(env, basedir, open, End(name), s, s');
    EndTables(env, basedir, open, name, s, s'.limits);
  }

  lemma PushedMatches(env: Env, stack: seq<Element>, open: seq<OpenElement>, x: Element, y: OpenElement)
    requires Matches(env, stack, open) && SameElement(env, x, y)
    ensures Matches(env, stack + [x], open + [y])
  {
  }

  /** What the element that starts is called and what type it has. */
  ghost predicate StartKind(name: string, kind: ElementType) {
    && (name == "fork" <==> kind == Fork) && (name == "syslog" <==> kind == Syslog)
    && (name == "keep_umask" <==> kind == KeepUmask) && (name == "allow_anonymous" <==> kind == AllowAnonymous)
    && (name == "standard_session_servicedirs" <==> kind == StandardSessionServiceDirs)
    && (name == "standard_system_servicedirs" <==> kind == StandardSystemServiceDirs)
    && (name == "allow" <==> kind == Allow) && (name == "deny" <==> kind == Deny)
    && (name == "associate" <==> kind == Associate)
  }

  lemma StartKinds(name: string)
    ensures StartKind(name, NameToType(name))
    ensures (name == "policy" <==> NameToType(name) == Policy) && (name == "limit" <==> NameToType(name) == Limit)
    ensures (name == "busconfig" <==> NameToType(name) == BusConfig)
  {
    FlagNames(name);
    TableNames(name);
  }

  /** What the start of an element does that is a setting by itself. */
  predicate IsEditOfStart(env: Env, kind: ElementType, edit: Edit) {
    match kind
    case Fork => edit == SetFork
    case Syslog => edit == SetSyslog
    case KeepUmask => edit == SetKeepUmask
    case AllowAnonymous => edit == SetAllowAnonymous
    case StandardSessionServiceDirs => edit == AddServiceDirs(env.sessionDirs)
    case StandardSystemServiceDirs => edit == AddServiceDirs(env.systemDirs)
    case _ => edit == NoEdit
  }

  lemma StartFlags(env: Env, basedir: string, open: seq<OpenElement>, name: string, attributes: seq<Attribute>,
                   kind: ElementType, edit: Edit, s: Settings)
    requires StartKind(name, kind) && IsEditOfStart(env, kind, edit)
    ensures FlagsChange(Start(name, attributes), s, ApplyEdit(s, edit))
    ensures TextsChange(env, basedir, open, Start(name, attributes), s, ApplyEdit(s, edit))
  {
    NoTexts(env, basedir, open, Start(name, attributes), s, ApplyEdit(s, edit));
  }

  lemma StartDirs(env: Env, basedir: string, open: seq<OpenElement>, name: string, attributes: seq<Attribute>,
                  kind: ElementType, edit: Edit, s: Settings)
    requires StartKind(name, kind) && IsEditOfStart(env, kind, edit)
    ensures ApplyEdit(s, edit).serviceDirs
         == AppendUnique(s.serviceDirs, DirsIn(env, basedir, open, Start(name, attributes)))
  {
    match kind
    case StandardSessionServiceDirs =>
    case StandardSystemServiceDirs =>
    case _ =>
  }

  lemma StartTables(env: Env, basedir: string, open: seq<OpenElement>, name: string, attributes: seq<Attribute>,
                    kind: ElementType, edit: Edit, s: Settings)
    requires StartKind(name, kind) && IsEditOfStart(env, kind, edit) && kind !in {Allow, Deny, Associate}
    ensures TablesChange(env, basedir, open, Start(name, attributes), s, ApplyEdit(s, edit))
  {
    StartDirs(env, basedir, open, name, attributes, kind, edit, s);
    var s' := ApplyEdit(s, edit);
    assert s'.limits == s.limits && s'.contexts == s.contexts && s'.policy == s.policy && s'.confDirs == s.confDirs;
    NothingPutIn(s.limits);
    NothingPutIn(s.contexts);
    forall scope ensures RulesFor(s.policy, scope) == RulesFor(s.policy, scope) + [] {}
  }

  lemma StartChanges(env: Env, basedir: string, open: seq<OpenElement>, name: string, attributes: seq<Attribute>,
                     kind: ElementType, edit: Edit, s: Settings)
    requires StartKind(name, kind) && IsEditOfStart(env, kind, edit) && kind !in {Allow, Deny, Associate}
    ensures Changes(env, basedir, open, Start(name, attributes), s, ApplyEdit(s, edit))
  {
    StartFlags(env, basedir, open, name, attributes, kind, edit, s);
    StartTables(env, basedir, open, name, attributes, kind, edit, s);
  }

  /** An association puts in a context. */
  lemma ContextChanges(env: Env, basedir: string, open: seq<OpenElement>, attributes: seq<Attribute>, s: Settings)
    requires StartKind("associate", Associate)
    ensures var (own, context) := (ValueOf(attributes, "own"), ValueOf(attributes, "context"));
            Changes(env, basedir, open, Start("associate", attributes), s, ApplyEdit(s, AddContext(own, context)))
  {
    var (own, context) := (ValueOf(attributes, "own"), ValueOf(attributes, "context"));
    var (e, s') := (Start("associate", attributes), ApplyEdit(s, AddContext(own, context)));
    NothingPutIn(s.limits);
    OnePutIn(s.contexts, own, context);
    NoTexts(env, basedir, open, e, s, s');
    forall scope ensures RulesFor(s.policy, scope) == RulesFor(s.policy, scope) + [] {}
  }

  /** A rule is added where it is for. */
  lemma RuleChanges(env: Env, basedir: string, open: seq<OpenElement>, e: Event, s: Settings, edit: Edit)
    requires e.Start? && (StartKind(e.name, Allow) || StartKind(e.name, Deny)) && IsIn(open, "policy")
    requires var verdict := env.makeRule(e.name == "allow", e.attributes);
             var attributes := open[|open| - 1].attributes;
             if edit.AddRule? then
               && edit.scope != Ignored && verdict.RuleMade? && verdict.rule == edit.rule
               && forall scope :: IsFor(env, attributes, scope) <==> scope == edit.scope
             else edit.NoEdit? && (verdict.RuleMade? ==> forall scope :: !IsFor(env, attributes, scope))
    ensures Changes(env, basedir, open, e, s, ApplyEdit(s, edit))
  {
    var s' := ApplyEdit(s, edit);
    NothingPutIn(s.limits);
    NothingPutIn(s.contexts);
    NoTexts(env, basedir, open, e, s, s');
    forall scope ensures RulesFor(s'.policy, scope) == RulesFor(s.policy, scope) + RulesIn(env, open, e, scope) {
      RuleAdded(env, open, e, s, edit, scope);
    }
  }

  lemma RuleAdded(env: Env, open: seq<OpenElement>, e: Event, s: Settings, edit: Edit, scope: Scope)
    requires e.Start? && (e.name == "allow" || e.name == "deny") && IsIn(open, "policy")
    requires var verdict := env.makeRule(e.name == "allow", e.attributes);
             var attributes := open[|open| - 1].attributes;
             if edit.AddRule? then
               && verdict.RuleMade? && verdict.rule == edit.rule
               && (IsFor(env, attributes, scope) <==> scope == edit.scope)
             else edit.NoEdit? && (verdict.RuleMade? ==> !IsFor(env, attributes, scope))
    ensures RulesFor(ApplyEdit(s, edit).policy, scope) == RulesFor(s.policy, scope) + RulesIn(env, open, e, scope)
  {
  }

  /** An element inside busconfig. */
  lemma ChildSteps(env: Env, stack: seq<Element>, name: string, attributes: seq<Attribute>)
    requires StartChild(env, stack, name, attributes).Ok? && NameToType(name) != Include
    ensures var move := StartChild(env, stack, name, attributes).value;
            && |move.stack| == |stack| + 1 && move.stack == stack + [move.stack[|stack|]]
            && SameElement(env, move.stack[|stack|], OpenElement(name, attributes, ""))
            && IsEditOfStart(env, NameToType(name), move.edit)
            && NameToType(name) !in {Allow, Deny, Associate}
  {
    var kind := NameToType(name);
    if kind == Policy {
      var names := {"context", "user", "group", "at_console"};
      LocateFinds(attributes, names, map[]);
      var found := Locate(attributes, names, map[]).value;
      forall scope | scope != Ignored
        ensures PolicyScope(env, found).value == scope <==> IsFor(env, attributes, scope)
      {
        ScopeIsFor(env, attributes, found, scope);
      }
    } else if kind == Limit {
      LocateFinds(attributes, {"name"}, map[]);
    }
  }

  lemma StartMatches(env: Env, stack: seq<Element>, open: seq<OpenElement>, name: string, attributes: seq<Attribute>,
                     pushed: seq<Element>)
    requires Matches(env, stack, open) && |pushed| == |stack| + 1 && pushed == stack + [pushed[|stack|]]
    requires SameElement(env, pushed[|stack|], OpenElement(name, attributes, ""))
    ensures Matches(env, pushed, Opened(open, Start(name, attributes)))
  {
    PushedMatches(env, stack, open, pushed[|stack|], OpenElement(name, attributes, ""));
  }

  lemma ChildChanges(env: Env, basedir: string, stack: seq<Element>, open: seq<OpenElement>, name: string,
                     attributes: seq<Attribute>, s: Settings)
    requires Matches(env, stack, open) && NameToType(name) != Include && StartChild(env, stack, name, attributes).Ok?
    ensures var move := StartChild(env, stack, name, attributes).value;
            && Matches(env, move.stack, Opened(open, Start(name, attributes)))
            && Changes(env, basedir, open, Start(name, attributes), s, ApplyEdit(s, move.edit))
  {
    var move := StartChild(env, stack, name, attributes).value;
    ChildSteps(env, stack, name, attributes);
    StartKinds(name);
    StartMatches(env, stack, open, name, attributes, move.stack);
    StartChanges(env, basedir, open, name, attributes, NameToType(name), move.edit, s);
  }

  /** A rule inside a policy. */
  lemma RuleSteps(env: Env, basedir: string, stack: seq<Element>, open: seq<OpenElement>, name: string,
                  attributes: seq<Attribute>, s: Settings)
    requires Matches(env, stack, open) && stack != [] && TopType(stack) == Policy
    requires StartRule(env, stack, name, attributes).Ok?
    ensures var move := StartRule(env, stack, name, attributes).value;
            && Matches(env, move.stack, Opened(open, Start(name, attributes)))
            && Changes(env, basedir, open, Start(name, attributes), s, ApplyEdit(s, move.edit))
  {
    var (x, y) := (stack[|stack| - 1], open[|open| - 1]);
    assert SameElement(env, x, y);
    StartKinds(y.name);
    StartKinds(name);
    var move := StartRule(env, stack, name, attributes).value;
    StartMatches(env, stack, open, name, attributes, move.stack);
    RuleChanges(env, basedir, open, Start(name, attributes), s, move.edit);
  }

  /** An association inside selinux. */
  lemma AssociateSteps(env: Env, basedir: string, stack: seq<Element>, open: seq<OpenElement>, name: string,
                       attributes: seq<Attribute>, s: Settings)
    requires Matches(env, stack, open) && StartAssociate(stack, name, attributes).Ok?
    ensures var move := StartAssociate(stack, name, attributes).value;
            && Matches(env, move.stack, Opened(open, Start(name, attributes)))
            && Changes(env, basedir, open, Start(name, attributes), s, ApplyEdit(s, move.edit))
  {
    LocateFinds(attributes, {"own", "context"}, map[]);
    StartKinds(name);
    StartMatches(env, stack, open, name, attributes, StartAssociate(stack, name, attributes).value.stack);
    ContextChanges(env, basedir, open, attributes, s);
  }

  lemma OutermostSteps(env: Env, basedir: string, name: string, attributes: seq<Attribute>, s: Settings)
    requires name == "busconfig"
    ensures Matches(env, [NewElement(BusConfig)], Opened([], Start(name, attributes)))
    ensures Changes(env, basedir, [], Start(name, attributes), s, s)
  {
    StartKinds(name);
    StartMatches(env, [], [], name, attributes, [NewElement(BusConfig)]);
    StartChanges(env, basedir, [], name, attributes, BusConfig, NoEdit, s);
  }

  lemma TopIsElement(env: Env, stack: seq<Element>, open: seq<OpenElement>)
    requires Matches(env, stack, open)
    ensures TopType(stack) == NoElement <==> stack == []
  {
    if stack != [] { assert SameElement(env, stack[|stack| - 1], open[|open| - 1]); }
  }

  /** Any element that starts, but an include. */
  lemma StartSteps(env: Env, basedir: string, stack: seq<Element>, open: seq<OpenElement>, name: string,
                   attributes: seq<Attribute>, s: Settings)
    requires Matches(env, stack, open) && NameToType(name) != Include && StartElement(env, stack, name, attributes).Ok?
    ensures var move := StartElement(env, stack, name, attributes).value;
            && Matches(env, move.stack, Opened(open, Start(name, attributes)))
            && Changes(env, basedir, open, Start(name, attributes), s, ApplyEdit(s, move.edit))
  {
    TopIsElement(env, stack, open);
    match TopType(stack)
    case NoElement =>
      assert stack == [] && open == [] && [] + [NewElement(BusConfig)] == [NewElement(BusConfig)];
      OutermostSteps(env, basedir, name, attributes, s);
    case BusConfig => ChildChanges(env, basedir, stack, open, name, attributes, s);
    case Policy => RuleSteps(env, basedir, stack, open, name, attributes, s);
    case SELinux => AssociateSteps(env, basedir, stack, open, name, attributes, s);
    case _ =>
  }

  // ---------------------------------------------------------------------------------------------
  // Streams of events

  /** Nothing is included from other files. */
  predicate IsPlain(e: Event) {
    !StartsNamed(e, "include") && !StartsNamed(e, "includedir")
  }

  predicate NoIncludes(events: seq<Event>) {
    forall e :: e in events ==> IsPlain(e)
  }

  predicate NoneIncludes(open: seq<OpenElement>) {
    forall y :: y in open ==> y.name != "include" && y.name != "includedir"
  }

  lemma InclusionNames(name: string)
    ensures (name == "include" <==> NameToType(name) == Include)
    ensures (name == "includedir" <==> NameToType(name) == IncludeDir)
  {
    NamesAndTypes(Include, name);
    NamesAndTypes(IncludeDir, name);
  }

  lemma TopNamed(env: Env, stack: seq<Element>, open: seq<OpenElement>)
    requires Matches(env, stack, open) && stack != []
    ensures TopType(stack) == NameToType(open[|open| - 1].name) && open[|open| - 1] in open
  {
    assert SameElement(env, stack[|stack| - 1], open[|open| - 1]);
  }

  lemma NotIncluding(env: Env, stack: seq<Element>, open: seq<OpenElement>)
    requires Matches(env, stack, open) && NoneIncludes(open)
    ensures TopType(stack) !in {Include, IncludeDir}
  {
    if stack != [] {
      TopNamed(env, stack, open);
      InclusionNames(open[|open| - 1].name);
    }
  }

  lemma StillNone(open: seq<OpenElement>, e: Event)
    requires NoneIncludes(open) && IsPlain(e)
    ensures NoneIncludes(Opened(open, e))
  {
  }

  function MoveOf(env: Env, basedir: string, stack: seq<Element>, e: Event): Result<Move> {
    match e
    case Start(name, attributes) => StartElement(env, stack, name, attributes)
    case End(name) => EndElement(stack, name)
    case Text(content) => PlainContent(env, basedir, stack, content)
  }

  /** Without includes every event is one move. */
  lemma HandlesAsMove(env: Env, e: Event, basedir: string, c: Cursor, included: seq<string>)
    requires TopType(c.stack) !in {Include, IncludeDir}
    ensures HandleEvent(env, e, basedir, c, included) == Advance(c, MoveOf(env, basedir, c.stack, e))
  {
  }

  lemma MoveSteps(env: Env, e: Event, basedir: string, stack: seq<Element>, open: seq<OpenElement>, s: Settings)
    requires Matches(env, stack, open) && IsPlain(e) && MoveOf(env, basedir, stack, e).Ok?
    ensures var move := MoveOf(env, basedir, stack, e).value;
            && Matches(env, move.stack, Opened(open, e))
            && Changes(env, basedir, open, e, s, ApplyEdit(s, move.edit))
  {
    match e
    case Start(name, attributes) =>
      NamesAndTypes(Include, name);
      StartSteps(env, basedir, stack, open, name, attributes, s);
    case End(name) =>
      MatchesLimit(env, stack, open);
      EndMatches(env, stack, open, name);
      EndChanges(env, basedir, stack, open, name, s);
    case Text(content) =>
      MatchesTextKind(env, stack, open);
      TextMatches(env, basedir, stack, open, content);
      TextChanges(env, basedir, stack, open, content, s);
  }

  /** One accepted event. */
  lemma EventSteps(env: Env, e: Event, basedir: string, c: Cursor, included: seq<string>, open: seq<OpenElement>)
    requires Matches(env, c.stack, open) && NoneIncludes(open) && IsPlain(e)
    requires HandleEvent(env, e, basedir, c, included).Ok?
    ensures var c' := HandleEvent(env, e, basedir, c, included).value;
            && Matches(env, c'.stack, Opened(open, e)) && NoneIncludes(Opened(open, e))
            && Changes(env, basedir, open, e, c.settings, c'.settings)
  {
    StillNone(open, e);
    NotIncluding(env, c.stack, open);
    HandlesAsMove(env, e, basedir, c, included);
    MoveSteps(env, e, basedir, c.stack, open, c.settings);
  }

  /** The texts that settings hold after these events. */
  ghost predicate TextsMean(env: Env, basedir: string, open: seq<OpenElement>, events: seq<Event>, s: Settings,
                            s': Settings)
  {
    && s'.listenOn == s.listenOn + TextsOf(open, events, "listen")
    && s'.mechanisms == s.mechanisms + TextsOf(open, events, "auth")
    && s'.user == LastOr(TextsOf(open, events, "user"), s.user)
    && s'.busType == LastOr(TextsOf(open, events, "type"), s.busType)
    && s'.pidfile == LastOr(TextsOf(open, events, "pidfile"), s.pidfile)
    && s'.serviceHelper == LastPathOr(env, basedir, TextsOf(open, events, "servicehelper"), s.serviceHelper)
  }

  predicate FlagsMean(events: seq<Event>, s: Settings, s': Settings) {
    && s'.fork == (s.fork || Occurs(events, "fork")) && s'.syslog == (s.syslog || Occurs(events, "syslog"))
    && s'.keepUmask == (s.keepUmask || Occurs(events, "keep_umask"))
    && s'.allowAnonymous == (s.allowAnonymous || Occurs(events, "allow_anonymous"))
  }

  ghost predicate TablesMean(env: Env, basedir: string, open: seq<OpenElement>, events: seq<Event>, s: Settings,
                             s': Settings)
  {
    && s'.serviceDirs == AppendUnique(s.serviceDirs, DirsOf(env, basedir, open, events)) && s'.confDirs == s.confDirs
    && PutIn(s.limits, s'.limits, LimitsOf(env, open, events)) && PutIn(s.contexts, s'.contexts, ContextsOf(events))
    && forall scope :: RulesFor(s'.policy, scope) == RulesFor(s.policy, scope) + RulesOf(env, open, events, scope)
  }

  lemma LastOfBoth(first: seq<string>, more: seq<string>, before: Option<string>)
    ensures LastOr(first + more, before) == LastOr(more, LastOr(first, before))
  {
  }

  lemma LastPathOfBoth(env: Env, basedir: string, first: seq<string>, more: seq<string>, before: Option<string>)
    ensures LastPathOr(env, basedir, first + more, before)
         == LastPathOr(env, basedir, more, LastPathOr(env, basedir, first, before))
  {
  }

  lemma LastsOn(open: seq<OpenElement>, events: seq<Event>, name: string, before: Option<string>, one: Option<string>,
                after: Option<string>)
    requires events != [] && one == LastOr(TextIn(open, events[0], name), before)
    requires after == LastOr(TextsOf(Opened(open, events[0]), events[1..], name), one)
    ensures after == LastOr(TextsOf(open, events, name), before)
  {
    LastOfBoth(TextIn(open, events[0], name), TextsOf(Opened(open, events[0]), events[1..], name), before);
  }

  lemma ListOn(open: seq<OpenElement>, events: seq<Event>, name: string, before: seq<string>, one: seq<string>,
               after: seq<string>)
    requires events != [] && one == before + TextIn(open, events[0], name)
    requires after == one + TextsOf(Opened(open, events[0]), events[1..], name)
    ensures after == before + TextsOf(open, events, name)
  {
    L.Regroup(before, TextIn(open, events[0], name), TextsOf(Opened(open, events[0]), events[1..], name));
  }

  lemma TextsOn(env: Env, basedir: string, open: seq<OpenElement>, events: seq<Event>, s: Settings, s1: Settings,
                s': Settings)
    requires events != [] && TextsChange(env, basedir, open, events[0], s, s1)
    requires TextsMean(env, basedir, Opened(open, events[0]), events[1..], s1, s')
    ensures TextsMean(env, basedir, open, events, s, s')
  {
    ListOn(open, events, "listen", s.listenOn, s1.listenOn, s'.listenOn);
    ListOn(open, events, "auth", s.mechanisms, s1.mechanisms, s'.mechanisms);
    LastsOn(open, events, "user", s.user, s1.user, s'.user);
    LastsOn(open, events, "type", s.busType, s1.busType, s'.busType);
    LastsOn(open, events, "pidfile", s.pidfile, s1.pidfile, s'.pidfile);
    LastPathOfBoth(env, basedir, TextIn(open, events[0], "servicehelper"),
                   TextsOf(Opened(open, events[0]), events[1..], "servicehelper"), s.serviceHelper);
  }

  lemma OccursOn(events: seq<Event>, name: string)
    requires events != []
    ensures Occurs(events, name) <==> StartsNamed(events[0], name) || Occurs(events[1..], name)
  {
    var rest := events[1..];
    if Occurs(rest, name) {
      var i :| 0 <= i < |rest| && StartsNamed(rest[i], name);
      assert StartsNamed(events[i + 1], name);
    }
    if Occurs(events, name) && !StartsNamed(events[0], name) {
      var i :| 0 <= i < |events| && StartsNamed(events[i], name);
      assert StartsNamed(rest[i - 1], name);
    }
  }

  lemma FlagsOn(events: seq<Event>, s: Settings, s1: Settings, s': Settings)
    requires events != [] && FlagsChange(events[0], s, s1) && FlagsMean(events[1..], s1, s')
    ensures FlagsMean(events, s, s')
  {
    OccursOn(events, "fork");
    OccursOn(events, "syslog");
    OccursOn(events, "keep_umask");
    OccursOn(events, "allow_anonymous");
  }

  lemma {:induction false} LastForBoth<V>(first: seq<(string, V)>, more: seq<(string, V)>, key: string)
    ensures LastFor(first + more, key) == if LastFor(more, key).Some? then LastFor(more, key) else LastFor(first, key)
    decreases |more|
  {
    if more == [] {
      assert first + more == first;
    } else {
      var all := first + more;
      assert all[..|all| - 1] == first + more[..|more| - 1];
      LastForBoth(first, more[..|more| - 1], key);
    }
  }

  lemma PutInBoth<V>(table: map<string, V>, table1: map<string, V>, table': map<string, V>, first: seq<(string, V)>,
                     more: seq<(string, V)>)
    requires PutIn(table, table1, first) && PutIn(table1, table', more)
    ensures PutIn(table, table', first + more)
  {
    forall key ensures LastFor(first + more, key)
                    == if LastFor(more, key).Some? then LastFor(more, key) else LastFor(first, key)
    {
      LastForBoth(first, more, key);
    }
  }

  lemma TablesOn(env: Env, basedir: string, open: seq<OpenElement>, events: seq<Event>, s: Settings, s1: Settings,
                 s': Settings)
    requires events != [] && TablesChange(env, basedir, open, events[0], s, s1)
    requires TablesMean(env, basedir, Opened(open, events[0]), events[1..], s1, s')
    ensures TablesMean(env, basedir, open, events, s, s')
  {
    var (e, rest, open') := (events[0], events[1..], Opened(open, events[0]));
    I.AppendUniqueTwice(s.serviceDirs, DirsIn(env, basedir, open, e), DirsOf(env, basedir, open', rest));
    PutInBoth(s.limits, s1.limits, s'.limits, LimitsIn(env, open, e), LimitsOf(env, open', rest));
    PutInBoth(s.contexts, s1.contexts, s'.contexts, ContextsIn(e), ContextsOf(rest));
    forall scope
      ensures RulesFor(s'.policy, scope) == RulesFor(s.policy, scope) + RulesOf(env, open, events, scope)
    {
      assert RulesFor(s1.policy, scope) == RulesFor(s.policy, scope) + RulesIn(env, open, e, scope);
      L.Regroup(RulesFor(s.policy, scope), RulesIn(env, open, e, scope), RulesOf(env, open', rest, scope));
    }
  }

  lemma NoEvents(env: Env, basedir: string, open: seq<OpenElement>, s: Settings)
    ensures TextsMean(env, basedir, open, [], s, s) && FlagsMean([], s, s) && TablesMean(env, basedir, open, [], s, s)
  {
    NothingPutIn(s.limits);
    NothingPutIn(s.contexts);
  }

  /** From any point of a file on. */
  lemma {:induction false} EventsMean(env: Env, events: seq<Event>, basedir: string, c: Cursor, included: seq<string>,
                                      open: seq<OpenElement>)
    requires Matches(env, c.stack, open) && NoneIncludes(open) && NoIncludes(events)
    ensures var r := RunEvents(env, events, basedir, c, included);
            r.Ok? ==>
              && TextsMean(env, basedir, open, events, c.settings, r.value.settings)
              && FlagsMean(events, c.settings, r.value.settings)
              && TablesMean(env, basedir, open, events, c.settings, r.value.settings)
    decreases |events|
  {
    if events == [] {
      NoEvents(env, basedir, open, c.settings);
    } else {
      var one := HandleEvent(env, events[0], basedir, c, included);
      var r := RunEvents(env, events, basedir, c, included);
      if one.Ok? {
        EventSteps(env, events[0], basedir, c, included, open);
        EventsMean(env, events[1..], basedir, one.value, included, Opened(open, events[0]));
        if r.Ok? {
          TextsOn(env, basedir, open, events, c.settings, one.value.settings, r.value.settings);
          FlagsOn(events, c.settings, one.value.settings, r.value.settings);
          TablesOn(env, basedir, open, events, c.settings, one.value.settings, r.value.settings);
        }
      }
    }
  }

  // ---------------------------------------------------------------------------------------------
  // A whole file

  lemma {:induction false} FirstsAppend(dirs: seq<string>, more: seq<string>)
    ensures AppendUnique(Firsts(dirs), more) == Firsts(dirs + more)
    decreases |more|
  {
    if more == [] {
      assert dirs + more == dirs;
    } else {
      FirstsHas(dirs, more[0]);
      var dirs' := dirs + [more[0]];
      assert dirs'[..|dirs'| - 1] == dirs && dirs' + more[1..] == dirs + more;
      assert Firsts(dirs') == if more[0] in dirs then Firsts(dirs) + [] else Firsts(dirs) + [more[0]];
      assert Firsts(dirs) + [] == Firsts(dirs);
      FirstsAppend(dirs', more[1..]);
    }
  }

  lemma {:induction false} FirstsHas(s: seq<string>, x: string)
    ensures x in Firsts(s) <==> x in s
  {
    if s != [] {
      FirstsHas(s[..|s| - 1], x);
      assert s == s[..|s| - 1] + [s[|s| - 1]];
    }
  }

  /** What a file without includes sets, by the names of its elements. */
  ghost predicate Means(env: Env, basedir: string, events: seq<Event>, limits: map<string, int>, s: Settings) {
    && s.listenOn == TextsOf([], events, "listen") && s.mechanisms == TextsOf([], events, "auth")
    && s.user == LastOr(TextsOf([], events, "user"), None) && s.busType == LastOr(TextsOf([], events, "type"), None)
    && s.pidfile == LastOr(TextsOf([], events, "pidfile"), None)
    && s.serviceHelper == LastPathOr(env, basedir, TextsOf([], events, "servicehelper"), None)
    && (s.fork <==> Occurs(events, "fork")) && (s.syslog <==> Occurs(events, "syslog"))
    && (s.keepUmask <==> Occurs(events, "keep_umask")) && (s.allowAnonymous <==> Occurs(events, "allow_anonymous"))
    && s.serviceDirs == Firsts(DirsOf(env, basedir, [], events)) && s.confDirs == []
    && PutIn(limits, s.limits, LimitsOf(env, [], events)) && PutIn(map[], s.contexts, ContextsOf(events))
    && forall scope :: RulesFor(s.policy, scope) == RulesOf(env, [], events, scope)
  }

  /**
   A file without includes that loads, whatever the limits it inherits: addresses and mechanisms are the texts of listen
   and auth, in order; user, type, pidfile and service helper the last such text; fork, syslog, keep_umask and
   allow_anonymous hold if such an element occurs; service directories are those given and the standard ones, each where
   it comes first; each limit and each context is the one given last, or inherited; and each scope has the rules of its
   policies, in order.
   */
  lemma FileMeans(env: Env, path: string, limits: map<string, int>, included: seq<string>)
    requires path in env.files && env.files[path].Document? && NoIncludes(env.files[path].events)
    ensures Load(env, path, limits, included).Ok? ==>
              Means(env, env.dirname(path), env.files[path].events, limits, Load(env, path, limits, included).value)
  {
    var (events, basedir) := (env.files[path].events, env.dirname(path));
    var start := Cursor([], FreshSettings(limits));
    EventsMean(env, events, basedir, start, included, []);
    var r := RunEvents(env, events, basedir, start, included);
    if Load(env, path, limits, included).Ok? {
      FirstsAppend([], DirsOf(env, basedir, [], events));
      assert [] + DirsOf(env, basedir, [], events) == DirsOf(env, basedir, [], events);
      assert [] + TextsOf([], events, "listen") == TextsOf([], events, "listen");
      assert [] + TextsOf([], events, "auth") == TextsOf([], events, "auth");
      forall scope ensures RulesFor(r.value.settings.policy, scope) == RulesOf(env, [], events, scope) {
        assert RulesFor(map[], scope) + RulesOf(env, [], events, scope) == RulesOf(env, [], events, scope);
      }
    }
  }

  // ---------------------------------------------------------------------------------------------
  // What may be set, and what is included

  const LIMIT_NAMES := {
    "max_incoming_bytes", "max_incoming_unix_fds", "max_outgoing_bytes", "max_outgoing_unix_fds", "max_message_size",
    "max_message_unix_fds", "service_start_timeout", "auth_timeout", "reply_timeout", "max_completed_connections",
    "max_incomplete_connections", "max_connections_per_user", "max_pending_service_starts", "max_names_per_connection",
    "max_match_rules_per_connection", "max_replies_per_connection"}

  /** A limit that exists, not negative, and an int unless it counts bytes or descriptors of messages. */
  predicate InRange(limit: (string, int)) {
    && limit.0 in LIMIT_NAMES && 0 <= limit.1
    && (limit.1 <= 0x7fff_ffff
        || limit.0 in {"max_incoming_bytes", "max_incoming_unix_fds", "max_outgoing_bytes", "max_outgoing_unix_fds",
                       "max_message_size", "max_message_unix_fds"})
  }

  lemma AllowedIffInRange(name: string, value: int)
    ensures LimitAllowed(name, value) <==> InRange((name, value))
  {
    assert DEFAULT_LIMITS.Keys == LIMIT_NAMES;
  }

  /** A limit element is accepted at its end if and only if it had a number that is in range. */
  lemma LimitEnds(env: Env, stack: seq<Element>, open: seq<OpenElement>)
    requires Matches(env, stack, open) && IsIn(open, "limit")
    ensures var limit := (ValueOf(open[|open| - 1].attributes, "name"), stack[|stack| - 1].limitValue);
            EndElement(stack, "limit").Ok? <==> stack[|stack| - 1].hadContent && InRange(limit)
  {
    MatchesLimit(env, stack, open);
    var x := stack[|stack| - 1];
    NamesAndTypes(x.kind, "limit");
    AllowedIffInRange(x.limitName, x.limitValue);
  }

  predicate Yes(attributes: seq<Attribute>, name: string) {
    ValueOf(attributes, name) == "yes"
  }

  lemma {:induction false} NoValue(attributes: seq<Attribute>, name: string)
    requires forall a :: a in attributes ==> a.name != name
    ensures ValueOf(attributes, name) == ""
  {
    if attributes != [] {
      assert attributes[0] in attributes;
      NoValue(attributes[1..], name);
    }
  }

  lemma LocatedYes(attributes: seq<Attribute>, found: map<string, string>, name: string)
    requires Located(attributes, map[], found)
    ensures YesOrNo(found, name).Some? ==> (YesOrNo(found, name).value <==> Yes(attributes, name))
  {
    if name !in found {
      forall a | a in attributes ensures a.name != name { assert a.name in found; }
      NoValue(attributes, name);
    } else if found[name] == "no" {
      assert |"no"| == 2 && |"yes"| == 3;
    }
  }

  /** Which file an include element names, by its attributes and its text; none if it is for SELinux and that is off. */
  lemma IncludeTarget(env: Env, basedir: string, stack: seq<Element>, attributes: seq<Attribute>, content: string)
    requires StartInclude(stack, attributes).Ok?
    ensures var pushed := StartInclude(stack, attributes).value.stack;
            && |pushed| == |stack| + 1
            && var x := pushed[|stack|];
            && x.kind == Include && !x.hadContent && (x.ignoreMissing <==> Yes(attributes, "ignore_missing"))
            && IncludePath(env, basedir, x, content)
               == if Yes(attributes, "if_selinux_enabled") && !env.selinuxEnabled then Ok(None)
                  else if !Yes(attributes, "selinux_root_relative") then Ok(Some(env.fullPath(basedir, content)))
                  else if env.policyRoot.None? then Err(Failed)
                  else Ok(Some(env.fullPath(env.policyRoot.value, content)))
  {
    var names := {"ignore_missing", "if_selinux_enabled", "selinux_root_relative"};
    LocateFinds(attributes, names, map[]);
    var found := Locate(attributes, names, map[]).value;
    LocatedYes(attributes, found, "ignore_missing");
    LocatedYes(attributes, found, "if_selinux_enabled");
    LocatedYes(attributes, found, "selinux_root_relative");
  }

  /** Of a directory, exactly the names that end in .conf are included. */
  lemma ConfFiles(path: string)
    ensures IsConfFile(path) <==> exists stem :: path == stem + ".conf"
  {
    if IsConfFile(path) { assert path == path[..|path| - 5] + ".conf"; }
    forall stem | path == stem + ".conf" ensures IsConfFile(path) { assert path[|path| - 5..] == ".conf"; }
  }

  // ---------------------------------------------------------------------------------------------
  // The trivial parser

  predicate IsTrimmed(s: string) {
    s == "" || (!IsWhite(s[0]) && !IsWhite(s[|s| - 1]))
  }

  lemma {:induction false} ChopsLeft(s: string) returns (before: string)
    ensures s == before + S.ChopLeft(s) && AllWhitespace(before)
    ensures S.ChopLeft(s) == "" || !IsWhite(S.ChopLeft(s)[0])
  {
    before := "";
    if s != [] && IsWhite(s[0]) {
      var more := ChopsLeft(s[1..]);
      before := [s[0]] + more;
    }
  }

  lemma {:induction false} ChopsRight(s: string) returns (after: string)
    ensures s == S.ChopRight(s) + after && AllWhitespace(after)
    ensures S.ChopRight(s) == "" || !IsWhite(S.ChopRight(s)[|S.ChopRight(s)| - 1])
  {
    after := "";
    if s != [] && IsWhite(s[|s| - 1]) {
      var more := ChopsRight(s[..|s| - 1]);
      after := more + [s[|s| - 1]];
    }
  }

  /** Chopping takes the white space off both ends, and no more. */
  lemma ChopTrims(s: string) returns (before: string, after: string)
    ensures s == before + S.Chop(s) + after && AllWhitespace(before) && AllWhitespace(after) && IsTrimmed(S.Chop(s))
  {
    before := ChopsLeft(s);
    after := ChopsRight(S.ChopLeft(s));
    if S.Chop(s) != "" { assert S.Chop(s)[0] == S.ChopLeft(s)[0]; }
    assert before + S.Chop(s) + after == before + (S.Chop(s) + after);
  }

  /** The texts, without the white space around them, that come while the element that started last has that name. */
  function TextsAfter(last: string, events: seq<Event>, name: string): seq<string>
    decreases |events|
  {
    if events == [] then []
    else match events[0]
      case Start(next, _) => TextsAfter(next, events[1..], name)
      case End(_) => TextsAfter(last, events[1..], name)
      case Text(text) =>
        (if last == name && S.Chop(text) != "" then [S.Chop(text)] else []) + TextsAfter(last, events[1..], name)
  }

  /** The later ones first. */
  function Backwards(texts: seq<string>): string {
    if texts == [] then "" else Backwards(texts[1..]) + texts[0]
  }

  lemma {:induction false} BackwardsAppend(first: seq<string>, more: seq<string>)
    ensures Backwards(first + more) == Backwards(more) + Backwards(first)
    decreases |first|
  {
    if first == [] {
      assert first + more == more;
      assert Backwards(more) + "" == Backwards(more);
    } else {
      assert (first + more)[1..] == first[1..] + more;
      BackwardsAppend(first[1..], more);
      L.Regroup(Backwards(more), Backwards(first[1..]), first[0]);
    }
  }

  /** What the trivial parser holds of a text that is set. */
  ghost predicate Holds(before: string, after: string, texts: seq<string>) {
    after == Backwards(texts) + before
  }

  lemma HoldsOn(before: string, one: string, after: string, first: seq<string>, more: seq<string>)
    requires Holds(before, one, first) && Holds(one, after, more)
    ensures Holds(before, after, first + more)
  {
    BackwardsAppend(first, more);
    L.Regroup(Backwards(more), Backwards(first), before);
  }

  /**
   The trivial parser puts together the texts that come while user, type or servicehelper was the last element that
   started, the latest in front.
   */
  lemma {:induction false} TrivialMeans(env: Env, t: S.Trivial, events: seq<Event>, last: string)
    requires t.kind == NameToType(last)
    ensures var t' := S.TrivialEvents(env, t, events);
            && Holds(t.user, t'.user, TextsAfter(last, events, "user"))
            && Holds(t.busType, t'.busType, TextsAfter(last, events, "type"))
            && Holds(t.serviceHelper, t'.serviceHelper, TextsAfter(last, events, "servicehelper"))
    decreases |events|
  {
    if events == [] {
      assert "" + t.user == t.user && "" + t.busType == t.busType && "" + t.serviceHelper == t.serviceHelper;
    } else {
      var one := S.TrivialEvent(env, t, events[0]);
      var next := if events[0].Start? then events[0].name else last;
      TrivialMeans(env, one, events[1..], next);
      TextNames(last);
      TrivialOn(env, t, events, last);
    }
  }

  lemma TrivialOn(env: Env, t: S.Trivial, events: seq<Event>, last: string)
    requires events != []
    requires (last == "user" <==> t.kind == User) && (last == "type" <==> t.kind == ConfigType)
    requires last == "servicehelper" <==> t.kind == ServiceHelper
    requires var (one, rest) := (S.TrivialEvent(env, t, events[0]), events[1..]);
             var next := if events[0].Start? then events[0].name else last;
             var t' := S.TrivialEvents(env, one, rest);
             && Holds(one.user, t'.user, TextsAfter(next, rest, "user"))
             && Holds(one.busType, t'.busType, TextsAfter(next, rest, "type"))
             && Holds(one.serviceHelper, t'.serviceHelper, TextsAfter(next, rest, "servicehelper"))
    ensures var t' := S.TrivialEvents(env, t, events);
            && Holds(t.user, t'.user, TextsAfter(last, events, "user"))
            && Holds(t.busType, t'.busType, TextsAfter(last, events, "type"))
            && Holds(t.serviceHelper, t'.serviceHelper, TextsAfter(last, events, "servicehelper"))
  {
    var (one, rest) := (S.TrivialEvent(env, t, events[0]), events[1..]);
    var t' := S.TrivialEvents(env, one, rest);
    if events[0].Text? {
      TextHeld(t.user, one.user, t'.user, last, events, "user");
      TextHeld(t.busType, one.busType, t'.busType, last, events, "type");
      TextHeld(t.serviceHelper, one.serviceHelper, t'.serviceHelper, last, events, "servicehelper");
    }
  }

  /** One text, in front of what was held or not at all. */
  lemma TextHeld(before: string, one: string, after: string, last: string, events: seq<Event>, name: string)
    requires events != [] && events[0].Text? && Holds(one, after, TextsAfter(last, events[1..], name))
    requires one == if last == name then S.Chop(events[0].content) + before else before
    ensures Holds(before, after, TextsAfter(last, events, name))
  {
    var text := S.Chop(events[0].content);
    if last == name && text != "" {
      assert [text][1..] == [] && Backwards([text]) == "" + text;
      HoldsOn(before, one, after, [text], TextsAfter(last, events[1..], name));
    } else {
      assert "" + before == before;
      assert [] + TextsAfter(last, events[1..], name) == TextsAfter(last, events[1..], name);
    }
  }

  predicate IsStandard(e: Event) {
    StartsNamed(e, "standard_system_servicedirs")
  }

  /** Its directories are those given and the standard system ones; without those they are in order, repeated or not. */
  lemma {:induction false} TrivialDirs(env: Env, t: S.Trivial, events: seq<Event>, last: string)
    requires t.kind == NameToType(last)
    ensures var dirs := S.TrivialEvents(env, t, events).serviceDirs;
            && (!Occurs(events, "standard_system_servicedirs") ==>
                  dirs == t.serviceDirs + TextsAfter(last, events, "servicedir"))
            && forall d :: d in dirs <==> d in t.serviceDirs || d in TextsAfter(last, events, "servicedir")
                                          || (Occurs(events, "standard_system_servicedirs") && d in env.systemDirs)
    decreases |events|
  {
    if events != [] {
      var one := S.TrivialEvent(env, t, events[0]);
      var next := if events[0].Start? then events[0].name else last;
      TrivialDirs(env, one, events[1..], next);
      TrivialDirsStep(env, t, events[0], last);
      OccursOn(events, "standard_system_servicedirs");
      GivenFirst(events, last);
      DirsJoin(t.serviceDirs, one.serviceDirs, S.TrivialEvents(env, t, events).serviceDirs, DirGiven(events[0], last),
               TextsAfter(next, events[1..], "servicedir"), env.systemDirs, IsStandard(events[0]),
               Occurs(events[1..], "standard_system_servicedirs"));
    } else {
      assert t.serviceDirs + [] == t.serviceDirs;
    }
  }

  lemma GivenFirst(events: seq<Event>, last: string)
    requires events != []
    ensures TextsAfter(last, events, "servicedir")
         == DirGiven(events[0], last)
            + TextsAfter(if events[0].Start? then events[0].name else last, events[1..], "servicedir")
  {
    var more := TextsAfter(if events[0].Start? then events[0].name else last, events[1..], "servicedir");
    assert [] + more == more;
  }

  lemma DirsJoin(before: seq<string>, one: seq<string>, after: seq<string>, given: seq<string>, more: seq<string>,
                 system: seq<string>, first: bool, later: bool)
    requires (!first ==> one == before + given) && (!later ==> after == one + more)
    requires forall d :: d in one <==> d in before || d in given || (first && d in system)
    requires forall d :: d in after <==> d in one || d in more || (later && d in system)
    ensures !first && !later ==> after == before + (given + more)
    ensures forall d :: d in after <==> d in before || d in given + more || ((first || later) && d in system)
  {
    L.Regroup(before, given, more);
  }

  /** The directory that an event gives. */
  function DirGiven(e: Event, last: string): seq<string> {
    if e.Text? && last == "servicedir" && S.Chop(e.content) != "" then [S.Chop(e.content)] else []
  }

  lemma TrivialDirsStep(env: Env, t: S.Trivial, e: Event, last: string)
    requires t.kind == NameToType(last)
    ensures var one := S.TrivialEvent(env, t, e);
            && (!IsStandard(e) ==> one.serviceDirs == t.serviceDirs + DirGiven(e, last))
            && forall d :: d in one.serviceDirs
                           <==> d in t.serviceDirs || d in DirGiven(e, last) || (IsStandard(e) && d in env.systemDirs)
  {
    match e
    case Start(name, _) =>
      NamesAndTypes(StandardSystemServiceDirs, name);
      forall d { I.AppendUniqueHas(t.serviceDirs, env.systemDirs, d); }
      assert t.serviceDirs + [] == t.serviceDirs;
    case End(_) => assert t.serviceDirs + [] == t.serviceDirs;
    case Text(_) =>
      NamesAndTypes(ServiceDir, last);
      assert t.serviceDirs + [] == t.serviceDirs;
  }
}
