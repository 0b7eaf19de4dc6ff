/**
 The bus configuration parser, as functions on values: an element stack driven by XML events, settings that each
 accepted event edits, and includes that are parsed on their own and merged.
 */
module ConfigParser {
  import opened BusTypes
  import opened ConfigElements

  datatype Attribute = Attribute(name: string, value: string)

  datatype Event = Start(name: string, attributes: seq<Attribute>) | End(name: string) | Text(content: string)

  /** DBUS_ERROR_FILE_NOT_FOUND and every other error; Aborted is a failed assertion. */
  datatype ConfigError = FileNotFound | Failed | Aborted

  datatype Result<+T> = Ok(value: T) | Err(error: ConfigError)

  // ---------------------------------------------------------------------------------------------
  // Settings

  datatype Scope = Ignored | Default | Mandatory | ForUser(uid: nat) | ForGroup(gid: nat) | AtConsole(yes: bool)

  // A security rule is only carried.
  type Rule = string
  type Policies = map<Scope, seq<Rule>>

  datatype Settings = Settings(
    user: Option<string>, busType: Option<string>, pidfile: Option<string>, fork: bool, keepUmask: bool,
    listenOn: seq<string>, mechanisms: seq<string>, serviceDirs: seq<string>, confDirs: seq<string>,
    contexts: map<string, string>, policy: Policies, limits: map<string, int>,
    serviceHelper: Option<string>, syslog: bool, allowAnonymous: bool)

  /** What one event does to the settings. */
  datatype Edit =
    | NoEdit
    | SetUser(text: string) | SetType(text: string) | SetPidfile(text: string) | SetServiceHelper(text: string)
    | SetFork | SetSyslog | SetKeepUmask | SetAllowAnonymous
    | AddListen(text: string) | AddMechanism(text: string)
    | AddServiceDirs(dirs: seq<string>) | AddConfDir(text: string)
    | AddContext(own: string, context: string)
    | AddRule(scope: Scope, rule: Rule)
    | SetLimit(limit: string, value: int)

  /** `service_dirs_append_unique_or_free`, for each directory in turn. */
  function AppendUnique(dirs: seq<string>, more: seq<string>): seq<string>
    decreases |more|
  {
    if more == [] then dirs
    else AppendUnique(if more[0] in dirs then dirs else dirs + [more[0]], more[1..])
  }

  function RulesFor(policy: Policies, scope: Scope): seq<Rule> {
    if scope in policy then policy[scope] else []
  }

  function ApplyEdit(s: Settings, e: Edit): Settings {
    match e
    case NoEdit => s
    case SetUser(text) => s.(user := Some(text))
    case SetType(text) => s.(busType := Some(text))
    case SetPidfile(text) => s.(pidfile := Some(text))
    case SetServiceHelper(text) => s.(serviceHelper := Some(text))
    case SetFork => s.(fork := true)
    case SetSyslog => s.(syslog := true)
    case SetKeepUmask => s.(keepUmask := true)
    case SetAllowAnonymous => s.(allowAnonymous := true)
    case AddListen(text) => s.(listenOn := s.listenOn + [text])
    case AddMechanism(text) => s.(mechanisms := s.mechanisms + [text])
    case AddServiceDirs(dirs) => s.(serviceDirs := AppendUnique(s.serviceDirs, dirs))
    case AddConfDir(text) => s.(confDirs := s.confDirs + [text])
    case AddContext(own, context) => s.(contexts := s.contexts[own := context])
    case AddRule(scope, rule) => s.(policy := s.policy[scope := RulesFor(s.policy, scope) + [rule]])
    case SetLimit(limit, value) => s.(limits := s.limits[limit := value])
  }

  /** A parser's settings before its first event; the limits are the parent's, or the defaults. */
  function FreshSettings(limits: map<string, int>): Settings {
    Settings(None, None, None, false, false, [], [], [], [], map[], map[], limits, None, false, false)
  }

  const MEGABYTE := 1024 * 1024

  const DEFAULT_LIMITS: map<string, int> := map[
    "max_incoming_bytes" := MEGABYTE * 127, "max_outgoing_bytes" := MEGABYTE * 127, "max_message_size" := MEGABYTE * 32,
    "max_incoming_unix_fds" := 1024 * 4, "max_outgoing_unix_fds" := 1024 * 4, "max_message_unix_fds" := 1024,
    "service_start_timeout" := 25000, "auth_timeout" := 30000, "max_incomplete_connections" := 64,
    "max_connections_per_user" := 256, "max_completed_connections" := 2048, "max_pending_service_starts" := 512,
    "max_names_per_connection" := 512, "max_match_rules_per_connection" := 512, "reply_timeout" := -1,
    "max_replies_per_connection" := 1024 * 8]

  const BYTE_LIMITS := {"max_incoming_bytes", "max_incoming_unix_fds", "max_outgoing_bytes", "max_outgoing_unix_fds",
                        "max_message_size", "max_message_unix_fds"}
  const INT_MAX := 0x7fff_ffff

  /** `set_limit`: the checks; every limit must be positive, and those that are not `long` must fit an int. */
  predicate LimitAllowed(name: string, value: int) {
    name in DEFAULT_LIMITS && value >= 0 && (name in BYTE_LIMITS || value <= INT_MAX)
  }

  // ---------------------------------------------------------------------------------------------
  // The world outside

  datatype RuleVerdict = RuleRejected | RuleDropped | RuleMade(rule: Rule, perClient: bool)

  /** A file that can be read, or not; the events of one that is not well-formed end at the error. */
  datatype Document = Document(events: seq<Event>, wellFormed: bool) | Unreadable(error: ConfigError)

  /** A directory's entries in readdir order, and the error that ends the listing if there is one. */
  datatype Listing = Listing(names: seq<string>, error: Option<ConfigError>) | Unopenable(openError: ConfigError)

  datatype Env = Env(
    files: map<string, Document>, dirs: map<string, Listing>,
    dirname: string -> string, fullPath: (string, string) -> string,
    parseInt: string -> Option<int>, findUser: string -> Option<nat>, findGroup: string -> Option<nat>,
    makeRule: (bool, seq<Attribute>) -> RuleVerdict,
    selinuxEnabled: bool, policyRoot: Option<string>, sessionDirs: seq<string>, systemDirs: seq<string>)

  // ---------------------------------------------------------------------------------------------
  // The element stack; its top is the last element

  datatype Element = Element(kind: ElementType, hadContent: bool, ignoreMissing: bool, ifSELinuxEnabled: bool,
                             selinuxRootRelative: bool, scope: Scope, limitName: string, limitValue: int)

  function NewElement(kind: ElementType): Element {
    Element(kind, false, false, false, false, Ignored, "", 0)
  }

  function TopType(stack: seq<Element>): ElementType {
    if stack == [] then NoElement else stack[|stack| - 1].kind
  }

  /** The stack after an event, and what the event does to the settings. */
  datatype Move = Move(stack: seq<Element>, edit: Edit)

  /** `locate_attributes` */
  function Locate(attributes: seq<Attribute>, allowed: set<string>, found: map<string, string>)
    : Result<map<string, string>>
    decreases |attributes|
  {
    if attributes == [] then Ok(found)
    else
      var a := attributes[0];
      if a.name !in allowed || a.name in found then Err(Failed)
      else Locate(attributes[1..], allowed, found[a.name := a.value])
  }

  /** A yes-or-no attribute that defaults to no; None is any other value. */
  function YesOrNo(found: map<string, string>, name: string): Option<bool> {
    if name !in found then Some(false)
    else if found[name] == "yes" then Some(true)
    else if found[name] == "no" then Some(false)
    else None
  }

  function StartInclude(stack: seq<Element>, attributes: seq<Attribute>): Result<Move> {
    match Locate(attributes, {"ignore_missing", "if_selinux_enabled", "selinux_root_relative"}, map[])
    case Err(e) => Err(e)
    case Ok(found) =>
      var missing, selinux, relative :=
        YesOrNo(found, "ignore_missing"), YesOrNo(found, "if_selinux_enabled"), YesOrNo(found, "selinux_root_relative");
      if missing.None? || selinux.None? || relative.None? then Err(Failed)
      else
        var e := NewElement(Include).(ignoreMissing := missing.value, ifSELinuxEnabled := selinux.value,
                                      selinuxRootRelative := relative.value);
        Ok(Move(stack + [e], NoEdit))
  }

  /** The scope of a policy element; unknown users and groups are ignored with a warning. */
  function PolicyScope(env: Env, found: map<string, string>): Option<Scope> {
    if |found| != 1 then None
    else if "context" in found then
      if found["context"] == "default" then Some(Default)
      else if found["context"] == "mandatory" then Some(Mandatory)
      else None
    else if "user" in found then
      Some(match env.findUser(found["user"]) case Some(uid) => ForUser(uid) case None => Ignored)
    else if "group" in found then
      Some(match env.findGroup(found["group"]) case Some(gid) => ForGroup(gid) case None => Ignored)
    else if "at_console" in found && found["at_console"] in {"true", "false"} then
      Some(AtConsole(found["at_console"] == "true"))
    else None
  }

  /** `start_busconfig_child` */
  function StartChild(env: Env, stack: seq<Element>, name: string, attributes: seq<Attribute>): Result<Move> {
    var kind := NameToType(name);
    match kind
    case Include => StartInclude(stack, attributes)
    case Policy => (
      match Locate(attributes, {"context", "user", "group", "at_console"}, map[])
      case Err(e) => Err(e)
      case Ok(found) =>
        var scope := PolicyScope(env, found);
        if scope.None? then Err(Failed) else Ok(Move(stack + [NewElement(Policy).(scope := scope.value)], NoEdit)))
    case Limit => (
      match Locate(attributes, {"name"}, map[])
      case Err(e) => Err(e)
      case Ok(found) =>
        if "name" !in found then Err(Failed)
        else Ok(Move(stack + [NewElement(Limit).(limitName := found["name"])], NoEdit)))
    case User | ConfigType | Fork | Syslog | KeepUmask | PidFile | Listen | Auth | ServiceHelper | IncludeDir
       | StandardSessionServiceDirs | StandardSystemServiceDirs | AllowAnonymous | ServiceDir | SELinux =>
      if attributes != [] then Err(Failed) else Ok(Move(stack + [NewElement(kind)], EditAtStart(env, kind)))
    case _ => Err(Failed)
  }

  /** The elements whose mere presence is the setting. */
  function EditAtStart(env: Env, kind: ElementType): Edit {
    match kind
    case Fork => SetFork
    case Syslog => SetSyslog
    case KeepUmask => SetKeepUmask
    case AllowAnonymous => SetAllowAnonymous
    case StandardSessionServiceDirs => AddServiceDirs(env.sessionDirs)
    case StandardSystemServiceDirs => AddServiceDirs(env.systemDirs)
    case _ => NoEdit
  }

  /** `start_policy_child` and the end of `append_rule_from_element` */
  function StartRule(env: Env, stack: seq<Element>, name: string, attributes: seq<Attribute>): Result<Move>
    requires stack != []
  {
    if name !in {"allow", "deny"} then Err(Failed)
    else
      var scope := stack[|stack| - 1].scope;
      var pushed := stack + [NewElement(if name == "allow" then Allow else Deny)];
      match env.makeRule(name == "allow", attributes)
      case RuleRejected => Err(Failed)
      case RuleDropped => Ok(Move(pushed, NoEdit))
      case RuleMade(rule, perClient) =>
        if scope == Ignored then Ok(Move(pushed, NoEdit))
        else if (scope.ForUser? || scope.ForGroup?) && !perClient then Err(Failed)
        else Ok(Move(pushed, AddRule(scope, rule)))
  }

  /** `start_selinux_child` */
  function StartAssociate(stack: seq<Element>, name: string, attributes: seq<Attribute>): Result<Move> {
    if name != "associate" then Err(Failed)
    else match Locate(attributes, {"own", "context"}, map[])
      case Err(e) => Err(e)
      case Ok(found) =>
        if "own" !in found || "context" !in found then Err(Failed)
        else Ok(Move(stack + [NewElement(Associate)], AddContext(found["own"], found["context"])))
  }

  /** `bus_config_parser_start_element` */
  function StartElement(env: Env, stack: seq<Element>, name: string, attributes: seq<Attribute>): Result<Move> {
    match TopType(stack)
    case NoElement =>
      if name == "busconfig" && attributes == [] then Ok(Move(stack + [NewElement(BusConfig)], NoEdit)) else Err(Failed)
    case BusConfig => StartChild(env, stack, name, attributes)
    case Policy => StartRule(env, stack, name, attributes)
    case SELinux => StartAssociate(stack, name, attributes)
    case _ => Err(Failed)
  }

  /** The elements that must have text inside. */
  const CONTENT_ELEMENTS: set<ElementType> :=
    {Include, User, ConfigType, Listen, PidFile, Auth, ServiceDir, ServiceHelper, IncludeDir, Limit}

  /** `bus_config_parser_end_element` */
  function EndElement(stack: seq<Element>, name: string): Result<Move> {
    if TopType(stack) == NoElement || TypeToName(TopType(stack)) != name then Err(Failed)
    else
      var e := stack[|stack| - 1];
      var popped := stack[..|stack| - 1];
      if e.kind in CONTENT_ELEMENTS && !e.hadContent then Err(Failed)
      else if e.kind != Limit then Ok(Move(popped, NoEdit))
      else if LimitAllowed(e.limitName, e.limitValue) then Ok(Move(popped, SetLimit(e.limitName, e.limitValue)))
      else Err(Failed)
  }

  predicate IsWhite(c: char) {
    c in {' ', '\t', '\n', '\r'}
  }

  predicate AllWhitespace(s: string) {
    forall i :: 0 <= i < |s| ==> IsWhite(s[i])
  }

  function MarkContent(stack: seq<Element>): seq<Element>
    requires stack != []
  {
    stack[|stack| - 1 := stack[|stack| - 1].(hadContent := true)]
  }

  /** `bus_config_parser_content` for every element that does not include another file. */
  function PlainContent(env: Env, basedir: string, stack: seq<Element>, content: string): Result<Move> {
    if stack == [] then Err(Failed)
    else
      var e := stack[|stack| - 1];
      if e.hadContent then Err(Aborted)
      else
        match e.kind
        case PidFile => Ok(Move(MarkContent(stack), SetPidfile(content)))
        case User => Ok(Move(MarkContent(stack), SetUser(content)))
        case ConfigType => Ok(Move(MarkContent(stack), SetType(content)))
        case Listen => Ok(Move(MarkContent(stack), AddListen(content)))
        case Auth => Ok(Move(MarkContent(stack), AddMechanism(content)))
        case ServiceHelper => Ok(Move(MarkContent(stack), SetServiceHelper(env.fullPath(basedir, content))))
        case ServiceDir => Ok(Move(MarkContent(stack), AddServiceDirs([env.fullPath(basedir, content)])))
        case Limit => (
          match env.parseInt(content)
          case None => Err(Failed)
          case Some(value) => Ok(Move(MarkContent(stack)[|stack| - 1 := e.(hadContent := true, limitValue := value)],
                                      NoEdit)))
        case NoElement => Err(Aborted)
        case _ => if AllWhitespace(content) then Ok(Move(stack, NoEdit)) else Err(Failed)
  }

  // ---------------------------------------------------------------------------------------------
  // Includes, as coded: the included file is parsed by a parser of its own and merged

  function Override(a: Option<string>, b: Option<string>): Option<string> {
    if b.Some? then b else a
  }

  /** `bus_policy_merge` */
  function MergePolicies(a: Policies, b: Policies): Policies {
    map scope | scope in a.Keys + b.Keys :: RulesFor(a, scope) + RulesFor(b, scope)
  }

  /** `merge_included`, then the included limits copied back. */
  function MergeIncluded(s: Settings, included: Settings): Settings {
    s.(user := Override(s.user, included.user), busType := Override(s.busType, included.busType),
       pidfile := Override(s.pidfile, included.pidfile),
       fork := s.fork || included.fork, keepUmask := s.keepUmask || included.keepUmask,
       listenOn := s.listenOn + included.listenOn, mechanisms := s.mechanisms + included.mechanisms,
       serviceDirs := AppendUnique(s.serviceDirs, included.serviceDirs), confDirs := s.confDirs + included.confDirs,
       contexts := s.contexts + included.contexts, policy := MergePolicies(s.policy, included.policy),
       limits := included.limits)
  }

  datatype Cursor = Cursor(stack: seq<Element>, settings: Settings)

  /** The files that can still be included: inclusion stops because this set shrinks. */
  ghost function Unseen(env: Env, included: seq<string>): set<string> {
    env.files.Keys - set path | path in included
  }

  lemma UnseenShrinks(env: Env, included: seq<string>, path: string)
    requires path in env.files && path !in included
    ensures Unseen(env, included + [path]) < Unseen(env, included)
  {
    assert path in Unseen(env, included) && path !in Unseen(env, included + [path]);
  }

  function Advance(c: Cursor, move: Result<Move>): Result<Cursor> {
    match move
    case Err(e) => Err(e)
    case Ok(m) => Ok(Cursor(m.stack, ApplyEdit(c.settings, m.edit)))
  }

  /** Where an include element points, or its error; None means it is skipped. */
  function IncludePath(env: Env, basedir: string, e: Element, content: string): Result<Option<string>> {
    if e.ifSELinuxEnabled && !env.selinuxEnabled then Ok(None)
    else if e.selinuxRootRelative then
      if env.policyRoot.None? then Err(Failed) else Ok(Some(env.fullPath(env.policyRoot.value, content)))
    else Ok(Some(env.fullPath(basedir, content)))
  }

  predicate IsConfFile(path: string) {
    |path| >= 5 && path[|path| - 5..] == ".conf"
  }

  /** `bus_config_load` below the top level: the settings of the included file alone. */
  function Load(env: Env, path: string, limits: map<string, int>, included: seq<string>): Result<Settings>
    requires path in env.files
    decreases Unseen(env, included), 4, 0
  {
    match env.files[path]
    case Unreadable(e) => Err(e)
    case Document(events, wellFormed) =>
      match RunEvents(env, events, env.dirname(path), Cursor([], FreshSettings(limits)), included)
      case Err(e) => Err(e)
      case Ok(c) => if wellFormed && c.stack == [] then Ok(c.settings) else Err(Failed)
  }

  function RunEvents(env: Env, events: seq<Event>, basedir: string, c: Cursor, included: seq<string>): Result<Cursor>
    decreases Unseen(env, included), 3, |events|
  {
    if events == [] then Ok(c)
    else match HandleEvent(env, events[0], basedir, c, included)
      case Err(e) => Err(e)
      case Ok(c') => RunEvents(env, events[1..], basedir, c', included)
  }

  function HandleEvent(env: Env, event: Event, basedir: string, c: Cursor, included: seq<string>): Result<Cursor>
    decreases Unseen(env, included), 2, 0
  {
    match event
    case Start(name, attributes) => Advance(c, StartElement(env, c.stack, name, attributes))
    case End(name) => Advance(c, EndElement(c.stack, name))
    case Text(content) =>
      if c.stack == [] || c.stack[|c.stack| - 1].hadContent || TopType(c.stack) !in {Include, IncludeDir} then
        Advance(c, PlainContent(env, basedir, c.stack, content))
      else
        var included' := if TopType(c.stack) == Include
                         then IncludeContent(env, basedir, c, content, included)
                         else IncludeDirectory(env, env.fullPath(basedir, content), c.settings, included);
        match included'
        case Err(e) => Err(e)
        case Ok(s) => Ok(Cursor(MarkContent(c.stack), s))
  }

  function IncludeContent(env: Env, basedir: string, c: Cursor, content: string,
                          included: seq<string>)
    : Result<Settings>
    requires c.stack != []
    decreases Unseen(env, included), 1, 0
  {
    var e := c.stack[|c.stack| - 1];
    match IncludePath(env, basedir, e, content)
    case Err(e) => Err(e)
    case Ok(None) => Ok(c.settings)
    case Ok(Some(path)) => IncludeFile(env, path, e.ignoreMissing, c.settings, included)
  }

  /** `include_file` */
  function IncludeFile(env: Env, path: string, ignoreMissing: bool, s: Settings,
                       included: seq<string>)
    : Result<Settings>
    decreases Unseen(env, included), 0, 0
  {
    if path in included then Err(Failed)
    else
      var loaded := if path in env.files
                    then UnseenShrinks(env, included, path); Load(env, path, s.limits, included + [path])
                    else Err(FileNotFound);
      match loaded
      case Err(e) => if e == FileNotFound && ignoreMissing then Ok(s) else Err(e)
      case Ok(child) => Ok(MergeIncluded(s, child))
  }

  /** `include_dir`: files that cannot be included are only logged. */
  function IncludeDirectory(env: Env, dir: string, s: Settings, included: seq<string>): Result<Settings>
    decreases Unseen(env, included), 1, 1
  {
    if dir !in env.dirs then Err(FileNotFound)
    else match env.dirs[dir]
      case Unopenable(e) => Err(e)
      case Listing(names, error) =>
        var s' := IncludeNames(env, dir, names, s, included);
        if error.Some? then Err(error.value) else Ok(ApplyEdit(s', AddConfDir(dir)))
  }

  function IncludeNames(env: Env, dir: string, names: seq<string>, s: Settings, included: seq<string>): Settings
    decreases Unseen(env, included), 1, 0, |names|
  {
    if names == [] then s
    else
      var path := env.fullPath(dir, names[0]);
      var s' := if !IsConfFile(path) then s
                else match IncludeFile(env, path, true, s, included)
                     case Err(_) => s
                     case Ok(s') => s';
      IncludeNames(env, dir, names[1..], s', included)
  }

  /** `bus_config_load` at the top level. */
  function LoadTop(env: Env, path: string): Result<Settings> {
    if path !in env.files then Err(FileNotFound)
    else match Load(env, path, DEFAULT_LIMITS, [])
      case Err(e) => Err(e)
      case Ok(s) => if s.listenOn == [] then Err(Failed) else Ok(s)
  }
}
