/** The two `BusConfigParser` objects: fields changed in place by each event. */
module BusConfigParser {
  import opened BusTypes
  import opened ConfigElements
  import opened ConfigParser
  import opened ConfigStack
  import opened Lists

  class Parser {
    const basedir: string
    var stack: seq<Element>
    var user: Option<string>
    var serviceHelper: Option<string>
    var busType: Option<string>
    var listenOn: seq<string>
    var mechanisms: seq<string>
    var serviceDirs: seq<string>
    var confDirs: seq<string>
    var policy: Policies
    var limits: map<string, int>
    var pidfile: Option<string>
    var includedFiles: seq<string>
    var contexts: map<string, string>
    var fork: bool
    var syslog: bool
    var keepUmask: bool
    var allowAnonymous: bool

    ghost function Settings(): Settings
      reads this
    {
      ConfigParser.Settings(user, busType, pidfile, fork, keepUmask, listenOn, mechanisms, serviceDirs, confDirs,
                            contexts, policy, limits, serviceHelper, syslog, allowAnonymous)
    }

    ghost function Cursor(): Cursor
      reads this
    {
      ConfigParser.Cursor(stack, Settings())
    }

    /** No file is on the included-files stack twice, however deep the inclusion. */
    ghost predicate NoneTwice()
      reads this`includedFiles
    {
      NoRepeats(includedFiles)
    }

    /** `bus_config_parser_new`: limits and the included-files stack come from the parent, if there is one. */
    constructor (basedir: string, limits: map<string, int>, includedFiles: seq<string>)
      ensures this.basedir == basedir && this.includedFiles == includedFiles
      ensures Cursor() == ConfigParser.Cursor([], FreshSettings(limits))
    {
      this.basedir, this.limits, this.includedFiles := basedir, limits, includedFiles;
      stack, user, serviceHelper, busType, pidfile := [], None, None, None, None;
      listenOn, mechanisms, serviceDirs, confDirs := [], [], [], [];
      policy, contexts := map[], map[];
      fork, syslog, keepUmask, allowAnonymous := false, false, false, false;
    }

    /** `service_dirs_append_link_unique_or_free` for each directory. */
    method AddServiceDirs(dirs: seq<string>)
      modifies this`serviceDirs
      ensures serviceDirs == AppendUnique(old(serviceDirs), dirs)
    {
      var todo := dirs;
      while todo != []
        invariant AppendUnique(serviceDirs, todo) == AppendUnique(old(serviceDirs), dirs)
        decreases |todo|
      {
        var found, i := false, 0;
        while i < |serviceDirs| && !found
          invariant i <= |serviceDirs|
          invariant found <==> todo[0] in serviceDirs[..i]
        {
          found := serviceDirs[i] == todo[0];
          i := i + 1;
        }
        assert found <==> todo[0] in serviceDirs by {
          if !found { assert serviceDirs[..i] == serviceDirs; }
        }
        if !found {
          serviceDirs := serviceDirs + [todo[0]];
        }
        todo := todo[1..];
      }
    }

    /** The settings that hold one text. */
    method EditText(e: Edit)
      requires e.SetUser? || e.SetType? || e.SetPidfile? || e.SetServiceHelper?
      modifies this`user, this`busType, this`pidfile, this`serviceHelper
      ensures Settings() == ApplyEdit(old(Settings()), e)
    {
      match e
      case SetUser(text) => user := Some(text);
      case SetType(text) => busType := Some(text);
      case SetPidfile(text) => pidfile := Some(text);
      case SetServiceHelper(text) => serviceHelper := Some(text);
    }

    /** The settings that an element's presence turns on. */
    method EditFlag(e: Edit)
      requires e.SetFork? || e.SetSyslog? || e.SetKeepUmask? || e.SetAllowAnonymous?
      modifies this`fork, this`syslog, this`keepUmask, this`allowAnonymous
      ensures Settings() == ApplyEdit(old(Settings()), e)
    {
      match e
      case SetFork => fork := true;
      case SetSyslog => syslog := true;
      case SetKeepUmask => keepUmask := true;
      case SetAllowAnonymous => allowAnonymous := true;
    }

    /** The settings that are lists. */
    method EditList(e: Edit)
      requires e.AddListen? || e.AddMechanism? || e.AddServiceDirs? || e.AddConfDir?
      modifies this`listenOn, this`mechanisms, this`serviceDirs, this`confDirs
      ensures Settings() == ApplyEdit(old(Settings()), e)
    {
      match e
      case AddListen(text) => listenOn := listenOn + [text];
      case AddMechanism(text) => mechanisms := mechanisms + [text];
      case AddServiceDirs(dirs) => AddServiceDirs(dirs);
      case AddConfDir(text) => confDirs := confDirs + [text];
    }

    /** The settings that are tables. */
    method EditTable(e: Edit)
      requires e.AddContext? || e.AddRule? || e.SetLimit?
      modifies this`contexts, this`policy, this`limits
      ensures Settings() == ApplyEdit(old(Settings()), e)
    {
      match e
      case AddContext(own, context) => contexts := contexts[own := context];
      case AddRule(scope, rule) => policy := policy[scope := RulesFor(policy, scope) + [rule]];
      case SetLimit(limit, value) => limits := limits[limit := value];
    }

    /** Change the settings as an accepted event asks. */
    method Change(e: Edit)
      modifies this
      ensures Settings() == ApplyEdit(old(Settings()), e)
      ensures stack == old(stack) && includedFiles == old(includedFiles)
    {
      match e
      case NoEdit =>
      case AddContext(_, _) | AddRule(_, _) | SetLimit(_, _) => EditTable(e);
      case SetFork | SetSyslog | SetKeepUmask | SetAllowAnonymous => EditFlag(e);
      case SetUser(_) | SetType(_) | SetPidfile(_) | SetServiceHelper(_) => EditText(e);
      case AddListen(_) | AddMechanism(_) | AddServiceDirs(_) | AddConfDir(_) => EditList(e);
    }

    /** Push or pop as an accepted event asks, or pass its error on. */
    method Take(move: Result<Move>) returns (error: Option<ConfigError>)
      modifies this
      ensures includedFiles == old(includedFiles)
      ensures match Advance(old(Cursor()), move)
              case Ok(c) => error == None && Cursor() == c
              case Err(e) => error == Some(e)
    {
      if move.Err? {
        return Some(move.error);
      }
      stack := move.value.stack;
      Change(move.value.edit);
      error := None;
    }

    /** The part of `merge_included` on texts and flags. */
    method MergeTexts(child: Parser)
      requires child != this
      modifies this`user, this`busType, this`pidfile, this`fork, this`keepUmask
      modifies child`user, child`busType, child`pidfile
      ensures user == Override(old(user), old(child.user)) && busType == Override(old(busType), old(child.busType))
      ensures pidfile == Override(old(pidfile), old(child.pidfile))
      ensures fork == (old(fork) || child.fork) && keepUmask == (old(keepUmask) || child.keepUmask)
    {
      if child.user.Some? {
        user, child.user := child.user, None;
      }
      if child.busType.Some? {
        busType, child.busType := child.busType, None;
      }
      if child.fork {
        fork := true;
      }
      if child.keepUmask {
        keepUmask := true;
      }
      if child.pidfile.Some? {
        pidfile, child.pidfile := child.pidfile, None;
      }
    }

    /** The part of `merge_included` on the texts and flags, and on the tables. */
    method MergeTextsAndTables(child: Parser)
      requires child != this
      modifies this`user, this`busType, this`pidfile, this`fork, this`keepUmask
      modifies this`policy, this`contexts, this`limits
      modifies child`user, child`busType, child`pidfile
      ensures var (s, t) := (old(Settings()), old(child.Settings()));
              && Settings() == s.(user := Override(s.user, t.user), busType := Override(s.busType, t.busType),
                                  pidfile := Override(s.pidfile, t.pidfile), fork := s.fork || t.fork,
                                  keepUmask := s.keepUmask || t.keepUmask, policy := MergePolicies(s.policy, t.policy),
                                  contexts := s.contexts + t.contexts, limits := t.limits)
    {
      MergeTexts(child);
      MergeTables(child);
    }

    /** The part of `merge_included` on lists: the child's links move to the end of this parser's. */
    method MergeLists(child: Parser)
      requires child != this
      modifies this`listenOn, this`mechanisms, this`serviceDirs, this`confDirs
      modifies child`listenOn, child`mechanisms, child`serviceDirs, child`confDirs
      ensures listenOn == old(listenOn) + old(child.listenOn) && mechanisms == old(mechanisms) + old(child.mechanisms)
      ensures serviceDirs == AppendUnique(old(serviceDirs), old(child.serviceDirs))
      ensures confDirs == old(confDirs) + old(child.confDirs)
      ensures child.listenOn == child.mechanisms == child.serviceDirs == child.confDirs == []
    {
      listenOn, child.listenOn := listenOn + child.listenOn, [];
      mechanisms, child.mechanisms := mechanisms + child.mechanisms, [];
      AddServiceDirs(child.serviceDirs);
      child.serviceDirs := [];
      confDirs, child.confDirs := confDirs + child.confDirs, [];
    }

    /** The part of `merge_included` on tables. */
    method MergeTables(child: Parser)
      modifies this`policy, this`contexts, this`limits
      ensures var (s, t) := (old(Settings()), old(child.Settings()));
              Settings() == s.(policy := MergePolicies(s.policy, t.policy), contexts := s.contexts + t.contexts,
                               limits := t.limits)
      ensures child != this ==> child.Settings() == old(child.Settings())
    {
      policy, contexts, limits := MergePolicies(policy, child.policy), contexts + child.contexts, child.limits;
    }

    /** `merge_included` and the limits copied back.  The child is a parser of its own, and is used up. */
    method MergeIncluded(child: Parser)
      requires child != this
      modifies this, child
      ensures Settings() == ConfigParser.MergeIncluded(old(Settings()), old(child.Settings()))
      ensures stack == old(stack) && includedFiles == old(includedFiles)
    {
      MergeTextsAndTables(child);
      MergeLists(child);
    }

    /** One event.  Inclusion nests; it ends because each nested file leaves one fewer that may still be included. */
    method Handle(env: Env, event: Event) returns (error: Option<ConfigError>)
      requires NoneTwice()
      modifies this
      ensures includedFiles == old(includedFiles)
      ensures match HandleEvent(env, event, basedir, old(Cursor()), old(includedFiles))
              case Ok(c) => error == None && Cursor() == c
              case Err(e) => error == Some(e)
      decreases Unseen(env, includedFiles), 2, 0
    {
      match event
      case Start(name, attributes) => error := Take(StartElement(env, stack, name, attributes));
      case End(name) => error := Take(EndElement(stack, name));
      case Text(content) =>
        if stack == [] || stack[|stack| - 1].hadContent || TopType(stack) !in {Include, IncludeDir} {
          error := Take(PlainContent(env, basedir, stack, content));
        } else if TopType(stack) == Include {
          error := IncludeText(env, content);
          stack := MarkContent(stack);
        } else {
          error := IncludeDirectory(env, env.fullPath(basedir, content));
          stack := MarkContent(stack);
        }
    }

    /** The text of an include element. */
    method IncludeText(env: Env, content: string) returns (error: Option<ConfigError>)
      requires stack != [] && NoneTwice()
      modifies this
      ensures stack == old(stack) && includedFiles == old(includedFiles)
      ensures match IncludeContent(env, basedir, old(Cursor()), content, old(includedFiles))
              case Ok(s) => error == None && Settings() == s
              case Err(e) => error == Some(e)
      decreases Unseen(env, includedFiles), 1, 0
    {
      var e := stack[|stack| - 1];
      match IncludePath(env, basedir, e, content)
      case Err(refusal) => error := Some(refusal);
      case Ok(None) => error := None;
      case Ok(Some(path)) => error := IncludeFile(env, path, e.ignoreMissing);
    }

    /** `include_file`: a failure leaves the settings alone, and the included-files stack is restored either way. */
    method IncludeFile(env: Env, path: string, ignoreMissing: bool) returns (error: Option<ConfigError>)
      requires NoneTwice()
      modifies this
      ensures stack == old(stack) && includedFiles == old(includedFiles)
      ensures match ConfigParser.IncludeFile(env, path, ignoreMissing, old(Settings()), old(includedFiles))
              case Ok(s) => error == None && Settings() == s
              case Err(e) => error == Some(e) && Settings() == old(Settings())
      decreases Unseen(env, includedFiles), 0, 0
    {
      if path in includedFiles {
        return Some(Failed);
      }
      if path !in env.files {
        return if ignoreMissing then None else Some(FileNotFound);
      }
      UnseenShrinks(env, includedFiles, path);
      var below := includedFiles;
      includedFiles := includedFiles + [path];
      var child, failure := Load(env, path, limits, includedFiles);
      includedFiles := below;
      if failure.Some? {
        return if failure == Some(FileNotFound) && ignoreMissing then None else failure;
      }
      MergeIncluded(child);
      error := None;
    }

    /** `include_dir` */
    method IncludeDirectory(env: Env, dir: string) returns (error: Option<ConfigError>)
      requires NoneTwice()
      modifies this
      ensures stack == old(stack) && includedFiles == old(includedFiles)
      ensures match ConfigParser.IncludeDirectory(env, dir, old(Settings()), old(includedFiles))
              case Ok(s) => error == None && Settings() == s
              case Err(e) => error == Some(e)
      decreases Unseen(env, includedFiles), 1, 1
    {
      if dir !in env.dirs {
        return Some(FileNotFound);
      }
      match env.dirs[dir]
      case Unopenable(e) => error := Some(e);
      case Listing(names, listingError) =>
        var todo := names;
        while todo != []
          invariant stack == old(stack) && includedFiles == old(includedFiles)
          invariant IncludeNames(env, dir, todo, Settings(), includedFiles)
                 == IncludeNames(env, dir, names, old(Settings()), includedFiles)
          decreases |todo|
        {
          var path := env.fullPath(dir, todo[0]);
          if IsConfFile(path) {
            var _ := IncludeFile(env, path, true);
          }
          todo := todo[1..];
        }
        if listingError.None? {
          confDirs := confDirs + [dir];
        }
        error := listingError;
    }

    /** `bus_config_load` below the top level. */
    static method Load(env: Env, path: string, limits: map<string, int>, includedFiles: seq<string>)
      returns (parser: Parser, error: Option<ConfigError>)
      requires path in env.files && NoRepeats(includedFiles)
      ensures fresh(parser)
      ensures match ConfigParser.Load(env, path, limits, includedFiles)
              case Ok(s) => error == None && parser.Settings() == s
              case Err(e) => error == Some(e)
      decreases Unseen(env, includedFiles), 4, 0
    {
      parser := new Parser(env.dirname(path), limits, includedFiles);
      match env.files[path]
      case Unreadable(e) => error := Some(e);
      case Document(events, wellFormed) =>
        var todo := events;
        ghost var start := parser.Cursor();
        while todo != []
          invariant fresh(parser) && parser.includedFiles == includedFiles && parser.basedir == env.dirname(path)
          invariant RunEvents(env, todo, parser.basedir, parser.Cursor(), includedFiles)
                 == RunEvents(env, events, parser.basedir, start, includedFiles)
          decreases |todo|
        {
          error := parser.Handle(env, todo[0]);
          if error.Some? {
            return;
          }
          todo := todo[1..];
        }
        error := if wellFormed && parser.stack == [] then None else Some(Failed);
    }

    /** `bus_config_load` at the top level, where no file is being included. */
    static method LoadTop(env: Env, path: string) returns (parser: Parser?, error: Option<ConfigError>)
      ensures parser == null || fresh(parser)
      ensures match ConfigParser.LoadTop(env, path)
              case Ok(s) => error == None && parser != null && parser.Settings() == s
              case Err(e) => error == Some(e)
    {
      if path !in env.files {
        return null, Some(FileNotFound);
      }
      parser, error := Load(env, path, DEFAULT_LIMITS, []);
      if error.None? && parser.listenOn == [] {
        error := Some(Failed);
      }
    }
  }

  /** The parser of config-parser-trivial.c. */
  class TrivialParser {
    var kind: ElementType
    var user: string
    var busType: string
    var serviceHelper: string
    var serviceDirs: seq<string>

    ghost function Trivial(): Trivial
      reads this
    {
      ConfigStack.Trivial(kind, user, busType, serviceHelper, serviceDirs)
    }

    constructor ()
      ensures Trivial() == TRIVIAL
    {
      kind, user, busType, serviceHelper, serviceDirs := NoElement, "", "", "", [];
    }

    method Handle(env: Env, event: Event)
      modifies this
      ensures Trivial() == TrivialEvent(env, old(Trivial()), event)
    {
      match event
      case Start(name, _) =>
        kind := NameToType(name);
        if kind == StandardSystemServiceDirs {
          serviceDirs := AppendUnique(serviceDirs, env.systemDirs);
        }
      case End(_) =>
      case Text(content) =>
        var text := Chop(content);
        if text == "" {
          return;
        }
        match kind
        case ServiceDir => serviceDirs := serviceDirs + [text];
        case ServiceHelper => serviceHelper := text + serviceHelper;
        case User => user := text + user;
        case ConfigType => busType := text + busType;
        case _ =>
    }
  }
}
