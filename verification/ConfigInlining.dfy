/**
 Including a file means the same as inlining its elements.  The reference semantics below has one set of settings that
 every file edits in turn; the parser of ConfigParser gives each file settings of its own and merges them.
 */
module ConfigInlining {
  import opened BusTypes
  import opened ConfigElements
  import opened Lists
  import opened ConfigParser

  // ---------------------------------------------------------------------------------------------
  // The reference: no merging; a file that fails leaves the settings as they were

  function InlineFile(env: Env, path: string, s: Settings, included: seq<string>): Result<Settings>
    requires path in env.files
    decreases Unseen(env, included), 4, 0
  {
    match env.files[path]
    case Unreadable(e) => Err(e)
    case Document(events, wellFormed) =>
      match InlineEvents(env, events, env.dirname(path), Cursor([], s), included)
      case Err(e) => Err(e)
      case Ok(c) => if wellFormed && c.stack == [] then Ok(c.settings) else Err(Failed)
  }

  function InlineEvents(env: Env, events: seq<Event>, basedir: string, c: Cursor, included: seq<string>): Result<Cursor>
    decreases Unseen(env, included), 3, |events|
  {
    if events == [] then Ok(c)
    else match InlineEvent(env, events[0], basedir, c, included)
      case Err(e) => Err(e)
      case Ok(c') => InlineEvents(env, events[1..], basedir, c', included)
  }

  function InlineEvent(env: Env, event: Event, basedir: string, c: Cursor, included: seq<string>): Result<Cursor>
    decreases Unseen(env, included), 2, 0
  {
    match event
    case Start(name, attributes) => Advance(c, StartElement(env, c.stack, name, attributes))
    case End(name) => Advance(c, EndElement(c.stack, name))
    case Text(content) =>
      if c.stack == [] || c.stack[|c.stack| - 1].hadContent || TopType(c.stack) !in {Include, IncludeDir} then
        Advance(c, PlainContent(env, basedir, c.stack, content))
      else
        var inlined := if TopType(c.stack) == Include
                       then InlineContent(env, basedir, c, content, included)
                       else InlineDirectory(env, env.fullPath(basedir, content), c.settings, included);
        match inlined
        case Err(e) => Err(e)
        case Ok(s) => Ok(Cursor(MarkContent(c.stack), s))
  }

  function InlineContent(env: Env, basedir: string, c: Cursor, content: string, included: seq<string>): Result<Settings>
    requires c.stack != []
    decreases Unseen(env, included), 1, 0
  {
    var e := c.stack[|c.stack| - 1];
    match IncludePath(env, basedir, e, content)
    case Err(e) => Err(e)
    case Ok(None) => Ok(c.settings)
    case Ok(Some(path)) => InlineOrSkip(env, path, e.ignoreMissing, c.settings, included)
  }

  function InlineOrSkip(env: Env, path: string, ignoreMissing: bool, s: Settings,
                        included: seq<string>)
    : Result<Settings>
    decreases Unseen(env, included), 0, 0
  {
    if path in included then Err(Failed)
    else
      match (if path in env.files then UnseenShrinks(env, included, path); InlineFile(env, path, s, included + [path])
             else Err(FileNotFound))
      case Err(e) => if e == FileNotFound && ignoreMissing then Ok(s) else Err(e)
      case Ok(s') => Ok(s')
  }

  function InlineDirectory(env: Env, dir: string, s: Settings, included: seq<string>): Result<Settings>
    decreases Unseen(env, included), 1, 1
  {
    if dir !in env.dirs then Err(FileNotFound)
    else match env.dirs[dir]
      case Unopenable(e) => Err(e)
      case Listing(names, error) =>
        var s' := InlineNames(env, dir, names, s, included);
        if error.Some? then Err(error.value) else Ok(ApplyEdit(s', AddConfDir(dir)))
  }

  function InlineNames(env: Env, dir: string, names: seq<string>, s: Settings, included: seq<string>): Settings
    decreases Unseen(env, included), 1, 0, |names|
  {
    if names == [] then s
    else
      var path := env.fullPath(dir, names[0]);
      var s' := if !IsConfFile(path) then s
                else match InlineOrSkip(env, path, true, s, included)
                     case Err(_) => s
                     case Ok(s') => s';
      InlineNames(env, dir, names[1..], s', included)
  }

  function InlineTop(env: Env, path: string): Result<Settings> {
    if path !in env.files then Err(FileNotFound)
    else match InlineFile(env, path, FreshSettings(DEFAULT_LIMITS), [])
      case Err(e) => Err(e)
      case Ok(s) => if s.listenOn == [] then Err(Failed) else Ok(s)
  }

  // ---------------------------------------------------------------------------------------------
  // Merging

  /** The settings that `merge_included` carries over; it forgets the service helper, syslog and anonymous access. */
  function Carried(s: Settings): Settings {
    s.(serviceHelper := None, syslog := false, allowAnonymous := false)
  }

  /** One parser's settings, merged into those of the files around it, are what inlining has. */
  ghost predicate Tracks(outer: Settings, own: Settings, inlined: Settings) {
    Carried(MergeIncluded(outer, own)) == Carried(inlined)
  }

  lemma AppendUniqueHas(dirs: seq<string>, more: seq<string>, d: string)
    ensures d in AppendUnique(dirs, more) <==> d in dirs || d in more
    decreases |more|
  {
    if more != [] {
      AppendUniqueHas(if more[0] in dirs then dirs else dirs + [more[0]], more[1..], d);
      assert more == [more[0]] + more[1..];
    }
  }

  lemma {:induction false} AppendUniqueTwice(dirs: seq<string>, a: seq<string>, b: seq<string>)
    ensures AppendUnique(AppendUnique(dirs, a), b) == AppendUnique(dirs, a + b)
    decreases |a|
  {
    if a == [] {
      assert a + b == b;
    } else {
      assert (a + b)[1..] == a[1..] + b;
      AppendUniqueTwice(if a[0] in dirs then dirs else dirs + [a[0]], a[1..], b);
    }
  }

  /** Appending what is already there changes nothing, so deduplicating first makes no difference. */
  lemma {:induction false} AppendDeduplicated(dirs: seq<string>, a: seq<string>, b: seq<string>)
    ensures AppendUnique(dirs, AppendUnique(a, b)) == AppendUnique(AppendUnique(dirs, a), b)
    decreases |b|
  {
    if b != [] {
      var a' := if b[0] in a then a else a + [b[0]];
      AppendDeduplicated(dirs, a', b[1..]);
      AppendUniqueHas(dirs, a, b[0]);
      if b[0] !in a {
        AppendUniqueTwice(dirs, a, [b[0]]);
        assert [b[0]][1..] == [];
      }
    }
  }

  lemma ListTracks(outer: Settings, own: Settings, inlined: Settings, e: Edit)
    requires Tracks(outer, own, inlined) && (e.AddListen? || e.AddMechanism? || e.AddConfDir? || e.AddServiceDirs?)
    ensures Tracks(outer, ApplyEdit(own, e), ApplyEdit(inlined, e))
  {
    match e
    case AddListen(text) => Regroup(outer.listenOn, own.listenOn, [text]);
    case AddMechanism(text) => Regroup(outer.mechanisms, own.mechanisms, [text]);
    case AddConfDir(text) => Regroup(outer.confDirs, own.confDirs, [text]);
    case AddServiceDirs(dirs) => AppendDeduplicated(outer.serviceDirs, own.serviceDirs, dirs);
  }

  lemma EditTracks(outer: Settings, own: Settings, inlined: Settings, e: Edit)
    requires Tracks(outer, own, inlined)
    ensures Tracks(outer, ApplyEdit(own, e), ApplyEdit(inlined, e))
  {
    if e.AddListen? || e.AddMechanism? || e.AddConfDir? || e.AddServiceDirs? {
      ListTracks(outer, own, inlined, e);
    } else if e.AddContext? {
      ContextTracks(outer.contexts, own.contexts, e.own, e.context);
    } else if e.AddRule? {
      RuleTracks(outer.policy, own.policy, e.scope, e.rule);
    } else {
      OneSettingTracks(outer, own, inlined, e);
    }
  }

  /** A later text, flag or limit wins, whichever file it is in. */
  lemma OneSettingTracks(outer: Settings, own: Settings, inlined: Settings, e: Edit)
    requires Tracks(outer, own, inlined)
    requires !(e.AddListen? || e.AddMechanism? || e.AddConfDir? || e.AddServiceDirs? || e.AddContext? || e.AddRule?)
    ensures Tracks(outer, ApplyEdit(own, e), ApplyEdit(inlined, e))
  {
  }

  lemma ContextTracks(a: map<string, string>, b: map<string, string>, name: string, context: string)
    ensures a + b[name := context] == (a + b)[name := context]
  {
  }

  lemma MergedRules(a: Policies, b: Policies, scope: Scope)
    ensures RulesFor(MergePolicies(a, b), scope) == RulesFor(a, scope) + RulesFor(b, scope)
  {
  }

  /** Policies agree when they have the same scopes and the same rules for each. */
  lemma SamePolicies(a: Policies, b: Policies)
    requires a.Keys == b.Keys && forall scope :: scope in a ==> RulesFor(a, scope) == RulesFor(b, scope)
    ensures a == b
  {
    forall scope | scope in a ensures a[scope] == b[scope] {
      assert RulesFor(a, scope) == RulesFor(b, scope);
    }
  }

  lemma RulesTrack(a: Policies, b: Policies, scope: Scope, rule: Rule, x: Scope)
    ensures var merged := MergePolicies(a, b);
            RulesFor(MergePolicies(a, b[scope := RulesFor(b, scope) + [rule]]), x)
            == RulesFor(merged[scope := RulesFor(merged, scope) + [rule]], x)
  {
    MergedRules(a, b, x);
    MergedRules(a, b[scope := RulesFor(b, scope) + [rule]], x);
  }

  lemma RuleTracks(a: Policies, b: Policies, scope: Scope, rule: Rule)
    ensures MergePolicies(a, b[scope := RulesFor(b, scope) + [rule]])
         == MergePolicies(a, b)[scope := RulesFor(MergePolicies(a, b), scope) + [rule]]
  {
    var merged := MergePolicies(a, b);
    var b' := b[scope := RulesFor(b, scope) + [rule]];
    var left, right := MergePolicies(a, b'), merged[scope := RulesFor(merged, scope) + [rule]];
    forall x ensures RulesFor(left, x) == RulesFor(right, x) { RulesTrack(a, b, scope, rule, x); }
    SamePolicies(left, right);
  }

  lemma RulesTwice(a: Policies, b: Policies, c: Policies, x: Scope)
    ensures RulesFor(MergePolicies(MergePolicies(a, b), c), x) == RulesFor(MergePolicies(a, MergePolicies(b, c)), x)
  {
    MergedRules(a, b, x);
    MergedRules(b, c, x);
    MergedRules(MergePolicies(a, b), c, x);
    MergedRules(a, MergePolicies(b, c), x);
    Regroup(RulesFor(a, x), RulesFor(b, x), RulesFor(c, x));
  }

  lemma MergePoliciesTwice(a: Policies, b: Policies, c: Policies)
    ensures MergePolicies(MergePolicies(a, b), c) == MergePolicies(a, MergePolicies(b, c))
  {
    var left, right := MergePolicies(MergePolicies(a, b), c), MergePolicies(a, MergePolicies(b, c));
    assert left.Keys == a.Keys + b.Keys + c.Keys == right.Keys;
    forall x | x in left ensures RulesFor(left, x) == RulesFor(right, x) {
      RulesTwice(a, b, c, x);
    }
    SamePolicies(left, right);
  }

  lemma MergeWithNoPolicies(a: Policies)
    ensures MergePolicies(a, map[]) == a == MergePolicies(map[], a)
  {
    forall x ensures RulesFor(MergePolicies(a, map[]), x) == RulesFor(a, x) == RulesFor(MergePolicies(map[], a), x) {
      MergedRules(a, map[], x);
      MergedRules(map[], a, x);
    }
    SamePolicies(MergePolicies(a, map[]), a);
    SamePolicies(MergePolicies(map[], a), a);
  }

  /** Merging two levels at once or one after the other is the same. */
  lemma MergeTwice(a: Settings, b: Settings, c: Settings)
    ensures MergeIncluded(MergeIncluded(a, b), c) == MergeIncluded(a, MergeIncluded(b, c))
  {
    Regroup(a.listenOn, b.listenOn, c.listenOn);
    Regroup(a.mechanisms, b.mechanisms, c.mechanisms);
    Regroup(a.confDirs, b.confDirs, c.confDirs);
    AppendDeduplicated(a.serviceDirs, b.serviceDirs, c.serviceDirs);
    assert a.contexts + b.contexts + c.contexts == a.contexts + (b.contexts + c.contexts);
    MergePoliciesTwice(a.policy, b.policy, c.policy);
  }

  lemma FreshTracks(s: Settings)
    ensures Tracks(s, FreshSettings(s.limits), s)
  {
    MergeWithNoPolicies(s.policy);
    assert s.contexts + map[] == s.contexts;
  }

  // ---------------------------------------------------------------------------------------------
  // The theorem

  ghost predicate SameSettings(outer: Settings, own: Result<Settings>, inlined: Result<Settings>) {
    match (own, inlined)
    case (Ok(s), Ok(t)) => Tracks(outer, s, t)
    case (Err(e), Err(f)) => e == f
    case _ => false
  }

  ghost predicate SameCursor(outer: Settings, own: Result<Cursor>, inlined: Result<Cursor>) {
    match (own, inlined)
    case (Ok(c), Ok(d)) => c.stack == d.stack && Tracks(outer, c.settings, d.settings)
    case (Err(e), Err(f)) => e == f
    case _ => false
  }

  /** A file loaded on its own from s's limits, then merged into s, is that file inlined into s. */
  lemma {:induction false} FileTracks(env: Env, path: string, s: Settings, included: seq<string>)
    requires path in env.files
    ensures SameSettings(s, Load(env, path, s.limits, included), InlineFile(env, path, s, included))
    decreases Unseen(env, included), 4, 0
  {
    if env.files[path].Document? {
      FreshTracks(s);
      EventsTrack(env, env.files[path].events, env.dirname(path), s, Cursor([], FreshSettings(s.limits)), Cursor([], s),
                  included);
    }
  }

  lemma {:induction false} EventsTrack(env: Env, events: seq<Event>, basedir: string, outer: Settings, c: Cursor,
                                       d: Cursor, included: seq<string>)
    requires SameCursor(outer, Ok(c), Ok(d))
    ensures SameCursor(outer, RunEvents(env, events, basedir, c, included),
                       InlineEvents(env, events, basedir, d, included))
    decreases Unseen(env, included), 3, |events|
  {
    if events != [] {
      EventTracks(env, events[0], basedir, outer, c, d, included);
      var c' := HandleEvent(env, events[0], basedir, c, included);
      var d' := InlineEvent(env, events[0], basedir, d, included);
      if c'.Ok? {
        EventsTrack(env, events[1..], basedir, outer, c'.value, d'.value, included);
      }
    }
  }

  lemma AdvanceTracks(outer: Settings, c: Cursor, d: Cursor, move: Result<Move>)
    requires SameCursor(outer, Ok(c), Ok(d))
    ensures SameCursor(outer, Advance(c, move), Advance(d, move))
  {
    if move.Ok? { EditTracks(outer, c.settings, d.settings, move.value.edit); }
  }

  lemma {:induction false} EventTracks(env: Env, event: Event, basedir: string, outer: Settings, c: Cursor, d: Cursor,
                                       included: seq<string>)
    requires SameCursor(outer, Ok(c), Ok(d))
    ensures SameCursor(outer, HandleEvent(env, event, basedir, c, included),
                       InlineEvent(env, event, basedir, d, included))
    decreases Unseen(env, included), 2, 0
  {
    match event
    case Start(name, attributes) => AdvanceTracks(outer, c, d, StartElement(env, c.stack, name, attributes));
    case End(name) => AdvanceTracks(outer, c, d, EndElement(c.stack, name));
    case Text(content) =>
      if c.stack == [] || c.stack[|c.stack| - 1].hadContent || TopType(c.stack) !in {Include, IncludeDir} {
        AdvanceTracks(outer, c, d, PlainContent(env, basedir, c.stack, content));
      } else if TopType(c.stack) == Include {
        ContentTracks(env, basedir, outer, c, d, content, included);
      } else {
        DirectoryTracks(env, env.fullPath(basedir, content), outer, c.settings, d.settings, included);
      }
  }

  lemma {:induction false} ContentTracks(env: Env, basedir: string, outer: Settings, c: Cursor, d: Cursor,
                                         content: string, included: seq<string>)
    requires SameCursor(outer, Ok(c), Ok(d)) && c.stack != []
    ensures SameSettings(outer, IncludeContent(env, basedir, c, content, included),
                         InlineContent(env, basedir, d, content, included))
    decreases Unseen(env, included), 1, 0
  {
    var e := c.stack[|c.stack| - 1];
    var path := IncludePath(env, basedir, e, content);
    if path.Ok? && path.value.Some? {
      FileOrSkipTracks(env, path.value.value, e.ignoreMissing, outer, c.settings, d.settings, included);
    }
  }

  lemma {:induction false} FileOrSkipTracks(env: Env, path: string, ignoreMissing: bool, outer: Settings, s: Settings,
                                            t: Settings, included: seq<string>)
    requires Tracks(outer, s, t)
    ensures SameSettings(outer, IncludeFile(env, path, ignoreMissing, s, included),
                         InlineOrSkip(env, path, ignoreMissing, t, included))
    decreases Unseen(env, included), 0, 0
  {
    if path !in included && path in env.files {
      UnseenShrinks(env, included, path);
      FileTracks(env, path, t, included + [path]);
      assert s.limits == t.limits;
      var child := Load(env, path, s.limits, included + [path]);
      if child.Ok? {
        MergeTwice(outer, s, child.value);
        CarriedMerge(MergeIncluded(outer, s), t, child.value);
      }
    }
  }

  lemma CarriedMerge(s: Settings, t: Settings, child: Settings)
    requires Carried(s) == Carried(t)
    ensures Carried(MergeIncluded(s, child)) == Carried(MergeIncluded(t, child))
  {
  }

  lemma {:induction false} DirectoryTracks(env: Env, dir: string, outer: Settings, s: Settings, t: Settings,
                                           included: seq<string>)
    requires Tracks(outer, s, t)
    ensures SameSettings(outer, IncludeDirectory(env, dir, s, included), InlineDirectory(env, dir, t, included))
    decreases Unseen(env, included), 1, 1
  {
    if dir in env.dirs && env.dirs[dir].Listing? {
      var names := env.dirs[dir].names;
      NamesTrack(env, dir, names, outer, s, t, included);
      EditTracks(outer, IncludeNames(env, dir, names, s, included), InlineNames(env, dir, names, t, included),
                 AddConfDir(dir));
    }
  }

  lemma {:induction false} NamesTrack(env: Env, dir: string, names: seq<string>, outer: Settings, s: Settings,
                                      t: Settings, included: seq<string>)
    requires Tracks(outer, s, t)
    ensures Tracks(outer, IncludeNames(env, dir, names, s, included), InlineNames(env, dir, names, t, included))
    decreases Unseen(env, included), 1, 0, |names|
  {
    if names != [] {
      var path := env.fullPath(dir, names[0]);
      var s', t' := s, t;
      if IsConfFile(path) {
        FileOrSkipTracks(env, path, true, outer, s, t, included);
        var a, b := IncludeFile(env, path, true, s, included), InlineOrSkip(env, path, true, t, included);
        if a.Ok? { s', t' := a.value, b.value; }
      }
      NamesTrack(env, dir, names[1..], outer, s', t', included);
    }
  }

  // ---------------------------------------------------------------------------------------------
  // No service directory is listed twice

  lemma {:induction false} AppendUniqueKeepsDistinct(dirs: seq<string>, more: seq<string>)
    requires NoRepeats(dirs)
    ensures NoRepeats(AppendUnique(dirs, more))
    decreases |more|
  {
    if more != [] {
      AppendUniqueKeepsDistinct(if more[0] in dirs then dirs else dirs + [more[0]], more[1..]);
    }
  }

  lemma {:induction false} AppendDistinct(dirs: seq<string>, more: seq<string>)
    requires NoRepeats(dirs + more)
    ensures AppendUnique(dirs, more) == dirs + more
    decreases |more|
  {
    if more != [] {
      assert (dirs + more)[|dirs|] == more[0];
      assert more[0] !in dirs by {
        assert forall i :: 0 <= i < |dirs| ==> dirs[i] == (dirs + more)[i];
      }
      assert dirs + [more[0]] + more[1..] == dirs + more;
      AppendDistinct(dirs + [more[0]], more[1..]);
    }
  }

  ghost predicate Distinct(r: Result<Settings>) {
    r.Ok? ==> NoRepeats(r.value.serviceDirs)
  }

  lemma EditDistinct(s: Settings, e: Edit)
    requires NoRepeats(s.serviceDirs)
    ensures NoRepeats(ApplyEdit(s, e).serviceDirs)
  {
    if e.AddServiceDirs? { AppendUniqueKeepsDistinct(s.serviceDirs, e.dirs); }
  }

  /** The settings of every configuration file list each service directory once. */
  lemma {:induction false} FileDistinct(env: Env, path: string, limits: map<string, int>, included: seq<string>)
    requires path in env.files
    ensures Distinct(Load(env, path, limits, included))
    decreases Unseen(env, included), 4, 0
  {
    if env.files[path].Document? {
      EventsDistinct(env, env.files[path].events, env.dirname(path), Cursor([], FreshSettings(limits)), included);
    }
  }

  lemma {:induction false} EventsDistinct(env: Env, events: seq<Event>, basedir: string, c: Cursor,
                                          included: seq<string>)
    requires NoRepeats(c.settings.serviceDirs)
    ensures var r := RunEvents(env, events, basedir, c, included); r.Ok? ==> NoRepeats(r.value.settings.serviceDirs)
    decreases Unseen(env, included), 3, |events|
  {
    if events != [] {
      EventDistinct(env, events[0], basedir, c, included);
      var c' := HandleEvent(env, events[0], basedir, c, included);
      if c'.Ok? { EventsDistinct(env, events[1..], basedir, c'.value, included); }
    }
  }

  lemma {:induction false} EventDistinct(env: Env, event: Event, basedir: string, c: Cursor, included: seq<string>)
    requires NoRepeats(c.settings.serviceDirs)
    ensures var r := HandleEvent(env, event, basedir, c, included); r.Ok? ==> NoRepeats(r.value.settings.serviceDirs)
    decreases Unseen(env, included), 2, 0
  {
    forall e { EditDistinct(c.settings, e); }
    if event.Text? && c.stack != [] && !c.stack[|c.stack| - 1].hadContent {
      if TopType(c.stack) == Include {
        var e := c.stack[|c.stack| - 1];
        var path := IncludePath(env, basedir, e, event.content);
        if path.Ok? && path.value.Some? {
          IncludedDistinct(env, path.value.value, e.ignoreMissing, c.settings, included);
        }
      } else if TopType(c.stack) == IncludeDir {
        var dir := env.fullPath(basedir, event.content);
        if dir in env.dirs && env.dirs[dir].Listing? {
          NamesDistinct(env, dir, env.dirs[dir].names, c.settings, included);
        }
      }
    }
  }

  lemma {:induction false} IncludedDistinct(env: Env, path: string, ignoreMissing: bool, s: Settings,
                                            included: seq<string>)
    requires NoRepeats(s.serviceDirs)
    ensures Distinct(IncludeFile(env, path, ignoreMissing, s, included))
    decreases Unseen(env, included), 0, 0
  {
    if path !in included && path in env.files {
      UnseenShrinks(env, included, path);
      var child := Load(env, path, s.limits, included + [path]);
      if child.Ok? { AppendUniqueKeepsDistinct(s.serviceDirs, child.value.serviceDirs); }
    }
  }

  lemma {:induction false} NamesDistinct(env: Env, dir: string, names: seq<string>, s: Settings, included: seq<string>)
    requires NoRepeats(s.serviceDirs)
    ensures NoRepeats(IncludeNames(env, dir, names, s, included).serviceDirs)
    decreases Unseen(env, included), 1, 0, |names|
  {
    if names != [] {
      var path := env.fullPath(dir, names[0]);
      IncludedDistinct(env, path, true, s, included);
      var r := IncludeFile(env, path, true, s, included);
      NamesDistinct(env, dir, names[1..], if IsConfFile(path) && r.Ok? then r.value else s, included);
    }
  }

  lemma FreshMerge(limits: map<string, int>, own: Settings)
    requires NoRepeats(own.serviceDirs)
    ensures Carried(MergeIncluded(FreshSettings(limits), own)) == Carried(own)
  {
    assert [] + own.serviceDirs == own.serviceDirs;
    AppendDistinct([], own.serviceDirs);
    MergeWithNoPolicies(own.policy);
    assert map[] + own.contexts == own.contexts;
    assert [] + own.listenOn == own.listenOn && [] + own.mechanisms == own.mechanisms
           && [] + own.confDirs == own.confDirs;
  }

  /**
   Loading a configuration with all its includes, however nested, gives the same settings as one file with all of them
   inlined, and fails on the same configurations with the same error.
   */
  lemma IncludingIsInlining(env: Env, path: string)
    ensures match (LoadTop(env, path), InlineTop(env, path))
            case (Ok(s), Ok(t)) => Carried(s) == Carried(t)
            case (Err(e), Err(f)) => e == f
            case _ => false
  {
    if path in env.files {
      FileTracks(env, path, FreshSettings(DEFAULT_LIMITS), []);
      var own := Load(env, path, DEFAULT_LIMITS, []);
      if own.Ok? {
        FileDistinct(env, path, DEFAULT_LIMITS, []);
        FreshMerge(DEFAULT_LIMITS, own.value);
      }
    }
  }
}
