/** Exactly which configuration files without includes are accepted, by the names of their elements. */
module ConfigAcceptance {
  import opened ConfigElements
  import opened ConfigMeaning
  import opened ConfigParser

  // ---------------------------------------------------------------------------------------------
  // Attributes

  /** Attributes of these names only, each at most once. */
  predicate OnlyOnce(attributes: seq<Attribute>, allowed: set<string>) {
    && (forall i :: 0 <= i < |attributes| ==> attributes[i].name in allowed)
    && forall i, j :: 0 <= i < j < |attributes| ==> attributes[i].name != attributes[j].name
  }

  predicate NoneIn(attributes: seq<Attribute>, found: map<string, string>) {
    forall i :: 0 <= i < |attributes| ==> attributes[i].name !in found
  }

  lemma OnlyOnceFirst(a: Attribute, rest: seq<Attribute>, allowed: set<string>, found: map<string, string>)
    ensures OnlyOnce([a] + rest, allowed) && NoneIn([a] + rest, found)
            <==> a.name in allowed && a.name !in found
                 && OnlyOnce(rest, allowed) && NoneIn(rest, found[a.name := a.value])
  {
    var all := [a] + rest;
    assert all[0] == a && forall i :: 0 < i < |all| ==> all[i] == rest[i - 1];
    if OnlyOnce(all, allowed) && NoneIn(all, found) {
      forall i | 0 <= i < |rest|
        ensures rest[i].name in allowed && rest[i].name !in found[a.name := a.value]
      {
        assert all[i + 1] == rest[i] && all[0].name != all[i + 1].name;
      }
      forall i, j | 0 <= i < j < |rest| ensures rest[i].name != rest[j].name {
        assert all[i + 1].name != all[j + 1].name;
      }
    }
  }

  lemma {:induction false} LocateIff(attributes: seq<Attribute>, allowed: set<string>, found: map<string, string>)
    ensures Locate(attributes, allowed, found).Ok? <==> OnlyOnce(attributes, allowed) && NoneIn(attributes, found)
    decreases |attributes|
  {
    if attributes != [] {
      var (a, rest) := (attributes[0], attributes[1..]);
      assert attributes == [a] + rest;
      OnlyOnceFirst(a, rest, allowed, found);
      if a.name in allowed && a.name !in found { LocateIff(rest, allowed, found[a.name := a.value]); }
    }
  }

  lemma LocatedAll(attributes: seq<Attribute>, allowed: set<string>)
    ensures Locate(attributes, allowed, map[]).Ok? <==> OnlyOnce(attributes, allowed)
    ensures Locate(attributes, allowed, map[]).Ok? ==>
              Located(attributes, map[], Locate(attributes, allowed, map[]).value)
  {
    LocateIff(attributes, allowed, map[]);
    LocateFinds(attributes, allowed, map[]);
  }

  /** One attribute, of that name. */
  predicate OneNamed(attributes: seq<Attribute>, name: string) {
    |attributes| == 1 && attributes[0].name == name
  }

  /** Whom a policy may be for. */
  predicate PolicyRight(attributes: seq<Attribute>) {
    || attributes == [Attribute("context", "default")] || attributes == [Attribute("context", "mandatory")]
    || attributes == [Attribute("at_console", "true")] || attributes == [Attribute("at_console", "false")]
    || OneNamed(attributes, "user") || OneNamed(attributes, "group")
  }

  lemma ScopeIff(env: Env, attributes: seq<Attribute>, all: map<string, string>)
    requires Located(attributes, map[], all)
    requires OnlyOnce(attributes, {"context", "user", "group", "at_console"})
    ensures PolicyScope(env, all).Some? <==> PolicyRight(attributes)
  {
    WordsDiffer();
    if |all| == 1 {
      OneAttribute(attributes, all);
      assert attributes == [Attribute(attributes[0].name, attributes[0].value)];
      assert attributes[0].name in {"context", "user", "group", "at_console"};
    }
  }

  lemma PolicyOnlyOnce(attributes: seq<Attribute>)
    requires PolicyRight(attributes)
    ensures OnlyOnce(attributes, {"context", "user", "group", "at_console"})
  {
  }

  lemma PolicyStarts(env: Env, stack: seq<Element>, name: string, attributes: seq<Attribute>)
    requires NameToType(name) == Policy
    ensures StartChild(env, stack, name, attributes).Ok? <==> PolicyRight(attributes)
  {
    var allowed := {"context", "user", "group", "at_console"};
    LocatedAll(attributes, allowed);
    if OnlyOnce(attributes, allowed) {
      ScopeIff(env, attributes, Locate(attributes, allowed, map[]).value);
    } else if PolicyRight(attributes) {
      PolicyOnlyOnce(attributes);
    }
  }

  lemma LimitStarts(env: Env, stack: seq<Element>, name: string, attributes: seq<Attribute>)
    requires NameToType(name) == Limit
    ensures StartChild(env, stack, name, attributes).Ok? <==> OneNamed(attributes, "name")
  {
    LocatedAll(attributes, {"name"});
    assert OnlyOnce(attributes, {"name"}) ==> |attributes| <= 1 by { AtMostOne(attributes); }
    if OneNamed(attributes, "name") { assert attributes[0] in attributes; }
    if attributes == [] { assert "name" !in Locate(attributes, {"name"}, map[]).value; }
  }

  lemma AtMostOne(attributes: seq<Attribute>)
    ensures OnlyOnce(attributes, {"name"}) ==> |attributes| <= 1
  {
    assert |attributes| > 1 && OnlyOnce(attributes, {"name"}) ==> attributes[0].name == attributes[1].name;
  }

  /** Yes or no, if it is given at all. */
  predicate YesNo(attributes: seq<Attribute>) {
    forall a :: a in attributes ==> a.value == "yes" || a.value == "no"
  }

  predicate IncludeRight(attributes: seq<Attribute>) {
    OnlyOnce(attributes, {"ignore_missing", "if_selinux_enabled", "selinux_root_relative"}) && YesNo(attributes)
  }

  /** What is found was there before or is given. */
  ghost predicate Given(attributes: seq<Attribute>, found: map<string, string>, all: map<string, string>) {
    forall key :: key in all ==> (key in found && found[key] == all[key]) || Attribute(key, all[key]) in attributes
  }

  lemma {:induction false} LocatedGiven(attributes: seq<Attribute>, allowed: set<string>, found: map<string, string>)
    ensures Locate(attributes, allowed, found).Ok? ==>
              Given(attributes, found, Locate(attributes, allowed, found).value)
    decreases |attributes|
  {
    if attributes != [] && attributes[0].name in allowed && attributes[0].name !in found {
      var a := attributes[0];
      LocatedGiven(attributes[1..], allowed, found[a.name := a.value]);
      assert a == Attribute(a.name, a.value) && a in attributes;
    }
  }

  lemma YesNoIff(attributes: seq<Attribute>, found: map<string, string>, allowed: set<string>)
    requires Located(attributes, map[], found) && Given(attributes, map[], found) && OnlyOnce(attributes, allowed)
    ensures YesNo(attributes) <==> forall name :: name in allowed ==> YesOrNo(found, name).Some?
  {
    if YesNo(attributes) {
      forall name | name in allowed ensures YesOrNo(found, name).Some? {
        if name in found { assert Attribute(name, found[name]) in attributes; }
      }
    } else {
      var a :| a in attributes && a.value != "yes" && a.value != "no";
      assert a.name in allowed && found[a.name] == a.value;
    }
  }

  lemma IncludeStarts(stack: seq<Element>, attributes: seq<Attribute>)
    ensures StartInclude(stack, attributes).Ok? <==> IncludeRight(attributes)
  {
    var allowed := {"ignore_missing", "if_selinux_enabled", "selinux_root_relative"};
    LocatedAll(attributes, allowed);
    LocatedGiven(attributes, allowed, map[]);
    if OnlyOnce(attributes, allowed) {
      YesNoIff(attributes, Locate(attributes, allowed, map[]).value, allowed);
    }
  }

  // ---------------------------------------------------------------------------------------------
  // Names

  /** The elements that have a text, and no attributes. */
  predicate IsTextual(name: string) {
    || name == "user" || name == "type" || name == "listen" || name == "pidfile" || name == "auth"
    || name == "servicedir" || name == "servicehelper" || name == "includedir"
  }

  /** Those that have neither. */
  predicate IsBare(name: string) {
    || name == "fork" || name == "syslog" || name == "keep_umask" || name == "allow_anonymous"
    || name == "standard_session_servicedirs" || name == "standard_system_servicedirs" || name == "selinux"
  }

  predicate HasText(name: string) {
    IsTextual(name) || name == "include" || name == "limit"
  }

  lemma TextualNames(name: string)
    ensures IsTextual(name)
            <==> NameToType(name) in {User, ConfigType, Listen, PidFile, Auth, ServiceDir, ServiceHelper, IncludeDir}
  {
    TextNames(name);
    InclusionNames(name);
  }

  lemma BareNames(name: string)
    ensures IsBare(name) <==> NameToType(name) in {Fork, Syslog, KeepUmask, AllowAnonymous, StandardSessionServiceDirs,
                                                   StandardSystemServiceDirs, SELinux}
  {
    FlagNames(name);
    TableNames(name);
  }

  lemma HasTextIff(name: string)
    ensures HasText(name) <==> NameToType(name) in CONTENT_ELEMENTS
  {
    TextualNames(name);
    InclusionNames(name);
    TableNames(name);
  }

  /** What may stand in busconfig. */
  predicate ChildRight(name: string, attributes: seq<Attribute>) {
    || ((IsTextual(name) || IsBare(name)) && attributes == [])
    || (name == "include" && IncludeRight(attributes))
    || (name == "policy" && PolicyRight(attributes))
    || (name == "limit" && OneNamed(attributes, "name"))
  }

  /** The types of the elements that have no attributes. */
  predicate TakesNone(kind: ElementType) {
    kind in {User, ConfigType, Listen, PidFile, Auth, ServiceDir, ServiceHelper, IncludeDir, Fork, Syslog, KeepUmask,
             AllowAnonymous, StandardSessionServiceDirs, StandardSystemServiceDirs, SELinux}
  }

  predicate KindRight(kind: ElementType, attributes: seq<Attribute>) {
    if TakesNone(kind) then attributes == []
    else if kind == Include then IncludeRight(attributes)
    else if kind == Policy then PolicyRight(attributes)
    else kind == Limit && OneNamed(attributes, "name")
  }

  lemma ChildByKind(env: Env, stack: seq<Element>, name: string, attributes: seq<Attribute>)
    ensures StartChild(env, stack, name, attributes).Ok? <==> KindRight(NameToType(name), attributes)
  {
    var kind := NameToType(name);
    if kind == Include {
      IncludeStarts(stack, attributes);
    } else if kind == Policy {
      PolicyStarts(env, stack, name, attributes);
    } else if kind == Limit {
      LimitStarts(env, stack, name, attributes);
    }
  }

  lemma ChildByName(name: string, kind: ElementType, attributes: seq<Attribute>)
    requires IsTextual(name) || IsBare(name) <==> TakesNone(kind)
    requires (name == "include" <==> kind == Include) && (name == "policy" <==> kind == Policy)
    requires name == "limit" <==> kind == Limit
    ensures KindRight(kind, attributes) <==> ChildRight(name, attributes)
  {
  }

  lemma ChildStarts(env: Env, stack: seq<Element>, name: string, attributes: seq<Attribute>)
    ensures StartChild(env, stack, name, attributes).Ok? <==> ChildRight(name, attributes)
  {
    TextualNames(name);
    BareNames(name);
    InclusionNames(name);
    TableNames(name);
    ChildByKind(env, stack, name, attributes);
    ChildByName(name, NameToType(name), attributes);
  }

  /** The policy is for a user or a group that there is. */
  predicate ForSome(env: Env, attributes: seq<Attribute>) {
    || (OneNamed(attributes, "user") && env.findUser(attributes[0].value).Some?)
    || (OneNamed(attributes, "group") && env.findGroup(attributes[0].value).Some?)
  }

  /** A rule that may stand in a policy with these attributes. */
  predicate RuleRight(env: Env, policy: seq<Attribute>, name: string, attributes: seq<Attribute>) {
    && (name == "allow" || name == "deny")
    && match env.makeRule(name == "allow", attributes)
       case RuleRejected => false
       case RuleDropped => true
       case RuleMade(_, perClient) => perClient || !ForSome(env, policy)
  }

  lemma ScopeOfSome(env: Env, x: Element, y: OpenElement)
    requires SameElement(env, x, y) && x.kind == Policy
    ensures x.scope.ForUser? || x.scope.ForGroup? <==> ForSome(env, y.attributes)
  {
    if x.scope.ForUser? { assert IsFor(env, y.attributes, x.scope); }
    if x.scope.ForGroup? { assert IsFor(env, y.attributes, x.scope); }
    if OneNamed(y.attributes, "user") && env.findUser(y.attributes[0].value).Some? {
      assert IsFor(env, y.attributes, ForUser(env.findUser(y.attributes[0].value).value));
    } else if ForSome(env, y.attributes) {
      assert IsFor(env, y.attributes, ForGroup(env.findGroup(y.attributes[0].value).value));
    }
  }

  lemma RuleStarts(env: Env, stack: seq<Element>, y: OpenElement, name: string, attributes: seq<Attribute>)
    requires stack != [] && SameElement(env, stack[|stack| - 1], y) && TopType(stack) == Policy
    ensures StartRule(env, stack, name, attributes).Ok? <==> RuleRight(env, y.attributes, name, attributes)
  {
    ScopeOfSome(env, stack[|stack| - 1], y);
  }

  /** Two attributes, of these names. */
  predicate OwnAndContext(attributes: seq<Attribute>) {
    && |attributes| == 2
    && ((attributes[0].name == "own" && attributes[1].name == "context")
        || (attributes[0].name == "context" && attributes[1].name == "own"))
  }

  lemma AssociateStarts(stack: seq<Element>, name: string, attributes: seq<Attribute>)
    ensures StartAssociate(stack, name, attributes).Ok? <==> name == "associate" && OwnAndContext(attributes)
  {
    var allowed := {"own", "context"};
    assert |"own"| == 3 && |"context"| == 7;
    LocatedAll(attributes, allowed);
    LocatedGiven(attributes, allowed, map[]);
    if OwnAndContext(attributes) {
      assert attributes[0] in attributes && attributes[1] in attributes && OnlyOnce(attributes, allowed);
    } else if StartAssociate(stack, name, attributes).Ok? {
      BothGiven(attributes, Locate(attributes, allowed, map[]).value);
    }
  }

  lemma AtMostTwo(attributes: seq<Attribute>)
    ensures OnlyOnce(attributes, {"own", "context"}) ==> |attributes| <= 2
  {
    if |attributes| > 2 {
      var (x, y, z) := (attributes[0].name, attributes[1].name, attributes[2].name);
      var names := {"own", "context"};
      assert !(x in names && y in names && z in names && x != y && x != z && y != z);
    }
  }

  lemma BothGiven(attributes: seq<Attribute>, all: map<string, string>)
    requires OnlyOnce(attributes, {"own", "context"}) && Given(attributes, map[], all)
    requires "own" in all && "context" in all
    ensures OwnAndContext(attributes)
  {
    var a, b := Attribute("own", all["own"]), Attribute("context", all["context"]);
    var i :| 0 <= i < |attributes| && attributes[i] == a;
    var j :| 0 <= j < |attributes| && attributes[j] == b;
    assert |"own"| == 3 && |"context"| == 7;
    AtMostTwo(attributes);
  }

  // ---------------------------------------------------------------------------------------------
  // Events

  /** An element that is open, with the texts it had so far. */
  datatype ReadElement = ReadElement(name: string, attributes: seq<Attribute>, texts: seq<string>)

  function AsOpen(x: ReadElement): OpenElement {
    OpenElement(x.name, x.attributes, if x.texts == [] then "" else x.texts[|x.texts| - 1])
  }

  function OpensOf(read: seq<ReadElement>): seq<OpenElement> {
    seq(|read|, i requires 0 <= i < |read| => AsOpen(read[i]))
  }

  /** The elements that are open after an event. */
  function ReadOn(read: seq<ReadElement>, e: Event): seq<ReadElement> {
    match e
    case Start(name, attributes) => read + [ReadElement(name, attributes, [])]
    case End(_) => if read == [] then [] else read[..|read| - 1]
    case Text(text) =>
      if read == [] then []
      else read[|read| - 1 := read[|read| - 1].(texts := read[|read| - 1].texts + [text])]
  }

  lemma OpensOn(read: seq<ReadElement>, e: Event)
    ensures OpensOf(ReadOn(read, e)) == Opened(OpensOf(read), e)
  {
  }

  predicate OnlyWhite(s: string) {
    forall c :: c in s ==> c == ' ' || c == '\t' || c == '\n' || c == '\r'
  }

  /** A start where it may stand. */
  predicate StartRight(env: Env, read: seq<ReadElement>, name: string, attributes: seq<Attribute>) {
    if read == [] then name == "busconfig" && attributes == []
    else
      var parent := read[|read| - 1];
      || (parent.name == "busconfig" && ChildRight(name, attributes))
      || (parent.name == "policy" && RuleRight(env, parent.attributes, name, attributes))
      || (parent.name == "selinux" && name == "associate" && OwnAndContext(attributes))
  }

  /** The end of the innermost element, which had its text if it needs one; a limit had a number in its range. */
  predicate EndRight(env: Env, read: seq<ReadElement>, name: string) {
    && read != []
    && var x := read[|read| - 1];
    && x.name == name && (HasText(name) ==> x.texts != [])
    && (name == "limit" ==> var value := env.parseInt(AsOpen(x).text);
                            value.Some? && InRange((ValueOf(x.attributes, "name"), value.value)))
  }

  /** One text in an element that needs one, a number in a limit, and white space elsewhere. */
  predicate TextRight(env: Env, read: seq<ReadElement>, text: string) {
    && read != []
    && var x := read[|read| - 1];
    && (if HasText(x.name) then x.texts == [] else OnlyWhite(text))
    && (x.name == "limit" ==> env.parseInt(text).Some?)
  }

  predicate Right(env: Env, read: seq<ReadElement>, e: Event) {
    match e
    case Start(name, attributes) => StartRight(env, read, name, attributes)
    case End(name) => EndRight(env, read, name)
    case Text(text) => TextRight(env, read, text)
  }

  predicate Marked(x: Element, y: ReadElement) {
    x.hadContent <==> HasText(y.name) && y.texts != []
  }

  predicate AllMarked(stack: seq<Element>, read: seq<ReadElement>) {
    |stack| == |read| && forall i :: 0 <= i < |stack| ==> Marked(stack[i], read[i])
  }

  /** The parser's stack is what was read. */
  ghost predicate Agrees(env: Env, stack: seq<Element>, read: seq<ReadElement>) {
    Matches(env, stack, OpensOf(read)) && AllMarked(stack, read)
  }

  lemma TopAgrees(env: Env, stack: seq<Element>, read: seq<ReadElement>)
    requires Agrees(env, stack, read) && stack != []
    ensures var (x, y) := (stack[|stack| - 1], read[|read| - 1]);
            SameElement(env, x, AsOpen(y)) && Marked(x, y) && x.kind == NameToType(y.name) && x.kind != NoElement
  {
    assert OpensOf(read)[|read| - 1] == AsOpen(read[|read| - 1]);
  }

  /** The same by the type of the element around it. */
  lemma StartByKind(env: Env, stack: seq<Element>, y: OpenElement, name: string, attributes: seq<Attribute>)
    requires stack != [] && SameElement(env, stack[|stack| - 1], y)
    ensures StartElement(env, stack, name, attributes).Ok?
            <==> match TopType(stack)
                 case BusConfig => ChildRight(name, attributes)
                 case Policy => RuleRight(env, y.attributes, name, attributes)
                 case SELinux => name == "associate" && OwnAndContext(attributes)
                 case _ => false
  {
    match TopType(stack)
    case BusConfig => ChildStarts(env, stack, name, attributes);
    case Policy => RuleStarts(env, stack, y, name, attributes);
    case SELinux => AssociateStarts(stack, name, attributes);
    case _ =>
  }

  lemma StartIff(env: Env, stack: seq<Element>, read: seq<ReadElement>, name: string, attributes: seq<Attribute>)
    requires Agrees(env, stack, read)
    ensures StartElement(env, stack, name, attributes).Ok? <==> StartRight(env, read, name, attributes)
  {
    if stack != [] {
      var parent := read[|read| - 1];
      TopAgrees(env, stack, read);
      StartByKind(env, stack, AsOpen(parent), name, attributes);
      assert (parent.name == "busconfig" <==> TopType(stack) == BusConfig)
             && (parent.name == "policy" <==> TopType(stack) == Policy)
             && (parent.name == "selinux" <==> TopType(stack) == SELinux) by { TableNames(parent.name); }
    }
  }

  lemma EndIff(env: Env, stack: seq<Element>, read: seq<ReadElement>, name: string)
    requires Agrees(env, stack, read)
    ensures EndElement(stack, name).Ok? <==> EndRight(env, read, name)
  {
    if stack != [] {
      var (x, y) := (stack[|stack| - 1], read[|read| - 1]);
      TopAgrees(env, stack, read);
      NamesAndTypes(x.kind, y.name);
      HasTextIff(y.name);
      TableNames(y.name);
      AllowedIffInRange(x.limitName, x.limitValue);
    }
  }

  lemma WhiteIff(s: string)
    ensures AllWhitespace(s) <==> OnlyWhite(s)
  {
    if AllWhitespace(s) {
      forall c | c in s ensures c == ' ' || c == '\t' || c == '\n' || c == '\r' {
        var i :| 0 <= i < |s| && s[i] == c;
        assert IsWhite(s[i]);
      }
    } else if OnlyWhite(s) {
      forall i | 0 <= i < |s| ensures IsWhite(s[i]) { assert s[i] in s; }
    }
  }

  /** The same by the type of the element. */
  lemma TextByKind(env: Env, basedir: string, stack: seq<Element>, text: string)
    requires stack != [] && TopType(stack) !in {NoElement, Include, IncludeDir}
    ensures var x := stack[|stack| - 1];
            PlainContent(env, basedir, stack, text).Ok?
            <==> !x.hadContent && (if x.kind in CONTENT_ELEMENTS then true else AllWhitespace(text))
                 && (x.kind == Limit ==> env.parseInt(text).Some?)
  {
  }

  lemma TextByName(env: Env, x: Element, y: ReadElement, text: string)
    requires Marked(x, y) && (y.name == "limit" <==> x.kind == Limit)
    requires HasText(y.name) <==> x.kind in CONTENT_ELEMENTS
    ensures !x.hadContent && (if x.kind in CONTENT_ELEMENTS then true else OnlyWhite(text))
            && (x.kind == Limit ==> env.parseInt(text).Some?)
            <==> (if HasText(y.name) then y.texts == [] else OnlyWhite(text))
                 && (y.name == "limit" ==> env.parseInt(text).Some?)
  {
  }

  lemma TextIff(env: Env, basedir: string, stack: seq<Element>, read: seq<ReadElement>, text: string)
    requires Agrees(env, stack, read) && TopType(stack) !in {Include, IncludeDir}
    ensures PlainContent(env, basedir, stack, text).Ok? <==> TextRight(env, read, text)
  {
    if stack != [] {
      var (x, y) := (stack[|stack| - 1], read[|read| - 1]);
      TopAgrees(env, stack, read);
      HasTextIff(y.name);
      assert y.name == "limit" <==> x.kind == Limit by { TableNames(y.name); }
      WhiteIff(text);
      TextByKind(env, basedir, stack, text);
      TextByName(env, x, y, text);
    }
  }

  lemma StartMarks(stack: seq<Element>, pushed: seq<Element>, read: seq<ReadElement>, name: string,
                   attributes: seq<Attribute>)
    requires AllMarked(stack, read)
    requires |pushed| == |stack| + 1 && pushed[..|stack|] == stack && !pushed[|stack|].hadContent
    ensures AllMarked(pushed, ReadOn(read, Start(name, attributes)))
  {
    forall i | 0 <= i < |stack| ensures pushed[i] == stack[i] { assert pushed[..|stack|][i] == stack[i]; }
  }

  lemma TextMarksOn(stack: seq<Element>, stack': seq<Element>, read: seq<ReadElement>, text: string)
    requires AllMarked(stack, read) && stack != []
    requires |stack'| == |stack| && stack'[..|stack| - 1] == stack[..|stack| - 1]
    requires stack'[|stack| - 1].hadContent <==> HasText(read[|read| - 1].name)
    ensures AllMarked(stack', ReadOn(read, Text(text)))
  {
    forall i | 0 <= i < |stack| - 1 ensures stack'[i] == stack[i] {
      assert stack'[..|stack| - 1][i] == stack[..|stack| - 1][i];
    }
  }

  /** What an accepted event does to the marks on the stack. */
  lemma MarksOn(env: Env, basedir: string, stack: seq<Element>, read: seq<ReadElement>, e: Event)
    requires Agrees(env, stack, read) && MoveOf(env, basedir, stack, e).Ok?
    requires TopType(stack) !in {Include, IncludeDir}
    ensures AllMarked(MoveOf(env, basedir, stack, e).value.stack, ReadOn(read, e))
  {
    var stack' := MoveOf(env, basedir, stack, e).value.stack;
    match e
    case Start(name, attributes) =>
      StartPushes(env, stack, name, attributes);
      StartMarks(stack, stack', read, name, attributes);
    case End(_) =>
    case Text(text) =>
      TopAgrees(env, stack, read);
      TextMarksIt(env, basedir, stack, text);
      HasTextIff(read[|read| - 1].name);
      TextMarksOn(stack, stack', read, text);
  }

  lemma ChildPushes(env: Env, stack: seq<Element>, name: string, attributes: seq<Attribute>)
    requires StartChild(env, stack, name, attributes).Ok?
    ensures var pushed := StartChild(env, stack, name, attributes).value.stack;
            |pushed| == |stack| + 1 && pushed[..|stack|] == stack && !pushed[|stack|].hadContent
  {
  }

  lemma StartPushes(env: Env, stack: seq<Element>, name: string, attributes: seq<Attribute>)
    requires StartElement(env, stack, name, attributes).Ok?
    ensures var pushed := StartElement(env, stack, name, attributes).value.stack;
            |pushed| == |stack| + 1 && pushed[..|stack|] == stack && !pushed[|stack|].hadContent
  {
    if TopType(stack) == BusConfig { ChildPushes(env, stack, name, attributes); }
  }

  lemma TextMarksIt(env: Env, basedir: string, stack: seq<Element>, text: string)
    requires stack != [] && TopType(stack) !in {NoElement, Include, IncludeDir}
    requires PlainContent(env, basedir, stack, text).Ok?
    ensures var (x, stack') := (stack[|stack| - 1], PlainContent(env, basedir, stack, text).value.stack);
            && |stack'| == |stack| && stack'[..|stack| - 1] == stack[..|stack| - 1]
            && (stack'[|stack| - 1].hadContent <==> x.kind in CONTENT_ELEMENTS)
  {
  }

  /** One event is accepted if and only if it may stand where it stands. */
  lemma EventIff(env: Env, e: Event, basedir: string, c: Cursor, included: seq<string>, read: seq<ReadElement>)
    requires Agrees(env, c.stack, read) && NoneIncludes(OpensOf(read)) && IsPlain(e)
    ensures var r := HandleEvent(env, e, basedir, c, included);
            && (r.Ok? <==> Right(env, read, e))
            && (r.Ok? ==> Agrees(env, r.value.stack, ReadOn(read, e)) && NoneIncludes(OpensOf(ReadOn(read, e))))
  {
    var open := OpensOf(read);
    NotIncluding(env, c.stack, open);
    HandlesAsMove(env, e, basedir, c, included);
    match e {
      case Start(name, attributes) => StartIff(env, c.stack, read, name, attributes);
      case End(name) => EndIff(env, c.stack, read, name);
      case Text(text) => TextIff(env, basedir, c.stack, read, text);
    }
    if MoveOf(env, basedir, c.stack, e).Ok? {
      OpensOn(read, e);
      MoveSteps(env, e, basedir, c.stack, open, c.settings);
      MarksOn(env, basedir, c.stack, read, e);
      StillNone(open, e);
    }
  }

  // ---------------------------------------------------------------------------------------------
  // Files

  function ReadAll(read: seq<ReadElement>, events: seq<Event>): seq<ReadElement>
    decreases |events|
  {
    if events == [] then read else ReadAll(ReadOn(read, events[0]), events[1..])
  }

  /** Every event may stand where it stands. */
  predicate AllRight(env: Env, read: seq<ReadElement>, events: seq<Event>)
    decreases |events|
  {
    events == [] || (Right(env, read, events[0]) && AllRight(env, ReadOn(read, events[0]), events[1..]))
  }

  lemma {:induction false} EventsIff(env: Env, events: seq<Event>, basedir: string, c: Cursor, included: seq<string>,
                                     read: seq<ReadElement>)
    requires Agrees(env, c.stack, read) && NoneIncludes(OpensOf(read)) && NoIncludes(events)
    ensures var r := RunEvents(env, events, basedir, c, included);
            && (r.Ok? <==> AllRight(env, read, events))
            && (r.Ok? ==> Agrees(env, r.value.stack, ReadAll(read, events)))
    decreases |events|
  {
    if events != [] {
      assert events[0] in events;
      EventIff(env, events[0], basedir, c, included, read);
      var one := HandleEvent(env, events[0], basedir, c, included);
      if one.Ok? { EventsIff(env, events[1..], basedir, one.value, included, ReadOn(read, events[0])); }
    }
  }

  /** A file without includes loads if and only if it is well-formed, and all stands where it may. */
  lemma FileLoadsIff(env: Env, path: string, limits: map<string, int>, included: seq<string>)
    requires path in env.files && env.files[path].Document? && NoIncludes(env.files[path].events)
    ensures var file := env.files[path];
            Load(env, path, limits, included).Ok?
            <==> file.wellFormed && AllRight(env, [], file.events) && ReadAll([], file.events) == []
  {
    var file := env.files[path];
    var start := Cursor([], FreshSettings(limits));
    assert Agrees(env, [], []);
    EventsIff(env, file.events, env.dirname(path), start, included, []);
  }

  /** The bus takes it for its configuration if and only if there is also an address to listen on. */
  lemma TopLoadsIff(env: Env, path: string)
    requires path in env.files && env.files[path].Document? && NoIncludes(env.files[path].events)
    ensures var file := env.files[path];
            LoadTop(env, path).Ok?
            <==> file.wellFormed && AllRight(env, [], file.events) && ReadAll([], file.events) == []
                 && TextsOf([], file.events, "listen") != []
  {
    FileLoadsIff(env, path, DEFAULT_LIMITS, []);
    FileMeans(env, path, DEFAULT_LIMITS, []);
  }

  /** A limit that is not given; -1 is none. */
  function DefaultLimit(name: string): int {
    match name
    case "max_incoming_bytes" => 133169152
    case "max_outgoing_bytes" => 133169152
    case "max_message_size" => 33554432
    case "max_incoming_unix_fds" => 4096
    case "max_outgoing_unix_fds" => 4096
    case "max_message_unix_fds" => 1024
    case "service_start_timeout" => 25000
    case "auth_timeout" => 30000
    case "max_incomplete_connections" => 64
    case "max_connections_per_user" => 256
    case "max_completed_connections" => 2048
    case "max_pending_service_starts" => 512
    case "max_names_per_connection" => 512
    case "max_match_rules_per_connection" => 512
    case "max_replies_per_connection" => 8192
    case _ => -1
  }

  /** A limit that a configuration does not set has its default. */
  lemma UnsetIsDefault(env: Env, path: string, name: string)
    requires path in env.files && env.files[path].Document? && NoIncludes(env.files[path].events)
    requires name in LIMIT_NAMES && LastFor(LimitsOf(env, [], env.files[path].events), name).None?
    ensures LoadTop(env, path).Ok? ==>
              name in LoadTop(env, path).value.limits && LoadTop(env, path).value.limits[name] == DefaultLimit(name)
  {
    FileMeans(env, path, DEFAULT_LIMITS, []);
    DefaultsAre(name);
  }

  lemma DefaultsAre(name: string)
    requires name in LIMIT_NAMES
    ensures name in DEFAULT_LIMITS && DEFAULT_LIMITS[name] == DefaultLimit(name)
  {
  }
}
