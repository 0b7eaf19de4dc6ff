/**
 The shape of the element stack, and the second parser: config-parser-trivial.c reads the same events but remembers
 only the type of the last element that started.
 */
module ConfigStack {
  import opened ConfigElements
  import opened ConfigParser

  /** The elements that may stand directly inside busconfig. */
  const CHILDREN: set<ElementType> := CONTENT_ELEMENTS +
    {Policy, SELinux, Fork, Syslog, KeepUmask, StandardSessionServiceDirs, StandardSystemServiceDirs, AllowAnonymous}

  /** Everything an accepted stream can have on the stack. */
  predicate Shaped(stack: seq<Element>) {
    match |stack|
    case 0 => true
    case 1 => stack[0].kind == BusConfig
    case 2 => stack[0].kind == BusConfig && stack[1].kind in CHILDREN
    case 3 =>
      && stack[0].kind == BusConfig
      && ((stack[1].kind == Policy && stack[2].kind in {Allow, Deny})
          || (stack[1].kind == SELinux && stack[2].kind == Associate))
    case _ => false
  }

  /** An accepted start tag pushes one element of its own type and leaves the rest of the stack. */
  ghost predicate Pushes(stack: seq<Element>, r: Result<Move>, name: string) {
    r.Ok? ==>
      && |r.value.stack| == |stack| + 1 && r.value.stack[..|stack|] == stack
      && r.value.stack[|stack|].kind == NameToType(name)
  }

  lemma ChildPushes(env: Env, stack: seq<Element>, name: string, attributes: seq<Attribute>)
    ensures Pushes(stack, StartChild(env, stack, name, attributes), name)
  {
  }

  lemma ChildIsChild(env: Env, stack: seq<Element>, name: string, attributes: seq<Attribute>)
    ensures StartChild(env, stack, name, attributes).Ok? ==> NameToType(name) in CHILDREN
  {
  }

  lemma RuleShaped(env: Env, stack: seq<Element>, name: string, attributes: seq<Attribute>)
    requires stack != []
    ensures var r := StartRule(env, stack, name, attributes);
            Pushes(stack, r, name) && (r.Ok? ==> NameToType(name) in {Allow, Deny})
  {
    assert NameToType("allow") == Allow && NameToType("deny") == Deny;
  }

  lemma AssociateShaped(stack: seq<Element>, name: string, attributes: seq<Attribute>)
    ensures var r := StartAssociate(stack, name, attributes);
            Pushes(stack, r, name) && (r.Ok? ==> NameToType(name) == Associate)
  {
  }

  /** The shapes that a start tag leads to, by the element it stands in. */
  lemma PushShaped(stack: seq<Element>, pushed: seq<Element>)
    requires Shaped(stack) && |pushed| == |stack| + 1 && pushed[..|stack|] == stack
    requires match TopType(stack)
             case NoElement => pushed[|stack|].kind == BusConfig
             case BusConfig => pushed[|stack|].kind in CHILDREN
             case Policy => pushed[|stack|].kind in {Allow, Deny}
             case SELinux => pushed[|stack|].kind == Associate
             case _ => false
    ensures Shaped(pushed)
  {
    assert forall i :: 0 <= i < |stack| ==> pushed[i] == stack[i];
  }

  lemma StartPushes(env: Env, stack: seq<Element>, name: string, attributes: seq<Attribute>)
    ensures Pushes(stack, StartElement(env, stack, name, attributes), name)
  {
    match TopType(stack)
    case NoElement =>
    case BusConfig => ChildPushes(env, stack, name, attributes);
    case Policy => RuleShaped(env, stack, name, attributes);
    case SELinux => AssociateShaped(stack, name, attributes);
    case _ =>
  }

  lemma StartShaped(env: Env, stack: seq<Element>, name: string, attributes: seq<Attribute>)
    requires Shaped(stack)
    ensures var r := StartElement(env, stack, name, attributes);
            Pushes(stack, r, name) && (r.Ok? ==> Shaped(r.value.stack))
  {
    StartPushes(env, stack, name, attributes);
    var r := StartElement(env, stack, name, attributes);
    if r.Ok? {
      match TopType(stack) {
        case BusConfig => ChildIsChild(env, stack, name, attributes);
        case Policy => RuleShaped(env, stack, name, attributes);
        case SELinux => AssociateShaped(stack, name, attributes);
        case _ =>
      }
      PushShaped(stack, r.value.stack);
    }
  }

  /** What is left when an element ends can hold elements, so it expects no text. */
  lemma PopShaped(stack: seq<Element>)
    requires Shaped(stack) && stack != []
    ensures var popped := stack[..|stack| - 1]; Shaped(popped) && TopType(popped) !in CONTENT_ELEMENTS
  {
  }

  lemma EndShaped(stack: seq<Element>, name: string)
    requires Shaped(stack)
    ensures var r := EndElement(stack, name);
            r.Ok? ==> Shaped(r.value.stack) && TopType(r.value.stack) !in CONTENT_ELEMENTS
  {
    if stack != [] { PopShaped(stack); }
  }

  lemma MarkedShaped(stack: seq<Element>, top: Element)
    requires Shaped(stack) && stack != [] && top.kind == stack[|stack| - 1].kind
    ensures var marked := stack[|stack| - 1 := top]; Shaped(marked) && TopType(marked) == TopType(stack)
  {
  }

  /** Accepted text leaves the stack as it was, but for what it says of its own element. */
  lemma PlainTextMarks(env: Env, basedir: string, stack: seq<Element>, content: string)
    ensures var r := PlainContent(env, basedir, stack, content);
            r.Ok? ==> stack != [] && |r.value.stack| == |stack|
                      && (exists top: Element ::
                             top.kind == stack[|stack| - 1].kind && r.value.stack == stack[|stack| - 1 := top])
  {
    var r := PlainContent(env, basedir, stack, content);
    if r.Ok? { assert r.value.stack == stack[|stack| - 1 := r.value.stack[|stack| - 1]]; }
  }

  lemma PlainTextShaped(env: Env, basedir: string, stack: seq<Element>, content: string)
    requires Shaped(stack)
    ensures var r := PlainContent(env, basedir, stack, content);
            r.Ok? ==> Shaped(r.value.stack) && TopType(r.value.stack) == TopType(stack)
  {
    PlainTextMarks(env, basedir, stack, content);
    var r := PlainContent(env, basedir, stack, content);
    if r.Ok? {
      var top: Element :| top.kind == stack[|stack| - 1].kind && r.value.stack == stack[|stack| - 1 := top];
      MarkedShaped(stack, top);
    }
  }

  lemma TextShaped(env: Env, content: string, basedir: string, c: Cursor, included: seq<string>)
    requires Shaped(c.stack)
    ensures var r := HandleEvent(env, Text(content), basedir, c, included);
            r.Ok? ==> Shaped(r.value.stack) && TopType(r.value.stack) == TopType(c.stack)
  {
    PlainTextShaped(env, basedir, c.stack, content);
    if c.stack != [] { MarkedShaped(c.stack, c.stack[|c.stack| - 1].(hadContent := true)); }
  }

  lemma EventShaped(env: Env, event: Event, basedir: string, c: Cursor, included: seq<string>)
    requires Shaped(c.stack)
    ensures var r := HandleEvent(env, event, basedir, c, included);
            r.Ok? ==>
              && Shaped(r.value.stack)
              && (event.Start? ==> TopType(r.value.stack) == NameToType(event.name))
              && (event.End? ==> TopType(r.value.stack) !in CONTENT_ELEMENTS)
              && (event.Text? ==> TopType(r.value.stack) == TopType(c.stack))
  {
    match event
    case Start(name, attributes) => StartShaped(env, c.stack, name, attributes);
    case End(name) => EndShaped(c.stack, name);
    case Text(content) => TextShaped(env, content, basedir, c, included);
  }

  /**
   On every event stream, and at every point of it, an accepting parser's stack is empty, or holds busconfig, or
   busconfig and one child, or a rule inside a policy, or an association inside selinux.
   */
  lemma {:induction false} StackAlwaysShaped(env: Env, events: seq<Event>, basedir: string, c: Cursor,
                                             included: seq<string>)
    requires Shaped(c.stack)
    ensures var r := RunEvents(env, events, basedir, c, included); r.Ok? ==> Shaped(r.value.stack)
    decreases |events|
  {
    if events != [] {
      EventShaped(env, events[0], basedir, c, included);
      var c' := HandleEvent(env, events[0], basedir, c, included);
      if c'.Ok? { StackAlwaysShaped(env, events[1..], basedir, c'.value, included); }
    }
  }

  // ---------------------------------------------------------------------------------------------
  // The trivial parser

  datatype Trivial = Trivial(kind: ElementType, user: string, busType: string, serviceHelper: string,
                             serviceDirs: seq<string>)

  const TRIVIAL := Trivial(NoElement, "", "", "", [])

  function ChopLeft(s: string): string {
    if s != [] && IsWhite(s[0]) then ChopLeft(s[1..]) else s
  }

  function ChopRight(s: string): string {
    if s != [] && IsWhite(s[|s| - 1]) then ChopRight(s[..|s| - 1]) else s
  }

  /** `_dbus_string_chop_white` */
  function Chop(s: string): string {
    ChopRight(ChopLeft(s))
  }

  /** One event of config-parser-trivial.c; a text is inserted before what the setting already holds. */
  function TrivialEvent(env: Env, t: Trivial, event: Event): Trivial {
    match event
    case Start(name, _) =>
      var kind := NameToType(name);
      t.(kind := kind,
         serviceDirs := if kind == StandardSystemServiceDirs then AppendUnique(t.serviceDirs, env.systemDirs)
                        else t.serviceDirs)
    case End(_) => t
    case Text(content) =>
      var text := Chop(content);
      if text == "" then t
      else match t.kind
        case ServiceDir => t.(serviceDirs := t.serviceDirs + [text])
        case ServiceHelper => t.(serviceHelper := text + t.serviceHelper)
        case User => t.(user := text + t.user)
        case ConfigType => t.(busType := text + t.busType)
        case _ => t
  }

  function TrivialEvents(env: Env, t: Trivial, events: seq<Event>): Trivial
    decreases |events|
  {
    if events == [] then t else TrivialEvents(env, TrivialEvent(env, t, events[0]), events[1..])
  }

  /** Inside an element that expects text, the remembered type is that element's. */
  predicate Agrees(stack: seq<Element>, t: Trivial) {
    TopType(stack) in CONTENT_ELEMENTS ==> t.kind == TopType(stack)
  }

  lemma {:induction false} AlwaysAgrees(env: Env, events: seq<Event>, basedir: string, c: Cursor, included: seq<string>,
                                        t: Trivial)
    requires Shaped(c.stack) && Agrees(c.stack, t)
    ensures var r := RunEvents(env, events, basedir, c, included);
            r.Ok? ==> Agrees(r.value.stack, TrivialEvents(env, t, events))
    decreases |events|
  {
    if events != [] {
      EventShaped(env, events[0], basedir, c, included);
      var c' := HandleEvent(env, events[0], basedir, c, included);
      if c'.Ok? { AlwaysAgrees(env, events[1..], basedir, c'.value, included, TrivialEvent(env, t, events[0])); }
    }
  }

  /** Text other than white space is accepted only inside an element that expects it. */
  lemma AcceptedInContent(env: Env, content: string, basedir: string, c: Cursor, included: seq<string>)
    requires !AllWhitespace(content) && HandleEvent(env, Text(content), basedir, c, included).Ok?
    ensures TopType(c.stack) in CONTENT_ELEMENTS
  {
  }

  /**
   Wherever the full parser accepts text other than white space, the trivial parser's one remembered type is the type
   on top of the full parser's stack, so it files the text under the same setting.
   */
  lemma TrivialSeesTheTop(env: Env, before: seq<Event>, content: string, basedir: string, limits: map<string, int>,
                          included: seq<string>)
    requires !AllWhitespace(content)
    ensures var start := Cursor([], FreshSettings(limits));
            var c := RunEvents(env, before, basedir, start, included);
            (c.Ok? && HandleEvent(env, Text(content), basedir, c.value, included).Ok?)
              ==> TrivialEvents(env, TRIVIAL, before).kind == TopType(c.value.stack)
  {
    var start := Cursor([], FreshSettings(limits));
    AlwaysAgrees(env, before, basedir, start, included, TRIVIAL);
    var c := RunEvents(env, before, basedir, start, included);
    if c.Ok? && HandleEvent(env, Text(content), basedir, c.value, included).Ok? {
      AcceptedInContent(env, content, basedir, c.value, included);
    }
  }
}
