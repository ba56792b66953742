/**
 Which positions of a request may be captured, said one position at a time.

 `Allowed` follows a single path downwards and checks the gates it passes.  The theorems
 say that an extraction consists of exactly the non-blank texts at allowed positions, in
 document order, each once, recorded under the path where it sits.
 */
module AllowList {
  import opened Common
  import opened Text
  import opened JsonTree
  import opened Protocols

  // --------------------------------------------------------------- the gates

  predicate IsText(v: Option<Json>) { v.Some? && v.value.Str? }

  /** The text at `key`, trimmed and in lower case; empty when there is none. */
  function Named(fields: seq<Field>, key: string): string {
    match Lookup(fields, key)
    case Some(Str(t)) => Lower(Trim(t))
    case _ => ""
  }

  /** A part whose `type` is missing, no text, empty, "text" or "input_text" in any case. */
  predicate OpenType(kind: Option<Json>) {
    match kind
    case Some(Str(k)) => k == "" || SameLetters(k, "text") || SameLetters(k, "input_text")
    case _ => true
  }

  /** A part object whose own `text` is taken. */
  predicate OpenPart(fields: seq<Field>) {
    IsText(Lookup(fields, "text")) && OpenType(Lookup(fields, "type"))
  }

  /** A message is the user's if its role says so or says nothing. */
  predicate UserRole(fields: seq<Field>) {
    Named(fields, "role") == "" || Named(fields, "role") == "user"
  }

  /** The fields that a request without known structure may carry its prompt in, in their order. */
  const PROMPT_NAMES: seq<string> := ["prompt", "query", "input", "text", "description"]

  /** The gates of the extractors are these. */
  lemma PartAgrees(fields: seq<Field>)
    ensures OpenPart(fields) <==> TextPart(fields)
  {
    var kind := StringOr(fields, "type");
    EqualFoldIsSameLetters(kind, "text");
    EqualFoldIsSameLetters(kind, "input_text");
  }

  lemma RoleAgrees(fields: seq<Field>)
    ensures Named(fields, "role") == Lower(Trim(StringOr(fields, "role")))
  {
    NothingNamed();
  }

  lemma UserAgrees(fields: seq<Field>)
    ensures UserRole(fields) <==> Role(fields) == "user"
  {
    RoleAgrees(fields);
  }

  lemma NothingNamed()
    ensures Lower(Trim("")) == ""
  {
    assert Trim("") == "" && Lower("") == "";
  }

  lemma EventsAgree(fields: seq<Field>)
    ensures Named(fields, "type") == EventType(fields)
  {
    NothingNamed();
  }

  // ---------------------------------------------------------- the allow-list

  predicate NestedLeaf(fields: seq<Field>, p: Path)
    decreases |p|, 0
  {
    var nested := Lookup(fields, "content");
    p != [] && p[0] == Key("content") && nested.Some? && ContentLeaf(nested.value, p[1..])
  }

  predicate PartLeaf(item: Json, p: Path)
    decreases |p|, 1
  {
    match item
    case Str(_) => p == []
    case Obj(fields) => if OpenPart(fields) then p == [Key("text")] else NestedLeaf(fields, p)
    case _ => false
  }

  /** `p` leads from message content `v` to a text that belongs to the message. */
  predicate ContentLeaf(v: Json, p: Path)
    decreases |p|, 2
  {
    match v
    case Str(_) => p == []
    case Arr(items) => p != [] && p[0].At? && p[0].index < |items| && PartLeaf(items[p[0].index], p[1..])
    case Obj(fields) => if IsText(Lookup(fields, "text")) then p == [Key("text")] else NestedLeaf(fields, p)
    case _ => false
  }

  predicate UserLeaf(fields: seq<Field>, p: Path) {
    var content, parts := Lookup(fields, "content"), Lookup(fields, "parts");
    if content.Some? then p != [] && p[0] == Key("content") && ContentLeaf(content.value, p[1..])
    else if parts.Some? then p != [] && p[0] == Key("parts") && ContentLeaf(parts.value, p[1..])
    else IsText(Lookup(fields, "text")) && p == [Key("text")]
  }

  /** Only a message of the user role is open. */
  predicate RoleLeaf(fields: seq<Field>, p: Path) {
    UserRole(fields) && UserLeaf(fields, p)
  }

  predicate ItemLeaf(kind: ItemKind, item: Json, p: Path) {
    match kind
    case MessageItems => item.Obj? && RoleLeaf(item.fields, p)
    case InputItems =>
      || (item.Str? && p == [])
      || (item.Obj? &&
          if Named(item.fields, "role") == "" && Lookup(item.fields, "type") == Some(Str("input_text"))
          then p == [Key("text")] && IsText(Lookup(item.fields, "text"))
          else RoleLeaf(item.fields, p))
    case ContentsItems =>
      && item.Obj?
      && Named(item.fields, "role") !in ["model", "system", "developer"]
      && p != [] && p[0] == Key("parts")
      && Lookup(item.fields, "parts").Some? && ContentLeaf(Lookup(item.fields, "parts").value, p[1..])
  }

  predicate ItemsLeaf(kind: ItemKind, items: seq<Json>, p: Path) {
    p != [] && p[0].At? && p[0].index < |items| && ItemLeaf(kind, items[p[0].index], p[1..])
  }

  /** The array under `key`, if that is what the object holds there. */
  function ArrayAt(fields: seq<Field>, key: string): Option<seq<Json>> {
    match Lookup(fields, key)
    case Some(Arr(items)) => Some(items)
    case _ => None
  }

  predicate ArrayLeaf(kind: ItemKind, fields: seq<Field>, key: string, p: Path) {
    p != [] && p[0] == Key(key) && ArrayAt(fields, key).Some? && ItemsLeaf(kind, ArrayAt(fields, key).value, p[1..])
  }

  predicate PromptLeaf(v: Json, p: Path) {
    || (v.Str? && p == [])
    || (v.Arr? && |p| == 1 && p[0].At? && p[0].index < |v.items| && v.items[p[0].index].Str?)
  }

  predicate PromptFieldLeaf(fields: seq<Field>, p: Path) {
    && p != [] && p[0].Key? && p[0].name in PROMPT_NAMES
    && Lookup(fields, p[0].name).Some? && PromptLeaf(Lookup(fields, p[0].name).value, p[1..])
  }

  predicate GenericLeaf(fields: seq<Field>, p: Path) {
    if ArrayAt(fields, "messages").Some? && ArrayAt(fields, "messages").value != []
    then ArrayLeaf(MessageItems, fields, "messages", p)
    else PromptFieldLeaf(fields, p)
  }

  predicate InputLeaf(fields: seq<Field>, p: Path) {
    && p != [] && p[0] == Key("input")
    && match Lookup(fields, "input")
       case Some(Str(_)) => p[1..] == []
       case Some(Arr(items)) => ItemsLeaf(InputItems, items, p[1..])
       case Some(Obj(inner)) => RoleLeaf(inner, p[1..])
       case _ => false
  }

  /** `p` is a position of the request object from which `protocol` may capture text. */
  predicate Allowed(protocol: string, fields: seq<Field>, p: Path) {
    if protocol == "openai-chat" then
      if ArrayAt(fields, "messages").Some? then ArrayLeaf(MessageItems, fields, "messages", p)
      else GenericLeaf(fields, p)
    else if protocol == "openai-responses" || protocol == "openai-responses-ws" then InputLeaf(fields, p)
    else if protocol == "anthropic-messages" then ArrayLeaf(MessageItems, fields, "messages", p)
    else if protocol == "gemini" then
      if ArrayAt(fields, "contents").Some? then ArrayLeaf(ContentsItems, fields, "contents", p)
      else GenericLeaf(fields, p)
    else GenericLeaf(fields, p)
  }

  predicate ItemEventLeaf(fields: seq<Field>, p: Path) {
    && p != [] && p[0] == Key("item")
    && Lookup(fields, "item").Some? && Lookup(fields, "item").value.Obj?
    && RoleLeaf(Lookup(fields, "item").value.fields, p[1..])
  }

  predicate AllowedFrame(protocol: string, fields: seq<Field>, p: Path) {
    if Named(fields, "type") == "response.create" then InputLeaf(fields, p)
    else if Named(fields, "type") == "conversation.item.create" then ItemEventLeaf(fields, p)
    else Allowed(protocol, fields, p)
  }

  /** The text `t` sits at `p` below `v` and is worth keeping. */
  predicate Holds(v: Json, p: Path, t: string) {
    Follow(v, p) == Some(Str(t)) && !Blank(t)
  }

  // --------------------------------------------- captured if and only if allowed

  lemma StepDown(path: Path, s: Step, p: Path)
    ensures path + [s] <= p <==> path <= p && |path| < |p| && p[|path|] == s
    ensures path + [s] <= p ==> p[|path|..] != [] && p[|path|..][0] == s && p[|path|..][1..] == p[|path| + 1..]
  {
  }

  lemma InLeaf(t: string, path: Path, c: Capture)
    ensures c in Leaf(t, path) <==> path <= c.path && c.path[|path|..] == [] && c.text == t && !Blank(t)
  {
    if path <= c.path && c.path[|path|..] == [] { assert c.path == path; }
  }

  lemma FollowField(v: Json, name: string)
    requires v.Obj?
    ensures Follow(v, [Key(name)]) == Lookup(v.fields, name)
  {
    if Lookup(v.fields, name).Some? {
      assert [Key(name)][1..] == [];
    }
  }

  lemma FollowUnder(v: Json, name: string, p: Path)
    requires v.Obj? && Lookup(v.fields, name).Some? && p != [] && p[0] == Key(name)
    ensures Follow(v, p) == Follow(Lookup(v.fields, name).value, p[1..])
  {
  }

  lemma InRootText(root: Json, key: string, c: Capture)
    requires root.Obj? && StringAt(root.fields, key).Some?
    ensures c in Leaf(StringOr(root.fields, key), [Key(key)])
       <==> c.path != [] && c.path[0] == Key(key) && c.path[1..] == [] && Holds(root, c.path, c.text)
  {
    InLeaf(StringOr(root.fields, key), [Key(key)], c);
    FollowField(root, key);
    if c.path != [] && c.path[0] == Key(key) && c.path[1..] == [] {
      assert c.path == [Key(key)];
    }
  }

  lemma InTextField(v: Json, path: Path, c: Capture)
    requires v.Obj? && StringAt(v.fields, "text").Some?
    ensures c in Leaf(StringOr(v.fields, "text"), path + [Key("text")])
       <==> path <= c.path && c.path[|path|..] == [Key("text")] && Holds(v, c.path[|path|..], c.text)
  {
    StepDown(path, Key("text"), c.path);
    InLeaf(StringOr(v.fields, "text"), path + [Key("text")], c);
    FollowField(v, "text");
  }

  lemma {:induction false} InNested(v: Json, path: Path, c: Capture)
    requires v.Obj?
    ensures c in Nested(v.fields, path)
       <==> path <= c.path && NestedLeaf(v.fields, c.path[|path|..]) && Holds(v, c.path[|path|..], c.text)
    decreases v.fields, 0
  {
    var nested := Lookup(v.fields, "content");
    if nested.Some? {
      StepDown(path, Key("content"), c.path);
      InContent(nested.value, path + [Key("content")], c);
    }
  }

  lemma {:induction false} InPart(item: Json, path: Path, c: Capture)
    ensures c in Part(item, path)
       <==> path <= c.path && PartLeaf(item, c.path[|path|..]) && Holds(item, c.path[|path|..], c.text)
    decreases item, 0
  {
    match item
    case Str(t) => InLeaf(t, path, c);
    case Obj(fields) =>
      PartAgrees(fields);
      if OpenPart(fields) { InTextField(item, path, c); } else { InNested(item, path, c); }
    case _ =>
  }

  /** What a part object gives that does not take its own text. */
  function ContentOf(fields: seq<Field>, path: Path): seq<Capture> {
    match Lookup(fields, "content")
    case Some(v) => Content(v, path + [Key("content")])
    case None => []
  }

  /**
   A part with a text that is not blank gives exactly that text if its `type` is missing, no text, empty, "text"
   or "input_text" in any case, and only then; otherwise it gives what its `content` does.
   */
  lemma PartTakes(fields: seq<Field>, t: string, path: Path)
    requires Lookup(fields, "text") == Some(Str(t)) && !Blank(t)
    ensures var kind := Lookup(fields, "type");
      var open := if kind.Some? && kind.value.Str?
                  then kind.value.text == "" || SameLetters(kind.value.text, "text")
                       || SameLetters(kind.value.text, "input_text")
                  else true;
      && (Part(Obj(fields), path) == [Capture(path + [Key("text")], t)] <==> open)
      && (!open ==> Part(Obj(fields), path) == ContentOf(fields, path))
  {
    PartAgrees(fields);
    var c := Capture(path + [Key("text")], t);
    InNested(Obj(fields), path, c);
    assert c.path[|path|..] == [Key("text")];
    assert [c][0] == c;
  }

  lemma {:induction false} InParts(items: seq<Json>, n: nat, path: Path, c: Capture)
    requires n <= |items|
    ensures c in Parts(items, n, path)
       <==> && path <= c.path && |path| < |c.path|
            && var s, rest := c.path[|path|], c.path[|path| + 1..];
               s.At? && s.index < n && PartLeaf(items[s.index], rest) && Holds(items[s.index], rest, c.text)
    decreases items, 0, n
  {
    if n > 0 {
      InParts(items, n - 1, path, c);
      StepDown(path, At(n - 1), c.path);
      InPart(items[n - 1], path + [At(n - 1)], c);
    }
  }

  lemma {:induction false} InContent(v: Json, path: Path, c: Capture)
    ensures c in Content(v, path)
       <==> path <= c.path && ContentLeaf(v, c.path[|path|..]) && Holds(v, c.path[|path|..], c.text)
    decreases v, 1
  {
    match v
    case Str(t) => InLeaf(t, path, c);
    case Arr(items) =>
      InParts(items, |items|, path, c);
      if path <= c.path && |path| < |c.path| { StepDown(path, c.path[|path|], c.path); }
    case Obj(fields) =>
      if IsText(Lookup(fields, "text")) { InTextField(v, path, c); } else { InNested(v, path, c); }
    case _ =>
  }

  lemma InField(v: Json, name: string, path: Path, c: Capture)
    requires v.Obj? && Lookup(v.fields, name).Some?
    ensures c in Content(Lookup(v.fields, name).value, path + [Key(name)])
       <==> && path <= c.path
            && var p := c.path[|path|..];
               && p != [] && p[0] == Key(name) && ContentLeaf(Lookup(v.fields, name).value, p[1..])
               && Holds(v, p, c.text)
  {
    StepDown(path, Key(name), c.path);
    InContent(Lookup(v.fields, name).value, path + [Key(name)], c);
  }

  lemma InRoleMessage(v: Json, path: Path, c: Capture)
    requires v.Obj?
    ensures c in RoleMessage(v.fields, path).captures
       <==> path <= c.path && RoleLeaf(v.fields, c.path[|path|..]) && Holds(v, c.path[|path|..], c.text)
  {
    UserAgrees(v.fields);
    if UserRole(v.fields) {
      if Lookup(v.fields, "content").Some? { InField(v, "content", path, c); }
      else if Lookup(v.fields, "parts").Some? { InField(v, "parts", path, c); }
      else if StringAt(v.fields, "text").Some? { InTextField(v, path, c); }
    }
  }

  lemma InRootMessage(root: Json, key: string, c: Capture)
    requires root.Obj? && Lookup(root.fields, key).Some? && Lookup(root.fields, key).value.Obj?
    ensures var inner := Lookup(root.fields, key).value.fields;
            (c in RoleMessage(inner, [Key(key)]).captures)
              <==> (&& c.path != [] && c.path[0] == Key(key) && RoleLeaf(inner, c.path[1..])
                    && Holds(root, c.path, c.text))
  {
    InRoleMessage(Lookup(root.fields, key).value, [Key(key)], c);
    if c.path != [] && c.path[0] == Key(key) { FollowUnder(root, key, c.path); }
  }

  /** What an element of a Responses `input` array is gated by. */
  lemma InputGate(fields: seq<Field>)
    ensures (Blank(StringOr(fields, "role")) && StringOr(fields, "type") == "input_text")
       <==> (Named(fields, "role") == "" && Lookup(fields, "type") == Some(Str("input_text")))
  {
    RoleAgrees(fields);
    LowerEmpty(Trim(StringOr(fields, "role")));
    assert |"input_text"| == 10;
  }

  lemma InInputItem(item: Json, path: Path, c: Capture)
    requires item.Obj?
    ensures c in InputItem(item, path).captures
       <==> path <= c.path && ItemLeaf(InputItems, item, c.path[|path|..]) && Holds(item, c.path[|path|..], c.text)
  {
    InputGate(item.fields);
    InRoleMessage(item, path, c);
    if IsText(Lookup(item.fields, "text")) { InTextField(item, path, c); }
    InLeaf("", path + [Key("text")], c);
  }

  lemma InContentsItem(item: Json, path: Path, c: Capture)
    requires item.Obj?
    ensures c in ContentsItem(item, path).captures
       <==> path <= c.path && ItemLeaf(ContentsItems, item, c.path[|path|..]) && Holds(item, c.path[|path|..], c.text)
  {
    RoleAgrees(item.fields);
    if Lookup(item.fields, "parts").Some? { InField(item, "parts", path, c); }
  }

  lemma InItem(kind: ItemKind, item: Json, path: Path, c: Capture)
    ensures c in Item(kind, item, path).captures
       <==> path <= c.path && ItemLeaf(kind, item, c.path[|path|..]) && Holds(item, c.path[|path|..], c.text)
  {
    match item
    case Obj(fields) =>
      match kind {
        case MessageItems => InRoleMessage(item, path, c);
        case InputItems => InInputItem(item, path, c);
        case ContentsItems => InContentsItem(item, path, c);
      }
    case Str(t) => InLeaf(t, path, c);
    case _ =>
  }

  /** Where a path enters the array at `path`, and what it does below the element. */
  predicate Enters(path: Path, n: nat, p: Path) {
    path <= p && |path| < |p| && p[|path|].At? && p[|path|].index < n
  }

  lemma InItems(kind: ItemKind, items: seq<Json>, n: nat, path: Path, c: Capture)
    requires n <= |items|
    ensures c in Items(kind, items, n, path).captures
       <==> Enters(path, n, c.path) && InElement(kind, items[c.path[|path|].index], c.path[|path| + 1..], c.text)
  {
    var leaf := (item: Json, p: Path, t: string) => InElement(kind, item, p, t);
    forall i: nat | i < n
      ensures c in Gate(kind)(items[i], path + [At(i)]).captures
         <==> path + [At(i)] <= c.path && leaf(items[i], c.path[|path| + 1..], c.text)
    {
      InItem(kind, items[i], path + [At(i)], c);
    }
    InEach(items, n, path, Gate(kind), leaf, c);
  }

  /** Membership in `Each`, for any gate that is described one element at a time. */
  lemma {:induction false} InEach(items: seq<Json>, n: nat, path: Path, f: (Json, Path) -> Outcome,
                                  leaf: (Json, Path, string) -> bool, c: Capture)
    requires n <= |items|
    requires forall i: nat :: i < n ==>
      ((c in f(items[i], path + [At(i)]).captures)
        <==> (path + [At(i)] <= c.path && leaf(items[i], c.path[|path| + 1..], c.text)))
    ensures c in Each(items, n, path, f).captures
       <==> Enters(path, n, c.path) && leaf(items[c.path[|path|].index], c.path[|path| + 1..], c.text)
  {
    if n > 0 {
      InEach(items, n - 1, path, f, leaf, c);
      EntersStep(path, n, c.path);
    }
  }

  lemma EntersStep(path: Path, n: nat, p: Path)
    requires n > 0
    ensures Enters(path, n, p) <==> Enters(path, n - 1, p) || path + [At(n - 1)] <= p
    ensures path + [At(n - 1)] <= p ==>
      p[|path|].At? && p[|path|].index == n - 1 && p[|path| + 1..] == p[|path + [At(n - 1)]|..]
    ensures !(Enters(path, n - 1, p) && path + [At(n - 1)] <= p)
  {
    StepDown(path, At(n - 1), p);
  }

  predicate InElement(kind: ItemKind, item: Json, p: Path, t: string) {
    ItemLeaf(kind, item, p) && Holds(item, p, t)
  }

  lemma InArray(kind: ItemKind, root: Json, key: string, c: Capture)
    requires root.Obj? && ArrayAt(root.fields, key).Some?
    ensures var items := ArrayAt(root.fields, key).value;
            (c in Items(kind, items, |items|, [Key(key)]).captures)
              <==> (ArrayLeaf(kind, root.fields, key, c.path) && Holds(root, c.path, c.text))
  {
    var items := ArrayAt(root.fields, key).value;
    InItems(kind, items, |items|, [Key(key)], c);
    if Enters([Key(key)], |items|, c.path) {
      FollowElement(root, key, c.path);
    } else {
      assert !ArrayLeaf(kind, root.fields, key, c.path);
    }
  }

  lemma FollowElement(root: Json, key: string, p: Path)
    requires root.Obj? && ArrayAt(root.fields, key).Some?
    requires Enters([Key(key)], |ArrayAt(root.fields, key).value|, p)
    ensures Follow(root, p) == Follow(ArrayAt(root.fields, key).value[p[1].index], p[2..])
    ensures p[1..] != [] && p[1..][0] == p[1] && p[1..][1..] == p[2..]
  {
    FollowUnder(root, key, p);
    assert p[1..][1..] == p[2..] && p[1..][0] == p[1];
  }

  lemma {:induction false} InStrings(items: seq<Json>, n: nat, path: Path, c: Capture)
    requires n <= |items|
    ensures c in Strings(items, n, path)
       <==> && |c.path| == |path| + 1 && path <= c.path && c.path[|path|].At? && c.path[|path|].index < n
            && items[c.path[|path|].index] == Str(c.text) && !Blank(c.text)
  {
    if n > 0 {
      InStrings(items, n - 1, path, c);
      StepDown(path, At(n - 1), c.path);
      if items[n - 1].Str? { InLeaf(items[n - 1].text, path + [At(n - 1)], c); }
    }
  }

  lemma InPromptField(root: Json, key: string, c: Capture)
    requires root.Obj?
    ensures c in PromptField(root.fields, key)
       <==> c.path != [] && c.path[0] == Key(key) && NamedLeaf(root, key, c.path, c.text)
  {
    match Lookup(root.fields, key)
    case Some(Str(t)) => InRootText(root, key, c);
    case Some(Arr(items)) =>
      InStrings(items, |items|, [Key(key)], c);
      if |c.path| == 2 && c.path[0] == Key(key) && c.path[1].At? && c.path[1].index < |items| {
        var p := c.path[1..];
        assert p[1..] == [] && p[0] == c.path[1];
        FollowUnder(root, key, c.path);
      }
    case _ =>
  }

  predicate NamedLeaf(root: Json, key: string, p: Path, t: string)
    requires root.Obj? && p != []
  {
    Lookup(root.fields, key).Some? && PromptLeaf(Lookup(root.fields, key).value, p[1..]) && Holds(root, p, t)
  }

  lemma {:induction false} InEachName(names: seq<string>, n: nat, f: string -> seq<Capture>,
                                      leaf: string -> bool, c: Capture)
    requires n <= |names|
    requires forall key :: c in f(key) <==> c.path != [] && c.path[0] == Key(key) && leaf(key)
    ensures c in EachName(names, n, f)
       <==> c.path != [] && c.path[0].Key? && c.path[0].name in names[..n] && leaf(c.path[0].name)
  {
    if n > 0 {
      InEachName(names, n - 1, f, leaf, c);
      assert names[..n] == names[..n - 1] + [names[n - 1]];
    }
  }

  lemma InPromptFields(root: Json, names: seq<string>, c: Capture)
    requires root.Obj?
    ensures c in PromptFields(root.fields, names, |names|)
       <==> c.path != [] && c.path[0].Key? && c.path[0].name in names && NamedLeaf(root, c.path[0].name, c.path, c.text)
  {
    var fields := root.fields;
    var f := (key: string) => PromptField(fields, key);
    var leaf := (key: string) => c.path != [] && NamedLeaf(root, key, c.path, c.text);
    forall key
      ensures c in f(key) <==> c.path != [] && c.path[0] == Key(key) && leaf(key)
    {
      InPromptField(root, key, c);
    }
    InEachName(names, |names|, f, leaf, c);
    assert names[..|names|] == names;
    assert PromptFields(fields, names, |names|) == EachName(names, |names|, f);
  }

  lemma InGeneric(root: Json, c: Capture)
    requires root.Obj?
    ensures c in Generic(root.fields, 0).captures <==> GenericLeaf(root.fields, c.path) && Holds(root, c.path, c.text)
  {
    assert PROMPT_NAMES == PROMPT_FIELDS;
    InPromptFields(root, PROMPT_NAMES, c);
    if ArrayAt(root.fields, "messages").Some? { InArray(MessageItems, root, "messages", c); }
  }

  lemma InInput(root: Json, c: Capture)
    requires root.Obj?
    ensures c in Responses(root.fields, 0).captures <==> InputLeaf(root.fields, c.path) && Holds(root, c.path, c.text)
  {
    var input := Input(Lookup(root.fields, "input"), 0);
    AfterHiding(HiddenField(root.fields, "instructions", "system"), input);
    InInputField(root, c);
  }

  lemma InInputField(root: Json, c: Capture)
    requires root.Obj?
    ensures c in Input(Lookup(root.fields, "input"), 0).captures
       <==> InputLeaf(root.fields, c.path) && Holds(root, c.path, c.text)
  {
    match Lookup(root.fields, "input")
    case Some(Str(_)) => InRootText(root, "input", c);
    case Some(Arr(_)) => InArray(InputItems, root, "input", c);
    case Some(Obj(_)) => InRootMessage(root, "input", c);
    case _ =>
  }

  lemma InChat(root: Json, c: Capture)
    requires root.Obj?
    ensures c in OpenAIChat(root.fields, 0).captures
       <==> Allowed("openai-chat", root.fields, c.path) && Holds(root, c.path, c.text)
  {
    if ArrayAt(root.fields, "messages").Some? { InArray(MessageItems, root, "messages", c); }
    else { InGeneric(root, c); }
  }

  lemma InGemini(root: Json, c: Capture)
    requires root.Obj?
    ensures c in Gemini(root.fields, 0).captures
       <==> Allowed("gemini", root.fields, c.path) && Holds(root, c.path, c.text)
  {
    if ArrayAt(root.fields, "contents").Some? { InArray(ContentsItems, root, "contents", c); }
    else { InGeneric(root, c); }
  }

  /**
   Main theorem on extraction: for every protocol and every request object, a text is captured
   under a path exactly when that path is allowed and the text sits there and is not blank.
   */
  lemma CapturedIffAllowed(protocol: string, root: Json, c: Capture)
    requires root.Obj?
    ensures c in ByProtocol(protocol, root, 0).captures
       <==> Allowed(protocol, root.fields, c.path) && Follow(root, c.path) == Some(Str(c.text)) && !Blank(c.text)
  {
    if protocol == "openai-responses" || protocol == "openai-responses-ws" {
      InInput(root, c);
    } else if protocol == "openai-chat" {
      InChat(root, c);
    } else if protocol == "anthropic-messages" {
      if ArrayAt(root.fields, "messages").Some? { InArray(MessageItems, root, "messages", c); }
    } else if protocol == "gemini" {
      InGemini(root, c);
    } else {
      InGeneric(root, c);
    }
  }

  /** The same for one WebSocket frame. */
  lemma FrameCapturedIffAllowed(protocol: string, root: Json, c: Capture)
    requires root.Obj?
    ensures c in WebSocketFrame(protocol, root).captures
       <==> AllowedFrame(protocol, root.fields, c.path) && Follow(root, c.path) == Some(Str(c.text)) && !Blank(c.text)
  {
    EventsAgree(root.fields);
    if EventType(root.fields) == "response.create" {
      InInput(root, c);
    } else if EventType(root.fields) == "conversation.item.create" {
      var item := Lookup(root.fields, "item");
      if item.Some? && item.value.Obj? { InRootMessage(root, "item", c); }
    } else {
      CapturedIffAllowed(protocol, root, c);
    }
  }
}
