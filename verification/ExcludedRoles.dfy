/** The counts of excluded roles, against a count over the request (extractor.go:112-270, 332-337). */
module ExcludedRoles {
  import opened Common
  import opened Text
  import opened JsonTree
  import opened Protocols
  import opened AllowList
  import opened Extractor

  function Count(counts: map<string, nat>, role: string): nat {
    if role in counts then counts[role] else 0
  }

  lemma {:induction false} TallyCounts(roles: seq<string>, role: string)
    ensures Count(Tally(map[], roles), role) == multiset(roles)[role]
  {
    if roles != [] {
      TallyCounts(roles[..|roles| - 1], role);
      assert roles == roles[..|roles| - 1] + [roles[|roles| - 1]];
    }
  }

  /** The role under which an array element is counted as excluded, if it is. */
  function ExcludedAs(kind: ItemKind, item: Json): Option<string> {
    if !item.Obj? then None
    else
      var role := Named(item.fields, "role");
      if kind.ContentsItems? then
        if role == "model" then Some("assistant")
        else if role == "system" || role == "developer" then Some(role)
        else None
      else if role in ["system", "developer", "assistant", "tool"] then Some(role) else None
  }

  function CountItems(kind: ItemKind, items: seq<Json>, n: nat, role: string): nat
    requires n <= |items|
  {
    CountWhere(items, n, item => ExcludedAs(kind, item) == Some(role))
  }

  /** How many of the first `n` items satisfy `g`. */
  function CountWhere(items: seq<Json>, n: nat, g: Json -> bool): nat
    requires n <= |items|
  {
    if n == 0 then 0 else CountWhere(items, n - 1, g) + Once(g(items[n - 1]))
  }

  lemma RoleMessageHides(fields: seq<Field>, path: Path)
    ensures RoleMessage(fields, path).hidden ==
      if ExcludedAs(MessageItems, Obj(fields)).Some? then [ExcludedAs(MessageItems, Obj(fields)).value] else []
  {
    RoleAgrees(fields);
    assert "" !in EXCLUDED_ROLES && "user" !in EXCLUDED_ROLES by {
      assert |"system"| == 6 && |"developer"| == 9 && |"assistant"| == 9 && "tool"[0] == 't';
    }
  }

  lemma InputItemHides(item: Json, path: Path)
    ensures InputItem(item, path).hidden ==
      if ExcludedAs(InputItems, item).Some? then [ExcludedAs(InputItems, item).value] else []
  {
    if item.Obj? {
      RoleMessageHides(item.fields, path);
      InputGate(item.fields);
      assert |"system"| == 6 && |"developer"| == 9 && |"assistant"| == 9 && |"tool"| == 4;
    }
  }

  lemma ContentsItemHides(item: Json, path: Path)
    ensures ContentsItem(item, path).hidden ==
      if ExcludedAs(ContentsItems, item).Some? then [ExcludedAs(ContentsItems, item).value] else []
  {
    if item.Obj? { RoleAgrees(item.fields); }
  }

  lemma ItemHides(kind: ItemKind, item: Json, path: Path)
    ensures Item(kind, item, path).hidden ==
      if ExcludedAs(kind, item).Some? then [ExcludedAs(kind, item).value] else []
  {
    match kind
    case MessageItems => if item.Obj? { RoleMessageHides(item.fields, path); }
    case InputItems => InputItemHides(item, path);
    case ContentsItems => ContentsItemHides(item, path);
  }

  lemma CountJoined(a: seq<string>, b: seq<string>, role: string)
    ensures multiset(a + b)[role] == multiset(a)[role] + multiset(b)[role]
  {
  }

  /** The count of a role over an array, for any gate that is described one item at a time. */
  lemma {:induction false} GatesHide(items: seq<Json>, n: nat, path: Path, f: (Json, Path) -> Outcome,
                                     g: Json -> bool, role: string)
    requires n <= |items|
    requires forall i: nat :: i < n ==> multiset(f(items[i], path + [At(i)]).hidden)[role] == Once(g(items[i]))
    ensures multiset(Each(items, n, path, f).hidden)[role] == CountWhere(items, n, g)
  {
    if n > 0 {
      GatesHide(items, n - 1, path, f, g, role);
      CountJoined(Each(items, n - 1, path, f).hidden, f(items[n - 1], path + [At(n - 1)]).hidden, role);
    }
  }

  lemma EachHides(kind: ItemKind, items: seq<Json>, n: nat, path: Path, role: string)
    requires n <= |items|
    ensures multiset(Items(kind, items, n, path).hidden)[role] == CountItems(kind, items, n, role)
  {
    var g := item => ExcludedAs(kind, item) == Some(role);
    forall i: nat | i < n
      ensures multiset(Gate(kind)(items[i], path + [At(i)]).hidden)[role] == Once(g(items[i]))
    {
      ItemHides(kind, items[i], path + [At(i)]);
    }
    GatesHide(items, n, path, Gate(kind), g, role);
  }

  /** A value that is not null, not blank and not empty. */
  predicate Filled(v: Json) {
    && v != Null && v != Arr([]) && v != Obj([])
    && (v.Str? ==> !Spaces(v.text))
  }

  /** 1 if the top-level field `key` carries a value counted as `counted`, for the role asked about. */
  function FieldCount(fields: seq<Field>, key: string, counted: string, role: string): nat {
    var v := Lookup(fields, key);
    if counted == role && v.Some? && Filled(v.value) then 1 else 0
  }

  lemma FieldHides(fields: seq<Field>, key: string, counted: string, role: string)
    ensures multiset(HiddenField(fields, key, counted))[role] == FieldCount(fields, key, counted, role)
  {
    var v := Lookup(fields, key);
    if v.Some? { FilledIsValue(v.value); }
  }

  lemma FilledIsValue(v: Json)
    ensures Filled(v) <==> HasValue(v)
  {
    if v.Str? { BlankIsAllSpaces(v.text); }
  }

  function ArrayCount(kind: ItemKind, fields: seq<Field>, key: string, role: string): nat {
    var items := ArrayAt(fields, key);
    if items.Some? then CountItems(kind, items.value, |items.value|, role) else 0
  }

  /** How often a request mentions an excluded role where `protocol` looks. */
  function Mentions(protocol: string, fields: seq<Field>, role: string): nat {
    if protocol == "openai-chat" then
      FieldCount(fields, "system", "system", role) + FieldCount(fields, "developer", "developer", role)
      + ArrayCount(MessageItems, fields, "messages", role)
    else if protocol == "openai-responses" || protocol == "openai-responses-ws" then
      FieldCount(fields, "instructions", "system", role)
      + (match Lookup(fields, "input")
         case Some(Arr(items)) => CountItems(InputItems, items, |items|, role)
         case Some(Obj(inner)) => if ExcludedAs(MessageItems, Obj(inner)) == Some(role) then 1 else 0
         case _ => 0)
    else if protocol == "anthropic-messages" then
      FieldCount(fields, "system", "system", role) + ArrayCount(MessageItems, fields, "messages", role)
    else if protocol == "gemini" then
      FieldCount(fields, "systemInstruction", "system", role) + FieldCount(fields, "system_instruction", "system", role)
      + (if ArrayAt(fields, "contents").Some? then ArrayCount(ContentsItems, fields, "contents", role)
         else ArrayCount(MessageItems, fields, "messages", role))
    else ArrayCount(MessageItems, fields, "messages", role)
  }

  lemma GenericHides(fields: seq<Field>, role: string)
    ensures multiset(Generic(fields, 0).hidden)[role] == ArrayCount(MessageItems, fields, "messages", role)
  {
    if ArrayAt(fields, "messages").Some? {
      var items := ArrayAt(fields, "messages").value;
      EachHides(MessageItems, items, |items|, [Key("messages")], role);
      var gated := Items(MessageItems, items, |items|, [Key("messages")]);
      assert gated.hidden + [] == gated.hidden;
    }
  }

  /** Roles hidden first are counted on top of what follows. */
  lemma HiddenFirst(a: seq<string>, b: seq<string>, o: Outcome, role: string)
    ensures multiset(Hid(a + b).Then(o).hidden)[role]
         == multiset(a)[role] + multiset(b)[role] + multiset(o.hidden)[role]
  {
    assert Hid(a + b).Then(o).hidden == a + b + o.hidden;
  }

  lemma ChatHides(fields: seq<Field>, role: string)
    ensures multiset(OpenAIChat(fields, 0).hidden)[role] == Mentions("openai-chat", fields, role)
  {
    var a, b := HiddenField(fields, "system", "system"), HiddenField(fields, "developer", "developer");
    FieldHides(fields, "system", "system", role);
    FieldHides(fields, "developer", "developer", role);
    if ArrayAt(fields, "messages").Some? {
      var items := ArrayAt(fields, "messages").value;
      var gated := Items(MessageItems, items, |items|, [Key("messages")]);
      EachHides(MessageItems, items, |items|, [Key("messages")], role);
      HiddenFirst(a, b, gated, role);
      assert OpenAIChat(fields, 0).hidden == Hid(a + b).Then(gated).hidden;
    } else {
      GenericHides(fields, role);
      HiddenFirst(a, b, Generic(fields, 0), role);
    }
  }

  lemma ResponsesHide(fields: seq<Field>, role: string)
    ensures multiset(Responses(fields, 0).hidden)[role] == Mentions("openai-responses", fields, role)
  {
    FieldHides(fields, "instructions", "system", role);
    match Lookup(fields, "input")
    case Some(Arr(items)) => EachHides(InputItems, items, |items|, [Key("input")], role);
    case Some(Obj(inner)) => ItemHides(MessageItems, Obj(inner), [Key("input")]);
    case _ =>
  }

  lemma GeminiHides(fields: seq<Field>, role: string)
    ensures multiset(Gemini(fields, 0).hidden)[role] == Mentions("gemini", fields, role)
  {
    var a := HiddenField(fields, "systemInstruction", "system");
    var b := HiddenField(fields, "system_instruction", "system");
    FieldHides(fields, "systemInstruction", "system", role);
    FieldHides(fields, "system_instruction", "system", role);
    if ArrayAt(fields, "contents").Some? {
      var items := ArrayAt(fields, "contents").value;
      EachHides(ContentsItems, items, |items|, [Key("contents")], role);
      HiddenFirst(a, b, Items(ContentsItems, items, |items|, [Key("contents")]), role);
    } else {
      GenericHides(fields, role);
      HiddenFirst(a, b, Generic(fields, 0), role);
    }
  }

  /** The recorded count of every role is the number of its mentions in the request. */
  lemma ExcludedRolesAreCounted(protocol: string, root: Json, role: string)
    requires root.Obj?
    ensures Count(Tally(map[], ByProtocol(protocol, root, 0).hidden), role) == Mentions(protocol, root.fields, role)
  {
    TallyCounts(ByProtocol(protocol, root, 0).hidden, role);
    if protocol == "openai-chat" {
      ChatHides(root.fields, role);
    } else if protocol == "openai-responses" || protocol == "openai-responses-ws" {
      ResponsesHide(root.fields, role);
    } else if protocol == "anthropic-messages" {
      FieldHides(root.fields, "system", "system", role);
      if ArrayAt(root.fields, "messages").Some? {
        var items := ArrayAt(root.fields, "messages").value;
        EachHides(MessageItems, items, |items|, [Key("messages")], role);
      }
    } else if protocol == "gemini" {
      GeminiHides(root.fields, role);
    } else {
      GenericHides(root.fields, role);
    }
  }
}
