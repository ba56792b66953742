/**
 Requests in which text under a hidden role is captured, one for each way (extractor.go:207-224, 239-254, 298-304).
 */
module ConfinementExamples {
  import opened Common
  import opened Text
  import opened JsonTree
  import opened Protocols
  import opened AllowList
  import opened Confinement

  /** `{role: role, key: v}` */
  function WithRole(role: string, key: string, v: Json): Json {
    Obj([Field("role", Str(role)), Field(key, v)])
  }

  lemma WithRoleHas(role: string, key: string, v: Json)
    requires Word(role) && key != "role"
    ensures var fields := WithRole(role, key, v).fields;
      RoleName(fields) == role && Lookup(fields, key) == Some(v)
  {
    var fields := WithRole(role, key, v).fields;
    assert fields[1..] == [Field(key, v)];
    assert Lookup(fields, "role") == Some(Str(role));
    RoleWord(role);
  }

  lemma WithRoleLacks(role: string, key: string, v: Json, other: string)
    requires other != "role" && other != key
    ensures Lookup(WithRole(role, key, v).fields, other).None?
  {
    var fields := WithRole(role, key, v).fields;
    assert forall i :: 0 <= i < |fields| ==> fields[i].key != other;
  }

  /** `{key: [item]}` */
  function OneItem(key: string, item: Json): Json {
    Obj([Field(key, Arr([item]))])
  }

  /** The array at `key` is one that `protocol` looks at. */
  predicate Lists(protocol: string, kind: ItemKind, key: string) {
    || (protocol == "gemini" && kind.ContentsItems? && key == "contents")
    || (protocol == "openai-chat" && kind.MessageItems? && key == "messages")
  }

  lemma ListedIsAllowed(protocol: string, kind: ItemKind, key: string, fields: seq<Field>, p: Path)
    requires Lists(protocol, kind, key) && ArrayLeaf(kind, fields, key, p)
    ensures Allowed(protocol, fields, p)
  {
  }

  /** A text `q` steps below the only item of a request is captured where the item is open at `q`. */
  lemma CapturedBelow(protocol: string, kind: ItemKind, key: string, item: Json, q: Path, t: string)
    requires ItemLeaf(kind, item, q) && Holds(item, q, t) && Lists(protocol, kind, key)
    ensures var root, p := OneItem(key, item), [Key(key), At(0)] + q;
      Capture(p, t) in ByProtocol(protocol, root, 0).captures && Follow(root, p[..2]) == Some(item)
  {
    var root, p := OneItem(key, item), [Key(key), At(0)] + q;
    assert Lookup(root.fields, key) == Some(Arr([item]));
    assert p[1..] == [At(0)] + q && p[1..][1..] == q && p[2..] == q;
    FollowElement(root, key, p);
    SecondStep(root, p);
    ListedIsAllowed(protocol, kind, key, root.fields, p);
    CapturedIffAllowed(protocol, root, Capture(p, t));
  }

  /** The only part of a content array at `key` leads to its text. */
  lemma OnePart(fields: seq<Field>, key: string, part: Json, last: Step, t: string)
    requires Lookup(fields, key) == Some(Arr([part])) && PartLeaf(part, [last]) && Holds(part, [last], t)
    ensures ContentLeaf(Arr([part]), [At(0), last]) && Holds(Obj(fields), [Key(key), At(0), last], t)
    ensures Follow(Obj(fields), [Key(key), At(0)]) == Some(part)
  {
    var p := [Key(key), At(0), last];
    assert p[1..] == [At(0), last] && p[1..][1..] == [last];
    assert [Key(key), At(0)][1..] == [At(0)] && [At(0)][1..] == [];
  }

  /** `{text: t}` */
  function TextOnly(t: string): Json { Obj([Field("text", Str(t))]) }

  lemma TextOnlyLeaf(t: string)
    ensures PartLeaf(TextOnly(t), [Key("text")]) && Follow(TextOnly(t), [Key("text")]) == Some(Str(t))
  {
    var fields := TextOnly(t).fields;
    assert "type"[1] != "text"[1];
    assert forall i :: 0 <= i < |fields| ==> fields[i].key != "type";
    FollowField(TextOnly(t), "text");
  }

  lemma HiddenItem(root: Json, p: Path, k: nat, v: Json)
    requires k <= |p| && Follow(root, p[..k]) == Some(v) && CarriesHiddenRole(v)
    ensures UnderHiddenRole(root, p)
  {
    assert HiddenAt(root, p, k);
  }

  lemma UngatedRoles(role: string)
    requires role == "assistant" || role == "tool"
    ensures Word(role) && role in HIDDEN_ROLES && role !in ["model", "system", "developer"]
  {
    assert |"assistant"| == 9 && |"developer"| == 9 && "assistant"[0] != "developer"[0];
    assert |"tool"| == 4 && |"model"| == 5 && |"system"| == 6;
  }

  lemma ContentsOpen(fields: seq<Field>, part: Json, last: Step)
    requires RoleName(fields) !in ["model", "system", "developer"] && Lookup(fields, "parts") == Some(Arr([part]))
    requires ContentLeaf(Arr([part]), [At(0), last])
    ensures ItemLeaf(ContentsItems, Obj(fields), [Key("parts"), At(0), last])
  {
    assert [Key("parts"), At(0), last][1..] == [At(0), last];
  }

  lemma MessageOpen(fields: seq<Field>, part: Json, last: Step)
    requires RoleName(fields) == "user" && Lookup(fields, "content") == Some(Arr([part]))
    requires ContentLeaf(Arr([part]), [At(0), last])
    ensures ItemLeaf(MessageItems, Obj(fields), [Key("content"), At(0), last])
  {
    assert [Key("content"), At(0), last][1..] == [At(0), last];
  }

  /** `{contents: [{role: role, parts: [{text: t}]}]}`: a turn of the model or of a tool is captured. */
  lemma UngatedItemIsCaptured(role: string, t: string)
    requires (role == "assistant" || role == "tool") && !Blank(t)
    ensures var root := OneItem("contents", WithRole(role, "parts", Arr([TextOnly(t)])));
      var p := [Key("contents"), At(0)] + [Key("parts"), At(0), Key("text")];
      Capture(p, t) in ByProtocol("gemini", root, 0).captures && UnderHiddenRole(root, p)
  {
    var part, item := TextOnly(t), WithRole(role, "parts", Arr([TextOnly(t)]));
    var q := [Key("parts"), At(0), Key("text")];
    UngatedRoles(role);
    WithRoleHas(role, "parts", Arr([part]));
    TextOnlyLeaf(t);
    OnePart(item.fields, "parts", part, Key("text"), t);
    ContentsOpen(item.fields, part, Key("text"));
    CapturedBelow("gemini", ContentsItems, "contents", item, q, t);
    HiddenItem(OneItem("contents", item), [Key("contents"), At(0)] + q, 2, item);
  }

  lemma NestedText(fields: seq<Field>, t: string)
    requires Lookup(fields, "text").None? && Lookup(fields, "content") == Some(Str(t))
    ensures PartLeaf(Obj(fields), [Key("content")]) && Follow(Obj(fields), [Key("content")]) == Some(Str(t))
  {
    assert [Key("content")][1..] == [];
    FollowField(Obj(fields), "content");
  }

  lemma MessageNames()
    ensures Word("user") && Word("system") && "content" != "role" && "text" != "role" && "text" != "content"
  {
    assert |"content"| == 7 && |"text"| == 4 && "text"[0] != "role"[0];
  }

  /** A part with a hidden role, inside a user's message, is captured. */
  lemma NestedIsCaptured(item: Json, part: Json, t: string, q: Path)
    requires item.Obj? && RoleName(item.fields) == "user" && Lookup(item.fields, "content") == Some(Arr([part]))
    requires PartLeaf(part, [Key("content")]) && Holds(part, [Key("content")], t) && CarriesHiddenRole(part)
    requires q == [Key("content"), At(0), Key("content")]
    ensures var root, p := OneItem("messages", item), [Key("messages"), At(0)] + q;
      Capture(p, t) in ByProtocol("openai-chat", root, 0).captures && UnderHiddenRole(root, p)
  {
    OnePart(item.fields, "content", part, Key("content"), t);
    TextBelow(item, part, t, q);
    assert q[..2] == [Key("content"), At(0)];
    PartIsHidden(OneItem("messages", item), [Key("messages"), At(0)], q, item, part);
  }

  lemma TextBelow(item: Json, part: Json, t: string, q: Path)
    requires item.Obj? && RoleName(item.fields) == "user" && Lookup(item.fields, "content") == Some(Arr([part]))
    requires q == [Key("content"), At(0), Key("content")] && Holds(item, q, t)
    requires ContentLeaf(Arr([part]), [At(0), Key("content")])
    ensures var root, p := OneItem("messages", item), [Key("messages"), At(0)] + q;
      Capture(p, t) in ByProtocol("openai-chat", root, 0).captures && Follow(root, p[..2]) == Some(item)
  {
    MessageOpen(item.fields, part, Key("content"));
    CapturedBelow("openai-chat", MessageItems, "messages", item, q, t);
  }

  lemma PartIsHidden(root: Json, above: Path, q: Path, item: Json, part: Json)
    requires |above| == 2 <= |q| && Follow(root, (above + q)[..2]) == Some(item)
    requires Follow(item, q[..2]) == Some(part) && CarriesHiddenRole(part)
    ensures UnderHiddenRole(root, above + q)
  {
    var p := above + q;
    assert p[..2] == above && p[..4] == above + q[..2];
    FollowOn(root, above, q[..2]);
    HiddenItem(root, p, 4, part);
  }

  /**
   `{messages: [{role: "user", content: [{role: "system", content: t}]}]}`: a role inside the content is not
   looked at.
   */
  lemma NestedSystemIsCaptured(t: string)
    requires !Blank(t)
    ensures var root := OneItem("messages", WithRole("user", "content", Arr([WithRole("system", "content", Str(t))])));
      var p := [Key("messages"), At(0)] + [Key("content"), At(0), Key("content")];
      Capture(p, t) in ByProtocol("openai-chat", root, 0).captures && UnderHiddenRole(root, p)
  {
    var part := WithRole("system", "content", Str(t));
    MessageNames();
    WithRoleHas("system", "content", Str(t));
    WithRoleLacks("system", "content", Str(t), "text");
    NestedText(part.fields, t);
    WithRoleHas("user", "content", Arr([part]));
    NestedIsCaptured(WithRole("user", "content", Arr([part])), part, t, [Key("content"), At(0), Key("content")]);
  }

  /** `{role: "system", prompt: t}`: the role of the request object itself is not looked at. */
  lemma RootRoleIsCaptured(t: string)
    requires !Blank(t)
    ensures var root := WithRole("system", "prompt", Str(t));
      Capture([Key("prompt")], t) in ByProtocol("generic", root, 0).captures && UnderHiddenRole(root, [Key("prompt")])
  {
    var root, p := WithRole("system", "prompt", Str(t)), [Key("prompt")];
    MessageNames();
    assert "messages"[0] == 'm' && "role"[0] == 'r' && "prompt"[0] == 'p';
    WithRoleHas("system", "prompt", Str(t));
    WithRoleLacks("system", "prompt", Str(t), "messages");
    FollowField(root, "prompt");
    PromptOpen(root.fields, t);
    GenericAllowed(root.fields, p);
    CapturedIffAllowed("generic", root, Capture(p, t));
    assert p[..0] == [];
    HiddenItem(root, p, 0, root);
  }

  lemma PromptOpen(fields: seq<Field>, t: string)
    requires Lookup(fields, "messages").None? && Lookup(fields, "prompt") == Some(Str(t))
    ensures GenericLeaf(fields, [Key("prompt")])
  {
    assert [Key("prompt")][1..] == [] && "prompt" == PROMPT_NAMES[0];
  }

  lemma GenericAllowed(fields: seq<Field>, p: Path)
    requires GenericLeaf(fields, p)
    ensures Allowed("generic", fields, p)
  {
    assert |"generic"| == 7 && |"gemini"| == 6 && |"openai-chat"| == 11 && |"openai-responses"| == 16
        && |"openai-responses-ws"| == 19 && |"anthropic-messages"| == 18;
  }
}
