/** The texts of an extraction together are never longer than the strings of the request. */
module CaptureSize {
  import opened Common
  import opened Text
  import opened JsonTree
  import opened Protocols
  import opened AllowList
  import opened DocumentOrder

  /** Total length of the string values below `v`. */
  function Weight(v: Json): nat
    decreases v, 1
  {
    match v
    case Str(t) => |t|
    case Arr(items) => ItemsWeight(items, |items|)
    case Obj(fields) => FieldsWeight(fields)
    case _ => 0
  }

  function ItemsWeight(items: seq<Json>, n: nat): nat
    requires n <= |items|
    decreases items, 0, n
  {
    if n == 0 then 0 else ItemsWeight(items, n - 1) + Weight(items[n - 1])
  }

  function FieldsWeight(fields: seq<Field>): nat
    decreases fields, 0
  {
    if fields == [] then 0 else Weight(fields[0].value) + FieldsWeight(fields[1..])
  }

  function TextWeight(captures: seq<Capture>): nat {
    if captures == [] then 0 else TextWeight(captures[..|captures| - 1]) + |captures[|captures| - 1].text|
  }

  lemma {:induction false} TextWeightConcat(a: seq<Capture>, b: seq<Capture>)
    ensures TextWeight(a + b) == TextWeight(a) + TextWeight(b)
  {
    if b == [] {
      assert a + b == a;
    } else {
      TextWeightConcat(a, b[..|b| - 1]);
      assert (a + b)[..|a + b| - 1] == a + b[..|b| - 1];
    }
  }

  function Found(fields: seq<Field>, key: string): nat {
    var v := Lookup(fields, key);
    if v.Some? then Weight(v.value) else 0
  }

  lemma {:induction false} FoundFits(fields: seq<Field>, key: string)
    ensures Found(fields, key) <= FieldsWeight(fields)
  {
    if fields != [] && fields[0].key != key { FoundFits(fields[1..], key); }
  }

  lemma LeafFits(t: string, path: Path)
    ensures TextWeight(Leaf(t, path)) <= |t|
  {
    if !Blank(t) {
      var one := [Capture(path, t)];
      assert one[..0] == [];
    }
  }

  lemma TextFieldFits(fields: seq<Field>, path: Path)
    ensures TextWeight(Leaf(StringOr(fields, "text"), path)) <= FieldsWeight(fields)
  {
    LeafFits(StringOr(fields, "text"), path);
    FoundFits(fields, "text");
  }

  lemma {:induction false} NestedFits(fields: seq<Field>, path: Path)
    ensures TextWeight(Nested(fields, path)) <= FieldsWeight(fields)
    decreases fields, 0
  {
    var nested := Lookup(fields, "content");
    if nested.Some? {
      ContentFits(nested.value, path + [Key("content")]);
      FoundFits(fields, "content");
    }
  }

  lemma {:induction false} PartFits(item: Json, path: Path)
    ensures TextWeight(Part(item, path)) <= Weight(item)
    decreases item, 0
  {
    match item
    case Str(t) => LeafFits(t, path);
    case Obj(fields) =>
      TextFieldFits(fields, path + [Key("text")]);
      NestedFits(fields, path);
    case _ =>
  }

  lemma {:induction false} PartsFit(items: seq<Json>, n: nat, path: Path)
    requires n <= |items|
    ensures TextWeight(Parts(items, n, path)) <= ItemsWeight(items, n)
    decreases items, 0, n
  {
    if n > 0 {
      PartsFit(items, n - 1, path);
      PartFits(items[n - 1], path + [At(n - 1)]);
      TextWeightConcat(Parts(items, n - 1, path), Part(items[n - 1], path + [At(n - 1)]));
    }
  }

  lemma {:induction false} ContentFits(v: Json, path: Path)
    ensures TextWeight(Content(v, path)) <= Weight(v)
    decreases v, 1
  {
    match v
    case Str(t) => LeafFits(t, path);
    case Arr(items) => PartsFit(items, |items|, path);
    case Obj(fields) =>
      TextFieldFits(fields, path + [Key("text")]);
      NestedFits(fields, path);
    case _ =>
  }

  lemma RoleMessageFits(fields: seq<Field>, path: Path)
    ensures TextWeight(RoleMessage(fields, path).captures) <= FieldsWeight(fields)
  {
    var content, parts := Lookup(fields, "content"), Lookup(fields, "parts");
    FoundFits(fields, "content");
    FoundFits(fields, "parts");
    TextFieldFits(fields, path + [Key("text")]);
    if content.Some? { ContentFits(content.value, path + [Key("content")]); }
    if parts.Some? { ContentFits(parts.value, path + [Key("parts")]); }
  }

  lemma InputItemFits(item: Json, path: Path)
    ensures TextWeight(InputItem(item, path).captures) <= Weight(item)
  {
    match item
    case Str(t) => LeafFits(t, path);
    case Obj(fields) =>
      TextFieldFits(fields, path + [Key("text")]);
      RoleMessageFits(fields, path);
    case _ =>
  }

  lemma ContentsItemFits(item: Json, path: Path)
    ensures TextWeight(ContentsItem(item, path).captures) <= Weight(item)
  {
    if item.Obj? {
      FoundFits(item.fields, "parts");
      ContentFits(Lookup(item.fields, "parts").GetOr(Null), path + [Key("parts")]);
    }
  }

  lemma ItemFits(kind: ItemKind, item: Json, path: Path)
    ensures TextWeight(Item(kind, item, path).captures) <= Weight(item)
  {
    match kind
    case MessageItems => if item.Obj? { RoleMessageFits(item.fields, path); }
    case InputItems => InputItemFits(item, path);
    case ContentsItems => ContentsItemFits(item, path);
  }

  lemma {:induction false} EachFits(items: seq<Json>, n: nat, path: Path, f: (Json, Path) -> Outcome)
    requires n <= |items|
    requires forall i: nat :: i < n ==> TextWeight(f(items[i], path + [At(i)]).captures) <= Weight(items[i])
    ensures TextWeight(Each(items, n, path, f).captures) <= ItemsWeight(items, n)
  {
    if n > 0 {
      EachFits(items, n - 1, path, f);
      TextWeightConcat(Each(items, n - 1, path, f).captures, f(items[n - 1], path + [At(n - 1)]).captures);
    }
  }

  lemma ArrayFits(kind: ItemKind, fields: seq<Field>, key: string)
    ensures ArrayAt(fields, key).Some? ==>
      var items := ArrayAt(fields, key).value;
      TextWeight(Items(kind, items, |items|, [Key(key)]).captures) <= FieldsWeight(fields)
  {
    if ArrayAt(fields, key).Some? {
      var items, path := ArrayAt(fields, key).value, [Key(key)];
      forall i: nat | i < |items|
        ensures TextWeight(Gate(kind)(items[i], path + [At(i)]).captures) <= Weight(items[i])
      {
        ItemFits(kind, items[i], path + [At(i)]);
      }
      EachFits(items, |items|, path, Gate(kind));
      FoundFits(fields, key);
    }
  }

  // ------------------------------------------------- several fields at once

  function FoundAll(fields: seq<Field>, names: seq<string>, n: nat): nat
    requires n <= |names|
  {
    if n == 0 then 0 else FoundAll(fields, names, n - 1) + Found(fields, names[n - 1])
  }

  /** One field can serve at most one of several distinct names. */
  lemma {:induction false} FoundAllHead(fields: seq<Field>, names: seq<string>, n: nat)
    requires fields != [] && n <= |names| && Distinct(names)
    ensures FoundAll(fields, names, n)
      <= FoundAll(fields[1..], names, n) + (if fields[0].key in names[..n] then Weight(fields[0].value) else 0)
  {
    if n > 0 {
      FoundAllHead(fields, names, n - 1);
      assert names[..n] == names[..n - 1] + [names[n - 1]];
      assert names[n - 1] !in names[..n - 1];
    }
  }

  lemma {:induction false} FoundAllFits(fields: seq<Field>, names: seq<string>, n: nat)
    requires n <= |names| && Distinct(names)
    ensures FoundAll(fields, names, n) <= FieldsWeight(fields)
  {
    if fields == [] {
      FoundNothing(names, n);
    } else {
      FoundAllFits(fields[1..], names, n);
      FoundAllHead(fields, names, n);
    }
  }

  lemma {:induction false} FoundNothing(names: seq<string>, n: nat)
    requires n <= |names|
    ensures FoundAll([], names, n) == 0
  {
    if n > 0 { FoundNothing(names, n - 1); }
  }

  lemma {:induction false} StringsFit(items: seq<Json>, n: nat, path: Path)
    requires n <= |items|
    ensures TextWeight(Strings(items, n, path)) <= ItemsWeight(items, n)
  {
    if n > 0 {
      StringsFit(items, n - 1, path);
      var last := if items[n - 1].Str? then Leaf(items[n - 1].text, path + [At(n - 1)]) else [];
      if items[n - 1].Str? { LeafFits(items[n - 1].text, path + [At(n - 1)]); }
      TextWeightConcat(Strings(items, n - 1, path), last);
    }
  }

  lemma PromptFieldFits(fields: seq<Field>, key: string)
    ensures TextWeight(PromptField(fields, key)) <= Found(fields, key)
  {
    match Lookup(fields, key)
    case Some(Str(t)) => LeafFits(t, [Key(key)]);
    case Some(Arr(items)) => StringsFit(items, |items|, [Key(key)]);
    case _ =>
  }

  lemma {:induction false} PromptFieldsFit(fields: seq<Field>, names: seq<string>, n: nat)
    requires n <= |names|
    ensures TextWeight(PromptFields(fields, names, n)) <= FoundAll(fields, names, n)
  {
    if n > 0 {
      PromptFieldsFit(fields, names, n - 1);
      PromptFieldFits(fields, names[n - 1]);
      TextWeightConcat(PromptFields(fields, names, n - 1), PromptField(fields, names[n - 1]));
    }
  }

  lemma GenericFits(fields: seq<Field>)
    ensures TextWeight(Generic(fields, 0).captures) <= FieldsWeight(fields)
  {
    ArrayFits(MessageItems, fields, "messages");
    PromptFieldsDistinct();
    PromptFieldsFit(fields, PROMPT_FIELDS, |PROMPT_FIELDS|);
    FoundAllFits(fields, PROMPT_FIELDS, |PROMPT_FIELDS|);
    var rest := FallbackFields(fields, 0);
    assert [] + rest.captures == rest.captures;
  }

  lemma InputFits(fields: seq<Field>)
    ensures TextWeight(Input(Lookup(fields, "input"), 0).captures) <= FieldsWeight(fields)
  {
    FoundFits(fields, "input");
    match Lookup(fields, "input")
    case Some(Str(t)) => LeafFits(t, [Key("input")]);
    case Some(Arr(_)) => ArrayFits(InputItems, fields, "input");
    case Some(Obj(inner)) => RoleMessageFits(inner, [Key("input")]);
    case _ =>
  }

  lemma ChatFits(fields: seq<Field>)
    ensures TextWeight(OpenAIChat(fields, 0).captures) <= FieldsWeight(fields)
  {
    var roles := HiddenField(fields, "system", "system") + HiddenField(fields, "developer", "developer");
    ArrayFits(MessageItems, fields, "messages");
    GenericFits(fields);
    AfterHiding(roles, Generic(fields, 0));
    if ArrayAt(fields, "messages").Some? {
      var items := ArrayAt(fields, "messages").value;
      var gated := Items(MessageItems, items, |items|, [Key("messages")]);
      AfterHiding(roles, gated);
      assert gated.captures + [] == gated.captures;
    }
  }

  lemma AnthropicFits(fields: seq<Field>)
    ensures TextWeight(Anthropic(fields).captures) <= FieldsWeight(fields)
  {
    ArrayFits(MessageItems, fields, "messages");
    if ArrayAt(fields, "messages").Some? {
      var items := ArrayAt(fields, "messages").value;
      AfterHiding(HiddenField(fields, "system", "system"), Items(MessageItems, items, |items|, [Key("messages")]));
    }
  }

  lemma GeminiFits(fields: seq<Field>)
    ensures TextWeight(Gemini(fields, 0).captures) <= FieldsWeight(fields)
  {
    var roles :=
      HiddenField(fields, "systemInstruction", "system") + HiddenField(fields, "system_instruction", "system");
    ArrayFits(ContentsItems, fields, "contents");
    GenericFits(fields);
    AfterHiding(roles, Generic(fields, 0));
    if ArrayAt(fields, "contents").Some? {
      var items := ArrayAt(fields, "contents").value;
      AfterHiding(roles, Items(ContentsItems, items, |items|, [Key("contents")]));
    }
  }

  /** Nothing is captured twice: the captured bytes fit into the string bytes of the request. */
  lemma CapturedFits(protocol: string, root: Json)
    ensures TextWeight(ByProtocol(protocol, root, 0).captures) <= Weight(root)
  {
    if root.Obj? {
      var fields := root.fields;
      if protocol == "openai-responses" || protocol == "openai-responses-ws" {
        ResponsesFit(fields);
      } else if protocol == "openai-chat" {
        ChatFits(fields);
      } else if protocol == "anthropic-messages" {
        AnthropicFits(fields);
      } else if protocol == "gemini" {
        GeminiFits(fields);
      } else {
        GenericFits(fields);
      }
    }
  }

  lemma ResponsesFit(fields: seq<Field>)
    ensures TextWeight(Responses(fields, 0).captures) <= FieldsWeight(fields)
  {
    InputFits(fields);
    AfterHiding(HiddenField(fields, "instructions", "system"), Input(Lookup(fields, "input"), 0));
  }

  /** One message object at a top-level key. */
  lemma MessageFits(fields: seq<Field>, key: string, inner: seq<Field>)
    requires Lookup(fields, key) == Some(Obj(inner))
    ensures TextWeight(RoleMessage(inner, [Key(key)]).captures) <= FieldsWeight(fields)
  {
    RoleMessageFits(inner, [Key(key)]);
    FoundFits(fields, key);
    assert Found(fields, key) == FieldsWeight(inner);
  }

  lemma ItemEventFits(protocol: string, fields: seq<Field>)
    requires EventType(fields) == "conversation.item.create"
    ensures TextWeight(WebSocketFrame(protocol, Obj(fields)).captures) <= FieldsWeight(fields)
  {
    match Lookup(fields, "item")
    case Some(Obj(inner)) => MessageFits(fields, "item", inner);
    case _ =>
  }

  lemma FrameCapturedFits(protocol: string, root: Json)
    ensures TextWeight(WebSocketFrame(protocol, root).captures) <= Weight(root)
  {
    if root.Obj? {
      if EventType(root.fields) == "response.create" {
        ResponsesFit(root.fields);
      } else if EventType(root.fields) == "conversation.item.create" {
        ItemEventFits(protocol, root.fields);
      } else {
        CapturedFits(protocol, root);
      }
    }
  }
}
