/**
 The status of an extraction, exactly (extractor.go:26-260, 398-450, model.go:79-84): which of the four it is, from
 the shape of the body and from whether anything was taken.
 */
module Statuses {
  import opened Common
  import opened Text
  import opened JsonTree
  import opened Protocols
  import opened AllowList
  import opened Model
  import opened Extractor
  import opened Noninterference
  import opened Forms

  /** A structure that the protocol knows was walked. */
  function Walked(taken: bool): string { if taken then "parsed" else "empty" }

  /** Fields were tried by name. */
  function Tried(taken: bool): string { if taken then "partial" else "unsupported" }

  function GenericStatus(fields: seq<Field>, taken: bool): string {
    var messages := ArrayAt(fields, "messages");
    if messages.Some? && messages.value != [] then Walked(taken) else Tried(taken)
  }

  function InputStatus(fields: seq<Field>, taken: bool): string {
    var input := Lookup(fields, "input");
    if input.None? then "empty"
    else if input.value.Str? || input.value.Arr? || input.value.Obj? then Walked(taken)
    else "partial"
  }

  function JsonStatus(protocol: string, root: Json, taken: bool): string {
    if !root.Obj? then "unsupported"
    else if protocol == "openai-chat" then
      if ArrayAt(root.fields, "messages").Some? then Walked(taken) else Tried(taken)
    else if protocol == "openai-responses" || protocol == "openai-responses-ws" then InputStatus(root.fields, taken)
    else if protocol == "anthropic-messages" then
      if ArrayAt(root.fields, "messages").Some? then Walked(taken) else "empty"
    else if protocol == "gemini" then
      if ArrayAt(root.fields, "contents").Some? then Walked(taken) else GenericStatus(root.fields, taken)
    else GenericStatus(root.fields, taken)
  }

  function RequestStatus(protocol: string, payload: Payload, taken: bool): string {
    match payload
    case NoBody => "empty"
    case Form(values) => if values.Some? then Tried(taken) else "unsupported"
    case Multipart(header, boundary, parts, fails) =>
      if header && boundary && !fails && forall i :: 0 <= i < |parts| ==> !Unreadable(parts[i])
      then Tried(taken) else "unsupported"
    case JsonBody(root) => if root.Some? then JsonStatus(protocol, root.value, taken) else "unsupported"
  }

  function FrameStatus(protocol: string, root: Option<Json>, taken: bool): string {
    if root.None? || !root.value.Obj? then "unsupported"
    else if Named(root.value.fields, "type") == "response.create" then InputStatus(root.value.fields, taken)
    else if Named(root.value.fields, "type") == "conversation.item.create" then
      var item := Lookup(root.value.fields, "item");
      if item.Some? && item.value.Obj? then Walked(taken) else "unsupported"
    else JsonStatus(protocol, root.value, taken)
  }

  // ------------------------------------------------------------------ proofs

  /** The status an outcome ends up with. */
  function Ends(o: Outcome): string { FinalStatus(o.status.GetOr(""), |o.captures|) }

  lemma UnmarkedEnds(o: Outcome)
    requires o.status.None?
    ensures Ends(o) == Walked(o.captures != [])
  {
  }

  lemma EndsAfterHiding(roles: seq<string>, o: Outcome)
    ensures Ends(Hid(roles).Then(o)) == Ends(o) && (Hid(roles).Then(o).captures != [] <==> o.captures != [])
  {
    AfterHiding(roles, o);
  }

  lemma ItemsEnd(kind: ItemKind, items: seq<Json>, path: Path)
    ensures var o := Items(kind, items, |items|, path); Ends(o) == Walked(o.captures != [])
  {
    ItemsUnmarked(kind, items, path);
    UnmarkedEnds(Items(kind, items, |items|, path));
  }

  lemma FallbackEnds(fields: seq<Field>)
    ensures var o := FallbackFields(fields, 0); Ends(o) == Tried(o.captures != [])
  {
    assert |"partial"| == 7 && |"unsupported"| == 11;
  }

  lemma GenericEnds(fields: seq<Field>)
    ensures var o := Generic(fields, 0); Ends(o) == GenericStatus(fields, o.captures != [])
  {
    FallbackEnds(fields);
    match Lookup(fields, "messages")
    case Some(Arr(items)) =>
      ItemsEnd(MessageItems, items, [Key("messages")]);
      if items == [] { assert [] + FallbackFields(fields, 0).captures == FallbackFields(fields, 0).captures; }
    case _ =>
  }

  lemma ChatEnds(fields: seq<Field>)
    ensures var o := OpenAIChat(fields, 0); Ends(o) == JsonStatus("openai-chat", Obj(fields), o.captures != [])
  {
    if ArrayAt(fields, "messages").Some? {
      var items := ArrayAt(fields, "messages").value;
      ChatOfArray(fields, items);
      ItemsUnmarked(MessageItems, items, [Key("messages")]);
      assert |"empty"| == 5;
    } else {
      GenericEnds(fields);
      EndsAfterHiding(ChatRoles(fields), Generic(fields, 0));
    }
  }

  lemma InputEnds(fields: seq<Field>)
    ensures var o := Responses(fields, 0); Ends(o) == InputStatus(fields, o.captures != [])
  {
    var input := Input(Lookup(fields, "input"), 0);
    EndsAfterHiding(HiddenField(fields, "instructions", "system"), input);
    assert |"partial"| == 7 && |"empty"| == 5;
    match Lookup(fields, "input")
    case Some(Arr(items)) => ItemsEnd(InputItems, items, [Key("input")]);
    case Some(Obj(inner)) => UnmarkedEnds(input);
    case Some(Str(_)) => UnmarkedEnds(input);
    case _ =>
  }

  lemma AnthropicEnds(fields: seq<Field>)
    ensures var o := Anthropic(fields); Ends(o) == JsonStatus("anthropic-messages", Obj(fields), o.captures != [])
  {
    var roles := HiddenField(fields, "system", "system");
    assert |"empty"| == 5;
    if ArrayAt(fields, "messages").Some? {
      var items := ArrayAt(fields, "messages").value;
      ItemsEnd(MessageItems, items, [Key("messages")]);
      EndsAfterHiding(roles, Items(MessageItems, items, |items|, [Key("messages")]));
    } else {
      EndsAfterHiding(roles, Marked("empty"));
    }
  }

  lemma GeminiEnds(fields: seq<Field>)
    ensures var o := Gemini(fields, 0); Ends(o) == JsonStatus("gemini", Obj(fields), o.captures != [])
  {
    var roles :=
      HiddenField(fields, "systemInstruction", "system") + HiddenField(fields, "system_instruction", "system");
    if ArrayAt(fields, "contents").Some? {
      var items := ArrayAt(fields, "contents").value;
      ItemsEnd(ContentsItems, items, [Key("contents")]);
      EndsAfterHiding(roles, Items(ContentsItems, items, |items|, [Key("contents")]));
    } else {
      GenericEnds(fields);
      EndsAfterHiding(roles, Generic(fields, 0));
    }
  }

  lemma JsonEnds(protocol: string, root: Json)
    ensures var o := ByProtocol(protocol, root, 0); Ends(o) == JsonStatus(protocol, root, o.captures != [])
  {
    if !root.Obj? {
      assert |"unsupported"| == 11;
    } else if protocol == "openai-chat" {
      ChatEnds(root.fields);
    } else if protocol == "openai-responses" || protocol == "openai-responses-ws" {
      InputEnds(root.fields);
    } else if protocol == "anthropic-messages" {
      AnthropicEnds(root.fields);
    } else if protocol == "gemini" {
      GeminiEnds(root.fields);
    } else {
      GenericEnds(root.fields);
    }
  }

  lemma MultipartFailsExactly(p: Payload)
    requires p.Multipart?
    ensures MultipartFails(p) <==>
      !(p.header && p.boundary && !p.fails && forall i :: 0 <= i < |p.parts| ==> !Unreadable(p.parts[i]))
  {
    forall i | 0 <= i < |p.parts|
      ensures p.parts[i].Broken() <==> Unreadable(p.parts[i])
    {
      PartTaken(p.parts[i]);
    }
  }

  /** The status of every request body. */
  lemma StatusExactly(protocol: string, payload: Payload, maxPromptBytes: int, hash: string -> string, r: Extracted)
    requires Finished(r, RequestOutcome(protocol, payload), maxPromptBytes, hash)
    ensures r.status == RequestStatus(protocol, payload, r.messages != [])
  {
    assert |"partial"| == 7 && |"unsupported"| == 11 && |"empty"| == 5;
    match payload
    case Multipart(_, _, _, _) => MultipartFailsExactly(payload);
    case JsonBody(Some(root)) => JsonEnds(protocol, root);
    case _ =>
  }

  lemma FrameEnds(protocol: string, fields: seq<Field>)
    ensures var o := WebSocketFrame(protocol, Obj(fields));
      Ends(o) == FrameStatus(protocol, Some(Obj(fields)), o.captures != [])
  {
    EventsAgree(fields);
    if EventType(fields) == "response.create" {
      InputEnds(fields);
    } else if EventType(fields) == "conversation.item.create" {
      assert |"unsupported"| == 11;
      match Lookup(fields, "item")
      case Some(Obj(inner)) => UnmarkedEnds(RoleMessage(inner, [Key("item")]));
      case _ =>
    } else {
      JsonEnds(protocol, Obj(fields));
    }
  }

  /** The status of every frame. */
  lemma FrameStatusExactly(protocol: string, root: Option<Json>, maxPromptBytes: int, hash: string -> string,
                           r: Extracted)
    requires Finished(r, FrameOutcome(protocol, root), maxPromptBytes, hash)
    ensures r.status == FrameStatus(protocol, root, r.messages != [])
  {
    assert |"unsupported"| == 11;
    if root.Some? && root.value.Obj? { FrameEnds(protocol, root.value.fields); }
  }

  // -------------------------------------------------------------- the model

  /** The model that a decoded body names, if it does. */
  function NamedModel(root: Option<Json>): string {
    if root.Some? && root.value.Obj? && IsText(Lookup(root.value.fields, "model"))
    then Trim(Lookup(root.value.fields, "model").value.text) else ""
  }

  lemma ModelIsNamed(root: Json)
    ensures ModelFromJson(root) == NamedModel(Some(root))
  {
    assert Trim("") == "";
  }
}
