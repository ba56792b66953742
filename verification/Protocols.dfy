/**
 What each protocol extractor takes from a decoded request (extractor.go:91-330).

 An `Outcome` is the effect of an extractor on an extraction: texts captured in order,
 roles counted as excluded in order, and the status it assigns, if any.
 */
module Protocols {
  import opened Common
  import opened Text
  import opened JsonTree

  datatype Capture = Capture(path: Path, text: string)

  datatype Outcome = Outcome(captures: seq<Capture>, hidden: seq<string>, status: Option<string>) {
    function Then(next: Outcome): Outcome {
      Outcome(captures + next.captures, hidden + next.hidden, if next.status.Some? then next.status else status)
    }
  }

  const NOTHING := Outcome([], [], None)

  function Took(captures: seq<Capture>): Outcome { Outcome(captures, [], None) }
  function Hid(roles: seq<string>): Outcome { Outcome([], roles, None) }
  function Marked(status: string): Outcome { Outcome([], [], Some(status)) }

  lemma AfterHiding(roles: seq<string>, o: Outcome)
    ensures Hid(roles).Then(o).captures == o.captures && Hid(roles).Then(o).status == o.status
  {
    assert [] + o.captures == o.captures;
  }

  const EXCLUDED_ROLES: seq<string> := ["system", "developer", "assistant", "tool"]
  const PROMPT_FIELDS: seq<string> := ["prompt", "query", "input", "text", "description"]

  /** addUserMessage */
  function Leaf(text: string, path: Path): seq<Capture> {
    if Blank(text) then [] else [Capture(path, text)]
  }

  predicate HasValue(v: Json) {
    match v
    case Null => false
    case Str(t) => !Blank(t)
    case Arr(items) => |items| > 0
    case Obj(fields) => |fields| > 0
    case _ => true
  }

  /** Counts `role` when the top-level field `key` carries a value. */
  function HiddenField(fields: seq<Field>, key: string, role: string): seq<string> {
    var v := Lookup(fields, key);
    if v.Some? && HasValue(v.value) then [role] else []
  }

  // ---------------------------------------------------------- message content

  predicate TextType(t: string) {
    EqualFold(t, "") || EqualFold(t, "text") || EqualFold(t, "input_text")
  }

  /** A part object whose own `text` is taken. */
  predicate TextPart(fields: seq<Field>) {
    StringAt(fields, "text").Some? && TextType(StringOr(fields, "type"))
  }

  function Nested(fields: seq<Field>, path: Path): seq<Capture>
    decreases fields, 0
  {
    var nested := Lookup(fields, "content");
    if nested.Some? then Content(nested.value, path + [Key("content")]) else []
  }

  /** One element of a content array. */
  function Part(item: Json, path: Path): seq<Capture>
    decreases item, 0
  {
    match item
    case Str(t) => Leaf(t, path)
    case Obj(fields) =>
      if TextPart(fields) then Leaf(StringOr(fields, "text"), path + [Key("text")])
      else Nested(fields, path)
    case _ => []
  }

  /** The first `n` elements of a content array. */
  function Parts(items: seq<Json>, n: nat, path: Path): seq<Capture>
    requires n <= |items|
    decreases items, 0, n
  {
    if n == 0 then []
    else Parts(items, n - 1, path) + Part(items[n - 1], path + [At(n - 1)])
  }

  /** extractContent, and extractParts, which is the same */
  function Content(v: Json, path: Path): seq<Capture>
    decreases v, 1
  {
    match v
    case Str(t) => Leaf(t, path)
    case Arr(items) => Parts(items, |items|, path)
    case Obj(fields) =>
      if StringAt(fields, "text").Some? then Leaf(StringOr(fields, "text"), path + [Key("text")])
      else Nested(fields, path)
    case _ => []
  }

  // -------------------------------------------------------------- role gating

  function Role(fields: seq<Field>): string {
    var role := Lower(Trim(StringOr(fields, "role")));
    if role == "" then "user" else role
  }

  function UserContent(fields: seq<Field>, path: Path): seq<Capture> {
    var content, parts := Lookup(fields, "content"), Lookup(fields, "parts");
    if content.Some? then Content(content.value, path + [Key("content")])
    else if parts.Some? then Content(parts.value, path + [Key("parts")])
    else if StringAt(fields, "text").Some? then Leaf(StringOr(fields, "text"), path + [Key("text")])
    else []
  }

  /** extractRoleMessage */
  function RoleMessage(fields: seq<Field>, path: Path): Outcome {
    if Role(fields) in EXCLUDED_ROLES then Hid([Role(fields)])
    else if Role(fields) == "user" then Took(UserContent(fields, path))
    else NOTHING
  }

  /** One element of a `messages` array. */
  function MessageItem(item: Json, path: Path): Outcome {
    if item.Obj? then RoleMessage(item.fields, path) else NOTHING
  }

  /** One element of a Responses `input` array. */
  function InputItem(item: Json, path: Path): Outcome {
    match item
    case Str(t) => Took(Leaf(t, path))
    case Obj(fields) =>
      if Blank(StringOr(fields, "role")) && StringOr(fields, "type") == "input_text"
      then Took(Leaf(StringOr(fields, "text"), path + [Key("text")]))
      else RoleMessage(fields, path)
    case _ => NOTHING
  }

  /** One element of a Gemini `contents` array. */
  function ContentsItem(item: Json, path: Path): Outcome {
    if !item.Obj? then NOTHING
    else
      var role := Lower(Trim(StringOr(item.fields, "role")));
      if role == "model" then Hid(["assistant"])
      else if role == "system" || role == "developer" then Hid([role])
      else Took(Content(Lookup(item.fields, "parts").GetOr(Null), path + [Key("parts")]))
  }

  /** The three arrays whose elements are gated by role. */
  datatype ItemKind = MessageItems | InputItems | ContentsItems

  function Item(kind: ItemKind, item: Json, path: Path): Outcome {
    match kind
    case MessageItems => MessageItem(item, path)
    case InputItems => InputItem(item, path)
    case ContentsItems => ContentsItem(item, path)
  }

  /** What `f` takes from the first `n` elements of the array at `path`, one after the other. */
  function Each(items: seq<Json>, n: nat, path: Path, f: (Json, Path) -> Outcome): Outcome
    requires n <= |items|
  {
    if n == 0 then NOTHING
    else Each(items, n - 1, path, f).Then(f(items[n - 1], path + [At(n - 1)]))
  }

  function Gate(kind: ItemKind): (Json, Path) -> Outcome {
    (item, path) => Item(kind, item, path)
  }

  function Items(kind: ItemKind, items: seq<Json>, n: nat, path: Path): Outcome
    requires n <= |items|
  {
    Each(items, n, path, Gate(kind))
  }

  // ---------------------------------------------------------------- protocols

  /** The first `n` elements of a prompt field that is an array: only strings count. */
  function Strings(items: seq<Json>, n: nat, path: Path): seq<Capture>
    requires n <= |items|
  {
    if n == 0 then []
    else
      Strings(items, n - 1, path)
      + (if items[n - 1].Str? then Leaf(items[n - 1].text, path + [At(n - 1)]) else [])
  }

  function PromptField(fields: seq<Field>, key: string): seq<Capture> {
    match Lookup(fields, key)
    case Some(Str(t)) => Leaf(t, [Key(key)])
    case Some(Arr(items)) => Strings(items, |items|, [Key(key)])
    case _ => []
  }

  /** What `f` takes for the first `n` names, one after the other. */
  function EachName(names: seq<string>, n: nat, f: string -> seq<Capture>): seq<Capture>
    requires n <= |names|
  {
    if n == 0 then [] else EachName(names, n - 1, f) + f(names[n - 1])
  }

  function PromptFields(fields: seq<Field>, names: seq<string>, n: nat): seq<Capture>
    requires n <= |names|
  {
    EachName(names, n, key => PromptField(fields, key))
  }

  /** The status of an extractor that takes prompt fields by name. */
  function TakenStatus(n: nat): string { if n == 0 then "unsupported" else "partial" }

  /** `before` counts the messages the extraction already holds. */
  function FallbackFields(fields: seq<Field>, before: nat): Outcome {
    var captures := PromptFields(fields, PROMPT_FIELDS, |PROMPT_FIELDS|);
    Outcome(captures, [], Some(TakenStatus(before + |captures|)))
  }

  function Generic(fields: seq<Field>, before: nat): Outcome {
    match Lookup(fields, "messages")
    case Some(Arr(items)) =>
      var gated := Items(MessageItems, items, |items|, [Key("messages")]);
      if before + |gated.captures| > 0 || |items| > 0 then gated else gated.Then(FallbackFields(fields, before))
    case _ => FallbackFields(fields, before)
  }

  function OpenAIChat(fields: seq<Field>, before: nat): Outcome {
    var hidden := Hid(HiddenField(fields, "system", "system") + HiddenField(fields, "developer", "developer"));
    match Lookup(fields, "messages")
    case Some(Arr(items)) =>
      hidden.Then(Items(MessageItems, items, |items|, [Key("messages")]))
            .Then(if items == [] then Marked("empty") else NOTHING)
    case _ => hidden.Then(Generic(fields, before))
  }

  /** The `input` of a Responses request: a text, gated items, or one gated message. */
  function Input(input: Option<Json>, before: nat): Outcome {
    match input
    case None => if before == 0 then Marked("empty") else NOTHING
    case Some(Str(t)) => Took(Leaf(t, [Key("input")]))
    case Some(Arr(items)) => Items(InputItems, items, |items|, [Key("input")])
    case Some(Obj(inner)) => RoleMessage(inner, [Key("input")])
    case _ => Marked("partial")
  }

  function Responses(fields: seq<Field>, before: nat): Outcome {
    Hid(HiddenField(fields, "instructions", "system")).Then(Input(Lookup(fields, "input"), before))
  }

  function Anthropic(fields: seq<Field>): Outcome {
    Hid(HiddenField(fields, "system", "system")).Then(
      match Lookup(fields, "messages")
      case Some(Arr(items)) => Items(MessageItems, items, |items|, [Key("messages")])
      case _ => Marked("empty"))
  }

  function Gemini(fields: seq<Field>, before: nat): Outcome {
    Hid(HiddenField(fields, "systemInstruction", "system") + HiddenField(fields, "system_instruction", "system")).Then(
      match Lookup(fields, "contents")
      case Some(Arr(items)) => Items(ContentsItems, items, |items|, [Key("contents")])
      case _ => Generic(fields, before))
  }

  function ByProtocol(protocol: string, root: Json, before: nat): Outcome {
    if !root.Obj? then Marked("unsupported")
    else if protocol == "openai-chat" then OpenAIChat(root.fields, before)
    else if protocol == "openai-responses" || protocol == "openai-responses-ws" then Responses(root.fields, before)
    else if protocol == "anthropic-messages" then Anthropic(root.fields)
    else if protocol == "gemini" then Gemini(root.fields, before)
    else Generic(root.fields, before)
  }

  function ProtocolForPath(path: string): string {
    var lower := Lower(path);
    if Contains(lower, "/chat/completions") then "openai-chat"
    else if Contains(lower, "/responses") then "openai-responses"
    else if Contains(lower, "/messages") then "anthropic-messages"
    else if Contains(lower, "generatecontent") || Contains(lower, "/v1beta") then "gemini"
    else if Contains(lower, "/images") || Contains(lower, "/videos") || Contains(lower, "/media") then "media"
    else "generic"
  }

  lemma FirstWords(path: string)
    ensures Contains(Lower(path), "/chat/completions") <==> HasWord(path, "/chat/completions")
    ensures Contains(Lower(path), "/responses") <==> HasWord(path, "/responses")
    ensures Contains(Lower(path), "/messages") <==> HasWord(path, "/messages")
  {
    ContainsIsHasWord(path, "/chat/completions");
    ContainsIsHasWord(path, "/responses");
    ContainsIsHasWord(path, "/messages");
  }

  lemma GeminiWords(path: string)
    ensures Contains(Lower(path), "generatecontent") <==> HasWord(path, "generatecontent")
    ensures Contains(Lower(path), "/v1beta") <==> HasWord(path, "/v1beta")
  {
    ContainsIsHasWord(path, "generatecontent");
    ContainsIsHasWord(path, "/v1beta");
  }

  lemma MediaWords(path: string)
    ensures Contains(Lower(path), "/images") <==> HasWord(path, "/images")
    ensures Contains(Lower(path), "/videos") <==> HasWord(path, "/videos")
    ensures Contains(Lower(path), "/media") <==> HasWord(path, "/media")
  {
    ContainsIsHasWord(path, "/images");
    ContainsIsHasWord(path, "/videos");
    ContainsIsHasWord(path, "/media");
  }

  /** Which words in a path decide the protocol, in any case, and which goes before which. */
  lemma ProtocolExactly(path: string)
    ensures ProtocolForPath(path) ==
      if HasWord(path, "/chat/completions") then "openai-chat"
      else if HasWord(path, "/responses") then "openai-responses"
      else if HasWord(path, "/messages") then "anthropic-messages"
      else if HasWord(path, "generatecontent") || HasWord(path, "/v1beta") then "gemini"
      else if HasWord(path, "/images") || HasWord(path, "/videos") || HasWord(path, "/media") then "media"
      else "generic"
  {
    FirstWords(path);
    GeminiWords(path);
    MediaWords(path);
  }

  /** The WebSocket event types that select an extractor themselves. */
  function EventType(fields: seq<Field>): string {
    Lower(Trim(StringOr(fields, "type")))
  }

  /** The effect of one client text frame, on an empty extraction. */
  function WebSocketFrame(protocol: string, root: Json): Outcome {
    if !root.Obj? then Marked("unsupported")
    else if EventType(root.fields) == "response.create" then Responses(root.fields, 0)
    else if EventType(root.fields) == "conversation.item.create" then
      match Lookup(root.fields, "item")
      case Some(Obj(inner)) => RoleMessage(inner, [Key("item")])
      case _ => Marked("unsupported")
    else ByProtocol(protocol, root, 0)
  }
}
