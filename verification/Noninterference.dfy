/**
 What a captured prompt can and cannot depend on, and what a status means (extractor.go:26-330).
 */
module Noninterference {
  import opened Common
  import opened Text
  import opened JsonTree
  import opened Protocols
  import opened AllowList
  import opened Model
  import opened Extractor

  // ------------------------------------------------ two requests, one capture

  /** An item whose role keeps it out of the prompt. */
  predicate Hidden(kind: ItemKind, item: Json) {
    && item.Obj?
    && var role := Named(item.fields, "role");
       if kind.ContentsItems? then role == "model" || role == "system" || role == "developer"
       else role != "" && role != "user"
  }

  predicate SameItem(kind: ItemKind, a: Json, b: Json) {
    a == b || (Hidden(kind, a) && Hidden(kind, b))
  }

  predicate SameItems(kind: ItemKind, a: seq<Json>, b: seq<Json>) {
    |a| == |b| && forall i :: 0 <= i < |a| ==> SameItem(kind, a[i], b[i])
  }

  predicate SameArray(kind: ItemKind, a: Option<Json>, b: Option<Json>) {
    || a == b
    || (a.Some? && b.Some? && a.value.Arr? && b.value.Arr? && SameItems(kind, a.value.items, b.value.items))
  }

  predicate SameMessage(a: Option<Json>, b: Option<Json>) {
    a == b || (a.Some? && b.Some? && Hidden(MessageItems, a.value) && Hidden(MessageItems, b.value))
  }

  predicate SameInput(a: Option<Json>, b: Option<Json>) {
    SameArray(InputItems, a, b) || SameMessage(a, b)
  }

  /** The requests agree on the seven prompt keys, up to the contents of hidden items. */
  predicate SamePrompt(a: seq<Field>, b: seq<Field>) {
    && SameArray(MessageItems, Lookup(a, "messages"), Lookup(b, "messages"))
    && SameArray(ContentsItems, Lookup(a, "contents"), Lookup(b, "contents"))
    && SameInput(Lookup(a, "input"), Lookup(b, "input"))
    && Lookup(a, "prompt") == Lookup(b, "prompt")
    && Lookup(a, "query") == Lookup(b, "query")
    && Lookup(a, "text") == Lookup(b, "text")
    && Lookup(a, "description") == Lookup(b, "description")
  }

  /** The outcomes differ at most in the counts of excluded roles. */
  predicate SameTaken(a: Outcome, b: Outcome) {
    a.captures == b.captures && a.status == b.status
  }

  lemma HiddenTakesNothing(kind: ItemKind, item: Json, path: Path)
    requires Hidden(kind, item)
    ensures Item(kind, item, path).captures == [] && Item(kind, item, path).status.None?
  {
    RoleAgrees(item.fields);
    LowerEmpty(Trim(StringOr(item.fields, "role")));
  }

  lemma {:induction false} EachSame(a: seq<Json>, b: seq<Json>, n: nat, path: Path, f: (Json, Path) -> Outcome)
    requires n <= |a| && n <= |b|
    requires forall i: nat :: i < n ==> SameTaken(f(a[i], path + [At(i)]), f(b[i], path + [At(i)]))
    ensures SameTaken(Each(a, n, path, f), Each(b, n, path, f))
  {
    if n > 0 { EachSame(a, b, n - 1, path, f); }
  }

  lemma ItemsSame(kind: ItemKind, a: seq<Json>, b: seq<Json>, path: Path)
    requires SameItems(kind, a, b)
    ensures SameTaken(Items(kind, a, |a|, path), Items(kind, b, |b|, path))
  {
    forall i: nat | i < |a|
      ensures SameTaken(Gate(kind)(a[i], path + [At(i)]), Gate(kind)(b[i], path + [At(i)]))
    {
      assert SameItem(kind, a[i], b[i]);
      if a[i] != b[i] {
        HiddenTakesNothing(kind, a[i], path + [At(i)]);
        HiddenTakesNothing(kind, b[i], path + [At(i)]);
      }
    }
    EachSame(a, b, |a|, path, Gate(kind));
  }

  lemma ArraysSame(kind: ItemKind, a: seq<Field>, b: seq<Field>, key: string)
    requires SameArray(kind, Lookup(a, key), Lookup(b, key))
    ensures ArrayAt(a, key).Some? <==> ArrayAt(b, key).Some?
    ensures ArrayAt(a, key).Some? ==>
      var x, y := ArrayAt(a, key).value, ArrayAt(b, key).value;
      |x| == |y| && SameTaken(Items(kind, x, |x|, [Key(key)]), Items(kind, y, |y|, [Key(key)]))
  {
    if ArrayAt(a, key).Some? && Lookup(a, key) != Lookup(b, key) {
      ItemsSame(kind, ArrayAt(a, key).value, ArrayAt(b, key).value, [Key(key)]);
    }
  }

  lemma {:induction false} StringsSame(a: seq<Json>, b: seq<Json>, n: nat, path: Path)
    requires SameItems(InputItems, a, b) && n <= |a|
    ensures Strings(a, n, path) == Strings(b, n, path)
  {
    if n > 0 {
      StringsSame(a, b, n - 1, path);
      assert SameItem(InputItems, a[n - 1], b[n - 1]);
    }
  }

  lemma PromptFieldSame(a: seq<Field>, b: seq<Field>, key: string)
    requires Lookup(a, key) == Lookup(b, key) || SameInput(Lookup(a, key), Lookup(b, key))
    ensures PromptField(a, key) == PromptField(b, key)
  {
    var x, y := Lookup(a, key), Lookup(b, key);
    if x != y && x.value.Arr? {
      StringsSame(x.value.items, y.value.items, |x.value.items|, [Key(key)]);
    }
  }

  lemma {:induction false} EachNameSame(names: seq<string>, n: nat, f: string -> seq<Capture>,
                                        g: string -> seq<Capture>)
    requires n <= |names| && forall k :: k in names ==> f(k) == g(k)
    ensures EachName(names, n, f) == EachName(names, n, g)
  {
    if n > 0 { EachNameSame(names, n - 1, f, g); }
  }

  lemma PromptFieldsSame(a: seq<Field>, b: seq<Field>, names: seq<string>)
    requires forall k :: k in names ==> Lookup(a, k) == Lookup(b, k) || SameInput(Lookup(a, k), Lookup(b, k))
    ensures PromptFields(a, names, |names|) == PromptFields(b, names, |names|)
  {
    var f, g := (key: string) => PromptField(a, key), (key: string) => PromptField(b, key);
    forall k | k in names
      ensures f(k) == g(k)
    {
      PromptFieldSame(a, b, k);
    }
    EachNameSame(names, |names|, f, g);
    assert PromptFields(a, names, |names|) == EachName(names, |names|, f);
    assert PromptFields(b, names, |names|) == EachName(names, |names|, g);
  }

  lemma FallbackSame(a: seq<Field>, b: seq<Field>)
    requires SamePrompt(a, b)
    ensures SameTaken(FallbackFields(a, 0), FallbackFields(b, 0))
  {
    PromptFieldsSame(a, b, PROMPT_FIELDS);
  }

  lemma GenericSame(a: seq<Field>, b: seq<Field>)
    requires SamePrompt(a, b)
    ensures SameTaken(Generic(a, 0), Generic(b, 0))
  {
    FallbackSame(a, b);
    ArraysSame(MessageItems, a, b, "messages");
  }

  lemma InputSame(x: Option<Json>, y: Option<Json>)
    requires SameInput(x, y)
    ensures SameTaken(Input(x, 0), Input(y, 0))
  {
    if x != y {
      if x.value.Arr? {
        ItemsSame(InputItems, x.value.items, y.value.items, [Key("input")]);
      } else {
        HiddenTakesNothing(MessageItems, x.value, [Key("input")]);
        HiddenTakesNothing(MessageItems, y.value, [Key("input")]);
      }
    }
  }

  lemma ResponsesSame(a: seq<Field>, b: seq<Field>)
    requires SamePrompt(a, b)
    ensures SameTaken(Responses(a, 0), Responses(b, 0))
  {
    InputSame(Lookup(a, "input"), Lookup(b, "input"));
    AfterHiding(HiddenField(a, "instructions", "system"), Input(Lookup(a, "input"), 0));
    AfterHiding(HiddenField(b, "instructions", "system"), Input(Lookup(b, "input"), 0));
  }

  function ChatRoles(fields: seq<Field>): seq<string> {
    HiddenField(fields, "system", "system") + HiddenField(fields, "developer", "developer")
  }

  lemma ChatSame(a: seq<Field>, b: seq<Field>)
    requires SamePrompt(a, b)
    ensures SameTaken(OpenAIChat(a, 0), OpenAIChat(b, 0))
  {
    ArraysSame(MessageItems, a, b, "messages");
    if ArrayAt(a, "messages").None? {
      GenericSame(a, b);
      AfterHiding(ChatRoles(a), Generic(a, 0));
      AfterHiding(ChatRoles(b), Generic(b, 0));
    } else {
      ChatOfArray(a, ArrayAt(a, "messages").value);
      ChatOfArray(b, ArrayAt(b, "messages").value);
    }
  }

  lemma ChatOfArray(fields: seq<Field>, items: seq<Json>)
    requires ArrayAt(fields, "messages") == Some(items)
    ensures var o, gated := OpenAIChat(fields, 0), Items(MessageItems, items, |items|, [Key("messages")]);
      o.captures == gated.captures && o.status == if items == [] then Some("empty") else gated.status
  {
    var gated := Items(MessageItems, items, |items|, [Key("messages")]);
    AfterHiding(ChatRoles(fields), gated);
    assert gated.captures + [] == gated.captures;
  }

  lemma AnthropicSame(a: seq<Field>, b: seq<Field>)
    requires SamePrompt(a, b)
    ensures SameTaken(Anthropic(a), Anthropic(b))
  {
    ArraysSame(MessageItems, a, b, "messages");
  }

  lemma GeminiSame(a: seq<Field>, b: seq<Field>)
    requires SamePrompt(a, b)
    ensures SameTaken(Gemini(a, 0), Gemini(b, 0))
  {
    ArraysSame(ContentsItems, a, b, "contents");
    GenericSame(a, b);
  }

  lemma ProtocolSame(protocol: string, a: seq<Field>, b: seq<Field>)
    requires SamePrompt(a, b)
    ensures SameTaken(ByProtocol(protocol, Obj(a), 0), ByProtocol(protocol, Obj(b), 0))
  {
    if protocol == "openai-chat" {
      ChatSame(a, b);
    } else if protocol == "openai-responses" || protocol == "openai-responses-ws" {
      ResponsesSame(a, b);
    } else if protocol == "anthropic-messages" {
      AnthropicSame(a, b);
    } else if protocol == "gemini" {
      GeminiSame(a, b);
    } else {
      GenericSame(a, b);
    }
  }

  /** Outcomes that differ only in the excluded roles finish alike. */
  lemma FinishedSame(o: Outcome, p: Outcome, maxPromptBytes: int, hash: string -> string, x: Extracted, y: Extracted)
    requires SameTaken(o, p) && Finished(x, o, maxPromptBytes, hash) && Finished(y, p, maxPromptBytes, hash)
    ensures x.messages == y.messages && x.status == y.status
    ensures x.promptText == y.promptText && x.promptHash == y.promptHash && x.truncated == y.truncated
  {
  }

  /**
   Noninterference: two requests that agree on the prompt keys, up to what their hidden items
   contain, lead to the same messages, prompt text, hash and status, whatever else they hold.
   */
  lemma HiddenContentIsInvisible(protocol: string, a: seq<Field>, b: seq<Field>, maxPromptBytes: int,
                                 hash: string -> string, x: Extracted, y: Extracted)
    requires SamePrompt(a, b)
    requires Finished(x, RequestOutcome(protocol, JsonBody(Some(Obj(a)))), maxPromptBytes, hash)
    requires Finished(y, RequestOutcome(protocol, JsonBody(Some(Obj(b)))), maxPromptBytes, hash)
    ensures x.messages == y.messages && x.status == y.status
    ensures x.promptText == y.promptText && x.promptHash == y.promptHash && x.truncated == y.truncated
  {
    JsonOutcome(protocol, Obj(a));
    JsonOutcome(protocol, Obj(b));
    ProtocolSame(protocol, a, b);
    FinishedSame(ByProtocol(protocol, Obj(a), 0), ByProtocol(protocol, Obj(b), 0), maxPromptBytes, hash, x, y);
  }

  lemma JsonOutcome(protocol: string, root: Json)
    ensures RequestOutcome(protocol, JsonBody(Some(root))) == ByProtocol(protocol, root, 0)
  {
  }

  lemma ItemEventSame(a: seq<Field>, b: seq<Field>)
    requires SameMessage(Lookup(a, "item"), Lookup(b, "item"))
    requires EventType(a) == EventType(b) == "conversation.item.create"
    ensures forall protocol :: SameTaken(WebSocketFrame(protocol, Obj(a)), WebSocketFrame(protocol, Obj(b)))
  {
    var x, y := Lookup(a, "item"), Lookup(b, "item");
    if x != y {
      HiddenTakesNothing(MessageItems, x.value, [Key("item")]);
      HiddenTakesNothing(MessageItems, y.value, [Key("item")]);
    }
  }

  /** A WebSocket frame depends on two keys more: its event type and its item. */
  lemma HiddenFrameContentIsInvisible(protocol: string, a: seq<Field>, b: seq<Field>)
    requires SamePrompt(a, b) && Lookup(a, "type") == Lookup(b, "type")
    requires SameMessage(Lookup(a, "item"), Lookup(b, "item"))
    ensures SameTaken(WebSocketFrame(protocol, Obj(a)), WebSocketFrame(protocol, Obj(b)))
  {
    if EventType(a) == "response.create" {
      ResponsesSame(a, b);
    } else if EventType(a) == "conversation.item.create" {
      ItemEventSame(a, b);
    } else {
      ProtocolSame(protocol, a, b);
    }
  }

  // -------------------------------------------------------- what a status means

  lemma {:induction false} EachUnmarked(items: seq<Json>, n: nat, path: Path, f: (Json, Path) -> Outcome)
    requires n <= |items| && forall i: nat :: i < n ==> f(items[i], path + [At(i)]).status.None?
    ensures Each(items, n, path, f).status.None?
  {
    if n > 0 { EachUnmarked(items, n - 1, path, f); }
  }

  lemma ItemsUnmarked(kind: ItemKind, items: seq<Json>, path: Path)
    ensures Items(kind, items, |items|, path).status.None?
  {
    EachUnmarked(items, |items|, path, Gate(kind));
  }

  /** A Responses request whose `input` is neither text, list nor message. */
  predicate OddInput(fields: seq<Field>) {
    var input := Lookup(fields, "input");
    input.Some? && !input.value.Str? && !input.value.Arr? && !input.value.Obj?
  }

  predicate GoodMark(o: Outcome) {
    o.status.Some? ==>
      || (o.status.value == "empty" && o.captures == [])
      || (o.status.value == "unsupported" && o.captures == [])
      || (o.status.value == "partial" && o.captures != [])
  }

  lemma GenericMark(fields: seq<Field>)
    ensures GoodMark(Generic(fields, 0))
  {
    if ArrayAt(fields, "messages").Some? {
      ItemsUnmarked(MessageItems, ArrayAt(fields, "messages").value, [Key("messages")]);
    }
  }

  lemma ResponsesMark(fields: seq<Field>)
    ensures var o := Responses(fields, 0);
      if OddInput(fields) then o.status == Some("partial") && o.captures == [] else GoodMark(o)
  {
    if ArrayAt(fields, "input").Some? {
      ItemsUnmarked(InputItems, ArrayAt(fields, "input").value, [Key("input")]);
    }
  }

  lemma ProtocolMark(protocol: string, root: Json)
    ensures GoodMark(ByProtocol(protocol, root, 0)) ||
            (root.Obj? && protocol in ["openai-responses", "openai-responses-ws"] && OddInput(root.fields)
             && ByProtocol(protocol, root, 0).status == Some("partial") && ByProtocol(protocol, root, 0).captures == [])
  {
    if root.Obj? {
      if protocol == "openai-responses" || protocol == "openai-responses-ws" {
        ResponsesMark(root.fields);
      } else if protocol == "gemini" {
        GenericMark(root.fields);
        ArrayUnmarked(ContentsItems, root.fields, "contents");
      } else {
        GenericMark(root.fields);
        ArrayUnmarked(MessageItems, root.fields, "messages");
      }
    }
  }

  lemma ArrayUnmarked(kind: ItemKind, fields: seq<Field>, key: string)
    ensures ArrayAt(fields, key).Some? ==>
      Items(kind, ArrayAt(fields, key).value, |ArrayAt(fields, key).value|, [Key(key)]).status.None?
  {
    if ArrayAt(fields, key).Some? { ItemsUnmarked(kind, ArrayAt(fields, key).value, [Key(key)]); }
  }

  /**
   Over all request bodies: a final status is one of four; "parsed" comes with a message, "empty"
   without; "unsupported" keeps messages only after a multipart body broke off, and "partial" lacks
   them only for a Responses input of no usable type.
   */
  lemma StatusMeaning(protocol: string, payload: Payload, maxPromptBytes: int, hash: string -> string, r: Extracted)
    requires Finished(r, RequestOutcome(protocol, payload), maxPromptBytes, hash)
    ensures r.status in ["parsed", "empty", "unsupported", "partial"]
    ensures r.status == "parsed" ==> r.messages != []
    ensures r.status == "empty" ==> r.messages == []
    ensures r.status == "unsupported" && r.messages != [] ==> payload.Multipart? && MultipartFails(payload)
    ensures r.status == "partial" && r.messages == [] ==>
      && payload.JsonBody? && payload.root.Some? && payload.root.value.Obj? && OddInput(payload.root.value.fields)
      && protocol in ["openai-responses", "openai-responses-ws"]
  {
    if payload.JsonBody? && payload.root.Some? {
      ProtocolMark(protocol, payload.root.value);
    }
  }

  /** A frame marked "unsupported" has no messages, and a frame never ends up "parsed" without one. */
  lemma FrameStatusMeaning(protocol: string, root: Option<Json>, maxPromptBytes: int, hash: string -> string,
                           r: Extracted)
    requires Finished(r, FrameOutcome(protocol, root), maxPromptBytes, hash)
    ensures r.status in ["parsed", "empty", "unsupported", "partial"]
    ensures r.status == "unsupported" ==> r.messages == []
    ensures r.status == "parsed" ==> r.messages != []
    ensures r.status == "empty" ==> r.messages == []
    ensures r.status == "partial" && r.messages == [] ==> root.Some? && root.value.Obj? && OddInput(root.value.fields)
  {
    if root.Some? && root.value.Obj? {
      if EventType(root.value.fields) == "response.create" {
        ResponsesMark(root.value.fields);
      } else if EventType(root.value.fields) != "conversation.item.create" {
        ProtocolMark(protocol, root.value);
      }
    }
  }
}
