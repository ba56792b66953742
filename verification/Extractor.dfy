/**
 The extractors as they run: methods that append to `messages`, count excluded roles and
 assign `status` (extractor.go:26-459).  Each is proved to have the effect that the
 corresponding function of `Protocols` describes.
 */
module Extractor {
  import opened Common
  import opened Text
  import opened JsonTree
  import opened Protocols
  import opened Model

  // ----------------------------------------------------- effect of an outcome

  datatype State = State(messages: seq<UserMessage>, excludedRoles: map<string, nat>, status: string)

  function Render(start: nat, captures: seq<Capture>): seq<UserMessage> {
    seq(|captures|, i requires 0 <= i < |captures| =>
      UserMessage(start + i, captures[i].text, Print(captures[i].path)))
  }

  function Tally(counts: map<string, nat>, roles: seq<string>): map<string, nat> {
    if roles == [] then counts
    else
      var before := Tally(counts, roles[..|roles| - 1]);
      var role := roles[|roles| - 1];
      before[role := (if role in before then before[role] else 0) + 1]
  }

  function Apply(s: State, o: Outcome): State {
    State(s.messages + Render(|s.messages|, o.captures), Tally(s.excludedRoles, o.hidden), o.status.GetOr(s.status))
  }

  lemma {:induction false} TallyConcat(counts: map<string, nat>, a: seq<string>, b: seq<string>)
    ensures Tally(counts, a + b) == Tally(Tally(counts, a), b)
  {
    if b == [] {
      assert a + b == a;
    } else {
      TallyConcat(counts, a, b[..|b| - 1]);
      assert (a + b)[..|a + b| - 1] == a + b[..|b| - 1];
    }
  }

  lemma RenderConcat(start: nat, a: seq<Capture>, b: seq<Capture>)
    ensures Render(start, a + b) == Render(start, a) + Render(start + |a|, b)
  {
    var x, y := Render(start, a + b), Render(start, a) + Render(start + |a|, b);
    assert |x| == |y|;
    forall i | 0 <= i < |x|
      ensures x[i] == y[i]
    {
      if |a| <= i { assert y[i] == Render(start + |a|, b)[i - |a|]; }
    }
  }

  lemma ApplyThen(s: State, a: Outcome, b: Outcome)
    ensures Apply(Apply(s, a), b) == Apply(s, a.Then(b))
  {
    TallyConcat(s.excludedRoles, a.hidden, b.hidden);
    RenderConcat(|s.messages|, a.captures, b.captures);
    var x, y := Render(|s.messages|, a.captures), Render(|s.messages| + |a.captures|, b.captures);
    assert s.messages + x + y == s.messages + (x + y);
  }

  lemma ApplyTook(s: State, a: seq<Capture>, b: seq<Capture>)
    ensures Apply(Apply(s, Took(a)), Took(b)) == Apply(s, Took(a + b))
  {
    ApplyThen(s, Took(a), Took(b));
    assert Took(a).Then(Took(b)) == Took(a + b);
  }

  lemma ApplyNothing(s: State)
    ensures Apply(s, NOTHING) == s
  {
    assert s.messages + Render(|s.messages|, []) == s.messages;
  }

  lemma ThenNothing(o: Outcome)
    ensures o.Then(NOTHING) == o && NOTHING.Then(o) == o
  {
    assert o.captures + [] == o.captures && [] + o.captures == o.captures;
    assert o.hidden + [] == o.hidden && [] + o.hidden == o.hidden;
  }

  lemma PrintRoot(key: string)
    ensures Print([Key(key)]) == key
  {
    PrintSnoc([], Key(key));
    assert [] + [Key(key)] == [Key(key)];
  }

  lemma PrintElement(key: string, index: nat)
    ensures Print([Key(key)] + [At(index)]) == key + "[" + Decimal(index) + "]"
  {
    PrintRoot(key);
    PrintIndex([Key(key)], index);
  }

  // ------------------------------------------------- bodies that are not JSON

  /** `fails` is a read error after `data`; LimitReader hides one past 1 MiB. */
  datatype FormPart = FormPart(formName: string, fileName: string, data: string, fails: bool) {
    function Name(): string { Lower(Trim(formName)) }
    predicate Wanted() { Name() in PROMPT_FIELDS && fileName == "" }
    predicate Broken() { Wanted() && fails && |data| < PART_LIMIT }
    function Value(): string { if |data| <= PART_LIMIT then data else data[..PART_LIMIT] }
  }

  const PART_LIMIT := 0x10_0000

  datatype Payload =
    | NoBody
    | Form(values: Option<map<string, seq<string>>>)
    | Multipart(header: bool, boundary: bool, parts: seq<FormPart>, fails: bool)
    | JsonBody(root: Option<Json>)

  function FormValues(key: string, values: seq<string>, n: nat): seq<Capture>
    requires n <= |values|
  {
    if n == 0 then [] else FormValues(key, values, n - 1) + Leaf(values[n - 1], [Key(key)])
  }

  function FormField(values: map<string, seq<string>>, key: string): seq<Capture> {
    if key in values then FormValues(key, values[key], |values[key]|) else []
  }

  function FormFields(values: map<string, seq<string>>, names: seq<string>, n: nat): seq<Capture>
    requires n <= |names|
  {
    if n == 0 then [] else FormFields(values, names, n - 1) + FormField(values, names[n - 1])
  }

  function FormOutcome(values: Option<map<string, seq<string>>>, before: nat): Outcome {
    if values.None? then Marked("unsupported")
    else
      var captures := FormFields(values.value, PROMPT_FIELDS, |PROMPT_FIELDS|);
      Outcome(captures, [], Some(TakenStatus(before + |captures|)))
  }

  function FirstBroken(parts: seq<FormPart>, i: nat): (k: nat)
    requires i <= |parts|
    ensures i <= k <= |parts| && (k < |parts| ==> parts[k].Broken())
    ensures forall j :: i <= j < k ==> !parts[j].Broken()
    decreases |parts| - i
  {
    if i == |parts| || parts[i].Broken() then i else FirstBroken(parts, i + 1)
  }

  function PartField(part: FormPart): seq<Capture> {
    if part.Wanted() then Leaf(part.Value(), [Key(part.Name())]) else []
  }

  function PartFields(parts: seq<FormPart>, n: nat): seq<Capture>
    requires n <= |parts|
  {
    if n == 0 then [] else PartFields(parts, n - 1) + PartField(parts[n - 1])
  }

  /** extractMultipart returns an error */
  predicate MultipartFails(p: Payload)
    requires p.Multipart?
  {
    !p.header || !p.boundary || FirstBroken(p.parts, 0) < |p.parts| || p.fails
  }

  /** The parts before the first failing read; a failure leaves the status to the caller. */
  function MultipartOutcome(p: Payload, before: nat): Outcome
    requires p.Multipart?
  {
    if !p.header || !p.boundary then NOTHING
    else
      var captures := PartFields(p.parts, FirstBroken(p.parts, 0));
      Outcome(captures, [], if MultipartFails(p) then None else Some(TakenStatus(before + |captures|)))
  }

  /** What a request body contributes to an empty extraction. */
  function RequestOutcome(protocol: string, payload: Payload): Outcome {
    match payload
    case NoBody => Marked("empty")
    case Form(values) => FormOutcome(values, 0)
    case Multipart(_, _, _, _) =>
      var o := MultipartOutcome(payload, 0);
      if MultipartFails(payload) then o.(status := Some("unsupported")) else o
    case JsonBody(None) => Marked("unsupported")
    case JsonBody(Some(root)) => ByProtocol(protocol, root, 0)
  }

  function FrameOutcome(protocol: string, root: Option<Json>): Outcome {
    if root.None? then Marked("unsupported") else WebSocketFrame(protocol, root.value)
  }

  function ModelFromJson(root: Json): string {
    if root.Obj? then Trim(StringOr(root.fields, "model")) else ""
  }

  // ------------------------------------------------------------ the extractor

  class Extraction {
    var protocol: string
    var model: string
    var messages: seq<UserMessage>
    var excludedRoles: map<string, nat>
    var status: string

    ghost function Value(): State
      reads this
    {
      State(messages, excludedRoles, status)
    }

    constructor (protocol: string)
      ensures this.protocol == protocol && model == "" && Value() == State([], map[], "")
    {
      this.protocol, model, messages, excludedRoles, status := protocol, "", [], map[], "";
    }

    method AddUserMessage(text: string, source: string, ghost path: Path)
      requires source == Print(path)
      modifies `messages
      ensures Value() == Apply(old(Value()), Took(Leaf(text, path)))
    {
      if !Blank(text) {
        messages := messages + [UserMessage(|messages|, text, source)];
      }
      assert messages == old(messages) + Render(|old(messages)|, Leaf(text, path));
    }

    method IncrementExcluded(role: string)
      modifies `excludedRoles
      ensures Value() == Apply(old(Value()), Hid([role]))
    {
      excludedRoles := excludedRoles[role := (if role in excludedRoles then excludedRoles[role] else 0) + 1];
      assert [role][..0] == [];
      assert Tally(old(excludedRoles), []) == old(excludedRoles);
      assert messages == messages + Render(|messages|, []);
    }

    /** Counts `role` as excluded when the top-level field `key` carries a value. */
    method ExcludeField(fields: seq<Field>, key: string, role: string)
      modifies `excludedRoles
      ensures Value() == Apply(old(Value()), Hid(HiddenField(fields, key, role)))
    {
      var value := Lookup(fields, key);
      if value.Some? && HasValue(value.value) {
        IncrementExcluded(role);
      } else {
        ApplyNothing(Value());
      }
    }

    method ExtractContent(value: Json, source: string, ghost path: Path)
      requires source == Print(path) && path != []
      modifies `messages
      ensures Value() == Apply(old(Value()), Took(Content(value, path)))
      decreases value, 1
    {
      match value
      case Str(text) =>
        AddUserMessage(text, source, path);
      case Arr(items) =>
        ExtractArray(items, source, path);
      case Obj(fields) =>
        var text := StringAt(fields, "text");
        if text.Some? {
          AddText(text.value, source, path);
        } else {
          ExtractNested(fields, source, path);
        }
      case _ =>
        ApplyNothing(Value());
    }

    method ExtractArray(items: seq<Json>, source: string, ghost path: Path)
      requires source == Print(path) && path != []
      modifies `messages
      ensures Value() == Apply(old(Value()), Took(Parts(items, |items|, path)))
      decreases items, 1
    {
      ghost var start := Value();
      ApplyNothing(start);
      for index := 0 to |items|
        invariant Value() == Apply(start, Took(Parts(items, index, path)))
      {
        ExtractElement(items[index], index, source, path);
        ApplyTook(start, Parts(items, index, path), Part(items[index], path + [At(index)]));
      }
    }

    method ExtractElement(item: Json, index: nat, source: string, ghost path: Path)
      requires source == Print(path) && path != []
      modifies `messages
      ensures Value() == Apply(old(Value()), Took(Part(item, path + [At(index)])))
      decreases item, 1
    {
      PrintIndex(path, index);
      ExtractPart(item, source + "[" + Decimal(index) + "]", path + [At(index)]);
    }

    method ExtractPart(item: Json, source: string, ghost path: Path)
      requires source == Print(path) && path != []
      modifies `messages
      ensures Value() == Apply(old(Value()), Took(Part(item, path)))
      decreases item, 0
    {
      match item
      case Str(text) =>
        AddUserMessage(text, source, path);
      case Obj(fields) =>
        var partType, text := StringOr(fields, "type"), StringAt(fields, "text");
        if text.Some? && TextType(partType) {
          AddText(text.value, source, path);
        } else {
          ExtractNested(fields, source, path);
        }
      case _ =>
        ApplyNothing(Value());
    }

    method ExtractNested(fields: seq<Field>, source: string, ghost path: Path)
      requires source == Print(path) && path != []
      modifies `messages
      ensures Value() == Apply(old(Value()), Took(Nested(fields, path)))
      decreases fields, 0
    {
      var nested := Lookup(fields, "content");
      if nested.Some? {
        ExtractUnder(nested.value, "content", source, path);
      } else {
        ApplyNothing(Value());
      }
    }

    method ExtractRoleMessage(fields: seq<Field>, source: string, ghost path: Path)
      requires source == Print(path) && path != []
      modifies `messages, `excludedRoles
      ensures Value() == Apply(old(Value()), RoleMessage(fields, path))
    {
      ApplyNothing(Value());
      var role := Lower(Trim(StringOr(fields, "role")));
      if role == "" {
        role := "user";
      }
      if role in EXCLUDED_ROLES {
        IncrementExcluded(role);
        return;
      }
      if role != "user" {
        return;
      }
      ExtractUserContent(fields, source, path);
    }

    method ExtractUserContent(fields: seq<Field>, source: string, ghost path: Path)
      requires source == Print(path) && path != []
      modifies `messages
      ensures Value() == Apply(old(Value()), Took(UserContent(fields, path)))
    {
      var content, parts, text := Lookup(fields, "content"), Lookup(fields, "parts"), StringAt(fields, "text");
      if content.Some? {
        ExtractUnder(content.value, "content", source, path);
      } else if parts.Some? {
        ExtractUnder(parts.value, "parts", source, path);
      } else if text.Some? {
        AddText(text.value, source, path);
      } else {
        ApplyNothing(Value());
      }
    }

    /** extractContent on the field `key` of the object at `path` */
    method ExtractUnder(value: Json, key: string, source: string, ghost path: Path)
      requires source == Print(path) && path != []
      modifies `messages
      ensures Value() == Apply(old(Value()), Took(Content(value, path + [Key(key)])))
      decreases value, 2
    {
      PrintField(path, key);
      ExtractContent(value, source + "." + key, path + [Key(key)]);
    }

    method AddText(text: string, source: string, ghost path: Path)
      requires source == Print(path) && path != []
      modifies `messages
      ensures Value() == Apply(old(Value()), Took(Leaf(text, path + [Key("text")])))
    {
      PrintField(path, "text");
      AddUserMessage(text, source + ".text", path + [Key("text")]);
    }

    method ExtractInputItem(item: Json, source: string, ghost path: Path)
      requires source == Print(path) && path != []
      modifies `messages, `excludedRoles
      ensures Value() == Apply(old(Value()), InputItem(item, path))
    {
      ApplyNothing(Value());
      match item
      case Str(text) =>
        AddUserMessage(text, source, path);
      case Obj(fields) =>
        var role := StringOr(fields, "role");
        if Blank(role) {
          if StringOr(fields, "type") == "input_text" {
            var text := StringOr(fields, "text");
            if text != "" {
              AddText(text, source, path);
            }
            return;
          }
        }
        ExtractRoleMessage(fields, source, path);
      case _ =>
    }

    method ExtractContentsItem(item: Json, source: string, ghost path: Path)
      requires source == Print(path) && path != []
      modifies `messages, `excludedRoles
      ensures Value() == Apply(old(Value()), ContentsItem(item, path))
    {
      ApplyNothing(Value());
      if !item.Obj? {
        return;
      }
      var role := Lower(Trim(StringOr(item.fields, "role")));
      if role == "model" {
        IncrementExcluded("assistant");
        return;
      }
      if role == "system" || role == "developer" {
        IncrementExcluded(role);
        return;
      }
      ExtractUnder(Lookup(item.fields, "parts").GetOr(Null), "parts", source, path);
    }

    method ExtractItem(kind: ItemKind, item: Json, source: string, ghost path: Path)
      requires source == Print(path) && path != []
      modifies `messages, `excludedRoles
      ensures Value() == Apply(old(Value()), Item(kind, item, path))
    {
      match kind
      case MessageItems =>
        if item.Obj? {
          ExtractRoleMessage(item.fields, source, path);
        } else {
          ApplyNothing(Value());
        }
      case InputItems =>
        ExtractInputItem(item, source, path);
      case ContentsItems =>
        ExtractContentsItem(item, source, path);
    }

    /** The loop that every protocol runs over its array. */
    method ExtractItems(kind: ItemKind, items: seq<Json>, key: string)
      modifies `messages, `excludedRoles
      ensures Value() == Apply(old(Value()), Items(kind, items, |items|, [Key(key)]))
    {
      ghost var start, path := Value(), [Key(key)];
      ApplyNothing(start);
      for index := 0 to |items|
        invariant Value() == Apply(start, Items(kind, items, index, path))
      {
        var source := key + "[" + Decimal(index) + "]";
        ghost var at := path + [At(index)];
        PrintElement(key, index);
        ExtractItem(kind, items[index], source, at);
        ApplyThen(start, Items(kind, items, index, path), Item(kind, items[index], at));
      }
    }

    method ExtractStrings(items: seq<Json>, key: string)
      modifies `messages
      ensures Value() == Apply(old(Value()), Took(Strings(items, |items|, [Key(key)])))
    {
      ghost var start, path := Value(), [Key(key)];
      ApplyNothing(start);
      for index := 0 to |items|
        invariant Value() == Apply(start, Took(Strings(items, index, path)))
      {
        PrintElement(key, index);
        ghost var at := path + [At(index)];
        ghost var here := if items[index].Str? then Leaf(items[index].text, at) else [];
        if items[index].Str? {
          AddUserMessage(items[index].text, key + "[" + Decimal(index) + "]", at);
        } else {
          ApplyNothing(Value());
        }
        ApplyTook(start, Strings(items, index, path), here);
      }
    }

    method ExtractPromptField(fields: seq<Field>, key: string)
      modifies `messages
      ensures Value() == Apply(old(Value()), Took(PromptField(fields, key)))
    {
      var value := Lookup(fields, key);
      if value.Some? && value.value.Str? {
        AddRootText(value.value.text, key);
      } else if value.Some? && value.value.Arr? {
        ExtractStrings(value.value.items, key);
      } else {
        ApplyNothing(Value());
      }
    }

    method ExtractGeneric(fields: seq<Field>)
      modifies `messages, `excludedRoles, `status
      ensures Value() == Apply(old(Value()), Generic(fields, |old(messages)|))
    {
      ghost var start := Value();
      ghost var gated := NOTHING;
      ApplyNothing(start);
      var list := Lookup(fields, "messages");
      if list.Some? && list.value.Arr? {
        var items := list.value.items;
        ExtractItems(MessageItems, items, "messages");
        gated := Items(MessageItems, items, |items|, [Key("messages")]);
        if |messages| > 0 || |items| > 0 {
          return;
        }
      }
      ExtractFallback(fields);
      ApplyThen(start, gated, FallbackFields(fields, |old(messages)|));
      ThenNothing(FallbackFields(fields, |old(messages)|));
    }

    method ExtractFallback(fields: seq<Field>)
      modifies `messages, `status
      ensures Value() == Apply(old(Value()), FallbackFields(fields, |old(messages)|))
    {
      ghost var start := Value();
      ApplyNothing(start);
      var names := PROMPT_FIELDS;
      for k := 0 to |names|
        invariant Value() == Apply(start, Took(PromptFields(fields, names, k)))
      {
        ExtractPromptField(fields, names[k]);
        ApplyTook(start, PromptFields(fields, names, k), PromptField(fields, names[k]));
      }
      SetTakenStatus();
    }

    /** The status of an extractor that takes prompt fields by name. */
    method SetTakenStatus()
      modifies `status
      ensures status == TakenStatus(|messages|)
    {
      if |messages| == 0 {
        status := "unsupported";
      } else {
        status := "partial";
      }
    }

    method ExtractOpenAIChat(fields: seq<Field>)
      modifies `messages, `excludedRoles, `status
      ensures Value() == Apply(old(Value()), OpenAIChat(fields, |old(messages)|))
    {
      ghost var start := Value();
      ghost var a, b := HiddenField(fields, "system", "system"), HiddenField(fields, "developer", "developer");
      ExcludeField(fields, "system", "system");
      ExcludeField(fields, "developer", "developer");
      ApplyThen(start, Hid(a), Hid(b));
      assert Hid(a).Then(Hid(b)) == Hid(a + b);
      assert messages == old(messages);
      var list := Lookup(fields, "messages");
      if !(list.Some? && list.value.Arr?) {
        ExtractGeneric(fields);
        ApplyThen(start, Hid(a + b), Generic(fields, |old(messages)|));
        return;
      }
      var items := list.value.items;
      ghost var gated := Items(MessageItems, items, |items|, [Key("messages")]);
      ExtractItems(MessageItems, items, "messages");
      ApplyThen(start, Hid(a + b), gated);
      ThenNothing(Hid(a + b).Then(gated));
      ghost var before := Value();
      if |items| == 0 {
        status := "empty";
        assert before.messages + Render(|before.messages|, []) == before.messages;
        assert Value() == Apply(before, Marked("empty"));
        ApplyThen(start, Hid(a + b).Then(gated), Marked("empty"));
      }
    }

    method SetStatus(value: string)
      modifies `status
      ensures Value() == Apply(old(Value()), Marked(value))
    {
      status := value;
      assert messages + Render(|messages|, []) == messages;
    }

    method ExtractResponses(fields: seq<Field>)
      modifies `messages, `excludedRoles, `status
      ensures Value() == Apply(old(Value()), Responses(fields, |old(messages)|))
    {
      ghost var start := Value();
      ghost var hidden := Hid(HiddenField(fields, "instructions", "system"));
      ExcludeField(fields, "instructions", "system");
      assert messages == old(messages);
      ExtractInput(Lookup(fields, "input"));
      ApplyThen(start, hidden, Input(Lookup(fields, "input"), |old(messages)|));
    }

    method ExtractInput(input: Option<Json>)
      modifies `messages, `excludedRoles, `status
      ensures Value() == Apply(old(Value()), Input(input, |old(messages)|))
    {
      if input.None? {
        if |messages| == 0 {
          SetStatus("empty");
        } else {
          ApplyNothing(Value());
        }
      } else if input.value.Str? {
        AddRootText(input.value.text, "input");
      } else if input.value.Arr? {
        ExtractItems(InputItems, input.value.items, "input");
      } else if input.value.Obj? {
        PrintRoot("input");
        ExtractRoleMessage(input.value.fields, "input", [Key("input")]);
      } else {
        SetStatus("partial");
      }
    }

    method AddRootText(text: string, key: string)
      modifies `messages
      ensures Value() == Apply(old(Value()), Took(Leaf(text, [Key(key)])))
    {
      PrintRoot(key);
      AddUserMessage(text, key, [Key(key)]);
    }

    method ExtractAnthropic(fields: seq<Field>)
      modifies `messages, `excludedRoles, `status
      ensures Value() == Apply(old(Value()), Anthropic(fields))
    {
      ghost var start := Value();
      ghost var hidden := Hid(HiddenField(fields, "system", "system"));
      ExcludeField(fields, "system", "system");
      var list := Lookup(fields, "messages");
      if !(list.Some? && list.value.Arr?) {
        SetStatus("empty");
        ApplyThen(start, hidden, Marked("empty"));
        return;
      }
      var items := list.value.items;
      ExtractItems(MessageItems, items, "messages");
      ApplyThen(start, hidden, Items(MessageItems, items, |items|, [Key("messages")]));
    }

    method ExtractGemini(fields: seq<Field>)
      modifies `messages, `excludedRoles, `status
      ensures Value() == Apply(old(Value()), Gemini(fields, |old(messages)|))
    {
      ghost var start := Value();
      ghost var a := HiddenField(fields, "systemInstruction", "system");
      ghost var b := HiddenField(fields, "system_instruction", "system");
      ExcludeField(fields, "systemInstruction", "system");
      ExcludeField(fields, "system_instruction", "system");
      ApplyThen(start, Hid(a), Hid(b));
      assert Hid(a).Then(Hid(b)) == Hid(a + b);
      assert messages == old(messages);
      var list := Lookup(fields, "contents");
      if !(list.Some? && list.value.Arr?) {
        ExtractGeneric(fields);
        ApplyThen(start, Hid(a + b), Generic(fields, |old(messages)|));
        return;
      }
      var items := list.value.items;
      ExtractItems(ContentsItems, items, "contents");
      ApplyThen(start, Hid(a + b), Items(ContentsItems, items, |items|, [Key("contents")]));
    }

    method ExtractJsonByProtocol(root: Json)
      modifies `messages, `excludedRoles, `status
      ensures Value() == Apply(old(Value()), ByProtocol(protocol, root, |old(messages)|))
    {
      if !root.Obj? {
        SetStatus("unsupported");
      } else if protocol == "openai-chat" {
        ExtractOpenAIChat(root.fields);
      } else if protocol == "openai-responses" || protocol == "openai-responses-ws" {
        ExtractResponses(root.fields);
      } else if protocol == "anthropic-messages" {
        ExtractAnthropic(root.fields);
      } else if protocol == "gemini" {
        ExtractGemini(root.fields);
      } else {
        ExtractGeneric(root.fields);
      }
    }

    method ExtractFormField(key: string, values: seq<string>)
      modifies `messages
      ensures Value() == Apply(old(Value()), Took(FormValues(key, values, |values|)))
    {
      ghost var start := Value();
      ApplyNothing(start);
      for i := 0 to |values|
        invariant Value() == Apply(start, Took(FormValues(key, values, i)))
      {
        AddRootText(values[i], key);
        ApplyTook(start, FormValues(key, values, i), Leaf(values[i], [Key(key)]));
      }
    }

    method ExtractFormValues(values: Option<map<string, seq<string>>>)
      modifies `messages, `status
      ensures Value() == Apply(old(Value()), FormOutcome(values, |old(messages)|))
    {
      if values.None? {
        SetStatus("unsupported");
        return;
      }
      ghost var start := Value();
      ApplyNothing(start);
      var names := PROMPT_FIELDS;
      for k := 0 to |names|
        invariant Value() == Apply(start, Took(FormFields(values.value, names, k)))
      {
        var key := names[k];
        ghost var here := FormField(values.value, key);
        if key in values.value {
          ExtractFormField(key, values.value[key]);
        } else {
          ApplyNothing(Value());
        }
        ApplyTook(start, FormFields(values.value, names, k), here);
      }
      SetTakenStatus();
    }

    method ExtractMultipart(payload: Payload) returns (failed: bool)
      requires payload.Multipart?
      modifies `messages, `status
      ensures failed <==> MultipartFails(payload)
      ensures Value() == Apply(old(Value()), MultipartOutcome(payload, |old(messages)|))
    {
      ghost var start := Value();
      ApplyNothing(start);
      if !payload.header || !payload.boundary {
        return true;
      }
      var parts := payload.parts;
      ghost var stop := FirstBroken(parts, 0);
      for i := 0 to |parts|
        invariant i <= stop
        invariant Value() == Apply(start, Took(PartFields(parts, i)))
      {
        if parts[i].Broken() {
          return true;
        }
        if parts[i].Wanted() {
          AddRootText(parts[i].Value(), parts[i].Name());
        } else {
          ApplyNothing(Value());
        }
        ApplyTook(start, PartFields(parts, i), PartField(parts[i]));
      }
      if payload.fails {
        return true;
      }
      SetTakenStatus();
      return false;
    }
  }

  // ------------------------------------------------------------- entry points

  function Start(protocol: string, model: string): Extracted {
    Extracted(protocol, model, [], map[], "", false, "", "")
  }

  /** The finished extraction that an outcome on an empty extraction leads to. */
  predicate Finished(r: Extracted, o: Outcome, maxPromptBytes: int, hash: string -> string) {
    && r.messages == Render(0, o.captures)
    && r.excludedRoles == Tally(map[], o.hidden)
    && r.status == FinalStatus(o.status.GetOr(""), |o.captures|)
    && r.promptText == Utf8.Truncate(FullPrompt(r.messages), maxPromptBytes)
    && r.promptHash == hash(FullPrompt(r.messages))
    && (r.truncated <==> 0 < maxPromptBytes < |FullPrompt(r.messages)|)
  }

  /** The one extraction that an outcome finishes as. */
  function Completed(o: Outcome, protocol: string, model: string, maxPromptBytes: int, hash: string -> string)
    : (x: Extracted)
    ensures Finished(x, o, maxPromptBytes, hash)
  {
    var messages := Render(0, o.captures);
    var full := FullPrompt(messages);
    Extracted(protocol, model, messages, Tally(map[], o.hidden), FinalStatus(o.status.GetOr(""), |o.captures|),
              0 < maxPromptBytes < |full|, Utf8.Truncate(full, maxPromptBytes), hash(full))
  }

  method Finish(e: Extraction, ghost o: Outcome, maxPromptBytes: int, hash: string -> string) returns (r: Extracted)
    requires e.Value() == Apply(State([], map[], ""), o)
    ensures Finished(r, o, maxPromptBytes, hash)
    ensures r.protocol == e.protocol && r.model == e.model
  {
    assert [] + Render(0, o.captures) == Render(0, o.captures);
    r := Finalize(
      Start(e.protocol, e.model).(messages := e.messages, excludedRoles := e.excludedRoles, status := e.status),
      maxPromptBytes, hash);
  }

  method ExtractRequest(path: string, payload: Payload, maxPromptBytes: int, hash: string -> string)
    returns (r: Extracted)
    ensures Finished(r, RequestOutcome(ProtocolForPath(path), payload), maxPromptBytes, hash)
    ensures r.protocol == ProtocolForPath(path)
    ensures r.model == if payload.JsonBody? && payload.root.Some? then ModelFromJson(payload.root.value) else ""
  {
    var e := new Extraction(ProtocolForPath(path));
    ghost var o := RequestOutcome(e.protocol, payload);
    match payload {
      case NoBody =>
        e.SetStatus("empty");
      case Form(values) =>
        e.ExtractFormValues(values);
      case Multipart(_, _, _, _) =>
        var failed := e.ExtractMultipart(payload);
        if failed {
          e.SetStatus("unsupported");
          ApplyThen(State([], map[], ""), MultipartOutcome(payload, 0), Marked("unsupported"));
          ThenMarked(MultipartOutcome(payload, 0), "unsupported");
        }
      case JsonBody(None) =>
        e.SetStatus("unsupported");
      case JsonBody(Some(root)) =>
        e.model := ModelFromJson(root);
        e.ExtractJsonByProtocol(root);
    }
    r := Finish(e, o, maxPromptBytes, hash);
  }

  lemma ThenMarked(o: Outcome, status: string)
    ensures o.Then(Marked(status)) == o.(status := Some(status))
  {
    assert o.captures + [] == o.captures && o.hidden + [] == o.hidden;
  }

  const EVENTS: seq<string> := ["response.create", "conversation.item.create"]

  method ExtractWebSocketMessage(path: string, root: Option<Json>, maxPromptBytes: int, hash: string -> string)
    returns (r: Extracted)
    ensures Finished(r, FrameOutcome(ProtocolForPath(path), root), maxPromptBytes, hash)
    ensures r.model == if root.Some? then ModelFromJson(root.value) else ""
    ensures r.protocol ==
      if root.Some? && root.value.Obj? && EventType(root.value.fields) in EVENTS
      then "openai-responses-ws" else ProtocolForPath(path)
  {
    var e := new Extraction(ProtocolForPath(path));
    ghost var o := FrameOutcome(e.protocol, root);
    if root.None? {
      e.SetStatus("unsupported");
    } else {
      e.model := ModelFromJson(root.value);
      if !root.value.Obj? {
        e.SetStatus("unsupported");
      } else {
        ExtractEvent(e, root.value);
      }
    }
    r := Finish(e, o, maxPromptBytes, hash);
  }

  method ExtractEvent(e: Extraction, root: Json)
    requires root.Obj? && e.Value() == State([], map[], "")
    modifies e
    ensures e.Value() == Apply(State([], map[], ""), WebSocketFrame(old(e.protocol), root))
    ensures e.model == old(e.model)
    ensures e.protocol == if EventType(root.fields) in EVENTS then "openai-responses-ws" else old(e.protocol)
  {
    var event := EventType(root.fields);
    if event == "response.create" {
      e.protocol := "openai-responses-ws";
      e.ExtractResponses(root.fields);
    } else if event == "conversation.item.create" {
      e.protocol := "openai-responses-ws";
      var item := Lookup(root.fields, "item");
      if item.Some? && item.value.Obj? {
        PrintRoot("item");
        e.ExtractRoleMessage(item.value.fields, "item", [Key("item")]);
      } else {
        e.SetStatus("unsupported");
      }
    } else {
      e.ExtractJsonByProtocol(root);
    }
  }
}
