/**
 The order of captured texts, and what their recorded sources are worth.

 Captures are strictly ordered by position, so none is taken twice, and the extraction is
 the only ordered list of the texts at allowed positions.
 */
module DocumentOrder {
  import opened Common
  import opened Text
  import opened JsonTree
  import opened Protocols
  import opened AllowList
  import opened Model
  import opened Extractor

  // ------------------------------------------------------------------- order

  function Position(names: seq<string>, name: string): nat {
    if names == [] || names[0] == name then 0 else 1 + Position(names[1..], name)
  }

  /** Array elements by index, fields by the fixed order of the prompt field names. */
  predicate StepBefore(a: Step, b: Step) {
    match (a, b)
    case (At(i), At(j)) => i < j
    case (Key(x), Key(y)) => Position(PROMPT_NAMES, x) < Position(PROMPT_NAMES, y)
    case _ => false
  }

  predicate DiffersAt(p: Path, q: Path, k: nat) {
    k < |p| && k < |q| && p[..k] == q[..k] && StepBefore(p[k], q[k])
  }

  ghost predicate Before(p: Path, q: Path) {
    exists k: nat :: DiffersAt(p, q, k)
  }

  ghost predicate Sorted(captures: seq<Capture>) {
    forall i, j :: 0 <= i < j < |captures| ==> Before(captures[i].path, captures[j].path)
  }

  predicate AllUnder(captures: seq<Capture>, path: Path) {
    forall c :: c in captures ==> path <= c.path
  }

  predicate AllEnter(captures: seq<Capture>, path: Path, n: nat) {
    forall c :: c in captures ==> Enters(path, n, c.path)
  }

  lemma BeforeIsAsymmetric(p: Path, q: Path)
    requires Before(p, q)
    ensures !Before(q, p) && p != q
  {
    var k: nat :| DiffersAt(p, q, k);
    forall m: nat
      ensures !DiffersAt(q, p, m)
    {
      assert m < k ==> p[..k][m] == p[m] && q[..k][m] == q[m];
      assert k < m <= |p| && m <= |q| ==> p[..m][k] == p[k] && q[..m][k] == q[k];
    }
  }

  lemma SortedJoin(a: seq<Capture>, b: seq<Capture>)
    requires Sorted(a) && Sorted(b)
    requires forall x, y :: x in a && y in b ==> Before(x.path, y.path)
    ensures Sorted(a + b)
  {
  }

  lemma {:induction false} NestedSorted(fields: seq<Field>, path: Path)
    ensures Sorted(Nested(fields, path)) && AllUnder(Nested(fields, path), path)
    decreases fields, 0
  {
    var nested := Lookup(fields, "content");
    if nested.Some? { ContentSorted(nested.value, path + [Key("content")]); }
  }

  lemma {:induction false} PartSorted(item: Json, path: Path)
    ensures Sorted(Part(item, path)) && AllUnder(Part(item, path), path)
    decreases item, 0
  {
    match item
    case Obj(fields) => NestedSorted(fields, path);
    case _ =>
  }

  lemma {:induction false} PartsSorted(items: seq<Json>, n: nat, path: Path)
    requires n <= |items|
    ensures Sorted(Parts(items, n, path)) && AllEnter(Parts(items, n, path), path, n)
    decreases items, 0, n
  {
    if n > 0 {
      PartsSorted(items, n - 1, path);
      PartSorted(items[n - 1], path + [At(n - 1)]);
      NextElement(Parts(items, n - 1, path), Part(items[n - 1], path + [At(n - 1)]), path, n);
    }
  }

  /** Appending what one more element yields keeps the order. */
  lemma NextElement(a: seq<Capture>, b: seq<Capture>, path: Path, n: nat)
    requires n > 0 && Sorted(a) && AllEnter(a, path, n - 1) && Sorted(b) && AllUnder(b, path + [At(n - 1)])
    ensures Sorted(a + b) && AllEnter(a + b, path, n)
  {
    forall x, y | x in a && y in b
      ensures Before(x.path, y.path)
    {
      EntersStep(path, n, y.path);
      assert x.path[..|path|] == path == y.path[..|path|];
      assert DiffersAt(x.path, y.path, |path|);
    }
    SortedJoin(a, b);
    forall c | c in a + b
      ensures Enters(path, n, c.path)
    {
      EntersStep(path, n, c.path);
    }
  }

  lemma {:induction false} ContentSorted(v: Json, path: Path)
    ensures Sorted(Content(v, path)) && AllUnder(Content(v, path), path)
    decreases v, 1
  {
    match v
    case Arr(items) => PartsSorted(items, |items|, path);
    case Obj(fields) => NestedSorted(fields, path);
    case _ =>
  }

  lemma RoleMessageSorted(fields: seq<Field>, path: Path)
    ensures Sorted(RoleMessage(fields, path).captures) && AllUnder(RoleMessage(fields, path).captures, path)
  {
    var content, parts := Lookup(fields, "content"), Lookup(fields, "parts");
    if content.Some? { ContentSorted(content.value, path + [Key("content")]); }
    else if parts.Some? { ContentSorted(parts.value, path + [Key("parts")]); }
  }

  lemma LeafSorted(t: string, path: Path, above: Path)
    requires above <= path
    ensures Sorted(Leaf(t, path)) && AllUnder(Leaf(t, path), above)
  {
  }

  lemma UnderStep(captures: seq<Capture>, path: Path, s: Step)
    requires AllUnder(captures, path + [s])
    ensures AllUnder(captures, path)
  {
    forall c | c in captures ensures path <= c.path { StepDown(path, s, c.path); }
  }

  lemma InputItemSorted(item: Json, path: Path)
    ensures Sorted(InputItem(item, path).captures) && AllUnder(InputItem(item, path).captures, path)
  {
    match item
    case Str(t) => LeafSorted(t, path, path);
    case Obj(fields) =>
      LeafSorted(StringOr(fields, "text"), path + [Key("text")], path);
      RoleMessageSorted(fields, path);
    case _ =>
  }

  lemma ContentsItemSorted(item: Json, path: Path)
    ensures Sorted(ContentsItem(item, path).captures) && AllUnder(ContentsItem(item, path).captures, path)
  {
    if item.Obj? {
      var v := Lookup(item.fields, "parts").GetOr(Null);
      ContentSorted(v, path + [Key("parts")]);
      UnderStep(Content(v, path + [Key("parts")]), path, Key("parts"));
    }
  }

  lemma ItemSorted(kind: ItemKind, item: Json, path: Path)
    ensures Sorted(Item(kind, item, path).captures) && AllUnder(Item(kind, item, path).captures, path)
  {
    match kind
    case MessageItems => if item.Obj? { RoleMessageSorted(item.fields, path); }
    case InputItems => InputItemSorted(item, path);
    case ContentsItems => ContentsItemSorted(item, path);
  }

  lemma {:induction false} EachSorted(items: seq<Json>, n: nat, path: Path, f: (Json, Path) -> Outcome)
    requires n <= |items|
    requires forall i: nat :: i < n ==>
      Sorted(f(items[i], path + [At(i)]).captures) && AllUnder(f(items[i], path + [At(i)]).captures, path + [At(i)])
    ensures Sorted(Each(items, n, path, f).captures) && AllEnter(Each(items, n, path, f).captures, path, n)
  {
    if n > 0 {
      EachSorted(items, n - 1, path, f);
      NextElement(Each(items, n - 1, path, f).captures, f(items[n - 1], path + [At(n - 1)]).captures, path, n);
    }
  }

  lemma ItemsSorted(kind: ItemKind, items: seq<Json>, path: Path)
    ensures Sorted(Items(kind, items, |items|, path).captures)
  {
    forall i: nat | i < |items|
      ensures Sorted(Gate(kind)(items[i], path + [At(i)]).captures)
      ensures AllUnder(Gate(kind)(items[i], path + [At(i)]).captures, path + [At(i)])
    {
      ItemSorted(kind, items[i], path + [At(i)]);
    }
    EachSorted(items, |items|, path, Gate(kind));
  }

  lemma {:induction false} StringsSorted(items: seq<Json>, n: nat, path: Path)
    requires n <= |items|
    ensures Sorted(Strings(items, n, path)) && AllEnter(Strings(items, n, path), path, n)
  {
    if n > 0 {
      StringsSorted(items, n - 1, path);
      var last := if items[n - 1].Str? then Leaf(items[n - 1].text, path + [At(n - 1)]) else [];
      NextElement(Strings(items, n - 1, path), last, path, n);
    }
  }

  lemma PromptFieldSorted(fields: seq<Field>, key: string)
    ensures Sorted(PromptField(fields, key)) && AllUnder(PromptField(fields, key), [Key(key)])
  {
    match Lookup(fields, key)
    case Some(Arr(items)) => StringsSorted(items, |items|, [Key(key)]);
    case _ =>
  }

  predicate Distinct(names: seq<string>) {
    forall i, j :: 0 <= i < j < |names| ==> names[i] != names[j]
  }

  lemma {:induction false} PositionAt(names: seq<string>, k: nat)
    requires k < |names| && Distinct(names)
    ensures Position(names, names[k]) == k
  {
    if k > 0 {
      PositionAt(names[1..], k - 1);
      assert names[1..][k - 1] == names[k];
    }
  }

  lemma PromptFieldsDistinct()
    ensures Distinct(PROMPT_FIELDS)
  {
    assert |"prompt"| == 6 && |"query"| == 5 && |"input"| == 5 && |"text"| == 4 && |"description"| == 11;
    assert "query"[0] != "input"[0];
  }

  lemma {:induction false} PromptFieldsSorted(fields: seq<Field>, n: nat)
    requires n <= |PROMPT_FIELDS|
    ensures Sorted(PromptFields(fields, PROMPT_FIELDS, n))
    ensures forall c :: c in PromptFields(fields, PROMPT_FIELDS, n) ==>
      c.path != [] && c.path[0].Key? && c.path[0].name in PROMPT_FIELDS[..n]
  {
    if n > 0 {
      var names := PROMPT_FIELDS;
      PromptFieldsSorted(fields, n - 1);
      PromptFieldSorted(fields, names[n - 1]);
      PromptFieldsDistinct();
      var a, b := PromptFields(fields, names, n - 1), PromptField(fields, names[n - 1]);
      forall x, y | x in a && y in b
        ensures Before(x.path, y.path)
      {
        var i :| 0 <= i < n - 1 && names[i] == x.path[0].name;
        PositionAt(names, i);
        PositionAt(names, n - 1);
        assert DiffersAt(x.path, y.path, 0);
      }
      SortedJoin(a, b);
      assert names[..n] == names[..n - 1] + [names[n - 1]];
    }
  }

  lemma GenericSorted(fields: seq<Field>)
    ensures Sorted(Generic(fields, 0).captures)
  {
    PromptFieldsSorted(fields, |PROMPT_FIELDS|);
    if ArrayAt(fields, "messages").Some? {
      var items := ArrayAt(fields, "messages").value;
      ItemsSorted(MessageItems, items, [Key("messages")]);
      var gated, rest := Items(MessageItems, items, |items|, [Key("messages")]), FallbackFields(fields, 0);
      if items == [] { assert gated.captures + rest.captures == rest.captures; }
    }
  }

  lemma InputSorted(fields: seq<Field>)
    ensures Sorted(Responses(fields, 0).captures)
  {
    match Lookup(fields, "input")
    case Some(Arr(items)) => ItemsSorted(InputItems, items, [Key("input")]);
    case Some(Obj(inner)) => RoleMessageSorted(inner, [Key("input")]);
    case _ =>
  }

  /** Every extraction lists its texts strictly in document order. */
  lemma CapturedInOrder(protocol: string, root: Json)
    ensures Sorted(ByProtocol(protocol, root, 0).captures)
  {
    if root.Obj? {
      if protocol == "openai-responses" || protocol == "openai-responses-ws" {
        InputSorted(root.fields);
      } else if protocol == "gemini" {
        ArraySorted(ContentsItems, root.fields, "contents");
        GenericSorted(root.fields);
      } else {
        ArraySorted(MessageItems, root.fields, "messages");
        GenericSorted(root.fields);
      }
    }
  }

  lemma ArraySorted(kind: ItemKind, fields: seq<Field>, key: string)
    ensures ArrayAt(fields, key).Some? ==>
      var items := ArrayAt(fields, key).value; Sorted(Items(kind, items, |items|, [Key(key)]).captures)
  {
    if ArrayAt(fields, key).Some? { ItemsSorted(kind, ArrayAt(fields, key).value, [Key(key)]); }
  }

  lemma FrameCapturedInOrder(protocol: string, root: Json)
    ensures Sorted(WebSocketFrame(protocol, root).captures)
  {
    CapturedInOrder(protocol, root);
    if root.Obj? {
      InputSorted(root.fields);
      match Lookup(root.fields, "item")
      case Some(Obj(inner)) => RoleMessageSorted(inner, [Key("item")]);
      case _ =>
    }
  }

  // ------------------------------------------------------- only one such list

  /** An ordered list is determined by its members. */
  lemma {:induction false} SortedIsUnique(a: seq<Capture>, b: seq<Capture>)
    requires Sorted(a) && Sorted(b) && (forall c :: c in a <==> c in b)
    ensures a == b
  {
    assert |a| > 0 ==> a[0] in b;
    assert |b| > 0 ==> b[0] in a;
    if a != [] && b != [] {
      SameHead(a, b);
      var x, y := a[1..], b[1..];
      forall c
        ensures c in x <==> c in y
      {
        TailMembers(a, c);
        TailMembers(b, c);
      }
      SortedIsUnique(x, y);
      assert a == [a[0]] + x && b == [b[0]] + y;
    }
  }

  lemma SameHead(a: seq<Capture>, b: seq<Capture>)
    requires Sorted(a) && Sorted(b) && a != [] && b != [] && a[0] in b && b[0] in a
    ensures a[0] == b[0]
  {
    var i :| 0 <= i < |a| && a[i] == b[0];
    var j :| 0 <= j < |b| && b[j] == a[0];
    if i > 0 && j > 0 { BeforeIsAsymmetric(a[0].path, a[i].path); }
  }

  lemma TailMembers(a: seq<Capture>, c: Capture)
    requires Sorted(a) && a != []
    ensures c in a[1..] <==> c in a && c != a[0]
  {
    if c in a[1..] {
      var i :| 0 <= i < |a[1..]| && a[1..][i] == c;
      BeforeIsAsymmetric(a[0].path, a[i + 1].path);
    }
    if c in a && c != a[0] {
      var i :| 0 <= i < |a| && a[i] == c;
      assert a[1..][i - 1] == c;
    }
  }

  /**
   The extraction equals its declarative description: any list in document order whose members
   are exactly the non-blank texts at allowed positions is the list of captures.
   */
  lemma ExtractionIsTheOrderedAllowList(protocol: string, root: Json, list: seq<Capture>)
    requires root.Obj? && Sorted(list)
    requires forall c :: c in list <==> Allowed(protocol, root.fields, c.path) && Holds(root, c.path, c.text)
    ensures list == ByProtocol(protocol, root, 0).captures
  {
    var captures := ByProtocol(protocol, root, 0).captures;
    forall c
      ensures c in list <==> c in captures
    {
      CapturedIffAllowed(protocol, root, c);
    }
    CapturedInOrder(protocol, root);
    SortedIsUnique(list, captures);
  }

  // -------------------------------------------------------------- provenance

  predicate PlainSteps(p: Path) {
    forall i :: 0 <= i < |p| && p[i].Key? ==> PlainName(p[i].name)
  }

  lemma PlainCons(s: Step, p: Path)
    requires p != [] && p[0] == s && PlainSteps(p[1..]) && (s.Key? ==> PlainName(s.name))
    ensures PlainSteps(p)
  {
    assert forall i :: 1 <= i < |p| ==> p[i] == p[1..][i - 1];
  }

  lemma {:induction false} ContentLeafPlain(v: Json, p: Path)
    requires ContentLeaf(v, p)
    ensures PlainSteps(p)
    decreases |p|
  {
    match v
    case Arr(items) =>
      var item, rest := items[p[0].index], p[1..];
      if item.Obj? && !OpenPart(item.fields) { NestedLeafPlain(item.fields, rest); }
      PlainCons(p[0], p);
    case Obj(fields) =>
      if !IsText(Lookup(fields, "text")) { NestedLeafPlain(fields, p); }
    case _ =>
  }

  lemma {:induction false} NestedLeafPlain(fields: seq<Field>, p: Path)
    requires NestedLeaf(fields, p)
    ensures PlainSteps(p)
    decreases |p|, 0
  {
    ContentLeafPlain(Lookup(fields, "content").value, p[1..]);
    PlainCons(Key("content"), p);
  }

  lemma PlainNames()
    ensures PlainName("messages") && PlainName("contents") && PlainName("item") && PlainName("input")
    ensures PlainName("content") && PlainName("parts") && PlainName("text")
    ensures PlainName("prompt") && PlainName("query") && PlainName("description")
  {
    LettersArePlain("messages");
    LettersArePlain("contents");
    LettersArePlain("item");
    LettersArePlain("input");
    LettersArePlain("content");
    LettersArePlain("parts");
    LettersArePlain("text");
    LettersArePlain("prompt");
    LettersArePlain("query");
    LettersArePlain("description");
  }

  lemma LettersArePlain(name: string)
    requires name != "" && forall i :: 0 <= i < |name| ==> 'a' <= name[i] <= 'z'
    ensures PlainName(name)
  {
  }

  lemma FieldLeafPlain(name: string, v: Json, p: Path)
    requires p != [] && p[0] == Key(name) && PlainName(name) && ContentLeaf(v, p[1..])
    ensures PlainSteps(p)
  {
    ContentLeafPlain(v, p[1..]);
    PlainCons(Key(name), p);
  }

  lemma RoleLeafPlain(fields: seq<Field>, p: Path)
    requires RoleLeaf(fields, p)
    ensures PlainSteps(p)
  {
    PlainNames();
    if Lookup(fields, "content").Some? {
      FieldLeafPlain("content", Lookup(fields, "content").value, p);
    } else if Lookup(fields, "parts").Some? {
      FieldLeafPlain("parts", Lookup(fields, "parts").value, p);
    }
  }

  lemma ItemsLeafPlain(kind: ItemKind, items: seq<Json>, p: Path)
    requires ItemsLeaf(kind, items, p)
    ensures PlainSteps(p)
  {
    var item, rest := items[p[0].index], p[1..];
    if item.Obj? {
      if kind.ContentsItems? {
        PlainNames();
        FieldLeafPlain("parts", Lookup(item.fields, "parts").value, rest);
      } else if RoleLeaf(item.fields, rest) {
        RoleLeafPlain(item.fields, rest);
      }
    }
    PlainCons(p[0], p);
  }

  lemma UnderRootPlain(p: Path)
    requires p != [] && p[0].Key? && PlainName(p[0].name) && PlainSteps(p[1..])
    ensures PlainPath(p)
  {
    PlainCons(p[0], p);
  }

  lemma GenericLeafPlain(fields: seq<Field>, p: Path)
    requires GenericLeaf(fields, p)
    ensures PlainPath(p)
  {
    PlainNames();
    if ArrayLeaf(MessageItems, fields, "messages", p) {
      ArrayLeafPlain(MessageItems, fields, "messages", p);
    } else {
      assert PlainSteps(p[1..]);
      UnderRootPlain(p);
    }
  }

  lemma InputLeafPlain(fields: seq<Field>, p: Path)
    requires InputLeaf(fields, p)
    ensures PlainPath(p)
  {
    PlainNames();
    match Lookup(fields, "input") {
      case Some(Arr(items)) => ItemsLeafPlain(InputItems, items, p[1..]);
      case Some(Obj(inner)) => RoleLeafPlain(inner, p[1..]);
      case _ =>
    }
    UnderRootPlain(p);
  }

  lemma ArrayLeafPlain(kind: ItemKind, fields: seq<Field>, key: string, p: Path)
    requires ArrayLeaf(kind, fields, key, p) && PlainName(key)
    ensures PlainPath(p)
  {
    ItemsLeafPlain(kind, ArrayAt(fields, key).value, p[1..]);
    UnderRootPlain(p);
  }

  lemma AllowedPlain(protocol: string, fields: seq<Field>, p: Path)
    requires Allowed(protocol, fields, p)
    ensures PlainPath(p)
  {
    PlainNames();
    if ArrayLeaf(MessageItems, fields, "messages", p) {
      ArrayLeafPlain(MessageItems, fields, "messages", p);
    } else if ArrayLeaf(ContentsItems, fields, "contents", p) {
      ArrayLeafPlain(ContentsItems, fields, "contents", p);
    } else if InputLeaf(fields, p) {
      InputLeafPlain(fields, p);
    } else {
      GenericLeafPlain(fields, p);
    }
  }

  /** The message records a position that can be read back from its source text. */
  ghost predicate Traced(root: Json, m: UserMessage) {
    exists p: Path :: PlainPath(p) && m.source == Print(p) && Follow(root, p) == Some(Str(m.text))
  }

  /** Ordered captures at readable positions make traced messages with distinct sources. */
  lemma OutcomeIsTraced(root: Json, o: Outcome, r: Extracted, maxPromptBytes: int, hash: string -> string)
    requires Finished(r, o, maxPromptBytes, hash) && Sorted(o.captures)
    requires forall c :: c in o.captures ==> PlainPath(c.path) && Holds(root, c.path, c.text)
    ensures forall i :: 0 <= i < |r.messages| ==> r.messages[i].index == i && Traced(root, r.messages[i])
    ensures forall i, j :: 0 <= i < j < |r.messages| ==> r.messages[i].source != r.messages[j].source
    ensures NoBlanks(r.messages)
  {
    var captures := o.captures;
    forall i | 0 <= i < |captures|
      ensures PlainPath(captures[i].path) && Traced(root, r.messages[i]) && !Blank(r.messages[i].text)
    {
      assert captures[i] in captures;
    }
    forall i, j | 0 <= i < j < |captures|
      ensures r.messages[i].source != r.messages[j].source
    {
      BeforeIsAsymmetric(captures[i].path, captures[j].path);
      if Print(captures[i].path) == Print(captures[j].path) {
        PrintInjective(captures[i].path, captures[j].path);
      }
    }
  }

  /**
   Provenance: every message of a finished JSON extraction carries its own number, its source
   text names one position of the request, that position holds exactly the message text, and
   no two messages share a source.
   */
  lemma Provenance(protocol: string, root: Json, r: Extracted, maxPromptBytes: int, hash: string -> string)
    requires root.Obj? && Finished(r, ByProtocol(protocol, root, 0), maxPromptBytes, hash)
    ensures forall i :: 0 <= i < |r.messages| ==> r.messages[i].index == i && Traced(root, r.messages[i])
    ensures forall i, j :: 0 <= i < j < |r.messages| ==> r.messages[i].source != r.messages[j].source
    ensures NoBlanks(r.messages)
  {
    var o := ByProtocol(protocol, root, 0);
    forall c | c in o.captures
      ensures PlainPath(c.path) && Holds(root, c.path, c.text)
    {
      CapturedIffAllowed(protocol, root, c);
      AllowedPlain(protocol, root.fields, c.path);
    }
    CapturedInOrder(protocol, root);
    OutcomeIsTraced(root, o, r, maxPromptBytes, hash);
  }

  lemma AllowedFramePlain(protocol: string, fields: seq<Field>, p: Path)
    requires AllowedFrame(protocol, fields, p)
    ensures PlainPath(p)
  {
    if Named(fields, "type") == "response.create" {
      InputLeafPlain(fields, p);
    } else if Named(fields, "type") == "conversation.item.create" {
      PlainNames();
      RoleLeafPlain(Lookup(fields, "item").value.fields, p[1..]);
      UnderRootPlain(p);
    } else {
      AllowedPlain(protocol, fields, p);
    }
  }

  /** Provenance for the messages of one WebSocket frame. */
  lemma FrameProvenance(protocol: string, root: Json, r: Extracted, maxPromptBytes: int, hash: string -> string)
    requires root.Obj? && Finished(r, WebSocketFrame(protocol, root), maxPromptBytes, hash)
    ensures forall i :: 0 <= i < |r.messages| ==> r.messages[i].index == i && Traced(root, r.messages[i])
    ensures forall i, j :: 0 <= i < j < |r.messages| ==> r.messages[i].source != r.messages[j].source
    ensures NoBlanks(r.messages)
  {
    var o := WebSocketFrame(protocol, root);
    forall c | c in o.captures
      ensures PlainPath(c.path) && Holds(root, c.path, c.text)
    {
      FrameCapturedIffAllowed(protocol, root, c);
      AllowedFramePlain(protocol, root.fields, c.path);
    }
    FrameCapturedInOrder(protocol, root);
    OutcomeIsTraced(root, o, r, maxPromptBytes, hash);
  }
}
