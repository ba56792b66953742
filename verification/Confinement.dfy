/**
 Which captured texts lie under a role that is to be left out (extractor.go:91-330).

 The gates look at the role of an item of `messages`, `contents` or `input` only.  A captured text is therefore
 free of system prompts and model output exactly if no such role stands elsewhere on its path.
 */
module Confinement {
  import opened Common
  import opened Text
  import opened JsonTree
  import opened Protocols
  import opened AllowList

  const HIDDEN_ROLES: seq<string> := ["system", "developer", "assistant", "tool", "model"]

  function RoleName(fields: seq<Field>): string { Named(fields, "role") }

  /** An object that says of itself that it is not the user's. */
  predicate CarriesHiddenRole(v: Json) {
    v.Obj? && RoleName(v.fields) in HIDDEN_ROLES
  }

  /** The object at the first `k` steps of `p` carries a hidden role. */
  predicate HiddenAt(root: Json, p: Path, k: nat)
    requires k <= |p|
  {
    var v := Follow(root, p[..k]);
    v.Some? && CarriesHiddenRole(v.value)
  }

  ghost predicate UnderHiddenRole(root: Json, p: Path) {
    exists k: nat :: k <= |p| && HiddenAt(root, p, k)
  }

  /** How many steps lead to what the gates look at: an array element, or a field of the root. */
  function GateDepth(p: Path): nat {
    if |p| >= 2 && p[1].At? then 2 else 1
  }

  /** A Gemini item of a role that `contents` does not leave out. */
  predicate UngatedItem(root: Json, p: Path) {
    && |p| >= 2 && p[0] == Key("contents")
    && var v := Follow(root, p[..2]);
       v.Some? && v.value.Obj? && RoleName(v.value.fields) in ["assistant", "tool"]
  }

  /** Some part below the gated item carries a hidden role of its own. */
  ghost predicate RoleBelowItem(root: Json, p: Path) {
    exists k: nat :: GateDepth(p) < k <= |p| && HiddenAt(root, p, k)
  }

  /** The three ways in which a hidden role on a path escapes the gates. */
  ghost predicate Escapes(protocol: string, root: Json, p: Path) {
    CarriesHiddenRole(root) || (protocol == "gemini" && UngatedItem(root, p)) || RoleBelowItem(root, p)
  }

  // -------------------------------------------------------------- the gates

  lemma UserIsNotHidden(fields: seq<Field>)
    requires UserRole(fields)
    ensures !CarriesHiddenRole(Obj(fields))
  {
    assert |"user"| == 4 && "tool"[0] == 't' && |"system"| == 6 && |"developer"| == 9 && |"assistant"| == 9;
    assert |"model"| == 5;
  }

  /** What an open item can carry. */
  lemma OpenItem(kind: ItemKind, item: Json, p: Path)
    requires ItemLeaf(kind, item, p) && CarriesHiddenRole(item)
    ensures kind.ContentsItems? && RoleName(item.fields) in ["assistant", "tool"]
  {
    match kind
    case MessageItems => UserIsNotHidden(item.fields);
    case InputItems =>
      UserIsNotHidden(item.fields);
    case ContentsItems =>
  }

  lemma FirstStep(root: Json, p: Path)
    requires root.Obj? && p != [] && p[0].Key?
    ensures Follow(root, p[..1]) == Lookup(root.fields, p[0].name)
  {
    FollowField(root, p[0].name);
    assert p[..1] == [Key(p[0].name)];
  }

  lemma SecondStep(root: Json, p: Path)
    requires root.Obj? && |p| >= 2 && p[0].Key? && p[1].At?
    requires ArrayAt(root.fields, p[0].name).Some? && p[1].index < |ArrayAt(root.fields, p[0].name).value|
    ensures Follow(root, p[..2]) == Some(ArrayAt(root.fields, p[0].name).value[p[1].index])
  {
    var key, items := p[0].name, ArrayAt(root.fields, p[0].name).value;
    assert p[..2] == [Key(key), At(p[1].index)] && p[..2][2..] == [];
    FollowElement(root, key, p[..2]);
  }

  lemma ArrayGate(kind: ItemKind, root: Json, key: string, p: Path, k: nat)
    requires root.Obj? && ArrayLeaf(kind, root.fields, key, p) && 1 <= k <= 2
    ensures GateDepth(p) == 2 <= |p|
    ensures HiddenAt(root, p, k) ==>
      k == 2 && kind.ContentsItems? && RoleName(Follow(root, p[..2]).value.fields) in ["assistant", "tool"]
  {
    assert p[1..][0] == p[1] && p[1..][1..] == p[2..];
    FirstStep(root, p);
    SecondStep(root, p);
    var item := ArrayAt(root.fields, key).value[p[1].index];
    if CarriesHiddenRole(item) { OpenItem(kind, item, p[2..]); }
  }

  lemma MessageGate(root: Json, inner: seq<Field>, p: Path)
    requires root.Obj? && p != [] && p[0].Key? && Lookup(root.fields, p[0].name) == Some(Obj(inner))
    requires RoleLeaf(inner, p[1..])
    ensures GateDepth(p) == 1 && !HiddenAt(root, p, 1)
  {
    FirstStep(root, p);
    UserIsNotHidden(inner);
    assert |p| >= 2 ==> p[1..][0] == p[1];
  }

  /** The three forms of an allowed `input`. */
  predicate InputForm(fields: seq<Field>, p: Path) {
    var input := Lookup(fields, "input");
    && p != [] && p[0] == Key("input") && input.Some?
    && ((input.value.Str? && |p| == 1)
        || (input.value.Arr? && ArrayLeaf(InputItems, fields, "input", p))
        || (input.value.Obj? && RoleLeaf(input.value.fields, p[1..])))
  }

  lemma InputCases(fields: seq<Field>, p: Path)
    requires InputLeaf(fields, p)
    ensures InputForm(fields, p)
  {
    assert |p[1..]| == |p| - 1;
  }

  lemma InputGate(root: Json, p: Path, k: nat)
    requires root.Obj? && InputForm(root.fields, p) && 1 <= k <= GateDepth(p) && k <= |p|
    ensures !HiddenAt(root, p, k)
  {
    var input := Lookup(root.fields, "input").value;
    if input.Arr? {
      ArrayGate(InputItems, root, "input", p, k);
    } else if input.Obj? {
      MessageGate(root, input.fields, p);
    } else {
      FirstStep(root, p);
    }
  }

  lemma PromptGate(root: Json, p: Path, k: nat)
    requires root.Obj? && PromptFieldLeaf(root.fields, p) && 1 <= k <= |p|
    ensures !HiddenAt(root, p, k)
  {
    FirstStep(root, p);
    var v := Lookup(root.fields, p[0].name).value;
    if v.Arr? {
      assert p[1..][0] == p[1];
      SecondStep(root, p);
    }
    assert |p[1..]| == |p| - 1;
  }

  lemma GenericGate(root: Json, p: Path, k: nat)
    requires root.Obj? && GenericLeaf(root.fields, p) && 1 <= k <= GateDepth(p) && k <= |p|
    ensures !HiddenAt(root, p, k)
  {
    if PromptFieldLeaf(root.fields, p) {
      PromptGate(root, p, k);
    } else {
      ArrayGate(MessageItems, root, "messages", p, k);
    }
  }

  /** Up to the gate, the only hidden role on an allowed path is that of an ungated Gemini item. */
  lemma GateHolds(protocol: string, root: Json, p: Path, k: nat)
    requires root.Obj? && Allowed(protocol, root.fields, p)
    requires 1 <= k <= GateDepth(p) && k <= |p| && HiddenAt(root, p, k)
    ensures protocol == "gemini" && UngatedItem(root, p)
  {
    if ArrayLeaf(MessageItems, root.fields, "messages", p) {
      ArrayGate(MessageItems, root, "messages", p, k);
      assert false;
    } else if protocol == "gemini" && ArrayAt(root.fields, "contents").Some? {
      ArrayGate(ContentsItems, root, "contents", p, k);
    } else if protocol == "openai-responses" || protocol == "openai-responses-ws" {
      InputLeafGate(root, p, k);
      assert false;
    } else {
      GenericGate(root, p, k);
      assert false;
    }
  }

  // ------------------------------------------------------------ confinement

  lemma Split(root: Json, p: Path, gated: bool)
    requires forall k: nat :: 1 <= k <= GateDepth(p) && k <= |p| && HiddenAt(root, p, k) ==> gated
    requires gated ==> 2 <= |p| && HiddenAt(root, p, 2)
    ensures UnderHiddenRole(root, p) <==> CarriesHiddenRole(root) || gated || RoleBelowItem(root, p)
  {
    assert p[..0] == [] && Follow(root, p[..0]) == Some(root);
    if CarriesHiddenRole(root) { assert HiddenAt(root, p, 0); }
  }

  /**
   Confinement: a captured text lies under a hidden role if and only if the request object itself carries
   one, or the text belongs to a Gemini item of role assistant or tool, or a part below the item carries a
   hidden role of its own.
   */
  lemma HiddenExactlyWhen(protocol: string, root: Json, c: Capture)
    requires root.Obj? && c in ByProtocol(protocol, root, 0).captures
    ensures UnderHiddenRole(root, c.path) <==> Escapes(protocol, root, c.path)
  {
    CapturedIffAllowed(protocol, root, c);
    var p := c.path;
    forall k: nat | 1 <= k <= GateDepth(p) && k <= |p| && HiddenAt(root, p, k)
      ensures protocol == "gemini" && UngatedItem(root, p)
    {
      GateHolds(protocol, root, p, k);
    }
    Split(root, p, protocol == "gemini" && UngatedItem(root, p));
  }

  lemma ItemEventGate(root: Json, p: Path, k: nat)
    requires root.Obj? && ItemEventLeaf(root.fields, p) && 1 <= k <= GateDepth(p) && k <= |p|
    ensures !HiddenAt(root, p, k)
  {
    MessageGate(root, Lookup(root.fields, "item").value.fields, p);
  }

  lemma InputLeafGate(root: Json, p: Path, k: nat)
    requires root.Obj? && InputLeaf(root.fields, p) && 1 <= k <= GateDepth(p) && k <= |p|
    ensures !HiddenAt(root, p, k)
  {
    InputCases(root.fields, p);
    InputGate(root, p, k);
  }

  lemma FrameGateHolds(protocol: string, root: Json, p: Path, k: nat)
    requires root.Obj? && AllowedFrame(protocol, root.fields, p)
    requires 1 <= k <= GateDepth(p) && k <= |p| && HiddenAt(root, p, k)
    ensures protocol == "gemini" && UngatedItem(root, p)
  {
    if Named(root.fields, "type") == "response.create" {
      InputLeafGate(root, p, k);
      assert false;
    } else if Named(root.fields, "type") == "conversation.item.create" {
      ItemEventGate(root, p, k);
      assert false;
    } else {
      GateHolds(protocol, root, p, k);
    }
  }

  /** The same for the texts of one WebSocket frame. */
  lemma FrameHiddenExactlyWhen(protocol: string, root: Json, c: Capture)
    requires root.Obj? && c in WebSocketFrame(protocol, root).captures
    ensures UnderHiddenRole(root, c.path) <==> Escapes(protocol, root, c.path)
  {
    FrameCapturedIffAllowed(protocol, root, c);
    var p := c.path;
    forall k: nat | 1 <= k <= GateDepth(p) && k <= |p| && HiddenAt(root, p, k)
      ensures protocol == "gemini" && UngatedItem(root, p)
    {
      FrameGateHolds(protocol, root, p, k);
    }
    Split(root, p, protocol == "gemini" && UngatedItem(root, p));
  }

  /** A text worth keeping stands at an allowed position whose hidden role escapes the gates. */
  ghost predicate EscapingText(protocol: string, root: Json, p: Path, t: string)
    requires root.Obj?
  {
    Allowed(protocol, root.fields, p) && Holds(root, p, t) && Escapes(protocol, root, p)
  }

  /** The same for whole requests: something hidden is captured if and only if such a text exists. */
  lemma SomethingHiddenExactlyWhen(protocol: string, root: Json)
    requires root.Obj?
    ensures (exists c :: c in ByProtocol(protocol, root, 0).captures && UnderHiddenRole(root, c.path))
       <==> (exists p, t :: EscapingText(protocol, root, p, t))
  {
    forall c: Capture
      ensures (c in ByProtocol(protocol, root, 0).captures && UnderHiddenRole(root, c.path))
         <==> EscapingText(protocol, root, c.path, c.text)
    {
      CapturedIffAllowed(protocol, root, c);
      if c in ByProtocol(protocol, root, 0).captures { HiddenExactlyWhen(protocol, root, c); }
    }
    if p, t :| EscapingText(protocol, root, p, t) {
      assert EscapingText(protocol, root, Capture(p, t).path, Capture(p, t).text);
    }
  }

  ghost predicate EscapingFrameText(protocol: string, root: Json, p: Path, t: string)
    requires root.Obj?
  {
    AllowedFrame(protocol, root.fields, p) && Holds(root, p, t) && Escapes(protocol, root, p)
  }

  lemma SomethingHiddenInFrameExactlyWhen(protocol: string, root: Json)
    requires root.Obj?
    ensures (exists c :: c in WebSocketFrame(protocol, root).captures && UnderHiddenRole(root, c.path))
       <==> (exists p, t :: EscapingFrameText(protocol, root, p, t))
  {
    forall c: Capture
      ensures (c in WebSocketFrame(protocol, root).captures && UnderHiddenRole(root, c.path))
         <==> EscapingFrameText(protocol, root, c.path, c.text)
    {
      FrameCapturedIffAllowed(protocol, root, c);
      if c in WebSocketFrame(protocol, root).captures { FrameHiddenExactlyWhen(protocol, root, c); }
    }
    if p, t :| EscapingFrameText(protocol, root, p, t) {
      assert EscapingFrameText(protocol, root, Capture(p, t).path, Capture(p, t).text);
    }
  }

  // ---------------------------------------------------- a condition to check

  /** No object at or below `v` carries a hidden role. */
  predicate Roleless(v: Json) {
    match v
    case Arr(items) => forall i :: 0 <= i < |items| ==> Roleless(items[i])
    case Obj(fields) => !CarriesHiddenRole(v) && forall i :: 0 <= i < |fields| ==> Roleless(fields[i].value)
    case _ => true
  }

  predicate RolelessFields(fields: seq<Field>) {
    forall i :: 0 <= i < |fields| ==> Roleless(fields[i].value)
  }

  /** An item of an array, or a message, in which only the item itself may carry a role. */
  predicate RoleOnTop(v: Json) {
    match v
    case Obj(fields) => RolelessFields(fields)
    case _ => Roleless(v)
  }

  /**
   Roles stand where the protocols put them: on the items of top-level arrays and on top-level objects, and
   not "assistant" or "tool" in `contents`.
   */
  predicate RolesInPlace(fields: seq<Field>) {
    && !CarriesHiddenRole(Obj(fields))
    && (forall i :: 0 <= i < |fields| ==>
          match fields[i].value
          case Arr(items) => forall j :: 0 <= j < |items| ==> RoleOnTop(items[j])
          case v => RoleOnTop(v))
    && (var contents := ArrayAt(fields, "contents");
        contents.Some? ==> forall j :: 0 <= j < |contents.value| ==>
          contents.value[j].Obj? ==> RoleName(contents.value[j].fields) !in ["assistant", "tool"])
  }

  /** Following a path from a roleless value leads to a roleless value. */
  lemma {:induction false} RolelessBelow(v: Json, p: Path)
    requires Roleless(v) && Follow(v, p).Some?
    ensures Roleless(Follow(v, p).value)
    decreases |p|
  {
    if p != [] {
      if p[0].Key? {
        LookupRoleless(v.fields, p[0].name);
        RolelessBelow(Lookup(v.fields, p[0].name).value, p[1..]);
      } else {
        RolelessBelow(v.items[p[0].index], p[1..]);
      }
    }
  }

  lemma LookupRoleless(fields: seq<Field>, key: string)
    requires RolelessFields(fields) && Lookup(fields, key).Some?
    ensures Roleless(Lookup(fields, key).value)
  {
    var i :| 0 <= i < |fields| && fields[i] == Field(key, Lookup(fields, key).value);
  }

  lemma BelowTop(v: Json, p: Path)
    requires RoleOnTop(v) && p != [] && Follow(v, p).Some?
    ensures !CarriesHiddenRole(Follow(v, p).value)
  {
    if v.Obj? {
      LookupRoleless(v.fields, p[0].name);
      RolelessBelow(Lookup(v.fields, p[0].name).value, p[1..]);
    } else {
      RolelessBelow(v, p);
    }
  }

  lemma {:induction false} FollowOn(v: Json, p: Path, q: Path)
    requires Follow(v, p).Some?
    ensures Follow(v, p + q) == Follow(Follow(v, p).value, q)
    decreases |p|
  {
    if p == [] {
      assert p + q == q;
    } else {
      assert (p + q)[0] == p[0] && (p + q)[1..] == p[1..] + q;
      var next := match p[0]
        case Key(name) => Lookup(v.fields, name)
        case At(index) => Some(v.items[index]);
      FollowOn(next.value, p[1..], q);
    }
  }

  lemma TopField(fields: seq<Field>, key: string)
    requires RolesInPlace(fields) && Lookup(fields, key).Some?
    ensures match Lookup(fields, key).value
            case Arr(items) => forall j :: 0 <= j < |items| ==> RoleOnTop(items[j])
            case v => RoleOnTop(v)
  {
    var i :| 0 <= i < |fields| && fields[i] == Field(key, Lookup(fields, key).value);
  }

  /** The value at the gate of a path allows roles on top only. */
  lemma GateOnTop(root: Json, p: Path)
    requires root.Obj? && RolesInPlace(root.fields) && p != [] && p[0].Key?
    requires GateDepth(p) <= |p| && Follow(root, p[..GateDepth(p)]).Some?
    requires GateDepth(p) == 1 ==> !Follow(root, p[..1]).value.Arr?
    ensures RoleOnTop(Follow(root, p[..GateDepth(p)]).value)
  {
    FirstStep(root, p);
    var d := GateDepth(p);
    if d == 2 {
      assert p[..2] == p[..1] + [p[1]];
      FollowPrefix(root, p[..1], [p[1]]);
      FollowOn(root, p[..1], [p[1]]);
      OneStep(Follow(root, p[..1]).value, p[1]);
    }
    TopField(root.fields, p[0].name);
  }

  lemma OneStep(v: Json, s: Step)
    requires s.At? && Follow(v, [s]).Some?
    ensures v.Arr? && s.index < |v.items| && Follow(v, [s]) == Some(v.items[s.index])
  {
    assert [s][1..] == [];
  }

  lemma {:induction false} FollowPrefix(v: Json, p: Path, q: Path)
    requires Follow(v, p + q).Some?
    ensures Follow(v, p).Some?
    decreases |p|
  {
    if p != [] {
      assert (p + q)[0] == p[0] && (p + q)[1..] == p[1..] + q;
      var next := match p[0]
        case Key(name) => Lookup(v.fields, name)
        case At(index) => Some(v.items[index]);
      FollowPrefix(next.value, p[1..], q);
    }
  }

  /** In a request with its roles in place no hidden role stands below the gate of a path to a text. */
  lemma NoRoleBelow(root: Json, p: Path)
    requires root.Obj? && RolesInPlace(root.fields) && p != [] && p[0].Key? && Follow(root, p).Some?
    requires GateDepth(p) == 1 ==> !(Lookup(root.fields, p[0].name).Some? && Lookup(root.fields, p[0].name).value.Arr?)
    ensures !RoleBelowItem(root, p)
  {
    var d := GateDepth(p);
    FirstStep(root, p);
    forall k: nat | d < k <= |p|
      ensures !HiddenAt(root, p, k)
    {
      if Follow(root, p[..k]).Some? {
        assert p[..k] == p[..d] + p[d..k];
        FollowPrefix(root, p[..d], p[d..k]);
        FollowOn(root, p[..d], p[d..k]);
        GateOnTop(root, p);
        BelowTop(Follow(root, p[..d]).value, p[d..k]);
      }
    }
  }

  predicate GateKnown(fields: seq<Field>, p: Path) {
    && p != [] && p[0].Key?
    && (GateDepth(p) == 1 ==> ArrayAt(fields, p[0].name).None?)
    && (p[0] == Key("contents") ==> ArrayLeaf(ContentsItems, fields, "contents", p))
  }

  lemma ArrayGateKnown(kind: ItemKind, fields: seq<Field>, key: string, p: Path)
    requires ArrayLeaf(kind, fields, key, p) && (key == "contents" ==> kind.ContentsItems?)
    ensures GateKnown(fields, p)
  {
    assert p[1..][0] == p[1];
  }

  lemma NotContents(name: string)
    requires name in PROMPT_NAMES || name == "item"
    ensures name != "contents"
  {
    assert |"contents"| == 8 && |"prompt"| == 6 && |"query"| == 5 && |"input"| == 5 && |"text"| == 4
        && |"description"| == 11 && |"item"| == 4;
  }

  lemma PromptGateKnown(fields: seq<Field>, p: Path)
    requires PromptFieldLeaf(fields, p)
    ensures GateKnown(fields, p)
  {
    NotContents(p[0].name);
    assert |p[1..]| == |p| - 1 && (|p| > 1 ==> p[1..][0] == p[1]);
  }

  lemma InputGateKnown(fields: seq<Field>, p: Path)
    requires InputLeaf(fields, p)
    ensures GateKnown(fields, p)
  {
    InputCases(fields, p);
    NotContents("input");
    if Lookup(fields, "input").value.Arr? { ArrayGateKnown(InputItems, fields, "input", p); }
  }

  lemma AllowedGate(protocol: string, fields: seq<Field>, p: Path)
    requires Allowed(protocol, fields, p)
    ensures GateKnown(fields, p)
  {
    if ArrayLeaf(MessageItems, fields, "messages", p) {
      assert "messages"[0] != "contents"[0];
      ArrayGateKnown(MessageItems, fields, "messages", p);
    } else if ArrayLeaf(ContentsItems, fields, "contents", p) {
      ArrayGateKnown(ContentsItems, fields, "contents", p);
    } else if InputLeaf(fields, p) {
      InputGateKnown(fields, p);
    } else {
      PromptGateKnown(fields, p);
    }
  }

  lemma InPlace(root: Json, p: Path)
    requires root.Obj? && RolesInPlace(root.fields) && GateKnown(root.fields, p) && Follow(root, p).Some?
    ensures !CarriesHiddenRole(root) && !UngatedItem(root, p) && !RoleBelowItem(root, p)
  {
    NoRoleBelow(root, p);
    if p[0] == Key("contents") {
      assert p[1..][0] == p[1];
      SecondStep(root, p);
    }
  }

  /**
   For a caller to check: if roles stand only where the protocols put them, nothing that is captured lies under
   a hidden role.
   */
  lemma NothingHiddenIsCaptured(protocol: string, root: Json, c: Capture)
    requires root.Obj? && RolesInPlace(root.fields) && c in ByProtocol(protocol, root, 0).captures
    ensures !UnderHiddenRole(root, c.path)
  {
    HiddenExactlyWhen(protocol, root, c);
    CapturedIffAllowed(protocol, root, c);
    AllowedGate(protocol, root.fields, c.path);
    InPlace(root, c.path);
  }

  lemma NothingHiddenIsCapturedFromFrames(protocol: string, root: Json, c: Capture)
    requires root.Obj? && RolesInPlace(root.fields) && c in WebSocketFrame(protocol, root).captures
    ensures !UnderHiddenRole(root, c.path)
  {
    FrameHiddenExactlyWhen(protocol, root, c);
    FrameCapturedIffAllowed(protocol, root, c);
    FrameGate(protocol, root.fields, c.path);
    InPlace(root, c.path);
  }

  lemma FrameGate(protocol: string, fields: seq<Field>, p: Path)
    requires AllowedFrame(protocol, fields, p)
    ensures GateKnown(fields, p)
  {
    if Named(fields, "type") == "response.create" {
      InputGateKnown(fields, p);
    } else if Named(fields, "type") == "conversation.item.create" {
      NotContents("item");
    } else {
      AllowedGate(protocol, fields, p);
    }
  }
}
