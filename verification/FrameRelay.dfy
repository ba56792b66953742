/**
 The WebSocket relay (websocket.go:75-144): two copiers between client and upstream, the capture of
 client text frames, the error channel of the handler and its single close.
 */
module FrameRelay {
  import opened Common
  import opened Model
  import opened JsonTree
  import opened Protocols
  import opened Extractor
  import Noninterference
  import Statuses
  import AllowList

  datatype Frame = Frame(kind: int, payload: string)

  const TEXT_MESSAGE := 1

  /** What a connection's capture needs besides the frames. */
  datatype Connection = Connection(
    path: string,
    requestId: string,
    clientRequestId: string,
    identity: Identity,
    maxPromptBytes: int,
    captureEmptyPrompts: bool,
    hash: string -> string,
    decode: string -> Option<Json>)

  /** A fresh record id and the time at which a frame is captured. */
  datatype Stamp = Stamp(id: string, at: int)

  /** The extraction of one text frame, before the model name is completed. */
  function Extract(c: Connection, f: Frame): (x: Extracted)
    ensures Finished(x, FrameOutcome(ProtocolForPath(c.path), c.decode(f.payload)), c.maxPromptBytes, c.hash)
  {
    var root := c.decode(f.payload);
    Completed(
      FrameOutcome(ProtocolForPath(c.path), root),
      if root.Some? && root.value.Obj? && EventType(root.value.fields) in EVENTS
      then "openai-responses-ws" else ProtocolForPath(c.path),
      if root.Some? then ModelFromJson(root.value) else "",
      c.maxPromptBytes, c.hash)
  }

  /** The frames worth a record: text frames whose extraction is not "unsupported". */
  predicate Recorded(c: Connection, f: Frame) {
    f.kind == TEXT_MESSAGE && Extract(c, f).status != "unsupported"
  }

  function RecordOf(c: Connection, f: Frame, s: Stamp, fallbackModel: string): CaptureRecord {
    var x := Extract(c, f);
    NewRecord(s.id, s.at, c.requestId, c.clientRequestId, c.identity, c.path,
              x.(model := if x.model == "" then fallbackModel else x.model))
  }

  /** The records offered to the queue for the first `n` frames. */
  function Offered(c: Connection, frames: seq<Frame>, stamps: seq<Stamp>, fallbackModel: string, n: nat)
    : seq<CaptureRecord>
    requires n <= |frames| && n <= |stamps|
    decreases n, 1
  {
    if n == 0 then [] else OfferedNext(c, frames, stamps, fallbackModel, n)
  }

  function OfferedNext(c: Connection, frames: seq<Frame>, stamps: seq<Stamp>, fallbackModel: string, n: nat)
    : seq<CaptureRecord>
    requires 0 < n <= |frames| && n <= |stamps|
    decreases n, 0
  {
    var f, s := frames[n - 1], stamps[n - 1];
    Offered(c, frames, stamps, fallbackModel, n - 1)
    + (if Recorded(c, f) then [RecordOf(c, f, s, fallbackModel)] else [])
  }

  /** The capture of one frame inside the copier's loop: two tests that amount to one. */
  method CaptureFrame(c: Connection, f: Frame, stamp: Stamp, fallbackModel: string)
    returns (record: Option<CaptureRecord>)
    ensures record == if Recorded(c, f) then Some(RecordOf(c, f, stamp, fallbackModel)) else None
  {
    record := None;
    if f.kind == TEXT_MESSAGE {
      var x := ExtractWebSocketMessage(c.path, c.decode(f.payload), c.maxPromptBytes, c.hash);
      assert x == Extract(c, f);
      if x.model == "" {
        x := x.(model := fallbackModel);
      }
      Noninterference.FrameStatusMeaning(
        ProtocolForPath(c.path), c.decode(f.payload), c.maxPromptBytes, c.hash, Extract(c, f));
      if x.status != "unsupported" || |x.messages| > 0 {
        if x.status != "unsupported" || c.captureEmptyPrompts {
          record := Some(NewRecord(stamp.id, stamp.at, c.requestId, c.clientRequestId, c.identity, c.path, x));
        }
      }
    }
  }

  /** Offers the record of frame `k`, if it is worth one, after those of the frames before. */
  method OfferFrame(c: Connection, frames: seq<Frame>, stamps: seq<Stamp>, fallbackModel: string, k: nat,
                    before: seq<CaptureRecord>)
    returns (offered: seq<CaptureRecord>)
    requires k < |frames| && k < |stamps| && before == Offered(c, frames, stamps, fallbackModel, k)
    ensures offered == Offered(c, frames, stamps, fallbackModel, k + 1)
  {
    var record := CaptureFrame(c, frames[k], stamps[k], fallbackModel);
    offered := if record.Some? then before + [record.value] else before;
    assert offered == OfferedNext(c, frames, stamps, fallbackModel, k + 1);
  }

  /**
   copyClientFrames.  The client delivers `frames` and then a read error; upstream accepts `accepted`
   writes and then fails.  What upstream received is an unmodified prefix of what the client sent, and
   the records offered are exactly those of the recorded frames that were read, in order.
   */
  method CopyClientFrames(c: Connection, frames: seq<Frame>, accepted: nat, stamps: seq<Stamp>, fallbackModel: string)
    returns (written: seq<Frame>, offered: seq<CaptureRecord>, read: nat)
    requires |stamps| >= |frames|
    ensures read == (if accepted < |frames| then accepted + 1 else |frames|)
    ensures written == frames[..Min(accepted, |frames|)]
    ensures offered == Offered(c, frames, stamps, fallbackModel, read)
  {
    written, offered, read := [], [], 0;
    while read < |frames|
      invariant read <= |frames| && read <= accepted
      invariant written == frames[..read]
      invariant offered == Offered(c, frames, stamps, fallbackModel, read)
    {
      var f := frames[read];
      offered := OfferFrame(c, frames, stamps, fallbackModel, read, offered);
      PrefixGrows(frames, read);
      read := read + 1;
      if |written| == accepted {
        return;
      }
      written := written + [f];
    }
  }

  lemma PrefixGrows(frames: seq<Frame>, k: nat)
    requires k < |frames|
    ensures frames[..k + 1] == frames[..k] + [frames[k]] && |frames[..k]| == k
  {
  }

  /** copyServerFrames: the same relay, without capture. */
  method CopyServerFrames(frames: seq<Frame>, accepted: nat) returns (written: seq<Frame>)
    ensures written == frames[..Min(accepted, |frames|)]
  {
    written := [];
    for i := 0 to |frames|
      invariant written == frames[..i] && i <= accepted
    {
      if i == accepted {
        return;
      }
      written := written + [frames[i]];
    }
  }

  /** A frame is worth a record exactly if it is a text frame and its status, said in full, is not "unsupported". */
  lemma RecordedExactly(c: Connection, f: Frame)
    ensures var root, taken := c.decode(f.payload), Extract(c, f).messages != [];
      Recorded(c, f) <==> f.kind == 1 && Statuses.FrameStatus(ProtocolForPath(c.path), root, taken) != "unsupported"
  {
    Statuses.FrameStatusExactly(
      ProtocolForPath(c.path), c.decode(f.payload), c.maxPromptBytes, c.hash, Extract(c, f));
  }

  /** Every field of the record of a frame. */
  lemma RecordFields(c: Connection, f: Frame, s: Stamp, fallbackModel: string)
    ensures var x, named := RecordOf(c, f, s, fallbackModel), Statuses.NamedModel(c.decode(f.payload));
      && x.id == s.id && x.receivedAt == s.at && x.requestId == c.requestId
      && x.clientRequestId == c.clientRequestId && x.identity == c.identity && x.endpoint == c.path
      && x.model == (if named != "" then named else fallbackModel)
    ensures var x, root := RecordOf(c, f, s, fallbackModel), c.decode(f.payload);
      x.protocol ==
        if root.Some? && root.value.Obj? &&
           AllowList.Named(root.value.fields, "type") in ["response.create", "conversation.item.create"]
        then "openai-responses-ws" else ProtocolForPath(c.path)
    ensures var x, root := RecordOf(c, f, s, fallbackModel), c.decode(f.payload);
      var o, full := FrameOutcome(ProtocolForPath(c.path), root), FullPrompt(x.messages);
      && x.messages == Render(0, o.captures) && x.messageCount == |x.messages|
      && x.promptText == Utf8.Truncate(full, c.maxPromptBytes) && x.promptHash == c.hash(full)
      && (x.truncated <==> 0 < c.maxPromptBytes < |full|) && x.excludedRoles == Tally(map[], o.hidden)
      && x.parseStatus == Statuses.FrameStatus(ProtocolForPath(c.path), root, x.messages != [])
  {
    var root := c.decode(f.payload);
    Statuses.FrameStatusExactly(ProtocolForPath(c.path), root, c.maxPromptBytes, c.hash, Extract(c, f));
    if root.Some? { Statuses.ModelIsNamed(root.value); }
    if root.Some? && root.value.Obj? { AllowList.EventsAgree(root.value.fields); }
  }

  /** Every offered record counts its messages right, and none of them is marked "unsupported". */
  lemma {:induction false} OfferedAreSound(c: Connection, frames: seq<Frame>, stamps: seq<Stamp>,
                                           fallbackModel: string, n: nat)
    requires n <= |frames| && n <= |stamps|
    ensures forall i :: 0 <= i < |Offered(c, frames, stamps, fallbackModel, n)| ==>
      var r := Offered(c, frames, stamps, fallbackModel, n)[i];
      r.messageCount == |r.messages| && r.parseStatus in ["parsed", "empty", "partial"]
  {
    if n > 0 {
      OfferedAreSound(c, frames, stamps, fallbackModel, n - 1);
      assert Offered(c, frames, stamps, fallbackModel, n) == OfferedNext(c, frames, stamps, fallbackModel, n);
      var f := frames[n - 1];
      Noninterference.FrameStatusMeaning(
        ProtocolForPath(c.path), c.decode(f.payload), c.maxPromptBytes, c.hash, Extract(c, f));
    }
  }

  /**
   Two frames that agree on the prompt keys, the event type and the item, up to what hidden items
   contain, are recorded alike; only the model name and the role counts of the records can differ.
   */
  lemma HiddenFrameContentIsNotRecorded(c: Connection, f: Frame, g: Frame, a: seq<Field>, b: seq<Field>,
                                        s: Stamp, fallbackModel: string)
    requires f.kind == g.kind && c.decode(f.payload) == Some(Obj(a)) && c.decode(g.payload) == Some(Obj(b))
    requires Noninterference.SamePrompt(a, b) && Lookup(a, "type") == Lookup(b, "type")
    requires Noninterference.SameMessage(Lookup(a, "item"), Lookup(b, "item"))
    ensures Recorded(c, f) <==> Recorded(c, g)
    ensures var x, y := RecordOf(c, f, s, fallbackModel), RecordOf(c, g, s, fallbackModel);
      Alike(x, y)
  {
    var protocol := ProtocolForPath(c.path);
    Noninterference.HiddenFrameContentIsInvisible(protocol, a, b);
    Noninterference.FinishedSame(WebSocketFrame(protocol, Obj(a)), WebSocketFrame(protocol, Obj(b)),
                                 c.maxPromptBytes, c.hash, Extract(c, f), Extract(c, g));
    assert EventType(a) == EventType(b);
  }

  // ------------------------------------------------- both copiers and the handler

  /** A copier reads frame `next`, writes it, and ends by sending its error to the handler. */
  datatype Copier = Reading(next: nat) | Writing(next: nat) | Reporting | Gone

  /** The handler waits for an error, then closes the client's connection, then the upstream one. */
  datatype Handler = Waiting | Closing | HalfClosed | Done

  /** `fromClient` are the client's frames that were read, and so looked at for capture. */
  datatype Relay = Relay(up: Copier, down: Copier, fromClient: seq<Frame>, toUpstream: seq<Frame>, toClient: seq<Frame>,
                         errors: nat, handler: Handler, clientCloses: nat, upstreamCloses: nat)

  const ERROR_CAPACITY := 2

  datatype Side = Up | Down

  datatype Step =
    | ReadFrame(side: Side)
    | WriteFrame(side: Side)
    | Fail(side: Side)
    | Report(side: Side)
    | Collect
    | CloseClient
    | CloseUpstream

  function CopierOf(r: Relay, side: Side): Copier { if side.Up? then r.up else r.down }
  function Sent(fromClient: seq<Frame>, fromUpstream: seq<Frame>, side: Side): seq<Frame> {
    if side.Up? then fromClient else fromUpstream
  }

  function Set(r: Relay, side: Side, c: Copier): Relay {
    if side.Up? then r.(up := c) else r.(down := c)
  }

  function Look(r: Relay, side: Side, f: Frame): Relay {
    if side.Up? then r.(fromClient := r.fromClient + [f]) else r
  }

  function Deliver(r: Relay, side: Side, f: Frame): Relay {
    if side.Up? then r.(toUpstream := r.toUpstream + [f]) else r.(toClient := r.toClient + [f])
  }

  /** The connection that a copier writes to has been closed. */
  predicate Shut(r: Relay, side: Side) {
    if side.Up? then r.upstreamCloses > 0 else r.clientCloses > 0
  }

  /**
   `a` and `b` are what client and upstream send.  A frame that has already arrived can be read although the
   connection has been closed since; nothing can be written to a closed connection.
   */
  predicate Enabled(r: Relay, a: seq<Frame>, b: seq<Frame>, step: Step) {
    match step
    case ReadFrame(side) =>
      var c := CopierOf(r, side); c.Reading? && c.next < |Sent(a, b, side)|
    case WriteFrame(side) =>
      var c := CopierOf(r, side); !Shut(r, side) && c.Writing? && c.next < |Sent(a, b, side)|
    case Fail(side) => CopierOf(r, side).Reading? || CopierOf(r, side).Writing?
    case Report(side) => CopierOf(r, side).Reporting? && r.errors < ERROR_CAPACITY
    case Collect => r.handler.Waiting? && r.errors > 0
    case CloseClient => r.handler.Closing?
    case CloseUpstream => r.handler.HalfClosed?
  }

  function Next(r: Relay, a: seq<Frame>, b: seq<Frame>, step: Step): Relay
    requires Enabled(r, a, b, step)
  {
    match step
    case ReadFrame(side) =>
      var k := CopierOf(r, side).next;
      Set(Look(r, side, Sent(a, b, side)[k]), side, Writing(k))
    case WriteFrame(side) =>
      var k := CopierOf(r, side).next;
      Set(Deliver(r, side, Sent(a, b, side)[k]), side, Reading(k + 1))
    case Fail(side) => Set(r, side, Reporting)
    case Report(side) => Set(r, side, Gone).(errors := r.errors + 1)
    case Collect => r.(errors := r.errors - 1, handler := Closing)
    case CloseClient => r.(clientCloses := r.clientCloses + 1, handler := HalfClosed)
    case CloseUpstream => r.(upstreamCloses := r.upstreamCloses + 1, handler := Done)
  }

  const OPENED := Relay(Reading(0), Reading(0), [], [], [], 0, Waiting, 0, 0)

  predicate Run(r: Relay, a: seq<Frame>, b: seq<Frame>, steps: seq<Step>)
    decreases |steps|
  {
    steps == [] || (Enabled(r, a, b, steps[0]) && Run(Next(r, a, b, steps[0]), a, b, steps[1..]))
  }

  function After(r: Relay, a: seq<Frame>, b: seq<Frame>, steps: seq<Step>): Relay
    requires Run(r, a, b, steps)
    decreases |steps|
  {
    if steps == [] then r else After(Next(r, a, b, steps[0]), a, b, steps[1..])
  }

  predicate InStep(c: Copier, sent: seq<Frame>, got: seq<Frame>) {
    got <= sent && ((c.Reading? || c.Writing?) ==> c.next == |got|) && (c.Writing? ==> c.next < |sent|)
  }

  /** At most the frame in hand has been looked at and not been written. */
  predicate Looked(r: Relay, a: seq<Frame>) {
    && r.toUpstream <= r.fromClient <= a && |r.fromClient| <= |r.toUpstream| + 1
    && (r.up.Reading? ==> r.fromClient == r.toUpstream)
    && (r.up.Writing? ==> |r.fromClient| == |r.toUpstream| + 1)
  }

  function Reported(c: Copier): nat { if c.Gone? then 1 else 0 }

  /** Every error reported is in the channel or was collected, and closing follows its fixed order. */
  predicate Ordered(r: Relay) {
    && r.errors + (if r.handler.Waiting? then 0 else 1) == Reported(r.up) + Reported(r.down)
    && r.clientCloses == (if r.handler.HalfClosed? || r.handler.Done? then 1 else 0)
    && r.upstreamCloses == (if r.handler.Done? then 1 else 0)
  }

  predicate Inv(r: Relay, a: seq<Frame>, b: seq<Frame>) {
    InStep(r.up, a, r.toUpstream) && InStep(r.down, b, r.toClient) && Looked(r, a) && Ordered(r)
  }

  lemma UpStep(r: Relay, a: seq<Frame>, b: seq<Frame>, step: Step)
    requires InStep(r.up, a, r.toUpstream) && Looked(r, a) && Enabled(r, a, b, step)
    ensures var t := Next(r, a, b, step); InStep(t.up, a, t.toUpstream) && Looked(t, a)
  {
  }

  lemma DownStep(r: Relay, a: seq<Frame>, b: seq<Frame>, step: Step)
    requires InStep(r.down, b, r.toClient) && Enabled(r, a, b, step)
    ensures var t := Next(r, a, b, step); InStep(t.down, b, t.toClient)
  {
  }

  lemma OrderedStep(r: Relay, a: seq<Frame>, b: seq<Frame>, step: Step)
    requires Ordered(r) && Enabled(r, a, b, step)
    ensures Ordered(Next(r, a, b, step))
  {
  }

  lemma InvStep(r: Relay, a: seq<Frame>, b: seq<Frame>, step: Step)
    requires Inv(r, a, b) && Enabled(r, a, b, step)
    ensures Inv(Next(r, a, b, step), a, b)
  {
    UpStep(r, a, b, step);
    DownStep(r, a, b, step);
    OrderedStep(r, a, b, step);
  }

  lemma {:induction false} InvRun(r: Relay, a: seq<Frame>, b: seq<Frame>, steps: seq<Step>)
    requires Inv(r, a, b) && Run(r, a, b, steps)
    ensures Inv(After(r, a, b, steps), a, b)
    decreases |steps|
  {
    if steps != [] {
      InvStep(r, a, b, steps[0]);
      InvRun(Next(r, a, b, steps[0]), a, b, steps[1..]);
    }
  }

  /** What the invariant says about a relay, and that its error channel has room. */
  lemma InvMeans(r: Relay, a: seq<Frame>, b: seq<Frame>)
    requires Inv(r, a, b)
    ensures r.toUpstream <= r.fromClient <= a && |r.fromClient| <= |r.toUpstream| + 1 && r.toClient <= b
    ensures r.clientCloses <= 1 && r.upstreamCloses <= 1
    ensures forall side :: CopierOf(r, side).Reporting? ==> Enabled(r, a, b, Report(side))
  {
  }

  /**
   In every interleaving of the two copiers and the handler each peer has received an unmodified prefix
   of what the other sent, at most one frame was looked at for capture and not passed on, the handler closes
   each connection at most once, and a copier that has ended is never blocked on reporting it.
   */
  lemma RelayIsTransparent(a: seq<Frame>, b: seq<Frame>, steps: seq<Step>, r: Relay)
    requires Run(OPENED, a, b, steps) && r == After(OPENED, a, b, steps)
    ensures r.toUpstream <= r.fromClient <= a && |r.fromClient| <= |r.toUpstream| + 1 && r.toClient <= b
    ensures r.clientCloses <= 1 && r.upstreamCloses <= 1
    ensures forall side :: CopierOf(r, side).Reporting? ==> Enabled(r, a, b, Report(side))
  {
    InvRun(OPENED, a, b, steps);
    InvMeans(r, a, b);
  }

  /** How many steps a copier has left once nothing can be written: read what arrived, fail, report. */
  function CopierRank(c: Copier): nat {
    match c case Gone => 0 case Reporting => 1 case Writing(_) => 2 case Reading(_) => 3
  }

  lemma ClosedStep(r: Relay, a: seq<Frame>, b: seq<Frame>, step: Step)
    requires Inv(r, a, b) && r.handler.Done? && Enabled(r, a, b, step)
    ensures var t := Next(r, a, b, step);
      && t.handler.Done? && t.toUpstream == r.toUpstream && t.toClient == r.toClient
      && CopierRank(t.up) + CopierRank(t.down) < CopierRank(r.up) + CopierRank(r.down)
  {
  }

  /**
   No copier outlives the connections: once both are closed, every run passes nothing more on and has at most
   six steps left, and until both copiers have ended one of them can take a step.
   */
  lemma {:induction false} ClosedRelayEnds(r: Relay, a: seq<Frame>, b: seq<Frame>, steps: seq<Step>)
    requires Inv(r, a, b) && r.handler.Done? && Run(r, a, b, steps)
    ensures var t := After(r, a, b, steps);
      && t.toUpstream == r.toUpstream && t.toClient == r.toClient
      && |steps| + CopierRank(t.up) + CopierRank(t.down) <= CopierRank(r.up) + CopierRank(r.down) <= 6
      && ((t.up.Gone? && t.down.Gone?) || exists step :: Enabled(t, a, b, step))
    decreases |steps|
  {
    if steps != [] {
      ClosedStep(r, a, b, steps[0]);
      InvStep(r, a, b, steps[0]);
      ClosedRelayEnds(Next(r, a, b, steps[0]), a, b, steps[1..]);
    } else if !r.up.Gone? {
      assert Enabled(r, a, b, if r.up.Reporting? then Report(Up) else Fail(Up));
    } else if !r.down.Gone? {
      assert Enabled(r, a, b, if r.down.Reporting? then Report(Down) else Fail(Down));
    }
  }
}
