/**
 One captured HTTP request from end to end (proxy.go:72-125): its body is read without disturbing it,
 decoded, extracted, and offered to the queue as a record.
 */
module HttpCapture {
  import opened Common
  import opened Text
  import opened JsonTree
  import opened Protocols
  import opened Extractor
  import opened Model
  import opened BodyCapture
  import opened Noninterference
  import opened AllowList
  import opened Statuses
  import Utf8

  /** `wanted` is the verdict of shouldCapture; the id and the time are those its record would get. */
  datatype Request = Request(
    wanted: bool,
    path: string,
    encoding: string,
    contentType: string,
    body: Body,
    requestId: string,
    clientRequestId: string,
    identity: Identity,
    id: string,
    receivedAt: int)

  /** `decode` is the library decoding of a body that is not empty. */
  datatype Settings = Settings(
    maxCaptureBytes: int,
    maxPromptBytes: int,
    hash: string -> string,
    decode: (string, string) -> Payload,
    modelFromPath: string -> string)

  function PayloadOf(s: Settings, contentType: string, data: string): Payload {
    if data == "" then NoBody else s.decode(contentType, data)
  }

  predicate Open(s: Settings, r: Request) {
    r.wanted && Eligible(r.body, r.encoding, r.contentType, s.maxCaptureBytes)
  }

  /** The body is complete and small enough to be looked at. */
  predicate Seen(s: Settings, r: Request) {
    Open(s, r) && |Readable(r.body).0| <= s.maxCaptureBytes && Readable(r.body).1.Eof?
  }

  function Extract(s: Settings, r: Request, data: string): (x: Extracted)
    ensures Finished(
      x, RequestOutcome(ProtocolForPath(r.path), PayloadOf(s, r.contentType, data)), s.maxPromptBytes, s.hash)
  {
    var payload := PayloadOf(s, r.contentType, data);
    Completed(RequestOutcome(ProtocolForPath(r.path), payload), ProtocolForPath(r.path),
              if payload.JsonBody? && payload.root.Some? then ModelFromJson(payload.root.value) else "",
              s.maxPromptBytes, s.hash)
  }

  /** The record for a body, unless nothing in it was understood. */
  function RecordFor(s: Settings, r: Request, data: string): Option<CaptureRecord> {
    var x := Extract(s, r, data);
    if x.status == "unsupported" && x.messages == [] then None
    else Some(NewRecord(r.id, r.receivedAt, r.requestId, r.clientRequestId, r.identity, r.path,
                        x.(model := if x.model == "" then s.modelFromPath(r.path) else x.model)))
  }

  function Offered(s: Settings, r: Request): Option<CaptureRecord> {
    if Seen(s, r) then RecordFor(s, r, Readable(r.body).0) else None
  }

  method CaptureHttp(s: Settings, r: Request, data: string) returns (offered: Option<CaptureRecord>)
    ensures offered == RecordFor(s, r, data)
  {
    var x := ExtractRequest(r.path, PayloadOf(s, r.contentType, data), s.maxPromptBytes, s.hash);
    assert x == Extract(s, r, data);
    if x.model == "" {
      x := x.(model := s.modelFromPath(r.path));
    }
    if x.status == "unsupported" && |x.messages| == 0 {
      return None;
    }
    return Some(NewRecord(r.id, r.receivedAt, r.requestId, r.clientRequestId, r.identity, r.path, x));
  }

  /**
   The capture branch of ServeHTTP: what is forwarded reads as what was received, whatever is captured,
   except when the limit wraps around; a record is offered exactly for a body seen in full, and at the limit
   that wraps around as if every body were empty.
   */
  method ServeHttp(s: Settings, r: Request) returns (forwarded: Body, offered: Option<CaptureRecord>)
    requires Int64(s.maxCaptureBytes) && (r.body.NilBody? || r.body.Original?)
    ensures Readable(forwarded) == Readable(r.body)
       <==> !(Open(s, r) && s.maxCaptureBytes == MAX_INT64 && Readable(r.body) != ("", Eof))
    ensures s.maxCaptureBytes < MAX_INT64 ==> offered == Offered(s, r)
    ensures s.maxCaptureBytes == MAX_INT64 ==> offered == if Open(s, r) then RecordFor(s, r, "") else None
  {
    var data;
    forwarded, data := LookAtBody(s, r);
    offered := None;
    if data.Some? {
      offered := CaptureHttp(s, r, data.value);
    }
  }

  /** The bytes to extract from, if any, and the body to forward. */
  method LookAtBody(s: Settings, r: Request) returns (forwarded: Body, data: Option<string>)
    requires Int64(s.maxCaptureBytes) && (r.body.NilBody? || r.body.Original?)
    ensures Readable(forwarded) == Readable(r.body)
       <==> !(Open(s, r) && s.maxCaptureBytes == MAX_INT64 && Readable(r.body) != ("", Eof))
    ensures s.maxCaptureBytes < MAX_INT64 ==> data == if Seen(s, r) then Some(Readable(r.body).0) else None
    ensures s.maxCaptureBytes == MAX_INT64 ==> data == if Open(s, r) then Some("") else None
  {
    forwarded, data := r.body, None;
    if r.wanted {
      var captured, err, after := ReadBodyForCapture(r.body, r.encoding, r.contentType, s.maxCaptureBytes);
      forwarded := after;
      if err.None? {
        data := captured;
      }
    }
  }

  /** A record counts its messages right; it is marked "unsupported" only after a multipart body broke off. */
  lemma OfferedIsSound(s: Settings, r: Request)
    ensures var payload := PayloadOf(s, r.contentType, Readable(r.body).0);
      Offered(s, r).Some? ==>
        var x := Offered(s, r).value;
        && x.messageCount == |x.messages|
        && (x.parseStatus == "unsupported" ==> x.messages != [] && payload.Multipart? && MultipartFails(payload))
        && (x.parseStatus == "parsed" ==> x.messages != [])
        && (x.parseStatus == "empty" ==> x.messages == [])
  {
    var data := Readable(r.body).0;
    StatusMeaning(
      ProtocolForPath(r.path), PayloadOf(s, r.contentType, data), s.maxPromptBytes, s.hash, Extract(s, r, data));
  }

  /**
   When a record is offered: the request is wanted, its headers let it through, its body is complete and within the
   limit, and it was understood or something was taken.
   */
  lemma OfferedExactly(s: Settings, r: Request)
    ensures var payload := PayloadOf(s, r.contentType, Readable(r.body).0);
      var taken := RequestOutcome(ProtocolForPath(r.path), payload).captures != [];
      var understood := RequestStatus(ProtocolForPath(r.path), payload, taken) != "unsupported";
      var complete := |Readable(r.body).0| <= s.maxCaptureBytes && Readable(r.body).1 == Eof;
      Offered(s, r).Some? <==>
        r.wanted && Eligible(r.body, r.encoding, r.contentType, s.maxCaptureBytes) && complete && (understood || taken)
  {
    var data := Readable(r.body).0;
    StatusExactly(ProtocolForPath(r.path), PayloadOf(s, r.contentType, data), s.maxPromptBytes, s.hash,
                  Extract(s, r, data));
  }

  /**
   Every field of an offered record: those of the request, and those of what was extracted from its body, the
   model being the one the body names or else the one in the path.
   */
  lemma OfferedFields(s: Settings, r: Request)
    requires Offered(s, r).Some?
    ensures var x := Offered(s, r).value;
      && x.id == r.id && x.receivedAt == r.receivedAt && x.requestId == r.requestId
      && x.clientRequestId == r.clientRequestId && x.identity == r.identity && x.endpoint == r.path
      && x.protocol == ProtocolForPath(r.path)
    ensures var x, payload := Offered(s, r).value, PayloadOf(s, r.contentType, Readable(r.body).0);
      var named := if payload.JsonBody? then NamedModel(payload.root) else "";
      && x.model == (if named != "" then named else s.modelFromPath(r.path))
      && x.parseStatus == RequestStatus(x.protocol, payload, x.messages != [])
    ensures var x, payload := Offered(s, r).value, PayloadOf(s, r.contentType, Readable(r.body).0);
      var o, full := RequestOutcome(x.protocol, payload), FullPrompt(x.messages);
      && x.messages == Render(0, o.captures) && x.messageCount == |x.messages|
      && x.promptText == Utf8.Truncate(full, s.maxPromptBytes) && x.promptHash == s.hash(full)
      && (x.truncated <==> 0 < s.maxPromptBytes < |full|) && x.excludedRoles == Tally(map[], o.hidden)
  {
    var data := Readable(r.body).0;
    var payload := PayloadOf(s, r.contentType, data);
    StatusExactly(ProtocolForPath(r.path), payload, s.maxPromptBytes, s.hash, Extract(s, r, data));
    if payload.JsonBody? && payload.root.Some? { ModelIsNamed(payload.root.value); }
  }

  // ------------------------------------------------------------- two requests

  predicate AlikeOffers(x: Option<CaptureRecord>, y: Option<CaptureRecord>) {
    (x.Some? <==> y.Some?) && (x.Some? ==> Alike(x.value, y.value))
  }

  /** Both bodies are seen, or neither is, or there is nothing to record. */
  predicate SameSide(s: Settings, r: Request, q: Request) {
    (Seen(s, r) <==> Seen(s, q)) || RecordFor(s, r, Readable(r.body).0).None?
  }

  /**
   End to end: two requests that differ only in bodies which agree on the prompt keys, up to what hidden items
   contain, are offered alike, but for the model name and the role counts, if and only if their bodies lie on
   the same side of the capture limit or there is nothing to record.
   */
  lemma HiddenContentIsNotRecorded(s: Settings, r: Request, body: Body, a: seq<Field>, b: seq<Field>)
    requires PayloadOf(s, r.contentType, Readable(r.body).0) == JsonBody(Some(Obj(a)))
    requires PayloadOf(s, r.contentType, Readable(body).0) == JsonBody(Some(Obj(b)))
    requires SamePrompt(a, b)
    ensures var q := r.(body := body); AlikeOffers(Offered(s, r), Offered(s, q)) <==> SameSide(s, r, q)
  {
    var q := r.(body := body);
    RecordsAlike(s, r, q, Readable(r.body).0, Readable(body).0, a, b);
    AlikeWhenSeen(s, r, q, RecordFor(s, r, Readable(r.body).0), RecordFor(s, q, Readable(body).0));
  }

  lemma RecordsAlike(s: Settings, r: Request, q: Request, data: string, more: string, a: seq<Field>, b: seq<Field>)
    requires q == r.(body := q.body) && SamePrompt(a, b)
    requires PayloadOf(s, r.contentType, data) == JsonBody(Some(Obj(a)))
    requires PayloadOf(s, r.contentType, more) == JsonBody(Some(Obj(b)))
    ensures AlikeOffers(RecordFor(s, r, data), RecordFor(s, q, more))
  {
    var protocol := ProtocolForPath(r.path);
    HiddenContentIsInvisible(protocol, a, b, s.maxPromptBytes, s.hash, Extract(s, r, data), Extract(s, q, more));
  }

  lemma AlikeWhenSeen(s: Settings, r: Request, q: Request, x: Option<CaptureRecord>, y: Option<CaptureRecord>)
    requires AlikeOffers(x, y)
    requires x == RecordFor(s, r, Readable(r.body).0) && y == RecordFor(s, q, Readable(q.body).0)
    ensures AlikeOffers(Offered(s, r), Offered(s, q)) <==> SameSide(s, r, q)
  {
  }

  const SHORT: seq<Field> := [Field("prompt", Str("x"))]

  /** The same prompt beside a system prompt. */
  const LONG: seq<Field> := [Field("system", Str("y"))] + SHORT

  lemma SkipSystem(key: string)
    requires key != "system"
    ensures Lookup(LONG, key) == Lookup(SHORT, key)
  {
    assert LONG[1..] == SHORT;
  }

  lemma ShortAndLong()
    ensures SamePrompt(SHORT, LONG) && Lookup(SHORT, "prompt") == Some(Str("x")) && ArrayAt(SHORT, "messages").None?
  {
    assert |"system"| == 6 && |"messages"| == 8 && |"contents"| == 8 && |"input"| == 5 && "prompt"[0] == 'p'
        && |"query"| == 5 && |"text"| == 4 && |"description"| == 11 && "system"[0] == 's';
    SkipSystem("messages");
    SkipSystem("contents");
    SkipSystem("input");
    SkipSystem("prompt");
    SkipSystem("query");
    SkipSystem("text");
    SkipSystem("description");
  }

  lemma ShortIsTaken(before: nat)
    ensures Generic(SHORT, before).captures != []
  {
    ShortAndLong();
    TrimWord("x");
    var leaf := Leaf("x", [Key("prompt")]);
    assert PromptField(SHORT, PROMPT_FIELDS[0]) == leaf && leaf != [];
    FirstNameCounts(SHORT, |PROMPT_FIELDS|);
  }

  lemma {:induction false} FirstNameCounts(fields: seq<Field>, n: nat)
    requires 1 <= n <= |PROMPT_FIELDS| && PromptField(fields, PROMPT_FIELDS[0]) != []
    ensures PromptFields(fields, PROMPT_FIELDS, n) != []
  {
    if n > 1 { FirstNameCounts(fields, n - 1); }
  }

  /**
   The limit matters: for every limit, when the body with the system prompt is too long and the one without is
   not, the same prompt is recorded without the system prompt and not recorded with it.
   */
  lemma LongHiddenContentDropsTheRecord(s: Settings, r: Request, body: Body)
    requires ProtocolForPath(r.path) == "generic" && Seen(s, r) && !Seen(s, r.(body := body))
    requires PayloadOf(s, r.contentType, Readable(r.body).0) == JsonBody(Some(Obj(SHORT)))
    requires PayloadOf(s, r.contentType, Readable(body).0) == JsonBody(Some(Obj(LONG)))
    ensures SamePrompt(SHORT, LONG) && Offered(s, r).Some? && Offered(s, r.(body := body)).None?
  {
    ShortAndLong();
    ShortIsTaken(0);
    GenericProtocol(SHORT);
  }

  lemma GenericProtocol(fields: seq<Field>)
    ensures ByProtocol("generic", Obj(fields), 0) == Generic(fields, 0)
  {
    assert |"generic"| == 7 && |"openai-chat"| == 11 && |"openai-responses"| == 16 && |"openai-responses-ws"| == 19
        && |"anthropic-messages"| == 18 && |"gemini"| == 6;
  }

  function Filler(n: nat): (data: string)
    ensures |data| == n
  {
    seq(n, _ => 'a')
  }

  function OneChunk(n: nat): Body { Original(Source([Filler(n)], Eof, false)) }

  lemma OneChunkReads(n: nat)
    ensures Readable(OneChunk(n)) == (Filler(n), Eof)
  {
    var data := Filler(n);
    assert [data][1..] == [] && Flatten([]) == "";
    assert Flatten([data]) == data + "" == data;
  }

  lemma GenericPath()
    ensures ProtocolForPath("") == "generic"
  {
    assert Lower("") == "";
  }

  /** A request with a body of `n` bytes, and a decoder that takes bodies over the limit for `LONG`. */
  function ExampleRequest(n: nat): Request {
    Request(true, "", "", "", OneChunk(n), "", "", UNKNOWN_IDENTITY, "", 0)
  }

  function ExampleSettings(limit: nat): Settings {
    Settings(limit, 0, t => t, (_, data) => JsonBody(Some(Obj(if |data| <= limit then SHORT else LONG))), path => path)
  }

  /** An example: one body of exactly the limit, and one that its system prompt makes one byte longer. */
  lemma LimitExample(limit: nat)
    requires limit > 0
    ensures var s, r, q := ExampleSettings(limit), ExampleRequest(limit), ExampleRequest(limit + 1);
      && q == r.(body := q.body) && SamePrompt(SHORT, LONG)
      && PayloadOf(s, r.contentType, Readable(r.body).0) == JsonBody(Some(Obj(SHORT)))
      && PayloadOf(s, q.contentType, Readable(q.body).0) == JsonBody(Some(Obj(LONG)))
      && Offered(s, r).Some? && Offered(s, q).None?
  {
    var s, r := ExampleSettings(limit), ExampleRequest(limit);
    OneChunkReads(limit);
    OneChunkReads(limit + 1);
    GenericPath();
    assert Trim("") == "" && WantedType("");
    LongHiddenContentDropsTheRecord(s, r, OneChunk(limit + 1));
  }
}
