/**
 From the table back to the requests (extractor.go:26-450, proxy.go:97-125, websocket.go:94-132, queue.go:22-105):
 every stored message stands in the request or frame that its row comes from.
 */
module Traceability {
  import opened Common
  import opened Text
  import opened JsonTree
  import opened Protocols
  import opened Extractor
  import opened Model
  import opened Origins
  import opened AllowList
  import opened Forms
  import opened DocumentOrder
  import B = BodyCapture
  import H = HttpCapture
  import F = FrameRelay
  import Q = RecordQueue
  import P = Persist
  import Pipeline

  // ---------------------------------------------------- forms and multipart

  /** A form has the text among the values of the prompt field that the source names. */
  predicate InForm(values: map<string, seq<string>>, source: string, text: string) {
    source in PROMPT_NAMES && source in values && text in values[source]
  }

  /** A part that is a prompt field of that name holds the text. */
  predicate InPart(part: FormPart, source: string, text: string) {
    PromptPart(part) && FieldName(part) == source && FirstMiB(part.data) == text
  }

  predicate InSomePart(parts: seq<FormPart>, source: string, text: string) {
    exists i :: 0 <= i < |parts| && InPart(parts[i], source, text)
  }

  predicate AtName(c: Capture, name: string) { c.path == [Key(name)] }

  lemma {:induction false} FormValuesHeld(key: string, values: seq<string>, n: nat, c: Capture)
    requires n <= |values| && c in FormValues(key, values, n)
    ensures AtName(c, key) && c.text in values
  {
    if c !in Leaf(values[n - 1], [Key(key)]) { FormValuesHeld(key, values, n - 1, c); }
  }

  lemma {:induction false} FormFieldsHeld(values: map<string, seq<string>>, names: seq<string>, n: nat, c: Capture)
    returns (key: string)
    requires n <= |names| && c in FormFields(values, names, n)
    ensures key in names && key in values && AtName(c, key) && c.text in values[key]
  {
    if c in FormField(values, names[n - 1]) {
      key := names[n - 1];
      FormValuesHeld(key, values[key], |values[key]|, c);
    } else {
      key := FormFieldsHeld(values, names, n - 1, c);
    }
  }

  lemma {:induction false} PartFieldsHeld(parts: seq<FormPart>, n: nat, c: Capture) returns (i: nat)
    requires n <= |parts| && c in PartFields(parts, n)
    ensures i < n && AtName(c, FieldName(parts[i])) && InPart(parts[i], FieldName(parts[i]), c.text)
  {
    if c in PartField(parts[n - 1]) {
      i := n - 1;
      PartTaken(parts[i]);
    } else {
      i := PartFieldsHeld(parts, n - 1, c);
    }
  }

  // -------------------------------------------------------------- one record

  /** The payload holds the text of `m` at the place that the source of `m` names. */
  ghost predicate HeldIn(payload: Payload, m: UserMessage) {
    match payload
    case JsonBody(Some(root)) => Traced(root, m)
    case Form(Some(values)) => InForm(values, m.source, m.text)
    case Multipart(_, _, parts, _) => InSomePart(parts, m.source, m.text)
    case _ => false
  }

  /** The request or the frame does. */
  ghost predicate HeldBy(s: H.Settings, o: Origin, m: UserMessage) {
    match o
    case Http(r) => HeldIn(BodyPayload(s, r), m)
    case Ws(c, f, _, _) => c.decode(f.payload).Some? && Traced(c.decode(f.payload).value, m)
  }

  lemma FormHeld(values: map<string, seq<string>>, x: Extracted, max: int, hash: string -> string, i: nat)
    requires Finished(x, FormOutcome(Some(values), 0), max, hash) && i < |x.messages|
    ensures x.messages[i].index == i && InForm(values, x.messages[i].source, x.messages[i].text)
  {
    assert PROMPT_NAMES == PROMPT_FIELDS;
    var captures := FormFields(values, PROMPT_FIELDS, |PROMPT_FIELDS|);
    var key := FormFieldsHeld(values, PROMPT_FIELDS, |PROMPT_FIELDS|, captures[i]);
    PrintRoot(key);
  }

  lemma PartsHeld(p: Payload, o: Outcome, x: Extracted, max: int, hash: string -> string, i: nat)
    requires p.Multipart? && o.captures == MultipartOutcome(p, 0).captures
    requires Finished(x, o, max, hash) && i < |x.messages|
    ensures x.messages[i].index == i && InSomePart(p.parts, x.messages[i].source, x.messages[i].text)
  {
    var n := FirstBroken(p.parts, 0);
    var k := PartFieldsHeld(p.parts, n, PartFields(p.parts, n)[i]);
    PrintRoot(FieldName(p.parts[k]));
  }

  /** Every message of a finished extraction is held in the payload it came from, at its source. */
  lemma ExtractionIsHeld(protocol: string, payload: Payload, x: Extracted, max: int, hash: string -> string, i: nat)
    requires Finished(x, RequestOutcome(protocol, payload), max, hash) && i < |x.messages|
    ensures x.messages[i].index == i && HeldIn(payload, x.messages[i])
  {
    match payload
    case Form(Some(values)) => FormHeld(values, x, max, hash, i);
    case Multipart(_, _, _, _) => PartsHeld(payload, RequestOutcome(protocol, payload), x, max, hash, i);
    case JsonBody(Some(root)) => Provenance(protocol, root, x, max, hash);
    case _ =>
  }

  /** The record holds only what its origin does. */
  ghost predicate TracedRecord(s: H.Settings, o: Origin, r: CaptureRecord) {
    forall i :: 0 <= i < |r.messages| ==> r.messages[i].index == i && HeldBy(s, o, r.messages[i])
  }

  lemma RequestIsTraced(s: H.Settings, r: H.Request)
    requires H.Offered(s, r).Some?
    ensures TracedRecord(s, Http(r), H.Offered(s, r).value)
  {
    var data := B.Readable(r.body).0;
    var x := H.Extract(s, r, data);
    assert H.Offered(s, r).value.messages == x.messages;
    forall i | 0 <= i < |x.messages|
      ensures x.messages[i].index == i && HeldIn(BodyPayload(s, r), x.messages[i])
    {
      ExtractionIsHeld(ProtocolForPath(r.path), BodyPayload(s, r), x, s.maxPromptBytes, s.hash, i);
    }
  }

  lemma FrameIsTraced(s: H.Settings, c: F.Connection, f: F.Frame, stamp: F.Stamp, model: string)
    ensures TracedRecord(s, Ws(c, f, stamp, model), F.RecordOf(c, f, stamp, model))
  {
    var x, root := F.Extract(c, f), c.decode(f.payload);
    assert F.RecordOf(c, f, stamp, model).messages == x.messages;
    if root.Some? && root.value.Obj? {
      FrameProvenance(ProtocolForPath(c.path), root.value, x, c.maxPromptBytes, c.hash);
    }
  }

  /** Every record can be traced to its origin. */
  lemma RecordIsTraced(s: H.Settings, o: Origin)
    requires RecordFrom(s, o).Some?
    ensures TracedRecord(s, o, RecordFrom(s, o).value)
  {
    match o
    case Http(r) => RequestIsTraced(s, r);
    case Ws(c, f, stamp, model) => FrameIsTraced(s, c, f, stamp, model);
  }

  // --------------------------------------------------------------- the table

  /** The row is the record of this origin, with its identity filled in, and can be traced to it. */
  ghost predicate RowFrom(s: H.Settings, o: Origin, row: CaptureRecord) {
    && RecordFrom(s, o).Some? && row == RecordFrom(s, o).value.(identity := row.identity)
    && TracedRecord(s, o, row)
  }

  ghost predicate HasOrigin(s: H.Settings, calls: set<nat>, origins: nat -> Origin, row: CaptureRecord) {
    exists id :: id in calls && RowFrom(s, origins(id), row)
  }

  lemma RowHasOrigin(s: Q.State<CaptureRecord>, row: CaptureRecord, cfg: P.Config, id: nat,
                     settings: H.Settings, origins: nat -> Origin)
    requires Pipeline.RowOfCall(s, row, cfg, id) && RecordFrom(settings, origins(id)) == Some(s.calls[id].record)
    ensures HasOrigin(settings, s.calls.Keys, origins, row)
  {
    RecordIsTraced(settings, origins(id));
    assert row.messages == s.calls[id].record.messages;
    assert RowFrom(settings, origins(id), row);
  }

  /**
   Traceability: in every reachable state of the whole pipeline, whatever was dropped, failed or cancelled, every row
   that the worker added is the record of one request or frame that was handed over, and each of its messages
   carries its number and a source that names a place of that request where exactly its text stands.
   */
  lemma EveryRowIsTraced(
      capacity: nat, steps: seq<Q.Step<CaptureRecord>>, s: Q.State<CaptureRecord>, settings: H.Settings,
      origins: nat -> Origin, start: P.Table, jobs: seq<P.Job>, outcomes: seq<P.Outcome>, rows: P.Table, cfg: P.Config)
    requires Q.Run(Q.Start(capacity), steps) && s == Q.After(Q.Start(capacity), steps)
    requires forall id :: id in s.calls ==> RecordFrom(settings, origins(id)) == Some(s.calls[id].record)
    requires P.UniqueIds(start) && Pipeline.GoodCalls(start, s.calls)
    requires Pipeline.Follows(s, jobs, outcomes) && P.Ran(start, jobs, cfg, rows, outcomes)
    ensures start <= rows
    ensures forall k :: |start| <= k < |rows| ==> HasOrigin(settings, s.calls.Keys, origins, rows[k])
  {
    Pipeline.TableIsAlwaysSound(capacity, steps, s, start, jobs, outcomes, rows, cfg);
    forall k | |start| <= k < |rows|
      ensures HasOrigin(settings, s.calls.Keys, origins, rows[k])
    {
      assert Pipeline.HasCall(s, rows[k], cfg);
      var id :| Pipeline.RowOfCall(s, rows[k], cfg, id);
      RowHasOrigin(s, rows[k], cfg, id, settings, origins);
    }
  }
}
