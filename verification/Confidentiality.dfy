/**
 Two whole runs, from requests and frames to the table (proxy.go:97-125, websocket.go:94-132, queue.go:22-105):
 what hidden items contain makes no difference to the stored prompts.
 */
module Confidentiality {
  import opened Common
  import opened JsonTree
  import opened Model
  import opened Extractor
  import opened Noninterference
  import opened Origins
  import H = HttpCapture
  import F = FrameRelay
  import Q = RecordQueue
  import P = Persist
  import opened BlindQueue

  // -------------------------------------------------------------- the worker

  predicate AlikeRows(a: P.Table, b: P.Table) {
    |a| == |b| && forall i :: 0 <= i < |a| ==> Alike(a[i], b[i])
  }

  lemma AlikeIds(a: P.Table, b: P.Table, id: string)
    requires AlikeRows(a, b)
    ensures P.HasId(a, id) <==> P.HasId(b, id)
  {
    if P.HasId(a, id) {
      var i :| 0 <= i < |a| && a[i].id == id;
      assert b[i].id == id;
    }
    if P.HasId(b, id) {
      var i :| 0 <= i < |b| && b[i].id == id;
      assert a[i].id == id;
    }
  }

  lemma AlikeInserted(a: P.Table, b: P.Table, x: CaptureRecord, y: CaptureRecord, fate: P.InsertFate)
    requires AlikeRows(a, b) && Alike(x, y)
    ensures AlikeRows(P.Inserted(a, x, fate), P.Inserted(b, y, fate))
    ensures P.Reported(a, x, fate) <==> P.Reported(b, y, fate)
  {
    AlikeIds(a, b, x.id);
  }

  lemma {:induction false} AlikeWritten(a: P.Table, b: P.Table, x: CaptureRecord, y: CaptureRecord, s: P.Script, k: nat)
    requires s.Complete() && k < 3 && AlikeRows(a, b) && Alike(x, y)
    ensures AlikeRows(P.Write(a, x, s, k).rows, P.Write(b, y, s, k).rows)
    ensures P.Write(a, x, s, k).outcome == P.Write(b, y, s, k).outcome
    decreases 3 - k
  {
    var fate := s.inserts[k];
    AlikeInserted(a, b, x, y, fate);
    if k < 2 { AlikeWritten(P.Inserted(a, x, fate), P.Inserted(b, y, fate), x, y, s, k + 1); }
  }

  lemma {:induction false} AlikeResolved(x: CaptureRecord, y: CaptureRecord, s: P.Script, k: nat)
    requires s.Complete() && k <= 3 && Alike(x, y)
    ensures P.Resolve(x, s, k).Some? <==> P.Resolve(y, s, k).Some?
    ensures P.Resolve(x, s, k).Some? ==> Alike(P.Resolve(x, s, k).value, P.Resolve(y, s, k).value)
    decreases 3 - k
  {
    if k < 3 { AlikeResolved(x, y, s, k + 1); }
  }

  lemma AlikePersisted(a: P.Table, b: P.Table, x: CaptureRecord, y: CaptureRecord, cfg: P.Config, s: P.Script)
    requires s.Complete() && AlikeRows(a, b) && Alike(x, y)
    ensures AlikeRows(P.Persisted(a, x, cfg, s).rows, P.Persisted(b, y, cfg, s).rows)
    ensures P.Persisted(a, x, cfg, s).outcome == P.Persisted(b, y, cfg, s).outcome
  {
    AlikeResolved(x, y, s, 0);
    var known, other := P.Identified(x, s), P.Identified(y, s);
    if known.Some? {
      assert P.Gated(known.value, cfg) <==> P.Gated(other.value, cfg);
      AlikeWritten(a, b, known.value, other.value, s, 0);
    }
  }

  /** The same lot, met with records that are alike. */
  predicate AlikeJobs(a: seq<P.Job>, b: seq<P.Job>) {
    && |a| == |b| && P.AllComplete(a) && P.AllComplete(b)
    && forall i :: 0 <= i < |a| ==> Alike(a[i].record, b[i].record) && a[i].script == b[i].script
  }

  lemma AlikeNext(rows: P.Table, more: P.Table, a: P.Job, b: P.Job, cfg: P.Config)
    requires AlikeRows(rows, more) && Alike(a.record, b.record) && a.script == b.script && a.script.Complete()
    ensures var x, y := P.Persisted(rows, a.record, cfg, a.script), P.Persisted(more, b.record, cfg, b.script);
      AlikeRows(x.rows, y.rows) && x.outcome == y.outcome
  {
    AlikePersisted(rows, more, a.record, b.record, cfg, a.script);
  }

  /** Records that are alike leave tables that are alike. */
  lemma {:induction false} AlikeTables(start: P.Table, a: seq<P.Job>, b: seq<P.Job>, cfg: P.Config, n: nat,
                                       x: P.Table, y: P.Table)
    requires AlikeJobs(a, b) && n <= |a| && x == P.RowsAfter(start, a, cfg, n) && y == P.RowsAfter(start, b, cfg, n)
    ensures AlikeRows(x, y)
    decreases n
  {
    if n > 0 {
      AlikeTables(start, a, b, cfg, n - 1, P.RowsAfter(start, a, cfg, n - 1), P.RowsAfter(start, b, cfg, n - 1));
      AlikeResult(start, a, b, cfg, n - 1, P.ResultAt(start, a, cfg, n - 1), P.ResultAt(start, b, cfg, n - 1));
    }
  }

  lemma AlikeResult(start: P.Table, a: seq<P.Job>, b: seq<P.Job>, cfg: P.Config, n: nat, x: P.Result, y: P.Result)
    requires AlikeJobs(a, b) && n < |a| && x == P.ResultAt(start, a, cfg, n) && y == P.ResultAt(start, b, cfg, n)
    requires AlikeRows(P.RowsAfter(start, a, cfg, n), P.RowsAfter(start, b, cfg, n))
    ensures AlikeRows(x.rows, y.rows) && x.outcome == y.outcome
  {
    AlikeNext(P.RowsAfter(start, a, cfg, n), P.RowsAfter(start, b, cfg, n), a[n], b[n], cfg);
  }

  lemma AlikeOutcomes(start: P.Table, a: seq<P.Job>, b: seq<P.Job>, cfg: P.Config)
    requires AlikeJobs(a, b)
    ensures forall i :: 0 <= i < |a| ==> P.OutcomeAt(start, a, cfg, i) == P.OutcomeAt(start, b, cfg, i)
  {
    forall i | 0 <= i < |a|
      ensures P.OutcomeAt(start, a, cfg, i) == P.OutcomeAt(start, b, cfg, i)
    {
      AlikeTables(start, a, b, cfg, i, P.RowsAfter(start, a, cfg, i), P.RowsAfter(start, b, cfg, i));
      AlikeResult(start, a, b, cfg, i, P.ResultAt(start, a, cfg, i), P.ResultAt(start, b, cfg, i));
    }
  }

  // ------------------------------------------------------------- the sources

  predicate JsonObject(p: Payload) { p.JsonBody? && p.root.Some? && p.root.value.Obj? }

  /**
   Requests that differ only in bodies that agree on the prompt keys, up to hidden items, and lie on the same
   side of the capture limit unless there is nothing to record.
   */
  predicate AlikeRequests(s: H.Settings, r: H.Request, q: H.Request) {
    && q == r.(body := q.body) && H.SameSide(s, r, q)
    && JsonObject(BodyPayload(s, r)) && JsonObject(BodyPayload(s, q))
    && SamePrompt(BodyPayload(s, r).root.value.fields, BodyPayload(s, q).root.value.fields)
  }

  /** Frames that differ only in payloads that agree likewise, and on the event type and the item. */
  predicate AlikeFrames(c: F.Connection, f: F.Frame, g: F.Frame) {
    && f.kind == g.kind
    && var x, y := c.decode(f.payload), c.decode(g.payload);
       && x.Some? && y.Some? && x.value.Obj? && y.value.Obj?
       && var a, b := x.value.fields, y.value.fields;
          && SamePrompt(a, b) && Lookup(a, "type") == Lookup(b, "type")
          && SameMessage(Lookup(a, "item"), Lookup(b, "item"))
  }

  ghost predicate AlikeOrigins(s: H.Settings, o: Origin, p: Origin) {
    || o == p
    || (o.Http? && p.Http? && AlikeRequests(s, o.request, p.request))
    || (o.Ws? && p.Ws? && p == o.(frame := p.frame) && AlikeFrames(o.connection, o.frame, p.frame))
  }

  /** Origins that are alike are recorded alike. */
  lemma AlikeRecords(s: H.Settings, o: Origin, p: Origin)
    requires AlikeOrigins(s, o, p)
    ensures RecordFrom(s, o).Some? <==> RecordFrom(s, p).Some?
    ensures RecordFrom(s, o).Some? ==> Alike(RecordFrom(s, o).value, RecordFrom(s, p).value)
  {
    if o != p && o.Http? {
      AlikeHttp(s, o.request, p.request);
    } else if o != p {
      AlikeWs(o.connection, o.frame, p.frame, o.stamp, o.fallbackModel);
    }
  }

  lemma AlikeHttp(s: H.Settings, r: H.Request, q: H.Request)
    requires AlikeRequests(s, r, q)
    ensures H.AlikeOffers(H.Offered(s, r), H.Offered(s, q))
  {
    H.HiddenContentIsNotRecorded(
      s, r, q.body, BodyPayload(s, r).root.value.fields, BodyPayload(s, q).root.value.fields);
  }

  lemma AlikeWs(c: F.Connection, f: F.Frame, g: F.Frame, stamp: F.Stamp, model: string)
    requires AlikeFrames(c, f, g)
    ensures F.Recorded(c, f) <==> F.Recorded(c, g)
    ensures Alike(F.RecordOf(c, f, stamp, model), F.RecordOf(c, g, stamp, model))
  {
    var a, b := c.decode(f.payload).value.fields, c.decode(g.payload).value.fields;
    F.HiddenFrameContentIsNotRecorded(c, f, g, a, b, stamp, model);
  }

  // ---------------------------------------------------------- two whole runs

  const NO_RECORD := CaptureRecord("", 0, "", "", UNKNOWN_IDENTITY, "", "", "", [], "", "", 0, "", false, map[])

  /** The records of a series of origins, by number. */
  function Records(s: H.Settings, origins: nat -> Origin): nat -> CaptureRecord {
    (i: nat) => RecordFrom(s, origins(i)).GetOr(NO_RECORD)
  }

  function Jobs(settled: seq<Q.Settled<nat>>, records: nat -> CaptureRecord, scripts: seq<P.Script>): seq<P.Job>
    requires |scripts| == |settled|
  {
    seq(|settled|, i requires 0 <= i < |settled| => P.Job(records(settled[i].entry.record), scripts[i]))
  }

  predicate AllComplete(scripts: seq<P.Script>) {
    forall i :: 0 <= i < |scripts| ==> scripts[i].Complete()
  }

  lemma JobsAlike(s: H.Settings, a: nat -> Origin, b: nat -> Origin, settled: seq<Q.Settled<nat>>,
                  scripts: seq<P.Script>)
    requires |scripts| == |settled| && AllComplete(scripts) && forall i: nat :: AlikeOrigins(s, a(i), b(i))
    ensures AlikeJobs(Jobs(settled, Records(s, a), scripts), Jobs(settled, Records(s, b), scripts))
  {
    forall i | 0 <= i < |settled|
      ensures Alike(Records(s, a)(settled[i].entry.record), Records(s, b)(settled[i].entry.record))
    {
      AlikeRecords(s, a(settled[i].entry.record), b(settled[i].entry.record));
    }
  }

  /** Every call hands over a record that its origin gave rise to. */
  predicate Arrivals(s: H.Settings, steps: seq<Q.Step<nat>>, origins: nat -> Origin) {
    forall k :: 0 <= k < |steps| && steps[k].Arrive? ==> RecordFrom(s, origins(steps[k].record)).Some?
  }

  /**
   Confidentiality: take any concurrent run of producers, closers and worker, in which call by call the records
   come from numbered requests and frames, and exchange these for others that differ only in what hidden items
   contain and in keys outside the prompt.  The exchanged run is a run too, with the same drops, order and
   fates; the worker meets the same outcomes; and the two tables are equal but for model names and role counts.
   */
  lemma HiddenContentNeverReachesTheTable(
      capacity: nat, steps: seq<Q.Step<nat>>, s: Q.State<nat>, settings: H.Settings,
      a: nat -> Origin, b: nat -> Origin, scripts: seq<P.Script>, start: P.Table, cfg: P.Config)
    requires Q.Run(Q.Start<nat>(capacity), steps) && s == Q.After(Q.Start<nat>(capacity), steps)
    requires Arrivals(settings, steps, a) && forall i: nat :: AlikeOrigins(settings, a(i), b(i))
    requires |scripts| == |s.settled| && AllComplete(scripts)
    ensures Arrivals(settings, steps, b)
    ensures var x, y := Records(settings, a), Records(settings, b);
      && Q.Run(Q.Start(capacity), MapSteps(steps, x)) && Q.Run(Q.Start(capacity), MapSteps(steps, y))
      && Q.After(Q.Start(capacity), MapSteps(steps, x)) == MapState(s, x)
      && Q.After(Q.Start(capacity), MapSteps(steps, y)) == MapState(s, y)
    ensures var x, y := Jobs(s.settled, Records(settings, a), scripts), Jobs(s.settled, Records(settings, b), scripts);
      && AlikeJobs(x, y)
      && AlikeRows(P.RowsAfter(start, x, cfg, |x|), P.RowsAfter(start, y, cfg, |y|))
      && forall i :: 0 <= i < |x| ==> P.OutcomeAt(start, x, cfg, i) == P.OutcomeAt(start, y, cfg, i)
  {
    forall k | 0 <= k < |steps| && steps[k].Arrive?
      ensures RecordFrom(settings, b(steps[k].record)).Some?
    {
      AlikeRecords(settings, a(steps[k].record), b(steps[k].record));
    }
    QueueIsBlind(capacity, steps, Records(settings, a));
    QueueIsBlind(capacity, steps, Records(settings, b));
    JobsAlike(settings, a, b, s.settled, scripts);
    var x, y := Jobs(s.settled, Records(settings, a), scripts), Jobs(s.settled, Records(settings, b), scripts);
    AlikeTables(start, x, y, cfg, |x|, P.RowsAfter(start, x, cfg, |x|), P.RowsAfter(start, y, cfg, |y|));
    AlikeOutcomes(start, x, y, cfg);
  }
}
