/**
 From Enqueue to the table: the concurrent queue (queue.go:22-61) drained by the worker that stores
 records (queue.go:63-105), up to the end of an orderly shutdown (main.go:111-122).
 */
module Pipeline {
  import opened Model
  import Q = RecordQueue
  import P = Persist

  function FateOf(o: P.Outcome): Q.Fate {
    match o
    case Stored => Q.Stored
    case Filtered => Q.Filtered
    case Failed => Q.Failed
    case Abandoned => Q.Abandoned
  }

  /**
   The worker stored the settled records in their order, and settled each as that turned out; what it did not
   even try to store, because its context had been cancelled, it abandoned.
   */
  predicate Follows(s: Q.State<CaptureRecord>, jobs: seq<P.Job>, outcomes: seq<P.Outcome>) {
    && |jobs| == |outcomes| <= |s.settled|
    && (forall i :: 0 <= i < |jobs| ==>
          s.settled[i].entry.record == jobs[i].record && s.settled[i].fate == FateOf(outcomes[i]))
    && (forall i :: |jobs| <= i < |s.settled| ==> s.settled[i].fate.Abandoned?)
  }

  /** Calls carry records with ids of their own, unused in the table, and the right message counts. */
  predicate GoodCalls(start: P.Table, calls: map<nat, Q.Call<CaptureRecord>>) {
    && (forall c, d :: c in calls && d in calls && c != d ==> calls[c].record.id != calls[d].record.id)
    && (forall c :: c in calls ==>
          !P.HasId(start, calls[c].record.id) && calls[c].record.messageCount == |calls[c].record.messages|)
  }

  predicate CallOf(s: Q.State<CaptureRecord>, id: nat, record: CaptureRecord) {
    id in s.calls && s.calls[id].record == record && Q.Ended(s.calls[id].pc, true)
  }

  /** A row stores the record of an accepted call, with its identity filled in, and passed the gates. */
  predicate RowOfCall(s: Q.State<CaptureRecord>, row: CaptureRecord, cfg: P.Config, id: nat) {
    && id in s.calls && Q.Ended(s.calls[id].pc, true)
    && row == s.calls[id].record.(identity := row.identity) && P.Gated(row, cfg)
    && row.messageCount == |row.messages|
  }

  ghost predicate HasCall(s: Q.State<CaptureRecord>, row: CaptureRecord, cfg: P.Config) {
    exists id :: RowOfCall(s, row, cfg, id)
  }

  /**
   Ids are unique, every row after the first `kept` is that of an accepted call, every record settled as
   stored is there, and no filtered one is.
   */
  ghost predicate Sound(s: Q.State<CaptureRecord>, kept: nat, rows: P.Table, cfg: P.Config) {
    && P.UniqueIds(rows)
    && (forall k :: kept <= k < |rows| ==> HasCall(s, rows[k], cfg))
    && (forall i :: 0 <= i < |s.settled| && s.settled[i].fate.Stored? ==> P.HasId(rows, s.settled[i].entry.record.id))
    && (forall i :: 0 <= i < |s.settled| && s.settled[i].fate.Filtered? ==>
          !P.HasId(rows, s.settled[i].entry.record.id))
  }

  /** Settled records belong to distinct successful calls. */
  lemma SettledAreCalls(s: Q.State<CaptureRecord>, start: P.Table, jobs: seq<P.Job>, outcomes: seq<P.Outcome>)
    requires Q.AcceptedAreCalls(s) && Q.Entries(s.settled) <= s.accepted && GoodCalls(start, s.calls)
    requires Follows(s, jobs, outcomes)
    ensures P.FreshIds(start, jobs)
    ensures forall i :: 0 <= i < |jobs| ==> CallOf(s, s.settled[i].entry.call, jobs[i].record)
  {
    forall i | 0 <= i < |jobs|
      ensures CallOf(s, s.settled[i].entry.call, jobs[i].record) && s.accepted[i] == s.settled[i].entry
    {
      assert Q.Entries(s.settled)[i] == s.settled[i].entry;
      assert s.accepted[i] == s.settled[i].entry;
    }
    forall i | 0 <= i < |jobs|
      ensures !P.HasId(start, jobs[i].record.id)
    {
      assert CallOf(s, s.settled[i].entry.call, jobs[i].record);
    }
    forall i, j | 0 <= i < j < |jobs|
      ensures jobs[i].record.id != jobs[j].record.id
    {
      assert s.accepted[i].call != s.accepted[j].call;
    }
  }

  lemma RowsAreSound(s: Q.State<CaptureRecord>, kept: nat, jobs: seq<P.Job>, outcomes: seq<P.Outcome>, rows: P.Table,
                     cfg: P.Config)
    requires Follows(s, jobs, outcomes) && P.UniqueIds(rows)
    requires forall i :: 0 <= i < |jobs| ==> CallOf(s, s.settled[i].entry.call, jobs[i].record)
    requires forall k :: kept <= k < |rows| ==>
      P.FromJob(rows[k], jobs, cfg, |jobs|) && rows[k].messageCount == |rows[k].messages|
    requires forall i :: 0 <= i < |jobs| && outcomes[i].Stored? ==> P.HasId(rows, jobs[i].record.id)
    requires forall i :: 0 <= i < |jobs| && outcomes[i].Filtered? ==> !P.HasId(rows, jobs[i].record.id)
    ensures Sound(s, kept, rows, cfg)
  {
    forall k | kept <= k < |rows|
      ensures HasCall(s, rows[k], cfg)
    {
      var i := P.JobOf(rows[k], jobs, cfg, |jobs|);
      assert CallOf(s, s.settled[i].entry.call, jobs[i].record);
      assert RowOfCall(s, rows[k], cfg, s.settled[i].entry.call);
    }
    forall i | 0 <= i < |s.settled|
      ensures s.settled[i].fate.Stored? ==> P.HasId(rows, s.settled[i].entry.record.id)
      ensures s.settled[i].fate.Filtered? ==> !P.HasId(rows, s.settled[i].entry.record.id)
    {
      assert i < |jobs| ==> s.settled[i].fate == FateOf(outcomes[i]);
    }
  }

  lemma TableIsSound(s: Q.State<CaptureRecord>, start: P.Table, jobs: seq<P.Job>, outcomes: seq<P.Outcome>,
                     rows: P.Table, cfg: P.Config)
    requires Q.AcceptedAreCalls(s) && Q.Entries(s.settled) <= s.accepted && GoodCalls(start, s.calls)
    requires P.UniqueIds(start)
    requires Follows(s, jobs, outcomes) && P.Ran(start, jobs, cfg, rows, outcomes)
    ensures Sound(s, |start|, rows, cfg) && P.RowsExactly(start, jobs, cfg, rows)
  {
    SettledAreCalls(s, start, jobs, outcomes);
    P.StoredAtMostOnce(start, jobs, cfg, rows, outcomes);
    RowsAreSound(s, |start|, jobs, outcomes, rows, cfg);
  }

  /**
   In every reachable state, also after a shutdown that timed out: the table that the settled records leave is the
   old one followed, in order, by those that pass the gates and have an attempt that commits; ids are unique,
   every new row is the record of one accepted call, every record settled as stored has its row and no
   filtered one has.
   */
  lemma TableIsAlwaysSound(capacity: nat, steps: seq<Q.Step<CaptureRecord>>, s: Q.State<CaptureRecord>,
                           start: P.Table, jobs: seq<P.Job>, outcomes: seq<P.Outcome>, rows: P.Table, cfg: P.Config)
    requires Q.Run(Q.Start(capacity), steps) && s == Q.After(Q.Start(capacity), steps)
    requires P.UniqueIds(start) && GoodCalls(start, s.calls)
    requires Follows(s, jobs, outcomes) && P.Ran(start, jobs, cfg, rows, outcomes)
    ensures Sound(s, |start|, rows, cfg) && P.RowsExactly(start, jobs, cfg, rows)
  {
    Q.NothingLost(capacity, steps);
    SettledFirst(s);
    TableIsSound(s, start, jobs, outcomes, rows, cfg);
  }

  lemma SettledFirst(s: Q.State<CaptureRecord>)
    requires Q.InOrder(s)
    ensures Q.Entries(s.settled) <= s.accepted
  {
  }

  /** The worker has ended in an orderly way and every call has returned. */
  predicate Ended(s: Q.State<CaptureRecord>) {
    s.worker.Exited? && !s.cancelled && forall c :: c in s.calls ==> s.calls[c].pc.Returned?
  }

  /**
   Conservation through the whole pipeline: after every concurrent run that ends with an orderly
   shutdown, each Enqueue call was either dropped and counted, or its record was settled exactly once as
   stored, filtered or failed.  The table is the old one followed, in order, by the accepted records that
   pass the gates and have an attempt that commits; ids are unique, every new row is the record of one
   accepted call, every record settled as stored has its row and no filtered one has.
   */
  lemma EveryCallIsAccountedFor(capacity: nat, steps: seq<Q.Step<CaptureRecord>>, s: Q.State<CaptureRecord>,
                                start: P.Table, jobs: seq<P.Job>, outcomes: seq<P.Outcome>, rows: P.Table,
                                cfg: P.Config)
    requires Q.Run(Q.Start(capacity), steps) && s == Q.After(Q.Start(capacity), steps) && Ended(s)
    requires P.UniqueIds(start) && GoodCalls(start, s.calls)
    requires Follows(s, jobs, outcomes) && P.Ran(start, jobs, cfg, rows, outcomes)
    ensures |s.calls| == |s.settled| + s.dropped && |jobs| == |s.settled|
    ensures forall i :: 0 <= i < |s.settled| ==> s.settled[i].fate in {Q.Stored, Q.Filtered, Q.Failed}
    ensures Sound(s, |start|, rows, cfg) && P.RowsExactly(start, jobs, cfg, rows)
  {
    assert |jobs| < |s.settled| ==> s.settled[|jobs|].fate.Abandoned?;
    Q.DrainedCompletely(capacity, steps);
    Q.AllCallsCounted(capacity, steps);
    assert |Q.Entries(s.settled)| == |s.settled|;
    TableIsAlwaysSound(capacity, steps, s, start, jobs, outcomes, rows, cfg);
  }
}
