/**
 The worker that stores captured records (queue.go:54-105) in a table with a primary key
 (store.go:67-116, migrations/001_init.sql:2).

 What the environment does during one record is its `Script`: the answers of the identity lookups,
 the fates of the inserts, and at which waits the context is cancelled.  An insert may commit and
 still be reported as an error.
 */
module Persist {
  import opened Common
  import opened Model

  datatype Config = Config(allowUnknownIdentity: bool, captureEmptyPrompts: bool)

  /** NotSent: no statement reached the table.  Refused: it did not commit.  Unclear: it committed, and
      the caller got an error.  Confirmed: it committed, and the caller got no error. */
  datatype InsertFate = NotSent | Refused | Unclear | Confirmed

  datatype Script = Script(
    resolver: bool,
    lookups: seq<Option<Identity>>,
    lookupCancels: seq<bool>,
    inserts: seq<InsertFate>,
    insertCancels: seq<bool>)
  {
    predicate Complete() {
      |lookups| == 3 && |lookupCancels| == 2 && |inserts| == 3 && |insertCancels| == 2
    }
  }

  datatype Outcome = Stored | Filtered | Failed | Abandoned

  type Table = seq<CaptureRecord>

  predicate HasId(rows: Table, id: string) {
    exists i :: 0 <= i < |rows| && rows[i].id == id
  }

  predicate UniqueIds(rows: Table) {
    forall i, j :: 0 <= i < j < |rows| ==> rows[i].id != rows[j].id
  }

  // ---------------------------------------------------------- specification

  /** Rows after one INSERT: the primary key refuses an id that is already there. */
  function Inserted(rows: Table, r: CaptureRecord, fate: InsertFate): Table {
    if (fate.Unclear? || fate.Confirmed?) && !HasId(rows, r.id) then rows + [r] else rows
  }

  predicate Reported(rows: Table, r: CaptureRecord, fate: InsertFate) {
    fate.Confirmed? && !HasId(rows, r.id)
  }

  /** Identity lookups from attempt `k` on; None means the context was cancelled while waiting. */
  function Resolve(r: CaptureRecord, s: Script, k: nat): Option<CaptureRecord>
    requires s.Complete() && k <= 3
    decreases 3 - k
  {
    if k == 3 then Some(r)
    else if s.lookups[k].Some? then Some(r.(identity := s.lookups[k].value))
    else if k < 2 && s.lookupCancels[k] then None
    else Resolve(r, s, k + 1)
  }

  function Identified(r: CaptureRecord, s: Script): Option<CaptureRecord>
    requires s.Complete()
  {
    if s.resolver && !r.identity.Resolved() then Resolve(r, s, 0) else Some(r)
  }

  predicate Gated(r: CaptureRecord, cfg: Config) {
    && (r.identity.Resolved() || cfg.allowUnknownIdentity)
    && (r.messageCount != 0 || cfg.captureEmptyPrompts)
  }

  datatype Result = Result(rows: Table, outcome: Outcome)

  /** Insert attempts from attempt `k` on. */
  function Write(rows: Table, r: CaptureRecord, s: Script, k: nat): Result
    requires s.Complete() && k < 3
    decreases 3 - k
  {
    var next := Inserted(rows, r, s.inserts[k]);
    if Reported(rows, r, s.inserts[k]) then Result(next, Stored)
    else if k == 2 then Result(next, Failed)
    else if s.insertCancels[k] then Result(next, Abandoned)
    else Write(next, r, s, k + 1)
  }

  function Persisted(rows: Table, r: CaptureRecord, cfg: Config, s: Script): Result
    requires s.Complete()
  {
    var known := Identified(r, s);
    if known.None? then Result(rows, Abandoned)
    else if !Gated(known.value, cfg) then Result(rows, Filtered)
    else Write(rows, known.value, s, 0)
  }

  // --------------------------------------------------------- implementation

  class Store {
    var rows: Table

    constructor ()
      ensures rows == []
    {
      rows := [];
    }

    method Insert(r: CaptureRecord, fate: InsertFate) returns (ok: bool)
      modifies this
      ensures rows == Inserted(old(rows), r, fate)
      ensures ok <==> Reported(old(rows), r, fate)
    {
      if fate.NotSent? || fate.Refused? {
        return false;
      }
      if HasId(rows, r.id) {
        return false;
      }
      rows := rows + [r];
      return fate.Confirmed?;
    }

    method PersistOne(record: CaptureRecord, cfg: Config, s: Script) returns (outcome: Outcome)
      requires s.Complete()
      modifies this
      ensures Result(rows, outcome) == Persisted(old(rows), record, cfg, s)
    {
      var r := record;
      if s.resolver && !r.identity.Resolved() {
        var attempt := 0;
        while attempt < 3
          invariant 0 <= attempt <= 3 && r == record && rows == old(rows)
          invariant Resolve(record, s, 0) == Resolve(record, s, attempt)
        {
          if s.lookups[attempt].Some? {
            r := r.(identity := s.lookups[attempt].value);
            break;
          }
          if attempt < 2 && s.lookupCancels[attempt] {
            return Abandoned;
          }
          attempt := attempt + 1;
        }
      }
      if !r.identity.Resolved() && !cfg.allowUnknownIdentity {
        return Filtered;
      }
      if r.messageCount == 0 && !cfg.captureEmptyPrompts {
        return Filtered;
      }
      outcome := WriteWithRetries(r, s);
    }

    method WriteWithRetries(r: CaptureRecord, s: Script) returns (outcome: Outcome)
      requires s.Complete()
      modifies this
      ensures Result(rows, outcome) == Write(old(rows), r, s, 0)
    {
      var attempt := 0;
      while true
        invariant 0 <= attempt < 3
        invariant Write(old(rows), r, s, 0) == Write(rows, r, s, attempt)
        decreases 3 - attempt
      {
        var ok := Insert(r, s.inserts[attempt]);
        if ok {
          return Stored;
        }
        if attempt == 2 {
          return Failed;
        }
        if s.insertCancels[attempt] {
          return Abandoned;
        }
        attempt := attempt + 1;
      }
    }

    /** The worker's loop over what it receives, while its context is not cancelled. */
    method Run(jobs: seq<Job>, cfg: Config) returns (outcomes: seq<Outcome>)
      requires AllComplete(jobs)
      modifies this
      ensures Ran(old(rows), jobs, cfg, rows, outcomes)
    {
      outcomes := [];
      for i := 0 to |jobs|
        invariant rows == RowsAfter(old(rows), jobs, cfg, i)
        invariant |outcomes| == i
        invariant forall k :: 0 <= k < i ==> outcomes[k] == OutcomeAt(old(rows), jobs, cfg, k)
      {
        var outcome := PersistNext(old(rows), jobs, cfg, i);
        outcomes := outcomes + [outcome];
      }
    }

    /** One turn of that loop. */
    method PersistNext(ghost start: Table, jobs: seq<Job>, cfg: Config, i: nat) returns (outcome: Outcome)
      requires i < |jobs| && AllComplete(jobs) && rows == RowsAfter(start, jobs, cfg, i)
      modifies this
      ensures rows == RowsAfter(start, jobs, cfg, i + 1) && outcome == OutcomeAt(start, jobs, cfg, i)
    {
      outcome := PersistOne(jobs[i].record, cfg, jobs[i].script);
      assert Result(rows, outcome) == ResultAt(start, jobs, cfg, i);
    }
  }

  datatype Job = Job(record: CaptureRecord, script: Script)

  predicate AllComplete(jobs: seq<Job>) {
    forall i :: 0 <= i < |jobs| ==> jobs[i].script.Complete()
  }

  function RowsAfter(rows: Table, jobs: seq<Job>, cfg: Config, n: nat): Table
    requires n <= |jobs| && AllComplete(jobs)
    decreases n, 0
  {
    if n == 0 then rows else ResultAt(rows, jobs, cfg, n - 1).rows
  }

  /** What storing record `n` leads to, after those before it. */
  function ResultAt(rows: Table, jobs: seq<Job>, cfg: Config, n: nat): Result
    requires n < |jobs| && AllComplete(jobs)
    decreases n, 1
  {
    Persisted(RowsAfter(rows, jobs, cfg, n), jobs[n].record, cfg, jobs[n].script)
  }

  function OutcomeAt(rows: Table, jobs: seq<Job>, cfg: Config, n: nat): Outcome
    requires n < |jobs| && AllComplete(jobs)
  {
    ResultAt(rows, jobs, cfg, n).outcome
  }

  /** The worker's loop took the table from `start` to `rows` with these outcomes. */
  predicate Ran(start: Table, jobs: seq<Job>, cfg: Config, rows: Table, outcomes: seq<Outcome>) {
    && AllComplete(jobs) && rows == RowsAfter(start, jobs, cfg, |jobs|) && |outcomes| == |jobs|
    && forall i :: 0 <= i < |jobs| ==> outcomes[i] == OutcomeAt(start, jobs, cfg, i)
  }

  // ------------------------------------------------------------- one record

  /** How many inserts are attempted: until one is reported, a wait is cancelled, or three failed. */
  function Attempts(s: Script, k: nat): (n: nat)
    requires s.Complete() && k < 3
    ensures k < n <= 3
    decreases 3 - k
  {
    if s.inserts[k].Confirmed? || k == 2 || s.insertCancels[k] then k + 1 else Attempts(s, k + 1)
  }

  predicate Commits(s: Script, i: nat)
    requires s.Complete() && i < 3
  {
    s.inserts[i].Unclear? || s.inserts[i].Confirmed?
  }

  /** Once the row is there, every further attempt fails on the primary key and adds nothing. */
  lemma {:induction false} WriteAgain(rows: Table, r: CaptureRecord, s: Script, k: nat)
    requires s.Complete() && k < 3 && HasId(rows, r.id)
    ensures Write(rows, r, s, k).rows == rows && !Write(rows, r, s, k).outcome.Stored?
    decreases 3 - k
  {
    if k < 2 && !s.insertCancels[k] { WriteAgain(rows, r, s, k + 1); }
  }

  lemma AppendedHasId(rows: Table, r: CaptureRecord)
    ensures HasId(rows + [r], r.id)
  {
    assert (rows + [r])[|rows|].id == r.id;
  }

  /**
   For a new id the retries leave one row exactly when an attempt that is made commits, none
   otherwise, and report success exactly when the first commit is reported as one.
   */
  lemma {:induction false} WriteOnce(rows: Table, r: CaptureRecord, s: Script, k: nat)
    requires s.Complete() && k < 3 && !HasId(rows, r.id)
    ensures var committed := exists i :: k <= i < Attempts(s, k) && Commits(s, i);
      && Write(rows, r, s, k).rows == (if committed then rows + [r] else rows)
      && (Write(rows, r, s, k).outcome.Stored? <==>
            exists i :: k <= i < Attempts(s, k) && s.inserts[i].Confirmed? && forall j :: k <= j < i ==> !Commits(s, j))
    decreases 3 - k
  {
    var next := Inserted(rows, r, s.inserts[k]);
    if Commits(s, k) {
      AppendedHasId(rows, r);
      if s.inserts[k].Unclear? && k < 2 && !s.insertCancels[k] { WriteAgain(next, r, s, k + 1); }
    } else if k < 2 && !s.insertCancels[k] {
      WriteOnce(rows, r, s, k + 1);
    }
  }

  /** Success is never reported without a row, and a row appears at most once, gated and counted right. */
  lemma PersistedOnce(rows: Table, r: CaptureRecord, cfg: Config, s: Script)
    requires s.Complete() && UniqueIds(rows) && !HasId(rows, r.id)
    ensures var result := Persisted(rows, r, cfg, s);
      && UniqueIds(result.rows)
      && (result.rows == rows ||
          exists r' :: result.rows == rows + [r'] && r' == r.(identity := r'.identity) && Gated(r', cfg))
      && (result.outcome.Stored? ==> result.rows != rows)
      && (result.outcome.Filtered? ==> result.rows == rows)
  {
    var known := Identified(r, s);
    if known.Some? && Gated(known.value, cfg) {
      IdentifiedKeepsRest(r, s);
      WriteOnce(rows, known.value, s, 0);
      var result := Persisted(rows, r, cfg, s);
      if result.rows != rows { assert result.rows == rows + [known.value]; }
    }
  }

  lemma {:induction false} ResolveKeepsRest(r: CaptureRecord, s: Script, k: nat)
    requires s.Complete() && k <= 3
    ensures Resolve(r, s, k).Some? ==> Resolve(r, s, k).value == r.(identity := Resolve(r, s, k).value.identity)
    decreases 3 - k
  {
    if k < 3 && s.lookups[k].None? && !(k < 2 && s.lookupCancels[k]) { ResolveKeepsRest(r, s, k + 1); }
  }

  lemma IdentifiedKeepsRest(r: CaptureRecord, s: Script)
    requires s.Complete()
    ensures Identified(r, s).Some? ==> Identified(r, s).value == r.(identity := Identified(r, s).value.identity)
  {
    ResolveKeepsRest(r, s, 0);
  }

  // -------------------------------------------------------------- whole runs

  /** Every record handed over has its own id, unused in the table. */
  predicate FreshIds(rows: Table, jobs: seq<Job>) {
    && (forall i :: 0 <= i < |jobs| ==> !HasId(rows, jobs[i].record.id))
    && (forall i, j :: 0 <= i < j < |jobs| ==> jobs[i].record.id != jobs[j].record.id)
  }

  /** `row` is the record of job `i` with a resolved identity filled in, and passed the gates. */
  predicate RowOf(row: CaptureRecord, job: Job, cfg: Config) {
    row == job.record.(identity := row.identity) && Gated(row, cfg)
  }

  /** `row` is that of one of the first `n` jobs. */
  predicate FromJob(row: CaptureRecord, jobs: seq<Job>, cfg: Config, n: nat)
    requires n <= |jobs|
  {
    exists i :: 0 <= i < n && RowOf(row, jobs[i], cfg)
  }

  lemma JobOf(row: CaptureRecord, jobs: seq<Job>, cfg: Config, n: nat) returns (i: nat)
    requires n <= |jobs| && FromJob(row, jobs, cfg, n)
    ensures i < n && RowOf(row, jobs[i], cfg)
  {
    i :| i < n && RowOf(row, jobs[i], cfg);
  }

  /** The table is the old one followed by rows of jobs before `n`. */
  predicate Grown(rows: Table, now: Table, jobs: seq<Job>, cfg: Config, n: nat)
    requires n <= |jobs|
  {
    && rows <= now && UniqueIds(now)
    && forall k :: |rows| <= k < |now| ==> FromJob(now[k], jobs, cfg, n)
  }

  lemma {:induction false} RunGrows(rows: Table, jobs: seq<Job>, cfg: Config, n: nat)
    requires n <= |jobs| && AllComplete(jobs) && FreshIds(rows, jobs) && UniqueIds(rows)
    ensures Grown(rows, RowsAfter(rows, jobs, cfg, n), jobs, cfg, n)
  {
    if n > 0 {
      RunGrows(rows, jobs, cfg, n - 1);
      var now := RowsAfter(rows, jobs, cfg, n - 1);
      StillFresh(rows, now, jobs, cfg, n - 1);
      PersistedOnce(now, jobs[n - 1].record, cfg, jobs[n - 1].script);
      var next := RowsAfter(rows, jobs, cfg, n);
      forall k | |rows| <= k < |next|
        ensures FromJob(next[k], jobs, cfg, n)
      {
        if k < |now| {
          assert next[k] == now[k];
        } else {
          assert RowOf(next[k], jobs[n - 1], cfg);
        }
      }
    }
  }

  /** A job's id is not in the table before its turn. */
  lemma StillFresh(rows: Table, now: Table, jobs: seq<Job>, cfg: Config, n: nat)
    requires n < |jobs| && FreshIds(rows, jobs) && Grown(rows, now, jobs, cfg, n)
    ensures !HasId(now, jobs[n].record.id)
  {
    forall k | 0 <= k < |now|
      ensures now[k].id != jobs[n].record.id
    {
      if k < |rows| { assert now[k] == rows[k]; }
    }
  }

  lemma HasIdExtends(rows: Table, more: Table, id: string)
    requires rows <= more && HasId(rows, id)
    ensures HasId(more, id)
  {
    var i :| 0 <= i < |rows| && rows[i].id == id;
    assert more[i].id == id;
  }

  // ----------------------------------------------------------- the exact table

  /** An attempt that is made commits. */
  predicate AnyCommit(s: Script)
    requires s.Complete()
  {
    exists i :: 0 <= i < Attempts(s, 0) && Commits(s, i)
  }

  /** The row a record leaves: it passes both gates, with its identity filled in, and an attempt commits. */
  function Left(job: Job, cfg: Config): Option<CaptureRecord>
    requires job.script.Complete()
  {
    var known := Identified(job.record, job.script);
    if known.Some? && Gated(known.value, cfg) && AnyCommit(job.script) then known else None
  }

  function LeftRows(jobs: seq<Job>, cfg: Config, n: nat): Table
    requires n <= |jobs| && AllComplete(jobs)
    decreases n, 1
  {
    if n == 0 then [] else LeftRowsNext(jobs, cfg, n)
  }

  function LeftRowsNext(jobs: seq<Job>, cfg: Config, n: nat): Table
    requires 0 < n <= |jobs| && AllComplete(jobs)
    decreases n, 0
  {
    LeftRows(jobs, cfg, n - 1) + AsRows(Left(jobs[n - 1], cfg))
  }

  function AsRows(left: Option<CaptureRecord>): Table {
    if left.Some? then [left.value] else []
  }

  /** What storing one record does, for a new id. */
  lemma PersistedExactly(rows: Table, job: Job, cfg: Config)
    requires job.script.Complete() && !HasId(rows, job.record.id)
    ensures var result, left := Persisted(rows, job.record, cfg, job.script), Left(job, cfg);
      && result.rows == (if left.Some? then rows + [left.value] else rows)
      && (left.Some? ==> RowOf(left.value, job, cfg))
      && (result.outcome.Stored? ==> left.Some?)
      && (result.outcome.Filtered? ==> left.None?)
  {
    var known := Identified(job.record, job.script);
    IdentifiedKeepsRest(job.record, job.script);
    if known.Some? && Gated(known.value, cfg) { WriteOnce(rows, known.value, job.script, 0); }
  }

  // ------------------------------------- what a record leaves, in plain words

  /** A user is known if there is an id and it is positive. */
  predicate KnownUser(i: Identity) { i.userId.Some? && i.userId.value > 0 }

  /** The identity is looked up: there is a resolver, and the record does not know its user. */
  predicate Asks(job: Job) { job.script.resolver && !KnownUser(job.record.identity) }

  /** Lookup `k` is the first to answer. */
  predicate FirstAnswer(s: Script, k: nat)
    requires s.Complete()
  {
    k < 3 && s.lookups[k].Some? && forall j :: 0 <= j < k ==> s.lookups[j].None?
  }

  /** A wait is cancelled before any lookup has answered. */
  predicate CutShort(s: Script)
    requires s.Complete()
  {
    exists k :: 0 <= k < 2 && s.lookupCancels[k] && forall j :: 0 <= j <= k ==> s.lookups[j].None?
  }

  /** The identity that the row carries: the first answer if there is one, the record's own otherwise. */
  ghost predicate Carries(job: Job, id: Identity)
    requires job.script.Complete()
  {
    if Asks(job) && exists k: nat :: FirstAnswer(job.script, k)
    then exists k: nat :: FirstAnswer(job.script, k) && job.script.lookups[k] == Some(id)
    else id == job.record.identity
  }

  /** Insert `i` is attempted: none before it succeeded, and no wait before it was cancelled. */
  predicate Reached(s: Script, i: nat)
    requires s.Complete() && i < 3
  {
    forall j :: 0 <= j < i ==> !s.inserts[j].Confirmed? && !s.insertCancels[j]
  }

  /** An attempted insert takes effect, whether or not that is reported. */
  predicate TakesEffect(s: Script)
    requires s.Complete()
  {
    exists i: nat :: i < 3 && Reached(s, i) && (s.inserts[i].Unclear? || s.inserts[i].Confirmed?)
  }

  lemma {:induction false} ResolveExactly(r: CaptureRecord, s: Script, k: nat)
    requires s.Complete() && k <= 3 && forall j :: 0 <= j < k ==> s.lookups[j].None?
    requires forall j :: 0 <= j < k && j < 2 ==> !s.lookupCancels[j]
    ensures Resolve(r, s, k).None? <==> CutShort(s)
    ensures forall i: nat :: FirstAnswer(s, i) && !CutShort(s) ==>
      Resolve(r, s, k) == Some(r.(identity := s.lookups[i].value))
    ensures (forall i: nat :: !FirstAnswer(s, i)) && !CutShort(s) ==> Resolve(r, s, k) == Some(r)
    decreases 3 - k
  {
    if k < 3 {
      if s.lookups[k].Some? {
        assert FirstAnswer(s, k);
      } else if !(k < 2 && s.lookupCancels[k]) {
        ResolveExactly(r, s, k + 1);
      }
    }
  }

  lemma AttemptsExactly(s: Script, k: nat)
    requires s.Complete() && k < 3 && Reached(s, k)
    ensures forall i: nat :: k <= i < 3 ==> (i < Attempts(s, k) <==> Reached(s, i))
    decreases 3 - k
  {
    if !(s.inserts[k].Confirmed? || k == 2 || s.insertCancels[k]) { AttemptsExactly(s, k + 1); }
  }

  lemma IdentifiedCarries(job: Job, id: Identity)
    requires job.script.Complete()
    ensures Identified(job.record, job.script).None? <==> Asks(job) && CutShort(job.script)
    ensures !(Asks(job) && CutShort(job.script)) ==>
      (Identified(job.record, job.script) == Some(job.record.(identity := id)) <==> Carries(job, id))
  {
    ResolveExactly(job.record, job.script, 0);
    if k: nat :| FirstAnswer(job.script, k) {
      assert forall i: nat :: FirstAnswer(job.script, i) ==> i == k;
    }
  }

  /**
   What a record leaves, exactly: a row if the lookups are not cut short, the user of the identity it then carries
   is known or need not be, there is a message or need not be, and an attempted insert takes effect; and
   that row is the record with this identity.
   */
  lemma LeftExactly(job: Job, cfg: Config, id: Identity)
    requires job.script.Complete()
    ensures Left(job, cfg) == Some(job.record.(identity := id))
       <==> && !(Asks(job) && CutShort(job.script)) && Carries(job, id)
            && (KnownUser(id) || cfg.allowUnknownIdentity)
            && (job.record.messageCount > 0 || cfg.captureEmptyPrompts)
            && TakesEffect(job.script)
    ensures Left(job, cfg).Some? ==> Left(job, cfg).value == job.record.(identity := Left(job, cfg).value.identity)
  {
    IdentifiedCarries(job, id);
    IdentifiedKeepsRest(job.record, job.script);
    CommitTakesEffect(job.script);
  }

  lemma CommitTakesEffect(s: Script)
    requires s.Complete()
    ensures AnyCommit(s) <==> TakesEffect(s)
  {
    AttemptsExactly(s, 0);
    if i :| 0 <= i < Attempts(s, 0) && Commits(s, i) { assert Reached(s, i); }
    if i: nat :| i < 3 && Reached(s, i) && (s.inserts[i].Unclear? || s.inserts[i].Confirmed?) {
      assert i < Attempts(s, 0) && Commits(s, i);
    }
  }

  lemma NextRow(rows: Table, jobs: seq<Job>, cfg: Config, n: nat, now: Table, next: Table)
    requires n < |jobs| && AllComplete(jobs) && FreshIds(rows, jobs) && UniqueIds(rows)
    requires now == RowsAfter(rows, jobs, cfg, n) && next == RowsAfter(rows, jobs, cfg, n + 1)
    ensures next == now + AsRows(Left(jobs[n], cfg))
  {
    RunGrows(rows, jobs, cfg, n);
    StillFresh(rows, now, jobs, cfg, n);
    PersistedExactly(now, jobs[n], cfg);
    assert now + [] == now;
  }

  lemma NextLeft(jobs: seq<Job>, cfg: Config, n: nat)
    requires n < |jobs| && AllComplete(jobs)
    ensures LeftRows(jobs, cfg, n + 1) == LeftRows(jobs, cfg, n) + AsRows(Left(jobs[n], cfg))
  {
    assert LeftRows(jobs, cfg, n + 1) == LeftRowsNext(jobs, cfg, n + 1);
  }

  lemma SameGrowth(rows: Table, more: Table, added: Table, now: Table, next: Table)
    requires now == rows + more && next == now + added
    ensures next == rows + (more + added)
  {
  }

  /** The table is the old one followed, in order, by the rows that the records leave. */
  lemma {:induction false} ExactTable(rows: Table, jobs: seq<Job>, cfg: Config, n: nat, now: Table, left: Table)
    requires n <= |jobs| && AllComplete(jobs) && FreshIds(rows, jobs) && UniqueIds(rows)
    requires now == RowsAfter(rows, jobs, cfg, n) && left == LeftRows(jobs, cfg, n)
    ensures now == rows + left
    decreases n
  {
    if n == 0 {
      assert rows + [] == rows;
    } else {
      var before, more := RowsAfter(rows, jobs, cfg, n - 1), LeftRows(jobs, cfg, n - 1);
      ExactTable(rows, jobs, cfg, n - 1, before, more);
      NextRow(rows, jobs, cfg, n - 1, before, now);
      NextLeft(jobs, cfg, n - 1);
      SameGrowth(rows, more, AsRows(Left(jobs[n - 1], cfg)), before, now);
    }
  }

  lemma LeftKeepsId(job: Job, cfg: Config)
    requires job.script.Complete()
    ensures Left(job, cfg).Some? ==> Left(job, cfg).value.id == job.record.id
  {
    IdentifiedKeepsRest(job.record, job.script);
  }

  lemma HasIdAdded(rows: Table, left: Option<CaptureRecord>, id: string)
    ensures HasId(rows + AsRows(left), id) <==> HasId(rows, id) || (left.Some? && left.value.id == id)
  {
    if left.Some? { HasIdAppended(rows, left.value, id); } else { assert rows + [] == rows; }
  }

  lemma {:induction false} LeftRowsHave(jobs: seq<Job>, cfg: Config, n: nat, i: nat)
    requires n <= |jobs| && i < |jobs| && AllComplete(jobs)
    requires forall j, k :: 0 <= j < k < |jobs| ==> jobs[j].record.id != jobs[k].record.id
    ensures HasId(LeftRows(jobs, cfg, n), jobs[i].record.id) <==> i < n && Left(jobs[i], cfg).Some?
  {
    if n > 0 {
      LeftRowsHave(jobs, cfg, n - 1, i);
      NextLeft(jobs, cfg, n - 1);
      LeftKeepsId(jobs[n - 1], cfg);
      HasIdAdded(LeftRows(jobs, cfg, n - 1), Left(jobs[n - 1], cfg), jobs[i].record.id);
    }
  }

  lemma HasIdAppended(rows: Table, r: CaptureRecord, id: string)
    ensures HasId(rows + [r], id) <==> HasId(rows, id) || r.id == id
  {
    if HasId(rows, id) { HasIdExtends(rows, rows + [r], id); }
    AppendedHasId(rows, r);
    if HasId(rows + [r], id) && r.id != id {
      var k :| 0 <= k < |rows + [r]| && (rows + [r])[k].id == id;
      assert rows[k].id == id;
    }
  }

  lemma {:induction false} HasIdJoined(rows: Table, more: Table, id: string)
    ensures HasId(rows + more, id) <==> HasId(rows, id) || HasId(more, id)
  {
    if more == [] {
      assert rows + more == rows;
    } else {
      var front, last := more[..|more| - 1], more[|more| - 1];
      HasIdJoined(rows, front, id);
      HasIdAppended(front, last, id);
      HasIdAppended(rows + front, last, id);
      assert front + [last] == more && rows + front + [last] == rows + more;
    }
  }

  /** What the outcome of a record says about its row. */
  lemma OutcomeMeans(rows: Table, jobs: seq<Job>, cfg: Config, i: nat)
    requires i < |jobs| && AllComplete(jobs) && FreshIds(rows, jobs) && UniqueIds(rows)
    ensures var outcome := OutcomeAt(rows, jobs, cfg, i);
      (outcome.Stored? ==> Left(jobs[i], cfg).Some?) && (outcome.Filtered? ==> Left(jobs[i], cfg).None?)
  {
    RunGrows(rows, jobs, cfg, i);
    StillFresh(rows, RowsAfter(rows, jobs, cfg, i), jobs, cfg, i);
    PersistedExactly(RowsAfter(rows, jobs, cfg, i), jobs[i], cfg);
  }

  /** The row of a record is there exactly if the record leaves one. */
  predicate RowsExactly(start: Table, jobs: seq<Job>, cfg: Config, rows: Table)
    requires AllComplete(jobs)
  {
    && rows == start + LeftRows(jobs, cfg, |jobs|)
    && forall i :: 0 <= i < |jobs| ==> (HasId(rows, jobs[i].record.id) <==> Left(jobs[i], cfg).Some?)
  }

  lemma TableIsExact(start: Table, jobs: seq<Job>, cfg: Config)
    requires AllComplete(jobs) && FreshIds(start, jobs) && UniqueIds(start)
    ensures RowsExactly(start, jobs, cfg, RowsAfter(start, jobs, cfg, |jobs|))
  {
    var more := LeftRows(jobs, cfg, |jobs|);
    ExactTable(start, jobs, cfg, |jobs|, RowsAfter(start, jobs, cfg, |jobs|), more);
    forall i | 0 <= i < |jobs|
      ensures HasId(start + more, jobs[i].record.id) <==> Left(jobs[i], cfg).Some?
    {
      LeftRowsHave(jobs, cfg, |jobs|, i);
      HasIdJoined(start, more, jobs[i].record.id);
    }
  }

  /**
   At-most-once storage over every run of the worker, whatever commits and whatever is reported: the table is
   the old one followed, in order, by the records that pass both gates and have an attempt that commits;
   ids stay unique and message counts right; a record reported as stored is there, a filtered one is not.
   */
  lemma StoredAtMostOnce(start: Table, jobs: seq<Job>, cfg: Config, rows: Table, outcomes: seq<Outcome>)
    requires Ran(start, jobs, cfg, rows, outcomes) && FreshIds(start, jobs) && UniqueIds(start)
    requires forall i :: 0 <= i < |jobs| ==> jobs[i].record.messageCount == |jobs[i].record.messages|
    ensures RowsExactly(start, jobs, cfg, rows) && UniqueIds(rows)
    ensures forall k :: |start| <= k < |rows| ==>
      FromJob(rows[k], jobs, cfg, |jobs|) && rows[k].messageCount == |rows[k].messages|
    ensures forall i :: 0 <= i < |jobs| && outcomes[i].Stored? ==> HasId(rows, jobs[i].record.id)
    ensures forall i :: 0 <= i < |jobs| && outcomes[i].Filtered? ==> !HasId(rows, jobs[i].record.id)
  {
    TableIsExact(start, jobs, cfg);
    RunGrows(start, jobs, cfg, |jobs|);
    assert Grown(start, rows, jobs, cfg, |jobs|);
    forall k | |start| <= k < |rows|
      ensures FromJob(rows[k], jobs, cfg, |jobs|) && rows[k].messageCount == |rows[k].messages|
    {
      var i := JobOf(rows[k], jobs, cfg, |jobs|);
      assert rows[k].messages == jobs[i].record.messages;
    }
    forall i | 0 <= i < |jobs|
      ensures outcomes[i].Stored? ==> HasId(rows, jobs[i].record.id)
      ensures outcomes[i].Filtered? ==> !HasId(rows, jobs[i].record.id)
    {
      OutcomeMeans(start, jobs, cfg, i);
    }
  }

  /** An unclear commit ends as a reported failure although the row is there. */
  lemma FailureMayBeStored(r: CaptureRecord, cfg: Config)
    requires r.identity.Resolved() && r.messageCount > 0
    ensures var s := Script(false, [None, None, None], [false, false], [Unclear, Unclear, Confirmed], [false, false]);
      Persisted([], r, cfg, s) == Result([r], Failed)
  {
    var s := Script(false, [None, None, None], [false, false], [Unclear, Unclear, Confirmed], [false, false]);
    AppendedHasId([], r);
    assert Write([], r, s, 0) == Write([r], r, s, 1) == Write([r], r, s, 2);
  }
}
