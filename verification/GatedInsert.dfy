/**
 Inserts behind the schema gate (store.go:67-70, queue.go:88-104): every attempt first asks `EnsureSchema`, and
 nothing is sent when that fails.
 */
module GatedInsert {
  import opened Common
  import opened Model
  import S = Schema
  import P = Persist

  /** One attempt: what the gate would meet, and the fate of the statement if it is sent. */
  datatype Try = Try(schema: S.Attempt, fate: P.InsertFate)

  const ATTEMPTS := 3

  /** The attempts at one record, and at which waits between them the context is cancelled. */
  datatype Tries = Tries(tries: seq<Try>, cancels: seq<bool>) {
    predicate Complete() {
      |tries| == ATTEMPTS && |cancels| == ATTEMPTS - 1
    }
  }

  /** No statement is sent exactly when the gate answers with an error. */
  function FateOf(g: S.Gate, t: Try): P.InsertFate {
    if S.Answer(g, t.schema).Some? then P.NotSent else t.fate
  }

  datatype Done = Done(gate: S.Gate, result: P.Result, contacts: nat)

  /** The attempts from attempt `k` on; `made` counts the contacts made before for the sake of the schema. */
  function Write(g: S.Gate, rows: P.Table, r: CaptureRecord, a: Tries, k: nat, made: nat): Done
    requires a.Complete() && k < ATTEMPTS
    decreases ATTEMPTS - k, 1
  {
    var t := a.tries[k];
    var fate, after, contacts := FateOf(g, t), S.After(g, t.schema), made + Once(S.Contacts(g, t.schema));
    var next := P.Inserted(rows, r, fate);
    if P.Reported(rows, r, fate) then Done(after, P.Result(next, P.Stored), contacts)
    else WriteOn(after, next, r, a, k, contacts)
  }

  /** What follows attempt `k` when it was not reported as a success. */
  function WriteOn(g: S.Gate, rows: P.Table, r: CaptureRecord, a: Tries, k: nat, made: nat): Done
    requires a.Complete() && k < ATTEMPTS
    decreases ATTEMPTS - k, 0
  {
    if k == ATTEMPTS - 1 then Done(g, P.Result(rows, P.Failed), made)
    else if a.cancels[k] then Done(g, P.Result(rows, P.Abandoned), made)
    else Write(g, rows, r, a, k + 1, made)
  }

  class GatedStore {
    const gate: S.SchemaGate
    var rows: P.Table

    constructor (gate: S.SchemaGate)
      ensures this.gate == gate && rows == []
    {
      this.gate, rows := gate, [];
    }

    method Insert(r: CaptureRecord, t: Try) returns (ok: bool, contacted: bool)
      modifies this, gate
      ensures rows == P.Inserted(old(rows), r, FateOf(old(gate.Value()), t))
      ensures ok <==> P.Reported(old(rows), r, FateOf(old(gate.Value()), t))
      ensures gate.Value() == S.After(old(gate.Value()), t.schema)
      ensures contacted <==> S.Contacts(old(gate.Value()), t.schema)
    {
      var err;
      err, contacted := gate.EnsureSchema(t.schema);
      if err.Some? {
        return false, contacted;
      }
      if t.fate.NotSent? || t.fate.Refused? || P.HasId(rows, r.id) {
        return false, contacted;
      }
      rows := rows + [r];
      return t.fate.Confirmed?, contacted;
    }

    method WriteWithRetries(r: CaptureRecord, a: Tries) returns (outcome: P.Outcome, contacts: nat)
      requires a.Complete()
      modifies this, gate
      ensures Done(gate.Value(), P.Result(rows, outcome), contacts) == Write(old(gate.Value()), old(rows), r, a, 0, 0)
    {
      var attempt := 0;
      contacts := 0;
      while true
        invariant 0 <= attempt < ATTEMPTS
        invariant Write(old(gate.Value()), old(rows), r, a, 0, 0) == Write(gate.Value(), rows, r, a, attempt, contacts)
        decreases ATTEMPTS - attempt
      {
        var ok, contacted := Insert(r, a.tries[attempt]);
        contacts := contacts + Once(contacted);
        if ok {
          return P.Stored, contacts;
        }
        assert Write(old(gate.Value()), old(rows), r, a, 0, 0) == WriteOn(gate.Value(), rows, r, a, attempt, contacts);
        if attempt == ATTEMPTS - 1 {
          return P.Failed, contacts;
        }
        if a.cancels[attempt] {
          return P.Abandoned, contacts;
        }
        attempt := attempt + 1;
      }
    }
  }

  // ------------------------------------------------ the same as without a gate

  function GateAt(g: S.Gate, a: Tries, k: nat): S.Gate
    requires a.Complete() && k <= ATTEMPTS
  {
    if k == 0 then g else S.After(GateAt(g, a, k - 1), a.tries[k - 1].schema)
  }

  /** The script in which every insert meets the fate that the gate leaves it. */
  function Behind(s: P.Script, g: S.Gate, a: Tries): (r: P.Script)
    requires s.Complete() && a.Complete()
    ensures r.Complete()
  {
    s.(inserts := seq(ATTEMPTS, k requires 0 <= k < ATTEMPTS => FateOf(GateAt(g, a, k), a.tries[k])),
       insertCancels := a.cancels)
  }

  predicate Meets(script: P.Script, g: S.Gate, a: Tries) {
    && script.Complete() && a.Complete() && script.insertCancels == a.cancels
    && forall k: nat :: k < ATTEMPTS ==> script.inserts[k] == FateOf(GateAt(g, a, k), a.tries[k])
  }

  lemma {:induction false} SameAsScript(script: P.Script, g: S.Gate, now: S.Gate, rows: P.Table, r: CaptureRecord,
                                        a: Tries, k: nat, made: nat)
    requires Meets(script, g, a) && k < ATTEMPTS && now == GateAt(g, a, k)
    ensures Write(now, rows, r, a, k, made).result == P.Write(rows, r, script, k)
    decreases ATTEMPTS - k
  {
    var t, fate := a.tries[k], FateOf(now, a.tries[k]);
    var next, after := P.Inserted(rows, r, fate), S.After(now, t.schema);
    var contacts := made + Once(S.Contacts(now, t.schema));
    assert script.inserts[k] == fate;
    if k < ATTEMPTS - 1 {
      assert GateAt(g, a, k + 1) == after;
      SameAsScript(script, g, after, next, r, a, k + 1, contacts);
    }
  }

  /**
   Behind the gate a record meets exactly what the worker's retries do with the fates that the gate leaves;
   what is proved of these therefore holds of the store with its gate.
   */
  lemma GateOnlyWithholds(s: P.Script, g: S.Gate, rows: P.Table, r: CaptureRecord, a: Tries)
    requires s.Complete() && a.Complete()
    ensures Write(g, rows, r, a, 0, 0).result == P.Write(rows, r, Behind(s, g, a), 0)
  {
    assert Meets(Behind(s, g, a), g, a);
    SameAsScript(Behind(s, g, a), g, g, rows, r, a, 0, 0);
  }

  // -------------------------------------------------------------- one outage

  /** The gate after a contact that failed at the first attempt. */
  predicate ShutBy(g: S.Gate, t: Try) {
    !g.ready && g.nextTry == Some(t.schema.later + S.BACKOFF) && g.lastError == t.schema.Failed() && g.lastError.Some?
  }

  predicate InWindow(t: Try, first: Try) {
    t.schema.now < first.schema.later + S.BACKOFF
  }

  lemma {:induction false} NothingPassesTheGate(g: S.Gate, rows: P.Table, r: CaptureRecord, a: Tries, k: nat, made: nat)
    requires a.Complete() && k < ATTEMPTS && ShutBy(g, a.tries[0])
    requires forall j :: k <= j < ATTEMPTS ==> InWindow(a.tries[j], a.tries[0])
    ensures var d := Write(g, rows, r, a, k, made);
      && d.gate == g && d.contacts == made && d.result.rows == rows
      && d.result.outcome == if exists j :: k <= j < ATTEMPTS - 1 && a.cancels[j] then P.Abandoned else P.Failed
    decreases ATTEMPTS - k
  {
    assert FateOf(g, a.tries[k]).NotSent? && S.After(g, a.tries[k].schema) == g;
    if k < ATTEMPTS - 1 && !a.cancels[k] { NothingPassesTheGate(g, rows, r, a, k + 1, made); }
  }

  /**
   One outage costs one contact per record: if the first attempt contacts the database and fails, and the
   others start within its five seconds, the whole retry loop makes exactly one contact, changes no row, and
   ends as failed, or as abandoned if a wait is cancelled.
   */
  lemma OutageCostsOneContact(g: S.Gate, rows: P.Table, r: CaptureRecord, a: Tries)
    requires a.Complete() && S.Contacts(g, a.tries[0].schema) && a.tries[0].schema.Failed().Some?
    requires forall j :: 1 <= j < ATTEMPTS ==> InWindow(a.tries[j], a.tries[0])
    ensures var d := Write(g, rows, r, a, 0, 0);
      && d.contacts == 1 && d.result.rows == rows
      && d.result.outcome == if exists j :: 0 <= j < ATTEMPTS - 1 && a.cancels[j] then P.Abandoned else P.Failed
  {
    var after := S.After(g, a.tries[0].schema);
    assert ShutBy(after, a.tries[0]) && FateOf(g, a.tries[0]).NotSent?;
    if !a.cancels[0] { NothingPassesTheGate(after, rows, r, a, 1, 1); }
  }
}
