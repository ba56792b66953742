/**
 Lazy schema initialisation with backoff (store.go:356-382).

 `EnsureSchema` runs under a mutex, so calls are serialised; a run is the sequence of calls with
 the clock readings they make and what the database answers if it is contacted.
 */
module Schema {
  import opened Common

  datatype Failure = PingFailure(code: int) | InitFailure(code: int)

  /** One call: the clock on entry, the two answers (None is success), and the clock after a failure. */
  datatype Attempt = Attempt(now: int, ping: Option<int>, init: Option<int>, later: int) {
    function Failed(): Option<Failure> {
      if ping.Some? then Some(PingFailure(ping.value))
      else if init.Some? then Some(InitFailure(init.value))
      else None
    }
  }

  datatype Gate = Gate(ready: bool, nextTry: Option<int>, lastError: Option<Failure>)

  const BACKOFF := 5000   // milliseconds

  const CLOSED := Gate(false, None, None)

  predicate Contacts(g: Gate, a: Attempt) {
    !g.ready && !(g.nextTry.Some? && a.now < g.nextTry.value && g.lastError.Some?)
  }

  function After(g: Gate, a: Attempt): Gate {
    if !Contacts(g, a) then g
    else if a.Failed().Some? then Gate(false, Some(a.later + BACKOFF), a.Failed())
    else Gate(true, None, None)
  }

  /** What the caller gets: None is a nil error. */
  function Answer(g: Gate, a: Attempt): Option<Failure> {
    if g.ready then None else if Contacts(g, a) then a.Failed() else g.lastError
  }

  class SchemaGate {
    var schemaReady: bool
    var nextSchemaTry: Option<int>
    var lastSchemaErr: Option<Failure>

    ghost function Value(): Gate
      reads this
    {
      Gate(schemaReady, nextSchemaTry, lastSchemaErr)
    }

    constructor ()
      ensures Value() == CLOSED
    {
      schemaReady, nextSchemaTry, lastSchemaErr := false, None, None;
    }

    method EnsureSchema(a: Attempt) returns (err: Option<Failure>, contacted: bool)
      modifies this
      ensures Value() == After(old(Value()), a)
      ensures err == Answer(old(Value()), a)
      ensures contacted <==> Contacts(old(Value()), a)
    {
      if schemaReady {
        return None, false;
      }
      if nextSchemaTry.Some? && a.now < nextSchemaTry.value && lastSchemaErr.Some? {
        return lastSchemaErr, false;
      }
      if a.ping.Some? {
        lastSchemaErr := Some(PingFailure(a.ping.value));
        nextSchemaTry := Some(a.later + BACKOFF);
        return lastSchemaErr, true;
      }
      if a.init.Some? {
        lastSchemaErr := Some(InitFailure(a.init.value));
        nextSchemaTry := Some(a.later + BACKOFF);
        return lastSchemaErr, true;
      }
      schemaReady := true;
      lastSchemaErr := None;
      nextSchemaTry := None;
      return None, true;
    }
  }

  // -------------------------------------------------------------- whole runs

  /** The gate before the k-th call of a run that starts with a new store. */
  function Before(run: seq<Attempt>, k: nat): Gate
    requires k <= |run|
  {
    if k == 0 then CLOSED else After(Before(run, k - 1), run[k - 1])
  }

  predicate ContactAt(run: seq<Attempt>, k: nat)
    requires k < |run|
  {
    Contacts(Before(run, k), run[k])
  }

  function AnswerAt(run: seq<Attempt>, k: nat): Option<Failure>
    requires k < |run|
  {
    Answer(Before(run, k), run[k])
  }

  /** The clock never goes back, within a call or between calls. */
  predicate Clocked(run: seq<Attempt>) {
    && (forall i :: 0 <= i < |run| ==> run[i].now <= run[i].later)
    && (forall i, j :: 0 <= i < j < |run| ==> run[i].later <= run[j].now)
  }

  /** The last call before the k-th that contacted the database. */
  function LastContact(run: seq<Attempt>, k: nat): (r: Option<nat>)
    requires k <= |run|
    ensures r.Some? ==> r.value < k && ContactAt(run, r.value)
    ensures forall i: nat :: (if r.Some? then r.value < i else true) && i < k ==> !ContactAt(run, i)
  {
    if k == 0 then None else if ContactAt(run, k - 1) then Some(k - 1) else LastContact(run, k - 1)
  }

  /** The gate remembers the last contact and nothing else. */
  lemma {:induction false} GateIsLastContact(run: seq<Attempt>, k: nat)
    requires k <= |run|
    ensures var c := LastContact(run, k);
      Before(run, k) ==
        if c.None? then CLOSED
        else if run[c.value].Failed().Some? then Gate(false, Some(run[c.value].later + BACKOFF), run[c.value].Failed())
        else Gate(true, None, None)
  {
    if k > 0 { GateIsLastContact(run, k - 1); }
  }

  /**
   A call contacts the database exactly when no call has done so before, or the last one that did
   failed at least five seconds earlier; otherwise it answers as that last contact did.
   */
  lemma ContactExactly(run: seq<Attempt>, k: nat)
    requires k < |run|
    ensures var c := LastContact(run, k);
      && (ContactAt(run, k) <==>
            || c.None?
            || ((run[c.value].ping.Some? || run[c.value].init.Some?) && run[c.value].later + 5_000 <= run[k].now))
      && (!ContactAt(run, k) ==> AnswerAt(run, k) == run[c.value].Failed())
  {
    GateIsLastContact(run, k);
  }

  /** Backoff: after a failed contact, no contact starts within five seconds. */
  lemma {:induction false} ContactsAreSpaced(run: seq<Attempt>, i: nat, j: nat)
    requires Clocked(run) && i < j < |run|
    requires ContactAt(run, i) && run[i].Failed().Some? && ContactAt(run, j)
    ensures run[i].later + BACKOFF <= run[j].now
    decreases j
  {
    ContactExactly(run, j);
    var c := LastContact(run, j).value;
    if c != i {
      ContactsAreSpaced(run, i, c);
    }
  }

  /** One success is final: every later call succeeds without a contact. */
  lemma {:induction false} SuccessIsFinal(run: seq<Attempt>, i: nat, j: nat)
    requires i < j < |run| && ContactAt(run, i) && run[i].Failed().None?
    ensures !ContactAt(run, j) && AnswerAt(run, j) == None
    decreases j
  {
    ContactExactly(run, j);
    var c := LastContact(run, j).value;
    if i < c { SuccessIsFinal(run, i, c); }
  }

  /**
   One outage costs one contact per window: every call after a failed contact that starts inside its
   window, such as the retries of one record, gets that failure back and contacts nothing.
   */
  lemma {:induction false} RetriesShareOneContact(run: seq<Attempt>, i: nat, j: nat)
    requires Clocked(run) && i < j < |run|
    requires ContactAt(run, i) && run[i].Failed().Some? && run[j].now < run[i].later + BACKOFF
    ensures forall k: nat :: i < k <= j ==> !ContactAt(run, k) && AnswerAt(run, k) == run[i].Failed()
  {
    forall k: nat | i < k <= j
      ensures !ContactAt(run, k) && AnswerAt(run, k) == run[i].Failed()
    {
      NoContactBetween(run, i, k);
    }
  }

  lemma {:induction false} NoContactBetween(run: seq<Attempt>, i: nat, k: nat)
    requires Clocked(run) && i < k < |run|
    requires ContactAt(run, i) && run[i].Failed().Some? && run[k].now < run[i].later + BACKOFF
    ensures !ContactAt(run, k) && AnswerAt(run, k) == run[i].Failed()
    decreases k
  {
    ContactExactly(run, k);
    var c := LastContact(run, k).value;
    if c != i { NoContactBetween(run, i, c); }
  }
}
