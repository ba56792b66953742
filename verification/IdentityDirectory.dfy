/**
 The fingerprint-keyed identity directory (identity.go:88-152): refreshes build a new index from rows
 and swap it in; lookups read whatever index is current.
 */
module IdentityDirectory {
  import opened Common
  import opened Text
  import opened Model

  /** One row of the key query; keys are raw here and only their fingerprints are kept. */
  datatype KeyRow = KeyRow(key: string, keyId: int, userId: int, name: string, username: string, email: string)

  type Index = map<string, Identity>

  function IdentityOf(row: KeyRow): Identity {
    Identity(Some(row.userId), row.username, row.email, Some(row.keyId), row.name, "api_key_map")
  }

  /** The index built from the first `n` rows. */
  function IndexOf(rows: seq<KeyRow>, n: nat, fingerprint: string -> string): Index
    requires n <= |rows|
  {
    if n == 0 then map[]
    else IndexOf(rows, n - 1, fingerprint)[fingerprint(rows[n - 1].key) := IdentityOf(rows[n - 1])]
  }

  /** A scan for the last row with this key: what the index stands for. */
  function LastWith(rows: seq<KeyRow>, n: nat, key: string): Option<KeyRow>
    requires n <= |rows|
  {
    if n == 0 then None else if rows[n - 1].key == key then Some(rows[n - 1]) else LastWith(rows, n - 1, key)
  }

  function Found(index: Index, key: string, fingerprint: string -> string): Identity {
    if Trim(key) == "" || fingerprint(key) !in index then UNKNOWN_IDENTITY else index[fingerprint(key)]
  }

  function Scanned(rows: seq<KeyRow>, key: string): Identity {
    var row := LastWith(rows, |rows|, key);
    if Trim(key) == "" || row.None? then UNKNOWN_IDENTITY else IdentityOf(row.value)
  }

  lemma {:induction false} IndexIsScan(rows: seq<KeyRow>, n: nat, key: string, fingerprint: string -> string)
    requires n <= |rows| && Injective(fingerprint)
    ensures var index, row := IndexOf(rows, n, fingerprint), LastWith(rows, n, key);
      if row.Some? then fingerprint(key) in index && index[fingerprint(key)] == IdentityOf(row.value)
      else fingerprint(key) !in index
  {
    if n > 0 { IndexIsScan(rows, n - 1, key, fingerprint); }
  }

  /** Row `i` is the last with this key. */
  predicate LastRow(rows: seq<KeyRow>, key: string, i: nat) {
    i < |rows| && rows[i].key == key && forall j :: i < j < |rows| ==> rows[j].key != key
  }

  lemma {:induction false} ScanFindsLast(rows: seq<KeyRow>, n: nat, key: string, i: nat)
    requires n <= |rows| && i < n && rows[i].key == key && forall j :: i < j < n ==> rows[j].key != key
    ensures LastWith(rows, n, key) == Some(rows[i])
  {
    if i < n - 1 { ScanFindsLast(rows, n - 1, key, i); }
  }

  lemma {:induction false} ScanFindsNone(rows: seq<KeyRow>, n: nat, key: string)
    requires n <= |rows| && forall j :: 0 <= j < n ==> rows[j].key != key
    ensures LastWith(rows, n, key).None?
  {
    if n > 0 { ScanFindsNone(rows, n - 1, key); }
  }

  /** The index answers every key as a scan of the rows would. */
  lemma LookupIsScan(rows: seq<KeyRow>, key: string, fingerprint: string -> string)
    requires Injective(fingerprint)
    ensures Found(IndexOf(rows, |rows|, fingerprint), key, fingerprint) == Scanned(rows, key)
  {
    IndexIsScan(rows, |rows|, key, fingerprint);
  }

  /** What the database does during one refresh: answers of the two queries, and where the rows break off. */
  datatype Answer = Answer(query: Option<seq<KeyRow>>, fallback: Option<seq<KeyRow>>, breaksAt: Option<nat>)

  class IdentityResolver {
    const connected: bool
    const fingerprint: string -> string
    var entries: Index

    constructor (connected: bool, fingerprint: string -> string)
      ensures this.connected == connected && this.fingerprint == fingerprint && entries == map[]
    {
      this.connected, this.fingerprint, entries := connected, fingerprint, map[];
    }

    /** A refresh that completes installs the index of its rows; one that fails changes nothing. */
    method Refresh(a: Answer) returns (ok: bool)
      modifies this
      ensures var rows := if a.query.Some? then a.query else a.fallback;
        var whole := rows.Some? && (a.breaksAt.None? || a.breaksAt.value > |rows.value|);
        && (ok <==> !connected || whole)
        && entries == if connected && whole then IndexOf(rows.value, |rows.value|, fingerprint) else old(entries)
    {
      if !connected {
        return true;
      }
      var answer := a.query;
      if answer.None? {
        answer := a.fallback;
      }
      if answer.None? {
        return false;
      }
      var rows := answer.value;
      var next: Index := map[];
      for i := 0 to |rows|
        invariant next == IndexOf(rows, i, fingerprint) && entries == old(entries)
        invariant a.breaksAt.Some? ==> i <= a.breaksAt.value
      {
        if a.breaksAt == Some(i) {
          return false;
        }
        next := next[fingerprint(rows[i].key) := IdentityOf(rows[i])];
      }
      if a.breaksAt == Some(|rows|) {
        return false;
      }
      entries := next;
      return true;
    }

    method Lookup(apiKey: string) returns (identity: Identity)
      ensures identity == Found(entries, apiKey, fingerprint)
    {
      if Trim(apiKey) == "" {
        return UNKNOWN_IDENTITY;
      }
      var key := fingerprint(apiKey);
      if key !in entries {
        return UNKNOWN_IDENTITY;
      }
      return entries[key];
    }
  }

  // ----------------------------------------------------- concurrent refreshes

  /** A refresh under way: its rows, how many are read, and the index so far. */
  datatype Refreshing = Refreshing(rows: seq<KeyRow>, read: nat, next: Index)

  /** `latest` records, for reasoning, the rows of the refresh that was swapped in last. */
  datatype State = State(entries: Index, refreshes: map<nat, Refreshing>, latest: seq<KeyRow>)

  datatype Step =
    | Begin(id: nat, rows: seq<KeyRow>)
    | ReadRow(id: nat)
    | Abort(id: nat)
    | Swap(id: nat)
    | Look(key: string)

  predicate Enabled(s: State, step: Step) {
    match step
    case Begin(id, _) => id !in s.refreshes
    case ReadRow(id) => id in s.refreshes && s.refreshes[id].read < |s.refreshes[id].rows|
    case Abort(id) => id in s.refreshes
    case Swap(id) => id in s.refreshes && s.refreshes[id].read == |s.refreshes[id].rows|
    case Look(_) => true
  }

  function Next(s: State, step: Step, fingerprint: string -> string): State
    requires Enabled(s, step)
  {
    match step
    case Begin(id, rows) => s.(refreshes := s.refreshes[id := Refreshing(rows, 0, map[])])
    case ReadRow(id) =>
      s.(refreshes := s.refreshes[id := WithRow(s.refreshes[id], fingerprint)])
    case Abort(id) => s.(refreshes := s.refreshes - {id})
    case Swap(id) =>
      State(s.refreshes[id].next, s.refreshes - {id}, s.refreshes[id].rows)
    case Look(_) => s
  }

  predicate Run(s: State, steps: seq<Step>, fingerprint: string -> string)
    decreases |steps|
  {
    steps == [] || (Enabled(s, steps[0]) && Run(Next(s, steps[0], fingerprint), steps[1..], fingerprint))
  }

  function After(s: State, steps: seq<Step>, fingerprint: string -> string): State
    requires Run(s, steps, fingerprint)
    decreases |steps|
  {
    if steps == [] then s else After(Next(s, steps[0], fingerprint), steps[1..], fingerprint)
  }

  const EMPTY := State(map[], map[], [])

  /** The rows with which refresh `id` began last. */
  function RowsOf(steps: seq<Step>, id: nat): seq<KeyRow> {
    if steps == [] then []
    else
      var front, last := steps[..|steps| - 1], steps[|steps| - 1];
      if last.Begin? && last.id == id then last.rows else RowsOf(front, id)
  }

  /** The rows of the refresh that was swapped in last, by the steps alone. */
  function LatestCompleted(steps: seq<Step>): seq<KeyRow> {
    if steps == [] then []
    else
      var front, last := steps[..|steps| - 1], steps[|steps| - 1];
      if last.Swap? then RowsOf(front, last.id) else LatestCompleted(front)
  }

  predicate Inv(s: State, fingerprint: string -> string) {
    && s.entries == IndexOf(s.latest, |s.latest|, fingerprint)
    && forall id :: id in s.refreshes ==> UpToDate(s.refreshes[id], fingerprint)
  }

  /** A refresh has indexed the rows it has read. */
  predicate UpToDate(r: Refreshing, fingerprint: string -> string) {
    r.read <= |r.rows| && r.next == IndexOf(r.rows, r.read, fingerprint)
  }

  function WithRow(r: Refreshing, fingerprint: string -> string): Refreshing
    requires r.read < |r.rows|
  {
    Refreshing(r.rows, r.read + 1, r.next[fingerprint(r.rows[r.read].key) := IdentityOf(r.rows[r.read])])
  }

  lemma RowKeepsUp(r: Refreshing, fingerprint: string -> string)
    requires UpToDate(r, fingerprint) && r.read < |r.rows|
    ensures UpToDate(WithRow(r, fingerprint), fingerprint)
  {
  }

  lemma ReadStep(s: State, id: nat, fingerprint: string -> string)
    requires Inv(s, fingerprint) && Enabled(s, ReadRow(id))
    ensures Inv(Next(s, ReadRow(id), fingerprint), fingerprint)
  {
    var t, r := Next(s, ReadRow(id), fingerprint), s.refreshes[id];
    RowKeepsUp(r, fingerprint);
    forall k | k in t.refreshes
      ensures UpToDate(t.refreshes[k], fingerprint)
    {
      if k == id {
        assert t.refreshes[k] == WithRow(r, fingerprint);
      } else {
        assert t.refreshes[k] == s.refreshes[k];
      }
    }
  }

  lemma OtherStep(s: State, step: Step, fingerprint: string -> string)
    requires Inv(s, fingerprint) && Enabled(s, step) && !step.ReadRow?
    ensures Inv(Next(s, step, fingerprint), fingerprint)
  {
    if step.Begin? { assert IndexOf(step.rows, 0, fingerprint) == map[]; }
  }

  lemma InvStep(s: State, step: Step, fingerprint: string -> string)
    requires Inv(s, fingerprint) && Enabled(s, step)
    ensures Inv(Next(s, step, fingerprint), fingerprint)
  {
    if step.ReadRow? { ReadStep(s, step.id, fingerprint); } else { OtherStep(s, step, fingerprint); }
  }

  lemma {:induction false} InvRun(s: State, steps: seq<Step>, fingerprint: string -> string)
    requires Inv(s, fingerprint) && Run(s, steps, fingerprint)
    ensures Inv(After(s, steps, fingerprint), fingerprint)
    decreases |steps|
  {
    if steps != [] {
      InvStep(s, steps[0], fingerprint);
      InvRun(Next(s, steps[0], fingerprint), steps[1..], fingerprint);
    }
  }

  /** A run is its front followed by its last step. */
  lemma {:induction false} RunFront(s: State, steps: seq<Step>, fingerprint: string -> string)
    requires Run(s, steps, fingerprint) && steps != []
    ensures var front, last := steps[..|steps| - 1], steps[|steps| - 1];
      && Run(s, front, fingerprint) && Enabled(After(s, front, fingerprint), last)
      && After(s, steps, fingerprint) == Next(After(s, front, fingerprint), last, fingerprint)
    decreases |steps|
  {
    if |steps| > 1 {
      var rest := steps[1..];
      RunFront(Next(s, steps[0], fingerprint), rest, fingerprint);
      assert steps[..|steps| - 1][1..] == rest[..|rest| - 1] && steps[..|steps| - 1][0] == steps[0];
    } else {
      assert steps[..0] == [] && steps[1..] == [];
    }
  }

  /** The state remembers what the steps say: the rows of each refresh under way, and those swapped in last. */
  predicate Remembers(s: State, steps: seq<Step>) {
    s.latest == LatestCompleted(steps) && forall id :: id in s.refreshes ==> s.refreshes[id].rows == RowsOf(steps, id)
  }

  lemma RemembersStep(s: State, front: seq<Step>, step: Step, fingerprint: string -> string)
    requires Remembers(s, front) && Enabled(s, step)
    ensures Remembers(Next(s, step, fingerprint), front + [step])
  {
    var steps := front + [step];
    assert steps[..|steps| - 1] == front && steps[|steps| - 1] == step;
  }

  lemma {:induction false} RunRemembers(steps: seq<Step>, fingerprint: string -> string)
    requires Run(EMPTY, steps, fingerprint)
    ensures Remembers(After(EMPTY, steps, fingerprint), steps)
  {
    if steps != [] {
      var front, last := steps[..|steps| - 1], steps[|steps| - 1];
      RunFront(EMPTY, steps, fingerprint);
      RunRemembers(front, fingerprint);
      RemembersStep(After(EMPTY, front, fingerprint), front, last, fingerprint);
      assert front + [last] == steps;
    }
  }

  /**
   Directory agreement: in every interleaving of lookups with any number of refreshes, complete or broken
   off, a lookup answers as a scan of the rows of the last completed refresh, never as a mixture.
   */
  lemma LookupsSeeOneRefresh(steps: seq<Step>, key: string, fingerprint: string -> string)
    requires Injective(fingerprint) && Run(EMPTY, steps, fingerprint)
    ensures Found(After(EMPTY, steps, fingerprint).entries, key, fingerprint) == Scanned(LatestCompleted(steps), key)
  {
    InvRun(EMPTY, steps, fingerprint);
    RunRemembers(steps, fingerprint);
    LookupIsScan(LatestCompleted(steps), key, fingerprint);
  }

  /** What a lookup answers, field by field: the user, the key and the names of the last row with that key. */
  lemma LookupAnswersFromLastRow(steps: seq<Step>, key: string, fingerprint: string -> string, i: nat)
    requires Injective(fingerprint) && Run(EMPTY, steps, fingerprint)
    requires !Blank(key) && LastRow(LatestCompleted(steps), key, i)
    ensures var row := LatestCompleted(steps)[i];
      var answer := Found(After(EMPTY, steps, fingerprint).entries, key, fingerprint);
      && answer.userId == Some(row.userId) && answer.apiKeyId == Some(row.keyId)
      && answer.username == row.username && answer.email == row.email && answer.apiKeyName == row.name
      && answer.identitySource == "api_key_map"
  {
    var rows := LatestCompleted(steps);
    LookupsSeeOneRefresh(steps, key, fingerprint);
    ScanFindsLast(rows, |rows|, key, i);
  }

  /** A blank key and a key without a row are answered with nobody. */
  lemma LookupAnswersUnknown(steps: seq<Step>, key: string, fingerprint: string -> string)
    requires Injective(fingerprint) && Run(EMPTY, steps, fingerprint)
    requires Blank(key) || forall j :: 0 <= j < |LatestCompleted(steps)| ==> LatestCompleted(steps)[j].key != key
    ensures var answer := Found(After(EMPTY, steps, fingerprint).entries, key, fingerprint);
      && answer.userId == None && answer.apiKeyId == None && answer.identitySource == "unknown"
      && answer.username == "" && answer.email == "" && answer.apiKeyName == ""
  {
    var rows := LatestCompleted(steps);
    LookupsSeeOneRefresh(steps, key, fingerprint);
    if !Blank(key) { ScanFindsNone(rows, |rows|, key); }
  }
}
