/**
 Admin sessions (auth.go:123-201): created with an expiry, validated, deleted, and swept.

 A run is a sequence of calls under one clock that never goes back.  Token hashing is a function
 assumed injective; tokens are fresh.
 */
module Sessions {
  import opened Common
  import opened Text

  datatype Session = Session(username: string, expiresAt: int)

  /** Sessions by token hash, the primary key. */
  type Table = map<string, Session>

  /** One round of the creation loop; `NoEntropy` is a failing random source. */
  datatype Round = NoEntropy | Round(token: string, now: int, fate: Fate)

  /** Refused: an error, without effect.  Unclear: the statement took effect and the caller got an error. */
  datatype Fate = Refused | Unclear | Confirmed

  /** `works` is false when the call ends in a database error; only changes can be in doubt. */
  datatype Event =
    | Create(now: int, works: bool, username: string, ttl: int, rounds: seq<Round>)
    | Validate(now: int, works: bool, token: string)
    | Delete(now: int, fate: Fate, token: string)
    | Sweep(now: int, fate: Fate)

  datatype Answer = Nothing | Failure | Issued(token: string) | Denied | Granted(username: string)

  const DEFAULT_TTL := 43_200_000   // 12 hours in milliseconds
  const ROUNDS := 3

  function Ttl(ttl: int): int { if ttl <= 0 then DEFAULT_TTL else ttl }

  // ------------------------------------------------------------ specification

  predicate Commits(r: Round) { r.Round? && !r.fate.Refused? }

  datatype Step = Step(table: Table, answer: Answer)

  /** The creation loop from round `k` on: an existing hash is refused by the primary key. */
  function CreateFrom(t: Table, user: string, ttl: int, rounds: seq<Round>, k: nat, hash: string -> string): Step
    requires |rounds| == ROUNDS && k <= ROUNDS
    decreases ROUNDS - k
  {
    if k == ROUNDS || rounds[k].NoEntropy? then Step(t, Failure)
    else
      var r := rounds[k];
      var free := hash(r.token) !in t;
      var next := if free && Commits(r) then t[hash(r.token) := Session(user, r.now + Ttl(ttl))] else t;
      if free && r.fate.Confirmed? then Step(next, Issued(r.token))
      else CreateFrom(next, user, ttl, rounds, k + 1, hash)
  }

  function Apply(t: Table, e: Event, hash: string -> string): Step
    requires e.Create? ==> |e.rounds| == ROUNDS
  {
    match e
    case Create(_, works, username, ttl, rounds) =>
      if !works || Trim(username) == "" then Step(t, Failure)
      else CreateFrom(t, Trim(username), ttl, rounds, 0, hash)
    case Validate(now, works, token) =>
      if !works then Step(t, Failure)
      else if Trim(token) == "" then Step(t, Denied)
      else
        var h := hash(Trim(token));
        Step(t, if h in t && t[h].expiresAt > now then Granted(t[h].username) else Denied)
    case Delete(_, fate, token) =>
      if fate.Refused? then Step(t, Failure)
      else if Trim(token) == "" then Step(t, Nothing)
      else Step(t - {hash(Trim(token))}, Reply(fate))
    case Sweep(now, fate) =>
      Step(if fate.Refused? then t else Swept(t, now), Reply(fate))
  }

  function Reply(fate: Fate): Answer { if fate.Confirmed? then Nothing else Failure }

  function Swept(t: Table, now: int): Table {
    map h | h in t && t[h].expiresAt > now :: t[h]
  }

  class SessionStore {
    var sessions: Table
    const hash: string -> string

    constructor (hash: string -> string)
      ensures sessions == map[] && this.hash == hash
    {
      sessions, this.hash := map[], hash;
    }

    method CreateAdminSession(e: Event) returns (answer: Answer)
      requires e.Create? && |e.rounds| == ROUNDS
      modifies this
      ensures Step(sessions, answer) == Apply(old(sessions), e, hash)
    {
      if !e.works {
        return Failure;
      }
      var username := Trim(e.username);
      if username == "" {
        return Failure;
      }
      var ttl := e.ttl;
      if ttl <= 0 {
        ttl := DEFAULT_TTL;
      }
      for attempt := 0 to ROUNDS
        invariant CreateFrom(old(sessions), username, e.ttl, e.rounds, 0, hash)
               == CreateFrom(sessions, username, e.ttl, e.rounds, attempt, hash)
      {
        var r := e.rounds[attempt];
        if r.NoEntropy? {
          return Failure;
        }
        var key := hash(r.token);
        var inserted := key !in sessions && !r.fate.Refused?;
        if inserted {
          sessions := sessions[key := Session(username, r.now + ttl)];
        }
        if inserted && r.fate.Confirmed? {
          return Issued(r.token);
        }
      }
      return Failure;
    }

    method ValidateAdminSession(e: Event) returns (answer: Answer)
      requires e.Validate?
      ensures answer == Apply(sessions, e, hash).answer
    {
      if !e.works {
        return Failure;
      }
      var token := Trim(e.token);
      if token == "" {
        return Denied;
      }
      var key := hash(token);
      if key in sessions && sessions[key].expiresAt > e.now {
        return Granted(sessions[key].username);
      }
      return Denied;
    }

    method DeleteAdminSession(e: Event) returns (answer: Answer)
      requires e.Delete?
      modifies this
      ensures Step(sessions, answer) == Apply(old(sessions), e, hash)
      ensures forall h :: h in sessions <==>
        h in old(sessions) && (e.fate.Refused? || Trim(e.token) == "" || h != hash(Trim(e.token)))
    {
      if e.fate.Refused? {
        return Failure;
      }
      var token := Trim(e.token);
      if token == "" {
        return Nothing;
      }
      sessions := sessions - {hash(token)};
      return Reply(e.fate);
    }

    method DeleteExpiredAdminSessions(e: Event) returns (answer: Answer)
      requires e.Sweep?
      modifies this
      ensures Step(sessions, answer) == Apply(old(sessions), e, hash)
      ensures forall h :: h in sessions <==>
        h in old(sessions) && (e.fate.Refused? || !(old(sessions)[h].expiresAt <= e.now))
    {
      if e.fate.Refused? {
        return Failure;
      }
      sessions := Swept(sessions, e.now);
      return Reply(e.fate);
    }
  }

  // -------------------------------------------------------------- whole runs

  predicate Shaped(run: seq<Event>) {
    forall i :: 0 <= i < |run| && run[i].Create? ==> |run[i].rounds| == 3
  }

  function Front<T>(s: seq<T>): seq<T>
    requires s != []
  {
    s[..|s| - 1]
  }

  function Last<T>(s: seq<T>): T
    requires s != []
  {
    s[|s| - 1]
  }

  function TableAfter(run: seq<Event>, hash: string -> string): Table
    requires Shaped(run)
  {
    if run == [] then map[] else Apply(TableAfter(Front(run), hash), Last(run), hash).table
  }

  /** The answer to the last call of a run. */
  function LastAnswer(run: seq<Event>, hash: string -> string): Answer
    requires Shaped(run) && run != []
  {
    Apply(TableAfter(Front(run), hash), Last(run), hash).answer
  }

  predicate Clocked(run: seq<Event>) {
    forall i, j :: 0 <= i < j < |run| ==> run[i].now <= run[j].now
  }

  /** Round `k` of the creation at `n` draws the token `t`. */
  predicate Draws(run: seq<Event>, n: nat, k: nat, t: string) {
    n < |run| && run[n].Create? && k < |run[n].rounds| && run[n].rounds[k].Round? && run[n].rounds[k].token == t
  }

  /** No token is drawn twice, and tokens need no trimming. */
  ghost predicate Fresh(run: seq<Event>) {
    && (forall n: nat, k: nat, m: nat, j: nat, t :: Draws(run, n, k, t) && Draws(run, m, j, t) ==> n == m && k == j)
    && (forall n: nat, k: nat, t :: Draws(run, n, k, t) ==> t != "" && Trim(t) == t)
  }

  // -------------------------------- sessions by history, as if nothing were swept

  /** The session that a creation leaves under token `t`, looking at rounds from `k` on. */
  function Left(e: Event, t: string, k: nat): Option<Session>
    requires e.Create? && k <= |e.rounds|
    decreases |e.rounds| - k
  {
    if k == |e.rounds| || e.rounds[k].NoEntropy? then None
    else
      var r := e.rounds[k];
      var expiry := r.now + (if e.ttl > 0 then e.ttl else 12 * 60 * 60 * 1000);
      if (r.fate.Unclear? || r.fate.Confirmed?) && r.token == t then Some(Session(Trim(e.username), expiry))
      else if r.fate.Confirmed? then None
      else Left(e, t, k + 1)
  }

  /** The token a creation hands out: that of the first confirmed round. */
  function Handed(e: Event, k: nat): Answer
    requires e.Create? && k <= |e.rounds|
    decreases |e.rounds| - k
  {
    if k == |e.rounds| || e.rounds[k].NoEntropy? then Failure
    else if e.rounds[k].fate.Confirmed? then Issued(e.rounds[k].token)
    else Handed(e, k + 1)
  }

  predicate Effective(e: Event) {
    e.Create? && e.works && Trim(e.username) != ""
  }

  /** The session of token `t` by history alone: created, and not deleted since. */
  function History(run: seq<Event>, t: string): Option<Session> {
    if run == [] then None
    else
      var e, before := Last(run), History(Front(run), t);
      if Effective(e) && Left(e, t, 0).Some? then Left(e, t, 0)
      else if e.Delete? && !e.fate.Refused? && Trim(e.token) == t then None
      else before
  }

  /** The answer a call should get: a token is accepted iff created, not deleted and not expired. */
  function Expected(run: seq<Event>): Answer
    requires run != []
  {
    match Last(run)
    case Create(_, _, _, _, _) => if Effective(Last(run)) then Handed(Last(run), 0) else Failure
    case Validate(now, works, token) =>
      if !works then Failure
      else
        var s := History(Front(run), Trim(token));
        if Trim(token) != "" && s.Some? && s.value.expiresAt > now then Granted(s.value.username) else Denied
    case Delete(_, fate, token) =>
      if fate.Confirmed? || (fate.Unclear? && Trim(token) == "") then Nothing else Failure
    case Sweep(_, fate) => if fate.Confirmed? then Nothing else Failure
  }

  lemma {:induction false} LeftWasDrawn(e: Event, t: string, k: nat) returns (j: nat)
    requires e.Create? && k <= |e.rounds| && Left(e, t, k).Some?
    ensures k <= j < |e.rounds| && e.rounds[j].Round? && e.rounds[j].token == t
    decreases |e.rounds| - k
  {
    var r := e.rounds[k];
    if Commits(r) && r.token == t {
      return k;
    }
    j := LeftWasDrawn(e, t, k + 1);
  }

  lemma {:induction false} HistoryWasDrawn(run: seq<Event>, t: string) returns (n: nat, k: nat)
    requires History(run, t).Some?
    ensures n < |run| && Draws(run, n, k, t)
  {
    var e := Last(run);
    if Effective(e) && Left(e, t, 0).Some? {
      k := LeftWasDrawn(e, t, 0);
      n := |run| - 1;
    } else {
      n, k := HistoryWasDrawn(Front(run), t);
      assert Front(run)[n] == run[n];
    }
  }

  // ------------------------------------------------- table and history agree

  /** The rounds of a creation from `k` on draw distinct tokens that the table does not know. */
  predicate NewTokens(t: Table, rounds: seq<Round>, k: nat, hash: string -> string) {
    && (forall j :: k <= j < |rounds| && rounds[j].Round? ==> hash(rounds[j].token) !in t)
    && (forall i, j :: k <= i < j < |rounds| && rounds[i].Round? && rounds[j].Round? ==>
          rounds[i].token != rounds[j].token)
  }

  /** The table after round `k`, when its token is new. */
  function Stored(t: Table, e: Event, k: nat, hash: string -> string): Table
    requires e.Create? && k < |e.rounds| && e.rounds[k].Round?
  {
    var r := e.rounds[k];
    if Commits(r) then t[hash(r.token) := Session(Trim(e.username), r.now + Ttl(e.ttl))] else t
  }

  lemma StillNew(t: Table, e: Event, k: nat, hash: string -> string)
    requires Injective(hash) && e.Create? && k < |e.rounds| && e.rounds[k].Round? && NewTokens(t, e.rounds, k, hash)
    ensures NewTokens(Stored(t, e, k, hash), e.rounds, k + 1, hash)
  {
  }

  /** `s` holds for `token` what creation leaves, and otherwise what `t` held. */
  predicate Leaves(t: Table, s: Table, left: Option<Session>, h: string) {
    if left.Some? then h in s && s[h] == left.value
    else if h in t then h in s && s[h] == t[h]
    else h !in s
  }

  lemma {:induction false} CreateAnswers(t: Table, e: Event, k: nat, hash: string -> string)
    requires Injective(hash) && e.Create? && |e.rounds| == ROUNDS && k <= ROUNDS && NewTokens(t, e.rounds, k, hash)
    ensures CreateFrom(t, Trim(e.username), e.ttl, e.rounds, k, hash).answer == Handed(e, k)
    decreases ROUNDS - k
  {
    if k < ROUNDS && e.rounds[k].Round? && !e.rounds[k].fate.Confirmed? {
      StillNew(t, e, k, hash);
      CreateAnswers(Stored(t, e, k, hash), e, k + 1, hash);
    }
  }

  lemma CreateStep(t: Table, e: Event, k: nat, hash: string -> string)
    requires e.Create? && |e.rounds| == ROUNDS && k < ROUNDS && e.rounds[k].Round? && NewTokens(t, e.rounds, k, hash)
    ensures var next := Stored(t, e, k, hash);
      CreateFrom(t, Trim(e.username), e.ttl, e.rounds, k, hash) ==
        if e.rounds[k].fate.Confirmed? then Step(next, Issued(e.rounds[k].token))
        else CreateFrom(next, Trim(e.username), e.ttl, e.rounds, k + 1, hash)
  {
  }

  lemma RoundLeaves(t: Table, s: Table, e: Event, k: nat, hash: string -> string, token: string)
    requires Injective(hash) && e.Create? && k < |e.rounds| && e.rounds[k].Round? && NewTokens(t, e.rounds, k, hash)
    requires if e.rounds[k].fate.Confirmed? then s == Stored(t, e, k, hash)
             else Leaves(Stored(t, e, k, hash), s, Left(e, token, k + 1), hash(token))
    ensures Leaves(t, s, Left(e, token, k), hash(token))
  {
    if e.rounds[k].token == token { NotLeftAgain(e, token, k); }
  }

  lemma {:induction false} CreateLeaves(t: Table, e: Event, k: nat, hash: string -> string, token: string)
    requires Injective(hash) && e.Create? && |e.rounds| == ROUNDS && k <= ROUNDS && NewTokens(t, e.rounds, k, hash)
    ensures Leaves(t, CreateFrom(t, Trim(e.username), e.ttl, e.rounds, k, hash).table, Left(e, token, k), hash(token))
    decreases ROUNDS - k
  {
    if k < ROUNDS && e.rounds[k].Round? {
      CreateStep(t, e, k, hash);
      var s := CreateFrom(t, Trim(e.username), e.ttl, e.rounds, k, hash).table;
      if !e.rounds[k].fate.Confirmed? {
        StillNew(t, e, k, hash);
        CreateLeaves(Stored(t, e, k, hash), e, k + 1, hash, token);
      }
      RoundLeaves(t, s, e, k, hash, token);
    }
  }

  lemma {:induction false} NotLeftLater(e: Event, t: string, k: nat)
    requires e.Create? && k <= |e.rounds|
    requires forall j :: k <= j < |e.rounds| && e.rounds[j].Round? ==> e.rounds[j].token != t
    ensures Left(e, t, k).None?
    decreases |e.rounds| - k
  {
    if k < |e.rounds| { NotLeftLater(e, t, k + 1); }
  }

  lemma NotLeftAgain(e: Event, t: string, k: nat)
    requires e.Create? && k < |e.rounds| && e.rounds[k].Round? && e.rounds[k].token == t
    requires forall j :: k < j < |e.rounds| && e.rounds[j].Round? ==> e.rounds[j].token != t
    ensures Left(e, t, k + 1).None?
  {
    NotLeftLater(e, t, k + 1);
  }

  /** The table holds nothing that history does not, and everything that has not expired. */
  ghost predicate Agrees(t: Table, run: seq<Event>, hash: string -> string, now: int) {
    forall token ::
      && (hash(token) in t ==> History(run, token) == Some(t[hash(token)]))
      && (History(run, token).Some? && History(run, token).value.expiresAt > now ==> hash(token) in t)
  }

  lemma FreshFront(run: seq<Event>)
    requires run != [] && Fresh(run)
    ensures Fresh(Front(run))
  {
    forall n: nat, k: nat, t | Draws(Front(run), n, k, t)
      ensures Draws(run, n, k, t)
    {
      assert Front(run)[n] == run[n];
    }
  }

  lemma CreationIsNew(run: seq<Event>, hash: string -> string, now: int)
    requires Injective(hash) && Shaped(run) && Fresh(run) && run != [] && Last(run).Create?
    requires Agrees(TableAfter(Front(run), hash), Front(run), hash, now)
    ensures NewTokens(TableAfter(Front(run), hash), Last(run).rounds, 0, hash)
  {
    var t, rounds, last := TableAfter(Front(run), hash), Last(run).rounds, |run| - 1;
    forall j | 0 <= j < |rounds| && rounds[j].Round?
      ensures hash(rounds[j].token) !in t
    {
      assert Draws(run, last, j, rounds[j].token);
      if hash(rounds[j].token) in t {
        var n, k := HistoryWasDrawn(Front(run), rounds[j].token);
        assert Front(run)[n] == run[n];
        assert Draws(run, n, k, rounds[j].token);
        assert false;
      }
    }
    forall i, j | 0 <= i < j < |rounds| && rounds[i].Round? && rounds[j].Round?
      ensures rounds[i].token != rounds[j].token
    {
      assert Draws(run, last, i, rounds[i].token) && Draws(run, last, j, rounds[j].token);
    }
  }

  /** After every run under one clock with fresh tokens, table and history agree from the last call on. */
  lemma {:induction false} TableAgrees(run: seq<Event>, hash: string -> string, now: int)
    requires Injective(hash) && Shaped(run) && Clocked(run) && Fresh(run)
    requires run != [] ==> Last(run).now <= now
    ensures Agrees(TableAfter(run, hash), run, hash, now)
  {
    if run != [] {
      var front, e := Front(run), Last(run);
      FreshFront(run);
      assert forall i :: 0 <= i < |front| ==> front[i] == run[i];
      TableAgrees(front, hash, e.now);
      EventAgrees(run, hash);
    }
  }

  lemma EventAgrees(run: seq<Event>, hash: string -> string)
    requires Injective(hash) && Shaped(run) && Fresh(run) && run != []
    requires Agrees(TableAfter(Front(run), hash), Front(run), hash, Last(run).now)
    ensures Agrees(TableAfter(run, hash), run, hash, Last(run).now)
    ensures LastAnswer(run, hash) == Expected(run)
  {
    var e := Last(run);
    if Effective(e) {
      CreateAgrees(run, hash);
    } else if e.Delete? {
      DeleteAgrees(run, hash);
    } else if e.Sweep? {
      SweepAgrees(run, hash);
    }
  }

  lemma CreateAgrees(run: seq<Event>, hash: string -> string)
    requires Injective(hash) && Shaped(run) && Fresh(run) && run != [] && Effective(Last(run))
    requires Agrees(TableAfter(Front(run), hash), Front(run), hash, Last(run).now)
    ensures Agrees(TableAfter(run, hash), run, hash, Last(run).now)
    ensures LastAnswer(run, hash) == Expected(run)
  {
    var e, t := Last(run), TableAfter(Front(run), hash);
    CreationIsNew(run, hash, e.now);
    CreateAnswers(t, e, 0, hash);
    forall token
      ensures Leaves(t, TableAfter(run, hash), Left(e, token, 0), hash(token))
    {
      CreateLeaves(t, e, 0, hash, token);
    }
  }

  lemma DeleteAgrees(run: seq<Event>, hash: string -> string)
    requires Injective(hash) && Shaped(run) && run != [] && Last(run).Delete? && Fresh(run)
    requires Agrees(TableAfter(Front(run), hash), Front(run), hash, Last(run).now)
    ensures Agrees(TableAfter(run, hash), run, hash, Last(run).now)
  {
    var e, t := Last(run), TableAfter(Front(run), hash);
    if !e.fate.Refused? && Trim(e.token) == "" { BlankIsNoToken(Front(run), run); }
  }

  /** The empty string is never a session token. */
  lemma BlankIsNoToken(front: seq<Event>, run: seq<Event>)
    requires run != [] && front == Front(run) && Fresh(run)
    ensures History(front, "").None?
  {
    if History(front, "").Some? {
      var n, k := HistoryWasDrawn(front, "");
      assert front[n] == run[n];
      assert Draws(run, n, k, "");
    }
  }

  lemma SweepAgrees(run: seq<Event>, hash: string -> string)
    requires Shaped(run) && run != [] && Last(run).Sweep?
    requires Agrees(TableAfter(Front(run), hash), Front(run), hash, Last(run).now)
    ensures Agrees(TableAfter(run, hash), run, hash, Last(run).now)
  {
  }

  /**
   Exactness: in every run under one clock with fresh tokens and an injective hash, each call gets the
   answer that history demands; a token validates exactly if it was created, was not deleted and has not
   expired.
   */
  lemma AnswersByHistory(run: seq<Event>, hash: string -> string)
    requires Injective(hash) && Shaped(run) && Clocked(run) && Fresh(run) && run != []
    ensures LastAnswer(run, hash) == Expected(run)
  {
    var front := Front(run);
    FreshFront(run);
    assert forall i :: 0 <= i < |front| ==> front[i] == run[i];
    TableAgrees(front, hash, Last(run).now);
    EventAgrees(run, hash);
  }

  // ------------------------------------------------------- sweeps are invisible

  function WithoutSweeps(run: seq<Event>): seq<Event> {
    if run == [] then []
    else WithoutSweeps(Front(run)) + (if Last(run).Sweep? then [] else [Last(run)])
  }

  /** The answers to all calls that are not sweeps, in order. */
  function Answers(run: seq<Event>, hash: string -> string): seq<Answer>
    requires Shaped(run)
  {
    if run == [] then []
    else Answers(Front(run), hash) + (if Last(run).Sweep? then [] else [LastAnswer(run, hash)])
  }

  lemma FrontOfSnoc<T>(s: seq<T>, x: T)
    ensures Front(s + [x]) == s && Last(s + [x]) == x
  {
  }

  /** Where the kept events came from. */
  function Origin(run: seq<Event>): (o: seq<nat>)
    ensures |o| == |WithoutSweeps(run)|
    ensures forall i :: 0 <= i < |o| ==> o[i] < |run| && WithoutSweeps(run)[i] == run[o[i]]
    ensures forall i, j :: 0 <= i < j < |o| ==> o[i] < o[j]
  {
    if run == [] then []
    else
      var o := Origin(Front(run));
      assert forall i :: 0 <= i < |o| ==> Front(run)[o[i]] == run[o[i]];
      o + (if Last(run).Sweep? then [] else [|run| - 1])
  }

  lemma WithoutSweepsIsRun(run: seq<Event>)
    requires Shaped(run) && Clocked(run) && Fresh(run)
    ensures Shaped(WithoutSweeps(run)) && Clocked(WithoutSweeps(run)) && Fresh(WithoutSweeps(run))
  {
    var o, kept := Origin(run), WithoutSweeps(run);
    forall n: nat, k: nat, t | Draws(kept, n, k, t)
      ensures Draws(run, o[n], k, t)
    {
    }
    forall n: nat, k: nat, m: nat, j: nat, t | Draws(kept, n, k, t) && Draws(kept, m, j, t)
      ensures n == m && k == j
    {
      assert Draws(run, o[n], k, t) && Draws(run, o[m], j, t);
      assert o[n] == o[m];
    }
  }

  lemma {:induction false} HistoryWithoutSweeps(run: seq<Event>, t: string)
    ensures History(WithoutSweeps(run), t) == History(run, t)
  {
    if run != [] {
      HistoryWithoutSweeps(Front(run), t);
      FrontOfSnoc(WithoutSweeps(Front(run)), Last(run));
      assert WithoutSweeps(Front(run)) + [] == WithoutSweeps(Front(run));
    }
  }

  /** The expected answer depends on the call and, for a validation, on the history of its token. */
  lemma SameExpected(a: seq<Event>, b: seq<Event>)
    requires a != [] && b != [] && Last(a) == Last(b)
    requires Last(a).Validate? ==> History(Front(a), Trim(Last(a).token)) == History(Front(b), Trim(Last(a).token))
    ensures Expected(a) == Expected(b)
  {
  }

  lemma ExpectedWithoutSweeps(run: seq<Event>, kept: seq<Event>)
    requires run != [] && !Last(run).Sweep? && kept == WithoutSweeps(Front(run))
    ensures WithoutSweeps(run) == kept + [Last(run)] && Expected(kept + [Last(run)]) == Expected(run)
  {
    FrontOfSnoc(kept, Last(run));
    if Last(run).Validate? { HistoryWithoutSweeps(Front(run), Trim(Last(run).token)); }
    SameExpected(kept + [Last(run)], run);
  }

  /**
   Sweeps are invisible: removing every sweep from a run changes no answer, so two runs that differ only
   in their sweeps answer alike.
   */
  lemma {:induction false} SweepsAreInvisible(run: seq<Event>, hash: string -> string)
    requires Injective(hash) && Shaped(run) && Clocked(run) && Fresh(run)
    ensures Shaped(WithoutSweeps(run)) && Answers(WithoutSweeps(run), hash) == Answers(run, hash)
  {
    WithoutSweepsIsRun(run);
    if run != [] {
      var front, kept := Front(run), WithoutSweeps(Front(run));
      FreshFront(run);
      assert forall i :: 0 <= i < |front| ==> front[i] == run[i];
      SweepsAreInvisible(front, hash);
      if Last(run).Sweep? {
        assert WithoutSweeps(run) == kept;
        assert Answers(run, hash) == Answers(front, hash);
      } else {
        FrontOfSnoc(kept, Last(run));
        AnswersByHistory(run, hash);
        AnswersByHistory(WithoutSweeps(run), hash);
        ExpectedWithoutSweeps(run, kept);
      }
    }
  }

  lemma SameWithoutSweeps(a: seq<Event>, b: seq<Event>, hash: string -> string)
    requires Injective(hash) && Shaped(a) && Clocked(a) && Fresh(a) && Shaped(b) && Clocked(b) && Fresh(b)
    requires WithoutSweeps(a) == WithoutSweeps(b)
    ensures Answers(a, hash) == Answers(b, hash)
  {
    SweepsAreInvisible(a, hash);
    SweepsAreInvisible(b, hash);
  }

  /** Freshness matters: a token drawn twice meets its expired row unless that has been swept. */
  lemma SweepsShowWithoutFreshness(user: string, token: string, hash: string -> string)
    requires Trim(user) != ""
    ensures var first := Create(0, true, user, 10, [Round(token, 0, Confirmed), NoEntropy, NoEntropy]);
      var again := Create(20, true, user, 10, [Round(token, 20, Confirmed), NoEntropy, NoEntropy]);
      var s := Apply(map[], first, hash).table;
      Apply(s, again, hash).answer == Failure && Apply(Swept(s, 15), again, hash).answer == Issued(token)
  {
    var first := Create(0, true, user, 10, [Round(token, 0, Confirmed), NoEntropy, NoEntropy]);
    var again := Create(20, true, user, 10, [Round(token, 20, Confirmed), NoEntropy, NoEntropy]);
    var s := Apply(map[], first, hash).table;
    assert s == map[hash(token) := Session(Trim(user), 10)];
    assert Swept(s, 15) == map[];
    assert CreateFrom(s, Trim(user), 10, again.rounds, 1, hash).answer == Failure;
  }
}
