/**
 Creation of the first administrator by any number of instances (main.go:128-147, auth.go:68-92).

 Every instance retries `INSERT ... ON CONFLICT DO NOTHING RETURNING` until it gets an answer, and
 prints its credentials when the answer is that it inserted the row.
 */
module Bootstrap {
  import opened Common
  import opened Text

  datatype Pc = Trying | Pausing | Stopped

  /** `name` is the trimmed username, under which the account is stored. */
  datatype Instance = Instance(username: string, name: string, password: string, hash: string, pc: Pc, printed: bool)

  /** What one attempt meets: Down, no statement runs; Refused, it fails without effect; Unclear, it takes
      effect and its answer is lost; Answered, it takes effect and its answer arrives. */
  datatype Fate = Down | Refused | Unclear | Answered

  /** `creator` records, for reasoning, who inserted an account and whether it was told so. */
  datatype State = State(admins: map<string, string>, instances: map<nat, Instance>, creator: map<string, Creator>)

  datatype Creator = Creator(instance: nat, told: bool)

  datatype Step =
    | Join(id: nat, username: string, password: string, hash: string)
    | Attempt(id: nat, fate: Fate)
    | Resume(id: nat)
    | Cancel(id: nat)

  predicate Enabled(s: State, step: Step) {
    match step
    case Join(id, _, _, _) => id !in s.instances
    case Attempt(id, _) => id in s.instances && s.instances[id].pc.Trying?
    case Resume(id) => id in s.instances && s.instances[id].pc.Pausing?
    case Cancel(id) => id in s.instances && s.instances[id].pc.Pausing?
  }

  /** EnsureAdminHash fails before any statement on an empty name or hash. */
  predicate Sends(i: Instance, fate: Fate) {
    !fate.Down? && i.name != "" && i.hash != ""
  }

  function Moved(s: State, id: nat, pc: Pc, printed: bool): State
    requires id in s.instances
  {
    s.(instances := s.instances[id := s.instances[id].(pc := pc, printed := printed)])
  }

  function Next(s: State, step: Step): State
    requires Enabled(s, step)
  {
    match step
    case Join(id, username, password, hash) =>
      s.(instances := s.instances[id := Instance(username, Trim(username), password, hash, Trying, false)])
    case Attempt(id, fate) =>
      var i := s.instances[id];
      var name := i.name;
      if !Sends(i, fate) || fate.Refused? then Moved(s, id, Pausing, i.printed)
      else
        var inserts := name !in s.admins;
        var told := fate.Answered?;
        var t := if inserts
                 then s.(admins := s.admins[name := i.hash], creator := s.creator[name := Creator(id, told)])
                 else s;
        if told then Moved(t, id, Stopped, i.printed || inserts) else Moved(t, id, Pausing, i.printed)
    case Resume(id) => Moved(s, id, Trying, s.instances[id].printed)
    case Cancel(id) => Moved(s, id, Stopped, s.instances[id].printed)
  }

  const EMPTY := State(map[], map[], map[])

  predicate Run(s: State, steps: seq<Step>)
    decreases |steps|
  {
    steps == [] || (Enabled(s, steps[0]) && Run(Next(s, steps[0]), steps[1..]))
  }

  function After(s: State, steps: seq<Step>): State
    requires Run(s, steps)
    decreases |steps|
  {
    if steps == [] then s else After(Next(s, steps[0]), steps[1..])
  }

  /** Every account was inserted by a known instance of that name and still carries its hash. */
  ghost predicate Owned(s: State) {
    && (forall u :: u in s.admins <==> u in s.creator)
    && forall u :: u in s.creator ==> OwnedBy(s, u, s.creator[u].instance)
  }

  predicate OwnedBy(s: State, u: string, id: nat) {
    id in s.instances && s.instances[id].name == u && u in s.admins && s.admins[u] == s.instances[id].hash
  }

  /** Printing means having inserted the account and been told so, and ends the instance. */
  predicate PrintedMeaning(s: State) {
    forall id :: id in s.instances ==>
      var i := s.instances[id];
      && (i.printed <==> i.name in s.creator && s.creator[i.name] == Creator(id, true))
      && (i.printed ==> i.pc.Stopped?)
  }

  /** Accounts go by trimmed names. */
  predicate NamesTrimmed(s: State) {
    forall id :: id in s.instances ==> s.instances[id].name == Trim(s.instances[id].username)
  }

  ghost predicate Inv(s: State) { Owned(s) && PrintedMeaning(s) && NamesTrimmed(s) }

  predicate Kept(s: State, t: State, u: string, id: nat) {
    && (u in s.admins ==> u in t.admins && t.admins[u] == s.admins[u])
    && (id in s.instances ==>
          && id in t.instances && t.instances[id].name == s.instances[id].name
          && t.instances[id].username == s.instances[id].username
          && t.instances[id].password == s.instances[id].password
          && t.instances[id].hash == s.instances[id].hash
          && (s.instances[id].printed ==> t.instances[id].printed))
  }

  lemma StepKeeps(s: State, step: Step, u: string, id: nat)
    requires Enabled(s, step)
    ensures Kept(s, Next(s, step), u, id)
  {
    if step.Attempt? { AttemptKeeps(s, step.id, step.fate, u, id); }
  }

  lemma AttemptKeeps(s: State, own: nat, fate: Fate, u: string, id: nat)
    requires Enabled(s, Attempt(own, fate))
    ensures Kept(s, Next(s, Attempt(own, fate)), u, id)
  {
  }

  lemma OwnedStep(s: State, step: Step)
    requires Owned(s) && Enabled(s, step)
    ensures Owned(Next(s, step))
  {
    var t := Next(s, step);
    SameNames(s, step);
    forall u | u in t.creator
      ensures OwnedBy(t, u, t.creator[u].instance)
    {
      if u in s.creator {
        assert OwnedBy(s, u, s.creator[u].instance);
        StepKeeps(s, step, u, s.creator[u].instance);
      }
    }
  }

  lemma SameNames(s: State, step: Step)
    requires Owned(s) && Enabled(s, step)
    ensures forall u :: u in Next(s, step).admins <==> u in Next(s, step).creator
    ensures forall u :: u in s.creator ==> u in Next(s, step).creator && Next(s, step).creator[u] == s.creator[u]
  {
  }

  lemma PrintedStep(s: State, step: Step)
    requires Owned(s) && PrintedMeaning(s) && Enabled(s, step)
    ensures PrintedMeaning(Next(s, step))
  {
    if step.Attempt? { PrintedAttempt(s, step.id, step.fate); } else { PrintedOther(s, step); }
  }

  lemma PrintedAttempt(s: State, id: nat, fate: Fate)
    requires Owned(s) && PrintedMeaning(s) && Enabled(s, Attempt(id, fate))
    ensures PrintedMeaning(Next(s, Attempt(id, fate)))
  {
  }

  lemma PrintedOther(s: State, step: Step)
    requires Owned(s) && PrintedMeaning(s) && Enabled(s, step) && !step.Attempt?
    ensures PrintedMeaning(Next(s, step))
  {
    if step.Join? {
      var u := Trim(step.username);
      assert u in s.creator ==> OwnedBy(s, u, s.creator[u].instance);
    }
  }

  lemma InvStep(s: State, step: Step)
    requires Inv(s) && Enabled(s, step)
    ensures Inv(Next(s, step))
  {
    OwnedStep(s, step);
    PrintedStep(s, step);
    TrimmedStep(s, step);
  }

  lemma TrimmedStep(s: State, step: Step)
    requires NamesTrimmed(s) && Enabled(s, step)
    ensures NamesTrimmed(Next(s, step))
  {
  }

  lemma {:induction false} InvRun(s: State, steps: seq<Step>)
    requires Inv(s) && Run(s, steps)
    ensures Inv(After(s, steps))
    decreases |steps|
  {
    if steps != [] {
      InvStep(s, steps[0]);
      InvRun(Next(s, steps[0]), steps[1..]);
    }
  }

  lemma {:induction false} RunKeeps(s: State, steps: seq<Step>, u: string, id: nat)
    requires Run(s, steps)
    ensures Kept(s, After(s, steps), u, id)
    decreases |steps|
  {
    if steps != [] {
      StepKeeps(s, steps[0], u, id);
      RunKeeps(Next(s, steps[0]), steps[1..], u, id);
    }
  }

  /**
   Agreement: for any number of instances, in every interleaving with arbitrary failures, at most one
   instance per username ever prints credentials; and from the moment it does, in every continuation, the
   stored hash is the one it was started with, so the printed password keeps verifying.
   */
  lemma PrintedCredentialsAreValid(before: seq<Step>, more: seq<Step>, id: nat, other: nat,
                                   verifies: (string, string) -> bool)
    requires Run(EMPTY, before) && Run(After(EMPTY, before), more)
    requires var s := After(EMPTY, before); id in s.instances && s.instances[id].printed
    requires var i := After(EMPTY, before).instances[id]; verifies(i.hash, i.password)
    ensures var s, t := After(EMPTY, before), After(After(EMPTY, before), more);
      var u := s.instances[id].name;
      && id in t.instances
      && u in t.admins && t.admins[u] == s.instances[id].hash && verifies(t.admins[u], t.instances[id].password)
      && (other in t.instances && t.instances[other].printed && t.instances[other].name == u ==> other == id)
  {
    InvRun(EMPTY, before);
    var s := After(EMPTY, before);
    InvRun(s, more);
    RunKeeps(s, more, s.instances[id].name, id);
  }

  /** The attempt that inserted an account: whose it was, and whether its answer was to arrive. */
  datatype Effect = Effect(instance: nat, fate: Fate)

  /** This step runs the statement for `u`, and not in vain. */
  predicate TakesEffect(s: State, step: Step, u: string)
    requires Enabled(s, step)
  {
    && step.Attempt? && (step.fate.Unclear? || step.fate.Answered?)
    && Trim(s.instances[step.id].username) == u && u != "" && s.instances[step.id].hash != ""
  }

  /** The first statement for `u` that takes effect in a run. */
  function FirstEffect(s: State, steps: seq<Step>, u: string): Option<Effect>
    requires Run(s, steps)
    decreases |steps|
  {
    if steps == [] then None
    else if TakesEffect(s, steps[0], u) then Some(Effect(steps[0].id, steps[0].fate))
    else FirstEffect(Next(s, steps[0]), steps[1..], u)
  }

  lemma CreatorStep(s: State, step: Step, u: string)
    requires Owned(s) && NamesTrimmed(s) && Enabled(s, step)
    ensures var t := Next(s, step);
      && (u in s.creator ==> u in t.creator && t.creator[u] == s.creator[u])
      && (u !in s.creator && !TakesEffect(s, step, u) ==> u !in t.creator)
      && (u !in s.creator && TakesEffect(s, step, u) ==>
            u in t.creator && t.creator[u] == Creator(step.id, step.fate.Answered?))
  {
  }

  lemma {:induction false} CreatorIsKept(s: State, steps: seq<Step>, u: string)
    requires Inv(s) && Run(s, steps) && u in s.creator
    ensures u in After(s, steps).creator && After(s, steps).creator[u] == s.creator[u]
    decreases |steps|
  {
    if steps != [] {
      CreatorStep(s, steps[0], u);
      InvStep(s, steps[0]);
      CreatorIsKept(Next(s, steps[0]), steps[1..], u);
    }
  }

  /** The recorded creator is the first statement that takes effect. */
  lemma {:induction false} CreatorIsFirstEffect(s: State, steps: seq<Step>, u: string)
    requires Inv(s) && Run(s, steps) && u !in s.creator
    ensures var t, first := After(s, steps), FirstEffect(s, steps, u);
      && (u in t.creator <==> first.Some?)
      && (first.Some? ==> t.creator[u] == Creator(first.value.instance, first.value.fate.Answered?))
    decreases |steps|
  {
    if steps != [] {
      CreatorStep(s, steps[0], u);
      InvStep(s, steps[0]);
      if TakesEffect(s, steps[0], u) {
        CreatorIsKept(Next(s, steps[0]), steps[1..], u);
      } else {
        CreatorIsFirstEffect(Next(s, steps[0]), steps[1..], u);
      }
    }
  }

  /**
   Exactly when and by whom credentials are printed, for any number of instances in every interleaving: an
   instance prints if and only if the first statement for its name that took effect was its own and was
   answered.  The account exists if and only if there was such a statement.
   */
  lemma PrintedExactlyWhenTold(steps: seq<Step>, u: string, id: nat)
    requires Run(EMPTY, steps)
    ensures var s, first := After(EMPTY, steps), FirstEffect(EMPTY, steps, u);
      var prints := id in s.instances && Trim(s.instances[id].username) == u && s.instances[id].printed;
      && (prints <==> first == Some(Effect(id, Answered)))
      && (u in s.admins <==> first.Some?)
  {
    InvRun(EMPTY, steps);
    CreatorIsFirstEffect(EMPTY, steps, u);
    var s := After(EMPTY, steps);
    if u in s.creator { assert OwnedBy(s, u, s.creator[u].instance); }
    FirstEffectFate(EMPTY, steps, u);
  }

  lemma {:induction false} FirstEffectFate(s: State, steps: seq<Step>, u: string)
    requires Run(s, steps)
    ensures var first := FirstEffect(s, steps, u);
      first.Some? ==> first.value.fate.Unclear? || first.value.fate.Answered?
    decreases |steps|
  {
    if steps != [] && !TakesEffect(s, steps[0], u) { FirstEffectFate(Next(s, steps[0]), steps[1..], u); }
  }

  lemma RunOne(s: State, step: Step, rest: seq<Step>)
    requires Enabled(s, step) && Run(Next(s, step), rest)
    ensures Run(s, [step] + rest) && After(s, [step] + rest) == After(Next(s, step), rest)
  {
    assert ([step] + rest)[1..] == rest;
  }

  lemma RunFour(s: State, a: Step, b: Step, c: Step, d: Step)
    requires Enabled(s, a) && Enabled(Next(s, a), b) && Enabled(Next(Next(s, a), b), c)
    requires Enabled(Next(Next(Next(s, a), b), c), d)
    ensures Run(s, [a, b, c, d]) && After(s, [a, b, c, d]) == Next(Next(Next(Next(s, a), b), c), d)
  {
    var s1, s2, s3 := Next(s, a), Next(Next(s, a), b), Next(Next(Next(s, a), b), c);
    RunOne(s3, d, []);
    RunOne(s2, c, [d] + []);
    RunOne(s1, b, [c] + ([d] + []));
    RunOne(s, a, [b] + ([c] + ([d] + [])));
    assert [a] + ([b] + ([c] + ([d] + []))) == [a, b, c, d];
  }

  /** An unclear insert, then the retry, of the only instance. */
  lemma LoneRetry(s: State, i: Instance)
    requires s.instances == map[0 := i] && i.pc.Trying? && !i.printed
    requires i.name != "" && i.hash != "" && i.name !in s.admins
    ensures Enabled(s, Attempt(0, Unclear))
    ensures var t := Next(s, Attempt(0, Unclear));
      && t.admins == s.admins[i.name := i.hash] && t.instances == map[0 := i.(pc := Pausing)]
      && Enabled(t, Resume(0)) && Next(t, Resume(0)).admins == t.admins
      && Next(t, Resume(0)).instances == map[0 := i]
  {
  }

  lemma LoneAnswer(s: State, i: Instance)
    requires s.instances == map[0 := i] && i.pc.Trying? && !i.printed
    requires i.name != "" && i.hash != "" && i.name in s.admins
    ensures Enabled(s, Attempt(0, Answered))
    ensures var t := Next(s, Attempt(0, Answered)); t.admins == s.admins && t.instances == map[0 := i.(pc := Stopped)]
  {
  }

  /** Credentials can be lost: after an unclear insert the retry finds the account and prints nothing. */
  lemma UnclearInsertLosesCredentials(username: string, password: string, hash: string)
    requires Trim(username) != "" && hash != ""
    ensures var steps := [Join(0, username, password, hash), Attempt(0, Unclear), Resume(0), Attempt(0, Answered)];
      && Run(EMPTY, steps)
      && var s := After(EMPTY, steps);
         && s.admins == map[Trim(username) := hash]
         && 0 in s.instances && s.instances[0].pc.Stopped? && !s.instances[0].printed
  {
    var i := Instance(username, Trim(username), password, hash, Trying, false);
    var join := Join(0, username, password, hash);
    var s1 := Next(EMPTY, join);
    assert s1.instances == map[0 := i];
    LoneRetry(s1, i);
    var s3 := Next(Next(s1, Attempt(0, Unclear)), Resume(0));
    LoneAnswer(s3, i);
    RunFour(EMPTY, join, Attempt(0, Unclear), Resume(0), Attempt(0, Answered));
  }

  // ------------------------------------------------- one instance as it runs

  class AdminTable {
    var admins: map<string, string>

    constructor ()
      ensures admins == map[]
    {
      admins := map[];
    }

    /** EnsureAdminHash: `created` is meaningful only without an error. */
    method EnsureAdminHash(username: string, hash: string, fate: Fate) returns (created: bool, failed: bool)
      modifies this
      ensures var name := Trim(username);
        var sends := fate in {Unclear, Answered} && name != "" && hash != "";
        && admins == (if sends && name !in old(admins) then old(admins)[name := hash] else old(admins))
        && (failed <==> !(sends && fate.Answered?))
        && (created <==> sends && fate.Answered? && name !in old(admins))
    {
      if fate.Down? {
        return false, true;
      }
      var name := Trim(username);
      if name == "" || hash == "" {
        return false, true;
      }
      if fate.Refused? {
        return false, true;
      }
      var inserted := name !in admins;
      if inserted {
        admins := admins[name := hash];
      }
      if fate.Unclear? {
        return false, true;
      }
      return inserted, false;
    }

    /**
     runAdminBootstrap, alone with the table, for the attempts that `fates` allows before cancellation.
     It prints exactly when the account was missing and the first statement to take effect is answered.
     */
    method RunAdminBootstrap(username: string, password: string, hash: string, fates: seq<Fate>)
      returns (printed: Option<(string, string)>)
      modifies this
      ensures var name := Trim(username);
        && (printed.Some? <==>
              && name != "" && hash != "" && name !in old(admins)
              && exists k :: 0 <= k < |fates| && fates[k].Answered? && NoneSent(fates, k))
        && (printed.Some? ==> printed.value == (username, password) && admins == old(admins)[name := hash])
        && (admins == old(admins) || (name !in old(admins) && admins == old(admins)[name := hash]))
    {
      printed := None;
      var k := 0;
      while k < |fates|
        invariant 0 <= k <= |fates| && printed.None?
        invariant Trim(username) != "" && hash != "" ==> forall j :: 0 <= j < k ==> !fates[j].Answered?
        invariant NoneSent(fates, k) ==> admins == old(admins)
        invariant admins == old(admins) ||
          (Trim(username) !in old(admins) && admins == old(admins)[Trim(username) := hash])
        invariant Trim(username) != "" && hash != "" && !NoneSent(fates, k) ==> Trim(username) in admins
      {
        var created, failed := EnsureAdminHash(username, hash, fates[k]);
        if !failed {
          if created {
            printed := Some((username, password));
          }
          return;
        }
        k := k + 1;
      }
    }
  }

  /** None of the first `n` attempts had an effect. */
  predicate NoneSent(fates: seq<Fate>, n: nat)
    requires n <= |fates|
  {
    forall j :: 0 <= j < n ==> fates[j].Down? || fates[j].Refused?
  }
}
