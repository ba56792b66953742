/**
 The bounded record queue (queue.go:11-61) and its shutdown (main.go:109-122).

 `SharedQueue` is the queue used by one caller at a time.  `State` and `Next` describe any
 number of concurrent `Enqueue` and `Close` calls and the worker, one lock, channel or counter
 operation per step, in any interleaving.
 */
module RecordQueue {
  import opened Common

  // ------------------------------------------------------- atomic operations

  datatype Entry<R> = Entry(call: nat, record: R)

  datatype Queue<R> = Queue(capacity: nat, closed: bool, items: seq<Entry<R>>, dropped: nat)

  predicate Accepts<R>(q: Queue<R>) {
    !q.closed && |q.items| < q.capacity
  }

  function Offer<R>(q: Queue<R>, e: Entry<R>): Queue<R> {
    if Accepts(q) then q.(items := q.items + [e]) else q.(dropped := q.dropped + 1)
  }

  function Shut<R>(q: Queue<R>): Queue<R> {
    q.(closed := true)
  }

  function Take<R>(q: Queue<R>): Queue<R>
    requires q.items != []
  {
    q.(items := q.items[1..])
  }

  /** The queue as one thread sees it, holding the lock for each whole call. */
  class SharedQueue<R> {
    const capacity: nat
    var items: seq<Entry<R>>
    var dropped: nat
    var closed: bool

    ghost function Value(): Queue<R>
      reads this
    {
      Queue(capacity, closed, items, dropped)
    }

    constructor (size: nat)
      ensures Value() == Queue(size, false, [], 0)
    {
      capacity, items, dropped, closed := size, [], 0, false;
    }

    method Enqueue(e: Entry<R>) returns (ok: bool)
      modifies this
      ensures Value() == Offer(old(Value()), e)
      ensures ok <==> Accepts(old(Value()))
      ensures ok ==> items == old(items) + [e] && dropped == old(dropped)
      ensures !ok ==> items == old(items) && dropped == old(dropped) + 1
    {
      if closed {
        dropped := dropped + 1;
        return false;
      }
      if |items| < capacity {
        items := items + [e];
        return true;
      }
      dropped := dropped + 1;
      return false;
    }

    method Close()
      modifies this
      ensures Value() == Shut(old(Value()))
    {
      if !closed {
        closed := true;
      }
    }

    /** The receive of `range q.items`: nothing is left once the queue is closed and empty. */
    method Receive() returns (e: Entry<R>)
      requires items != []
      modifies this
      ensures e == old(items)[0] && Value() == Take(old(Value()))
    {
      e := items[0];
      items := items[1..];
    }
  }

  // ----------------------------------------------------- concurrent execution

  /** Where an Enqueue call is: it holds the read lock from `Reading` to `Releasing`. */
  datatype EnqueuePc = Arrived | Reading | Sending | Dropping | Releasing(ok: bool) | Returned(ok: bool)

  /** Where a Close call is: it holds the write lock from `Testing` to `Unlocking`. */
  datatype ClosePc = Waiting | Testing | Closing | Unlocking | Finished

  datatype Fate = Stored | Filtered | Failed | Abandoned

  datatype Worker<R> = Idle | Checking(entry: Entry<R>) | Persisting(entry: Entry<R>) | Exited

  datatype Settled<R> = Settled(entry: Entry<R>, fate: Fate)

  datatype Call<R> = Call(record: R, pc: EnqueuePc)

  datatype State<R> = State(
    capacity: nat,
    closed: bool,
    channelClosed: bool,
    closings: nat,
    panicked: bool,
    items: seq<Entry<R>>,
    dropped: nat,
    calls: map<nat, Call<R>>,
    closers: map<nat, ClosePc>,
    worker: Worker<R>,
    cancelled: bool,
    accepted: seq<Entry<R>>,
    settled: seq<Settled<R>>)

  datatype Step<R> =
    | Arrive(id: nat, record: R)
    | ReadLock(id: nat)
    | TestFlag(id: nat)
    | Send(id: nat)
    | Drop(id: nat)
    | ReadUnlock(id: nat)
    | AskClose(id: nat)
    | WriteLock(id: nat)
    | TestClose(id: nat)
    | CloseChannel(id: nat)
    | WriteUnlock(id: nat)
    | Receive
    | Check
    | Settle(fate: Fate)
    | Exit
    | Cancel

  predicate ReadHeld(pc: EnqueuePc) { pc.Reading? || pc.Sending? || pc.Dropping? || pc.Releasing? }
  predicate WriteHeld(pc: ClosePc) { pc.Testing? || pc.Closing? || pc.Unlocking? }

  predicate CallAt<R>(s: State<R>, id: nat, pc: EnqueuePc) { id in s.calls && s.calls[id].pc == pc }
  predicate CloserAt<R>(s: State<R>, id: nat, pc: ClosePc) { id in s.closers && s.closers[id] == pc }

  predicate NoReader<R>(s: State<R>) { forall c :: c in s.calls ==> !ReadHeld(s.calls[c].pc) }
  predicate NoWriter<R>(s: State<R>) { forall k :: k in s.closers ==> !WriteHeld(s.closers[k]) }

  predicate Enabled<R>(s: State<R>, step: Step<R>) {
    !s.panicked &&
    match step
    case Arrive(id, _) => id !in s.calls
    case ReadLock(id) => CallAt(s, id, Arrived) && NoWriter(s)
    case TestFlag(id) => CallAt(s, id, Reading)
    case Send(id) => CallAt(s, id, Sending)
    case Drop(id) => CallAt(s, id, Dropping)
    case ReadUnlock(id) => id in s.calls && s.calls[id].pc.Releasing?
    case AskClose(id) => id !in s.closers
    case WriteLock(id) => CloserAt(s, id, Waiting) && NoReader(s) && NoWriter(s)
    case TestClose(id) => CloserAt(s, id, Testing)
    case CloseChannel(id) => CloserAt(s, id, Closing)
    case WriteUnlock(id) => CloserAt(s, id, Unlocking)
    case Receive => s.worker.Idle? && s.items != []
    case Check => s.worker.Checking?
    case Settle(fate) => s.worker.Persisting? && (fate.Abandoned? ==> s.cancelled)
    case Exit => s.worker.Idle? && s.items == [] && s.channelClosed
    case Cancel => true
  }

  function At<R>(s: State<R>, id: nat, pc: EnqueuePc): State<R>
    requires id in s.calls
  {
    s.(calls := s.calls[id := s.calls[id].(pc := pc)])
  }

  function CloserMoves<R>(s: State<R>, id: nat, pc: ClosePc): State<R> {
    s.(closers := s.closers[id := pc])
  }

  /** A send on a closed channel panics, also inside `select`; so does closing it again. */
  function Next<R>(s: State<R>, step: Step<R>): State<R>
    requires Enabled(s, step)
  {
    match step
    case Arrive(id, record) => s.(calls := s.calls[id := Call(record, Arrived)])
    case ReadLock(id) => At(s, id, Reading)
    case TestFlag(id) => At(s, id, if s.closed then Dropping else Sending)
    case Send(id) =>
      if s.channelClosed then s.(panicked := true)
      else if |s.items| < s.capacity then
        var e := Entry(id, s.calls[id].record);
        At(s, id, Releasing(true)).(items := s.items + [e], accepted := s.accepted + [e])
      else At(s, id, Dropping)
    case Drop(id) => At(s, id, Releasing(false)).(dropped := s.dropped + 1)
    case ReadUnlock(id) => At(s, id, Returned(s.calls[id].pc.ok))
    case AskClose(id) => CloserMoves(s, id, Waiting)
    case WriteLock(id) => CloserMoves(s, id, Testing)
    case TestClose(id) =>
      if s.closed then CloserMoves(s, id, Unlocking) else CloserMoves(s, id, Closing).(closed := true)
    case CloseChannel(id) =>
      if s.channelClosed then s.(panicked := true)
      else CloserMoves(s, id, Unlocking).(channelClosed := true, closings := s.closings + 1)
    case WriteUnlock(id) => CloserMoves(s, id, Finished)
    case Receive => s.(items := s.items[1..], worker := Checking(s.items[0]))
    case Check =>
      if s.cancelled then s.(worker := Exited, settled := s.settled + [Settled(s.worker.entry, Abandoned)])
      else s.(worker := Persisting(s.worker.entry))
    case Settle(fate) => s.(worker := Idle, settled := s.settled + [Settled(s.worker.entry, fate)])
    case Exit => s.(worker := Exited)
    case Cancel => s.(cancelled := true)
  }

  function Start<R>(capacity: nat): State<R> {
    State(capacity, false, false, 0, false, [], 0, map[], map[], Idle, false, [], [])
  }

  predicate Run<R>(s: State<R>, steps: seq<Step<R>>)
    decreases |steps|
  {
    steps == [] || (Enabled(s, steps[0]) && Run(Next(s, steps[0]), steps[1..]))
  }

  function After<R>(s: State<R>, steps: seq<Step<R>>): State<R>
    requires Run(s, steps)
    decreases |steps|
  {
    if steps == [] then s else After(Next(s, steps[0]), steps[1..])
  }

  // -------------------------------------------------- the lock and the channel

  predicate ReadersOrWriter<R>(s: State<R>) {
    NoReader(s) || NoWriter(s)
  }

  predicate OneWriter<R>(s: State<R>) {
    forall j, k :: j in s.closers && k in s.closers && j != k ==> !(WriteHeld(s.closers[j]) && WriteHeld(s.closers[k]))
  }

  predicate Exclusion<R>(s: State<R>) {
    ReadersOrWriter(s) && OneWriter(s)
  }

  /** The flag is set while some closer is about to close the channel, and from then on. */
  predicate FlagMeaning<R>(s: State<R>) {
    && (s.channelClosed ==> s.closed)
    && (forall k :: k in s.closers && s.closers[k].Closing? ==> s.closed && !s.channelClosed)
    && (s.closed && !s.channelClosed ==> exists k :: k in s.closers && s.closers[k].Closing?)
  }

  /** The read lock spans the flag test and the send, so the test is still true at the send. */
  predicate SendersSawOpen<R>(s: State<R>) {
    forall c :: c in s.calls && s.calls[c].pc.Sending? ==> !s.closed
  }

  predicate ChannelSafe<R>(s: State<R>) {
    && !s.panicked && s.closings == (if s.channelClosed then 1 else 0)
    && Exclusion(s) && FlagMeaning(s) && SendersSawOpen(s)
  }

  lemma ExclusionStep<R>(s: State<R>, step: Step<R>)
    requires Exclusion(s) && Enabled(s, step)
    ensures Exclusion(Next(s, step))
  {
    WriterStep(s, step);
    var t := Next(s, step);
    if NoReader(s) && !step.ReadLock? {
      assert NoReader(t);
    } else {
      assert NoWriter(t);
    }
  }

  predicate CloserStep<R>(step: Step<R>) {
    step.AskClose? || step.WriteLock? || step.TestClose? || step.CloseChannel? || step.WriteUnlock?
  }

  /** A step moves at most its own closer, and only WriteLock gives out the lock. */
  lemma OwnCloserOnly<R>(s: State<R>, step: Step<R>, k: nat)
    requires Enabled(s, step)
    ensures !CloserStep(step) || k != step.id ==>
      (k in Next(s, step).closers <==> k in s.closers) && (k in s.closers ==> Next(s, step).closers[k] == s.closers[k])
    ensures k in Next(s, step).closers && WriteHeld(Next(s, step).closers[k]) && step != WriteLock(k) ==>
      k in s.closers && WriteHeld(s.closers[k])
  {
  }

  lemma WriterStep<R>(s: State<R>, step: Step<R>)
    requires OneWriter(s) && Enabled(s, step)
    ensures OneWriter(Next(s, step))
  {
    var t := Next(s, step);
    forall j, k | j in t.closers && k in t.closers && j != k
      ensures !(WriteHeld(t.closers[j]) && WriteHeld(t.closers[k]))
    {
      OwnCloserOnly(s, step, j);
      OwnCloserOnly(s, step, k);
    }
  }

  lemma FlagStep<R>(s: State<R>, step: Step<R>)
    requires Exclusion(s) && FlagMeaning(s) && Enabled(s, step)
    ensures FlagMeaning(Next(s, step))
  {
    var t := Next(s, step);
    if s.closed && !s.channelClosed {
      var k :| k in s.closers && s.closers[k].Closing?;
      if t.closed && !t.channelClosed { assert k in t.closers && t.closers[k].Closing?; }
    }
    if step.TestClose? && !s.closed { assert t.closers[step.id].Closing?; }
  }

  lemma SendersStep<R>(s: State<R>, step: Step<R>)
    requires Exclusion(s) && SendersSawOpen(s) && Enabled(s, step)
    ensures SendersSawOpen(Next(s, step))
  {
  }

  lemma ChannelStep<R>(s: State<R>, step: Step<R>)
    requires ChannelSafe(s) && Enabled(s, step)
    ensures ChannelSafe(Next(s, step))
  {
    ExclusionStep(s, step);
    FlagStep(s, step);
    SendersStep(s, step);
  }

  // -------------------------------------------------------------- accounting

  ghost function InHand<R>(w: Worker<R>): seq<Entry<R>> {
    if w.Checking? || w.Persisting? then [w.entry] else []
  }

  function Entries<R>(settled: seq<Settled<R>>): seq<Entry<R>> {
    seq(|settled|, i requires 0 <= i < |settled| => settled[i].entry)
  }

  /** Records the worker has received so far, in order. */
  ghost function Taken<R>(s: State<R>): seq<Entry<R>> {
    Entries(s.settled) + InHand(s.worker)
  }

  predicate Ended(pc: EnqueuePc, ok: bool) { pc == Releasing(ok) || pc == Returned(ok) }

  function EndedCalls<R>(s: State<R>, ok: bool): set<nat> {
    set c | c in s.calls && Ended(s.calls[c].pc, ok)
  }

  function DroppingCalls<R>(s: State<R>): set<nat> {
    set c | c in s.calls && s.calls[c].pc.Dropping?
  }

  /** Every accepted entry is the record of one successful call, and no call appears twice. */
  ghost predicate AcceptedAreCalls<R>(s: State<R>) {
    && (forall i :: 0 <= i < |s.accepted| ==>
          var e := s.accepted[i];
          e.call in s.calls && Ended(s.calls[e.call].pc, true) && s.calls[e.call].record == e.record)
    && (forall i, j :: 0 <= i < j < |s.accepted| ==> s.accepted[i].call != s.accepted[j].call)
  }

  ghost predicate Accounted<R>(s: State<R>) {
    && InOrder(s)
    && |s.items| <= s.capacity
    && |EndedCalls(s, true)| == |s.accepted|
    && |EndedCalls(s, false)| == s.dropped
    && AcceptedAreCalls(s)
  }

  /** The step by which a call ends with `ok`. */
  predicate Ends<R>(s: State<R>, step: Step<R>, ok: bool) {
    (step.Send? && ok && !s.channelClosed && |s.items| < s.capacity) || (step.Drop? && !ok)
  }

  /** The steps of an Enqueue call that has arrived. */
  predicate CallStep<R>(step: Step<R>) {
    step.ReadLock? || step.TestFlag? || step.Send? || step.Drop? || step.ReadUnlock?
  }

  /** Where such a step leaves its call. */
  function NextPc<R>(s: State<R>, step: Step<R>): EnqueuePc
    requires Enabled(s, step) && CallStep(step)
  {
    match step
    case ReadLock(_) => Reading
    case TestFlag(_) => if s.closed then Dropping else Sending
    case Send(_) => if s.channelClosed then Sending else if |s.items| < s.capacity then Releasing(true) else Dropping
    case Drop(_) => Releasing(false)
    case ReadUnlock(_) => Returned(s.calls[step.id].pc.ok)
  }

  function CallsAfter<R>(s: State<R>, step: Step<R>): map<nat, Call<R>>
    requires Enabled(s, step)
  {
    if step.Arrive? then s.calls[step.id := Call(step.record, Arrived)]
    else if CallStep(step) then s.calls[step.id := s.calls[step.id].(pc := NextPc(s, step))]
    else s.calls
  }

  lemma OwnCallOnly<R>(s: State<R>, step: Step<R>)
    requires Enabled(s, step)
    ensures Next(s, step).calls == CallsAfter(s, step)
  {
    if step.Send? && s.channelClosed { assert s.calls[step.id := s.calls[step.id].(pc := Sending)] == s.calls; }
  }

  lemma CallEnds<R>(s: State<R>, step: Step<R>, ok: bool, c: nat)
    requires Enabled(s, step)
    ensures c in EndedCalls(Next(s, step), ok) <==> c in EndedCalls(s, ok) || (Ends(s, step, ok) && c == step.id)
  {
    OwnCallOnly(s, step);
    var calls := CallsAfter(s, step);
    assert c in EndedCalls(Next(s, step), ok) <==> c in calls && Ended(calls[c].pc, ok);
  }

  lemma EndedStep<R>(s: State<R>, step: Step<R>, ok: bool)
    requires Enabled(s, step)
    ensures EndedCalls(Next(s, step), ok) ==
      if Ends(s, step, ok) then EndedCalls(s, ok) + {step.id} else EndedCalls(s, ok)
  {
    forall c
      ensures c in EndedCalls(Next(s, step), ok) <==> c in EndedCalls(s, ok) || (Ends(s, step, ok) && c == step.id)
    {
      CallEnds(s, step, ok, c);
    }
  }

  /** What a call has decided: to be dropped, or what it returns. */
  function ResultOf<R>(s: State<R>, c: nat): Option<bool> {
    if c !in s.calls then None
    else
      match s.calls[c].pc
      case Dropping => Some(false)
      case Releasing(ok) => Some(ok)
      case Returned(ok) => Some(ok)
      case _ => None
  }

  /** A call keeps its record, and what it has decided. */
  lemma CallKept<R>(s: State<R>, step: Step<R>, c: nat)
    requires Enabled(s, step) && c in s.calls
    ensures var t := Next(s, step);
      && c in t.calls && t.calls[c].record == s.calls[c].record
      && (Ended(s.calls[c].pc, true) ==> Ended(t.calls[c].pc, true))
      && (ResultOf(s, c).Some? ==> ResultOf(t, c) == ResultOf(s, c))
  {
    OwnCallOnly(s, step);
    var calls := CallsAfter(s, step);
    assert c in calls && calls[c].record == s.calls[c].record;
  }

  lemma AcceptedSame<R>(s: State<R>, step: Step<R>)
    requires Enabled(s, step) && AcceptedAreCalls(s) && Next(s, step).accepted == s.accepted
    ensures AcceptedAreCalls(Next(s, step))
  {
    var t := Next(s, step);
    forall i | 0 <= i < |t.accepted|
      ensures var e := t.accepted[i];
              e.call in t.calls && Ended(t.calls[e.call].pc, true) && t.calls[e.call].record == e.record
    {
      assert s.accepted[i].call in s.calls;
      CallKept(s, step, s.accepted[i].call);
    }
  }

  lemma AcceptedSend<R>(s: State<R>, id: nat)
    requires Enabled(s, Send(id)) && AcceptedAreCalls(s) && !s.channelClosed && |s.items| < s.capacity
    ensures AcceptedAreCalls(Next(s, Send(id)))
  {
    var t := Next(s, Send(id));
    forall i | 0 <= i < |s.accepted|
      ensures var e := t.accepted[i];
              && e.call in t.calls && Ended(t.calls[e.call].pc, true) && t.calls[e.call].record == e.record
              && e.call != id
    {
      assert t.accepted[i] == s.accepted[i];
    }
  }

  lemma AcceptedStep<R>(s: State<R>, step: Step<R>)
    requires Enabled(s, step) && AcceptedAreCalls(s)
    ensures AcceptedAreCalls(Next(s, step))
  {
    if step.Send? && !s.channelClosed && |s.items| < s.capacity {
      AcceptedSend(s, step.id);
    } else {
      AcceptedSame(s, step);
    }
  }

  lemma EntriesSnoc<R>(settled: seq<Settled<R>>, e: Entry<R>, fate: Fate)
    ensures Entries(settled + [Settled(e, fate)]) == Entries(settled) + [e]
  {
  }

  ghost predicate InOrder<R>(s: State<R>) {
    s.accepted == Taken(s) + s.items
  }

  lemma TakenReceive<R>(s: State<R>)
    requires Enabled(s, Receive) && InOrder(s)
    ensures InOrder(Next(s, Receive))
  {
    var t := Next(s, Receive);
    assert Taken(t) == Taken(s) + [s.items[0]];
    assert s.items == [s.items[0]] + t.items;
    assert Taken(s) + ([s.items[0]] + t.items) == Taken(s) + [s.items[0]] + t.items;
  }

  lemma TakenSettled<R>(s: State<R>, step: Step<R>, fate: Fate)
    requires Enabled(s, step) && InOrder(s) && ((step.Check? && s.cancelled && fate.Abandoned?) || step == Settle(fate))
    ensures InOrder(Next(s, step))
  {
    EntriesSnoc(s.settled, s.worker.entry, fate);
    assert Taken(Next(s, step)) == Taken(s);
  }

  lemma TakenSend<R>(s: State<R>, id: nat)
    requires Enabled(s, Send(id)) && InOrder(s)
    ensures InOrder(Next(s, Send(id)))
  {
    var t := Next(s, Send(id));
    assert Taken(t) == Taken(s);
    if t.items != s.items {
      var e := Entry(id, s.calls[id].record);
      assert Taken(s) + s.items + [e] == Taken(s) + (s.items + [e]);
    }
  }

  lemma TakenSame<R>(s: State<R>, step: Step<R>)
    requires Enabled(s, step) && InOrder(s)
    requires !step.Receive? && !(step.Check? && s.cancelled) && !step.Settle? && !step.Send?
    ensures InOrder(Next(s, step))
  {
    var t := Next(s, step);
    assert t.accepted == s.accepted && t.items == s.items && t.settled == s.settled;
    assert InHand(t.worker) == InHand(s.worker);
  }

  lemma TakenStep<R>(s: State<R>, step: Step<R>)
    requires Enabled(s, step) && InOrder(s)
    ensures InOrder(Next(s, step))
  {
    if step.Receive? {
      TakenReceive(s);
    } else if step.Check? && s.cancelled {
      TakenSettled(s, step, Abandoned);
    } else if step.Settle? {
      TakenSettled(s, step, step.fate);
    } else if step.Send? {
      TakenSend(s, step.id);
    } else {
      TakenSame(s, step);
    }
  }

  lemma AccountStep<R>(s: State<R>, step: Step<R>)
    requires Accounted(s) && Enabled(s, step)
    ensures Accounted(Next(s, step))
  {
    EndedCount(s, step, true);
    EndedCount(s, step, false);
    AcceptedStep(s, step);
    TakenStep(s, step);
    CountStep(s, step);
  }

  lemma EndedCount<R>(s: State<R>, step: Step<R>, ok: bool)
    requires Enabled(s, step)
    ensures |EndedCalls(Next(s, step), ok)| == |EndedCalls(s, ok)| + Once(Ends(s, step, ok))
  {
    EndedStep(s, step, ok);
    if Ends(s, step, ok) { assert step.id !in EndedCalls(s, ok); }
  }

  lemma CountCallStep<R>(s: State<R>, step: Step<R>)
    requires Enabled(s, step) && |s.items| <= s.capacity && (step.Send? || step.Drop?)
    ensures var t := Next(s, step);
      && |t.items| <= t.capacity
      && |t.accepted| == |s.accepted| + Once(Ends(s, step, true)) && t.dropped == s.dropped + Once(Ends(s, step, false))
  {
  }

  lemma CountOtherStep<R>(s: State<R>, step: Step<R>)
    requires Enabled(s, step) && |s.items| <= s.capacity && !step.Send? && !step.Drop?
    ensures var t := Next(s, step); |t.items| <= t.capacity && t.accepted == s.accepted && t.dropped == s.dropped
  {
  }

  /** The channel stays within capacity; acceptances and drops are counted where calls end. */
  lemma CountStep<R>(s: State<R>, step: Step<R>)
    requires Enabled(s, step) && |s.items| <= s.capacity
    ensures var t := Next(s, step);
      && |t.items| <= t.capacity
      && |t.accepted| == |s.accepted| + Once(Ends(s, step, true)) && t.dropped == s.dropped + Once(Ends(s, step, false))
  {
    if step.Send? || step.Drop? { CountCallStep(s, step); } else { CountOtherStep(s, step); }
  }

  // -------------------------------------------------------------- whole runs

  predicate ExitMeaning<R>(s: State<R>) {
    && (s.worker.Exited? ==> s.cancelled || (s.channelClosed && s.items == []))
    && (!s.cancelled ==> forall i :: 0 <= i < |s.settled| ==> !s.settled[i].fate.Abandoned?)
  }

  ghost predicate Inv<R>(s: State<R>) {
    ChannelSafe(s) && Accounted(s) && ExitMeaning(s)
  }

  lemma InvStep<R>(s: State<R>, step: Step<R>)
    requires Inv(s) && Enabled(s, step)
    ensures Inv(Next(s, step))
  {
    ChannelStep(s, step);
    AccountStep(s, step);
  }

  lemma {:induction false} InvRun<R>(s: State<R>, steps: seq<Step<R>>)
    requires Inv(s) && Run(s, steps)
    ensures Inv(After(s, steps))
    decreases |steps|
  {
    if steps != [] {
      InvStep(s, steps[0]);
      InvRun(Next(s, steps[0]), steps[1..]);
    }
  }

  lemma StartInv<R>(capacity: nat)
    ensures Inv(Start<R>(capacity))
  {
    var s := Start<R>(capacity);
    assert EndedCalls(s, true) == {} && EndedCalls(s, false) == {};
    assert Taken(s) + s.items == [];
  }

  /**
   Channel safety: in every interleaving of any number of Enqueue and Close calls with the worker,
   no send reaches a closed channel, and the channel is closed at most once.
   */
  lemma NeverPanics<R>(capacity: nat, steps: seq<Step<R>>)
    requires Run(Start<R>(capacity), steps)
    ensures var s := After(Start<R>(capacity), steps); !s.panicked && s.closings <= 1
  {
    StartInv<R>(capacity);
    InvRun(Start<R>(capacity), steps);
  }

  /**
   Conservation: in every reachable state the calls that have decided are the accepted and the
   dropped ones, and the accepted records are those taken, in order, followed by the channel.
   */
  lemma NothingLost<R>(capacity: nat, steps: seq<Step<R>>)
    requires Run(Start<R>(capacity), steps)
    ensures var s := After(Start<R>(capacity), steps);
      && |EndedCalls(s, true) + EndedCalls(s, false)| == |s.accepted| + s.dropped
      && s.accepted == Taken(s) + s.items && |s.items| <= s.capacity
      && AcceptedAreCalls(s)
  {
    StartInv<R>(capacity);
    InvRun(Start<R>(capacity), steps);
    var s := After(Start<R>(capacity), steps);
    assert EndedCalls(s, true) !! EndedCalls(s, false);
  }

  /** When every call has returned, accepted and dropped add up to all calls ever made. */
  lemma AllCallsCounted<R>(capacity: nat, steps: seq<Step<R>>)
    requires Run(Start<R>(capacity), steps)
    requires var s := After(Start<R>(capacity), steps); forall c :: c in s.calls ==> s.calls[c].pc.Returned?
    ensures var s := After(Start<R>(capacity), steps); |s.calls| == |s.accepted| + s.dropped
  {
    NothingLost(capacity, steps);
    var s := After(Start<R>(capacity), steps);
    assert EndedCalls(s, true) + EndedCalls(s, false) == s.calls.Keys;
    assert |s.calls| == |s.calls.Keys|;
  }

  // ------------------------------------------------- the interleaving is atomic

  /** A drop counts from the moment it is decided, though the counter is raised a step later. */
  function Abstract<R>(s: State<R>): Queue<R> {
    Queue(s.capacity, s.channelClosed, s.items, s.dropped + |DroppingCalls(s)|)
  }

  lemma DroppingStep<R>(s: State<R>, step: Step<R>)
    requires Enabled(s, step)
    ensures var d := DroppingCalls(s);
      DroppingCalls(Next(s, step)) ==
        if step.TestFlag? && s.closed then d + {step.id}
        else if step.Send? && !s.channelClosed && |s.items| >= s.capacity then d + {step.id}
        else if step.Drop? then d - {step.id}
        else d
  {
  }

  datatype Op<R> = OfferOp(entry: Entry<R>) | ShutOp | TakeOp

  function Do<R>(q: Queue<R>, op: Op<R>): Queue<R> {
    match op
    case OfferOp(e) => Offer(q, e)
    case ShutOp => Shut(q)
    case TakeOp => if q.items == [] then q else Take(q)
  }

  /** The step at which a call takes effect, if this is it. */
  function Effect<R>(s: State<R>, step: Step<R>): Option<Op<R>>
    requires Enabled(s, step)
  {
    match step
    case TestFlag(id) => if s.closed then Some(OfferOp(Entry(id, s.calls[id].record))) else None
    case Send(id) => Some(OfferOp(Entry(id, s.calls[id].record)))
    case CloseChannel(_) => Some(ShutOp)
    case Receive => Some(TakeOp)
    case _ => None
  }

  lemma SendIsAtomic<R>(s: State<R>, id: nat)
    requires ChannelSafe(s) && Enabled(s, Send(id))
    ensures Abstract(Next(s, Send(id))) == Offer(Abstract(s), Entry(id, s.calls[id].record))
    ensures CallAt(Next(s, Send(id)), id, Releasing(true)) <==> Accepts(Abstract(s))
  {
    SenderIsOpen(s, id);
    DroppingStep(s, Send(id));
  }

  lemma TestIsAtomic<R>(s: State<R>, id: nat)
    requires ChannelSafe(s) && Enabled(s, TestFlag(id)) && s.closed
    ensures Abstract(Next(s, TestFlag(id))) == Offer(Abstract(s), Entry(id, s.calls[id].record))
    ensures !Accepts(Abstract(s))
  {
    ReaderSeesClosed(s, id);
    DroppingStep(s, TestFlag(id));
  }

  lemma OtherIsAtomic<R>(s: State<R>, step: Step<R>)
    requires ChannelSafe(s) && Enabled(s, step) && !step.Send? && !(step.TestFlag? && s.closed)
    ensures Abstract(Next(s, step)) ==
      if step.CloseChannel? then Shut(Abstract(s)) else if step.Receive? then Take(Abstract(s)) else Abstract(s)
  {
    DroppingStep(s, step);
  }

  lemma StepIsAtomic<R>(s: State<R>, step: Step<R>)
    requires ChannelSafe(s) && Enabled(s, step)
    ensures var op := Effect(s, step);
      Abstract(Next(s, step)) == if op.Some? then Do(Abstract(s), op.value) else Abstract(s)
    ensures step.Send? ==> (CallAt(Next(s, step), step.id, Releasing(true)) <==> Accepts(Abstract(s)))
    ensures step.TestFlag? && s.closed ==> !Accepts(Abstract(s))
  {
    if step.Send? {
      SendIsAtomic(s, step.id);
    } else if step.TestFlag? && s.closed {
      TestIsAtomic(s, step.id);
    } else {
      OtherIsAtomic(s, step);
    }
  }

  function Effects<R>(s: State<R>, steps: seq<Step<R>>): seq<Op<R>>
    requires Run(s, steps)
    decreases |steps|
  {
    if steps == [] then []
    else
      var op := Effect(s, steps[0]);
      (if op.Some? then [op.value] else []) + Effects(Next(s, steps[0]), steps[1..])
  }

  function DoAll<R>(q: Queue<R>, ops: seq<Op<R>>): Queue<R>
    decreases |ops|
  {
    if ops == [] then q else DoAll(Do(q, ops[0]), ops[1..])
  }

  /**
   Linearisability: every interleaved run has the effect of its calls performed one at a time, each
   at one of its own steps, on the sequential queue that `SharedQueue` implements.
   */
  lemma {:induction false} RunIsAtomic<R>(s: State<R>, steps: seq<Step<R>>)
    requires ChannelSafe(s) && Run(s, steps)
    ensures Abstract(After(s, steps)) == DoAll(Abstract(s), Effects(s, steps))
    decreases |steps|
  {
    if steps != [] {
      var t, op := Next(s, steps[0]), Effect(s, steps[0]);
      StepIsAtomic(s, steps[0]);
      ChannelStep(s, steps[0]);
      RunIsAtomic(t, steps[1..]);
      var rest := Effects(t, steps[1..]);
      if op.Some? {
        assert ([op.value] + rest)[1..] == rest;
      } else {
        assert [] + rest == rest;
      }
    }
  }

  /** How often a call is offered. */
  function Offers<R>(ops: seq<Op<R>>, id: nat): nat {
    if ops == [] then 0 else (if ops[0].OfferOp? && ops[0].entry.call == id then 1 else 0) + Offers(ops[1..], id)
  }

  lemma {:induction false} OffersJoin<R>(a: seq<Op<R>>, b: seq<Op<R>>, id: nat)
    ensures Offers(a + b, id) == Offers(a, id) + Offers(b, id)
  {
    if a == [] {
      assert a + b == b;
    } else {
      OffersJoin(a[1..], b, id);
      assert (a + b)[1..] == a[1..] + b;
    }
  }

  /** A call takes effect in the step by which it decides, and in no other. */
  lemma EffectDecides<R>(s: State<R>, step: Step<R>, id: nat)
    requires ChannelSafe(s) && Enabled(s, step)
    ensures var op := Effect(s, step);
      Once(op.Some? && op.value.OfferOp? && op.value.entry.call == id) + Once(ResultOf(s, id).Some?)
        == Once(ResultOf(Next(s, step), id).Some?)
  {
    OwnCallOnly(s, step);
    if step.Send? { SenderIsOpen(s, step.id); }
  }

  lemma SenderIsOpen<R>(s: State<R>, id: nat)
    requires ChannelSafe(s) && CallAt(s, id, Sending)
    ensures !s.channelClosed
  {
  }

  /**
   Each call takes effect exactly once: it has been offered once if it has decided meanwhile, and not at
   all otherwise.
   */
  lemma {:induction false} EachCallTakesEffectOnce<R>(s: State<R>, steps: seq<Step<R>>, id: nat)
    requires ChannelSafe(s) && Run(s, steps)
    ensures Offers(Effects(s, steps), id) + Once(ResultOf(s, id).Some?) == Once(ResultOf(After(s, steps), id).Some?)
    decreases |steps|
  {
    if steps != [] {
      var t, op := Next(s, steps[0]), Effect(s, steps[0]);
      EffectDecides(s, steps[0], id);
      ChannelStep(s, steps[0]);
      EachCallTakesEffectOnce(t, steps[1..], id);
      var first := if op.Some? then [op.value] else [];
      OffersJoin(first, Effects(t, steps[1..]), id);
      if op.Some? { assert first[1..] == []; }
    }
  }

  lemma {:induction false} ResultKept<R>(s: State<R>, steps: seq<Step<R>>, c: nat)
    requires Run(s, steps) && c in s.calls
    ensures c in After(s, steps).calls && After(s, steps).calls[c].record == s.calls[c].record
    ensures ResultOf(s, c).Some? ==> ResultOf(After(s, steps), c) == ResultOf(s, c)
    decreases |steps|
  {
    if steps != [] {
      CallKept(s, steps[0], c);
      ResultKept(Next(s, steps[0]), steps[1..], c);
    }
  }

  /** At the step that takes effect, the call's own record is offered and its result is the queue's answer. */
  lemma OwnResult<R>(s: State<R>, step: Step<R>)
    requires ChannelSafe(s) && Enabled(s, step) && Effect(s, step).Some? && Effect(s, step).value.OfferOp?
    ensures var e := Effect(s, step).value.entry;
      && e.call in Next(s, step).calls && Next(s, step).calls[e.call].record == e.record
      && ResultOf(Next(s, step), e.call) == Some(Accepts(Abstract(s)))
  {
    if step.Send? { SenderIsOpen(s, step.id); } else { ReaderSeesClosed(s, step.id); }
  }

  /** The operation at `k` is an offer of a call's own record, and the call's result is what it answers there. */
  ghost predicate Answered<R>(q: Queue<R>, ops: seq<Op<R>>, k: nat, t: State<R>)
    requires k < |ops|
  {
    ops[k].OfferOp? ==>
      var e := ops[k].entry;
      && e.call in t.calls && t.calls[e.call].record == e.record
      && ResultOf(t, e.call) == Some(Accepts(DoAll(q, ops[..k])))
  }

  lemma AnsweredFirst<R>(s: State<R>, steps: seq<Step<R>>)
    requires ChannelSafe(s) && Run(s, steps) && steps != [] && Effect(s, steps[0]).Some?
    ensures Effects(s, steps) != [] && Answered(Abstract(s), Effects(s, steps), 0, After(s, steps))
  {
    var t, op := Next(s, steps[0]), Effect(s, steps[0]).value;
    assert Effects(s, steps)[0] == op && Effects(s, steps)[..0] == [];
    if op.OfferOp? {
      OwnResult(s, steps[0]);
      ResultKept(t, steps[1..], op.entry.call);
    }
  }

  lemma AnsweredLater<R>(q: Queue<R>, op: Op<R>, rest: seq<Op<R>>, k: nat, t: State<R>)
    requires k < |rest| && Answered(Do(q, op), rest, k, t)
    ensures Answered(q, [op] + rest, k + 1, t)
  {
    var ops := [op] + rest;
    assert ops[k + 1] == rest[k] && ops[..k + 1][0] == op && ops[..k + 1][1..] == rest[..k];
  }

  /**
   Every call returns what the sequential queue answers to it at its own place in the order of effects, and
   what is offered there is the call's own record.
   */
  lemma {:induction false} ResultsAreSequential<R>(s: State<R>, steps: seq<Step<R>>, k: nat)
    requires ChannelSafe(s) && Run(s, steps) && k < |Effects(s, steps)|
    ensures Answered(Abstract(s), Effects(s, steps), k, After(s, steps))
    decreases |steps|
  {
    var t, op := Next(s, steps[0]), Effect(s, steps[0]);
    var rest := Effects(t, steps[1..]);
    StepIsAtomic(s, steps[0]);
    ChannelStep(s, steps[0]);
    if op.Some? {
      assert Effects(s, steps) == [op.value] + rest;
      if k == 0 {
        AnsweredFirst(s, steps);
      } else {
        ResultsAreSequential(t, steps[1..], k - 1);
        AnsweredLater(Abstract(s), op.value, rest, k - 1, After(s, steps));
      }
    } else {
      assert Effects(s, steps) == rest;
      ResultsAreSequential(t, steps[1..], k);
    }
  }

  /** Whoever holds the read lock and finds the flag set also finds the channel closed. */
  lemma ReaderSeesClosed<R>(s: State<R>, id: nat)
    requires ChannelSafe(s) && id in s.calls && ReadHeld(s.calls[id].pc) && s.closed
    ensures s.channelClosed
  {
  }

  // ------------------------------------------------------------------- drain

  predicate WorkerStep<R>(step: Step<R>) { step.Receive? || step.Check? || step.Settle? || step.Exit? }

  /** Worker steps that can still happen once nothing more can be sent. */
  function Remaining<R>(s: State<R>): nat {
    3 * |s.items| + match s.worker
                    case Exited => 0
                    case Idle => 1
                    case Persisting(_) => 2
                    case Checking(_) => 3
  }

  function WorkerSteps<R>(steps: seq<Step<R>>): nat {
    if steps == [] then 0 else (if WorkerStep(steps[0]) then 1 else 0) + WorkerSteps(steps[1..])
  }

  /** The worker is never stuck on a closed channel. */
  lemma WorkerCanMove<R>(s: State<R>)
    requires Inv(s) && s.channelClosed && !s.worker.Exited?
    ensures exists step: Step<R> :: WorkerStep(step) && Enabled(s, step)
  {
    if s.worker.Idle? {
      if s.items == [] { assert Enabled(s, Exit); } else { assert Enabled(s, Receive); }
    } else if s.worker.Checking? {
      assert Enabled(s, Check);
    } else {
      assert Enabled(s, Settle(Stored));
    }
  }

  lemma DrainWorker<R>(s: State<R>, step: Step<R>)
    requires Enabled(s, step) && WorkerStep(step)
    ensures var t := Next(s, step);
      t.channelClosed == s.channelClosed && t.accepted == s.accepted && Remaining(t) < Remaining(s)
  {
  }

  lemma DrainOther<R>(s: State<R>, step: Step<R>)
    requires Enabled(s, step) && !WorkerStep(step) && !step.Send?
    ensures var t := Next(s, step);
      (s.channelClosed ==> t.channelClosed) && t.accepted == s.accepted && Remaining(t) == Remaining(s)
  {
  }

  lemma DrainStep<R>(s: State<R>, step: Step<R>)
    requires Inv(s) && s.channelClosed && Enabled(s, step)
    ensures var t := Next(s, step);
      t.channelClosed && t.accepted == s.accepted
      && (if WorkerStep(step) then Remaining(t) < Remaining(s) else Remaining(t) == Remaining(s))
  {
    if WorkerStep(step) {
      DrainWorker(s, step);
    } else {
      if step.Send? { SenderIsOpen(s, step.id); }
      DrainOther(s, step);
    }
  }

  /** After Close, in every interleaving, the worker takes boundedly many steps and accepts nothing new. */
  lemma {:induction false} DrainIsBounded<R>(s: State<R>, steps: seq<Step<R>>)
    requires Inv(s) && s.channelClosed && Run(s, steps)
    ensures WorkerSteps(steps) + Remaining(After(s, steps)) <= Remaining(s)
    ensures After(s, steps).accepted == s.accepted && After(s, steps).channelClosed
    decreases |steps|
  {
    if steps != [] {
      DrainStep(s, steps[0]);
      InvStep(s, steps[0]);
      DrainIsBounded(Next(s, steps[0]), steps[1..]);
    }
  }

  /**
   Drain: a worker that ends without having been cancelled has settled every accepted record, in the
   order of acceptance, each exactly once, as stored, filtered or failed.
   */
  lemma DrainedCompletely<R>(capacity: nat, steps: seq<Step<R>>)
    requires Run(Start<R>(capacity), steps)
    requires var s := After(Start<R>(capacity), steps); s.worker.Exited? && !s.cancelled
    ensures var s := After(Start<R>(capacity), steps);
      && Entries(s.settled) == s.accepted
      && (forall i :: 0 <= i < |s.settled| ==> s.settled[i].fate in {Stored, Filtered, Failed})
      && AcceptedAreCalls(s)
  {
    StartInv<R>(capacity);
    InvRun(Start<R>(capacity), steps);
    var s := After(Start<R>(capacity), steps);
    assert Taken(s) + s.items == Entries(s.settled);
  }
}
