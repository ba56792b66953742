/**
 The queue never looks at the records it carries (queue.go:22-61): replacing every record by another turns a
 run into a run, with the same calls, drops, order and fates.
 */
module BlindQueue {
  import opened RecordQueue

  function MapEntry<A, B>(e: Entry<A>, f: A -> B): Entry<B> { Entry(e.call, f(e.record)) }

  function MapEntries<A, B>(es: seq<Entry<A>>, f: A -> B): seq<Entry<B>> {
    seq(|es|, i requires 0 <= i < |es| => MapEntry(es[i], f))
  }

  function MapSettled<A, B>(settled: seq<Settled<A>>, f: A -> B): seq<Settled<B>> {
    seq(|settled|, i requires 0 <= i < |settled| => Settled(MapEntry(settled[i].entry, f), settled[i].fate))
  }

  function MapCall<A, B>(c: Call<A>, f: A -> B): Call<B> { Call(f(c.record), c.pc) }

  function MapCalls<A, B>(calls: map<nat, Call<A>>, f: A -> B): map<nat, Call<B>> {
    map c | c in calls :: MapCall(calls[c], f)
  }

  function MapWorker<A, B>(w: Worker<A>, f: A -> B): Worker<B> {
    match w
    case Idle => Idle
    case Checking(e) => Checking(MapEntry(e, f))
    case Persisting(e) => Persisting(MapEntry(e, f))
    case Exited => Exited
  }

  function MapState<A, B>(s: State<A>, f: A -> B): State<B> {
    State(s.capacity, s.closed, s.channelClosed, s.closings, s.panicked, MapEntries(s.items, f), s.dropped,
          MapCalls(s.calls, f), s.closers, MapWorker(s.worker, f), s.cancelled, MapEntries(s.accepted, f),
          MapSettled(s.settled, f))
  }

  function MapStep<A, B>(step: Step<A>, f: A -> B): Step<B> {
    match step
    case Arrive(id, record) => Arrive(id, f(record))
    case ReadLock(id) => ReadLock(id)
    case TestFlag(id) => TestFlag(id)
    case Send(id) => Send(id)
    case Drop(id) => Drop(id)
    case ReadUnlock(id) => ReadUnlock(id)
    case AskClose(id) => AskClose(id)
    case WriteLock(id) => WriteLock(id)
    case TestClose(id) => TestClose(id)
    case CloseChannel(id) => CloseChannel(id)
    case WriteUnlock(id) => WriteUnlock(id)
    case Receive => Receive
    case Check => Check
    case Settle(fate) => Settle(fate)
    case Exit => Exit
    case Cancel => Cancel
  }

  function MapSteps<A, B>(steps: seq<Step<A>>, f: A -> B): seq<Step<B>> {
    seq(|steps|, i requires 0 <= i < |steps| => MapStep(steps[i], f))
  }

  lemma CallsSet<A, B>(calls: map<nat, Call<A>>, id: nat, c: Call<A>, f: A -> B)
    ensures MapCalls(calls[id := c], f) == MapCalls(calls, f)[id := MapCall(c, f)]
  {
  }

  lemma EntriesSnocMap<A, B>(es: seq<Entry<A>>, e: Entry<A>, f: A -> B)
    ensures MapEntries(es + [e], f) == MapEntries(es, f) + [MapEntry(e, f)]
  {
  }

  lemma EntriesTail<A, B>(es: seq<Entry<A>>, f: A -> B)
    requires es != []
    ensures MapEntries(es, f) != [] && MapEntries(es, f)[0] == MapEntry(es[0], f)
    ensures MapEntries(es[1..], f) == MapEntries(es, f)[1..]
  {
  }

  lemma SettledSnoc<A, B>(settled: seq<Settled<A>>, e: Entry<A>, fate: Fate, f: A -> B)
    ensures MapSettled(settled + [Settled(e, fate)], f) == MapSettled(settled, f) + [Settled(MapEntry(e, f), fate)]
  {
  }

  lemma SameReaders<A, B>(s: State<A>, f: A -> B)
    ensures NoReader(MapState(s, f)) <==> NoReader(s)
  {
    var t := MapState(s, f);
    forall c | c in s.calls
      ensures c in t.calls && t.calls[c].pc == s.calls[c].pc
    {
    }
  }

  lemma MapEnabled<A, B>(s: State<A>, step: Step<A>, f: A -> B)
    requires Enabled(s, step)
    ensures Enabled(MapState(s, f), MapStep(step, f))
  {
    SameReaders(s, f);
  }

  lemma MapNextCall<A, B>(s: State<A>, step: Step<A>, f: A -> B)
    requires Enabled(s, step) && Enabled(MapState(s, f), MapStep(step, f))
    requires step.Arrive? || step.ReadLock? || step.TestFlag? || step.Drop? || step.ReadUnlock?
    ensures MapState(Next(s, step), f) == Next(MapState(s, f), MapStep(step, f))
  {
    if step.Arrive? {
      CallsSet(s.calls, step.id, Call(step.record, Arrived), f);
    } else {
      CallsSet(s.calls, step.id, s.calls[step.id].(pc := NextPc(s, step)), f);
    }
  }

  lemma MapNextSend<A, B>(s: State<A>, id: nat, f: A -> B)
    requires Enabled(s, Send(id)) && Enabled(MapState(s, f), Send(id))
    ensures MapState(Next(s, Send(id)), f) == Next(MapState(s, f), Send(id))
  {
    if !s.channelClosed {
      var e := Entry(id, s.calls[id].record);
      CallsSet(s.calls, id, s.calls[id].(pc := NextPc(s, Send(id))), f);
      EntriesSnocMap(s.items, e, f);
      EntriesSnocMap(s.accepted, e, f);
    }
  }

  lemma MapNextWorker<A, B>(s: State<A>, step: Step<A>, f: A -> B)
    requires Enabled(s, step) && Enabled(MapState(s, f), MapStep(step, f)) && WorkerStep(step)
    ensures MapState(Next(s, step), f) == Next(MapState(s, f), MapStep(step, f))
  {
    if step.Receive? {
      EntriesTail(s.items, f);
    } else if step.Check? {
      SettledSnoc(s.settled, s.worker.entry, Abandoned, f);
    } else if step.Settle? {
      SettledSnoc(s.settled, s.worker.entry, step.fate, f);
    }
  }

  lemma MapNextOther<A, B>(s: State<A>, step: Step<A>, f: A -> B)
    requires Enabled(s, step) && Enabled(MapState(s, f), MapStep(step, f)) && (CloserStep(step) || step.Cancel?)
    ensures MapState(Next(s, step), f) == Next(MapState(s, f), MapStep(step, f))
  {
  }

  lemma MapNext<A, B>(s: State<A>, step: Step<A>, f: A -> B)
    requires Enabled(s, step) && Enabled(MapState(s, f), MapStep(step, f))
    ensures MapState(Next(s, step), f) == Next(MapState(s, f), MapStep(step, f))
  {
    if step.Send? {
      MapNextSend(s, step.id, f);
    } else if WorkerStep(step) {
      MapNextWorker(s, step, f);
    } else if CloserStep(step) || step.Cancel? {
      MapNextOther(s, step, f);
    } else {
      MapNextCall(s, step, f);
    }
  }

  /** Replacing the records of a run gives a run that ends in the state with its records replaced. */
  lemma {:induction false} MapRun<A, B>(s: State<A>, steps: seq<Step<A>>, f: A -> B)
    requires Run(s, steps)
    ensures Run(MapState(s, f), MapSteps(steps, f))
    ensures After(MapState(s, f), MapSteps(steps, f)) == MapState(After(s, steps), f)
    decreases |steps|
  {
    if steps != [] {
      MapEnabled(s, steps[0], f);
      MapNext(s, steps[0], f);
      MapRun(Next(s, steps[0]), steps[1..], f);
      assert MapSteps(steps, f)[1..] == MapSteps(steps[1..], f);
    }
  }

  /** The same from the beginning. */
  lemma QueueIsBlind<A, B>(capacity: nat, steps: seq<Step<A>>, f: A -> B)
    requires Run(Start<A>(capacity), steps)
    ensures Run(Start<B>(capacity), MapSteps(steps, f))
    ensures After(Start<B>(capacity), MapSteps(steps, f)) == MapState(After(Start<A>(capacity), steps), f)
  {
    MapRun(Start<A>(capacity), steps, f);
    var s := Start<A>(capacity);
    assert MapCalls(s.calls, f) == map[] && MapEntries(s.items, f) == [] && MapSettled(s.settled, f) == [];
    assert MapState(s, f) == Start<B>(capacity);
  }
}
