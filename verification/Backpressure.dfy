/** The bounded channels between `callbackStore.Put`, its workers and the aggregator
    (chain/beacon/store.go, chain/beacon/chain.go, chain/beacon/constants.go).

    `Put` holds the callback lock while it sends one job per callback, workers block when the
    aggregator's channel is full, and only the aggregator drains that channel, between its own puts.
    `Node` has these channels unbounded; here only who waits for whom is kept. */
module Backpressure {
  import opened Collections

  /** A job for the aggregator's callback, or for any other one. */
  datatype Kind = Notice | Other

  /** The length of `newJob`, the number of workers, the length of `beaconStoredAgg`, and the
      registered callbacks. */
  datatype Params = Params(queue: nat, workers: nat, buffer: nat, callbacks: seq<Kind>)

  /** Where a goroutine is in `callbackStore.Put`: outside, after the write and before the lock, or
      holding the lock with jobs left to send. */
  datatype Phase = Out | Waiting | Holding(todo: seq<Kind>)

  /** `busy` workers hold a notice for the aggregator; `buffer` notices are in its channel. */
  datatype State = State(agg: Phase, sync: Phase, queue: seq<Kind>, busy: nat, buffer: nat)

  datatype Who = Aggregation | Syncing

  datatype Step =
    | Put(who: Who)      // a beacon is written
    | Acquire(who: Who)
    | Send(who: Who)     // newJob <- cbPair
    | Release(who: Who)
    | Take               // a worker receives a job; other callbacks return at once
    | Deliver            // beaconStoredAgg <- b
    | Drain              // runAggregator, a stored beacon

  function PhaseOf(s: State, who: Who): Phase {
    if who.Aggregation? then s.agg else s.sync
  }

  function WithPhase(s: State, who: Who, p: Phase): State {
    if who.Aggregation? then s.(agg := p) else s.(sync := p)
  }

  predicate Enabled(c: Params, s: State, t: Step) {
    match t
    case Put(who) => PhaseOf(s, who).Out?
    case Acquire(who) => PhaseOf(s, who).Waiting? && !s.agg.Holding? && !s.sync.Holding?
    case Send(who) => PhaseOf(s, who).Holding? && PhaseOf(s, who).todo != [] && |s.queue| < c.queue
    case Release(who) => PhaseOf(s, who).Holding? && PhaseOf(s, who).todo == []
    case Take => s.queue != [] && s.busy < c.workers
    case Deliver => s.busy > 0 && s.buffer < c.buffer
    case Drain => s.agg.Out? && s.buffer > 0
  }

  function Next(c: Params, s: State, t: Step): State
    requires Enabled(c, s, t)
  {
    match t
    case Put(who) => WithPhase(s, who, Waiting)
    case Acquire(who) => WithPhase(s, who, Holding(c.callbacks))
    case Send(who) =>
      var todo := PhaseOf(s, who).todo;
      WithPhase(s, who, Holding(todo[1..])).(queue := s.queue + [todo[0]])
    case Release(who) => WithPhase(s, who, Out)
    case Take => s.(queue := s.queue[1..], busy := s.busy + if s.queue[0].Notice? then 1 else 0)
    case Deliver => s.(busy := s.busy - 1, buffer := s.buffer + 1)
    case Drain => s.(buffer := s.buffer - 1)
  }

  const INITIAL: State := State(Out, Out, [], 0, 0)

  /** The state after some steps, if each is enabled where it is taken. */
  function Run(c: Params, s: State, steps: seq<Step>): Option<State>
    decreases |steps|
  {
    if steps == [] then Some(s)
    else if Enabled(c, s, steps[0]) then Run(c, Next(c, s, steps[0]), steps[1..])
    else None
  }

  /** Channels of some length, at least one worker, and the aggregator's callback registered once. */
  predicate Proper(c: Params) {
    c.queue >= 1 && c.workers >= 1 && c.buffer >= 1 && Notices(c.callbacks) == 1
  }

  function Notices(jobs: seq<Kind>): nat {
    if jobs == [] then 0 else (if jobs[0].Notice? then 1 else 0) + Notices(jobs[1..])
  }

  function Todo(p: Phase): nat {
    if p.Holding? then Notices(p.todo) else 0
  }

  /** The stored beacons the aggregator has still to be told of, once the lock was taken for them. */
  function Outstanding(s: State): nat {
    Todo(s.agg) + Todo(s.sync) + Notices(s.queue) + s.busy + s.buffer
  }

  predicate Inv(c: Params, s: State) {
    && |s.queue| <= c.queue && s.busy <= c.workers && s.buffer <= c.buffer
    && !(s.agg.Holding? && s.sync.Holding?)
  }

  lemma {:induction false} NoticesSnoc(jobs: seq<Kind>, k: Kind)
    ensures Notices(jobs + [k]) == Notices(jobs) + if k.Notice? then 1 else 0
    decreases |jobs|
  {
    if jobs == [] {
      assert jobs + [k] == [k];
    } else {
      assert (jobs + [k])[1..] == jobs[1..] + [k];
      NoticesSnoc(jobs[1..], k);
    }
  }

  function Locked(t: Step): int {
    if t.Acquire? then 1 else 0
  }

  function Drained(t: Step): int {
    if t.Drain? then 1 else 0
  }

  lemma StepKeeps(c: Params, s: State, t: Step)
    requires Proper(c) && Inv(c, s) && Enabled(c, s, t)
    ensures Inv(c, Next(c, s, t))
    ensures Outstanding(Next(c, s, t)) == Outstanding(s) + Locked(t) - Drained(t)
  {
    if t.Send? {
      NoticesSnoc(s.queue, PhaseOf(s, t.who).todo[0]);
    }
  }

  function Total(f: Step -> int, steps: seq<Step>): int {
    if steps == [] then 0 else f(steps[0]) + Total(f, steps[1..])
  }

  /** Main result: nothing is lost or doubled on the way to the aggregator. In every run the notices
      outstanding are the beacons put less the ones drained. */
  lemma {:induction false} Conservation(c: Params, s: State, steps: seq<Step>)
    requires Proper(c) && Inv(c, s) && Run(c, s, steps).Some?
    ensures Inv(c, Run(c, s, steps).value)
    ensures Outstanding(Run(c, s, steps).value) == Outstanding(s) + Total(Locked, steps) - Total(Drained, steps)
    decreases |steps|
  {
    if steps != [] {
      StepKeeps(c, s, steps[0]);
      Conservation(c, Next(c, s, steps[0]), steps[1..]);
    }
  }

  // ---- Deadlock -------------------------------------------------------------------------

  /** Somebody is inside `Put`, and nothing but the start of another `Put` can happen. */
  ghost predicate Deadlocked(c: Params, s: State) {
    (!s.agg.Out? || !s.sync.Out?) && forall t :: Enabled(c, s, t) ==> t.Put?
  }

  /** Main result, the deadlocked states: a `Put` that holds the lock has a job left, its channel is
      full, every worker holds a notice, the aggregator's channel is full, and the aggregator is itself
      in a `Put`, holding the lock or waiting for it. */
  lemma DeadlockIff(c: Params, s: State)
    requires Proper(c) && Inv(c, s)
    ensures Deadlocked(c, s)
       <==> && ((s.agg.Holding? && s.agg.todo != []) || (s.sync.Holding? && s.sync.todo != []))
            && |s.queue| == c.queue && s.busy == c.workers && s.buffer == c.buffer && !s.agg.Out?
  {
    if Deadlocked(c, s) {
      assert !Enabled(c, s, Acquire(Aggregation)) && !Enabled(c, s, Acquire(Syncing));
      assert !Enabled(c, s, Release(Aggregation)) && !Enabled(c, s, Release(Syncing));
      assert !Enabled(c, s, Send(Aggregation)) && !Enabled(c, s, Send(Syncing));
      assert !Enabled(c, s, Take) && !Enabled(c, s, Deliver) && !Enabled(c, s, Drain);
    }
  }

  /** Main result, a bound that excludes them: no run deadlocks while fewer beacons than channel places
      and workers together have been put and not drained. */
  lemma NoDeadlock(c: Params, steps: seq<Step>)
    requires Proper(c) && Run(c, INITIAL, steps).Some?
    requires Total(Locked, steps) - Total(Drained, steps) < c.buffer + c.workers
    ensures !Deadlocked(c, Run(c, INITIAL, steps).value)
  {
    Conservation(c, INITIAL, steps);
    DeadlockIff(c, Run(c, INITIAL, steps).value);
  }

  /** With the aggregator's callback alone, everything queued or still to be sent is a notice. */
  predicate OnlyNotices(s: State) {
    && (forall i :: 0 <= i < |s.queue| ==> s.queue[i].Notice?)
    && (s.agg.Holding? ==> s.agg.todo == [Notice] || s.agg.todo == [])
    && (s.sync.Holding? ==> s.sync.todo == [Notice] || s.sync.todo == [])
  }

  lemma {:induction false} AllNotices(jobs: seq<Kind>)
    requires forall i :: 0 <= i < |jobs| ==> jobs[i].Notice?
    ensures Notices(jobs) == |jobs|
    decreases |jobs|
  {
    if jobs != [] {
      AllNotices(jobs[1..]);
    }
  }

  lemma {:induction false} RunOnlyNotices(c: Params, s: State, steps: seq<Step>)
    requires c.callbacks == [Notice] && OnlyNotices(s) && Run(c, s, steps).Some?
    ensures OnlyNotices(Run(c, s, steps).value)
    decreases |steps|
  {
    if steps != [] {
      assert [Notice][1..] == [];
      RunOnlyNotices(c, Next(c, s, steps[0]), steps[1..]);
    }
  }

  lemma DeadlockCount(c: Params, s: State)
    requires Proper(c) && Inv(c, s) && OnlyNotices(s)
    ensures Deadlocked(c, s) <==> Outstanding(s) == c.queue + c.workers + c.buffer + 1 && !s.agg.Out?
  {
    AllNotices(s.queue);
    DeadlockIff(c, s);
    assert Notices([Notice]) == 1;
  }

  /** Main result, exactly when: with the aggregator's callback alone, a run has deadlocked if and only if
      one more beacon has been put and not drained than queue, workers and channel hold together, and the
      aggregator is in a put. */
  lemma DeadlockedExactly(c: Params, steps: seq<Step>)
    requires Proper(c) && c.callbacks == [Notice] && Run(c, INITIAL, steps).Some?
    ensures Deadlocked(c, Run(c, INITIAL, steps).value)
       <==> && Total(Locked, steps) - Total(Drained, steps) == c.queue + c.workers + c.buffer + 1
            && !Run(c, INITIAL, steps).value.agg.Out?
  {
    Conservation(c, INITIAL, steps);
    RunOnlyNotices(c, INITIAL, steps);
    DeadlockCount(c, Run(c, INITIAL, steps).value);
  }

  // ---- A run that deadlocks -------------------------------------------------------------

  lemma {:induction false} RunJoin(c: Params, s: State, a: seq<Step>, b: seq<Step>)
    requires Run(c, s, a).Some?
    ensures Run(c, s, a + b) == Run(c, Run(c, s, a).value, b)
    decreases |a|
  {
    if a == [] {
      assert a + b == b;
    } else {
      assert (a + b)[1..] == a[1..] + b;
      RunJoin(c, Next(c, s, a[0]), a[1..], b);
    }
  }

  /** One aggregated beacon, whose only job ends up in the queue. */
  const ONE_PUT: seq<Step> := [Put(Aggregation), Acquire(Aggregation), Send(Aggregation), Release(Aggregation)]

  /** Between puts: `q` notices queued. */
  function At(q: nat, busy: nat, buffer: nat): State {
    State(Out, Out, seq(q, _ => Notice), busy, buffer)
  }

  lemma OnePut(c: Params, q: nat, busy: nat, buffer: nat)
    requires c.callbacks == [Notice] && q < c.queue
    ensures Run(c, At(q, busy, buffer), ONE_PUT) == Some(At(q + 1, busy, buffer))
  {
    var s := At(q, busy, buffer);
    assert ONE_PUT[1..] == [Acquire(Aggregation), Send(Aggregation), Release(Aggregation)];
    assert ONE_PUT[1..][1..] == [Send(Aggregation), Release(Aggregation)];
    assert ONE_PUT[1..][1..][1..] == [Release(Aggregation)];
    var h := s.(agg := Holding([Notice]));
    assert [Notice][1..] == [] && s.queue + [Notice] == At(q + 1, busy, buffer).queue;
    assert Next(c, Next(c, s, Put(Aggregation)), Acquire(Aggregation)) == h;
    assert Next(c, h, Send(Aggregation)) == At(q + 1, busy, buffer).(agg := Holding([]));
    assert Next(c, Next(c, h, Send(Aggregation)), Release(Aggregation)) == At(q + 1, busy, buffer);
  }

  ghost predicate CanReach(c: Params, s: State) {
    exists steps :: Run(c, INITIAL, steps) == Some(s)
  }

  lemma ReachMore(c: Params, s: State, more: seq<Step>, s': State)
    requires CanReach(c, s) && Run(c, s, more) == Some(s')
    ensures CanReach(c, s')
  {
    var steps :| Run(c, INITIAL, steps) == Some(s);
    RunJoin(c, INITIAL, steps, more);
  }

  lemma TakeOne(c: Params, busy: nat, buffer: nat)
    requires busy < c.workers
    ensures Run(c, At(1, busy, buffer), [Take]) == Some(At(0, busy + 1, buffer))
  {
    var s := At(1, busy, buffer);
    assert s.queue == [Notice] && s.queue[1..] == [] == At(0, busy + 1, buffer).queue;
    assert [Take][1..] == [];
    assert Next(c, s, Take) == At(0, busy + 1, buffer);
  }

  lemma DeliverOne(c: Params, busy: nat, buffer: nat)
    requires buffer < c.buffer
    ensures Run(c, At(0, busy + 1, buffer), [Deliver]) == Some(At(0, busy, buffer + 1))
  {
    assert [Deliver][1..] == [];
  }

  lemma {:induction false} FillBuffer(c: Params, k: nat)
    requires Proper(c) && c.callbacks == [Notice] && k <= c.buffer
    ensures CanReach(c, At(0, 0, k))
    decreases k
  {
    if k == 0 {
      assert INITIAL == At(0, 0, 0);
      assert Run(c, INITIAL, []) == Some(At(0, 0, 0));
    } else {
      FillBuffer(c, k - 1);
      OnePut(c, 0, 0, k - 1);
      ReachMore(c, At(0, 0, k - 1), ONE_PUT, At(1, 0, k - 1));
      TakeOne(c, 0, k - 1);
      ReachMore(c, At(1, 0, k - 1), [Take], At(0, 1, k - 1));
      DeliverOne(c, 0, k - 1);
      ReachMore(c, At(0, 1, k - 1), [Deliver], At(0, 0, k));
    }
  }

  lemma {:induction false} FillWorkers(c: Params, k: nat)
    requires Proper(c) && c.callbacks == [Notice] && k <= c.workers
    ensures CanReach(c, At(0, k, c.buffer))
    decreases k
  {
    if k == 0 {
      FillBuffer(c, c.buffer);
    } else {
      FillWorkers(c, k - 1);
      OnePut(c, 0, k - 1, c.buffer);
      ReachMore(c, At(0, k - 1, c.buffer), ONE_PUT, At(1, k - 1, c.buffer));
      TakeOne(c, k - 1, c.buffer);
      ReachMore(c, At(1, k - 1, c.buffer), [Take], At(0, k, c.buffer));
    }
  }

  lemma {:induction false} FillQueue(c: Params, k: nat)
    requires Proper(c) && c.callbacks == [Notice] && k <= c.queue
    ensures CanReach(c, At(k, c.workers, c.buffer))
    decreases k
  {
    if k == 0 {
      FillWorkers(c, c.workers);
    } else {
      FillQueue(c, k - 1);
      OnePut(c, k - 1, c.workers, c.buffer);
      ReachMore(c, At(k - 1, c.workers, c.buffer), ONE_PUT, At(k, c.workers, c.buffer));
    }
  }

  /** A concrete deadlock, for every size of the channels and number of workers: an aggregator that keeps
      choosing partials over notices fills its channel, the workers and the queue, and then blocks on
      the queue with the lock in hand. */
  lemma DeadlockHappens(c: Params)
    requires Proper(c) && c.callbacks == [Notice]
    ensures exists s :: CanReach(c, s) && Deadlocked(c, s)
  {
    FillQueue(c, c.queue);
    var s := At(c.queue, c.workers, c.buffer);
    var stuck := s.(agg := Holding([Notice]));
    var more := [Put(Aggregation), Acquire(Aggregation)];
    assert more[1..] == [Acquire(Aggregation)] && more[1..][1..] == [];
    assert Next(c, Next(c, s, Put(Aggregation)), Acquire(Aggregation)) == stuck;
    ReachMore(c, s, more, stuck);
    DeadlockIff(c, stuck);
  }
}
