/** The objects of a running node in their own form: `chainStore` with its aggregator loop,
    `callbackStore` and the `Handler` (chain/beacon/chain.go, store.go, node.go). Every method is one
    turn of one goroutine, taken without interruption. The turn of the aggregator that takes a partial
    and the one that stores a synced beacon are proved to be runs of the step system of `Node` (`Reaches`);
    the other turns are single steps of it (`TurnsAreSteps`). What holds along those runs (`ReachesKeepsChain`,
    and the theorems of `NodeRuns`) therefore holds of the objects. */
module Handler {
  import opened Bytes
  import opened Collections
  import opened Chain
  import opened RoundTime
  import opened PartialCache
  import opened Stores
  import opened Node
  import CacheImpl
  import NodeRuns

  // ---- Runs of the step system at one reading of the clock ----------------------------------

  ghost predicate RunBetween(cfg: Config, now: int, states: seq<Node>, events: seq<NodeRuns.Event>, n: Node, n': Node) {
    && NodeRuns.IsRun(cfg, states, events)
    && states[0] == n && states[|states| - 1] == n'
    && forall i :: 0 <= i < |events| ==> events[i].now == now
  }

  ghost predicate Reaches(cfg: Config, now: int, n: Node, n': Node) {
    exists states, events :: RunBetween(cfg, now, states, events, n, n')
  }

  lemma ReachesSelf(cfg: Config, now: int, n: Node)
    requires 1 <= cfg.period
    ensures Reaches(cfg, now, n, n)
  {
    assert RunBetween(cfg, now, [n], [], n, n);
  }

  lemma ReachesStep(cfg: Config, now: int, n: Node, m: Node, a: Action)
    requires Reaches(cfg, now, n, m)
    requires 1 <= cfg.period && BelowTop(m) && Enabled(cfg, now, m, a)
    ensures Reaches(cfg, now, n, Next(cfg, now, m, a))
  {
    var states, events :| RunBetween(cfg, now, states, events, n, m);
    var m' := Next(cfg, now, m, a);
    var states', events' := states + [m'], events + [NodeRuns.Event(now, a)];
    forall i | 0 <= i < |events'|
      ensures NodeRuns.StepAt(cfg, states', events', i)
    {
      if i < |events| {
        assert NodeRuns.StepAt(cfg, states, events, i);
      }
    }
    assert RunBetween(cfg, now, states', events', n, m');
  }

  lemma ReachesKeepsChain(cfg: Config, now: int, n: Node, n': Node)
    requires SameKey(cfg) && ChainInv(cfg, n) && Reaches(cfg, now, n, n')
    ensures ChainInv(cfg, n') && Extends(n.store.db, n'.store.db)
  {
    var states, events :| RunBetween(cfg, now, states, events, n, n');
    NodeRuns.RunKeepsChain(cfg, states, events, 0, |events|);
  }

  /** `a` leads from `n` to `n'`, whatever the clock reads. */
  ghost predicate Moves(cfg: Config, n: Node, a: Action, n': Node) {
    1 <= cfg.period && forall now :: Enabled(cfg, now, n, a) && n' == Next(cfg, now, n, a)
  }

  /** What the turns of the objects do to the node, each a step of the system. */
  lemma TurnsAreSteps(cfg: Config, n: Node)
    requires 1 <= cfg.period && n.agg.put.Idle? && n.sync.Idle?
    ensures n.agg.notices != [] ==> Moves(cfg, n, TakeNotice, AfterNotice(n))
    ensures forall job {:trigger AfterJob(n, job)} :: job in n.store.jobs ==> Moves(cfg, n, RunJob(job), AfterJob(n, job))
    ensures forall id, cb {:trigger AfterRegister(n, id, cb)} :: Moves(cfg, n, Register(id, cb), AfterRegister(n, id, cb))
    ensures forall id {:trigger AfterRemove(n, id)} :: Moves(cfg, n, Unregister(id), AfterRemove(n, id))
    ensures forall upon {:trigger AfterTick(n, upon)} :: n.loop.tick.Some? && IsLast(n.store.db, upon) ==>
              Moves(cfg, n, HandleTick(upon), AfterTick(n, upon))
    ensures n.loop.catchup.Some? ==> Moves(cfg, n, TakeCatchup, AfterAppended(n))
    ensures forall s, partial {:trigger AfterSign(n, s, partial)} ::
              s in n.loop.signers && ProperPartial(Group(cfg, n), OwnPacket(s.current, s.upon, partial)) ==>
              Moves(cfg, n, Sign(s, partial), AfterSign(n, s, partial))
  {
  }

  function AfterRemove(n: Node, id: string): Node {
    n.(store := n.store.(callbacks := n.store.callbacks - {id}))
  }

  /** The share index in a partial signature does not depend on the group. */
  ghost predicate SharedIndex(cfg: Config, indexOf: Bytes -> nat) {
    forall e: nat :: cfg.crypto(e).scheme.indexOf == indexOf
  }

  /** Handling a tick and signing at once. */
  lemma TickThenSign(n: Node, upon: Beacon, partial: Bytes)
    requires n.loop.tick.Some?
    ensures AfterSign(AfterTick(n, upon), Signer(n.loop.tick.value, upon), partial)
         == n.(loop := n.loop.(tick := None, current := n.loop.tick.value),
               agg := n.agg.(partials := n.agg.partials + [OwnPacket(n.loop.tick.value, upon, partial)]))
  {
    var s := Signer(n.loop.tick.value, upon);
    assert n.loop.signers + multiset{s} - multiset{s} == n.loop.signers;
  }

  /** The round before the transition. */
  function TargetRound(cfg: Config, transition: int): Round
    requires 1 <= cfg.period
  {
    Pred(CurrentRound(transition, cfg.period, cfg.genesis))
  }

  /** `t` is the time of round `r`, within the range of the schedule. */
  predicate IsTimeOf(cfg: Config, t: int, r: Round) {
    && ValidSchedule(cfg.period, cfg.genesis) && InRange(t, cfg.genesis)
    && 1 <= r && TimeOfRound(cfg.period, cfg.genesis, r) == t
  }

  /** The target of an accepted transition, in terms of the schedule alone: the round before the one whose
      time it is. */
  lemma TargetOfTransition(cfg: Config, transition: int, r: Round)
    requires 1 <= cfg.period && IsTimeOf(cfg, transition, r)
    ensures Aligned(cfg.period, cfg.genesis, transition) && TargetRound(cfg, transition) == r - 1
  {
    CurrentRoundOfTime(cfg.period, cfg.genesis, r);
  }

  lemma TargetIsBefore(cfg: Config, transition: int)
    requires 1 <= cfg.period
    ensures forall r: Round :: IsTimeOf(cfg, transition, r) ==> TargetRound(cfg, transition) == r - 1
  {
    forall r: Round | IsTimeOf(cfg, transition, r) ensures TargetRound(cfg, transition) == r - 1 {
      TargetOfTransition(cfg, transition, r);
    }
  }

  /** Every registration for group `e` is one that `TransitionNewGroup(transition, e)` makes. */
  ghost predicate OnlyFor(cfg: Config, events: seq<NodeRuns.Event>, transition: int, e: nat)
    requires 1 <= cfg.period
  {
    forall k, id, target :: 0 <= k < |events| && events[k].a == Register(id, ToTransition(target, e)) ==>
      target == TargetRound(cfg, transition)
  }

  /** Main result: in every run, a node that is to switch to a group at the time of round `r` has that group
      only once round `r - 1` is stored. */
  lemma SwitchWaits(cfg: Config, states: seq<Node>, events: seq<NodeRuns.Event>, i: nat, transition: int, e: nat, r: Round)
    requires SameKey(cfg) && NodeRuns.IsRun(cfg, states, events) && NodeRuns.Started(cfg, states[0]) && i < |states|
    requires IsTimeOf(cfg, transition, r)
    requires OnlyFor(cfg, events, transition, e)
    requires e != states[0].epoch && states[i].epoch == e
    ensures r - 1 in states[i].store.db
  {
    TargetOfTransition(cfg, transition, r);
    NodeRuns.SwitchTheorem(cfg, states, events, i);
    var target :| target in states[i].store.db && NodeRuns.Registered(events, i, ToTransition(target, e));
    var k, id :| 0 <= k < i && events[k].a == Register(id, ToTransition(target, e));
  }

  /** Main result: a worker that runs the transition job switches, at once, exactly if the beacon it got is of
      the round before the transition or a later one. */
  lemma SwitchHappens(cfg: Config, states: seq<Node>, events: seq<NodeRuns.Event>, i: nat, transition: int, e: nat, r: Round, b: Beacon)
    requires NodeRuns.IsRun(cfg, states, events) && i < |events|
    requires IsTimeOf(cfg, transition, r)
    requires events[i].a == RunJob(Job(ToTransition(TargetRound(cfg, transition), e), b))
    ensures states[i + 1].epoch == if b.round >= r - 1 then e else states[i].epoch
  {
    TargetOfTransition(cfg, transition, r);
    assert NodeRuns.StepAt(cfg, states, events, i);
  }

  /** What a turn with the recovered beacon `b` comes to: it is stored, becomes `lastBeacon` and goes to every
      callback if it is the next linked one; if it is further ahead the node goes on to sync to it. */
  ghost predicate TriesToAppend(n: Node, b: Option<Beacon>, n': Node, syncTo: Option<Round>) {
    var next := b.Some? && b.value.round == Succ(n.agg.lastBeacon.round) == Succ(n.store.last.round) && b.value.prev == n.store.last.sig;
    && (next ==>
          && n'.store.db == n.store.db[b.value.round := b.value] && n'.store.last == n'.agg.lastBeacon == b.value
          && n'.store.callbacks == n.store.callbacks
          && (forall id :: id in n'.store.callbacks ==> Job(n'.store.callbacks[id], b.value) in n'.store.jobs)
          && |n'.store.jobs| == |n.store.jobs| + |n.store.callbacks.Keys|)
    && (!next ==> n'.store == n.store && n'.agg.lastBeacon == n.agg.lastBeacon)
    && syncTo == if b.Some? && b.value.round > Succ(n.agg.lastBeacon.round) then Some(b.value.round) else None
  }

  /** The node once `tryAppend` has written `b`, if it does. */
  function Landed(n: Node, b: Beacon): Node {
    if Appends(n, Some(b)) then n.(store := Append1(n.store, b), agg := n.agg.(put := Awaiting(b))) else n
  }

  /** Taking a partial, in two parts: the aggregator's and `tryAppend`'s. */
  lemma PartialReaches(cfg: Config, now: int, n: Node, recovered: Option<Bytes>)
    requires 1 <= cfg.period && BelowTop(n) && n.agg.partials != [] && n.agg.put.Idle?
    ensures var b := Aggregated(Group(cfg, n), n.agg, recovered);
            var taken := n.(agg := n.agg.(partials := n.agg.partials[1..], cache := CacheAfter(Group(cfg, n), n.agg, recovered)));
            Reaches(cfg, now, n, if b.Some? then Landed(taken, b.value) else taken)
  {
    ReachesSelf(cfg, now, n);
    ReachesStep(cfg, now, n, n, TakePartial(recovered));
  }

  lemma PushReaches(cfg: Config, now: int, n: Node, m: Node, who: Who, id: string)
    requires Reaches(cfg, now, n, m) && 1 <= cfg.period && BelowTop(m)
    requires PutterOf(m, who).Pushing? && id in PutterOf(m, who).todo && id in m.store.callbacks
    ensures Reaches(cfg, now, n, AfterPush(m, who, id))
  {
    ReachesStep(cfg, now, n, m, Push(who, id));
  }

  /** The database write of a sync. */
  lemma SyncReaches(cfg: Config, now: int, n: Node, b: Beacon)
    requires 1 <= cfg.period && BelowTop(n) && n.sync.Idle? && VerifyBeacon(cfg.scheme, b) && Accepts(n.store.last, b)
    ensures Reaches(cfg, now, n, n.(store := Append1(n.store, b), sync := Awaiting(b)))
  {
    ReachesSelf(cfg, now, n);
    ReachesStep(cfg, now, n, n, SyncBeacon(b));
  }

  datatype Verdict = Queued | Ignored | Rejected

  class Handler {
    const cfg: Config
    const append: AppendStore
    const cache: CacheImpl.PartialCache
    // callbackStore
    var callbacks: map<string, Callback>
    var jobs: multiset<Job>
    var leaving: set<string>
    // chainStore and its aggregator
    var lastBeacon: Beacon
    var newPartials: seq<Packet>
    var beaconStored: seq<Beacon>
    // the tick loop: its two channels, the round it is in, and its catch-up goroutines
    var loop: Loop
    // cryptoStore
    var epoch: nat

    /** The state of the step system these objects stand for, the aggregator being at `put`. */
    ghost function View(put: Putter): Node
      reads this, append, append.base, cache
    {
      Node(Store(append.base.contents, append.last, callbacks, jobs, leaving),
           Aggregator(lastBeacon, cache.State(), newPartials, beaconStored, put),
           loop, Idle, epoch)
    }

    ghost predicate Valid()
      reads this, append, append.base, cache
    {
      && 1 <= cfg.period && SameKey(cfg) && SharedIndex(cfg, cache.indexOf)
      && append.Valid(cfg.seed) && cache.Valid()
    }

    /** `newChainStore` and `runAggregator` up to their loops. */
    constructor (cfg: Config, append: AppendStore, indexOf: Bytes -> nat, epoch: nat)
      requires 1 <= cfg.period && SameKey(cfg) && SharedIndex(cfg, indexOf)
      requires append.Valid(cfg.seed) && Verified(cfg.scheme, append.base.contents)
      ensures Valid() && this.cfg == cfg && this.append == append && fresh(cache)
      ensures NodeRuns.Started(cfg, View(Idle))
    {
      this.cfg, this.append, this.epoch := cfg, append, epoch;
      this.cache := new CacheImpl.PartialCache(indexOf);
      callbacks, jobs, leaving := map["chainstore" := ToAggregator], multiset{}, {};
      lastBeacon, newPartials, beaconStored := append.last, [], [];
      loop := Loop(None, 0, None, multiset{});
    }

    /** The same, with `who` at `put` and everybody else idle. */
    ghost function At(who: Who, put: Putter): Node
      reads this, append, append.base, cache
    {
      if who.Aggregation? then View(put) else View(Idle).(sync := put)
    }

    /** `ProcessPartialBeacon`. */
    method ProcessPartialBeacon(p: Packet, now: int) returns (v: Verdict)
      requires Valid()
      modifies this`newPartials
      ensures Valid()
      ensures var g := cfg.crypto(epoch);
              var good := p.round <= NextRound(now, cfg.period, cfg.genesis).0
                          && g.scheme.partialValid(Message(g.scheme, p.round, p.prev), p.partial);
              && (v.Queued? <==> good && g.scheme.indexOf(p.partial) != g.index)
              && (v.Rejected? <==> !good)
      ensures newPartials == old(newPartials) + if v.Queued? then [p] else []
      ensures v.Queued? <==> Enabled(cfg, now, old(View(Idle)), Receive(p))
      ensures v.Queued? ==> View(Idle) == Next(cfg, now, old(View(Idle)), Receive(p))
    {
      var (nextRound, _) := NextRound(now, cfg.period, cfg.genesis);
      if p.round > nextRound {
        return Rejected;
      }
      var g := cfg.crypto(epoch);
      if !g.scheme.partialValid(Message(g.scheme, p.round, p.prev), p.partial) {
        return Rejected;
      }
      if g.scheme.indexOf(p.partial) == g.index {
        return Ignored;
      }
      newPartials := newPartials + [p];
      return Queued;
    }

    /** The aggregator's case for a stored beacon. */
    method OnStored()
      requires Valid() && beaconStored != []
      modifies this`lastBeacon, this`beaconStored, cache
      ensures Valid() && View(Idle) == AfterNotice(old(View(Idle)))
      ensures lastBeacon == old(beaconStored)[0] && beaconStored == old(beaconStored)[1..]
      ensures forall id :: id in cache.rounds <==> id in old(cache.rounds) && lastBeacon.round < old(cache.rounds)[id].round
    {
      lastBeacon, beaconStored := beaconStored[0], beaconStored[1..];
      cache.FlushRounds(lastBeacon.round);
    }

    /** The aggregator's case for a partial, up to the call of `tryAppend`. */
    method Aggregate(p: Packet, recovered: Option<Bytes>) returns (b: Option<Beacon>)
      requires Valid() && newPartials != [] && p == newPartials[0]
      modifies cache
      ensures cache.Valid()
      ensures lastBeacon.round <= MAX_ROUND - 4 ==>
                b == if Completes(cfg.crypto(epoch), old(View(Idle)).agg, recovered)
                     then Some(Beacon(p.prev, p.round, recovered.value)) else None
      ensures b.Some? ==> forall id :: id in cache.rounds ==> p.round < cache.rounds[id].round
      ensures b == Aggregated(cfg.crypto(epoch), old(View(Idle)).agg, recovered)
      ensures cache.State() == CacheAfter(cfg.crypto(epoch), old(View(Idle)).agg, recovered)
    {
      ghost var agg := View(Idle).agg;
      assert cfg.crypto(epoch).scheme.indexOf == cache.indexOf;
      b := Recover(p, recovered);
      if lastBeacon.round <= MAX_ROUND - 4 {
        AggregatedIff(cfg.crypto(epoch), agg, recovered);
      }
    }

    /** The partial is cached, and the cache of its round read back. */
    method Collect(p: Packet) returns (rc: Option<RoundCache>)
      requires Valid()
      modifies cache
      ensures cache.Valid() && cache.State() == CacheWith(cfg.crypto(epoch), old(cache.State()), p)
      ensures var id := RoundId(p.round, p.prev);
              rc == if id in cache.State().rounds then Some(cache.State().rounds[id]) else None
    {
      cache.Append(p);
      rc := cache.GetRoundCache(p.round, p.prev);
    }

    method Recover(p: Packet, recovered: Option<Bytes>) returns (b: Option<Beacon>)
      requires Valid() && newPartials != [] && p == newPartials[0]
      modifies cache
      ensures cache.Valid()
      ensures b == Aggregated(cfg.crypto(epoch), old(View(Idle)).agg, recovered)
      ensures cache.State() == CacheAfter(cfg.crypto(epoch), old(View(Idle)).agg, recovered)
      ensures b.Some? ==> forall id :: id in cache.rounds ==> p.round < cache.rounds[id].round
    {
      ghost var agg := View(Idle).agg;
      var g := cfg.crypto(epoch);
      assert g.scheme.indexOf == cache.indexOf;
      if !(p.round > lastBeacon.round && p.round <= (lastBeacon.round + PARTIAL_CACHE_STORE_LIMIT + 1) % TWO64) {
        return None;
      }
      var rc := Collect(p);
      if rc.None? || |rc.value.sigs| < g.threshold || recovered.None? {
        return None;
      }
      var msg := Message(g.scheme, rc.value.round, rc.value.prev);
      if !g.scheme.valid(msg, recovered.value) {
        return None;
      }
      cache.FlushRounds(p.round);
      return Some(Beacon(rc.value.prev, rc.value.round, recovered.value));
    }

    /** The loop of `callbackStore.Put`: one job for every registered callback, in any order. */
    method Dispatch(b: Beacon, ghost who: Who, ghost n: Node, ghost now: int)
      requires 1 <= cfg.period && BelowTop(View(Idle))
      requires Reaches(cfg, now, n, At(who, Pushing(b, callbacks.Keys)))
      modifies this`jobs
      ensures Reaches(cfg, now, n, At(who, Pushing(b, {})))
      ensures forall id :: id in callbacks ==> Job(callbacks[id], b) in jobs
      ensures |jobs| == |old(jobs)| + |callbacks.Keys| && old(jobs) <= jobs
    {
      var todo := callbacks.Keys;
      while todo != {}
        invariant todo <= callbacks.Keys
        invariant Reaches(cfg, now, n, At(who, Pushing(b, todo)))
        invariant forall id :: id in callbacks && id !in todo ==> Job(callbacks[id], b) in jobs
        invariant |jobs| == |old(jobs)| + |callbacks.Keys| - |todo| && old(jobs) <= jobs
        decreases todo
      {
        var id :| id in todo;
        PushReaches(cfg, now, n, At(who, Pushing(b, todo)), who, id);
        jobs := jobs + multiset{Job(callbacks[id], b)};
        todo := todo - {id};
      }
    }

    /** The aggregator's case for a partial, with `tryAppend` and `callbackStore.Put`. `syncTo` is the
        round the node goes on to sync to, if it does. */
    method OnPartial(recovered: Option<Bytes>, ghost now: int) returns (syncTo: Option<Round>)
      requires Valid() && newPartials != [] && append.last.round < MAX_ROUND - PARTIAL_CACHE_STORE_LIMIT - 1
      modifies this, append, append.base, cache
      ensures Valid() && Reaches(cfg, now, old(View(Idle)), View(Idle))
      ensures newPartials == old(newPartials)[1..]
      ensures cache.State() == CacheAfter(Group(cfg, old(View(Idle))), old(View(Idle)).agg, recovered)
      ensures old(lastBeacon).round <= MAX_ROUND - 4 ==>
                var n, p := old(View(Idle)), old(newPartials)[0];
                var b := if Completes(Group(cfg, n), n.agg, recovered) then Some(Beacon(p.prev, p.round, recovered.value)) else None;
                TriesToAppend(n, b, View(Idle), syncTo)
    {
      ghost var n := View(Idle);
      assert cfg.crypto(epoch).scheme.indexOf == cache.indexOf;
      syncTo := TryAppend(recovered, now);
      if n.agg.lastBeacon.round <= MAX_ROUND - 4 {
        AggregatedIff(Group(cfg, n), n.agg, recovered);
      }
    }

    method TryAppend(recovered: Option<Bytes>, ghost now: int) returns (syncTo: Option<Round>)
      requires Valid() && newPartials != [] && append.last.round < MAX_ROUND - PARTIAL_CACHE_STORE_LIMIT - 1
      modifies this, append, append.base, cache
      ensures Valid() && Reaches(cfg, now, old(View(Idle)), View(Idle))
      ensures newPartials == old(newPartials)[1..]
      ensures cache.State() == CacheAfter(Group(cfg, old(View(Idle))), old(View(Idle)).agg, recovered)
      ensures var n := old(View(Idle)); TriesToAppend(n, Aggregated(Group(cfg, n), n.agg, recovered), View(Idle), syncTo)
    {
      ghost var n := View(Idle);
      PartialReaches(cfg, now, n, recovered);
      var p := newPartials[0];
      var b := Aggregate(p, recovered);
      newPartials := newPartials[1..];
      if b.None? {
        return None;
      }
      syncTo := Land(b.value, n, now);
    }

    /** `tryAppend`. */
    method Land(b: Beacon, ghost n: Node, ghost now: int) returns (syncTo: Option<Round>)
      requires Valid() && append.last.round < MAX_ROUND - PARTIAL_CACHE_STORE_LIMIT - 1
      requires Reaches(cfg, now, n, Landed(View(Idle), b))
      modifies this`jobs, this`lastBeacon, this`loop, append, append.base
      ensures Valid() && Reaches(cfg, now, n, View(Idle))
      ensures TriesToAppend(old(View(Idle)), Some(b), View(Idle), syncTo)
    {
      var ok := false;
      if Succ(lastBeacon.round) == b.round {
        ok := append.Put(b, cfg.seed);
      }
      if !ok {
        return if b.round > Succ(lastBeacon.round) then Some(b.round) else None;
      }
      Appended(b, n, now);
      return None;
    }

    /** The rest of `callbackStore.Put` and `tryAppend`, after the database write. */
    method Appended(b: Beacon, ghost n: Node, ghost now: int)
      requires 1 <= cfg.period && BelowTop(View(Idle)) && 0 < b.round
      requires Reaches(cfg, now, n, View(Awaiting(b)))
      modifies this`jobs, this`lastBeacon, this`loop
      ensures Reaches(cfg, now, n, View(Idle)) && lastBeacon == b
      ensures forall id :: id in callbacks ==> Job(callbacks[id], b) in jobs
      ensures |jobs| == |old(jobs)| + |callbacks.Keys|
    {
      ReachesStep(cfg, now, n, View(Awaiting(b)), Lock(Aggregation));
      Dispatch(b, Aggregation, n, now);
      ReachesStep(cfg, now, n, View(Pushing(b, {})), Unlock(Aggregation));
      if loop.catchup.None? {
        loop := loop.(catchup := Some(b));
      }
      lastBeacon := b;
    }

    /** The same store from the side of a sync: one packet of a peer's stream, through `callbackStore.Put`. */
    method StoreSynced(b: Beacon, ghost now: int) returns (ok: bool)
      requires Valid() && append.last.round < MAX_ROUND - PARTIAL_CACHE_STORE_LIMIT - 1
      modifies this`jobs, append, append.base
      ensures Valid() && Reaches(cfg, now, old(View(Idle)), View(Idle))
      ensures ok <==> VerifyBeacon(cfg.scheme, b) && b.round == old(append.last).round + 1 && b.prev == old(append.last).sig
      ensures ok ==> && append.base.contents == old(append.base.contents)[b.round := b] && append.last == b
                     && (forall id :: id in callbacks ==> Job(callbacks[id], b) in jobs)
                     && |jobs| == |old(jobs)| + |callbacks.Keys| && old(jobs) <= jobs
      ensures !ok ==> View(Idle) == old(View(Idle))
    {
      ghost var n := View(Idle);
      ReachesSelf(cfg, now, n);
      ok := PutVerified(b);
      if ok {
        SyncReaches(cfg, now, n, b);
        SyncedDispatch(b, n, now);
      }
    }

    method PutVerified(b: Beacon) returns (ok: bool)
      requires append.Valid(cfg.seed) && append.last.round < MAX_ROUND
      modifies append, append.base
      ensures append.Valid(cfg.seed)
      ensures ok <==> VerifyBeacon(cfg.scheme, b) && Accepts(old(append.last), b)
      ensures append.last == if ok then b else old(append.last)
      ensures append.base.contents == if ok then old(append.base.contents)[b.round := b] else old(append.base.contents)
    {
      if !VerifyBeacon(cfg.scheme, b) {
        return false;
      }
      ok := append.Put(b, cfg.seed);
    }

    method SyncedDispatch(b: Beacon, ghost n: Node, ghost now: int)
      requires 1 <= cfg.period && BelowTop(View(Idle)) && 0 < b.round
      requires Reaches(cfg, now, n, At(Syncing, Awaiting(b)))
      modifies this`jobs
      ensures Reaches(cfg, now, n, View(Idle))
      ensures forall id :: id in callbacks ==> Job(callbacks[id], b) in jobs
      ensures |jobs| == |old(jobs)| + |callbacks.Keys| && old(jobs) <= jobs
    {
      ReachesStep(cfg, now, n, At(Syncing, Awaiting(b)), Lock(Syncing));
      Dispatch(b, Syncing, n, now);
      ReachesStep(cfg, now, n, At(Syncing, Pushing(b, {})), Unlock(Syncing));
    }

    /** A worker takes one job, any one that is queued. */
    method RunWorker(job: Job)
      requires Valid() && job in jobs
      modifies this`jobs, this`beaconStored, this`leaving, this`epoch
      ensures Valid() && View(Idle) == AfterJob(old(View(Idle)), job)
      ensures jobs == old(jobs) - multiset{job}
      ensures beaconStored == old(beaconStored) + if job.cb.ToAggregator? then [job.b] else []
      ensures var switch := job.cb.ToTransition? && job.b.round >= job.cb.target;
              && epoch == (if switch then job.cb.epoch else old(epoch))
              && leaving == (if switch then old(leaving) + {"transition"} else old(leaving))
    {
      jobs := jobs - multiset{job};
      Call(job);
    }

    /** The callbacks: the aggregator's channel, the share switch, a stream. */
    method Call(job: Job)
      modifies this`beaconStored, this`leaving, this`epoch
      ensures beaconStored == if job.cb.ToAggregator? then old(beaconStored) + [job.b] else old(beaconStored)
      ensures var switch := job.cb.ToTransition? && job.b.round >= job.cb.target;
              && epoch == (if switch then job.cb.epoch else old(epoch))
              && leaving == (if switch then old(leaving) + {"transition"} else old(leaving))
    {
      match job.cb {
        case ToAggregator => beaconStored := beaconStored + [job.b];
        case ToTransition(target, next) =>
          if job.b.round >= target {
            epoch := next;
            leaving := leaving + {"transition"};
          }
        case ToStream(_) =>
      }
    }

    /** `TransitionNewGroup`: refused unless the transition time is the time of a round. */
    method TransitionNewGroup(transition: int, next: nat) returns (ok: bool)
      requires Valid()
      modifies this`callbacks
      ensures Valid() && (ok <==> Aligned(cfg.period, cfg.genesis, transition))
      ensures !ok ==> callbacks == old(callbacks)
      ensures ok ==> View(Idle) == AfterRegister(old(View(Idle)), "transition", ToTransition(TargetRound(cfg, transition), next))
      ensures forall r: Round :: ok && IsTimeOf(cfg, transition, r) ==>
                callbacks == old(callbacks)["transition" := ToTransition(r - 1, next)]
    {
      TargetIsBefore(cfg, transition);
      if !Aligned(cfg.period, cfg.genesis, transition) {
        return false;
      }
      callbacks := callbacks["transition" := ToTransition(TargetRound(cfg, transition), next)];
      return true;
    }

    /** `AddCallback`. */
    method AddCallback(id: string, cb: Callback)
      requires Valid()
      modifies this`callbacks
      ensures Valid() && View(Idle) == AfterRegister(old(View(Idle)), id, cb)
      ensures callbacks == old(callbacks)[id := cb]
    {
      callbacks := callbacks[id := cb];
    }

    /** `RemoveCallback`. */
    method RemoveCallback(id: string)
      requires Valid()
      modifies this`callbacks
      ensures Valid() && View(Idle) == AfterRemove(old(View(Idle)), id)
      ensures callbacks == old(callbacks) - {id}
    {
      callbacks := callbacks - {id};
    }

    /** The ticker reaches the node's channel, which has one slot: the round is dropped if it is full. */
    method SendTick(now: int)
      requires Valid() && now >= cfg.genesis
      modifies this`loop
      ensures Valid() && Enabled(cfg, now, old(View(Idle)), Tick)
      ensures View(Idle) == Next(cfg, now, old(View(Idle)), Tick)
      ensures loop == old(loop).(tick := if old(loop).tick.Some? then old(loop).tick
                                         else Some(CurrentRound(now, cfg.period, cfg.genesis)))
    {
      var tround := CurrentRound(now, cfg.period, cfg.genesis);
      if loop.tick.None? {
        loop := loop.(tick := Some(tround));
      }
    }

    /** `broadcastNextPartial`: the packet goes to the aggregator and to the other nodes. */
    method BroadcastNextPartial(round: Round, upon: Beacon, sign: Bytes -> Bytes) returns (packet: Packet)
      modifies this`newPartials
      ensures packet.round == if round == upon.round then round else Succ(upon.round)
      ensures packet.prev == if round == upon.round then upon.prev else upon.sig
      ensures packet.partial == sign(Message(cfg.crypto(epoch).scheme, packet.round, packet.prev))
      ensures packet == OwnPacket(round, upon, packet.partial)
      ensures newPartials == old(newPartials) + [packet]
    {
      var previousSig, next := upon.sig, Succ(upon.round);
      if round == upon.round {
        previousSig, next := upon.prev, round;
      }
      var msg := Message(cfg.crypto(epoch).scheme, next, previousSig);
      packet := Packet(next, previousSig, sign(msg));
      newPartials := newPartials + [packet];
    }

    /** `SignPartial` makes valid partials that carry the node's own index. */
    ghost predicate Signs(sign: Bytes -> Bytes)
      reads this
    {
      var g := cfg.crypto(epoch);
      forall m: Bytes :: g.scheme.partialValid(m, sign(m)) && g.scheme.indexOf(sign(m)) == g.index
    }

    /** The loop's case for a tick: sign upon the last stored beacon, and sync if there is a gap. */
    method OnTick(sign: Bytes -> Bytes) returns (packet: Packet, syncTo: Option<Round>)
      requires Valid() && loop.tick.Some? && Signs(sign)
      modifies this`loop, this`newPartials
      ensures Valid() && IsLast(append.base.contents, append.last)
      ensures ProperPartial(cfg.crypto(epoch), packet)
      ensures packet.round == if old(loop).tick.value == append.last.round then append.last.round else Succ(append.last.round)
      ensures packet.prev == if old(loop).tick.value == append.last.round then append.last.prev else append.last.sig
      ensures newPartials == old(newPartials) + [packet] && loop == old(loop).(tick := None, current := old(loop).tick.value)
      ensures packet == OwnPacket(old(loop).tick.value, append.last, packet.partial)
      ensures View(Idle) == AfterSign(AfterTick(old(View(Idle)), append.last),
                                      Signer(old(loop).tick.value, append.last), packet.partial)
      ensures syncTo == if Succ(append.last.round) < loop.current then Some(loop.current) else None
    {
      var upon := append.base.Last();
      assert append.base.contents != map[] by { assert append.last.round in append.base.contents; }
      ChainHasLast(append.base.contents, append.last, cfg.seed, upon.value);
      ghost var n := View(Idle);
      loop := loop.(current := loop.tick.value, tick := None);
      packet := BroadcastNextPartial(loop.current, upon.value, sign);
      TickThenSign(n, append.last, packet.partial);
      syncTo := if Succ(upon.value.round) < loop.current then Some(loop.current) else None;
    }

    /** The loop's case for an appended beacon: start a catch-up if it is behind the current round. */
    method OnAppended()
      requires Valid() && loop.catchup.Some?
      modifies this`loop
      ensures Valid() && View(Idle) == AfterAppended(old(View(Idle)))
      ensures var b, current := old(loop).catchup.value, old(loop).current;
              loop == old(loop).(catchup := None,
                                 signers := if b.round < current then old(loop).signers + multiset{Signer(current, b)}
                                            else old(loop).signers)
    {
      var b := loop.catchup.value;
      var started := if b.round < loop.current then multiset{Signer(loop.current, b)} else multiset{};
      loop := loop.(catchup := None, signers := loop.signers + started);
    }

    /** A catch-up goroutine, once it has slept. */
    method OnWoken(s: Signer, sign: Bytes -> Bytes) returns (packet: Packet)
      requires Valid() && s in loop.signers && Signs(sign)
      modifies this`loop, this`newPartials
      ensures Valid()
      ensures ProperPartial(cfg.crypto(epoch), packet)
      ensures packet.round == if s.current == s.upon.round then s.upon.round else Succ(s.upon.round)
      ensures packet.prev == if s.current == s.upon.round then s.upon.prev else s.upon.sig
      ensures newPartials == old(newPartials) + [packet] && loop == old(loop).(signers := old(loop).signers - multiset{s})
      ensures packet == OwnPacket(s.current, s.upon, packet.partial)
      ensures View(Idle) == AfterSign(old(View(Idle)), s, packet.partial)
    {
      loop := loop.(signers := loop.signers - multiset{s});
      packet := BroadcastNextPartial(s.current, s.upon, sign);
    }
  }
}
