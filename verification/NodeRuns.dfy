/** What holds along every run of one node (chain/beacon/chain.go, store.go, node.go). */
module NodeRuns {
  import opened Bytes
  import opened Collections
  import opened Chain
  import opened PartialCache
  import opened Node

  /** An action taken at some reading of the clock. */
  datatype Event = Event(now: int, a: Action)

  ghost predicate IsStep(cfg: Config, n: Node, e: Event, n': Node)
    requires 1 <= cfg.period
  {
    BelowTop(n) && Enabled(cfg, e.now, n, e.a) && n' == Next(cfg, e.now, n, e.a)
  }

  /** Event `i` leads from state `i` to the next one. */
  ghost predicate StepAt(cfg: Config, states: seq<Node>, events: seq<Event>, i: nat)
    requires 1 <= cfg.period && |states| == |events| + 1 && i < |events|
  {
    IsStep(cfg, states[i], events[i], states[i + 1])
  }

  ghost predicate IsRun(cfg: Config, states: seq<Node>, events: seq<Event>) {
    && 1 <= cfg.period
    && |states| == |events| + 1
    && forall i {:trigger StepAt(cfg, states, events, i)} :: 0 <= i < |events| ==> StepAt(cfg, states, events, i)
  }

  /** A node that has just been started on a database holding a verified chain of its genesis,
      possibly the genesis beacon alone. */
  ghost predicate Started(cfg: Config, n: Node) {
    && IsChain(n.store.db, n.store.last, cfg.seed) && Verified(cfg.scheme, n.store.db)
    && n.store.callbacks == map["chainstore" := ToAggregator]
    && n.store.jobs == multiset{} && n.store.leaving == {}
    && n.agg == Aggregator(n.store.last, EMPTY, [], [], Idle)
    && n.loop == Loop(None, 0, None, multiset{})
    && n.sync == Idle
  }

  /** From a state with a chain on, a run keeps the chain and overwrites nothing. */
  lemma {:induction false} RunKeepsChain(cfg: Config, states: seq<Node>, events: seq<Event>, i: nat, j: nat)
    requires SameKey(cfg) && IsRun(cfg, states, events) && i <= j < |states| && ChainInv(cfg, states[i])
    ensures ChainInv(cfg, states[j]) && Extends(states[i].store.db, states[j].store.db)
    decreases j
  {
    if i < j {
      RunKeepsChain(cfg, states, events, i, j - 1);
      RunStepKeepsChain(cfg, states, events, j);
    }
  }

  lemma RunStepKeepsChain(cfg: Config, states: seq<Node>, events: seq<Event>, j: nat)
    requires SameKey(cfg) && IsRun(cfg, states, events) && 0 < j < |states| && ChainInv(cfg, states[j - 1])
    ensures ChainInv(cfg, states[j]) && Extends(states[j - 1].store.db, states[j].store.db)
  {
    assert StepAt(cfg, states, events, j - 1);
    StepKeepsChain(cfg, events[j - 1].now, states[j - 1], events[j - 1].a);
  }

  lemma StartedChain(cfg: Config, n: Node)
    requires Started(cfg, n)
    ensures ChainInv(cfg, n)
  {
    assert forall b :: InFlight(n, b) ==> b == n.store.last;
  }

  /** Main result: in every reachable state, under every interleaving, the database holds exactly
      the rounds up to the last, linked and verified, and `lastBeacon` is one of its beacons. */
  lemma ChainTheorem(cfg: Config, states: seq<Node>, events: seq<Event>, i: nat)
    requires SameKey(cfg) && IsRun(cfg, states, events) && Started(cfg, states[0]) && i < |states|
    ensures ChainInv(cfg, states[i])
    ensures IsChain(states[i].store.db, states[i].store.last, cfg.seed)
    ensures Verified(cfg.scheme, states[i].store.db)
    ensures Stored(states[i].store.db, states[i].agg.lastBeacon)
  {
    StartedChain(cfg, states[0]);
    RunKeepsChain(cfg, states, events, 0, i);
    assert InFlight(states[i], states[i].agg.lastBeacon);
  }

  /** Main result: a stored round is never changed or lost. */
  lemma NothingOverwritten(cfg: Config, states: seq<Node>, events: seq<Event>, i: nat, j: nat)
    requires SameKey(cfg) && IsRun(cfg, states, events) && Started(cfg, states[0])
    requires i <= j < |states|
    ensures Extends(states[i].store.db, states[j].store.db)
  {
    ChainTheorem(cfg, states, events, i);
    RunKeepsChain(cfg, states, events, i, j);
  }

  // ---- What reaches tryAppend -----------------------------------------------------------

  /** The cache is in order, and everything cached or queued is a valid partial of the group. */
  ghost predicate CacheInv(g: Crypto, n: Node) {
    && WellFormed(n.agg.cache, g.scheme.indexOf) && AllValid(n.agg.cache, g.scheme)
    && forall p :: p in n.agg.partials ==> ValidPacket(g.scheme, p)
  }

  lemma FlushValid(c: Cache, round: Round, s: Scheme)
    requires AllValid(c, s)
    ensures AllValid(Flush(c, round), s)
  {
    var c' := Flush(c, round);
    forall id, idx | Holds(c', id, idx)
      ensures s.partialValid(Message(s, c'.rounds[id].round, c'.rounds[id].prev), c'.rounds[id].sigs[idx])
    {
      assert Holds(c, id, idx);
    }
  }

  lemma AggregatorKeepsCache(g: Crypto, agg: Aggregator, recovered: Option<Bytes>)
    requires agg.partials != [] && ValidPacket(g.scheme, agg.partials[0])
    requires WellFormed(agg.cache, g.scheme.indexOf) && AllValid(agg.cache, g.scheme)
    ensures WellFormed(CacheAfter(g, agg, recovered), g.scheme.indexOf)
    ensures AllValid(CacheAfter(g, agg, recovered), g.scheme)
  {
    var p := agg.partials[0];
    AppendWellFormed(agg.cache, p, g.scheme.indexOf);
    AppendValid(agg.cache, p, g.scheme);
    FlushWellFormed(CacheWith(g, agg.cache, p), p.round, g.scheme.indexOf);
    FlushValid(CacheWith(g, agg.cache, p), p.round, g.scheme);
  }

  lemma StepKeepsCache(cfg: Config, now: int, n: Node, a: Action)
    requires 1 <= cfg.period && Enabled(cfg, now, n, a)
    requires CacheInv(Group(cfg, n), n)
    ensures CacheInv(Group(cfg, n), Next(cfg, now, n, a))
  {
    var g, n' := Group(cfg, n), Next(cfg, now, n, a);
    if a.TakePartial? {
      AggregatorKeepsCache(g, n.agg, a.recovered);
    } else if a.TakeNotice? {
      FlushWellFormed(n.agg.cache, n.agg.notices[0].round, g.scheme.indexOf);
      FlushValid(n.agg.cache, n.agg.notices[0].round, g.scheme);
    }
  }

  /** `sigs` are at least a threshold of valid partial signatures of `b`'s message, filed under
      the pairwise distinct indices of the shares that made them. */
  ghost predicate Quorum(g: Crypto, b: Beacon, sigs: map<nat, Bytes>) {
    && |sigs| >= g.threshold
    && forall idx :: idx in sigs ==>
         && g.scheme.indexOf(sigs[idx]) == idx
         && g.scheme.partialValid(Message(g.scheme, b.round, b.prev), sigs[idx])
  }

  lemma AggregatedFromQuorum(g: Crypto, agg: Aggregator, recovered: Option<Bytes>)
    requires agg.partials != [] && ValidPacket(g.scheme, agg.partials[0])
    requires WellFormed(agg.cache, g.scheme.indexOf) && AllValid(agg.cache, g.scheme)
    requires Aggregated(g, agg, recovered).Some?
    ensures var b := Aggregated(g, agg, recovered).value;
            var cache := CacheWith(g, agg.cache, agg.partials[0]);
            && RoundId(b.round, b.prev) in cache.rounds
            && Quorum(g, b, cache.rounds[RoundId(b.round, b.prev)].sigs)
  {
    var p := agg.partials[0];
    var cache := CacheWith(g, agg.cache, p);
    AppendWellFormed(agg.cache, p, g.scheme.indexOf);
    AppendValid(agg.cache, p, g.scheme);
    var id := RoundId(p.round, p.prev);
    assert Filed(cache.rounds[id], id);
    forall idx | idx in cache.rounds[id].sigs
      ensures Holds(cache, id, idx)
    {
    }
  }

  lemma AggregatedRoundNear(g: Crypto, agg: Aggregator, recovered: Option<Bytes>)
    requires agg.partials != [] && WellFormed(agg.cache, g.scheme.indexOf)
    requires Aggregated(g, agg, recovered).Some?
    requires agg.lastBeacon.round <= MAX_ROUND - 4
    ensures agg.lastBeacon.round + 1 <= Aggregated(g, agg, recovered).value.round <= agg.lastBeacon.round + 4
  {
    var p := agg.partials[0];
    AppendWellFormed(agg.cache, p, g.scheme.indexOf);
    var rc := CacheWith(g, agg.cache, p).rounds[RoundId(p.round, p.prev)];
    assert Filed(rc, RoundId(p.round, p.prev));
    RoundIdInjective(p.round, p.prev, rc.round, rc.prev);
  }

  lemma {:induction false} RunCache(cfg: Config, states: seq<Node>, events: seq<Event>, i: nat)
    requires IsRun(cfg, states, events) && Started(cfg, states[0]) && i < |states|
    requires forall k :: 0 <= k < |states| ==> states[k].epoch == states[0].epoch
    ensures CacheInv(Group(cfg, states[0]), states[i])
    decreases i
  {
    if i > 0 {
      RunCache(cfg, states, events, i - 1);
      assert StepAt(cfg, states, events, i - 1);
      StepKeepsCache(cfg, events[i - 1].now, states[i - 1], events[i - 1].a);
    }
  }

  /** Main result: in a run under one group, every beacon passed to `tryAppend` was recovered from
      cached partials that are a quorum over its own round and previous signature, and lies one to
      four rounds ahead. */
  lemma TryAppendTheorem(cfg: Config, states: seq<Node>, events: seq<Event>, i: nat, recovered: Option<Bytes>)
    requires SameKey(cfg) && IsRun(cfg, states, events) && Started(cfg, states[0]) && i < |events|
    requires forall k :: 0 <= k < |states| ==> states[k].epoch == states[0].epoch
    requires events[i].a == TakePartial(recovered)
    requires states[i].agg.partials != []
    requires Aggregated(Group(cfg, states[i]), states[i].agg, recovered).Some?
    ensures var g, agg := Group(cfg, states[0]), states[i].agg;
            var b := Aggregated(g, agg, recovered).value;
            var cache := CacheWith(g, agg.cache, agg.partials[0]);
            && agg.lastBeacon.round + 1 <= b.round <= agg.lastBeacon.round + 4
            && RoundId(b.round, b.prev) in cache.rounds
            && Quorum(g, b, cache.rounds[RoundId(b.round, b.prev)].sigs)
  {
    var g, agg := Group(cfg, states[0]), states[i].agg;
    RunCache(cfg, states, events, i);
    assert agg.partials[0] in agg.partials;
    AggregatedFromQuorum(g, agg, recovered);
    ChainTheorem(cfg, states, events, i);
    assert StepAt(cfg, states, events, i);
    AggregatedRoundNear(g, agg, recovered);
  }

  // ---- The share switch -----------------------------------------------------------------

  /** `cb` was registered by one of the first `i` events. */
  ghost predicate Registered(events: seq<Event>, i: nat, cb: Callback)
    requires i <= |events|
  {
    exists k, id :: 0 <= k < i && events[k].a == Register(id, cb)
  }

  /** Transition callbacks come from registrations, also those already waiting for a worker. */
  ghost predicate TransitionsRegistered(events: seq<Event>, i: nat, n: Node)
    requires i <= |events|
  {
    && (forall id :: id in n.store.callbacks && n.store.callbacks[id].ToTransition? ==>
          Registered(events, i, n.store.callbacks[id]))
    && (forall j :: j in n.store.jobs && j.cb.ToTransition? ==> Registered(events, i, j.cb))
  }

  lemma RegistrationStep(cfg: Config, events: seq<Event>, i: nat, n: Node)
    requires 1 <= cfg.period && i < |events| && Enabled(cfg, events[i].now, n, events[i].a)
    requires TransitionsRegistered(events, i, n)
    ensures TransitionsRegistered(events, i + 1, Next(cfg, events[i].now, n, events[i].a))
  {
    var a, n' := events[i].a, Next(cfg, events[i].now, n, events[i].a);
    forall cb | Registered(events, i, cb) ensures Registered(events, i + 1, cb) {
      var k, id :| 0 <= k < i && events[k].a == Register(id, cb);
    }
    forall id | id in n'.store.callbacks && n'.store.callbacks[id].ToTransition?
      ensures Registered(events, i + 1, n'.store.callbacks[id])
    {
      if a.Register? && a.id == id {
        assert events[i].a == Register(id, n'.store.callbacks[id]);
      }
    }
    forall j | j in n'.store.jobs && j.cb.ToTransition? ensures Registered(events, i + 1, j.cb) {
      assert a.Push? || j in n.store.jobs;
    }
  }

  /** The node's group was registered with a target round that the database now holds. */
  ghost predicate SwitchJustified(events: seq<Event>, i: nat, n: Node)
    requires i <= |events|
  {
    exists target :: target in n.store.db && Registered(events, i, ToTransition(target, n.epoch))
  }

  lemma SwitchStep(cfg: Config, events: seq<Event>, i: nat, n: Node)
    requires 1 <= cfg.period && i < |events| && Enabled(cfg, events[i].now, n, events[i].a)
    requires ChainInv(cfg, n) && TransitionsRegistered(events, i, n)
    requires Next(cfg, events[i].now, n, events[i].a).epoch != n.epoch
    ensures SwitchJustified(events, i, Next(cfg, events[i].now, n, events[i].a))
  {
    var job := events[i].a.job;
    assert Queued(n.store, job.b) by { assert Job(job.cb, job.b) in n.store.jobs; }
    assert InFlight(n, job.b);
    assert job.cb.target in n.store.db;
  }

  lemma {:induction false} RegistrationsKept(cfg: Config, states: seq<Node>, events: seq<Event>, i: nat)
    requires IsRun(cfg, states, events) && Started(cfg, states[0]) && i < |states|
    ensures TransitionsRegistered(events, i, states[i])
    decreases i
  {
    if i > 0 {
      RegistrationsKept(cfg, states, events, i - 1);
      assert StepAt(cfg, states, events, i - 1);
      RegistrationStep(cfg, events, i - 1, states[i - 1]);
    }
  }

  lemma StillJustified(events: seq<Event>, i: nat, n: Node, n': Node)
    requires i < |events| && SwitchJustified(events, i, n)
    requires n'.epoch == n.epoch && Extends(n.store.db, n'.store.db)
    ensures SwitchJustified(events, i + 1, n')
  {
    var target :| target in n.store.db && Registered(events, i, ToTransition(target, n.epoch));
    var k, id :| 0 <= k < i && events[k].a == Register(id, ToTransition(target, n.epoch));
    assert Registered(events, i + 1, ToTransition(target, n'.epoch));
  }

  lemma SwitchAt(cfg: Config, states: seq<Node>, events: seq<Event>, i: nat)
    requires SameKey(cfg) && IsRun(cfg, states, events) && i < |events|
    requires ChainInv(cfg, states[i]) && TransitionsRegistered(events, i, states[i])
    requires states[i + 1].epoch != states[i].epoch
    ensures SwitchJustified(events, i + 1, states[i + 1])
  {
    assert StepAt(cfg, states, events, i);
    SwitchStep(cfg, events, i, states[i]);
    var n' := states[i + 1];
    var target :| target in n'.store.db && Registered(events, i, ToTransition(target, n'.epoch));
    var k, id :| 0 <= k < i && events[k].a == Register(id, ToTransition(target, n'.epoch));
    assert Registered(events, i + 1, ToTransition(target, n'.epoch));
  }

  /** Main result: for every callback order, the share is switched only to a registered group, and
      only once the beacon of that group's target round (and so every earlier one) is stored. */
  lemma {:induction false} SwitchTheorem(cfg: Config, states: seq<Node>, events: seq<Event>, i: nat)
    requires SameKey(cfg) && IsRun(cfg, states, events) && Started(cfg, states[0]) && i < |states|
    ensures states[i].epoch == states[0].epoch || SwitchJustified(events, i, states[i])
    decreases i
  {
    if i > 0 {
      SwitchTheorem(cfg, states, events, i - 1);
      if states[i].epoch != states[i - 1].epoch {
        ChainTheorem(cfg, states, events, i - 1);
        RegistrationsKept(cfg, states, events, i - 1);
        SwitchAt(cfg, states, events, i - 1);
      } else if states[i].epoch != states[0].epoch {
        NothingOverwritten(cfg, states, events, i - 1, i);
        StillJustified(events, i - 1, states[i - 1], states[i]);
      }
    }
  }
}
