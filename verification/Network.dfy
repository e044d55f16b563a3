/** The whole network: honest nodes on one synchronised clock, a network that may lose, repeat
    and reorder everything, and an adversary bounded only by the signature scheme. */
module Network {
  import opened Bytes
  import opened Collections
  import opened Chain
  import opened RoundTime
  import opened PartialCache
  import opened Stores
  import opened Node
  import NodeRuns

  /** Honest share `idx` has signed the message of this round and previous signature. */
  datatype Signing = Signing(idx: nat, round: Round, prev: Bytes)

  datatype Net = Net(now: int, nodes: map<nat, Node>, signed: set<Signing>)

  /** `cfg` gives each node its configuration; `faulty` are the shares the adversary holds. */
  datatype Params = Params(
    seed: Bytes, scheme: Scheme, period: int, genesis: int, cfg: nat -> Config, threshold: nat, faulty: set<nat>)

  datatype Step = Advance(later: int) | NodeStep(i: nat, a: Action)

  /** Node `i` follows the common chain: same seed, key, period and genesis time. */
  ghost predicate Follows(p: Params, i: nat) {
    var c := p.cfg(i);
    && SameKey(c) && c.seed == p.seed && c.scheme == p.scheme && c.period == p.period && c.genesis == p.genesis
  }

  ghost predicate OneChain(p: Params) {
    ValidSchedule(p.period, p.genesis) && forall i: nat :: Follows(p, i)
  }

  ghost predicate IsStep(p: Params, s: Net, t: Step, s': Net)
    requires OneChain(p)
  {
    match t
    case Advance(later) => s.now <= later && s' == s.(now := later)
    case NodeStep(i, a) =>
      && Follows(p, i) && i in s.nodes && BelowTop(s.nodes[i]) && Enabled(p.cfg(i), s.now, s.nodes[i], a)
      && s'.now == s.now
      && s'.nodes == s.nodes[i := Next(p.cfg(i), s.now, s.nodes[i], a)]
      && s'.signed == s.signed + Signings(i, Broadcast(s.nodes[i], a))
  }

  function Signings(i: nat, p: Option<Packet>): set<Signing> {
    if p.Some? then {Signing(i, p.value.round, p.value.prev)} else {}
  }

  /** Step `k` leads from state `k` to the next one. */
  ghost predicate StepAt(p: Params, states: seq<Net>, steps: seq<Step>, k: nat)
    requires OneChain(p) && |states| == |steps| + 1 && k < |steps|
  {
    IsStep(p, states[k], steps[k], states[k + 1])
  }

  ghost predicate IsRun(p: Params, states: seq<Net>, steps: seq<Step>) {
    && OneChain(p)
    && |states| == |steps| + 1
    && forall k {:trigger StepAt(p, states, steps, k)} :: 0 <= k < |steps| ==> StepAt(p, states, steps, k)
  }

  ghost predicate Initial(p: Params, s: Net) {
    s.signed == {} && forall i :: i in s.nodes ==> NodeRuns.Started(p.cfg(i), s.nodes[i])
  }

  // ---- Agreement ------------------------------------------------------------------------

  ghost predicate AllChains(p: Params, s: Net) {
    forall i :: i in s.nodes ==> ChainInv(p.cfg(i), s.nodes[i])
  }

  lemma {:induction false} ReachableChains(p: Params, states: seq<Net>, steps: seq<Step>, k: nat)
    requires IsRun(p, states, steps) && Initial(p, states[0]) && k < |states|
    ensures AllChains(p, states[k])
    decreases k
  {
    if k == 0 {
      forall i | i in states[0].nodes ensures ChainInv(p.cfg(i), states[0].nodes[i]) {
        NodeRuns.StartedChain(p.cfg(i), states[0].nodes[i]);
      }
    } else {
      ReachableChains(p, states, steps, k - 1);
      assert StepAt(p, states, steps, k - 1);
      if steps[k - 1].NodeStep? {
        var i := steps[k - 1].i;
        StepKeepsChain(p.cfg(i), states[k - 1].now, states[k - 1].nodes[i], steps[k - 1].a);
      }
    }
  }

  /** Main result: in every reachable state of the network, whoever the faulty shares are and
      however the groups change, of any two stores one is a prefix of the other. */
  lemma AgreementTheorem(p: Params, states: seq<Net>, steps: seq<Step>, k: nat, i: nat, j: nat)
    requires UniqueSignatures(p.scheme)
    requires IsRun(p, states, steps) && Initial(p, states[0]) && k < |states|
    requires i in states[k].nodes && j in states[k].nodes
    ensures var a, b := states[k].nodes[i].store.db, states[k].nodes[j].store.db;
            && (PrefixOf(a, b) || PrefixOf(b, a))
            && (forall r: Round :: r in a && r in b ==> a[r] == b[r])
  {
    ReachableChains(p, states, steps, k);
    var a, b := states[k].nodes[i].store, states[k].nodes[j].store;
    assert Follows(p, i) && ChainInv(p.cfg(i), states[k].nodes[i]);
    assert Follows(p, j) && ChainInv(p.cfg(j), states[k].nodes[j]);
    StoresAgree(p.scheme, p.seed, a, b);
  }

  lemma StoresAgree(s: Scheme, seed: Bytes, a: Store, b: Store)
    requires UniqueSignatures(s)
    requires IsChain(a.db, a.last, seed) && Verified(s, a.db)
    requires IsChain(b.db, b.last, seed) && Verified(s, b.db)
    ensures PrefixOf(a.db, b.db) || PrefixOf(b.db, a.db)
    ensures forall r: Round :: r in a.db && r in b.db ==> a.db[r] == b.db[r]
  {
    ChainsArePrefixes(s, seed, a.db, a.last, b.db, b.last);
  }

  // ---- Timing ---------------------------------------------------------------------------

  /** One fixed group: share `i` belongs to node `i`, and fewer than a threshold are faulty. */
  ghost predicate FixedGroup(p: Params) {
    |p.faulty| < p.threshold && forall i: nat, e: nat :: InGroup(p, i, e)
  }

  ghost predicate InGroup(p: Params, i: nat, e: nat) {
    p.cfg(i).crypto(e) == Crypto(p.scheme, p.threshold, i)
  }

  /** Share `i` may have contributed to the message of this round and previous signature. */
  ghost predicate Contributed(p: Params, s: Net, i: nat, round: Round, prev: Bytes) {
    i in p.faulty || exists g :: g in s.signed && g.idx == i
                                 && Message(p.scheme, g.round, g.prev) == Message(p.scheme, round, prev)
  }

  /** A full signature exists only once a threshold of distinct shares has signed. */
  ghost predicate Producible(p: Params, s: Net, b: Beacon) {
    exists shares :: Coalition(p, s, b, shares)
  }

  ghost predicate Coalition(p: Params, s: Net, b: Beacon, shares: set<nat>) {
    |shares| >= p.threshold && forall i :: i in shares ==> Contributed(p, s, i, b.round, b.prev)
  }

  /** What the scheme and the schedule guarantee of one step: nobody can forge the partial of a share
      that did not sign, nor stream a full signature that is not producible; the clock stays in range,
      and when a tick is handled the last stored round is the tick's own or lies before the current one. */
  ghost predicate Timely(p: Params, s: Net, t: Step)
    requires OneChain(p)
  {
    match t
    case Advance(later) => later < p.genesis + MAX_ELAPSED
    case NodeStep(i, a) =>
      && Follows(p, i) && i in s.nodes
      && (a.SyncBeacon? ==> Producible(p, s, a.b))
      && (a.Receive? ==> PacketBacked(p, s, a.p))
      && (a.HandleTick? && s.nodes[i].loop.tick.Some? ==> Punctual(p, s.now, s.nodes[i].loop.tick.value, a.upon))
  }

  /** The exact condition of `StaleTickIff`; a tick handled within its own round always meets it. */
  predicate Punctual(p: Params, now: int, tick: Round, upon: Beacon)
    requires 1 <= p.period
  {
    tick == upon.round || upon.round < CurrentRound(now, p.period, p.genesis)
  }

  /** The share named in the packet contributed to what the packet is about. */
  ghost predicate PacketBacked(p: Params, s: Net, pk: Packet) {
    Contributed(p, s, p.scheme.indexOf(pk.partial), pk.round, pk.prev)
  }

  ghost predicate CacheBacked(p: Params, s: Net, c: Cache) {
    && WellFormed(c, p.scheme.indexOf)
    && forall id, idx :: Holds(c, id, idx) ==> Contributed(p, s, idx, c.rounds[id].round, c.rounds[id].prev)
  }

  /** Everything the aggregator has cached or queued was contributed by the share it is filed under. */
  ghost predicate Backed(p: Params, s: Net, agg: Aggregator) {
    CacheBacked(p, s, agg.cache) && forall pk :: pk in agg.partials ==> PacketBacked(p, s, pk)
  }

  predicate Due(p: Params, now: int, r: Round) {
    TimeOfRound(p.period, p.genesis, r) <= now
  }

  /** Nothing in `db` but the genesis beacon is of a round whose time has not come. */
  ghost predicate NothingEarly(p: Params, now: int, db: Ledger) {
    forall r: Round :: r in db && 0 < r ==> TimeOfRound(p.period, p.genesis, r) <= now
  }

  /** What a goroutine is about to sign is due. */
  predicate SignsDue(p: Params, now: int, s: Signer) {
    var r := ToSign(s.current, s.upon).0;
    1 <= r && Due(p, now, r)
  }

  ghost predicate NodeOnTime(p: Params, now: int, n: Node) {
    && NothingEarly(p, now, n.store.db)
    && (0 < n.loop.current ==> Due(p, now, n.loop.current))
    && (n.loop.tick.Some? ==> p.genesis <= now && 1 <= n.loop.tick.value && Due(p, now, n.loop.tick.value))
    && (forall s :: s in n.loop.signers ==> SignsDue(p, now, s))
  }

  ghost predicate OnTime(p: Params, s: Net) {
    && s.now < p.genesis + MAX_ELAPSED
    && (forall g :: g in s.signed ==> 1 <= g.round && Due(p, s.now, g.round))
    && (forall i :: i in s.nodes ==> NodeOnTime(p, s.now, s.nodes[i]))
    && (forall i :: i in s.nodes ==> Backed(p, s, s.nodes[i].agg))
  }

  /** A producible beacon of round 1 or later is due: some honest share signed it. */
  lemma ProducibleIsDue(p: Params, s: Net, b: Beacon)
    requires CollisionFree(p.scheme) && FixedGroup(p) && OnTime(p, s) && Producible(p, s, b)
    ensures 1 <= b.round && Due(p, s.now, b.round)
  {
    var shares :| Coalition(p, s, b, shares);
    if shares <= p.faulty {
      SubsetSize(shares, p.faulty);
    }
    var i :| i in shares && i !in p.faulty;
    assert Contributed(p, s, i, b.round, b.prev);
    var g :| g in s.signed && g.idx == i && Message(p.scheme, g.round, g.prev) == Message(p.scheme, b.round, b.prev);
    MessageInjective(p.scheme, g.round, g.prev, b.round, b.prev);
  }

  /** A tick handled within its round is punctual, and signs a round that is due. */
  lemma TickSignsDue(p: Params, now: int, upon: Beacon)
    requires ValidSchedule(p.period, p.genesis) && InRange(now, p.genesis)
    requires 0 < upon.round ==> Due(p, now, upon.round)
    ensures var c := CurrentRound(now, p.period, p.genesis);
            Punctual(p, now, c, upon) && SignsDue(p, now, Signer(c, upon)) && 1 <= c && Due(p, now, c)
  {
    var c := CurrentRound(now, p.period, p.genesis);
    CurrentRoundBrackets(now, p.period, p.genesis);
    if 0 < upon.round {
      RoundClock(now, p.period, p.genesis, upon.round);
    }
    RoundClock(now, p.period, p.genesis, ToSign(c, upon).0);
  }

  /** A catch-up goroutine signs a round no later than the tick it was started under. */
  lemma CatchupSignsDue(p: Params, now: int, s: Signer)
    requires ValidSchedule(p.period, p.genesis)
    requires s.upon.round < s.current && Due(p, now, s.current)
    ensures SignsDue(p, now, s)
  {
    TimeOfRoundMonotone(p.period, p.genesis, ToSign(s.current, s.upon).0, s.current);
  }

  /** The exact condition for a stale tick: handled in a later round, a tick still signs a round
      that is due if and only if it is the tick of the last stored round, or the last stored round
      lies before the current one. */
  lemma StaleTickIff(p: Params, now: int, tick: Round, upon: Beacon)
    requires ValidSchedule(p.period, p.genesis) && InRange(now, p.genesis)
    requires 1 <= tick <= CurrentRound(now, p.period, p.genesis)
    requires upon.round < MAX_ROUND && (0 < upon.round ==> Due(p, now, upon.round))
    ensures Due(p, now, ToSign(tick, upon).0)
       <==> tick == upon.round || upon.round < CurrentRound(now, p.period, p.genesis)
  {
    if 0 < upon.round {
      RoundClock(now, p.period, p.genesis, upon.round);
    }
    RoundClock(now, p.period, p.genesis, ToSign(tick, upon).0);
  }

  /** A concrete stale tick: the tick of round 1, handled in round 2 after round 2 has been stored,
      signs round 3 before its time. */
  lemma StaleTickSignsEarly(p: Params, upon: Beacon)
    requires p.period == 30 && p.genesis == 1000 && upon.round == 2
    ensures CurrentRound(1030, p.period, p.genesis) == 2
    ensures ToSign(1, upon).0 == 3 && !Due(p, 1030, 3)
  {
    NextRoundExact(1030, 30, 1000);
    CurrentRoundBrackets(1030, 30, 1000);
  }

  /** Storing a due beacon stores nothing early. */
  lemma WriteOnTime(p: Params, now: int, n: Node, b: Beacon)
    requires NothingEarly(p, now, n.store.db) && Due(p, now, b.round)
    ensures NothingEarly(p, now, Append1(n.store, b).db)
  {
  }

  // ---- Contributions --------------------------------------------------------------------

  lemma ContributedLater(p: Params, s: Net, s': Net, i: nat, round: Round, prev: Bytes)
    requires Contributed(p, s, i, round, prev) && s.signed <= s'.signed
    ensures Contributed(p, s', i, round, prev)
  {
  }

  lemma BackedLater(p: Params, s: Net, s': Net, agg: Aggregator)
    requires Backed(p, s, agg) && s.signed <= s'.signed
    ensures Backed(p, s', agg)
  {
    forall id, idx | Holds(agg.cache, id, idx)
      ensures Contributed(p, s', idx, agg.cache.rounds[id].round, agg.cache.rounds[id].prev)
    {
      ContributedLater(p, s, s', idx, agg.cache.rounds[id].round, agg.cache.rounds[id].prev);
    }
    forall pk | pk in agg.partials ensures PacketBacked(p, s', pk) {
      ContributedLater(p, s, s', p.scheme.indexOf(pk.partial), pk.round, pk.prev);
    }
  }

  lemma AppendBacked(p: Params, s: Net, c: Cache, pk: Packet)
    requires CacheBacked(p, s, c) && PacketBacked(p, s, pk)
    ensures CacheBacked(p, s, Append(c, pk, p.scheme.indexOf(pk.partial)))
  {
    var id, idx := RoundId(pk.round, pk.prev), p.scheme.indexOf(pk.partial);
    var c' := Append(c, pk, idx);
    AppendWellFormed(c, pk, p.scheme.indexOf);
    forall i, k | Holds(c', i, k) ensures Contributed(p, s, k, c'.rounds[i].round, c'.rounds[i].prev) {
      if Holds(c, i, k) {
        AppendKeepsRound(c, pk, idx, i);
      } else {
        AppendAdds(c, pk, idx, i, k);
      }
    }
  }

  lemma FlushBacked(p: Params, s: Net, c: Cache, round: Round)
    requires CacheBacked(p, s, c)
    ensures CacheBacked(p, s, Flush(c, round))
  {
    FlushWellFormed(c, round, p.scheme.indexOf);
    var c' := Flush(c, round);
    forall id, idx | Holds(c', id, idx) ensures Contributed(p, s, idx, c'.rounds[id].round, c'.rounds[id].prev) {
      assert Holds(c, id, idx);
    }
  }

  lemma PartialBacked(p: Params, s: Net, g: Crypto, agg: Aggregator, recovered: Option<Bytes>)
    requires g.scheme == p.scheme && agg.partials != [] && Backed(p, s, agg)
    ensures CacheBacked(p, s, CacheAfter(g, agg, recovered))
  {
    var pk := agg.partials[0];
    AppendBacked(p, s, agg.cache, pk);
    FlushBacked(p, s, CacheWith(g, agg.cache, pk), pk.round);
  }

  /** Main step: an aggregated beacon is producible, because the partials it was recovered from were
      contributed by as many distinct shares. */
  lemma AggregatedProducible(p: Params, s: Net, g: Crypto, agg: Aggregator, recovered: Option<Bytes>)
    requires g.scheme == p.scheme && g.threshold == p.threshold && agg.partials != [] && Backed(p, s, agg)
    requires Aggregated(g, agg, recovered).Some?
    ensures Producible(p, s, Aggregated(g, agg, recovered).value)
  {
    var pk := agg.partials[0];
    var b := Aggregated(g, agg, recovered).value;
    var cache, id := CacheWith(g, agg.cache, pk), RoundId(pk.round, pk.prev);
    AppendBacked(p, s, agg.cache, pk);
    var shares := cache.rounds[id].sigs.Keys;
    assert |shares| == |cache.rounds[id].sigs|;
    forall i | i in shares ensures Contributed(p, s, i, b.round, b.prev) {
      assert Holds(cache, id, i);
    }
    assert Coalition(p, s, b, shares);
  }

  // ---- Steps ----------------------------------------------------------------------------

  lemma PartialOnTime(p: Params, s: Net, i: nat, recovered: Option<Bytes>)
    requires FixedGroup(p) && CollisionFree(p.scheme) && OnTime(p, s)
    requires i in s.nodes && s.nodes[i].agg.partials != []
    ensures NodeOnTime(p, s.now, AfterPartial(Group(p.cfg(i), s.nodes[i]), s.nodes[i], recovered))
  {
    var n := s.nodes[i];
    assert NodeOnTime(p, s.now, n) && Backed(p, s, n.agg);
    assert InGroup(p, i, n.epoch);
    var g := Group(p.cfg(i), n);
    var b := Aggregated(g, n.agg, recovered);
    if Appends(n, b) {
      AggregatedProducible(p, s, g, n.agg, recovered);
      ProducibleIsDue(p, s, b.value);
      WriteOnTime(p, s.now, n, b.value);
    }
  }

  lemma TickOnTime(p: Params, now: int, n: Node, upon: Beacon)
    requires ValidSchedule(p.period, p.genesis) && now < p.genesis + MAX_ELAPSED && NodeOnTime(p, now, n)
    requires n.loop.tick.Some? && Punctual(p, now, n.loop.tick.value, upon)
    ensures NodeOnTime(p, now, AfterTick(n, upon))
  {
    var n' := AfterTick(n, upon);
    PunctualSignsDue(p, now, n.loop.tick.value, upon);
    forall s | s in n'.loop.signers ensures SignsDue(p, now, s) {
      assert s in n.loop.signers || s == Signer(n'.loop.current, upon);
    }
  }

  lemma PunctualSignsDue(p: Params, now: int, tick: Round, upon: Beacon)
    requires ValidSchedule(p.period, p.genesis) && InRange(now, p.genesis)
    requires 1 <= tick && Due(p, now, tick) && Punctual(p, now, tick, upon)
    ensures SignsDue(p, now, Signer(tick, upon))
  {
    if tick != upon.round {
      RoundClock(now, p.period, p.genesis, upon.round + 1);
    }
  }

  /** The ticker sends the current round, which is due. */
  lemma TickerOnTime(p: Params, now: int, n: Node)
    requires ValidSchedule(p.period, p.genesis) && InRange(now, p.genesis) && NodeOnTime(p, now, n)
    ensures var c := CurrentRound(now, p.period, p.genesis); 1 <= c && Due(p, now, c)
  {
    CurrentRoundBrackets(now, p.period, p.genesis);
  }

  lemma CatchupOnTime(p: Params, now: int, n: Node)
    requires ValidSchedule(p.period, p.genesis) && NodeOnTime(p, now, n) && n.loop.catchup.Some?
    ensures NodeOnTime(p, now, AfterAppended(n))
  {
    var n' := AfterAppended(n);
    forall s | s in n'.loop.signers ensures SignsDue(p, now, s) {
      if s !in n.loop.signers {
        assert s == Signer(n.loop.current, n.loop.catchup.value);
        CatchupSignsDue(p, now, s);
      }
    }
  }

  lemma OtherStepOnTime(p: Params, now: int, cfg: Config, n: Node, a: Action)
    requires 1 <= cfg.period && NodeOnTime(p, now, n) && Enabled(cfg, now, n, a)
    requires !a.SyncBeacon? && !a.TakePartial? && !a.Tick? && !a.HandleTick? && !a.TakeCatchup?
    ensures NodeOnTime(p, now, Next(cfg, now, n, a))
  {
    QuietStore(cfg, now, n, a);
  }

  lemma NodeStepOnTime(p: Params, s: Net, i: nat, a: Action)
    requires OneChain(p) && FixedGroup(p) && CollisionFree(p.scheme)
    requires OnTime(p, s) && Timely(p, s, NodeStep(i, a))
    requires i in s.nodes && Enabled(p.cfg(i), s.now, s.nodes[i], a)
    ensures NodeOnTime(p, s.now, Next(p.cfg(i), s.now, s.nodes[i], a))
  {
    var n := s.nodes[i];
    assert NodeOnTime(p, s.now, n);
    if a.SyncBeacon? {
      ProducibleIsDue(p, s, a.b);
      WriteOnTime(p, s.now, n, a.b);
    } else if a.TakePartial? {
      PartialOnTime(p, s, i, a.recovered);
    } else if a.HandleTick? {
      TickOnTime(p, s.now, n, a.upon);
    } else if a.Tick? {
      TickerOnTime(p, s.now, n);
    } else if a.TakeCatchup? {
      CatchupOnTime(p, s.now, n);
    } else {
      OtherStepOnTime(p, s.now, p.cfg(i), n, a);
    }
  }

  /** What is broadcast is due, and signed in the node's own name. */
  lemma BroadcastDue(p: Params, s: Net, i: nat, a: Action)
    requires OneChain(p) && Follows(p, i) && FixedGroup(p) && OnTime(p, s)
    requires i in s.nodes && Enabled(p.cfg(i), s.now, s.nodes[i], a)
    ensures forall q :: Broadcast(s.nodes[i], a) == Some(q) ==>
              1 <= q.round && Due(p, s.now, q.round) && p.scheme.indexOf(q.partial) == i
  {
    var n := s.nodes[i];
    assert NodeOnTime(p, s.now, n) && InGroup(p, i, n.epoch);
    if a.Sign? {
      assert SignsDue(p, s.now, a.signer);
    }
  }

  /** The aggregator after a step, in the light of what has been signed by then. */
  lemma StepBacked(p: Params, s: Net, i: nat, a: Action, s': Net)
    requires OneChain(p) && FixedGroup(p) && OnTime(p, s) && Timely(p, s, NodeStep(i, a))
    requires i in s.nodes && Enabled(p.cfg(i), s.now, s.nodes[i], a)
    requires s'.signed == s.signed + Signings(i, Broadcast(s.nodes[i], a))
    ensures Backed(p, s', Next(p.cfg(i), s.now, s.nodes[i], a).agg)
  {
    var n := s.nodes[i];
    assert Backed(p, s, n.agg) && InGroup(p, i, n.epoch);
    BackedLater(p, s, s', n.agg);
    if a.TakePartial? {
      PartialBacked(p, s', Group(p.cfg(i), n), n.agg, a.recovered);
    } else if a.TakeNotice? {
      FlushBacked(p, s', n.agg.cache, n.agg.notices[0].round);
    } else if a.Receive? {
      ContributedLater(p, s, s', p.scheme.indexOf(a.p.partial), a.p.round, a.p.prev);
    } else if a.Sign? {
      OwnBacked(p, s, i, a, s');
    }
  }

  lemma OwnBacked(p: Params, s: Net, i: nat, a: Action, s': Net)
    requires OneChain(p) && Follows(p, i) && FixedGroup(p)
    requires a.Sign? && i in s.nodes && Enabled(p.cfg(i), s.now, s.nodes[i], a)
    requires s'.signed == s.signed + Signings(i, Broadcast(s.nodes[i], a))
    ensures PacketBacked(p, s', OwnPacket(a.signer.current, a.signer.upon, a.partial))
  {
    assert InGroup(p, i, s.nodes[i].epoch);
    var q := OwnPacket(a.signer.current, a.signer.upon, a.partial);
    assert Signing(i, q.round, q.prev) in s'.signed;
  }

  lemma AdvanceOnTime(p: Params, s: Net, later: int)
    requires OnTime(p, s) && s.now <= later < p.genesis + MAX_ELAPSED
    ensures OnTime(p, s.(now := later))
  {
    var s' := s.(now := later);
    forall i | i in s.nodes ensures NodeOnTime(p, later, s.nodes[i]) && Backed(p, s', s.nodes[i].agg) {
      assert NodeOnTime(p, s.now, s.nodes[i]) && Backed(p, s, s.nodes[i].agg);
      BackedLater(p, s, s', s.nodes[i].agg);
    }
  }

  lemma StepOnTime(p: Params, s: Net, t: Step, s': Net)
    requires OneChain(p) && FixedGroup(p) && CollisionFree(p.scheme)
    requires OnTime(p, s) && Timely(p, s, t) && IsStep(p, s, t, s')
    ensures OnTime(p, s')
  {
    if t.NodeStep? {
      NodeStepOnTime(p, s, t.i, t.a);
      BroadcastDue(p, s, t.i, t.a);
      forall j | j in s'.nodes ensures NodeOnTime(p, s'.now, s'.nodes[j]) && Backed(p, s', s'.nodes[j].agg) {
        if j == t.i {
          StepBacked(p, s, j, t.a, s');
        } else {
          assert NodeOnTime(p, s.now, s.nodes[j]) && Backed(p, s, s.nodes[j].agg);
          BackedLater(p, s, s', s.nodes[j].agg);
        }
      }
    } else {
      AdvanceOnTime(p, s, t.later);
    }
  }

  /** A start at any time whose databases hold nothing of the future. */
  ghost predicate StartedOnTime(p: Params, s: Net) {
    && s.now < p.genesis + MAX_ELAPSED
    && forall i :: i in s.nodes ==> NothingEarly(p, s.now, s.nodes[i].store.db)
  }

  lemma StartIsOnTime(p: Params, s: Net)
    requires Initial(p, s) && StartedOnTime(p, s)
    ensures OnTime(p, s)
  {
    forall i | i in s.nodes ensures NodeOnTime(p, s.now, s.nodes[i]) && Backed(p, s, s.nodes[i].agg) {
      assert NodeRuns.Started(p.cfg(i), s.nodes[i]);
    }
  }

  lemma {:induction false} OnTimeThroughout(p: Params, states: seq<Net>, steps: seq<Step>, k: nat)
    requires FixedGroup(p) && CollisionFree(p.scheme)
    requires IsRun(p, states, steps) && OnTime(p, states[0])
    requires forall m :: 0 <= m < |steps| ==> Timely(p, states[m], steps[m])
    requires k < |states|
    ensures OnTime(p, states[k])
    decreases k
  {
    if k > 0 {
      OnTimeThroughout(p, states, steps, k - 1);
      assert Timely(p, states[k - 1], steps[k - 1]);
      assert StepAt(p, states, steps, k - 1);
      StepOnTime(p, states[k - 1], steps[k - 1], states[k]);
    }
  }

  /** Main result: with one fixed group, fewer than a threshold of faulty shares and punctual ticks,
      in every run, catch-up included, no honest node stores a beacon or signs
      a partial of round r before the time of round r. */
  lemma TimingTheorem(p: Params, states: seq<Net>, steps: seq<Step>, k: nat)
    requires FixedGroup(p) && CollisionFree(p.scheme)
    requires IsRun(p, states, steps) && Initial(p, states[0]) && StartedOnTime(p, states[0])
    requires forall m :: 0 <= m < |steps| ==> Timely(p, states[m], steps[m])
    requires k < |states|
    ensures forall i :: i in states[k].nodes ==> NothingEarly(p, states[k].now, states[k].nodes[i].store.db)
    ensures forall g :: g in states[k].signed ==> TimeOfRound(p.period, p.genesis, g.round) <= states[k].now
  {
    StartIsOnTime(p, states[0]);
    OnTimeThroughout(p, states, steps, k);
    forall i | i in states[k].nodes ensures NothingEarly(p, states[k].now, states[k].nodes[i].store.db) {
      assert NodeOnTime(p, states[k].now, states[k].nodes[i]);
    }
  }
}
