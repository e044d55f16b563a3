/** One drand node as a step system: the store stack, the aggregator loop, the sync goroutine,
    the callback workers, the tick loop and the catch-up goroutines of chain/beacon.

    Each action is one indivisible piece of one goroutine; a run interleaves them freely.
    Channels are unbounded here, and callback workers take jobs in any order, so the runs of
    the program are among the runs of this system. */
module Node {
  import opened Bytes
  import opened Collections
  import opened Chain
  import opened RoundTime
  import opened PartialCache
  import opened Stores

  const PARTIAL_CACHE_STORE_LIMIT: nat := 3

  /** A group as the `cryptoStore` holds it: its public polynomial, threshold and our share. */
  datatype Crypto = Crypto(scheme: Scheme, threshold: nat, index: nat)

  /** The chain information, which never changes, and the successive groups, by epoch. */
  datatype Config = Config(seed: Bytes, scheme: Scheme, period: int, genesis: int, crypto: nat -> Crypto)

  datatype Callback =
    | ToAggregator
    | ToTransition(target: Round, epoch: nat)
    | ToStream(peer: nat)

  datatype Job = Job(cb: Callback, b: Beacon)

  /** Where a goroutine is inside `callbackStore.Put`: the beacon is in the database and the
      callback lock is awaited, or the lock is held and some callbacks are still to be queued. */
  datatype Putter = Idle | Awaiting(b: Beacon) | Pushing(b: Beacon, todo: set<string>)

  datatype Store = Store(
    db: Ledger, last: Beacon, callbacks: map<string, Callback>, jobs: multiset<Job>, leaving: set<string>)

  datatype Aggregator = Aggregator(
    lastBeacon: Beacon, cache: Cache, partials: seq<Packet>, notices: seq<Beacon>, put: Putter)

  /** A goroutine about to sign: the tick loop once it has read the last beacon, or a catch-up. */
  datatype Signer = Signer(current: Round, upon: Beacon)

  datatype Loop = Loop(
    tick: Option<Round>, current: Round, catchup: Option<Beacon>, signers: multiset<Signer>)

  datatype Node = Node(store: Store, agg: Aggregator, loop: Loop, sync: Putter, epoch: nat)

  datatype Who = Aggregation | Syncing

  datatype Action =
    | Receive(p: Packet)                        // ProcessPartialBeacon
    | TakePartial(recovered: Option<Bytes>)     // runAggregator, a partial, with Recover's answer
    | TakeNotice                                // runAggregator, a stored beacon
    | SyncBeacon(b: Beacon)                     // tryNode, one packet of the stream
    | Lock(who: Who)                            // callbackStore.Put, after the database
    | Push(who: Who, id: string)
    | Unlock(who: Who)
    | RunJob(job: Job)                          // runWorker
    | Leave(id: string)                         // RemoveCallback from the transition callback
    | Register(id: string, cb: Callback)
    | Unregister(id: string)
    | Tick                                      // the ticker
    | HandleTick(upon: Beacon)                  // run, a tick, up to reading the last beacon
    | TakeCatchup                               // run, an appended beacon
    | Sign(signer: Signer, partial: Bytes)      // broadcastNextPartial, of the loop or of a catch-up

  function Group(cfg: Config, n: Node): Crypto {
    cfg.crypto(n.epoch)
  }

  function PutterOf(n: Node, who: Who): Putter {
    if who.Aggregation? then n.agg.put else n.sync
  }

  predicate LockFree(n: Node) {
    !n.agg.put.Pushing? && !n.sync.Pushing?
  }

  // ---- The aggregator -------------------------------------------------------------------

  predicate ShouldStore(lastBeacon: Beacon, round: Round) {
    lastBeacon.round < round <= (lastBeacon.round + PARTIAL_CACHE_STORE_LIMIT + 1) % TWO64
  }

  function CacheWith(g: Crypto, cache: Cache, p: Packet): Cache {
    Append(cache, p, g.scheme.indexOf(p.partial))
  }

  /** The beacon the aggregator makes of the head partial, if it gets as far as `tryAppend`. */
  function Aggregated(g: Crypto, agg: Aggregator, recovered: Option<Bytes>): Option<Beacon>
    requires agg.partials != []
  {
    var p := agg.partials[0];
    var cache := CacheWith(g, agg.cache, p);
    var id := RoundId(p.round, p.prev);
    if !ShouldStore(agg.lastBeacon, p.round) || id !in cache.rounds then None
    else
      var rc := cache.rounds[id];
      if |rc.sigs| < g.threshold || recovered.None?
         || !g.scheme.valid(Message(g.scheme, rc.round, rc.prev), recovered.value)
      then None
      else Some(Beacon(rc.prev, rc.round, recovered.value))
  }

  function CacheAfter(g: Crypto, agg: Aggregator, recovered: Option<Bytes>): Cache
    requires agg.partials != []
  {
    var p := agg.partials[0];
    if !ShouldStore(agg.lastBeacon, p.round) then agg.cache
    else if Aggregated(g, agg, recovered).Some? then Flush(CacheWith(g, agg.cache, p), p.round)
    else CacheWith(g, agg.cache, p)
  }

  /** `tryAppend` up to and including the database write. */
  predicate Appends(n: Node, b: Option<Beacon>) {
    b.Some? && Succ(n.agg.lastBeacon.round) == b.value.round && Accepts(n.store.last, b.value)
  }

  function Append1(s: Store, b: Beacon): Store {
    s.(db := s.db[b.round := b], last := b)
  }

  // ---- The tick loop --------------------------------------------------------------------

  /** What `broadcastNextPartial` signs: the round and the previous signature. */
  function ToSign(current: Round, upon: Beacon): (Round, Bytes) {
    if current == upon.round then (current, upon.prev) else (Succ(upon.round), upon.sig)
  }

  function OwnPacket(current: Round, upon: Beacon, partial: Bytes): Packet {
    Packet(ToSign(current, upon).0, ToSign(current, upon).1, partial)
  }

  /** The packet an action signs and broadcasts, if any. */
  function Broadcast(n: Node, a: Action): Option<Packet> {
    match a
    case Sign(s, partial) => Some(OwnPacket(s.current, s.upon, partial))
    case _ => None
  }

  /** A share signs correctly: its partial verifies and carries its own index. */
  predicate ProperPartial(g: Crypto, p: Packet) {
    && g.scheme.partialValid(Message(g.scheme, p.round, p.prev), p.partial)
    && g.scheme.indexOf(p.partial) == g.index
  }

  // ---- Steps ----------------------------------------------------------------------------

  ghost predicate Enabled(cfg: Config, now: int, n: Node, a: Action)
    requires 1 <= cfg.period
  {
    var g := Group(cfg, n);
    match a
    case Receive(p) =>
      && p.round <= NextRound(now, cfg.period, cfg.genesis).0
      && g.scheme.partialValid(Message(g.scheme, p.round, p.prev), p.partial)
      && g.scheme.indexOf(p.partial) != g.index
    case TakePartial(_) => n.agg.partials != [] && n.agg.put.Idle?
    case TakeNotice => n.agg.notices != [] && n.agg.put.Idle?
    case SyncBeacon(b) => n.sync.Idle? && VerifyBeacon(cfg.scheme, b) && Accepts(n.store.last, b)
    case Lock(who) => PutterOf(n, who).Awaiting? && LockFree(n)
    case Push(who, id) => PutterOf(n, who).Pushing? && id in PutterOf(n, who).todo && id in n.store.callbacks
    case Unlock(who) => PutterOf(n, who).Pushing? && PutterOf(n, who).todo == {}
    case RunJob(job) => job in n.store.jobs
    case Leave(id) => id in n.store.leaving && LockFree(n)
    case Register(_, _) => LockFree(n)
    case Unregister(_) => LockFree(n)
    case Tick => now >= cfg.genesis
    case HandleTick(upon) => n.loop.tick.Some? && IsLast(n.store.db, upon)
    case TakeCatchup => n.loop.catchup.Some?
    case Sign(s, partial) =>
      s in n.loop.signers && ProperPartial(g, OwnPacket(s.current, s.upon, partial))
  }

  function WithPutter(n: Node, who: Who, p: Putter): Node {
    if who.Aggregation? then n.(agg := n.agg.(put := p)) else n.(sync := p)
  }

  function AfterReceive(n: Node, p: Packet): Node {
    n.(agg := n.agg.(partials := n.agg.partials + [p]))
  }

  function AfterPartial(g: Crypto, n: Node, recovered: Option<Bytes>): Node
    requires n.agg.partials != []
  {
    var b := Aggregated(g, n.agg, recovered);
    var agg := n.agg.(partials := n.agg.partials[1..], cache := CacheAfter(g, n.agg, recovered));
    if Appends(n, b)
    then n.(store := Append1(n.store, b.value), agg := agg.(put := Awaiting(b.value)))
    else n.(agg := agg)
  }

  function AfterNotice(n: Node): Node
    requires n.agg.notices != []
  {
    var b := n.agg.notices[0];
    n.(agg := n.agg.(notices := n.agg.notices[1..], lastBeacon := b, cache := Flush(n.agg.cache, b.round)))
  }

  function AfterPush(n: Node, who: Who, id: string): Node
    requires PutterOf(n, who).Pushing? && id in n.store.callbacks
  {
    var p := PutterOf(n, who);
    WithPutter(n, who, p.(todo := p.todo - {id}))
    .(store := n.store.(jobs := n.store.jobs + multiset{Job(n.store.callbacks[id], p.b)}))
  }

  function AfterUnlock(n: Node, who: Who): Node
    requires PutterOf(n, who).Pushing?
  {
    var b := PutterOf(n, who).b;
    if who.Syncing? then n.(sync := Idle)
    else n.(agg := n.agg.(put := Idle, lastBeacon := b),
            loop := n.loop.(catchup := if n.loop.catchup.None? then Some(b) else n.loop.catchup))
  }

  function AfterJob(n: Node, job: Job): Node {
    var s := n.store.(jobs := n.store.jobs - multiset{job});
    match job.cb
    case ToAggregator => n.(store := s, agg := n.agg.(notices := n.agg.notices + [job.b]))
    case ToTransition(target, epoch) =>
      if job.b.round < target then n.(store := s)
      else n.(store := s.(leaving := s.leaving + {"transition"}), epoch := epoch)
    case ToStream(_) => n.(store := s)
  }

  function AfterRegister(n: Node, id: string, cb: Callback): Node {
    n.(store := n.store.(callbacks := n.store.callbacks[id := cb]))
  }

  function AfterTick(n: Node, upon: Beacon): Node
    requires n.loop.tick.Some?
  {
    var current := n.loop.tick.value;
    n.(loop := n.loop.(tick := None, current := current, signers := n.loop.signers + multiset{Signer(current, upon)}))
  }

  function AfterAppended(n: Node): Node
    requires n.loop.catchup.Some?
  {
    var b := n.loop.catchup.value;
    n.(loop := n.loop.(catchup := None,
                       signers := n.loop.signers + if b.round < n.loop.current
                                                     then multiset{Signer(n.loop.current, b)}
                                                     else multiset{}))
  }

  function AfterSign(n: Node, s: Signer, partial: Bytes): Node {
    n.(loop := n.loop.(signers := n.loop.signers - multiset{s}),
       agg := n.agg.(partials := n.agg.partials + [OwnPacket(s.current, s.upon, partial)]))
  }

  function Next(cfg: Config, now: int, n: Node, a: Action): Node
    requires 1 <= cfg.period && Enabled(cfg, now, n, a)
  {
    match a
    case Receive(p) => AfterReceive(n, p)
    case TakePartial(recovered) => AfterPartial(Group(cfg, n), n, recovered)
    case TakeNotice => AfterNotice(n)
    case SyncBeacon(b) => n.(store := Append1(n.store, b), sync := Awaiting(b))
    case Lock(who) =>
      var b := PutterOf(n, who).b;
      WithPutter(n, who, Pushing(b, if b.round == 0 then {} else n.store.callbacks.Keys))
    case Push(who, id) => AfterPush(n, who, id)
    case Unlock(who) => AfterUnlock(n, who)
    case RunJob(job) => AfterJob(n, job)
    case Leave(id) =>
      n.(store := n.store.(callbacks := n.store.callbacks - {id}, leaving := n.store.leaving - {id}))
    case Register(id, cb) => AfterRegister(n, id, cb)
    case Unregister(id) => n.(store := n.store.(callbacks := n.store.callbacks - {id}))
    case Tick =>
      n.(loop := n.loop.(tick := if n.loop.tick.None? then Some(CurrentRound(now, cfg.period, cfg.genesis))
                                 else n.loop.tick))
    case HandleTick(upon) => AfterTick(n, upon)
    case TakeCatchup => AfterAppended(n)
    case Sign(s, partial) => AfterSign(n, s, partial)
  }

  // ---- The chain invariant --------------------------------------------------------------

  predicate Stored(db: Ledger, b: Beacon) {
    b.round in db && db[b.round] == b
  }

  predicate PutterHolds(p: Putter, b: Beacon) {
    !p.Idle? && p.b == b
  }

  ghost predicate Queued(s: Store, b: Beacon) {
    exists cb :: Job(cb, b) in s.jobs
  }

  predicate AggregatorHolds(agg: Aggregator, b: Beacon) {
    b == agg.lastBeacon || b in agg.notices || PutterHolds(agg.put, b)
  }

  ghost predicate LoopHolds(l: Loop, b: Beacon) {
    l.catchup == Some(b) || exists c :: Signer(c, b) in l.signers
  }

  /** `b` is held by some goroutine, queue or channel of the node. */
  ghost predicate InFlight(n: Node, b: Beacon) {
    Queued(n.store, b) || AggregatorHolds(n.agg, b) || LoopHolds(n.loop, b) || PutterHolds(n.sync, b)
  }

  /** The database is a chain of verified beacons, and every beacon on the move is in it. */
  ghost predicate ChainInv(cfg: Config, n: Node) {
    && IsChain(n.store.db, n.store.last, cfg.seed)
    && Verified(cfg.scheme, n.store.db)
    && forall b :: InFlight(n, b) ==> Stored(n.store.db, b)
  }

  /** Rounds at the very top of `uint64` are out of scope. */
  predicate BelowTop(n: Node) {
    n.store.last.round <= MAX_ROUND - PARTIAL_CACHE_STORE_LIMIT - 1
  }

  /** Resharing keeps the public key: all groups verify full signatures alike. */
  ghost predicate SameKey(cfg: Config) {
    forall e: nat ::
      && (forall m: Bytes, s: Bytes :: cfg.crypto(e).scheme.valid(m, s) == cfg.scheme.valid(m, s))
      && (forall m: Bytes :: cfg.crypto(e).scheme.digest(m) == cfg.scheme.digest(m))
  }

  // ---- When a beacon is recovered -------------------------------------------------------

  /** The head partial is one to four rounds ahead, can be cached, and completes a threshold of signers of
      its round and previous signature, whose recovered signature verifies. */
  ghost predicate Completes(g: Crypto, agg: Aggregator, recovered: Option<Bytes>)
    requires agg.partials != []
  {
    var p := agg.partials[0];
    var idx := g.scheme.indexOf(p.partial);
    && agg.lastBeacon.round + 1 <= p.round <= agg.lastBeacon.round + 4
    && !Missed(agg.cache, p, idx)
    && |SignersWith(agg.cache, p, idx)| >= g.threshold
    && recovered.Some? && g.scheme.valid(Message(g.scheme, p.round, p.prev), recovered.value)
  }

  lemma AggregatedFrom(g: Crypto, agg: Aggregator, recovered: Option<Bytes>)
    requires agg.partials != [] && agg.lastBeacon.round <= MAX_ROUND - 4
    requires Gathers(agg.cache, agg.partials[0], g.scheme.indexOf(agg.partials[0].partial))
    ensures Aggregated(g, agg, recovered)
         == if Completes(g, agg, recovered)
            then Some(Beacon(agg.partials[0].prev, agg.partials[0].round, recovered.value)) else None
  {
    assert ShouldStore(agg.lastBeacon, agg.partials[0].round)
      <==> agg.lastBeacon.round + 1 <= agg.partials[0].round <= agg.lastBeacon.round + 4;
  }

  /** Main result: a beacon is handed on exactly if the head partial completes a threshold; with one signer
      fewer none is. It is that of the partial's own round and previous signature. */
  lemma AggregatedIff(g: Crypto, agg: Aggregator, recovered: Option<Bytes>)
    requires agg.partials != [] && WellFormed(agg.cache, g.scheme.indexOf)
    requires agg.lastBeacon.round <= MAX_ROUND - 4
    ensures Aggregated(g, agg, recovered)
         == if Completes(g, agg, recovered)
            then Some(Beacon(agg.partials[0].prev, agg.partials[0].round, recovered.value)) else None
  {
    AppendSigners(agg.cache, agg.partials[0], g.scheme.indexOf);
    AggregatedFrom(g, agg, recovered);
  }

  /** Main result: what taking a partial does to the database, in terms of the partial alone. It binds
      exactly the completed beacon if that is the next linked one, and nothing otherwise. */
  lemma PartialStores(cfg: Config, now: int, n: Node, recovered: Option<Bytes>)
    requires 1 <= cfg.period && Enabled(cfg, now, n, TakePartial(recovered))
    requires WellFormed(n.agg.cache, Group(cfg, n).scheme.indexOf) && BelowTop(n)
    requires n.agg.lastBeacon.round <= n.store.last.round
    ensures var p := n.agg.partials[0];
            var db := Next(cfg, now, n, TakePartial(recovered)).store.db;
            if && Completes(Group(cfg, n), n.agg, recovered)
               && p.round == n.agg.lastBeacon.round + 1 == n.store.last.round + 1 && p.prev == n.store.last.sig
            then db == n.store.db[p.round := Beacon(p.prev, p.round, recovered.value)]
            else db == n.store.db
  {
    AggregatedIff(Group(cfg, n), n.agg, recovered);
  }

  lemma AggregatedVerifies(cfg: Config, n: Node, recovered: Option<Bytes>)
    requires SameKey(cfg) && n.agg.partials != []
    requires Aggregated(Group(cfg, n), n.agg, recovered).Some?
    ensures VerifyBeacon(cfg.scheme, Aggregated(Group(cfg, n), n.agg, recovered).value)
  {
    var g := Group(cfg, n);
    var b := Aggregated(g, n.agg, recovered).value;
    assert g.scheme.digest(b.prev + RoundToBytes(b.round)) == cfg.scheme.digest(b.prev + RoundToBytes(b.round));
    assert g.scheme.valid(Message(cfg.scheme, b.round, b.prev), b.sig);
  }

  /** Both writers extend the database in the same way. */
  lemma WriteKeepsChain(cfg: Config, n: Node, b: Beacon)
    requires ChainInv(cfg, n) && BelowTop(n)
    requires Accepts(n.store.last, b) && VerifyBeacon(cfg.scheme, b)
    ensures var db := n.store.db[b.round := b];
            && IsChain(db, b, cfg.seed) && Verified(cfg.scheme, db) && Extends(n.store.db, db)
            && (forall x :: Stored(n.store.db, x) ==> Stored(db, x)) && Stored(db, b)
  {
    AppendKeepsChain(n.store.db, n.store.last, cfg.seed, b);
  }

  /** Nobody is about to sign upon a beacon that was not held or stored before. */
  lemma SignersStep(n: Node, l: Loop, b: Beacon)
    requires LoopHolds(l, b)
    requires l.catchup == None || l.catchup == n.loop.catchup
    requires forall s :: s in l.signers ==>
               s in n.loop.signers || n.loop.catchup == Some(s.upon) || Stored(n.store.db, s.upon)
    ensures LoopHolds(n.loop, b) || Stored(n.store.db, b)
  {
    if l.catchup != Some(b) {
      var c :| Signer(c, b) in l.signers;
    }
  }

  lemma LoopStep(cfg: Config, now: int, n: Node, a: Action, b: Beacon)
    requires 1 <= cfg.period && Enabled(cfg, now, n, a)
    requires a.Tick? || a.HandleTick? || a.TakeCatchup? || a.Sign? || a.Receive?
    requires InFlight(Next(cfg, now, n, a), b)
    ensures InFlight(n, b) || Stored(n.store.db, b)
  {
    var n' := Next(cfg, now, n, a);
    if LoopHolds(n'.loop, b) {
      SignersStep(n, n'.loop, b);
    }
  }

  lemma PutterStep(cfg: Config, now: int, n: Node, a: Action, b: Beacon)
    requires 1 <= cfg.period && Enabled(cfg, now, n, a)
    requires a.Lock? || a.Push? || a.Unlock? || a.TakeNotice?
    requires InFlight(Next(cfg, now, n, a), b)
    ensures InFlight(n, b)
  {
    var n' := Next(cfg, now, n, a);
    if Queued(n'.store, b) {
      var cb :| Job(cb, b) in n'.store.jobs;
      assert PutterHolds(PutterOf(n, if a.Push? then a.who else Syncing), b) || Job(cb, b) in n.store.jobs;
    }
  }

  lemma CallbackStep(cfg: Config, now: int, n: Node, a: Action, b: Beacon)
    requires 1 <= cfg.period && Enabled(cfg, now, n, a)
    requires a.RunJob? || a.Leave? || a.Register? || a.Unregister?
    requires InFlight(Next(cfg, now, n, a), b)
    ensures InFlight(n, b)
  {
    var n' := Next(cfg, now, n, a);
    if Queued(n'.store, b) {
      var cb :| Job(cb, b) in n'.store.jobs;
      assert Job(cb, b) in n.store.jobs;
    }
    if a.RunJob? && b == a.job.b {
      assert Job(a.job.cb, b) in n.store.jobs;
    }
  }

  /** An action other than a write leaves the database alone. */
  lemma QuietStore(cfg: Config, now: int, n: Node, a: Action)
    requires 1 <= cfg.period && Enabled(cfg, now, n, a)
    requires !a.SyncBeacon? && !a.TakePartial?
    ensures Next(cfg, now, n, a).store.db == n.store.db && Next(cfg, now, n, a).store.last == n.store.last
  {
  }

  lemma QuietFlight(cfg: Config, now: int, n: Node, a: Action, b: Beacon)
    requires 1 <= cfg.period && Enabled(cfg, now, n, a)
    requires !a.SyncBeacon? && !a.TakePartial?
    requires InFlight(Next(cfg, now, n, a), b)
    ensures InFlight(n, b) || Stored(n.store.db, b)
  {
    if a.RunJob? || a.Leave? || a.Register? || a.Unregister? {
      CallbackStep(cfg, now, n, a, b);
    } else if a.Lock? || a.Push? || a.Unlock? || a.TakeNotice? {
      PutterStep(cfg, now, n, a, b);
    } else {
      LoopStep(cfg, now, n, a, b);
    }
  }

  /** It sets in flight only beacons that already were, or that are stored. */
  lemma QuietStep(cfg: Config, now: int, n: Node, a: Action)
    requires 1 <= cfg.period && Enabled(cfg, now, n, a)
    requires !a.SyncBeacon? && !a.TakePartial?
    ensures var n' := Next(cfg, now, n, a);
            && n'.store.db == n.store.db && n'.store.last == n.store.last
            && (forall b :: InFlight(n', b) ==> InFlight(n, b) || Stored(n.store.db, b))
  {
    QuietStore(cfg, now, n, a);
    var n' := Next(cfg, now, n, a);
    forall b | InFlight(n', b) ensures InFlight(n, b) || Stored(n.store.db, b) {
      QuietFlight(cfg, now, n, a, b);
    }
  }

  /** Every action keeps the chain, overwrites nothing, and leaves `lastBeacon` a stored beacon. */
  lemma StepKeepsChain(cfg: Config, now: int, n: Node, a: Action)
    requires 1 <= cfg.period && SameKey(cfg)
    requires ChainInv(cfg, n) && BelowTop(n) && Enabled(cfg, now, n, a)
    ensures var n' := Next(cfg, now, n, a);
            ChainInv(cfg, n') && Extends(n.store.db, n'.store.db)
  {
    var n' := Next(cfg, now, n, a);
    if a.SyncBeacon? {
      WriteKeepsChain(cfg, n, a.b);
      WriteInFlight(cfg, now, n, a, a.b);
    } else if a.TakePartial? {
      var b := Aggregated(Group(cfg, n), n.agg, a.recovered);
      if Appends(n, b) {
        AggregatedVerifies(cfg, n, a.recovered);
        WriteKeepsChain(cfg, n, b.value);
        WriteInFlight(cfg, now, n, a, b.value);
      } else {
        forall x | InFlight(n', x) ensures InFlight(n, x) {}
      }
    } else {
      QuietStep(cfg, now, n, a);
    }
  }

  lemma WriteInFlight(cfg: Config, now: int, n: Node, a: Action, b: Beacon)
    requires 1 <= cfg.period && Enabled(cfg, now, n, a)
    requires a == SyncBeacon(b) ||
             (a.TakePartial? && var b' := Aggregated(Group(cfg, n), n.agg, a.recovered);
                                Appends(n, b') && b'.value == b)
    ensures forall x :: InFlight(Next(cfg, now, n, a), x) ==> InFlight(n, x) || x == b
  {
  }
}
