/** The aggregator's cache of partial signatures (chain/beacon/cache.go). */
module PartialCache {
  import opened Bytes
  import opened Collections
  import opened Chain

  const MAX_PARTIALS_PER_NODE: nat := 100

  datatype Packet = Packet(round: Round, prev: Bytes, partial: Bytes)

  datatype RoundCache = RoundCache(round: Round, prev: Bytes, id: Bytes, sigs: map<nat, Bytes>)

  /** The cached rounds by identifier, and per signer the identifiers it was counted for. */
  datatype Cache = Cache(rounds: map<Bytes, RoundCache>, rcvd: map<nat, seq<Bytes>>)

  const EMPTY: Cache := Cache(map[], map[])

  function RoundId(round: Round, prev: Bytes): Bytes {
    RoundToBytes(round) + prev
  }

  lemma RoundIdInjective(r: Round, p: Bytes, r': Round, p': Bytes)
    requires RoundId(r, p) == RoundId(r', p')
    ensures r == r' && p == p'
  {
    PrefixSplit(RoundToBytes(r), p, RoundToBytes(r'), p');
    RoundToBytesInjective(r, r');
  }

  /** A nil slice reads as the empty list. */
  function Listed(c: Cache, idx: nat): seq<Bytes> {
    if idx in c.rcvd then c.rcvd[idx] else []
  }

  // ---- Append ---------------------------------------------------------------------------

  /** The signer's list is full and the packet opens a round that is not cached yet. */
  predicate ListFull(c: Cache, id: Bytes, idx: nat) {
    id !in c.rounds && |Listed(c, idx)| >= MAX_PARTIALS_PER_NODE
  }

  /** The branch of `getCache` that takes the signer's oldest entry off. */
  function Evict(c: Cache, id: Bytes, idx: nat): Cache
    requires ListFull(c, id, idx) && Listed(c, idx)[0] in c.rounds
  {
    var oldest := Listed(c, idx)[0];
    var kept := c.rounds[oldest].(sigs := c.rounds[oldest].sigs - {idx});
    Cache(if kept.sigs == map[] then c.rounds - {oldest} else c.rounds[oldest := kept],
          c.rcvd[idx := Listed(c, idx)[1..] + [id]])
  }

  /** `getCache`: none when the entry to evict is not cached any more. */
  function Opened(c: Cache, p: Packet, idx: nat): Option<Cache> {
    var id := RoundId(p.round, p.prev);
    if id in c.rounds then Some(c)
    else if ListFull(c, id, idx) && Listed(c, idx)[0] !in c.rounds then None
    else
      var c' := if ListFull(c, id, idx) then Evict(c, id, idx) else c;
      Some(c'.(rounds := c'.rounds[id := RoundCache(p.round, p.prev, id, map[])]))
  }

  /** `roundCache.append` together with the signer's counter. */
  function Joined(c: Cache, p: Packet, idx: nat): Cache
    requires RoundId(p.round, p.prev) in c.rounds
  {
    var id := RoundId(p.round, p.prev);
    var rc := c.rounds[id];
    if idx in rc.sigs then c
    else Cache(c.rounds[id := rc.(sigs := rc.sigs[idx := p.partial])],
               c.rcvd[idx := Listed(c, idx) + [id]])
  }

  function Append(c: Cache, p: Packet, idx: nat): Cache {
    match Opened(c, p, idx)
    case None => c
    case Some(c') => Joined(c', p, idx)
  }

  // ---- FlushRounds ----------------------------------------------------------------------

  /** `s` without the elements of `gone`. */
  function Without(s: seq<Bytes>, gone: set<Bytes>): seq<Bytes> {
    if s == [] then []
    else Without(s[..|s| - 1], gone) + (if s[|s| - 1] in gone then [] else [s[|s| - 1]])
  }

  predicate Flushed(c: Cache, round: Round, id: Bytes) {
    id in c.rounds && c.rounds[id].round <= round
  }

  /** The flushed identifiers, among `ids`, of rounds that `idx` took part in. */
  function Gone(c: Cache, round: Round, idx: nat, ids: set<Bytes>): set<Bytes> {
    set id | id in ids && Flushed(c, round, id) && idx in c.rounds[id].sigs
  }

  /** The cache once the rounds named in `ids` have been visited. */
  function FlushSome(c: Cache, round: Round, ids: set<Bytes>): Cache {
    Cache(map id | id in c.rounds && !(id in ids && Flushed(c, round, id)) :: c.rounds[id],
          map idx | idx in c.rcvd && Without(c.rcvd[idx], Gone(c, round, idx, ids)) != []
            :: Without(c.rcvd[idx], Gone(c, round, idx, ids)))
  }

  function Flush(c: Cache, round: Round): Cache {
    FlushSome(c, round, c.rounds.Keys)
  }

  /** One identifier taken off the lists of the signers in `idxs`. */
  function Strike(rcvd: map<nat, seq<Bytes>>, id: Bytes, idxs: set<nat>): map<nat, seq<Bytes>> {
    map idx | idx in rcvd && !(idx in idxs && Without(rcvd[idx], {id}) == [])
      :: if idx in idxs then Without(rcvd[idx], {id}) else rcvd[idx]
  }

  lemma {:induction false} WithoutMember(s: seq<Bytes>, gone: set<Bytes>, x: Bytes)
    ensures x in Without(s, gone) <==> x in s && x !in gone
    decreases |s|
  {
    if s != [] {
      WithoutMember(s[..|s| - 1], gone, x);
      assert s == s[..|s| - 1] + [s[|s| - 1]];
    }
  }

  lemma {:induction false} WithoutTwice(s: seq<Bytes>, a: set<Bytes>, b: set<Bytes>)
    ensures Without(Without(s, a), b) == Without(s, a + b)
    decreases |s|
  {
    if s != [] {
      var n := |s| - 1;
      WithoutTwice(s[..n], a, b);
      if s[n] in a {
        assert Without(s, a) == Without(s[..n], a);
      } else {
        assert Without(s, a) == Without(s[..n], a) + [s[n]];
        assert Without(s, a)[..|Without(s, a)| - 1] == Without(s[..n], a);
      }
    }
  }

  lemma {:induction false} WithoutNone(s: seq<Bytes>, gone: set<Bytes>)
    requires forall x :: x in gone ==> x !in s
    ensures Without(s, gone) == s
    decreases |s|
  {
    if s != [] {
      WithoutNone(s[..|s| - 1], gone);
      assert s == s[..|s| - 1] + [s[|s| - 1]];
    }
  }

  lemma {:induction false} WithoutNoRepeats(s: seq<Bytes>, gone: set<Bytes>)
    requires NoRepeats(s)
    ensures NoRepeats(Without(s, gone))
    decreases |s|
  {
    if s != [] {
      WithoutNoRepeats(s[..|s| - 1], gone);
      WithoutMember(s[..|s| - 1], gone, s[|s| - 1]);
    }
  }

  // ---- Invariants -----------------------------------------------------------------------

  /** A cached round is non-empty and filed under the identifier of its own round and previous
      signature. */
  predicate Filed(rc: RoundCache, id: Bytes) {
    rc.id == id && id == RoundId(rc.round, rc.prev) && rc.sigs != map[]
  }

  /** Signer `idx` has a partial in the round `id`. */
  predicate Holds(c: Cache, id: Bytes, idx: nat) {
    id in c.rounds && idx in c.rounds[id].sigs
  }

  ghost predicate Counted(c: Cache, indexOf: Bytes -> nat) {
    forall id, idx :: Holds(c, id, idx) ==> indexOf(c.rounds[id].sigs[idx]) == idx && id in Listed(c, idx)
  }

  /** Each cached round is in order; each cached partial is filed and counted under its own
      signer; no list is empty. */
  ghost predicate WellFormed(c: Cache, indexOf: Bytes -> nat) {
    && (forall id :: id in c.rounds ==> Filed(c.rounds[id], id))
    && Counted(c, indexOf)
    && (forall idx :: idx in c.rcvd ==> c.rcvd[idx] != [])
  }

  /** The lists are duplicate-free and the exact inverse of the cached partials. */
  ghost predicate Exact(c: Cache) {
    && (forall idx :: idx in c.rcvd ==> NoRepeats(c.rcvd[idx]))
    && (forall idx, id :: id in Listed(c, idx) <==> Holds(c, id, idx))
  }

  /** Every cached partial signs the message of the round it is filed under. */
  ghost predicate AllValid(c: Cache, s: Scheme) {
    forall id, idx :: Holds(c, id, idx) ==>
      s.partialValid(Message(s, c.rounds[id].round, c.rounds[id].prev), c.rounds[id].sigs[idx])
  }

  ghost predicate ValidPacket(s: Scheme, p: Packet) {
    s.partialValid(Message(s, p.round, p.prev), p.partial)
  }

  lemma EvictCounted(c: Cache, id: Bytes, idx: nat, indexOf: Bytes -> nat)
    requires Counted(c, indexOf)
    requires ListFull(c, id, idx) && Listed(c, idx)[0] in c.rounds
    ensures Counted(Evict(c, id, idx), indexOf)
  {
    var c' := Evict(c, id, idx);
    var list := Listed(c, idx);
    forall i, k | Holds(c', i, k)
      ensures indexOf(c'.rounds[i].sigs[k]) == k && i in Listed(c', k)
    {
      assert Holds(c, i, k);
      if k == idx {
        assert list == [list[0]] + list[1..];
        assert i in list[1..];
      }
    }
  }

  lemma EvictWellFormed(c: Cache, id: Bytes, idx: nat, indexOf: Bytes -> nat)
    requires WellFormed(c, indexOf)
    requires ListFull(c, id, idx) && Listed(c, idx)[0] in c.rounds
    ensures WellFormed(Evict(c, id, idx), indexOf)
  {
    EvictCounted(c, id, idx, indexOf);
    var c' := Evict(c, id, idx);
    forall i | i in c'.rounds ensures Filed(c'.rounds[i], i) {
      assert Filed(c.rounds[i], i);
    }
  }

  /** `p` added to the round `rc`, which is the one it belongs to. */
  lemma JoinWellFormed(c: Cache, rc: RoundCache, p: Packet, indexOf: Bytes -> nat)
    requires WellFormed(c, indexOf)
    requires var id := RoundId(p.round, p.prev);
             && rc.id == id && RoundId(rc.round, rc.prev) == id
             && (if id in c.rounds then rc == c.rounds[id] else rc.sigs == map[])
    ensures WellFormed(Joined(c.(rounds := c.rounds[RoundId(p.round, p.prev) := rc]), p, indexOf(p.partial)), indexOf)
  {
    var id, idx := RoundId(p.round, p.prev), indexOf(p.partial);
    var c' := Joined(c.(rounds := c.rounds[id := rc]), p, idx);
    assert idx in c'.rounds[id].sigs;
    forall i, k | Holds(c', i, k)
      ensures indexOf(c'.rounds[i].sigs[k]) == k && i in Listed(c', k)
    {
      if i != id || k != idx || idx in rc.sigs {
        assert Holds(c, i, k);
      }
    }
    forall i | i in c'.rounds ensures Filed(c'.rounds[i], i) {
      if i != id {
        assert Filed(c.rounds[i], i);
      }
    }
  }

  lemma AppendWellFormed(c: Cache, p: Packet, indexOf: Bytes -> nat)
    requires WellFormed(c, indexOf)
    ensures WellFormed(Append(c, p, indexOf(p.partial)), indexOf)
  {
    var idx, id := indexOf(p.partial), RoundId(p.round, p.prev);
    var blank := RoundCache(p.round, p.prev, id, map[]);
    if id in c.rounds {
      assert Filed(c.rounds[id], id);
      assert c.(rounds := c.rounds[id := c.rounds[id]]) == c;
      JoinWellFormed(c, c.rounds[id], p, indexOf);
    } else if !ListFull(c, id, idx) {
      JoinWellFormed(c, blank, p, indexOf);
    } else if Listed(c, idx)[0] in c.rounds {
      EvictWellFormed(c, id, idx, indexOf);
      JoinWellFormed(Evict(c, id, idx), blank, p, indexOf);
    }
  }

  /** A round that stays cached keeps its number and previous signature. */
  lemma AppendKeepsRound(c: Cache, p: Packet, idx: nat, id: Bytes)
    requires id in c.rounds && Filed(c.rounds[id], id) && id in Append(c, p, idx).rounds
    ensures var rc := Append(c, p, idx).rounds[id];
            rc.round == c.rounds[id].round && rc.prev == c.rounds[id].prev
  {
    if id == RoundId(p.round, p.prev) {
      RoundIdInjective(p.round, p.prev, c.rounds[id].round, c.rounds[id].prev);
    }
  }

  /** The only partial an append adds is that of the packet, in the packet's own round. */
  lemma AppendAdds(c: Cache, p: Packet, idx: nat, id: Bytes, k: nat)
    requires forall i :: i in c.rounds ==> Filed(c.rounds[i], i)
    requires Holds(Append(c, p, idx), id, k) && !Holds(c, id, k)
    ensures k == idx && id == RoundId(p.round, p.prev)
    ensures Append(c, p, idx).rounds[id].round == p.round && Append(c, p, idx).rounds[id].prev == p.prev
  {
    if RoundId(p.round, p.prev) in c.rounds {
      var rc := c.rounds[RoundId(p.round, p.prev)];
      assert Filed(rc, RoundId(p.round, p.prev));
      RoundIdInjective(p.round, p.prev, rc.round, rc.prev);
    }
  }

  /** The packet cannot be cached: the signer's list is full, and its oldest entry is not cached. */
  predicate Missed(c: Cache, p: Packet, idx: nat) {
    ListFull(c, RoundId(p.round, p.prev), idx) && Listed(c, idx)[0] !in c.rounds
  }

  /** What an append makes of who has a partial where: the packet's signer joins the packet's round, and
      on an eviction exactly the signer's oldest entry goes. */
  predicate HoldsAfter(c: Cache, p: Packet, idx: nat, id: Bytes, k: nat) {
    || (id == RoundId(p.round, p.prev) && k == idx)
    || (Holds(c, id, k) && !(ListFull(c, RoundId(p.round, p.prev), idx) && k == idx && id == Listed(c, idx)[0]))
  }

  lemma EvictMeaning(c: Cache, p: Packet, idx: nat, id: Bytes, k: nat)
    requires ListFull(c, RoundId(p.round, p.prev), idx) && Listed(c, idx)[0] in c.rounds
    ensures var c' := Evict(c, RoundId(p.round, p.prev), idx);
            && (Holds(c', id, k) <==> Holds(c, id, k) && !(id == Listed(c, idx)[0] && k == idx))
            && (Holds(c', id, k) ==> c'.rounds[id].sigs[k] == c.rounds[id].sigs[k])
            && RoundId(p.round, p.prev) !in c'.rounds
  {
    var oldest := Listed(c, idx)[0];
    if Holds(c, oldest, k) && k != idx {
      assert k in c.rounds[oldest].sigs - {idx};
    }
  }

  /** Main result: exactly what an append does, signer by signer. Partials already held keep their value,
      a new one is the packet's own, and nothing changes if the packet cannot be cached. */
  lemma AppendMeaning(c: Cache, p: Packet, idx: nat, id: Bytes, k: nat)
    ensures Missed(c, p, idx) ==> Append(c, p, idx) == c
    ensures !Missed(c, p, idx) ==> (Holds(Append(c, p, idx), id, k) <==> HoldsAfter(c, p, idx, id, k))
    ensures Holds(c, id, k) && Holds(Append(c, p, idx), id, k) ==>
              Append(c, p, idx).rounds[id].sigs[k] == c.rounds[id].sigs[k]
    ensures !Missed(c, p, idx) && !Holds(c, RoundId(p.round, p.prev), idx) ==>
              Append(c, p, idx).rounds[RoundId(p.round, p.prev)].sigs[idx] == p.partial
  {
    if ListFull(c, RoundId(p.round, p.prev), idx) && !Missed(c, p, idx) {
      EvictMeaning(c, p, idx, id, k);
    }
  }

  /** The signer's list grows by the packet's round exactly if the signer is new to it, and no other list
      changes. */
  lemma AppendLists(c: Cache, p: Packet, idx: nat, k: nat)
    requires !ListFull(c, RoundId(p.round, p.prev), idx)
    ensures Listed(Append(c, p, idx), k)
         == Listed(c, k) + if k == idx && !Holds(c, RoundId(p.round, p.prev), idx) then [RoundId(p.round, p.prev)] else []
  {
  }

  /** The signers of the packet's round once it is appended: those before, and its own. */
  ghost function SignersWith(c: Cache, p: Packet, idx: nat): set<nat> {
    (if RoundId(p.round, p.prev) in c.rounds then c.rounds[RoundId(p.round, p.prev)].sigs.Keys else {}) + {idx}
  }

  /** The packet's round is cached with just these signers, if the packet can be cached at all. */
  ghost predicate Gathers(c: Cache, p: Packet, idx: nat) {
    var rounds, id := Append(c, p, idx).rounds, RoundId(p.round, p.prev);
    && (id in rounds <==> !Missed(c, p, idx))
    && (id in rounds ==> rounds[id].round == p.round && rounds[id].prev == p.prev
                         && |rounds[id].sigs| == |SignersWith(c, p, idx)|)
  }

  lemma AppendSigners(c: Cache, p: Packet, indexOf: Bytes -> nat)
    requires WellFormed(c, indexOf)
    ensures Gathers(c, p, indexOf(p.partial))
  {
    var id, idx := RoundId(p.round, p.prev), indexOf(p.partial);
    if !Missed(c, p, idx) {
      AppendWellFormed(c, p, indexOf);
      var rc := Append(c, p, idx).rounds[id];
      assert rc.sigs.Keys == SignersWith(c, p, idx);
      RoundIdInjective(p.round, p.prev, rc.round, rc.prev);
    }
  }

  lemma AppendValid(c: Cache, p: Packet, s: Scheme)
    requires WellFormed(c, s.indexOf) && AllValid(c, s) && ValidPacket(s, p)
    ensures AllValid(Append(c, p, s.indexOf(p.partial)), s)
  {
    var id, idx := RoundId(p.round, p.prev), s.indexOf(p.partial);
    var c' := Append(c, p, idx);
    if id in c.rounds {
      assert Filed(c.rounds[id], id);
      RoundIdInjective(p.round, p.prev, c.rounds[id].round, c.rounds[id].prev);
    }
    forall i, k | Holds(c', i, k)
      ensures s.partialValid(Message(s, c'.rounds[i].round, c'.rounds[i].prev), c'.rounds[i].sigs[k])
    {
      if i != id || k != idx || Holds(c, i, k) {
        assert Holds(c, i, k);
      }
    }
  }

  lemma FlushWellFormed(c: Cache, round: Round, indexOf: Bytes -> nat)
    requires WellFormed(c, indexOf)
    ensures WellFormed(Flush(c, round), indexOf)
  {
    var c' := Flush(c, round);
    forall id, idx | Holds(c', id, idx)
      ensures indexOf(c'.rounds[id].sigs[idx]) == idx && id in Listed(c', idx)
    {
      assert Holds(c, id, idx);
      WithoutMember(c.rcvd[idx], Gone(c, round, idx, c.rounds.Keys), id);
    }
  }

  /** What `FlushRounds` leaves: exactly the rounds above `round`, untouched, and on each signer's list
      everything but the flushed rounds the signer took part in. */
  lemma FlushMeaning(c: Cache, round: Round, id: Bytes, idx: nat)
    ensures var c' := Flush(c, round);
            && (id in c'.rounds <==> id in c.rounds && round < c.rounds[id].round)
            && (id in c'.rounds ==> c'.rounds[id] == c.rounds[id])
            && (id in Listed(c', idx) <==> id in Listed(c, idx) && !(Flushed(c, round, id) && Holds(c, id, idx)))
            && ((forall x :: Flushed(c, round, x) ==> !Holds(c, x, idx)) ==> Listed(c', idx) == Listed(c, idx))
  {
    var gone := Gone(c, round, idx, c.rounds.Keys);
    WithoutMember(Listed(c, idx), gone, id);
    if forall x :: Flushed(c, round, x) ==> !Holds(c, x, idx) {
      WithoutNone(Listed(c, idx), gone);
    }
  }

  lemma FlushExact(c: Cache, round: Round)
    requires Exact(c)
    ensures Exact(Flush(c, round))
  {
    var c' := Flush(c, round);
    forall idx | idx in c'.rcvd ensures NoRepeats(c'.rcvd[idx]) {
      WithoutNoRepeats(c.rcvd[idx], Gone(c, round, idx, c.rounds.Keys));
    }
    forall idx, id
      ensures id in Listed(c', idx) <==> Holds(c', id, idx)
    {
      assert id in Listed(c, idx) <==> Holds(c, id, idx);
      if idx in c.rcvd {
        WithoutMember(c.rcvd[idx], Gone(c, round, idx, c.rounds.Keys), id);
      }
    }
  }

  /** An eviction lists the new identifier twice: once in `getCache`, once in `Append`. */
  lemma EvictionListsTwice(c: Cache, p: Packet, idx: nat)
    requires ListFull(c, RoundId(p.round, p.prev), idx) && Listed(c, idx)[0] in c.rounds
    ensures var l, n := Append(c, p, idx).rcvd[idx], |Listed(c, idx)|;
            |l| == n + 1 && l[n - 1] == l[n] == RoundId(p.round, p.prev)
  {
  }

  lemma AppendKeepsExact(c: Cache, p: Packet, idx: nat)
    requires Exact(c) && !ListFull(c, RoundId(p.round, p.prev), idx)
    ensures Exact(Append(c, p, idx))
  {
    var id := RoundId(p.round, p.prev);
    var c' := Append(c, p, idx);
    assert id in Listed(c, idx) <==> Holds(c, id, idx);
    forall k, i
      ensures i in Listed(c', k) <==> Holds(c', i, k)
    {
      assert i in Listed(c, k) <==> Holds(c, i, k);
    }
  }

  /** The exact condition: appending keeps the lists exact if and only if it evicts nothing. */
  lemma AppendExactIff(c: Cache, p: Packet, idx: nat)
    requires Exact(c)
    ensures Exact(Append(c, p, idx)) <==> !ListFull(c, RoundId(p.round, p.prev), idx)
  {
    if ListFull(c, RoundId(p.round, p.prev), idx) {
      assert Listed(c, idx)[0] in Listed(c, idx);
      EvictionListsTwice(c, p, idx);
      assert !NoRepeats(Append(c, p, idx).rcvd[idx]);
    } else {
      AppendKeepsExact(c, p, idx);
    }
  }

  // ---- Runs -----------------------------------------------------------------------------

  datatype Op = AppendOp(p: Packet) | FlushOp(round: Round)

  function Apply(c: Cache, op: Op, indexOf: Bytes -> nat): Cache {
    match op
    case AppendOp(p) => Append(c, p, indexOf(p.partial))
    case FlushOp(round) => Flush(c, round)
  }

  function Run(ops: seq<Op>, indexOf: Bytes -> nat): Cache {
    if ops == [] then EMPTY else Apply(Run(ops[..|ops| - 1], indexOf), ops[|ops| - 1], indexOf)
  }

  ghost predicate Evicts(c: Cache, op: Op, indexOf: Bytes -> nat) {
    op.AppendOp? && ListFull(c, RoundId(op.p.round, op.p.prev), indexOf(op.p.partial))
  }

  ghost predicate NoEviction(ops: seq<Op>, indexOf: Bytes -> nat)
    decreases |ops|
  {
    ops == [] || (NoEviction(ops[..|ops| - 1], indexOf)
                  && !Evicts(Run(ops[..|ops| - 1], indexOf), ops[|ops| - 1], indexOf))
  }

  /** The lists are exact after every prefix of the run. */
  ghost predicate ExactThroughout(ops: seq<Op>, indexOf: Bytes -> nat)
    decreases |ops|
  {
    Exact(Run(ops, indexOf)) && (ops == [] || ExactThroughout(ops[..|ops| - 1], indexOf))
  }

  /** Main result: over every sequence of appends and flushes the cache is well formed. */
  lemma {:induction false} RunWellFormed(ops: seq<Op>, indexOf: Bytes -> nat)
    ensures WellFormed(Run(ops, indexOf), indexOf)
    decreases |ops|
  {
    if ops != [] {
      var n := |ops| - 1;
      RunWellFormed(ops[..n], indexOf);
      match ops[n]
      case AppendOp(p) => AppendWellFormed(Run(ops[..n], indexOf), p, indexOf);
      case FlushOp(round) => FlushWellFormed(Run(ops[..n], indexOf), round, indexOf);
    }
  }

  /** Main result: the lists are exact all along a run if and only if the run evicts nothing. */
  lemma {:induction false} RunExactIff(ops: seq<Op>, indexOf: Bytes -> nat)
    ensures ExactThroughout(ops, indexOf) <==> NoEviction(ops, indexOf)
    decreases |ops|
  {
    if ops == [] {
      assert Exact(EMPTY);
    } else {
      var n := |ops| - 1;
      RunExactIff(ops[..n], indexOf);
      if ExactThroughout(ops[..n], indexOf) {
        match ops[n]
        case AppendOp(p) => AppendExactIff(Run(ops[..n], indexOf), p, indexOf(p.partial));
        case FlushOp(round) => FlushExact(Run(ops[..n], indexOf), round);
      }
    }
  }

  // ---- Evictions happen -----------------------------------------------------------------

  /** One signer's partials over `k` previous signatures of different lengths. */
  function Spam(round: Round, partials: nat -> Bytes, k: nat): seq<Op> {
    if k == 0 then [] else Spam(round, partials, k - 1) + [AppendOp(SpamPacket(round, partials, k - 1))]
  }

  function SpamPacket(round: Round, partials: nat -> Bytes, length: nat): Packet {
    Packet(round, Zeros(length), partials(length))
  }

  function Zeros(n: nat): (s: Bytes)
    ensures |s| == n
  {
    if n == 0 then [] else [0] + Zeros(n - 1)
  }

  /** All of them carry the index of one share. */
  ghost predicate OneSigner(partials: nat -> Bytes, indexOf: Bytes -> nat, idx: nat) {
    forall k: nat :: indexOf(partials(k)) == idx
  }

  /** After `k` such partials the signer's list holds `k` entries, and nothing was evicted. */
  ghost predicate Filled(ops: seq<Op>, k: nat, indexOf: Bytes -> nat, idx: nat) {
    var c := Run(ops, indexOf);
    |Listed(c, idx)| == k && NoEviction(ops, indexOf) && IdsBelow(c, 8 + k)
  }

  ghost predicate IdsBelow(c: Cache, length: nat) {
    forall id :: id in c.rounds ==> |id| < length
  }

  lemma AppendFresh(c: Cache, p: Packet, idx: nat)
    requires RoundId(p.round, p.prev) !in c.rounds && |Listed(c, idx)| < MAX_PARTIALS_PER_NODE
    ensures |Listed(Append(c, p, idx), idx)| == |Listed(c, idx)| + 1
    ensures Append(c, p, idx).rounds.Keys == c.rounds.Keys + {RoundId(p.round, p.prev)}
  {
  }

  lemma SpamStep(c: Cache, p: Packet, k: nat, idx: nat)
    requires |Listed(c, idx)| == k && IdsBelow(c, 8 + k) && |p.prev| == k
    ensures RoundId(p.round, p.prev) !in c.rounds
    ensures k < MAX_PARTIALS_PER_NODE ==>
              |Listed(Append(c, p, idx), idx)| == k + 1 && IdsBelow(Append(c, p, idx), 8 + k + 1)
  {
    assert |RoundId(p.round, p.prev)| == 8 + k;
    if k < MAX_PARTIALS_PER_NODE {
      AppendFresh(c, p, idx);
      forall id | id in Append(c, p, idx).rounds ensures |id| < 8 + k + 1 {
        assert id in Append(c, p, idx).rounds.Keys;
      }
    }
  }

  lemma OneMoreFills(ops: seq<Op>, p: Packet, k: nat, indexOf: Bytes -> nat, idx: nat)
    requires k < MAX_PARTIALS_PER_NODE && Filled(ops, k, indexOf, idx)
    requires |p.prev| == k && indexOf(p.partial) == idx
    ensures Filled(ops + [AppendOp(p)], k + 1, indexOf, idx)
  {
    RunMore(ops, AppendOp(p), indexOf);
    SpamStep(Run(ops, indexOf), p, k, idx);
  }

  lemma {:induction false} SpamFills(round: Round, partials: nat -> Bytes, k: nat, indexOf: Bytes -> nat, idx: nat)
    requires k <= MAX_PARTIALS_PER_NODE && OneSigner(partials, indexOf, idx)
    ensures Filled(Spam(round, partials, k), k, indexOf, idx)
    decreases k
  {
    if k > 0 {
      SpamFills(round, partials, k - 1, indexOf, idx);
      OneMoreFills(Spam(round, partials, k - 1), SpamPacket(round, partials, k - 1), k - 1, indexOf, idx);
    }
  }

  lemma RunMore(ops: seq<Op>, op: Op, indexOf: Bytes -> nat)
    ensures Run(ops + [op], indexOf) == Apply(Run(ops, indexOf), op, indexOf)
    ensures NoEviction(ops + [op], indexOf) <==> NoEviction(ops, indexOf) && !Evicts(Run(ops, indexOf), op, indexOf)
  {
    assert (ops + [op])[..|ops + [op]| - 1] == ops;
  }

  /** A concrete run that evicts, and so does not keep the lists exact: 101 partials of one share, each
      over a different previous signature. */
  lemma EvictionHappens(round: Round, partials: nat -> Bytes, indexOf: Bytes -> nat, idx: nat)
    requires OneSigner(partials, indexOf, idx)
    ensures !NoEviction(Spam(round, partials, MAX_PARTIALS_PER_NODE + 1), indexOf)
    ensures !ExactThroughout(Spam(round, partials, MAX_PARTIALS_PER_NODE + 1), indexOf)
  {
    var k: nat := MAX_PARTIALS_PER_NODE;
    SpamFills(round, partials, k, indexOf, idx);
    var p := SpamPacket(round, partials, k);
    SpamStep(Run(Spam(round, partials, k), indexOf), p, k, idx);
    RunMore(Spam(round, partials, k), AppendOp(p), indexOf);
    RunExactIff(Spam(round, partials, k + 1), indexOf);
  }
}
