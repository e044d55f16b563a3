/** The store stack of a running node: the bolt bucket with its byte-ordered cursor, the store
    that only appends, and the store that dispatches callbacks (chain/boltdb/store.go,
    chain/beacon/store.go). */
module Stores {
  import opened Bytes
  import opened Collections
  import opened Chain

  // ---- The bolt bucket ------------------------------------------------------------------

  method LeastKey(keys: set<Bytes>) returns (k: Bytes)
    requires keys != {}
    ensures k in keys && forall x :: x in keys ==> LessEq(k, x)
  {
    k :| k in keys;
    var todo := keys - {k};
    while todo != {}
      invariant k in keys && todo <= keys
      invariant forall x :: x in keys && x !in todo ==> LessEq(k, x)
      decreases todo
    {
      var y :| y in todo;
      if Less(y, k) {
        forall x | x in keys && x !in todo ensures LessEq(y, x) {
          if Less(k, x) { LessTransitive(y, k, x); }
        }
        k := y;
      } else {
        LessTotal(y, k);
      }
      todo := todo - {y};
    }
  }

  method GreatestKey(keys: set<Bytes>) returns (k: Bytes)
    requires keys != {}
    ensures k in keys && forall x :: x in keys ==> LessEq(x, k)
  {
    k :| k in keys;
    var todo := keys - {k};
    while todo != {}
      invariant k in keys && todo <= keys
      invariant forall x :: x in keys && x !in todo ==> LessEq(x, k)
      decreases todo
    {
      var y :| y in todo;
      if Less(k, y) {
        forall x | x in keys && x !in todo ensures LessEq(x, y) {
          if Less(x, k) { LessTransitive(x, k, y); }
        }
        k := y;
      } else {
        LessTotal(y, k);
      }
      todo := todo - {y};
    }
  }

  /** `b` is the beacon of the greatest round in `db`. */
  ghost predicate IsLast(db: Ledger, b: Beacon) {
    b.round in db && db[b.round] == b && forall r: Round :: r in db ==> r <= b.round
  }

  lemma KeyOrder(r: Round, s: Round)
    ensures LessEq(RoundToBytes(r), RoundToBytes(s)) <==> r <= s
  {
    RoundOrder(r, s);
    if RoundToBytes(r) == RoundToBytes(s) {
      RoundToBytesInjective(r, s);
    }
  }

  /** Every beacon is filed under its own round, and `stored` reads the bucket by round. */
  ghost predicate FiledByRound(bucket: map<Bytes, Beacon>, stored: Ledger) {
    && (forall k :: k in bucket ==> k == RoundToBytes(bucket[k].round))
    && (forall r: Round :: r in stored <==> RoundToBytes(r) in bucket)
    && (forall r: Round :: r in stored ==> stored[r] == bucket[RoundToBytes(r)] && stored[r].round == r)
  }

  class BoltStore {
    var bucket: map<Bytes, Beacon>
    /** The bucket read by round. */
    ghost var contents: Ledger

    ghost predicate Valid()
      reads this
    {
      FiledByRound(bucket, contents)
    }

    /** `NewBoltStore` opens the bucket as it is on disk, and creates it if there is none. */
    constructor (disk: Option<map<Bytes, Beacon>>, ghost stored: Ledger)
      requires disk.None? ==> stored == map[]
      requires disk.Some? ==> FiledByRound(disk.value, stored)
      ensures Valid() && contents == stored
    {
      bucket := if disk.Some? then disk.value else map[];
      contents := stored;
    }

    method Put(b: Beacon)
      requires Valid()
      modifies this
      ensures Valid() && contents == old(contents)[b.round := b]
    {
      forall r: Round | RoundToBytes(r) == RoundToBytes(b.round) ensures r == b.round {
        RoundToBytesInjective(r, b.round);
      }
      bucket := bucket[RoundToBytes(b.round) := b];
      contents := contents[b.round := b];
    }

    method Get(round: Round) returns (b: Option<Beacon>)
      requires Valid()
      ensures b.Some? <==> round in contents
      ensures b.Some? ==> b.value == contents[round]
    {
      var k := RoundToBytes(round);
      b := if k in bucket then Some(bucket[k]) else None;
    }

    /** The last key in byte order belongs to the greatest round. */
    method Last() returns (b: Option<Beacon>)
      requires Valid()
      ensures b.None? <==> contents == map[]
      ensures b.Some? ==> IsLast(contents, b.value)
    {
      if bucket == map[] {
        return None;
      }
      var k := GreatestKey(bucket.Keys);
      b := Some(bucket[k]);
      assert b.value.round in contents;
      forall r: Round | r in contents ensures r <= b.value.round {
        KeyOrder(r, b.value.round);
      }
    }

    method Del(round: Round)
      requires Valid()
      modifies this
      ensures Valid() && contents == old(contents) - {round}
    {
      forall r: Round | RoundToBytes(r) == RoundToBytes(round) ensures r == round {
        RoundToBytesInjective(r, round);
      }
      bucket := bucket - {RoundToBytes(round)};
      contents := contents - {round};
    }
  }

  /** The first stored round at or after `from`, or none. */
  ghost predicate FirstFrom(db: Ledger, from: nat, b: Option<Beacon>) {
    match b
    case None => forall r: Round :: r in db ==> r < from
    case Some(v) =>
      && v.round in db && db[v.round] == v && from <= v.round
      && forall r: Round :: r in db && from <= r ==> v.round <= r
  }

  class BoltCursor {
    const store: BoltStore
    var at: Option<Bytes>

    ghost predicate Valid()
      reads this, store
    {
      store.Valid() && (at.Some? ==> at.value in store.bucket)
    }

    constructor (store: BoltStore)
      requires store.Valid()
      ensures Valid() && this.store == store
    {
      this.store := store;
      at := None;
    }

    method MoveTo(keys: set<Bytes>, ghost from: nat) returns (b: Option<Beacon>)
      requires Valid() && keys <= store.bucket.Keys
      requires forall r: Round :: RoundToBytes(r) in store.bucket ==> (RoundToBytes(r) in keys <==> from <= r)
      modifies this
      ensures Valid() && FirstFrom(store.contents, from, b)
      ensures at == if b.Some? then Some(RoundToBytes(b.value.round)) else None
    {
      if keys == {} {
        at := None;
        return None;
      }
      var k := LeastKey(keys);
      at := Some(k);
      b := Some(store.bucket[k]);
      assert b.value.round in store.contents;
      forall r: Round | r in store.contents && from <= r ensures b.value.round <= r {
        KeyOrder(b.value.round, r);
      }
    }

    method Seek(round: Round) returns (b: Option<Beacon>)
      requires Valid()
      modifies this
      ensures Valid() && FirstFrom(store.contents, round, b)
      ensures at == if b.Some? then Some(RoundToBytes(b.value.round)) else None
    {
      var start := RoundToBytes(round);
      forall r: Round ensures LessEq(start, RoundToBytes(r)) <==> round <= r {
        KeyOrder(round, r);
      }
      b := MoveTo((set k | k in store.bucket && LessEq(start, k)), round);
    }

    method Next(ghost current: Round) returns (b: Option<Beacon>)
      requires Valid() && at == Some(RoundToBytes(current))
      modifies this
      ensures Valid() && FirstFrom(store.contents, current + 1, b)
      ensures at == if b.Some? then Some(RoundToBytes(b.value.round)) else None
    {
      var here := at.value;
      forall r: Round ensures Less(here, RoundToBytes(r)) <==> current + 1 <= r {
        RoundOrder(current, r);
      }
      b := MoveTo((set k | k in store.bucket && Less(here, k)), current + 1);
    }
  }

  // ---- The append-only store ------------------------------------------------------------

  /** What `appendStore.Put` asks of a new beacon, in `uint64` arithmetic. */
  predicate Accepts(last: Beacon, b: Beacon) {
    b.round == Succ(last.round) && last.sig == b.prev
  }

  /** An accepted beacon extends the chain: no gap, no broken link, nothing overwritten. */
  lemma AppendKeepsChain(db: Ledger, last: Beacon, seed: Bytes, b: Beacon)
    requires IsChain(db, last, seed) && Accepts(last, b) && last.round < MAX_ROUND
    ensures b.round !in db
    ensures IsChain(db[b.round := b], b, seed)
  {
    var db' := db[b.round := b];
    forall r: Round ensures Linked(db', r) {
      assert Linked(db, r);
    }
  }

  /** The exact condition: an accepted beacon keeps the chain unless the round number wraps. */
  lemma AppendChainIff(db: Ledger, last: Beacon, seed: Bytes, b: Beacon)
    requires IsChain(db, last, seed) && Accepts(last, b)
    ensures IsChain(db[b.round := b], b, seed) <==> last.round != MAX_ROUND
  {
    if last.round != MAX_ROUND {
      AppendKeepsChain(db, last, seed, b);
    } else {
      var one: Round := 1;
      assert one in db[b.round := b];
    }
  }

  lemma ChainHasLast(db: Ledger, last: Beacon, seed: Bytes, b: Beacon)
    requires IsChain(db, last, seed)
    ensures IsLast(db, b) <==> b == last
  {
    if IsLast(db, b) {
      assert last.round in db;
      assert b.round == last.round;
    }
  }

  class AppendStore {
    const base: BoltStore
    var last: Beacon

    ghost predicate Valid(seed: Bytes)
      reads this, base
    {
      base.Valid() && IsChain(base.contents, last, seed)
    }

    /** `newAppendStore` on a store whose genesis beacon has been put: it must already be a chain. */
    constructor (base: BoltStore, ghost end: Beacon, ghost seed: Bytes)
      requires base.Valid() && IsChain(base.contents, end, seed)
      ensures Valid(seed) && this.base == base && last == end
    {
      var l := base.Last();
      assert base.contents != map[] by { assert end.round in base.contents; }
      this.base := base;
      last := l.value;
      ChainHasLast(base.contents, end, seed, l.value);
    }

    method Put(b: Beacon, ghost seed: Bytes) returns (ok: bool)
      requires Valid(seed) && last.round < MAX_ROUND
      modifies this, base
      ensures Valid(seed)
      ensures ok <==> Accepts(old(last), b)
      ensures last == if ok then b else old(last)
      ensures base.contents == if ok then old(base.contents)[b.round := b] else old(base.contents)
    {
      if b.round != Succ(last.round) || last.sig != b.prev {
        return false;
      }
      AppendKeepsChain(base.contents, last, seed, b);
      base.Put(b);
      last := b;
      return true;
    }
  }

  /** `NewHandler` puts the genesis beacon unconditionally: an empty store, or a chain of the
      same genesis, becomes a chain; a chain of that genesis is left as it was. */
  method InsertGenesis(s: BoltStore, seed: Bytes, ghost end: Beacon)
    requires s.Valid()
    requires s.contents == map[] || IsChain(s.contents, end, seed)
    modifies s
    ensures s.Valid()
    ensures old(s.contents) == map[] ==> IsChain(s.contents, GenesisBeacon(seed), seed)
    ensures old(s.contents) != map[] ==> s.contents == old(s.contents)
  {
    s.Put(GenesisBeacon(seed));
  }
}
