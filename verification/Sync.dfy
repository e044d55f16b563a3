/** Following a chain from peers, and serving it to them (chain/beacon/sync.go). */
module Sync {
  import opened Bytes
  import opened Collections
  import opened Chain
  import opened Stores

  /** A database, its last beacon, and whether the wanted round was reached. */
  datatype Outcome = Outcome(db: Ledger, last: Beacon, done: bool)

  /** What receiving `stream` does to a store: verify, append, stop at `upTo` or at the first
      beacon that is refused. */
  function Absorb(s: Scheme, db: Ledger, last: Beacon, stream: seq<Beacon>, upTo: Round): Outcome
    decreases |stream|
  {
    if stream == [] then Outcome(db, last, false)
    else
      var b := stream[0];
      if !VerifyBeacon(s, b) || !Accepts(last, b) then Outcome(db, last, false)
      else if b.round == upTo then Outcome(db[b.round := b], b, true)
      else Absorb(s, db[b.round := b], b, stream[1..], upTo)
  }

  /** Main result for any peer: whatever it streams, the store only grows, and only by verified
      links; the sync reports success exactly when the wanted round became the last one stored. */
  lemma {:induction false} AbsorbSafe(s: Scheme, seed: Bytes, db: Ledger, last: Beacon, stream: seq<Beacon>, upTo: Round)
    requires IsChain(db, last, seed) && Verified(s, db) && last.round + |stream| <= MAX_ROUND
    ensures var o := Absorb(s, db, last, stream, upTo);
            && IsChain(o.db, o.last, seed) && Verified(s, o.db) && Extends(db, o.db)
            && last.round <= o.last.round
            && (o.done <==> last.round < upTo && o.last.round == upTo)
            && (last.round < upTo ==> o.last.round <= upTo)
    decreases |stream|
  {
    if stream != [] {
      var b := stream[0];
      if VerifyBeacon(s, b) && Accepts(last, b) {
        AppendKeepsChain(db, last, seed, b);
        if b.round != upTo {
          AbsorbSafe(s, seed, db[b.round := b], b, stream[1..], upTo);
        }
      }
    }
  }

  /** The beacons of rounds `from` to `upper`, in order. */
  function Segment(db: Ledger, from: nat, upper: nat): (out: seq<Beacon>)
    requires upper < TWO64 && forall r: Round :: from <= r <= upper ==> r in db
    ensures |out| == if from <= upper then upper - from + 1 else 0
    decreases upper + 1 - from
  {
    if from > upper then [] else [db[from]] + Segment(db, from + 1, upper)
  }

  function TotalLength(streams: seq<seq<Beacon>>): nat {
    if streams == [] then 0 else |streams[0]| + TotalLength(streams[1..])
  }

  /** The sync succeeded, and the store is the peer's chain up to that round. */
  ghost predicate PeersPrefix(o: Outcome, peer: Ledger, upTo: Round) {
    && o.done && upTo in peer && o.last == peer[upTo]
    && (forall r: Round :: r in o.db <==> r <= upTo)
    && (forall r: Round :: r in o.db ==> r in peer && o.db[r] == peer[r])
  }

  lemma ReachedPeer(s: Scheme, seed: Bytes, db: Ledger, last: Beacon, peer: Ledger, end: Beacon)
    requires UniqueSignatures(s)
    requires IsChain(db, last, seed) && Verified(s, db)
    requires IsChain(peer, end, seed) && Verified(s, peer)
    requires last.round <= end.round
    ensures PeersPrefix(Outcome(db, last, true), peer, last.round)
  {
    AgreeWithPeer(s, seed, db, last, peer, end);
  }

  /** Main result for an honest peer whose chain reaches `upTo`: streaming it makes the local store
      equal to the peer's up to that round. */
  lemma {:induction false} AbsorbHonest(s: Scheme, seed: Bytes, db: Ledger, last: Beacon, peer: Ledger, end: Beacon, upTo: Round)
    requires UniqueSignatures(s)
    requires IsChain(db, last, seed) && Verified(s, db)
    requires IsChain(peer, end, seed) && Verified(s, peer)
    requires last.round < upTo <= end.round
    ensures PeersPrefix(Absorb(s, db, last, Segment(peer, last.round + 1, end.round), upTo), peer, upTo)
    decreases upTo - last.round
  {
    var stream := Segment(peer, last.round + 1, end.round);
    var b := peer[last.round + 1];
    assert stream[0] == b && stream[1..] == Segment(peer, last.round + 2, end.round);
    HonestLink(s, seed, db, last, peer, end);
    var db' := db[b.round := b];
    if b.round == upTo {
      ReachedPeer(s, seed, db', b, peer, end);
    } else {
      AbsorbHonest(s, seed, db', b, peer, end, upTo);
    }
  }

  lemma AgreeWithPeer(s: Scheme, seed: Bytes, db: Ledger, last: Beacon, peer: Ledger, end: Beacon)
    requires UniqueSignatures(s)
    requires IsChain(db, last, seed) && Verified(s, db)
    requires IsChain(peer, end, seed) && Verified(s, peer)
    requires last.round <= end.round
    ensures forall r: Round :: r in db ==> r in peer && db[r] == peer[r]
  {
    forall r: Round | r in db ensures r in peer && db[r] == peer[r] {
      ChainsAgree(s, seed, db, last, peer, end, r);
    }
  }

  /** The peer's next beacon is accepted. */
  lemma HonestLink(s: Scheme, seed: Bytes, db: Ledger, last: Beacon, peer: Ledger, end: Beacon)
    requires UniqueSignatures(s)
    requires IsChain(db, last, seed) && Verified(s, db)
    requires IsChain(peer, end, seed) && Verified(s, peer)
    requires last.round < end.round
    ensures last.round + 1 in peer
    ensures var b := peer[last.round + 1];
            && b.round == last.round + 1 && VerifyBeacon(s, b) && Accepts(last, b)
            && IsChain(db[b.round := b], b, seed) && Verified(s, db[b.round := b])
  {
    var b := peer[last.round + 1];
    ChainsAgree(s, seed, db, last, peer, end, last.round);
    assert Linked(peer, last.round + 1);
    AppendKeepsChain(db, last, seed, b);
  }

  /** The server side: the stored beacons from a round on, read off the cursor. */
  method ServeChain(store: BoltStore, from: Round, ghost end: Beacon, ghost seed: Bytes) returns (r: Result<seq<Beacon>>)
    requires store.Valid() && IsChain(store.contents, end, seed)
    ensures r.Err? <==> end.round < from
    ensures r.Ok? ==> r.value == Segment(store.contents, from, end.round)
  {
    var last := store.Last();
    ghost var db := store.contents;
    assert end.round in db;
    ChainHasLast(db, end, seed, last.value);
    if last.value.round < from {
      return Err;
    }
    var out := ReadFrom(store, from, end, seed);
    return Ok(out);
  }

  /** In a chain, the first round found from `pos` on is `pos` itself, until the end. */
  lemma NextOfChain(db: Ledger, end: Beacon, seed: Bytes, pos: nat, bb: Option<Beacon>)
    requires IsChain(db, end, seed) && pos <= end.round + 1 && FirstFrom(db, pos, bb)
    ensures bb.Some? <==> pos <= end.round
    ensures bb.Some? ==> bb.value == db[pos] && bb.value.round == pos
  {
    if pos <= end.round {
      var p: Round := pos;
      assert p in db;
    }
  }

  predicate BeaconAt(db: Ledger, from: Round, out: seq<Beacon>, k: nat)
    requires k < |out|
  {
    from + k < TWO64 && from + k in db && out[k] == db[from + k]
  }

  /** `out` are the stored beacons of consecutive rounds from `from` on. */
  predicate Consecutive(db: Ledger, from: Round, out: seq<Beacon>) {
    forall k: nat :: k < |out| ==> BeaconAt(db, from, out, k)
  }

  lemma ConsecutiveSnoc(db: Ledger, from: Round, out: seq<Beacon>, b: Beacon)
    requires Consecutive(db, from, out) && from + |out| < TWO64 && from + |out| in db && b == db[from + |out|]
    ensures Consecutive(db, from, out + [b])
  {
    forall k: nat | k < |out + [b]| ensures BeaconAt(db, from, out + [b], k) {
      assert k < |out| ==> BeaconAt(db, from, out, k);
    }
  }

  lemma ConsecutiveTail(db: Ledger, from: Round, out: seq<Beacon>)
    requires Consecutive(db, from, out) && |out| > 1 && from + 1 < TWO64
    ensures Consecutive(db, from + 1, out[1..])
  {
    var next: Round, rest := from + 1, out[1..];
    forall k: nat | k < |rest| ensures BeaconAt(db, next, rest, k) {
      assert BeaconAt(db, from, out, k + 1);
    }
  }

  lemma {:induction false} ConsecutiveSegment(db: Ledger, from: Round, upper: Round, out: seq<Beacon>)
    requires Consecutive(db, from, out) && from <= upper && |out| == upper + 1 - from
    ensures (forall r: Round :: from <= r <= upper ==> r in db) && out == Segment(db, from, upper)
    decreases |out|
  {
    forall r: Round | from <= r <= upper ensures r in db {
      assert BeaconAt(db, from, out, r - from);
    }
    assert BeaconAt(db, from, out, 0);
    if from < upper {
      ConsecutiveTail(db, from, out);
      ConsecutiveSegment(db, from + 1, upper, out[1..]);
      assert out == [out[0]] + out[1..];
    } else {
      assert Segment(db, from + 1, upper) == [] && out == [out[0]];
    }
  }

  /** The cursor loop of `SyncChain`. */
  method ReadFrom(store: BoltStore, from: Round, ghost end: Beacon, ghost seed: Bytes) returns (out: seq<Beacon>)
    requires store.Valid() && IsChain(store.contents, end, seed) && from <= end.round
    ensures out == Segment(store.contents, from, end.round)
  {
    var c := new BoltCursor(store);
    var bb := c.Seek(from);
    NextOfChain(store.contents, end, seed, from, bb);
    out := Drain(c, from, bb.value, end, seed);
    ConsecutiveSegment(store.contents, from, end.round, out);
  }

  method Drain(c: BoltCursor, ghost from: Round, first: Beacon, ghost end: Beacon, ghost seed: Bytes)
    returns (out: seq<Beacon>)
    requires c.Valid() && IsChain(c.store.contents, end, seed) && from <= end.round && AtRound(c, from, first)
    modifies c
    ensures |out| == end.round + 1 - from && Consecutive(c.store.contents, from, out)
  {
    out := [];
    var bb := Some(first);
    while bb.Some?
      invariant c.Valid()
      invariant |out| <= end.round + 1 - from && Consecutive(c.store.contents, from, out)
      invariant bb.Some? <==> |out| < end.round + 1 - from
      invariant bb.Some? ==> AtRound(c, from + |out|, bb.value)
      decreases end.round + 1 - from - |out|
    {
      var b := bb.value;
      bb := NextOf(c, from + |out|, end, seed);
      ConsecutiveSnoc(c.store.contents, from, out, b);
      out := out + [b];
    }
  }

  /** The cursor stands at round `r`, whose beacon is `b`. */
  ghost predicate AtRound(c: BoltCursor, r: nat, b: Beacon)
    reads c, c.store
  {
    r < TWO64 && r in c.store.contents && b == c.store.contents[r] && c.at == Some(RoundToBytes(r))
  }

  method NextOf(c: BoltCursor, ghost r: Round, ghost end: Beacon, ghost seed: Bytes) returns (bb: Option<Beacon>)
    requires c.Valid() && IsChain(c.store.contents, end, seed) && r <= end.round && c.at == Some(RoundToBytes(r))
    modifies c
    ensures c.Valid()
    ensures bb.Some? <==> r < end.round
    ensures bb.Some? ==> AtRound(c, r + 1, bb.value)
  {
    bb := c.Next(r);
    NextOfChain(c.store.contents, end, seed, r + 1, bb);
  }

  // ---- One peer after another -----------------------------------------------------------

  /** What following the streams in order does to a store: stop at the first that reaches `upTo`. */
  function AbsorbAll(s: Scheme, db: Ledger, last: Beacon, streams: seq<seq<Beacon>>, upTo: Round): Outcome
    decreases |streams|
  {
    if streams == [] then Outcome(db, last, false)
    else
      var o := Absorb(s, db, last, streams[0], upTo);
      if o.done then o else AbsorbAll(s, o.db, o.last, streams[1..], upTo)
  }

  /** What all the streams leave, each absorbed into the store its predecessors left. */
  function Left(s: Scheme, db: Ledger, last: Beacon, streams: seq<seq<Beacon>>, upTo: Round): Outcome
    decreases |streams|
  {
    if streams == [] then Outcome(db, last, false)
    else
      var o := Absorb(s, db, last, streams[0], upTo);
      Left(s, o.db, o.last, streams[1..], upTo)
  }

  /** What stream `k` does to the store its predecessors left. */
  function Turn(s: Scheme, db: Ledger, last: Beacon, streams: seq<seq<Beacon>>, upTo: Round, k: nat): Outcome
    requires k < |streams|
  {
    var o := Left(s, db, last, streams[..k], upTo);
    Absorb(s, o.db, o.last, streams[k], upTo)
  }

  lemma TurnShift(s: Scheme, db: Ledger, last: Beacon, streams: seq<seq<Beacon>>, upTo: Round, k: nat)
    requires k < |streams|
    ensures k == 0 ==> Turn(s, db, last, streams, upTo, k) == Absorb(s, db, last, streams[0], upTo)
    ensures k > 0 ==> var o := Absorb(s, db, last, streams[0], upTo);
                      Turn(s, db, last, streams, upTo, k) == Turn(s, o.db, o.last, streams[1..], upTo, k - 1)
  {
    if k > 0 {
      assert streams[..k][1..] == streams[1..][..k - 1];
    }
  }

  /** Main result: following succeeds exactly if some stream reaches `upTo` from the store its predecessors
      left, and then the store is as the first such stream leaves it; otherwise every stream was absorbed. */
  lemma {:induction false} FollowIff(s: Scheme, db: Ledger, last: Beacon, streams: seq<seq<Beacon>>, upTo: Round)
    ensures var o := AbsorbAll(s, db, last, streams, upTo);
            && (o.done <==> exists k: nat :: k < |streams| && Turn(s, db, last, streams, upTo, k).done)
            && (o.done ==> exists k: nat :: k < |streams| && o == Turn(s, db, last, streams, upTo, k)
                             && forall j: nat :: j < k ==> !Turn(s, db, last, streams, upTo, j).done)
            && (!o.done ==> o == Left(s, db, last, streams, upTo).(done := false))
    decreases |streams|
  {
    if streams != [] {
      var o := Absorb(s, db, last, streams[0], upTo);
      forall k: nat | k < |streams| {
        TurnShift(s, db, last, streams, upTo, k);
      }
      assert Turn(s, db, last, streams, upTo, 0) == o;
      if !o.done {
        FollowIff(s, o.db, o.last, streams[1..], upTo);
        if k: nat :| k < |streams| && Turn(s, db, last, streams, upTo, k).done {
          assert Turn(s, o.db, o.last, streams[1..], upTo, k - 1).done;
        }
        if AbsorbAll(s, o.db, o.last, streams[1..], upTo).done {
          FirstShift(s, db, last, streams, upTo);
        }
      }
    }
  }

  /** The first stream to succeed, counted from the second stream on, is one further counted from the first. */
  lemma FirstShift(s: Scheme, db: Ledger, last: Beacon, streams: seq<seq<Beacon>>, upTo: Round)
    requires streams != [] && !Absorb(s, db, last, streams[0], upTo).done
    requires var o := Absorb(s, db, last, streams[0], upTo);
             var all := AbsorbAll(s, o.db, o.last, streams[1..], upTo);
             all.done && exists k: nat :: k < |streams| - 1 && all == Turn(s, o.db, o.last, streams[1..], upTo, k)
                           && forall j: nat :: j < k ==> !Turn(s, o.db, o.last, streams[1..], upTo, j).done
    ensures exists k: nat :: k < |streams| && AbsorbAll(s, db, last, streams, upTo) == Turn(s, db, last, streams, upTo, k)
              && forall j: nat :: j < k ==> !Turn(s, db, last, streams, upTo, j).done
  {
    var o := Absorb(s, db, last, streams[0], upTo);
    var all := AbsorbAll(s, o.db, o.last, streams[1..], upTo);
    var k: nat :| k < |streams| - 1 && all == Turn(s, o.db, o.last, streams[1..], upTo, k)
                  && forall j: nat :: j < k ==> !Turn(s, o.db, o.last, streams[1..], upTo, j).done;
    TurnShift(s, db, last, streams, upTo, k + 1);
    forall j: nat | j < k + 1 ensures !Turn(s, db, last, streams, upTo, j).done {
      TurnShift(s, db, last, streams, upTo, j);
    }
    assert Turn(s, db, last, streams, upTo, k + 1) == all;
  }

  /** Stream `k` is the peer's chain from the round after the last one stored when its turn comes. */
  ghost predicate HonestTurn(s: Scheme, seed: Bytes, db: Ledger, last: Beacon, streams: seq<seq<Beacon>>, upTo: Round,
                             k: nat, peer: Ledger, end: Beacon)
    requires k < |streams| && IsChain(peer, end, seed)
  {
    streams[k] == Segment(peer, Left(s, db, last, streams[..k], upTo).last.round + 1, end.round)
  }

  lemma HonestShift(s: Scheme, seed: Bytes, db: Ledger, last: Beacon, streams: seq<seq<Beacon>>, upTo: Round,
                    k: nat, peer: Ledger, end: Beacon)
    requires 0 < k < |streams| && IsChain(peer, end, seed) && HonestTurn(s, seed, db, last, streams, upTo, k, peer, end)
    ensures var o := Absorb(s, db, last, streams[0], upTo);
            HonestTurn(s, seed, o.db, o.last, streams[1..], upTo, k - 1, peer, end)
  {
    assert streams[..k][1..] == streams[1..][..k - 1];
  }

  /** Main result: if among the peers, in whatever order and whatever the others send, one is honest and
      streams its chain from the round after the last one stored when its turn comes, reaching `upTo`, then
      following succeeds and the store is that peer's chain up to `upTo`. */
  lemma {:induction false} FollowHonest(s: Scheme, seed: Bytes, db: Ledger, last: Beacon, streams: seq<seq<Beacon>>,
                                        upTo: Round, k: nat, peer: Ledger, end: Beacon)
    requires UniqueSignatures(s)
    requires IsChain(db, last, seed) && Verified(s, db) && last.round + TotalLength(streams) <= MAX_ROUND
    requires IsChain(peer, end, seed) && Verified(s, peer)
    requires last.round < upTo <= end.round
    requires k < |streams| && HonestTurn(s, seed, db, last, streams, upTo, k, peer, end)
    ensures PeersPrefix(AbsorbAll(s, db, last, streams, upTo), peer, upTo)
    decreases k
  {
    var o := Absorb(s, db, last, streams[0], upTo);
    AbsorbSafe(s, seed, db, last, streams[0], upTo);
    if o.done {
      ReachedPeer(s, seed, o.db, o.last, peer, end);
    } else if k == 0 {
      AbsorbHonest(s, seed, db, last, peer, end, upTo);
    } else {
      AbsorbLength(s, db, last, streams[0], upTo);
      HonestShift(s, seed, db, last, streams, upTo, k, peer, end);
      FollowHonest(s, seed, o.db, o.last, streams[1..], upTo, k - 1, peer, end);
    }
  }

  // ---- How far one stream gets ----------------------------------------------------------

  /** The store with these beacons bound. */
  function Bound(db: Ledger, bs: seq<Beacon>): Ledger
    decreases |bs|
  {
    if bs == [] then db else Bound(db[bs[0].round := bs[0]], bs[1..])
  }

  /** `b` may follow `last`. */
  predicate Follows(s: Scheme, last: Beacon, b: Beacon) {
    VerifyBeacon(s, b) && b.round == Succ(last.round) && b.prev == last.sig
  }

  /** The beacon that `stream[i]` has to follow. */
  function Before(last: Beacon, stream: seq<Beacon>, i: nat): Beacon
    requires i <= |stream|
  {
    if i == 0 then last else stream[i - 1]
  }

  /** Each of the first `n` beacons follows the one before it, and none but the last is of round `upTo`. */
  ghost predicate Links(s: Scheme, last: Beacon, stream: seq<Beacon>, upTo: Round, n: nat)
    requires n <= |stream|
  {
    && (forall i :: 0 <= i < n ==> Follows(s, Before(last, stream, i), stream[i]))
    && (forall i :: 0 <= i < n - 1 ==> stream[i].round != upTo)
  }

  /** `o` is what comes of taking the first `n` beacons of `stream`, and the next one cannot be taken. */
  ghost predicate Took(s: Scheme, db: Ledger, last: Beacon, stream: seq<Beacon>, upTo: Round, o: Outcome, n: nat) {
    && n <= |stream| && Links(s, last, stream, upTo, n)
    && o.db == Bound(db, stream[..n]) && o.last == Before(last, stream, n)
    && (o.done <==> n > 0 && stream[n - 1].round == upTo)
    && (o.done || n == |stream| || !Follows(s, o.last, stream[n]))
  }

  lemma TookFromHead(s: Scheme, db: Ledger, last: Beacon, stream: seq<Beacon>, upTo: Round, o: Outcome, m: nat)
    requires stream != [] && Follows(s, last, stream[0]) && stream[0].round != upTo
    requires Took(s, db[stream[0].round := stream[0]], stream[0], stream[1..], upTo, o, m)
    ensures Took(s, db, last, stream, upTo, o, m + 1)
  {
    forall i | 0 < i < m + 1 ensures Follows(s, Before(last, stream, i), stream[i]) {
      assert Before(last, stream, i) == Before(stream[0], stream[1..], i - 1) && stream[i] == stream[1..][i - 1];
    }
    assert stream[..m + 1][1..] == stream[1..][..m];
  }

  /** Main result: exactly the longest acceptable beginning of a stream is stored. Each beacon taken is a
      verified link to the one before it, and the next one, if there is one, is not, unless `upTo` is
      reached. */
  lemma {:induction false} AbsorbExact(s: Scheme, db: Ledger, last: Beacon, stream: seq<Beacon>, upTo: Round)
    ensures exists n: nat :: Took(s, db, last, stream, upTo, Absorb(s, db, last, stream, upTo), n)
    decreases |stream|
  {
    var o := Absorb(s, db, last, stream, upTo);
    if stream == [] || !Follows(s, last, stream[0]) {
      assert Took(s, db, last, stream, upTo, o, 0);
    } else if stream[0].round == upTo {
      assert o == Outcome(db[stream[0].round := stream[0]], stream[0], true);
      assert stream[..1] == [stream[0]] && stream[..1][1..] == [];
      assert Before(last, stream, 1) == stream[0];
      assert Took(s, db, last, stream, upTo, o, 1);
    } else {
      AbsorbExact(s, db[stream[0].round := stream[0]], stream[0], stream[1..], upTo);
      var m: nat :| Took(s, db[stream[0].round := stream[0]], stream[0], stream[1..], upTo, o, m);
      TookFromHead(s, db, last, stream, upTo, o, m);
    }
  }

  class Syncer {
    const scheme: Scheme
    const store: AppendStore
    var following: bool

    ghost predicate Valid(seed: Bytes)
      reads this, store, store.base
    {
      store.Valid(seed) && Verified(scheme, store.base.contents)
    }

    constructor (scheme: Scheme, store: AppendStore, ghost seed: Bytes)
      requires store.Valid(seed) && Verified(scheme, store.base.contents)
      ensures Valid(seed) && !following && this.store == store && this.scheme == scheme
    {
      this.scheme := scheme;
      this.store := store;
      following := false;
    }

    /** One peer's stream, cut short wherever the connection ends it. */
    method TryNode(upTo: Round, stream: seq<Beacon>, ghost seed: Bytes) returns (done: bool)
      requires Valid(seed) && store.last.round + |stream| <= MAX_ROUND
      modifies store, store.base
      ensures Valid(seed)
      ensures Outcome(store.base.contents, store.last, done)
           == Absorb(scheme, old(store.base.contents), old(store.last), stream, upTo)
      ensures Extends(old(store.base.contents), store.base.contents)
      ensures done ==> upTo in store.base.contents
    {
      AbsorbSafe(scheme, seed, store.base.contents, store.last, stream, upTo);
      done := Receive(upTo, stream, seed);
    }

    /** The receive loop of `tryNode`. */
    method Receive(upTo: Round, stream: seq<Beacon>, ghost seed: Bytes) returns (done: bool)
      requires store.Valid(seed) && store.last.round + |stream| <= MAX_ROUND
      modifies store, store.base
      ensures store.Valid(seed)
      ensures Outcome(store.base.contents, store.last, done)
           == Absorb(scheme, old(store.base.contents), old(store.last), stream, upTo)
    {
      ghost var target := Absorb(scheme, store.base.contents, store.last, stream, upTo);
      var i := 0;
      while i < |stream|
        invariant 0 <= i <= |stream|
        invariant store.Valid(seed)
        invariant store.last.round + (|stream| - i) <= MAX_ROUND
        invariant target == Absorb(scheme, store.base.contents, store.last, stream[i..], upTo)
      {
        var b := stream[i];
        assert stream[i..][0] == b && stream[i..][1..] == stream[i + 1..];
        if !VerifyBeacon(scheme, b) {
          return false;
        }
        var ok := store.Put(b, seed);
        if !ok {
          return false;
        }
        if b.round == upTo {
          return true;
        }
        i := i + 1;
      }
      return false;
    }

    /** `Follow`: the peers one after the other, in whatever order they were shuffled, until one
        of them gets the store to `upTo`. Refused while another follow is running. */
    method Follow(upTo: Round, streams: seq<seq<Beacon>>, ghost seed: Bytes) returns (ok: bool)
      requires Valid(seed) && store.last.round + TotalLength(streams) <= MAX_ROUND
      modifies this, store, store.base
      ensures Valid(seed) && following == old(following)
      ensures Extends(old(store.base.contents), store.base.contents)
      ensures ok ==> upTo in store.base.contents
      ensures old(following) ==> !ok && store.base.contents == old(store.base.contents) && store.last == old(store.last)
      ensures !old(following) ==>
                var db, last := old(store.base.contents), old(store.last);
                && Outcome(store.base.contents, store.last, ok) == AbsorbAll(scheme, db, last, streams, upTo)
                && (ok <==> exists k: nat :: k < |streams| && Turn(scheme, db, last, streams, upTo, k).done)
                && (!ok ==> var left := Left(scheme, db, last, streams, upTo);
                            store.base.contents == left.db && store.last == left.last)
    {
      if following {
        return false;
      }
      FollowIff(scheme, store.base.contents, store.last, streams, upTo);
      following := true;
      ok := TryAll(upTo, streams, seed);
      following := false;
    }

    /** The loop over the peers. */
    method TryAll(upTo: Round, streams: seq<seq<Beacon>>, ghost seed: Bytes) returns (ok: bool)
      requires Valid(seed) && store.last.round + TotalLength(streams) <= MAX_ROUND
      modifies store, store.base
      ensures Valid(seed) && Extends(old(store.base.contents), store.base.contents)
      ensures ok ==> upTo in store.base.contents
      ensures Outcome(store.base.contents, store.last, ok)
           == AbsorbAll(scheme, old(store.base.contents), old(store.last), streams, upTo)
    {
      ghost var target := AbsorbAll(scheme, store.base.contents, store.last, streams, upTo);
      assert streams[0..] == streams;
      for k := 0 to |streams|
        invariant Valid(seed)
        invariant store.last.round + TotalLength(streams[k..]) <= MAX_ROUND
        invariant Extends(old(store.base.contents), store.base.contents)
        invariant target == AbsorbAll(scheme, store.base.contents, store.last, streams[k..], upTo)
      {
        assert streams[k..][0] == streams[k] && streams[k..][1..] == streams[k + 1..];
        AbsorbLength(scheme, store.base.contents, store.last, streams[k], upTo);
        ok := TryNode(upTo, streams[k], seed);
        if ok {
          return true;
        }
      }
      return false;
    }
  }

  lemma {:induction false} AbsorbLength(s: Scheme, db: Ledger, last: Beacon, stream: seq<Beacon>, upTo: Round)
    requires last.round + |stream| <= MAX_ROUND
    ensures Absorb(s, db, last, stream, upTo).last.round <= last.round + |stream|
    decreases |stream|
  {
    if stream != [] && VerifyBeacon(s, stream[0]) && Accepts(last, stream[0]) && stream[0].round != upTo {
      AbsorbLength(s, db[stream[0].round := stream[0]], stream[0], stream[1..], upTo);
    }
  }

  /** End to end: a syncer that follows an honest peer whose chain reaches `upTo` ends with exactly
      the peer's chain up to that round. */
  method SyncFromPeer(local: Syncer, peer: BoltStore, upTo: Round, ghost end: Beacon, ghost seed: Bytes) returns (done: bool)
    requires UniqueSignatures(local.scheme) && local.Valid(seed) && local.store.base != peer
    requires peer.Valid() && IsChain(peer.contents, end, seed) && Verified(local.scheme, peer.contents)
    requires local.store.last.round < upTo <= end.round < MAX_ROUND
    modifies local.store, local.store.base
    ensures local.Valid(seed) && PeersPrefix(Outcome(local.store.base.contents, local.store.last, done), peer.contents, upTo)
  {
    var last := local.store.last;
    AbsorbHonest(local.scheme, seed, local.store.base.contents, last, peer.contents, end, upTo);
    var answer := ServeChain(peer, last.round + 1, end, seed);
    done := local.TryNode(upTo, answer.value, seed);
  }
}
