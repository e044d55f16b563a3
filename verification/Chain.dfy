/** Beacons, the message each one signs, and the signature scheme they rely on
    (chain/beacon.go, chain/store.go). */
module Chain {
  import opened Bytes

  datatype Beacon = Beacon(prev: Bytes, round: Round, sig: Bytes)

  /** The cryptography, kept symbolic: the hash, the verification of a full and of a partial
      signature under one distributed key, and the share index a partial signature carries. */
  datatype Scheme = Scheme(
    digest: Bytes -> Bytes,
    valid: (Bytes, Bytes) -> bool,
    partialValid: (Bytes, Bytes) -> bool,
    indexOf: Bytes -> nat)

  /** A key and a message admit at most one valid signature. */
  ghost predicate UniqueSignatures(s: Scheme) {
    forall m: Bytes, a: Bytes, b: Bytes :: s.valid(m, a) && s.valid(m, b) ==> a == b
  }

  ghost predicate CollisionFree(s: Scheme) {
    forall a: Bytes, b: Bytes :: s.digest(a) == s.digest(b) ==> a == b
  }

  /** `chain.Message`: the hash of the previous signature followed by the round. */
  function Message(s: Scheme, round: Round, prev: Bytes): Bytes {
    s.digest(prev + RoundToBytes(round))
  }

  predicate VerifyBeacon(s: Scheme, b: Beacon) {
    s.valid(Message(s, b.round, b.prev), b.sig)
  }

  function GenesisBeacon(seed: Bytes): Beacon {
    Beacon([], 0, seed)
  }

  /** A signed message determines the round and the previous signature it was made for. */
  lemma MessageInjective(s: Scheme, r: Round, p: Bytes, r': Round, p': Bytes)
    requires CollisionFree(s)
    requires Message(s, r, p) == Message(s, r', p')
    ensures r == r' && p == p'
  {
    assert s.digest(p + RoundToBytes(r)) == s.digest(p' + RoundToBytes(r'));
    SuffixSplit(p, RoundToBytes(r), p', RoundToBytes(r'));
    RoundToBytesInjective(r, r');
  }

  /** The contents of a store, by round. */
  type Ledger = map<Round, Beacon>

  /** The beacon of round `r` names the signature of the one before it. */
  predicate Linked(db: Ledger, r: Round) {
    0 < r && r in db ==> r - 1 in db && db[r].prev == db[r - 1].sig
  }

  /** `db` holds exactly the rounds from 0 to `last.round`, starting with the genesis beacon of
      `seed`, and each beacon names the signature of the one before it. */
  ghost predicate IsChain(db: Ledger, last: Beacon, seed: Bytes) {
    && (forall r: Round :: r in db <==> r <= last.round)
    && (forall r: Round :: r in db ==> db[r].round == r)
    && db[0] == GenesisBeacon(seed)
    && (forall r: Round {:trigger Linked(db, r)} :: Linked(db, r))
    && db[last.round] == last
  }

  ghost predicate Verified(s: Scheme, db: Ledger) {
    forall r: Round :: r in db && 0 < r ==> VerifyBeacon(s, db[r])
  }

  /** Two verified chains of one genesis agree on every round both hold. */
  lemma {:induction false} ChainsAgree(s: Scheme, seed: Bytes, a: Ledger, la: Beacon, b: Ledger, lb: Beacon, r: Round)
    requires UniqueSignatures(s)
    requires IsChain(a, la, seed) && Verified(s, a)
    requires IsChain(b, lb, seed) && Verified(s, b)
    requires r in a && r in b
    ensures a[r] == b[r]
    decreases r
  {
    if r != 0 {
      assert Linked(a, r) && Linked(b, r);
      ChainsAgree(s, seed, a, la, b, lb, r - 1);
      assert a[r].prev == a[r - 1].sig == b[r - 1].sig == b[r].prev;
      assert VerifyBeacon(s, a[r]) && VerifyBeacon(s, b[r]);
    }
  }

  /** `b` holds everything that `a` holds. */
  ghost predicate Extends(a: Ledger, b: Ledger) {
    forall r: Round :: r in a ==> r in b && b[r] == a[r]
  }

  /** `a` is the part of `b` up to `a`'s own last round. */
  ghost predicate PrefixOf(a: Ledger, b: Ledger) {
    && Extends(a, b)
    && (forall r: Round, s: Round :: r in a && s in b && s !in a ==> r < s)
  }

  lemma ChainsArePrefixes(s: Scheme, seed: Bytes, a: Ledger, la: Beacon, b: Ledger, lb: Beacon)
    requires UniqueSignatures(s)
    requires IsChain(a, la, seed) && Verified(s, a)
    requires IsChain(b, lb, seed) && Verified(s, b)
    ensures la.round <= lb.round ==> PrefixOf(a, b)
    ensures lb.round <= la.round ==> PrefixOf(b, a)
  {
    forall r: Round | r in a && r in b ensures a[r] == b[r] {
      ChainsAgree(s, seed, a, la, b, lb, r);
    }
  }
}
