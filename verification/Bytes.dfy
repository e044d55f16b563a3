/** Byte strings, their lexicographic order, and the eight-byte big-endian form of a
    round number that keys the beacon database (chain/store.go). */
module Bytes {

  type Byte = x: nat | x < 256

  type Bytes = seq<Byte>

  const TWO64: nat := 0x1_0000_0000_0000_0000
  const MAX_ROUND: nat := 0xFFFF_FFFF_FFFF_FFFF

  /** A Go `uint64`. */
  type Round = r: nat | r < TWO64

  /** `r + 1` in `uint64` arithmetic. */
  function Succ(r: Round): Round {
    if r == MAX_ROUND then 0 else r + 1
  }

  /** `r - 1` in `uint64` arithmetic. */
  function Pred(r: Round): Round {
    if r == 0 then MAX_ROUND else r - 1
  }

  /** `bytes.Compare(a, b) < 0`. */
  predicate Less(a: Bytes, b: Bytes) {
    b != [] && (a == [] || a[0] < b[0] || (a[0] == b[0] && Less(a[1..], b[1..])))
  }

  predicate LessEq(a: Bytes, b: Bytes) {
    a == b || Less(a, b)
  }

  lemma {:induction false} LessIrreflexive(a: Bytes)
    ensures !Less(a, a)
  {
    if a != [] {
      LessIrreflexive(a[1..]);
    }
  }

  lemma {:induction false} LessTransitive(a: Bytes, b: Bytes, c: Bytes)
    requires Less(a, b) && Less(b, c)
    ensures Less(a, c)
  {
    if a != [] && a[0] == b[0] && b[0] == c[0] {
      LessTransitive(a[1..], b[1..], c[1..]);
    }
  }

  lemma {:induction false} LessTotal(a: Bytes, b: Bytes)
    ensures Less(a, b) || a == b || Less(b, a)
  {
    if a != [] && b != [] {
      LessTotal(a[1..], b[1..]);
      if a[1..] == b[1..] && a[0] == b[0] {
        assert a == [a[0]] + a[1..];
        assert b == [b[0]] + b[1..];
      }
    }
  }

  /** The low `k` bytes of `n`, most significant first. */
  function BigEndian(n: nat, k: nat): (s: Bytes)
    ensures |s| == k
  {
    if k == 0 then [] else BigEndian(n / 256, k - 1) + [n % 256]
  }

  function FromBigEndian(s: Bytes): nat {
    if s == [] then 0 else 256 * FromBigEndian(s[..|s| - 1]) + s[|s| - 1]
  }

  function Pow256(k: nat): nat {
    if k == 0 then 1 else 256 * Pow256(k - 1)
  }

  /** `chain.RoundToBytes`. */
  function RoundToBytes(r: Round): (s: Bytes)
    ensures |s| == 8
  {
    BigEndian(r, 8)
  }

  lemma {:induction false} FromBigEndianInverts(n: nat, k: nat)
    requires n < Pow256(k)
    ensures FromBigEndian(BigEndian(n, k)) == n
  {
    if k != 0 {
      FromBigEndianInverts(n / 256, k - 1);
      var s := BigEndian(n, k);
      assert s[..|s| - 1] == BigEndian(n / 256, k - 1);
    }
  }

  lemma RoundBound(r: Round)
    ensures r < Pow256(8)
  {
    assert Pow256(4) == 0x1_0000_0000;
    assert Pow256(8) == 256 * 256 * 256 * 256 * Pow256(4);
  }

  /** Distinct rounds have distinct database keys. */
  lemma RoundToBytesInjective(r: Round, s: Round)
    requires RoundToBytes(r) == RoundToBytes(s)
    ensures r == s
  {
    RoundBound(r);
    RoundBound(s);
    FromBigEndianInverts(r, 8);
    FromBigEndianInverts(s, 8);
  }

  /** On strings of one length, the order is decided by the longest proper prefixes first. */
  lemma {:induction false} LessSnoc(a: Bytes, x: Byte, b: Bytes, y: Byte)
    requires |a| == |b|
    ensures Less(a + [x], b + [y]) <==> Less(a, b) || (a == b && x < y)
  {
    if a == [] {
      assert [x][1..] == [] && [y][1..] == [];
    } else {
      assert (a + [x])[1..] == a[1..] + [x];
      assert (b + [y])[1..] == b[1..] + [y];
      LessSnoc(a[1..], x, b[1..], y);
      assert a == [a[0]] + a[1..] && b == [b[0]] + b[1..];
    }
  }

  lemma {:induction false} BigEndianOrder(m: nat, n: nat, k: nat)
    requires m < Pow256(k) && n < Pow256(k)
    ensures Less(BigEndian(m, k), BigEndian(n, k)) <==> m < n
  {
    if k == 0 {
    } else {
      BigEndianOrder(m / 256, n / 256, k - 1);
      LessSnoc(BigEndian(m / 256, k - 1), m % 256, BigEndian(n / 256, k - 1), n % 256);
      FromBigEndianInverts(m / 256, k - 1);
      FromBigEndianInverts(n / 256, k - 1);
    }
  }

  /** The database's byte order on keys is the numeric order on rounds. */
  lemma RoundOrder(r: Round, s: Round)
    ensures Less(RoundToBytes(r), RoundToBytes(s)) <==> r < s
  {
    RoundBound(r);
    RoundBound(s);
    BigEndianOrder(r, s, 8);
  }

  /** A fixed-length suffix can be split off a concatenation. */
  lemma SuffixSplit(a: Bytes, x: Bytes, b: Bytes, y: Bytes)
    requires |x| == |y| && a + x == b + y
    ensures a == b && x == y
  {
    assert |a| == |b|;
    assert a == (a + x)[..|a|] == (b + y)[..|b|];
    assert x == (a + x)[|a|..] == (b + y)[|b|..];
  }

  /** A fixed-length prefix can be split off a concatenation. */
  lemma PrefixSplit(x: Bytes, a: Bytes, y: Bytes, b: Bytes)
    requires |x| == |y| && x + a == y + b
    ensures a == b && x == y
  {
    assert x == (x + a)[..|x|] == (y + b)[..|y|];
    assert a == (x + a)[|x|..] == (y + b)[|y|..];
  }
}
