/** Groups: the key-ordered node list, the hash and genesis seed, and the wire form (key/group.go,
    key/node.go, key/keys.go). */
module Group {
  import opened Bytes
  import opened Collections
  import opened RoundTime

  /** A public key is its canonical marshalled form. */
  datatype Identity = Identity(addr: string, key: Bytes, tls: bool, sig: Bytes)

  datatype GroupNode = GroupNode(id: Identity, index: nat)

  /** Periods are in seconds; `coeffs` is the distributed public key, if any. */
  datatype Info = Info(
    threshold: int, period: int, catchup: int, nodes: seq<GroupNode>, genesisTime: int,
    seed: Option<Bytes>, transitionTime: int, coeffs: Option<seq<Bytes>>)

  function MinimumT(n: nat): nat {
    n / 2 + 1
  }

  // ---- Key order ------------------------------------------------------------------------

  predicate DistinctKeys(ids: seq<Identity>) {
    forall i, j :: 0 <= i < j < |ids| ==> ids[i].key != ids[j].key
  }

  predicate KeySorted(ids: seq<Identity>) {
    forall i, j :: 0 <= i < j < |ids| ==> LessEq(ids[i].key, ids[j].key)
  }

  function Numbered(ids: seq<Identity>): seq<GroupNode> {
    seq(|ids|, i requires 0 <= i < |ids| => GroupNode(ids[i], i))
  }

  /** `nodes` are the identities of `list` in key order, indexed by position. */
  ghost predicate InKeyOrder(list: seq<Identity>, nodes: seq<GroupNode>) {
    exists ids :: IsSortOf(list, ids) && nodes == Numbered(ids)
  }

  ghost predicate IsSortOf(list: seq<Identity>, ids: seq<Identity>) {
    KeySorted(ids) && multiset(ids) == multiset(list)
  }

  function InsertByKey(s: seq<Identity>, x: Identity): seq<Identity> {
    if s == [] then [x] else if Less(x.key, s[0].key) then [x] + s else [s[0]] + InsertByKey(s[1..], x)
  }

  lemma {:induction false} InsertContents(s: seq<Identity>, x: Identity)
    ensures multiset(InsertByKey(s, x)) == multiset(s) + multiset{x}
    decreases |s|
  {
    if s != [] {
      assert s == [s[0]] + s[1..];
      InsertContents(s[1..], x);
    }
  }

  lemma LessEqTransitive(a: Bytes, b: Bytes, c: Bytes)
    requires LessEq(a, b) && LessEq(b, c)
    ensures LessEq(a, c)
  {
    if a != b && b != c {
      LessTransitive(a, b, c);
    }
  }

  lemma {:induction false} InsertSorted(s: seq<Identity>, x: Identity)
    requires KeySorted(s)
    ensures KeySorted(InsertByKey(s, x))
    decreases |s|
  {
    if s != [] {
      if Less(x.key, s[0].key) {
        forall i | 0 <= i < |s| ensures LessEq(x.key, s[i].key) {
          LessEqTransitive(x.key, s[0].key, s[i].key);
        }
      } else {
        LessTotal(x.key, s[0].key);
        InsertSorted(s[1..], x);
        var t := InsertByKey(s[1..], x);
        InsertContents(s[1..], x);
        forall i | 0 <= i < |t| ensures LessEq(s[0].key, t[i].key) {
          assert t[i] in multiset(t);
          assert t[i] == x || t[i] in s[1..];
        }
      }
    }
  }

  /** `copyAndSort`. */
  method CopyAndSort(list: seq<Identity>) returns (nodes: seq<GroupNode>)
    ensures InKeyOrder(list, nodes)
  {
    var ids: seq<Identity> := [];
    for i := 0 to |list|
      invariant IsSortOf(list[..i], ids)
    {
      InsertContents(ids, list[i]);
      InsertSorted(ids, list[i]);
      PrefixContents(list, i);
      ids := InsertByKey(ids, list[i]);
    }
    assert list[..|list|] == list;
    nodes := [];
    for i := 0 to |ids|
      invariant nodes == Numbered(ids)[..i]
    {
      nodes := nodes + [GroupNode(ids[i], i)];
    }
    assert nodes == Numbered(ids);
  }

  lemma FirstIsLeast(s: seq<Identity>, x: Identity)
    requires KeySorted(s) && s != [] && x in s
    ensures LessEq(s[0].key, x.key)
  {
    var i :| 0 <= i < |s| && s[i] == x;
  }

  lemma KeysIdentify(list: seq<Identity>, x: Identity, y: Identity)
    requires DistinctKeys(list) && x in list && y in list && x.key == y.key
    ensures x == y
  {
    var i :| 0 <= i < |list| && list[i] == x;
    var j :| 0 <= j < |list| && list[j] == y;
  }

  lemma LeastAgree(a: seq<Identity>, b: seq<Identity>)
    requires KeySorted(a) && KeySorted(b) && DistinctKeys(a) && multiset(a) == multiset(b) && a != []
    ensures b != [] && a[0] == b[0]
  {
    assert |b| > 0 by {
      assert a[0] in multiset(b);
    }
    assert b[0] in multiset(a) && a[0] in multiset(b);
    FirstIsLeast(a, b[0]);
    FirstIsLeast(b, a[0]);
    if a[0].key != b[0].key {
      LessTransitive(a[0].key, b[0].key, a[0].key);
      LessIrreflexive(a[0].key);
    }
    KeysIdentify(a, a[0], b[0]);
  }

  /** Two key-sorted arrangements of identities with distinct keys are the same. */
  lemma {:induction false} SortUnique(a: seq<Identity>, b: seq<Identity>)
    requires KeySorted(a) && KeySorted(b) && DistinctKeys(a) && multiset(a) == multiset(b)
    ensures a == b
    decreases |a|
  {
    if a == [] {
      EmptyContents(b);
    } else {
      LeastAgree(a, b);
      TailContents(a);
      TailContents(b);
      SortUnique(a[1..], b[1..]);
      SameHeadAndTail(a, b);
    }
  }

  lemma DistinctUnderPermutation(a: seq<Identity>, b: seq<Identity>)
    requires DistinctKeys(a) && multiset(a) == multiset(b)
    ensures DistinctKeys(b)
  {
    forall i, j | 0 <= i < j < |b| ensures b[i].key != b[j].key {
      if b[i].key == b[j].key {
        assert b[i] in multiset(b) && b[j] in multiset(b);
        KeysIdentify(a, b[i], b[j]);
        TwiceCounted(b, i, j);
        OnceCounted(a, b[i]);
      }
    }
  }

  /** Main result: the node list depends only on which identities joined, not on their order. */
  lemma NodesUnique(l: seq<Identity>, m: seq<Identity>, a: seq<GroupNode>, b: seq<GroupNode>)
    requires DistinctKeys(l) && multiset(l) == multiset(m)
    requires InKeyOrder(l, a) && InKeyOrder(m, b)
    ensures a == b
  {
    var x :| IsSortOf(l, x) && a == Numbered(x);
    var y :| IsSortOf(m, y) && b == Numbered(y);
    DistinctUnderPermutation(l, x);
    SortUnique(x, y);
  }

  // ---- Hash and seed --------------------------------------------------------------------

  function LittleEndian(n: nat, k: nat): Bytes {
    if k == 0 then [] else [n % 256] + LittleEndian(n / 256, k - 1)
  }

  function Concat(parts: seq<Bytes>): Bytes {
    if parts == [] then [] else parts[0] + Concat(parts[1..])
  }

  function NodeHash(h: Bytes -> Bytes, n: GroupNode): Bytes {
    h(NodeBytes(n))
  }

  /** What is hashed of a node: its index and its key. */
  function NodeBytes(n: GroupNode): Bytes {
    LittleEndian(n.index, 4) + n.id.key
  }

  predicate IndexSorted(nodes: seq<GroupNode>) {
    forall i, j :: 0 <= i < j < |nodes| ==> nodes[i].index < nodes[j].index
  }

  predicate DistinctIndices(nodes: seq<GroupNode>) {
    forall i, j :: 0 <= i < j < |nodes| ==> nodes[i].index != nodes[j].index
  }

  function InsertNode(s: seq<GroupNode>, x: GroupNode): seq<GroupNode> {
    if s == [] then [x] else if x.index < s[0].index then [x] + s else [s[0]] + InsertNode(s[1..], x)
  }

  lemma {:induction false} InsertNodeContents(s: seq<GroupNode>, x: GroupNode)
    ensures multiset(InsertNode(s, x)) == multiset(s) + multiset{x}
    decreases |s|
  {
    if s != [] {
      assert s == [s[0]] + s[1..];
      InsertNodeContents(s[1..], x);
    }
  }

  lemma {:induction false} InsertNodeSorted(s: seq<GroupNode>, x: GroupNode)
    requires IndexSorted(s) && forall y :: y in s ==> y.index != x.index
    ensures IndexSorted(InsertNode(s, x))
    decreases |s|
  {
    if s != [] && x.index > s[0].index {
      InsertNodeSorted(s[1..], x);
      var t := InsertNode(s[1..], x);
      InsertNodeContents(s[1..], x);
      forall i | 0 <= i < |t| ensures s[0].index < t[i].index {
        assert t[i] in multiset(t);
        assert t[i] == x || t[i] in s[1..];
      }
    }
  }

  lemma HeadsAgree(a: seq<GroupNode>, b: seq<GroupNode>)
    requires IndexSorted(a) && IndexSorted(b) && multiset(a) == multiset(b) && a != []
    ensures b != [] && a[0] == b[0]
  {
    assert a[0] in multiset(b);
    assert b[0] in multiset(a);
    var i :| 0 <= i < |b| && b[i] == a[0];
    var j :| 0 <= j < |a| && a[j] == b[0];
  }

  /** Distinct indices make the index order, and so the hash, unique. */
  lemma {:induction false} IndexSortUnique(a: seq<GroupNode>, b: seq<GroupNode>)
    requires IndexSorted(a) && IndexSorted(b) && multiset(a) == multiset(b)
    ensures a == b
    decreases |a|
  {
    if a == [] {
      EmptyContents(b);
    } else {
      HeadsAgree(a, b);
      TailContents(a);
      TailContents(b);
      IndexSortUnique(a[1..], b[1..]);
      SameHeadAndTail(a, b);
    }
  }

  /** The nodes in index order. */
  function SortedNodes(nodes: seq<GroupNode>): seq<GroupNode> {
    if nodes == [] then []
    else InsertNode(SortedNodes(nodes[..|nodes| - 1]), nodes[|nodes| - 1])
  }

  lemma {:induction false} SortedNodesSound(nodes: seq<GroupNode>)
    requires DistinctIndices(nodes)
    ensures IndexSorted(SortedNodes(nodes)) && multiset(SortedNodes(nodes)) == multiset(nodes)
    decreases |nodes|
  {
    if nodes != [] {
      var init, last := nodes[..|nodes| - 1], nodes[|nodes| - 1];
      SortedNodesSound(init);
      assert forall y :: y in SortedNodes(init) ==> y.index != last.index by {
        SameMembers(SortedNodes(init), init);
      }
      InsertNodeContents(SortedNodes(init), last);
      InsertNodeSorted(SortedNodes(init), last);
      assert nodes == init + [last];
    }
  }

  /** Whatever order distinct nodes are given in, sorting them yields one list. */
  lemma SortedNodesUnique(a: seq<GroupNode>, b: seq<GroupNode>)
    requires DistinctIndices(a) && DistinctIndices(b) && multiset(a) == multiset(b)
    ensures SortedNodes(a) == SortedNodes(b)
  {
    SortedNodesSound(a);
    SortedNodesSound(b);
    IndexSortUnique(SortedNodes(a), SortedNodes(b));
  }

  lemma SortedNodesFixed(nodes: seq<GroupNode>)
    requires IndexSorted(nodes)
    ensures SortedNodes(nodes) == nodes
  {
    SortedNodesSound(nodes);
    IndexSortUnique(SortedNodes(nodes), nodes);
  }

  function NodeHashes(h: Bytes -> Bytes, nodes: seq<GroupNode>): Bytes {
    if nodes == [] then [] else NodeHash(h, nodes[0]) + NodeHashes(h, nodes[1..])
  }

  /** `Group.Hash`: over the nodes in index order, whatever order they are held in. */
  function Hash(h: Bytes -> Bytes, g: Info): Bytes {
    h(HashInput(h, g))
  }

  function HashInput(h: Bytes -> Bytes, g: Info): Bytes {
    var p := Parts(h, g);
    p.0 + p.1 + p.2 + p.3 + p.4
  }

  /** The nodes, the threshold, the genesis time, the transition time and the key, as they are hashed. */
  function Parts(h: Bytes -> Bytes, g: Info): (Bytes, Bytes, Bytes, Bytes, Bytes) {
    (NodeHashes(h, SortedNodes(g.nodes)),
     LittleEndian(WrapU32(g.threshold), 4),
     LittleEndian(WrapU64(g.genesisTime), 8),
     if g.transitionTime != 0 then LittleEndian(WrapU64(g.transitionTime), 8) else [],
     if g.coeffs.Some? then h(Concat(g.coeffs.value)) else [])
  }

  /** `GetGenesisSeed`: the seed given, or else the hash. */
  function Seed(h: Bytes -> Bytes, g: Info): Bytes {
    if g.seed.Some? then g.seed.value else Hash(h, g)
  }

  /** Main result: hash and seed do not depend on the order the nodes are held in. */
  lemma HashIgnoresOrder(h: Bytes -> Bytes, g: Info, nodes: seq<GroupNode>)
    requires DistinctIndices(g.nodes) && DistinctIndices(nodes) && multiset(nodes) == multiset(g.nodes)
    ensures Hash(h, g.(nodes := nodes)) == Hash(h, g) && Seed(h, g.(nodes := nodes)) == Seed(h, g)
  {
    SortedNodesUnique(g.nodes, nodes);
  }

  // ---- What the hash commits to ---------------------------------------------------------

  const HASH_SIZE: nat := 32

  /** `x` is hashed on the way to the hash of `g`. */
  ghost predicate Feeds(h: Bytes -> Bytes, g: Info, x: Bytes) {
    || x == HashInput(h, g)
    || (exists i :: 0 <= i < |g.nodes| && x == NodeBytes(g.nodes[i]))
    || (g.coeffs.Some? && x == Concat(g.coeffs.value))
  }

  /** The hash function does not collide between what is hashed of the one group and of the other. */
  ghost predicate CollisionFree(h: Bytes -> Bytes, a: Info, b: Info) {
    forall x, y :: Feeds(h, a, x) && Feeds(h, b, y) && h(x) == h(y) ==> x == y
  }

  /** The fields have their Go types, and the indices are distinct. */
  predicate Typed(g: Info) {
    && DistinctIndices(g.nodes) && (forall i :: 0 <= i < |g.nodes| ==> g.nodes[i].index < TWO32)
    && 0 <= g.threshold < TWO32
    && -TWO63 <= g.genesisTime < TWO63 && -TWO63 <= g.transitionTime < TWO63
  }

  lemma {:induction false} LittleEndianLength(n: nat, k: nat)
    ensures |LittleEndian(n, k)| == k
  {
    if k != 0 {
      LittleEndianLength(n / 256, k - 1);
    }
  }

  lemma {:induction false} LittleEndianInjective(m: nat, n: nat, k: nat)
    requires m < Pow256(k) && n < Pow256(k) && LittleEndian(m, k) == LittleEndian(n, k)
    ensures m == n
  {
    if k != 0 {
      PrefixSplit([m % 256], LittleEndian(m / 256, k - 1), [n % 256], LittleEndian(n / 256, k - 1));
      LittleEndianInjective(m / 256, n / 256, k - 1);
    }
  }

  lemma FourBytes(m: nat, n: nat)
    requires m < TWO32 && n < TWO32 && LittleEndian(m, 4) == LittleEndian(n, 4)
    ensures m == n
  {
    assert Pow256(4) == TWO32;
    LittleEndianInjective(m, n, 4);
  }

  lemma EightBytes(x: int, y: int)
    requires -TWO63 <= x < TWO63 && -TWO63 <= y < TWO63
    requires LittleEndian(WrapU64(x), 8) == LittleEndian(WrapU64(y), 8)
    ensures x == y
  {
    RoundBound(WrapU64(x));
    RoundBound(WrapU64(y));
    LittleEndianInjective(WrapU64(x), WrapU64(y), 8);
    Int64RoundTrip(x);
    Int64RoundTrip(y);
  }

  lemma {:induction false} NodeHashesLength(h: Bytes -> Bytes, nodes: seq<GroupNode>)
    requires forall x :: |h(x)| == HASH_SIZE
    ensures |NodeHashes(h, nodes)| == HASH_SIZE * |nodes|
    decreases |nodes|
  {
    if nodes != [] {
      NodeHashesLength(h, nodes[1..]);
    }
  }

  lemma {:induction false} NodeHashesInjective(h: Bytes -> Bytes, a: seq<GroupNode>, b: seq<GroupNode>, i: nat)
    requires forall x :: |h(x)| == HASH_SIZE
    requires |a| == |b| && NodeHashes(h, a) == NodeHashes(h, b) && i < |a|
    ensures NodeHash(h, a[i]) == NodeHash(h, b[i])
    decreases |a|
  {
    PrefixSplit(NodeHash(h, a[0]), NodeHashes(h, a[1..]), NodeHash(h, b[0]), NodeHashes(h, b[1..]));
    if i > 0 {
      NodeHashesInjective(h, a[1..], b[1..], i - 1);
    }
  }

  lemma NodeBytesInjective(a: GroupNode, b: GroupNode)
    requires a.index < TWO32 && b.index < TWO32 && NodeBytes(a) == NodeBytes(b)
    ensures a.index == b.index && a.id.key == b.id.key
  {
    LittleEndianLength(a.index, 4);
    LittleEndianLength(b.index, 4);
    PrefixSplit(LittleEndian(a.index, 4), a.id.key, LittleEndian(b.index, 4), b.id.key);
    FourBytes(a.index, b.index);
  }

  /** The parts of what is hashed have the same lengths on both sides, and so are the same. */
  lemma PartsAgree(h: Bytes -> Bytes, a: Info, b: Info)
    requires forall x :: |h(x)| == HASH_SIZE
    requires Typed(a) && Typed(b) && (|a.nodes| == |b.nodes| || a.coeffs.Some? == b.coeffs.Some?)
    requires HashInput(h, a) == HashInput(h, b)
    ensures |a.nodes| == |b.nodes| && a.coeffs.Some? == b.coeffs.Some?
    ensures NodeHashes(h, SortedNodes(a.nodes)) == NodeHashes(h, SortedNodes(b.nodes))
    ensures a.threshold == b.threshold && a.genesisTime == b.genesisTime && a.transitionTime == b.transitionTime
    ensures a.coeffs.Some? ==> h(Concat(a.coeffs.value)) == h(Concat(b.coeffs.value))
  {
    var x, y := Parts(h, a), Parts(h, b);
    PartLengths(h, a);
    PartLengths(h, b);
    SizesAgree(|a.nodes|, |x.3|, |x.4|, |b.nodes|, |y.3|, |y.4|);
    SplitParts(x, y);
    ThresholdsAgree(a.threshold, b.threshold);
    EightBytes(a.genesisTime, b.genesisTime);
    if a.transitionTime != 0 {
      EightBytes(a.transitionTime, b.transitionTime);
    }
  }

  lemma ThresholdsAgree(x: int, y: int)
    requires 0 <= x < TWO32 && 0 <= y < TWO32
    requires LittleEndian(WrapU32(x), 4) == LittleEndian(WrapU32(y), 4)
    ensures x == y
  {
    FourBytes(WrapU32(x), WrapU32(y));
  }

  lemma SizesAgree(n: nat, t: nat, k: nat, n': nat, t': nat, k': nat)
    requires t in {0, 8} && t' in {0, 8} && k in {0, HASH_SIZE} && k' in {0, HASH_SIZE}
    requires n == n' || k == k'
    requires HASH_SIZE * n + 12 + t + k == HASH_SIZE * n' + 12 + t' + k'
    ensures n == n' && t == t' && k == k'
  {
  }

  lemma SplitParts(x: (Bytes, Bytes, Bytes, Bytes, Bytes), y: (Bytes, Bytes, Bytes, Bytes, Bytes))
    requires |x.1| == |y.1| && |x.2| == |y.2| && |x.3| == |y.3| && |x.4| == |y.4|
    requires x.0 + x.1 + x.2 + x.3 + x.4 == y.0 + y.1 + y.2 + y.3 + y.4
    ensures x == y
  {
    SuffixSplit(x.0 + x.1 + x.2 + x.3, x.4, y.0 + y.1 + y.2 + y.3, y.4);
    SuffixSplit(x.0 + x.1 + x.2, x.3, y.0 + y.1 + y.2, y.3);
    SuffixSplit(x.0 + x.1, x.2, y.0 + y.1, y.2);
    SuffixSplit(x.0, x.1, y.0, y.1);
  }

  lemma PartLengths(h: Bytes -> Bytes, g: Info)
    requires (forall x :: |h(x)| == HASH_SIZE) && DistinctIndices(g.nodes)
    ensures var p := Parts(h, g);
            && |p.0| == HASH_SIZE * |g.nodes|
            && |p.1| == 4 && |p.2| == 8 && |p.3| == (if g.transitionTime != 0 then 8 else 0)
            && |p.4| == (if g.coeffs.Some? then HASH_SIZE else 0)
            && |HashInput(h, g)| == HASH_SIZE * |g.nodes| + 12 + |p.3| + |p.4|
  {
    SortedLength(g.nodes);
    NodeHashesLength(h, SortedNodes(g.nodes));
    LittleEndianLength(WrapU32(g.threshold), 4);
    LittleEndianLength(WrapU64(g.genesisTime), 8);
    LittleEndianLength(WrapU64(g.transitionTime), 8);
  }

  lemma SortedLength(nodes: seq<GroupNode>)
    requires DistinctIndices(nodes)
    ensures |SortedNodes(nodes)| == |nodes|
    ensures forall n :: n in SortedNodes(nodes) ==> n in nodes
  {
    SortedNodesSound(nodes);
    assert |SortedNodes(nodes)| == |multiset(SortedNodes(nodes))| == |multiset(nodes)|;
    SameMembers(SortedNodes(nodes), nodes);
  }

  /** Main result: the hash commits to the indices and keys of the nodes, the threshold, both times and the
      distributed key. Two groups that agree on one of their size and whether there is a key, and whose
      hashes are the same, agree on all of them, unless the hash function collides on what is hashed. */
  lemma HashDetermines(h: Bytes -> Bytes, a: Info, b: Info)
    requires forall x :: |h(x)| == HASH_SIZE
    requires CollisionFree(h, a, b)
    requires Typed(a) && Typed(b) && (|a.nodes| == |b.nodes| || a.coeffs.Some? == b.coeffs.Some?)
    requires Hash(h, a) == Hash(h, b)
    ensures var s, t := SortedNodes(a.nodes), SortedNodes(b.nodes);
            |s| == |t| && forall i :: 0 <= i < |s| ==> s[i].index == t[i].index && s[i].id.key == t[i].id.key
    ensures a.threshold == b.threshold && a.genesisTime == b.genesisTime && a.transitionTime == b.transitionTime
    ensures a.coeffs.Some? == b.coeffs.Some?
    ensures a.coeffs.Some? ==> Concat(a.coeffs.value) == Concat(b.coeffs.value)
  {
    assert Feeds(h, a, HashInput(h, a)) && Feeds(h, b, HashInput(h, b));
    PartsAgree(h, a, b);
    if a.coeffs.Some? {
      assert Feeds(h, a, Concat(a.coeffs.value)) && Feeds(h, b, Concat(b.coeffs.value));
    }
    var s, t := SortedNodes(a.nodes), SortedNodes(b.nodes);
    SortedLength(a.nodes);
    SortedLength(b.nodes);
    forall i | 0 <= i < |s| ensures s[i].index == t[i].index && s[i].id.key == t[i].id.key {
      NodeHashesInjective(h, s, t, i);
      NodesAgree(h, a, b, s[i], t[i]);
    }
  }

  lemma NodesAgree(h: Bytes -> Bytes, a: Info, b: Info, m: GroupNode, n: GroupNode)
    requires CollisionFree(h, a, b) && Typed(a) && Typed(b) && m in a.nodes && n in b.nodes
    requires NodeHash(h, m) == NodeHash(h, n)
    ensures m.index == n.index && m.id.key == n.id.key
  {
    assert Feeds(h, a, NodeBytes(m)) && Feeds(h, b, NodeBytes(n));
    NodeBytesInjective(m, n);
  }

  /** The protobuf packet. All numbers are unsigned there. */
  datatype Wire = Wire(
    nodes: seq<GroupNode>, period: nat, catchup: nat, threshold: nat, genesisTime: nat, transitionTime: nat,
    seed: Option<Bytes>, distKey: seq<Bytes>)

  /** `ToProto`: the nodes as they are held, with the seed written out. */
  function ToProto(h: Bytes -> Bytes, g: Info): Wire {
    Wire(g.nodes, WrapU32(g.period), WrapU32(g.catchup), WrapU32(g.threshold), WrapU64(g.genesisTime),
         WrapU64(g.transitionTime), Some(Seed(h, g)), if g.coeffs.Some? then g.coeffs.value else [])
  }

  /** The group object: hashing sorts its nodes in place, and the seed is computed at most once. */
  class GroupObject {
    const h: Bytes -> Bytes
    var info: Info

    constructor (h: Bytes -> Bytes, info: Info)
      ensures this.h == h && this.info == info
    {
      this.h := h;
      this.info := info;
    }

    method SortNodes()
      requires DistinctIndices(info.nodes)
      modifies this
      ensures info == old(info).(nodes := SortedNodes(old(info.nodes))) && IndexSorted(info.nodes)
    {
      SortedNodesSound(info.nodes);
      var out: seq<GroupNode> := [];
      for i := 0 to |info.nodes|
        invariant info == old(info)
        invariant out == SortedNodes(info.nodes[..i])
      {
        assert info.nodes[..i + 1][..i] == info.nodes[..i];
        out := InsertNode(out, info.nodes[i]);
      }
      assert info.nodes[..|info.nodes|] == info.nodes;
      info := info.(nodes := out);
    }

    method HashGroup() returns (r: Bytes)
      requires DistinctIndices(info.nodes)
      modifies this
      ensures r == Hash(h, old(info))
      ensures info == old(info).(nodes := SortedNodes(old(info.nodes))) && IndexSorted(info.nodes)
    {
      SortNodes();
      var body := HashNodes();
      body := body + LittleEndian(WrapU32(info.threshold), 4) + LittleEndian(WrapU64(info.genesisTime), 8);
      body := body + (if info.transitionTime != 0 then LittleEndian(WrapU64(info.transitionTime), 8) else []);
      body := body + (if info.coeffs.Some? then h(Concat(info.coeffs.value)) else []);
      r := h(body);
    }

    /** The loop over the nodes. */
    method HashNodes() returns (body: Bytes)
      ensures body == NodeHashes(h, info.nodes)
    {
      body := [];
      for i := 0 to |info.nodes|
        invariant body + NodeHashes(h, info.nodes[i..]) == NodeHashes(h, info.nodes)
      {
        assert info.nodes[i..][1..] == info.nodes[i + 1..];
        body := body + NodeHash(h, info.nodes[i]);
      }
    }

    /** The seed is the one given or the hash, and is remembered; computing it sorts the nodes. */
    method GetGenesisSeed() returns (r: Bytes)
      requires DistinctIndices(info.nodes)
      modifies this
      ensures r == Seed(h, old(info))
      ensures info == if old(info.seed).Some? then old(info)
                      else old(info).(nodes := SortedNodes(old(info.nodes)), seed := Some(r))
    {
      if info.seed.Some? {
        return info.seed.value;
      }
      r := HashGroup();
      info := info.(seed := Some(r));
    }

    /** `ToProto` copies the nodes before the seed sorts them, so the packet keeps the old order. */
    method Encode() returns (w: Wire)
      requires DistinctIndices(info.nodes)
      modifies this
      ensures w == ToProto(h, old(info))
      ensures Hash(h, info) == Hash(h, old(info)) && Seed(h, info) == Seed(h, old(info))
    {
      var nodes := info.nodes;
      SortedNodesSound(nodes);
      HashIgnoresOrder(h, info, SortedNodes(nodes));
      ghost var before := info;
      var seed := GetGenesisSeed();
      w := Wire(nodes, WrapU32(info.period), WrapU32(info.catchup), WrapU32(info.threshold), WrapU64(info.genesisTime),
                WrapU64(info.transitionTime), Some(seed), if info.coeffs.Some? then info.coeffs.value else []);
      assert Hash(h, info) == Hash(h, before.(nodes := info.nodes));
    }
  }

  // ---- Wire form ------------------------------------------------------------------------

  /** `GroupFromProto`; `readable` says which nodes and key coefficients decode. */
  function FromProto(w: Wire, readable: GroupNode -> bool, point: Bytes -> bool): Result<Info> {
    if exists i :: 0 <= i < |w.nodes| && !readable(w.nodes[i]) then Err
    else if w.threshold < MinimumT(|w.nodes|) then Err
    else if WrapI64(w.genesisTime) == 0 then Err
    else if w.period == 0 then Err
    else if exists i :: 0 <= i < |w.distKey| && !point(w.distKey[i]) then Err
    else if |w.distKey| > 0 && |w.distKey| != w.threshold then Err
    else Ok(Info(w.threshold, w.period, w.catchup, w.nodes, WrapI64(w.genesisTime), w.seed,
                 WrapI64(w.transitionTime), if |w.distKey| > 0 then Some(w.distKey) else None))
  }

  /** A group whose fields fit the wire types and whose parts decode. */
  ghost predicate Representable(g: Info, readable: GroupNode -> bool, point: Bytes -> bool) {
    && 0 <= g.threshold < TWO32 && 0 <= g.period < TWO32 && 0 <= g.catchup < TWO32
    && -TWO63 <= g.genesisTime < TWO63 && -TWO63 <= g.transitionTime < TWO63
    && (forall i :: 0 <= i < |g.nodes| ==> readable(g.nodes[i]))
    && (g.coeffs.Some? ==> g.coeffs.value != [] && forall i :: 0 <= i < |g.coeffs.value| ==> point(g.coeffs.value[i]))
  }

  lemma Int64RoundTrip(x: int)
    requires -TWO63 <= x < TWO63
    ensures WrapI64(WrapU64(x)) == x
  {
  }

  /** Main result: a representable group survives the wire exactly when it is a valid one, and then
      comes back the same but for the seed, which is now written out. */
  lemma WireRoundTrip(h: Bytes -> Bytes, g: Info, readable: GroupNode -> bool, point: Bytes -> bool)
    requires Representable(g, readable, point)
    ensures var w := ToProto(h, g);
            && w.nodes == g.nodes && w.threshold == g.threshold && w.period == g.period && w.catchup == g.catchup
            && WrapI64(w.genesisTime) == g.genesisTime && WrapI64(w.transitionTime) == g.transitionTime
            && w.seed == Some(Seed(h, g)) && w.distKey == if g.coeffs.Some? then g.coeffs.value else []
    ensures FromProto(ToProto(h, g), readable, point).Ok?
       <==> && MinimumT(|g.nodes|) <= g.threshold && g.genesisTime != 0 && g.period != 0
            && (g.coeffs.Some? ==> |g.coeffs.value| == g.threshold)
    ensures FromProto(ToProto(h, g), readable, point).Ok? ==>
              FromProto(ToProto(h, g), readable, point).value == g.(seed := Some(Seed(h, g)))
  {
    Int64RoundTrip(g.genesisTime);
    Int64RoundTrip(g.transitionTime);
  }

  /** Main result: the wire preserves the hash and the genesis seed, whatever order the sender or the
      receiver holds the nodes in. */
  lemma WirePreservesHash(h: Bytes -> Bytes, g: Info, readable: GroupNode -> bool, point: Bytes -> bool,
                          nodes: seq<GroupNode>)
    requires Representable(g, readable, point) && DistinctIndices(g.nodes)
    requires FromProto(ToProto(h, g), readable, point).Ok?
    requires DistinctIndices(nodes) && multiset(nodes) == multiset(g.nodes)
    ensures var g' := FromProto(ToProto(h, g), readable, point).value.(nodes := nodes);
            Hash(h, g') == Hash(h, g) && Seed(h, g') == Seed(h, g)
  {
    WireRoundTrip(h, g, readable, point);
    SortedNodesUnique(g.nodes, nodes);
  }
}
