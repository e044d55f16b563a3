/** The latency index of the optimizing client (client/optimizing.go): one entry per client, updated
    by request and watch samples and kept sorted by round-trip time. */
module Latency {
  import opened Bytes
  import opened Collections
  import opened RoundTime

  /** Times are in nanoseconds since the epoch, durations in nanoseconds. */
  datatype Stat = Stat(client: nat, rtt: int, start: int)

  const MAX_RTT: int := MAX_INT64
  const NANOS: int := 1_000_000_000
  const MAX_UNIX_TIME: int := TWO63 - 62_135_596_801
  /** The start time that marks an entry as passive. */
  const PASSIVE_START: int := MAX_UNIX_TIME * NANOS + 999_999_999

  function Passive(c: nat): Stat {
    Stat(c, MAX_RTT, PASSIVE_START)
  }

  predicate Sorted(s: seq<Stat>) {
    forall i, j :: 0 <= i < j < |s| ==> s[i].rtt <= s[j].rtt
  }

  predicate DistinctClients(s: seq<Stat>) {
    forall i, j :: 0 <= i < j < |s| ==> s[i].client != s[j].client
  }

  function ClientsOf(s: seq<Stat>): seq<nat> {
    seq(|s|, i requires 0 <= i < |s| => s[i].client)
  }

  // ---- Samples --------------------------------------------------------------------------

  /** A sample replaces an entry of the same client only if it started strictly later. */
  function Newer(e: Stat, x: Stat): Stat {
    if e.client == x.client && e.start < x.start then x else e
  }

  /** The entry left after all samples, in order. */
  function Absorb(e: Stat, samples: seq<Stat>): Stat {
    if samples == [] then e else Newer(Absorb(e, samples[..|samples| - 1]), samples[|samples| - 1])
  }

  /** `w` is the entry or a sample of its client; none of these started later, and no earlier sample
      started at the same time as `w`. */
  ghost predicate IsLatest(e: Stat, samples: seq<Stat>, w: Stat) {
    && w.client == e.client && e.start <= w.start
    && (forall i :: 0 <= i < |samples| && samples[i].client == e.client ==> samples[i].start <= w.start)
    && (w == e || exists i :: 0 <= i < |samples| && samples[i] == w && e.start < w.start
                              && forall j :: 0 <= j < i && samples[j].client == e.client ==> samples[j].start < w.start)
  }

  /** Main result: each client ends with the sample that started last, the first such in order. */
  lemma {:induction false} LatestWins(e: Stat, samples: seq<Stat>)
    ensures IsLatest(e, samples, Absorb(e, samples))
    decreases |samples|
  {
    if samples != [] {
      var n := |samples| - 1;
      var before, x := samples[..n], samples[n];
      LatestWins(e, before);
      var w := Absorb(e, before);
      forall i | 0 <= i < |samples| && samples[i].client == e.client
        ensures samples[i].start <= Absorb(e, samples).start
      {
        if i < n {
          assert before[i] == samples[i];
        }
      }
      if w.client == x.client && w.start < x.start {
        assert samples[n] == x;
        assert forall j :: 0 <= j < n ==> before[j] == samples[j];
      } else if w != e {
        var i :| 0 <= i < n && before[i] == w && e.start < w.start
                 && forall j :: 0 <= j < i && before[j].client == e.client ==> before[j].start < w.start;
        assert samples[i] == w;
        assert forall j :: 0 <= j < i ==> before[j] == samples[j];
      }
    }
  }

  function AbsorbAll(stats: seq<Stat>, samples: seq<Stat>): seq<Stat> {
    seq(|stats|, i requires 0 <= i < |stats| => Absorb(stats[i], samples))
  }

  /** No sample can start later than a passive entry, and no duration is longer than the longest. */
  predicate Timed(samples: seq<Stat>) {
    forall i :: 0 <= i < |samples| ==> samples[i].start <= PASSIVE_START && samples[i].rtt <= MAX_RTT
  }

  lemma {:induction false} PassiveUnchanged(c: nat, samples: seq<Stat>)
    requires Timed(samples)
    ensures Absorb(Passive(c), samples) == Passive(c)
    decreases |samples|
  {
    if samples != [] {
      PassiveUnchanged(c, samples[..|samples| - 1]);
    }
  }

  /** Watch samples start at the time of their round, which `TimeOfRound` keeps below the passive
      mark for every round number. */
  lemma WatchSamplesTimed(period: int, genesis: int, round: Round)
    requires 0 <= period <= MAX_PERIOD && 0 <= genesis <= MAX_GENESIS
    ensures TimeOfRound(period, genesis, round) * NANOS < PASSIVE_START
  {
    TimeOfRoundMonotone(period, genesis, round, round);
  }

  // ---- Sorting --------------------------------------------------------------------------

  function Insert(s: seq<Stat>, x: Stat): seq<Stat> {
    if s == [] then [x] else if x.rtt < s[0].rtt then [x] + s else [s[0]] + Insert(s[1..], x)
  }

  lemma {:induction false} InsertContents(s: seq<Stat>, x: Stat)
    ensures multiset(Insert(s, x)) == multiset(s) + multiset{x}
    decreases |s|
  {
    if s != [] {
      assert s == [s[0]] + s[1..];
      InsertContents(s[1..], x);
    }
  }

  lemma InsertMember(s: seq<Stat>, x: Stat, y: Stat)
    requires y in Insert(s, x)
    ensures y == x || y in s
  {
    InsertContents(s, x);
    assert y in multiset(Insert(s, x));
  }

  lemma {:induction false} InsertSorted(s: seq<Stat>, x: Stat)
    requires Sorted(s)
    ensures Sorted(Insert(s, x))
    decreases |s|
  {
    if s != [] && x.rtt >= s[0].rtt {
      InsertSorted(s[1..], x);
      var t := Insert(s[1..], x);
      forall i | 0 <= i < |t| ensures s[0].rtt <= t[i].rtt {
        InsertMember(s[1..], x, t[i]);
      }
    }
  }

  method SortByRtt(s: seq<Stat>) returns (out: seq<Stat>)
    ensures Sorted(out) && multiset(out) == multiset(s)
  {
    out := [];
    for i := 0 to |s|
      invariant Sorted(out) && multiset(out) == multiset(s[..i])
    {
      InsertContents(out, s[i]);
      InsertSorted(out, s[i]);
      PrefixContents(s, i);
      out := Insert(out, s[i]);
    }
    assert s[..|s|] == s;
  }

  // ---- The index ------------------------------------------------------------------------

  /** One sample applied to the first entry of its client. */
  function Apply(stats: seq<Stat>, x: Stat): seq<Stat> {
    if stats == [] then []
    else if stats[0].client == x.client then [Newer(stats[0], x)] + stats[1..]
    else [stats[0]] + Apply(stats[1..], x)
  }

  lemma {:induction false} ApplyAt(stats: seq<Stat>, x: Stat, i: nat)
    requires i <= |stats| && (i < |stats| ==> stats[i].client == x.client)
    requires forall k :: 0 <= k < i ==> stats[k].client != x.client
    ensures Apply(stats, x) == if i < |stats| then stats[i := Newer(stats[i], x)] else stats
    decreases |stats|
  {
    if i > 0 {
      ApplyAt(stats[1..], x, i - 1);
      assert stats == [stats[0]] + stats[1..];
    }
  }

  lemma {:induction false} ApplyPointwise(stats: seq<Stat>, x: Stat)
    requires DistinctClients(stats)
    ensures Apply(stats, x) == seq(|stats|, i requires 0 <= i < |stats| => Newer(stats[i], x))
    decreases |stats|
  {
    if stats != [] {
      var rest := stats[1..];
      ApplyPointwise(rest, x);
      forall i | 0 <= i < |rest| ensures rest[i] == stats[i + 1] {}
    }
  }

  // ---- Permutations ---------------------------------------------------------------------

  /** Sampling renames nobody and leaves the passive entries as they are. */
  lemma PassiveEntries(stats: seq<Stat>, samples: seq<Stat>, passive: set<nat>)
    requires Timed(samples)
    requires forall i :: 0 <= i < |stats| && stats[i].client in passive ==> stats[i] == Passive(stats[i].client)
    ensures var taken := AbsorbAll(stats, samples);
            && ClientsOf(taken) == ClientsOf(stats)
            && (DistinctClients(stats) ==> DistinctClients(taken))
            && (forall x :: x in taken && x.client in passive ==> x == Passive(x.client))
            && (forall c :: c in passive && Passive(c) in stats ==> Passive(c) in taken)
  {
    var taken := AbsorbAll(stats, samples);
    forall i | 0 <= i < |stats| ensures taken[i].client == stats[i].client
      ensures stats[i].client in passive ==> taken[i] == stats[i]
    {
      LatestWins(stats[i], samples);
      if stats[i].client in passive {
        PassiveUnchanged(stats[i].client, samples);
      }
    }
  }

  lemma RemoveEntry(b: seq<Stat>, i: nat)
    requires i < |b|
    ensures multiset(b[..i] + b[i + 1..]) == multiset(b) - multiset{b[i]}
  {
    assert b == b[..i] + ([b[i]] + b[i + 1..]);
  }

  lemma RemoveClient(b: seq<Stat>, i: nat)
    requires i < |b|
    ensures multiset(ClientsOf(b)) == multiset(ClientsOf(b[..i] + b[i + 1..])) + multiset{b[i].client}
  {
    var rest := b[..i] + b[i + 1..];
    var cb := ClientsOf(b);
    assert cb == cb[..i] + ([cb[i]] + cb[i + 1..]);
    assert ClientsOf(rest) == cb[..i] + cb[i + 1..];
  }

  /** Where the entry at the head of one arrangement stands in another. */
  lemma HeadIn(a: seq<Stat>, b: seq<Stat>) returns (i: nat)
    requires a != [] && multiset(a) == multiset(b)
    ensures i < |b| && b[i] == a[0]
  {
    assert a[0] in multiset(b);
    i :| 0 <= i < |b| && b[i] == a[0];
  }

  lemma {:induction false} PermutedClients(a: seq<Stat>, b: seq<Stat>)
    requires multiset(a) == multiset(b)
    ensures multiset(ClientsOf(a)) == multiset(ClientsOf(b))
    decreases |a|
  {
    if a == [] {
      EmptyContents(b);
    } else {
      var i := HeadIn(a, b);
      var a', b' := a[..0] + a[1..], b[..i] + b[i + 1..];
      assert multiset(a') == multiset(b') by {
        RemoveEntry(a, 0);
        RemoveEntry(b, i);
      }
      PermutedClients(a', b');
      RemoveClient(a, 0);
      RemoveClient(b, i);
    }
  }

  lemma PermutedDistinct(a: seq<Stat>, b: seq<Stat>)
    requires multiset(a) == multiset(b) && DistinctClients(a)
    ensures DistinctClients(b)
  {
    PermutedClients(a, b);
    var ca, cb := ClientsOf(a), ClientsOf(b);
    NoRepeatsPermuted(ca, cb);
    forall i, j | 0 <= i < j < |b| ensures b[i].client != b[j].client {
      assert cb[i] != cb[j];
    }
  }

  // ---- Runs -----------------------------------------------------------------------------

  datatype Index = Index(stats: seq<Stat>, passive: set<nat>)

  datatype Op = Mark(c: nat) | Update(samples: seq<Stat>)

  /** `MarkPassive` raises the client's entry where it stands. */
  function Marked(stats: seq<Stat>, c: nat): seq<Stat> {
    seq(|stats|, i requires 0 <= i < |stats| => if stats[i].client == c then Passive(c) else stats[i])
  }

  /** One call. The sort of `updateStats` may order equal entries in any way. */
  ghost predicate IsStep(x: Index, op: Op, y: Index) {
    match op
    case Mark(c) => y == Index(Marked(x.stats, c), x.passive + {c})
    case Update(samples) =>
      && Timed(samples) && y.passive == x.passive
      && Sorted(y.stats) && multiset(y.stats) == multiset(AbsorbAll(x.stats, samples))
  }

  ghost predicate StepAt(states: seq<Index>, ops: seq<Op>, k: nat)
    requires |states| == |ops| + 1 && k < |ops|
  {
    IsStep(states[k], ops[k], states[k + 1])
  }

  ghost predicate IsRun(states: seq<Index>, ops: seq<Op>) {
    && |states| == |ops| + 1
    && forall k {:trigger StepAt(states, ops, k)} :: 0 <= k < |ops| ==> StepAt(states, ops, k)
  }

  function Fresh(clients: seq<nat>, now: int): seq<Stat> {
    seq(|clients|, i requires 0 <= i < |clients| => Stat(clients[i], 0, now))
  }

  /** A new index: every client with a round-trip time of zero. */
  predicate Initial(x: Index, clients: seq<nat>, now: int) {
    NoRepeats(clients) && x == Index(Fresh(clients, now), {})
  }

  /** No passive client stands before one with a smaller round-trip time. */
  predicate Behind(x: Index) {
    forall i, j :: 0 <= i < j < |x.stats| && x.stats[i].client in x.passive ==> x.stats[i].rtt <= x.stats[j].rtt
  }

  /** One entry per client, passive clients hold the passive entry, and no duration is out of range. */
  ghost predicate IndexInv(x: Index) {
    && DistinctClients(x.stats)
    && (forall i :: 0 <= i < |x.stats| ==> x.stats[i].rtt <= MAX_RTT)
    && (forall i :: 0 <= i < |x.stats| && x.stats[i].client in x.passive ==> x.stats[i] == Passive(x.stats[i].client))
  }

  /** The state left by the last `updateStats` among the first `k` calls, or the first state. */
  function LastSort(ops: seq<Op>, k: nat): (u: nat)
    requires k <= |ops|
    ensures u <= k
  {
    if k == 0 then 0 else if ops[k - 1].Update? then k else LastSort(ops, k - 1)
  }

  /** The clients marked since the last `updateStats`. */
  function MarkedSince(ops: seq<Op>, k: nat): set<nat>
    requires k <= |ops|
  {
    if k == 0 || ops[k - 1].Update? then {} else MarkedSince(ops, k - 1) + {ops[k - 1].c}
  }

  /** Nobody but marked clients, and clients already as slow as can be, stands behind a marked one. */
  predicate AtTail(base: seq<Stat>, marked: set<nat>) {
    forall i, j :: 0 <= i < j < |base| && base[i].client in marked ==> base[j].client in marked || base[j].rtt == MAX_RTT
  }

  /** `stats` is `base` with the marked entries raised. */
  ghost predicate Raised(base: seq<Stat>, marked: set<nat>, stats: seq<Stat>) {
    && |stats| == |base|
    && forall i :: 0 <= i < |base| ==>
         stats[i] == if base[i].client in marked then Passive(base[i].client) else base[i]
  }

  /** Marking keeps the order exactly if the marked clients stood at the tail. */
  lemma RaisedIff(base: seq<Stat>, marked: set<nat>, x: Index)
    requires Sorted(base) && (forall i :: 0 <= i < |base| ==> base[i].rtt <= MAX_RTT)
    requires Raised(base, marked, x.stats) && marked <= x.passive && IndexInv(x)
    ensures Sorted(x.stats) <==> AtTail(base, marked)
    ensures Behind(x) <==> AtTail(base, marked)
  {
    if AtTail(base, marked) {
      forall i, j | 0 <= i < j < |base| ensures x.stats[i].rtt <= x.stats[j].rtt {
        assert base[i].rtt <= base[j].rtt;
      }
    }
    if Behind(x) || Sorted(x.stats) {
      forall i, j | 0 <= i < j < |base| && base[i].client in marked
        ensures base[j].client in marked || base[j].rtt == MAX_RTT
      {
        assert x.stats[i].client in x.passive;
        assert x.stats[i].rtt <= x.stats[j].rtt;
      }
    }
  }

  lemma MarkKeepsInv(x: Index, c: nat)
    requires IndexInv(x)
    ensures IndexInv(Index(Marked(x.stats, c), x.passive + {c}))
    ensures ClientsOf(Marked(x.stats, c)) == ClientsOf(x.stats)
  {
  }

  lemma UpdateKeepsInv(x: Index, samples: seq<Stat>, y: Index)
    requires IndexInv(x) && IsStep(x, Update(samples), y)
    ensures IndexInv(y) && multiset(ClientsOf(y.stats)) == multiset(ClientsOf(x.stats))
  {
    var taken := AbsorbAll(x.stats, samples);
    PassiveEntries(x.stats, samples, x.passive);
    PermutedClients(taken, y.stats);
    PermutedDistinct(taken, y.stats);
    SameMembers(taken, y.stats);
    forall i | 0 <= i < |taken| ensures taken[i].rtt <= MAX_RTT {
      LatestWins(x.stats[i], samples);
    }
    forall i | 0 <= i < |y.stats|
      ensures y.stats[i].rtt <= MAX_RTT
      ensures y.stats[i].client in y.passive ==> y.stats[i] == Passive(y.stats[i].client)
    {
      assert y.stats[i] in taken;
    }
  }

  lemma {:induction false} RunInv(states: seq<Index>, ops: seq<Op>, clients: seq<nat>, now: int, k: nat)
    requires IsRun(states, ops) && Initial(states[0], clients, now) && k < |states|
    ensures IndexInv(states[k]) && multiset(ClientsOf(states[k].stats)) == multiset(clients)
    decreases k
  {
    if k == 0 {
      assert ClientsOf(states[0].stats) == clients;
    } else {
      RunInv(states, ops, clients, now, k - 1);
      assert StepAt(states, ops, k - 1);
      match ops[k - 1]
      case Mark(c) => MarkKeepsInv(states[k - 1], c);
      case Update(samples) => UpdateKeepsInv(states[k - 1], samples, states[k]);
    }
  }

  lemma {:induction false} RaisedSinceSort(states: seq<Index>, ops: seq<Op>, clients: seq<nat>, now: int, k: nat)
    requires IsRun(states, ops) && Initial(states[0], clients, now) && k < |states|
    ensures Sorted(states[LastSort(ops, k)].stats)
    ensures MarkedSince(ops, k) <= states[k].passive
    ensures Raised(states[LastSort(ops, k)].stats, MarkedSince(ops, k), states[k].stats)
    decreases k
  {
    if k > 0 {
      RaisedSinceSort(states, ops, clients, now, k - 1);
      assert StepAt(states, ops, k - 1);
    }
  }

  /** Main result: over every run of marks and updates, a passive client's entry is the passive one from
      then on, and no passive client stands before a faster one if and only if the clients marked since
      the last update stood at the tail of the index that update left. */
  lemma RankTheorem(states: seq<Index>, ops: seq<Op>, clients: seq<nat>, now: int, k: nat)
    requires IsRun(states, ops) && Initial(states[0], clients, now) && k < |states|
    ensures forall i :: 0 <= i < |states[k].stats| && states[k].stats[i].client in states[k].passive ==>
              states[k].stats[i] == Passive(states[k].stats[i].client)
    ensures multiset(ClientsOf(states[k].stats)) == multiset(clients)
    ensures Behind(states[k]) <==> AtTail(states[LastSort(ops, k)].stats, MarkedSince(ops, k))
    ensures Sorted(states[k].stats) <==> AtTail(states[LastSort(ops, k)].stats, MarkedSince(ops, k))
  {
    RunInv(states, ops, clients, now, k);
    RunInv(states, ops, clients, now, LastSort(ops, k));
    RaisedSinceSort(states, ops, clients, now, k);
    RaisedIff(states[LastSort(ops, k)].stats, MarkedSince(ops, k), states[k]);
  }

  /** A concrete failure: of two new clients the first is marked, and stays ranked first. */
  lemma MarkedFirst(now: int)
    ensures exists states, ops :: IsRun(states, ops) && Initial(states[0], [1, 2], now) && !Behind(states[|ops|])
  {
    var x := Index(Fresh([1, 2], now), {});
    var y := Index(Marked(x.stats, 1), {1});
    var states, ops := [x, y], [Mark(1)];
    assert x.passive + {1} == {1};
    assert StepAt(states, ops, 0);
    assert y.stats[0] == Passive(1) && y.stats[1] == Stat(2, 0, now);
    assert IsRun(states, ops) && Initial(states[0], [1, 2], now) && !Behind(states[|ops|]);
  }

  class OptimizingClient {
    var stats: seq<Stat>
    var passive: seq<nat>

    ghost function State(): Index
      reads this
    {
      Index(stats, set c | c in passive)
    }

    ghost predicate Valid()
      reads this
    {
      IndexInv(State())
    }

    constructor (clients: seq<nat>, now: int)
      requires NoRepeats(clients)
      ensures Valid() && Initial(State(), clients, now)
    {
      stats := Fresh(clients, now);
      passive := [];
    }

    method MarkPassive(c: nat)
      requires Valid()
      modifies this
      ensures Valid() && passive == old(passive) + [c] && IsStep(old(State()), Mark(c), State())
    {
      MarkKeepsInv(State(), c);
      passive := passive + [c];
      for i := 0 to |stats|
        invariant |stats| == |old(stats)| && passive == old(passive) + [c]
        invariant forall k :: 0 <= k < i ==> stats[k] == if old(stats)[k].client == c then Passive(c) else old(stats)[k]
        invariant forall k :: i <= k < |stats| ==> stats[k] == old(stats)[k]
      {
        if stats[i].client == c {
          stats := stats[i := Passive(c)];
        }
      }
      assert stats == Marked(old(stats), c);
      assert State().passive == old(State()).passive + {c};
    }

    /** The nested loops: each sample looks for the entry of its client and stops there. */
    method TakeSamples(samples: seq<Stat>)
      requires DistinctClients(stats)
      modifies this`stats
      ensures stats == AbsorbAll(old(stats), samples)
    {
      assert stats == AbsorbAll(stats, samples[..0]);
      for k := 0 to |samples|
        invariant DistinctClients(stats) && stats == AbsorbAll(old(stats), samples[..k])
      {
        var x := samples[k];
        ApplyPointwise(stats, x);
        TakeSample(x);
        assert samples[..k + 1][..k] == samples[..k];
      }
      assert samples[..|samples|] == samples;
    }

    method TakeSample(x: Stat)
      modifies this`stats
      ensures stats == Apply(old(stats), x)
    {
      var i := 0;
      while i < |stats| && stats[i].client != x.client
        invariant 0 <= i <= |stats| && stats == old(stats)
        invariant forall k :: 0 <= k < i ==> stats[k].client != x.client
      {
        i := i + 1;
      }
      ApplyAt(stats, x, i);
      if i < |stats| && stats[i].start < x.start {
        stats := stats[i := x];
      }
    }

    /** Main result: the index is a sorted permutation of the old entries, each replaced by the
        latest-started sample of its client; passive entries do not change. */
    method UpdateStats(samples: seq<Stat>)
      requires Valid() && Timed(samples)
      modifies this`stats
      ensures Valid() && Sorted(stats) && IsStep(old(State()), Update(samples), State())
      ensures multiset(stats) == multiset(AbsorbAll(old(stats), samples))
      ensures multiset(ClientsOf(stats)) == multiset(ClientsOf(old(stats)))
    {
      ghost var before := State();
      TakeSamples(samples);
      stats := SortByRtt(stats);
      UpdateKeepsInv(before, samples, State());
    }
  }
}
