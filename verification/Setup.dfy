/** The leader's side of a DKG or resharing setup: collecting the keys and creating the group
    (core/group_setup.go), and the checks the created group meets later (core/drand_control.go,
    chain/beacon/node.go). */
module Setup {
  import opened Bytes
  import opened Collections
  import opened RoundTime
  import opened Group

  /** The parameters of a `setupManager`, in seconds; `previous` is the group being reshared, if any. */
  datatype Manager = Manager(
    expected: nat, threshold: nat, period: nat, catchup: nat, dkgTimeout: nat, offset: nat,
    leader: Identity, previous: Option<Info>)

  const DEFAULT_GENESIS_OFFSET: nat := 1
  const DEFAULT_RESHARING_OFFSET: nat := 30

  /** `validInitPacket`: the threshold is a strict majority, and no more than everyone. */
  function ValidInit(nodes: nat, threshold: nat): (ok: bool)
    ensures ok <==> nodes < 2 * threshold && threshold <= nodes
  {
    !(threshold < MinimumT(nodes)) && !(threshold > nodes)
  }

  /** `newDKGSetup`. */
  function NewDkgSetup(leader: Identity, period: nat, catchup: nat, nodes: nat, threshold: nat, timeout: nat, offset: nat)
    : Result<Manager>
  {
    if !ValidInit(nodes, threshold) then Err
    else Ok(Manager(nodes, threshold, period, catchup, timeout,
                    if offset == 0 then DEFAULT_GENESIS_OFFSET else offset, leader, None))
  }

  /** `newReshareSetup`: the period is that of the old group. */
  function NewReshareSetup(leader: Identity, previous: Info, newCatchup: Option<nat>, nodes: nat, threshold: nat, timeout: nat, offset: nat)
    : Result<Manager>
  {
    var catchup := if newCatchup.Some? then newCatchup.value else WrapU32(previous.catchup);
    var m := NewDkgSetup(leader, WrapU32(previous.period), catchup, nodes, threshold, timeout, offset);
    if m.Err? then Err
    else Ok(m.value.(previous := Some(previous), offset := if offset == 0 then DEFAULT_RESHARING_OFFSET else offset))
  }

  // ---- Collecting keys ------------------------------------------------------------------

  /** What happens to `run`: it takes a key off its channel, `StopPreemptively` sends on the one-slot
      `doneCh`, or `run` receives from that slot. */
  datatype Event = PushKey(id: Identity) | Stop | See

  /** Still collecting, with the slot full or not; a group to create; ended; or blocked for good on a
      full slot that nobody but `run` itself reads. */
  datatype Gathering =
    | Waiting(keys: seq<Identity>, slot: bool)
    | Ready(keys: seq<Identity>)
    | Stopped(keys: seq<Identity>)
    | Stuck(keys: seq<Identity>)

  predicate Clash(a: Identity, b: Identity) {
    a.addr == b.addr || a.key == b.key
  }

  predicate Known(keys: seq<Identity>, id: Identity) {
    exists i :: 0 <= i < |keys| && Clash(keys[i], id)
  }

  predicate Pairwise(keys: seq<Identity>) {
    forall i, j :: 0 <= i < j < |keys| ==> !Clash(keys[i], keys[j])
  }

  /** The loop of `run`: what the events, in their order, lead to. With enough keys it sends on the
      slot itself before it creates the group. */
  function Gather(keys: seq<Identity>, slot: bool, events: seq<Event>, expected: nat): Gathering
    decreases |events|
  {
    if events == [] then Waiting(keys, slot)
    else match events[0]
      case Stop => Gather(keys, true, events[1..], expected)
      case See => if slot then Stopped(keys) else Gather(keys, slot, events[1..], expected)
      case PushKey(id) =>
        if Known(keys, id) then Gather(keys, slot, events[1..], expected)
        else if |keys| + 1 == expected then (if slot then Stuck(keys + [id]) else Ready(keys + [id]))
        else Gather(keys + [id], slot, events[1..], expected)
  }

  /** The gathering of a setup from its start. */
  function Gathered(m: Manager, events: seq<Event>): Gathering {
    Gather([m.leader], false, events, m.expected)
  }

  /** Main result: a complete gathering has exactly the expected number of members, the leader among
      them, pairwise distinct in address and key, all of which asked to join. */
  lemma {:induction false} GatherSound(keys: seq<Identity>, slot: bool, events: seq<Event>, expected: nat)
    requires Pairwise(keys)
    ensures var r := Gather(keys, slot, events, expected);
            && Pairwise(r.keys) && keys <= r.keys
            && (r.Ready? || r.Stuck? ==> |r.keys| == expected && |keys| < expected)
            && (r.Ready? ==> !slot) && (r.Stuck? ==> slot || Stop in events)
            && (forall x :: x in r.keys ==> x in keys || PushKey(x) in events)
    decreases |events|
  {
    if events != [] {
      assert events == [events[0]] + events[1..];
      match events[0]
      case Stop => GatherSound(keys, true, events[1..], expected);
      case See => if !slot { GatherSound(keys, slot, events[1..], expected); }
      case PushKey(id) =>
        if Known(keys, id) {
          GatherSound(keys, slot, events[1..], expected);
        } else {
          assert Pairwise(keys + [id]);
          if |keys| + 1 != expected {
            GatherSound(keys + [id], slot, events[1..], expected);
          }
        }
    }
  }

  // ---- When a group is emitted ----------------------------------------------------------

  /** The keys after one event, whatever else it does. */
  function Joined(keys: seq<Identity>, e: Event): seq<Identity> {
    if e.PushKey? && !Known(keys, e.id) then keys + [e.id] else keys
  }

  /** The distinct keys among those taken. */
  function Accepted(keys: seq<Identity>, events: seq<Event>): seq<Identity>
    decreases |events|
  {
    if events == [] then keys else Accepted(Joined(keys, events[0]), events[1..])
  }

  /** Within the first `n` events enough distinct keys were taken and no preemption was sent. */
  predicate CompleteBy(keys: seq<Identity>, events: seq<Event>, expected: nat, n: nat) {
    n <= |events| && Stop !in events[..n] && |Accepted(keys, events[..n])| >= expected
  }

  /** Passing over an event that is not a preemption. */
  lemma CompleteShift(keys: seq<Identity>, events: seq<Event>, expected: nat, n: nat)
    requires events != [] && events[0] != Stop && n < |events|
    ensures CompleteBy(keys, events, expected, n + 1)
       <==> CompleteBy(Joined(keys, events[0]), events[1..], expected, n)
  {
    var head, tail := events[..n + 1], events[1..][..n];
    assert head == [events[0]] + tail;
    assert head[0] == events[0] && head[1..] == tail;
  }

  lemma CompleteLater(keys: seq<Identity>, events: seq<Event>, expected: nat)
    requires events != [] && events[0] != Stop && |keys| < expected
    ensures (exists n: nat :: CompleteBy(keys, events, expected, n))
       <==> (exists n: nat :: CompleteBy(Joined(keys, events[0]), events[1..], expected, n))
  {
    var keys' := Joined(keys, events[0]);
    if n: nat :| CompleteBy(keys, events, expected, n) {
      assert events[..0] == [];
      CompleteShift(keys, events, expected, n - 1);
      assert CompleteBy(keys', events[1..], expected, n - 1);
    }
    if n: nat :| CompleteBy(keys', events[1..], expected, n) {
      CompleteShift(keys, events, expected, n);
      assert CompleteBy(keys, events, expected, n + 1);
    }
  }

  /** Main result: a group is emitted exactly if the expected number of distinct keys was taken before
      any preemption was sent, and the leader alone was not already enough. */
  lemma {:induction false} EmittedIff(keys: seq<Identity>, events: seq<Event>, expected: nat)
    requires Pairwise(keys)
    ensures Gather(keys, false, events, expected).Ready?
       <==> |keys| < expected && exists n: nat :: CompleteBy(keys, events, expected, n)
    decreases |events|
  {
    GatherSound(keys, false, events, expected);
    if |keys| < expected {
      if events == [] {
        assert forall n: nat :: n <= 0 ==> events[..n] == [];
      } else if events[0] == Stop {
        GatherSound(keys, true, events[1..], expected);
        forall n: nat ensures !CompleteBy(keys, events, expected, n) {
          if 0 < n <= |events| {
            assert events[..n][0] == Stop;
          } else if n == 0 {
            assert events[..0] == [];
          }
        }
      } else {
        CompleteLater(keys, events, expected);
        EmittedStep(keys, events, expected);
      }
    }
  }

  lemma {:induction false} EmittedStep(keys: seq<Identity>, events: seq<Event>, expected: nat)
    requires Pairwise(keys) && events != [] && events[0] != Stop && |keys| < expected
    ensures Gather(keys, false, events, expected).Ready?
       <==> exists n: nat :: CompleteBy(Joined(keys, events[0]), events[1..], expected, n)
    decreases |events|, 0
  {
    var keys' := Joined(keys, events[0]);
    assert Pairwise(keys');
    if |keys'| == expected {
      assert events[1..][..0] == [];
      assert CompleteBy(keys', events[1..], expected, 0);
    } else {
      EmittedIff(keys', events[1..], expected);
    }
  }

  /** A concrete loss: a preemption waits in the slot when the last key is taken. */
  lemma PreemptionBlocks(leader: Identity, id: Identity)
    requires leader.addr != id.addr && leader.key != id.key
    ensures Gather([leader], false, [Stop, PushKey(id)], 2) == Stuck([leader, id])
  {
    var events := [Stop, PushKey(id)];
    assert events[1..] == [PushKey(id)];
    assert !Known([leader], id);
    assert Gather([leader], true, events[1..], 2) == Stuck([leader] + [id]);
  }

  /** Nothing is lost: while it is still collecting, every key that was taken is in the gathering or
      clashes with a member. */
  lemma {:induction false} GatherComplete(keys: seq<Identity>, slot: bool, events: seq<Event>, expected: nat, x: Identity)
    requires Gather(keys, slot, events, expected).Waiting? && PushKey(x) in events
    ensures Known(Gather(keys, slot, events, expected).keys, x)
    decreases |events|
  {
    assert events == [events[0]] + events[1..];
    match events[0]
    case Stop => GatherComplete(keys, true, events[1..], expected, x);
    case See => GatherComplete(keys, slot, events[1..], expected, x);
    case PushKey(id) =>
      var keys' := if Known(keys, id) then keys else keys + [id];
      if x == id {
        assert Known(keys', x) by {
          if !Known(keys, id) { assert Clash(keys'[|keys|], x); }
        }
        GatherKeeps(keys', slot, events[1..], expected, x);
      } else {
        GatherComplete(keys', slot, events[1..], expected, x);
      }
  }

  lemma {:induction false} GatherKeeps(keys: seq<Identity>, slot: bool, events: seq<Event>, expected: nat, x: Identity)
    requires Known(keys, x)
    ensures Known(Gather(keys, slot, events, expected).keys, x)
    decreases |events|
  {
    var i :| 0 <= i < |keys| && Clash(keys[i], x);
    if events != [] {
      match events[0]
      case Stop => GatherKeeps(keys, true, events[1..], expected, x);
      case See => if !slot { GatherKeeps(keys, slot, events[1..], expected, x); }
      case PushKey(id) =>
        assert Clash((keys + [id])[i], x);
        if Known(keys, id) {
          GatherKeeps(keys, slot, events[1..], expected, x);
        } else if |keys| + 1 != expected {
          GatherKeeps(keys + [id], slot, events[1..], expected, x);
        }
    }
  }

  /** A setup for the leader alone never completes: the count is only looked at after a key was
      added. */
  lemma SoloNeverReady(leader: Identity, events: seq<Event>)
    ensures !Gather([leader], false, events, 1).Ready?
  {
    GatherSound([leader], false, events, 1);
  }

  // ---- Creating the group ---------------------------------------------------------------

  function TotalDkg(m: Manager): nat {
    3 * m.dkgTimeout + m.offset
  }

  /** The genesis time of a fresh network. */
  function GenesisTime(m: Manager, now: nat): nat
    requires m.period >= 1
  {
    var base := now + TotalDkg(m);
    base + (m.period - base % m.period)
  }

  /** The transition time of a resharing. */
  function TransitionTime(m: Manager, now: nat): int
    requires m.period >= 1 && m.previous.Some?
  {
    NextRound(now + TotalDkg(m), m.period, m.previous.value.genesisTime).1
  }

  /** `g` is a group `createAndSend` may build from these keys at this time. */
  ghost predicate Creates(h: Bytes -> Bytes, m: Manager, keys: seq<Identity>, now: nat, g: Info)
    requires m.period >= 1
  {
    && InKeyOrder(keys, g.nodes)
    && g.threshold == m.threshold && g.period == m.period && g.catchup == m.catchup && g.coeffs == None
    && match m.previous
       case None => g.genesisTime == GenesisTime(m, now) && g.transitionTime == 0 && g.seed == None
       case Some(previous) =>
         && g.genesisTime == previous.genesisTime && g.transitionTime == TransitionTime(m, now)
         && g.seed == Some(Seed(h, previous))
  }

  /** `createAndSend`. A fresh setup with a period of zero, which nothing refuses, divides by it. */
  method CreateGroup(h: Bytes -> Bytes, m: Manager, keys: seq<Identity>, now: nat) returns (r: Result<Info>)
    requires m.previous.Some? ==> m.period >= 1
    ensures r.Err? <==> m.period == 0
    ensures r.Ok? ==> Creates(h, m, keys, now, r.value)
  {
    var nodes := CopyAndSort(keys);
    if m.previous.None? {
      if m.period == 0 {
        return Err;
      }
      var genesis := now + TotalDkg(m);
      genesis := genesis + (m.period - genesis % m.period);
      return Ok(Info(m.threshold, m.period, m.catchup, nodes, genesis, None, 0, None));
    }
    var previous := m.previous.value;
    var atLeast := now + TotalDkg(m);
    var (_, transition) := NextRound(atLeast, m.period, previous.genesisTime);
    return Ok(Info(m.threshold, m.period, m.catchup, nodes, previous.genesisTime, Some(Seed(h, previous)), transition, None));
  }

  /** How `run` ends: without a group, with one, or in a division by zero. */
  datatype Outcome = NoGroup | Emitted(group: Info) | Crashed

  /** `setupManager.run`: at most one group, built from a complete gathering. */
  method RunSetup(h: Bytes -> Bytes, m: Manager, events: seq<Event>, now: nat) returns (out: Outcome)
    requires m.previous.Some? ==> m.period >= 1
    ensures out.Emitted? <==> Gathered(m, events).Ready? && m.period >= 1
    ensures out.Crashed? <==> Gathered(m, events).Ready? && m.period == 0
    ensures out.Emitted? ==> Creates(h, m, Gathered(m, events).keys, now, out.group)
  {
    var keys := [m.leader];
    var slot := false;
    var i := 0;
    while i < |events|
      invariant 0 <= i <= |events|
      invariant Gathered(m, events) == Gather(keys, slot, events[i..], m.expected)
    {
      assert events[i..][1..] == events[i + 1..];
      match events[i] {
        case Stop => slot := true;
        case See =>
          if slot {
            return NoGroup;
          }
        case PushKey(id) =>
          var found := IsKnown(keys, id);
          if !found {
            keys := keys + [id];
            if |keys| == m.expected {
              if slot {
                return NoGroup;
              }
              var group := CreateGroup(h, m, keys, now);
              return if group.Ok? then Emitted(group.value) else Crashed;
            }
          }
      }
      i := i + 1;
    }
    return NoGroup;
  }

  method IsKnown(keys: seq<Identity>, id: Identity) returns (found: bool)
    ensures found <==> Known(keys, id)
    ensures found <==> exists i :: 0 <= i < |keys| && (keys[i].addr == id.addr || keys[i].key == id.key)
  {
    for i := 0 to |keys|
      invariant forall k :: 0 <= k < i ==> !Clash(keys[k], id) && keys[k].addr != id.addr && keys[k].key != id.key
    {
      if keys[i].addr == id.addr {
        return true;
      } else if keys[i].key == id.key {
        return true;
      }
    }
    return false;
  }

  function Pushes(ids: seq<Identity>): seq<Event> {
    seq(|ids|, i requires 0 <= i < |ids| => PushKey(ids[i]))
  }

  /** When as many distinct nodes as are missing ask to join, all of them are taken. */
  lemma {:induction false} GatherAll(keys: seq<Identity>, ids: seq<Identity>, expected: nat)
    requires Pairwise(keys + ids) && |ids| >= 1 && |keys| + |ids| == expected
    ensures Gather(keys, false, Pushes(ids), expected) == Ready(keys + ids)
    decreases |ids|
  {
    var events := Pushes(ids);
    assert !Known(keys, ids[0]) by {
      forall i | 0 <= i < |keys| ensures !Clash(keys[i], ids[0]) {
        assert (keys + ids)[i] == keys[i] && (keys + ids)[|keys|] == ids[0];
      }
    }
    assert events[1..] == Pushes(ids[1..]);
    assert keys + ids == (keys + [ids[0]]) + ids[1..];
    if |ids| > 1 {
      GatherAll(keys + [ids[0]], ids[1..], expected);
    }
  }

  /** Main result: whatever the order in which the expected nodes join, the setup completes with one
      and the same group. */
  lemma SetupTheorem(h: Bytes -> Bytes, m: Manager, a: seq<Identity>, b: seq<Identity>, now: nat, g1: Info, g2: Info)
    requires m.period >= 1 && |a| >= 1 && |a| + 1 == m.expected
    requires var all := [m.leader] + a;
             forall i, j :: 0 <= i < j < |all| ==> all[i].addr != all[j].addr && all[i].key != all[j].key
    requires multiset(a) == multiset(b)
    ensures Gathered(m, Pushes(a)) == Ready([m.leader] + a)
    ensures Gathered(m, Pushes(b)) == Ready([m.leader] + b)
    ensures Creates(h, m, [m.leader] + a, now, g1) && Creates(h, m, [m.leader] + b, now, g2) ==> g1 == g2
  {
    assert |b| == |multiset(b)| == |multiset(a)| == |a|;
    assert multiset([m.leader] + a) == multiset([m.leader] + b);
    PairwiseUnderPermutation([m.leader] + a, [m.leader] + b);
    GatherAll([m.leader], a, m.expected);
    GatherAll([m.leader], b, m.expected);
    if Creates(h, m, [m.leader] + a, now, g1) && Creates(h, m, [m.leader] + b, now, g2) {
      ArrivalOrderIrrelevant(h, m, Pushes(a), Pushes(b), now, g1, g2);
    }
  }

  /** At a fixed clock, arrival orders that accept the same identities give the same
      group, and so the same hash. */
  lemma ArrivalOrderIrrelevant(h: Bytes -> Bytes, m: Manager, e1: seq<Event>, e2: seq<Event>, now: nat, g1: Info, g2: Info)
    requires m.period >= 1
    requires var k1, k2 := Gathered(m, e1), Gathered(m, e2);
             && multiset(k1.keys) == multiset(k2.keys)
             && Creates(h, m, k1.keys, now, g1) && Creates(h, m, k2.keys, now, g2)
    ensures g1 == g2 && Hash(h, g1) == Hash(h, g2)
  {
    GatherSound([m.leader], false, e1, m.expected);
    var k1, k2 := Gathered(m, e1).keys, Gathered(m, e2).keys;
    assert DistinctKeys(k1);
    NodesUnique(k1, k2, g1.nodes, g2.nodes);
  }

  /** The members of the emitted group: as many as expected, distinct, with indices in key order. */
  lemma MembersOfGroup(h: Bytes -> Bytes, m: Manager, events: seq<Event>, now: nat, g: Info)
    requires m.period >= 1 && Gathered(m, events).Ready?
    requires Creates(h, m, Gathered(m, events).keys, now, g)
    ensures g.threshold == m.threshold && g.period == m.period && g.catchup == m.catchup
    ensures |g.nodes| == m.expected
    ensures exists i :: 0 <= i < |g.nodes| && g.nodes[i].id == m.leader
    ensures forall i :: 0 <= i < |g.nodes| ==> g.nodes[i].index == i
    ensures forall i, j :: 0 <= i < j < |g.nodes| ==>
              Less(g.nodes[i].id.key, g.nodes[j].id.key) && g.nodes[i].id.addr != g.nodes[j].id.addr
  {
    GatherSound([m.leader], false, events, m.expected);
    var keys := Gathered(m, events).keys;
    var ids: seq<Identity> :| IsSortOf(keys, ids) && g.nodes == Numbered(ids);
    assert |ids| == |multiset(ids)| == |multiset(keys)| == |keys|;
    PairwiseUnderPermutation(keys, ids);
    assert keys[0] == m.leader;
    assert m.leader in multiset(keys);
    var k :| 0 <= k < |ids| && ids[k] == m.leader;
    assert g.nodes[k].id == m.leader;
    forall i, j | 0 <= i < j < |ids|
      ensures Less(ids[i].key, ids[j].key) && ids[i].addr != ids[j].addr
    {
      assert !Clash(ids[i], ids[j]);
    }
  }

  /** A group that comes out of a setup is in index order already, so hashing it leaves it as it is. */
  lemma SetupIsSorted(h: Bytes -> Bytes, m: Manager, keys: seq<Identity>, now: nat, g: Info)
    requires m.period >= 1 && Creates(h, m, keys, now, g)
    ensures SortedNodes(g.nodes) == g.nodes
  {
    var ids: seq<Identity> :| IsSortOf(keys, ids) && g.nodes == Numbered(ids);
    SortedNodesFixed(g.nodes);
  }

  lemma PairwiseUnderPermutation(a: seq<Identity>, b: seq<Identity>)
    requires Pairwise(a) && multiset(a) == multiset(b)
    ensures Pairwise(b)
  {
    assert DistinctKeys(a);
    DistinctUnderPermutation(a, b);
    forall i, j | 0 <= i < j < |b| ensures !Clash(b[i], b[j]) {
      assert b[i] in multiset(b) && b[j] in multiset(b);
      assert b[i] in a && b[j] in a;
      var k :| 0 <= k < |a| && a[k] == b[i];
      var l :| 0 <= l < |a| && a[l] == b[j];
      assert b[i].key != b[j].key;
      assert k != l;
    }
  }

  // ---- Times ----------------------------------------------------------------------------

  /** A fresh network starts strictly after the DKG budget, within a period of it, on a multiple of
      the period. */
  lemma GenesisAfterDkg(m: Manager, now: nat)
    requires m.period >= 1
    ensures var g := GenesisTime(m, now);
            now + 3 * m.dkgTimeout + m.offset < g <= now + 3 * m.dkgTimeout + m.offset + m.period && g % m.period == 0
  {
    var base := now + TotalDkg(m);
    var q := base / m.period;
    assert base == m.period * q + base % m.period;
    assert GenesisTime(m, now) == m.period * (q + 1);
    MultipleHasNoRemainder(m.period, q + 1);
  }

  lemma MultipleHasNoRemainder(p: nat, k: nat)
    requires p >= 1
    ensures (p * k) % p == 0
  {
    DivUnique(p * k, p, k, 0);
  }

  /** Before the genesis time the next round is the first. */
  lemma NextRoundAligned(atLeast: int, period: int, genesis: int)
    requires ValidSchedule(period, genesis) && atLeast + period < genesis + MAX_ELAPSED
    ensures var (r, t) := NextRound(atLeast, period, genesis);
            && atLeast < t && InRange(t, genesis) && 1 <= r
            && TimeOfRound(period, genesis, r) == t && CurrentRound(t, period, genesis) == r
  {
    if atLeast < genesis {
      TimeOfRoundExact(period, genesis, 1);
      ReachedRoundBelowGuard(period, 1);
      CurrentRoundOfTime(period, genesis, 1);
    } else {
      NextRoundTime(atLeast, period, genesis);
      NextRoundExact(atLeast, period, genesis);
      var (r, t) := NextRound(atLeast, period, genesis);
      assert (r - 1) * period == ((atLeast - genesis) / period) * period + period;
      CurrentRoundOfTime(period, genesis, r);
    }
  }

  /** Main result: for every clock of the leader, the transition time lies strictly after the DKG
      budget, is the first round time that does, and passes the alignment check of every node. */
  lemma TransitionTheorem(m: Manager, now: nat)
    requires m.period >= 1 && m.previous.Some? && ValidSchedule(m.period, m.previous.value.genesisTime)
    requires now + 3 * m.dkgTimeout + m.offset + m.period < m.previous.value.genesisTime + MAX_ELAPSED
    ensures var t, genesis := TransitionTime(m, now), m.previous.value.genesisTime;
            var done := now + 3 * m.dkgTimeout + m.offset;
            && done < t && Aligned(m.period, genesis, t)
            && (forall r: Round :: 1 <= r && done < TimeOfRound(m.period, genesis, r) ==>
                  t <= TimeOfRound(m.period, genesis, r))
  {
    var atLeast, genesis := now + TotalDkg(m), m.previous.value.genesisTime;
    NextRoundAligned(atLeast, m.period, genesis);
    var (next, t) := NextRound(atLeast, m.period, genesis);
    forall r: Round | 1 <= r && atLeast < TimeOfRound(m.period, genesis, r)
      ensures t <= TimeOfRound(m.period, genesis, r)
    {
      if atLeast >= genesis {
        RoundClock(atLeast, m.period, genesis, r);
        NextRoundTime(atLeast, m.period, genesis);
      }
      TimeOfRoundMonotone(m.period, genesis, next, r);
    }
  }

  /** `validateGroupTransition`. */
  predicate ValidTransition(h: Bytes -> Bytes, previous: Info, g: Info, now: int) {
    && previous.genesisTime == g.genesisTime && previous.period == g.period
    && Seed(h, previous) == Seed(h, g) && !(g.transitionTime < now)
  }

  /** A fresh setup is accepted exactly for a strict majority, with the parameters it was given. */
  lemma FreshSetup(leader: Identity, period: nat, catchup: nat, nodes: nat, threshold: nat, timeout: nat, offset: nat)
    ensures NewDkgSetup(leader, period, catchup, nodes, threshold, timeout, offset)
         == if nodes < 2 * threshold && threshold <= nodes
            then Ok(Manager(nodes, threshold, period, catchup, timeout, if offset == 0 then 1 else offset, leader, None))
            else Err
  {
  }

  lemma ReshareKeepsPeriod(leader: Identity, previous: Info, newCatchup: Option<nat>, nodes: nat,
                           threshold: nat, timeout: nat, offset: nat)
    requires 1 <= previous.period < TWO32
    ensures var m := NewReshareSetup(leader, previous, newCatchup, nodes, threshold, timeout, offset);
            && (m.Ok? <==> nodes < 2 * threshold && threshold <= nodes)
            && (m.Ok? ==> && m.value.previous == Some(previous) && m.value.period == previous.period
                          && m.value.expected == nodes && m.value.threshold == threshold && m.value.leader == leader
                          && m.value.dkgTimeout == timeout && m.value.offset == (if offset == 0 then 30 else offset)
                          && (newCatchup.Some? ==> m.value.catchup == newCatchup.value)
                          && (newCatchup.None? && 0 <= previous.catchup < TWO32 ==> m.value.catchup == previous.catchup))
  {
    assert WrapU32(previous.period) == previous.period;
  }

  /** A reshared group created by a leader is accepted by every member whose clock has not passed the
      transition, and old and new nodes apply the same alignment check to it. */
  lemma ReshareAccepted(h: Bytes -> Bytes, m: Manager, previous: Info, keys: seq<Identity>, now: nat, g: Info, clock: int)
    requires m.previous == Some(previous) && m.period == previous.period
    requires ValidSchedule(previous.period, previous.genesisTime)
    requires now + 3 * m.dkgTimeout + m.offset + m.period < previous.genesisTime + MAX_ELAPSED
    requires Creates(h, m, keys, now, g)
    ensures ValidTransition(h, previous, g, clock) <==> clock <= g.transitionTime
    ensures Aligned(previous.period, previous.genesisTime, g.transitionTime)
    ensures Aligned(g.period, g.genesisTime, g.transitionTime)
    ensures CurrentRound(g.transitionTime, g.period, g.genesisTime) >= 1
  {
    TransitionTheorem(m, now);
    NextRoundAligned(now + TotalDkg(m), m.period, previous.genesisTime);
  }
}
