/** What the echo broadcast costs, that it comes to rest, and when its queues lose nothing
    (core/broadcast.go). */
module EchoBounds {
  import opened Collections
  import opened Echo

  // ---- Counting letters -----------------------------------------------------------------

  /** `k` times `m`, added up. */
  function Sum(k: nat, m: nat): nat {
    if k == 0 then 0 else Sum(k - 1, m) + m
  }

  lemma {:induction false} SumIsProduct(k: nat, m: nat)
    ensures Sum(k, m) == k * m
    decreases k
  {
    if k > 0 {
      SumIsProduct(k - 1, m);
      assert k * m == (k - 1) * m + m;
    }
  }

  function Fan(i: nat, ids: set<nat>, p: Packet): set<Letter> {
    set j | j in ids :: Letter(i, j, p)
  }

  lemma {:induction false} FanSize(i: nat, ids: set<nat>, p: Packet)
    ensures |Fan(i, ids, p)| == |ids|
    decreases |ids|
  {
    if ids != {} {
      var j :| j in ids;
      FanSize(i, ids - {j}, p);
      assert Fan(i, ids, p) == Fan(i, ids - {j}, p) + {Letter(i, j, p)};
    }
  }

  /** All letters carrying `p` from the nodes below `k`. */
  function Flood(c: Params, k: nat, p: Packet): set<Letter> {
    if k == 0 then {} else Flood(c, k - 1, p) + Letters(c, k - 1, p)
  }

  lemma {:induction false} FloodMember(c: Params, k: nat, p: Packet, l: Letter)
    ensures l in Flood(c, k, p) <==> l.from < k && l.dest < c.n && l.from != l.dest && l.p == p
    decreases k
  {
    if k > 0 {
      FloodMember(c, k - 1, p, l);
      assert l in Letters(c, k - 1, p) <==> l.from == k - 1 && l.dest in Ids(c.n) && l.dest != l.from && l.p == p;
    }
  }

  lemma LettersSize(c: Params, i: nat, p: Packet)
    requires i < c.n
    ensures |Letters(c, i, p)| == c.n - 1
  {
    assert Letters(c, i, p) == Fan(i, Ids(c.n) - {i}, p);
    FanSize(i, Ids(c.n) - {i}, p);
  }

  lemma {:induction false} FloodSize(c: Params, k: nat, p: Packet)
    requires k <= c.n && 1 <= c.n
    ensures |Flood(c, k, p)| <= Sum(k, c.n - 1)
    decreases k
  {
    if k > 0 {
      var before, more := Flood(c, k - 1, p), Letters(c, k - 1, p);
      assert |before| <= Sum(k - 1, c.n - 1) by { FloodSize(c, k - 1, p); }
      assert |more| == c.n - 1 by { LettersSize(c, k - 1, p); }
      UnionSize(before, more);
    }
  }

  // ---- The cost of a packet -------------------------------------------------------------

  /** The letters one step hands to the queues or, for an own bundle, directly to the wire. */
  ghost function Emitted(c: Params, s: Net, t: Step): set<Letter>
    requires Enabled(c, s, t)
  {
    match t
    case Push(i, p) => Letters(c, i, p)
    case Inject(i, p) => Echoing(c, s, i, p)
    case Dequeue(_) => {}
    case Deliver(l) => Echoing(c, s, l.dest, l.p)
  }

  /** What node `i` sends when it receives `p`. */
  function Echoing(c: Params, s: Net, i: nat, p: Packet): set<Letter>
    requires i in s.peers
  {
    if Fresh(c, s.peers[i], p) then Letters(c, i, p) else {}
  }

  lemma ReceivedAnew(c: Params, s: Net, i: nat, p: Packet)
    requires HashInjective(c) && Inv(c, s) && i in s.peers
    ensures s.sent !! Echoing(c, s, i, p) && Receive(c, s, i, p).sent == s.sent + Echoing(c, s, i, p)
  {
    if Fresh(c, s.peers[i], p) {
      ReceiveEchoes(c, s, i, p, s.known + {p});
      EchoSendsAnew(c, s, Receive(c, s, i, p).(known := s.known + {p}), i, p);
    }
  }

  lemma PushedAnew(c: Params, s: Net, i: nat, p: Packet)
    requires HashInjective(c) && Inv(c, s) && Enabled(c, s, Push(i, p))
    ensures s.sent !! Letters(c, i, p)
  {
    var s' := Next(c, s, Push(i, p));
    assert PeerInv(c, s, s.peers[i]);
    HashOfDelivered(c, s, s.peers[i], p);
    assert Echoes(c, s, s', i, p);
    EchoSendsAnew(c, s, s', i, p);
  }

  /** No letter is emitted a second time. */
  lemma EmittedAnew(c: Params, s: Net, t: Step, s': Net)
    requires HashInjective(c) && Inv(c, s) && IsStep(c, s, t, s')
    ensures s.sent !! Emitted(c, s, t) && s'.sent == s.sent + Emitted(c, s, t)
  {
    match t
    case Push(i, p) => PushedAnew(c, s, i, p);
    case Inject(i, p) => ReceivedAnew(c, s, i, p);
    case Dequeue(_) =>
    case Deliver(l) => ReceivedAnew(c, s, l.dest, l.p);
  }

  /** The letters of a set that carry `p`. */
  function Carrying(letters: set<Letter>, p: Packet): set<Letter> {
    set l | l in letters && l.p == p
  }

  /** How often `p` was sent in the first `k` steps of a run, repetitions included. */
  ghost function Sends(c: Params, states: seq<Net>, steps: seq<Step>, k: nat, p: Packet): nat
    requires IsRun(c, states, steps) && k < |states|
    decreases k
  {
    if k == 0 then 0
    else
      assert StepAt(c, states, steps, k - 1);
      Sends(c, states, steps, k - 1, p) + |Carrying(Emitted(c, states[k - 1], steps[k - 1]), p)|
  }

  lemma CarryingSum(a: set<Letter>, b: set<Letter>, p: Packet)
    requires a !! b
    ensures |Carrying(a + b, p)| == |Carrying(a, p)| + |Carrying(b, p)|
  {
    assert Carrying(a + b, p) == Carrying(a, p) + Carrying(b, p);
  }

  /** The sends so far are as many as the letters sent. */
  ghost predicate Counted(c: Params, states: seq<Net>, steps: seq<Step>, k: nat, p: Packet)
    requires IsRun(c, states, steps) && k < |states|
  {
    Sends(c, states, steps, k, p) == |Carrying(states[k].sent, p)|
  }

  lemma CountedAtStart(c: Params, states: seq<Net>, steps: seq<Step>, p: Packet)
    requires IsRun(c, states, steps) && states[0].sent == {}
    ensures Counted(c, states, steps, 0, p)
  {
    assert Carrying(states[0].sent, p) == {};
  }

  /** Since nothing is sent twice, the sends are as many as the letters all along. */
  lemma {:induction false} SendsCounted(c: Params, states: seq<Net>, steps: seq<Step>, k: nat, p: Packet)
    requires HashInjective(c) && IsRun(c, states, steps) && InvAlong(c, states) && k < |states|
    requires Counted(c, states, steps, 0, p)
    ensures Counted(c, states, steps, k, p)
    decreases k
  {
    if k > 0 {
      SendsCounted(c, states, steps, k - 1, p);
      SendsGrow(c, states, steps, k, p);
    }
  }

  lemma SendsGrow(c: Params, states: seq<Net>, steps: seq<Step>, k: nat, p: Packet)
    requires HashInjective(c) && IsRun(c, states, steps) && InvAlong(c, states) && 0 < k < |states|
    requires Counted(c, states, steps, k - 1, p)
    ensures Counted(c, states, steps, k, p)
  {
    assert StepAt(c, states, steps, k - 1);
    assert InvAt(c, states, k - 1);
    var s, t := states[k - 1], steps[k - 1];
    EmittedAnew(c, s, t, states[k]);
    CarryingSum(s.sent, Emitted(c, s, t), p);
  }

  /** Main result: over a whole run a packet costs at most n(n-1) sends, every one counted. */
  lemma CostTheorem(c: Params, states: seq<Net>, steps: seq<Step>, k: nat, p: Packet)
    requires HashInjective(c) && IsRun(c, states, steps) && Initial(c, states[0]) && k < |states|
    requires c.n >= 1
    ensures Sends(c, states, steps, k, p) <= c.n * (c.n - 1)
  {
    RunInvAlong(c, states, steps);
    CountedAtStart(c, states, steps, p);
    SendsCounted(c, states, steps, k, p);
    assert InvAt(c, states, k);
    PacketLetters(c, states[k], p);
  }

  lemma CarryingWithin(c: Params, s: Net, p: Packet)
    requires Inv(c, s)
    ensures Carrying(s.sent, p) <= Flood(c, c.n, p)
  {
    forall l | l in Carrying(s.sent, p) ensures l in Flood(c, c.n, p) {
      assert LetterInv(s, l);
      FloodMember(c, c.n, p, l);
    }
  }

  lemma FloodBound(c: Params, p: Packet)
    requires c.n >= 1
    ensures |Flood(c, c.n, p)| <= c.n * (c.n - 1)
  {
    FloodSize(c, c.n, p);
    SumIsProduct(c.n, c.n - 1);
  }

  lemma PacketLetters(c: Params, s: Net, p: Packet)
    requires Inv(c, s) && c.n >= 1
    ensures |Carrying(s.sent, p)| <= c.n * (c.n - 1)
  {
    CarryingWithin(c, s, p);
    SubsetSize(Carrying(s.sent, p), Flood(c, c.n, p));
    FloodBound(c, p);
  }

  function Universe(c: Params, ps: set<Packet>): set<Letter> {
    set l, p | p in ps && l in Flood(c, c.n, p) :: l
  }

  lemma {:induction false} UniverseSize(c: Params, ps: set<Packet>)
    requires c.n >= 1
    ensures |Universe(c, ps)| <= Sum(|ps|, Sum(c.n, c.n - 1))
    decreases |ps|
  {
    if ps != {} {
      var p :| p in ps;
      var rest := ps - {p};
      UniverseSize(c, rest);
      FloodSize(c, c.n, p);
      assert Universe(c, ps) == Universe(c, rest) + Flood(c, c.n, p);
      UnionSize(Universe(c, rest), Flood(c, c.n, p));
      assert |ps| == |rest| + 1;
    }
  }

  lemma SentWithin(c: Params, s: Net)
    requires Inv(c, s)
    ensures s.sent <= Universe(c, s.known)
  {
    forall l | l in s.sent ensures l in Universe(c, s.known) {
      assert LetterInv(s, l);
      assert PeerInv(c, s, s.peers[l.from]);
      FloodMember(c, c.n, l.p, l);
    }
  }

  // ---- Coming to rest -------------------------------------------------------------------

  /** A letter is in one place only. */
  ghost predicate Apart(s: Net) {
    s.queued !! s.wire && s.queued !! s.handled && s.wire !! s.handled
  }

  lemma ReceiveKeepsApart(c: Params, s: Net, i: nat, p: Packet)
    requires HashInjective(c) && Inv(c, s) && Apart(s) && i in s.peers
    ensures Apart(Receive(c, s, i, p))
  {
    if Fresh(c, s.peers[i], p) {
      ReceivedAnew(c, s, i, p);
    }
  }

  lemma PushKeepsApart(c: Params, s: Net, i: nat, p: Packet)
    requires HashInjective(c) && Inv(c, s) && Apart(s) && Enabled(c, s, Push(i, p))
    ensures Apart(Next(c, s, Push(i, p)))
  {
    PushedAnew(c, s, i, p);
  }

  lemma StepKeepsApart(c: Params, s: Net, t: Step, s': Net)
    requires HashInjective(c) && Inv(c, s) && Apart(s) && IsStep(c, s, t, s')
    ensures Apart(s')
  {
    match t
    case Push(i, p) => PushKeepsApart(c, s, i, p);
    case Inject(i, p) => ReceiveKeepsApart(c, s, i, p);
    case Dequeue(l) =>
    case Deliver(l) => DeliverKeepsApart(c, s, l);
  }

  lemma DeliverKeepsApart(c: Params, s: Net, l: Letter)
    requires HashInjective(c) && Inv(c, s) && Apart(s) && Enabled(c, s, Deliver(l))
    ensures Apart(Next(c, s, Deliver(l)))
  {
    var taken := Receive(c, s, l.dest, l.p);
    assert Apart(taken) by { ReceiveKeepsApart(c, s, l.dest, l.p); }
    assert Next(c, s, Deliver(l)) == taken.(wire := taken.wire - {l}, handled := taken.handled + {l});
    assert l !in taken.queued by { ReceiveKeepsWire(c, s, l); }
  }

  lemma ReceiveKeepsWire(c: Params, s: Net, l: Letter)
    requires Inv(c, s) && Apart(s) && l in s.wire && l.dest in s.peers
    ensures l !in Receive(c, s, l.dest, l.p).queued
  {
    assert LetterInv(s, l);
  }

  lemma RunKeepsApart(c: Params, states: seq<Net>, steps: seq<Step>, k: nat)
    requires HashInjective(c) && IsRun(c, states, steps) && InvAlong(c, states) && 0 < k < |states|
    requires Apart(states[k - 1])
    ensures Apart(states[k])
  {
    assert StepAt(c, states, steps, k - 1);
    assert InvAt(c, states, k - 1);
    StepKeepsApart(c, states[k - 1], steps[k - 1], states[k]);
  }

  lemma {:induction false} ReachableApart(c: Params, states: seq<Net>, steps: seq<Step>, k: nat)
    requires HashInjective(c) && IsRun(c, states, steps) && InvAlong(c, states) && k < |states|
    requires Apart(states[0])
    ensures Apart(states[k])
    decreases k
  {
    if k > 0 {
      ReachableApart(c, states, steps, k - 1);
      RunKeepsApart(c, states, steps, k);
    }
  }

  /** How many letters have left their queue, plus how many have been handled. */
  function Progress(s: Net): nat {
    |s.wire + s.handled| + |s.handled|
  }

  /** The progress still to be made before the network is at rest, given `m` packets. */
  function Remaining(c: Params, s: Net, m: nat): int
    requires c.n >= 1
  {
    2 * Sum(m, Sum(c.n, c.n - 1)) - Progress(s)
  }

  /** The measure is never negative, and each step of the network itself decreases it. */
  lemma RemainingBound(c: Params, s: Net)
    requires Accounted(s) && s.sent <= Universe(c, s.known) && c.n >= 1
    ensures 0 <= Remaining(c, s, |s.known|)
  {
    UniverseSize(c, s.known);
    ProgressBound(s, Universe(c, s.known));
  }

  lemma ProgressBound(s: Net, u: set<Letter>)
    requires Accounted(s) && s.sent <= u
    ensures Progress(s) <= 2 * |u|
  {
    assert s.wire + s.handled <= u && s.handled <= u;
    SubsetSize(s.wire + s.handled, u);
    SubsetSize(s.handled, u);
  }

  lemma DequeueProgress(c: Params, s: Net, l: Letter)
    requires Apart(s) && Enabled(c, s, Dequeue(l))
    ensures Progress(Next(c, s, Dequeue(l))) == Progress(s) + 1
    ensures Next(c, s, Dequeue(l)).known == s.known
  {
    var s' := Next(c, s, Dequeue(l));
    assert s'.wire + s'.handled == (s.wire + s.handled) + {l};
    assert l !in s.wire + s.handled;
  }

  lemma DeliverProgress(c: Params, s: Net, l: Letter)
    requires Apart(s) && Enabled(c, s, Deliver(l))
    ensures Progress(Next(c, s, Deliver(l))) == Progress(s) + 1
    ensures Next(c, s, Deliver(l)).known == s.known
  {
    var s' := Next(c, s, Deliver(l));
    assert s'.wire == s.wire - {l} && s'.handled == s.handled + {l};
    assert s'.wire + s'.handled == s.wire + s.handled;
    assert l !in s.handled;
  }

  lemma QuietProgress(c: Params, s: Net, t: Step, s': Net)
    requires Apart(s) && IsStep(c, s, t, s') && (t.Dequeue? || t.Deliver?)
    ensures Progress(s') == Progress(s) + 1 && s'.known == s.known
  {
    if t.Dequeue? {
      DequeueProgress(c, s, t.l);
    } else {
      DeliverProgress(c, s, t.l);
    }
  }

  lemma RunProgress(c: Params, states: seq<Net>, steps: seq<Step>, k: nat)
    requires IsRun(c, states, steps) && 0 < k < |states| && Apart(states[k - 1])
    requires steps[k - 1].Dequeue? || steps[k - 1].Deliver?
    ensures Progress(states[k]) == Progress(states[k - 1]) + 1 && states[k].known == states[k - 1].known
  {
    assert StepAt(c, states, steps, k - 1);
    QuietProgress(c, states[k - 1], steps[k - 1], states[k]);
  }

  lemma {:induction false} QuietRun(c: Params, states: seq<Net>, steps: seq<Step>, a: nat, b: nat)
    requires HashInjective(c) && IsRun(c, states, steps) && InvAlong(c, states) && Apart(states[0])
    requires a <= b < |states|
    requires forall k :: a <= k < b ==> steps[k].Dequeue? || steps[k].Deliver?
    ensures Progress(states[b]) == Progress(states[a]) + (b - a) && states[b].known == states[a].known
    decreases b
  {
    if a < b {
      QuietRun(c, states, steps, a, b - 1);
      ReachableApart(c, states, steps, b - 1);
      RunProgress(c, states, steps, b);
    }
  }

  lemma ReachableRemaining(c: Params, states: seq<Net>, b: nat)
    requires InvAlong(c, states) && b < |states| && c.n >= 1
    ensures 0 <= Remaining(c, states[b], |states[b].known|)
  {
    assert InvAt(c, states, b);
    SentWithin(c, states[b]);
    RemainingBound(c, states[b]);
  }

  /** Until it is at rest, the network can go on by itself. */
  lemma GoesOn(c: Params, states: seq<Net>, b: nat)
    requires InvAlong(c, states) && b < |states| && !Quiescent(states[b])
    ensures exists t :: Enabled(c, states[b], t) && (t.Dequeue? || t.Deliver?)
  {
    var s := states[b];
    if s.queued != {} {
      var l :| l in s.queued;
      assert Enabled(c, s, Dequeue(l));
    } else {
      var l :| l in s.wire;
      assert InvAt(c, states, b);
      WireLetter(c, s, l);
      assert Enabled(c, s, Deliver(l));
    }
  }

  /** Main result: once no new packet enters, the network comes to rest. From any reachable state, at most
      2n(n-1) steps per packet known there can follow, and as long as it is not at rest one can. */
  lemma QuiescenceTheorem(c: Params, states: seq<Net>, steps: seq<Step>, a: nat, b: nat)
    requires HashInjective(c) && IsRun(c, states, steps) && Initial(c, states[0]) && c.n >= 1
    requires a <= b < |states|
    requires forall k :: a <= k < b ==> steps[k].Dequeue? || steps[k].Deliver?
    ensures b - a <= 2 * (|states[a].known| * (c.n * (c.n - 1)))
    ensures Quiescent(states[b]) || exists t :: Enabled(c, states[b], t) && (t.Dequeue? || t.Deliver?)
  {
    RunInvAlong(c, states, steps);
    if !Quiescent(states[b]) {
      GoesOn(c, states, b);
    }
    QuietRun(c, states, steps, a, b);
    ReachableRemaining(c, states, b);
    SumIsProduct(c.n, c.n - 1);
    SumIsProduct(|states[a].known|, c.n * (c.n - 1));
  }

  // ---- Queues that lose nothing ---------------------------------------------------------

  function Burst(i: nat, j: nat, ps: set<Packet>): set<Letter> {
    set p | p in ps :: Letter(i, j, p)
  }

  lemma {:induction false} BurstSize(i: nat, j: nat, ps: set<Packet>)
    ensures |Burst(i, j, ps)| == |ps|
    decreases |ps|
  {
    if ps != {} {
      var p :| p in ps;
      BurstSize(i, j, ps - {p});
      assert Burst(i, j, ps) == Burst(i, j, ps - {p}) + {Letter(i, j, p)};
    }
  }

  /** Everything queued or on the wire carries one of `ps`. */
  ghost predicate InFlightOf(s: Net, ps: set<Packet>) {
    forall l :: l in s.queued || l in s.wire ==> l.p in ps
  }

  /** The packets a step brings in from outside. */
  function Enters(t: Step): set<Packet> {
    if t.Push? || t.Inject? then {t.p} else {}
  }

  /** The packets that entered in steps `a` to `k`. */
  function Entered(steps: seq<Step>, a: nat, k: nat): set<Packet>
    requires k <= |steps|
    decreases k
  {
    if k <= a then {} else Entered(steps, a, k - 1) + Enters(steps[k - 1])
  }

  /** A queue never holds a packet twice, so it has room as long as few packets are around. */
  lemma RoomInQueue(c: Params, s: Net, i: nat, j: nat, p: Packet, ps: set<Packet>)
    requires Inv(c, s) && InFlightOf(s, ps) && p in ps && |ps| <= QueueSize(c.n)
    requires Letter(i, j, p) !in s.sent
    ensures |Backlog(s, i, j)| < QueueSize(c.n)
  {
    forall l | l in Backlog(s, i, j) ensures l in Burst(i, j, ps - {p}) {
      assert l in s.sent;
    }
    BurstSize(i, j, ps - {p});
    SubsetSize(Backlog(s, i, j), Burst(i, j, ps - {p}));
  }

  lemma NothingDropped(c: Params, s: Net, i: nat, p: Packet, ps: set<Packet>)
    requires HashInjective(c) && Inv(c, s) && i in s.peers && Fresh(c, s.peers[i], p)
    requires InFlightOf(s, ps) && p in ps && |ps| <= QueueSize(c.n)
    ensures Dropped(c, s, i, p) == {}
  {
    ReceivedAnew(c, s, i, p);
    forall l | l in Letters(c, i, p) ensures l !in Dropped(c, s, i, p) {
      RoomInQueue(c, s, i, l.dest, p, ps);
    }
  }

  lemma StepLosesNothing(c: Params, s: Net, t: Step, s': Net, ps: set<Packet>)
    requires HashInjective(c) && Inv(c, s) && IsStep(c, s, t, s')
    requires InFlightOf(s, ps) && Enters(t) <= ps && |ps| <= QueueSize(c.n)
    ensures s'.lost == s.lost
  {
    match t
    case Push(i, p) =>
    case Inject(i, p) => ReceiveLosesNothing(c, s, i, p, ps);
    case Dequeue(l) =>
    case Deliver(l) => ReceiveLosesNothing(c, s, l.dest, l.p, ps);
  }

  lemma ReceiveLosesNothing(c: Params, s: Net, i: nat, p: Packet, ps: set<Packet>)
    requires HashInjective(c) && Inv(c, s) && i in s.peers
    requires InFlightOf(s, ps) && p in ps && |ps| <= QueueSize(c.n)
    ensures Receive(c, s, i, p).lost == s.lost
  {
    if Fresh(c, s.peers[i], p) {
      NothingDropped(c, s, i, p, ps);
    }
  }

  lemma StepKeepsFlight(c: Params, s: Net, t: Step, s': Net, ps: set<Packet>)
    requires IsStep(c, s, t, s') && InFlightOf(s, ps) && Enters(t) <= ps
    ensures InFlightOf(s', ps)
  {
  }

  lemma {:induction false} FlightSince(c: Params, states: seq<Net>, steps: seq<Step>, a: nat, k: nat)
    requires IsRun(c, states, steps) && a <= k < |states| && Quiescent(states[a])
    ensures InFlightOf(states[k], Entered(steps, a, k))
    decreases k
  {
    if a < k {
      FlightSince(c, states, steps, a, k - 1);
      RunKeepsFlight(c, states, steps, k, Entered(steps, a, k));
    }
  }

  lemma RunKeepsFlight(c: Params, states: seq<Net>, steps: seq<Step>, k: nat, ps: set<Packet>)
    requires IsRun(c, states, steps) && 0 < k < |states|
    requires InFlightOf(states[k - 1], ps) && Enters(steps[k - 1]) <= ps
    ensures InFlightOf(states[k], ps)
  {
    assert StepAt(c, states, steps, k - 1);
    StepKeepsFlight(c, states[k - 1], steps[k - 1], states[k], ps);
  }

  lemma {:induction false} LostSince(c: Params, states: seq<Net>, steps: seq<Step>, a: nat, k: nat)
    requires HashInjective(c) && IsRun(c, states, steps) && InvAlong(c, states)
    requires a <= k < |states| && Quiescent(states[a]) && |Entered(steps, a, k)| <= QueueSize(c.n)
    ensures states[k].lost == states[a].lost
    decreases k
  {
    if a < k {
      var ps := Entered(steps, a, k);
      SubsetSize(Entered(steps, a, k - 1), ps);
      LostSince(c, states, steps, a, k - 1);
      FlightSince(c, states, steps, a, k - 1);
      RunLosesNothing(c, states, steps, k, ps);
    }
  }

  /** Main result: from any state of rest on, nothing more is lost as long as no more packets enter than
      a queue has places, however many were around before. */
  lemma NothingLost(c: Params, states: seq<Net>, steps: seq<Step>, a: nat, k: nat)
    requires HashInjective(c) && IsRun(c, states, steps) && Initial(c, states[0])
    requires a <= k < |states| && Quiescent(states[a]) && |Entered(steps, a, k)| <= QueueSize(c.n)
    ensures states[k].lost == states[a].lost
  {
    RunInvAlong(c, states, steps);
    LostSince(c, states, steps, a, k);
  }

  lemma RunLosesNothing(c: Params, states: seq<Net>, steps: seq<Step>, k: nat, ps: set<Packet>)
    requires HashInjective(c) && IsRun(c, states, steps) && InvAlong(c, states) && 0 < k < |states|
    requires InFlightOf(states[k - 1], ps) && Enters(steps[k - 1]) <= ps && |ps| <= QueueSize(c.n)
    ensures states[k].lost == states[k - 1].lost
  {
    assert StepAt(c, states, steps, k - 1);
    assert InvAt(c, states, k - 1);
    StepLosesNothing(c, states[k - 1], steps[k - 1], states[k], ps);
  }

  /** Main result: a phase of a broadcast, from rest to rest, in which at most a queue's worth of packets
      enter, injected ones included, leaves all nodes with the same hashes, and each has delivered exactly
      the valid packets that were ever pushed or injected. */
  lemma FloodTheorem(c: Params, states: seq<Net>, steps: seq<Step>, a: nat, k: nat, i: nat, j: nat)
    requires HashInjective(c) && IsRun(c, states, steps) && Initial(c, states[0])
    requires a <= k < |states| && Quiescent(states[a]) && states[a].lost == {}
    requires |Entered(steps, a, k)| <= QueueSize(c.n) && Quiescent(states[k]) && i < c.n && j < c.n
    ensures states[k].lost == {}
    ensures i in states[k].peers && j in states[k].peers
    ensures forall h :: h in states[k].peers[i].hashes <==> h in states[k].peers[j].hashes
    ensures forall p :: p in states[k].peers[i].app <==> c.valid(p) && p in Entered(steps, 0, k)
  {
    NothingLost(c, states, steps, a, k);
    AgreementTheorem(c, states, steps, k, i, j);
    KnownEntered(c, states, steps, k);
    forall p ensures p in states[k].peers[i].app <==> c.valid(p) && p in Entered(steps, 0, k) {
      CompletenessTheorem(c, states, steps, k, i, p);
    }
  }

  /** The known packets are those that nodes pushed and those that were injected. */
  lemma {:induction false} KnownEntered(c: Params, states: seq<Net>, steps: seq<Step>, k: nat)
    requires IsRun(c, states, steps) && Initial(c, states[0]) && k < |states|
    ensures states[k].known == Entered(steps, 0, k)
    decreases k
  {
    if k > 0 {
      KnownEntered(c, states, steps, k - 1);
      assert StepAt(c, states, steps, k - 1);
    }
  }

  // ---- Application channels -------------------------------------------------------------

  function OfKind(ps: set<Packet>, k: Kind): set<Packet> {
    set p | p in ps && p.kind == k
  }

  function Delivered(peer: Peer): set<Packet> {
    set p | p in peer.app
  }

  /** Main result: as long as no more packets of a kind are known than there are nodes, the hand-over never
      blocks, even if the application reads nothing: a node that receives a new packet of the kind has
      handed over fewer than its channel holds. */
  lemma NeverBlocks(c: Params, states: seq<Net>, steps: seq<Step>, k: nat, i: nat, p: Packet)
    requires HashInjective(c) && IsRun(c, states, steps) && Initial(c, states[0]) && k < |states|
    requires i in states[k].peers && Fresh(c, states[k].peers[i], p)
    requires |OfKind(states[k].known + {p}, p.kind)| <= c.n
    ensures |OfKind(Delivered(states[k].peers[i]), p.kind)| < c.n
  {
    Reachable(c, states, steps, k);
    var s, peer := states[k], states[k].peers[i];
    assert PeerInv(c, s, peer);
    HashOfDelivered(c, s, peer, p);
    SubsetSize(OfKind(Delivered(peer), p.kind), OfKind(s.known + {p}, p.kind) - {p});
  }
}
