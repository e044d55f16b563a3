/** The echo broadcast used during the DKG (core/broadcast.go): each node rebroadcasts every new
    valid packet once, to everyone else, over bounded per-peer queues. */
module Echo {
  import opened Bytes
  import opened Collections

  const MAX_QUEUE_SIZE: nat := 1000

  datatype Kind = Deal | Response | Justification

  datatype Packet = Packet(kind: Kind, body: Bytes)

  /** The number of nodes, the packet hash, and the verifier they all share. */
  datatype Params = Params(n: nat, digest: Packet -> Bytes, valid: Packet -> bool)

  ghost predicate HashInjective(c: Params) {
    forall p, q :: c.digest(p) == c.digest(q) ==> p == q
  }

  /** `senderQueueSize`. */
  function QueueSize(n: nat): nat {
    if n > MAX_QUEUE_SIZE then MAX_QUEUE_SIZE else n
  }

  /** The node identifiers below `n`. */
  function Ids(n: nat): (ids: set<nat>)
    ensures |ids| == n
    ensures forall i: nat :: i in ids <==> i < n
  {
    if n == 0 then {} else Ids(n - 1) + {n - 1}
  }

  // ---- One node -------------------------------------------------------------------------

  /** `arraySet.put`. */
  function PutHash(hashes: seq<Bytes>, h: Bytes): seq<Bytes> {
    if h in hashes then hashes else hashes + [h]
  }

  /** The node's hashes and what it has handed to the application. */
  datatype Peer = Peer(hashes: seq<Bytes>, app: seq<Packet>)

  /** Whether a received packet is new to the node and valid, and so echoed and delivered. */
  predicate Fresh(c: Params, peer: Peer, p: Packet) {
    c.digest(p) !in peer.hashes && c.valid(p)
  }

  function Take(c: Params, peer: Peer, p: Packet): Peer {
    Peer(PutHash(peer.hashes, c.digest(p)), peer.app + [p])
  }

  /** How a call ended: accepted, refused, or waiting for the application to read. */
  datatype Verdict = Accepted | Refused | Blocked

  class EchoBroadcast {
    const params: Params
    const own: nat
    var hashes: seq<Bytes>
    /** Everything handed to the application so far. */
    var app: seq<Packet>
    /** What the application has not read yet, one channel of length n per kind. */
    var inbox: map<Kind, seq<Packet>>
    /** One bounded queue per other node. */
    var queues: map<nat, seq<Packet>>
    /** Packets handed to `broadcastDirect`. */
    var direct: seq<Packet>

    ghost function State(): Peer
      reads this
    {
      Peer(hashes, app)
    }

    ghost predicate Valid()
      reads this
    {
      queues.Keys == Ids(params.n) - {own} && forall k: Kind :: k in inbox && |inbox[k]| <= params.n
    }

    predicate HasRoom(p: Packet)
      requires p.kind in inbox
      reads this
    {
      |inbox[p.kind]| < params.n
    }

    constructor (params: Params, own: nat)
      ensures Valid() && State() == Peer([], []) && direct == []
      ensures forall d :: d in queues ==> queues[d] == []
      ensures forall k :: k in inbox ==> inbox[k] == []
      ensures this.params == params && this.own == own
    {
      this.params := params;
      this.own := own;
      hashes := [];
      app := [];
      direct := [];
      queues := map i | i in Ids(params.n) - {own} :: [];
      inbox := map[Deal := [], Response := [], Justification := []];
      new;
      forall k: Kind ensures k in inbox {
        assert k == Deal || k == Response || k == Justification;
      }
    }

    /** The application takes the oldest packet of a kind. */
    method Read(k: Kind) returns (p: Option<Packet>)
      requires Valid()
      modifies this`inbox
      ensures Valid() && (p.None? <==> old(inbox)[k] == [])
      ensures inbox == if p.Some? then old(inbox)[k := old(inbox)[k][1..]] else old(inbox)
      ensures p.Some? ==> p.value == old(inbox)[k][0]
    {
      if inbox[k] == [] {
        return None;
      }
      p := Some(inbox[k][0]);
      inbox := inbox[k := inbox[k][1..]];
    }

    method Exists(h: Bytes) returns (found: bool)
      ensures found <==> h in hashes
    {
      for i := 0 to |hashes|
        invariant h !in hashes[..i]
      {
        if hashes[i] == h {
          return true;
        }
      }
      return false;
    }

    method Put(h: Bytes)
      modifies this`hashes
      ensures hashes == PutHash(old(hashes), h)
    {
      for i := 0 to |hashes|
        invariant hashes == old(hashes) && h !in hashes[..i]
      {
        if hashes[i] == h {
          return;
        }
      }
      hashes := hashes + [h];
    }

    /** `dispatcher.broadcast`: a full queue loses the packet. The peers are visited in any order. */
    method Broadcast(p: Packet)
      requires Valid()
      modifies this`queues
      ensures Valid()
      ensures forall d :: d in queues ==>
        queues[d] == if |old(queues)[d]| < QueueSize(params.n) then old(queues)[d] + [p] else old(queues)[d]
    {
      var todo := queues.Keys;
      while todo != {}
        invariant todo <= queues.Keys == old(queues).Keys
        invariant forall d :: d in queues ==>
          queues[d] == if d !in todo && |old(queues)[d]| < QueueSize(params.n)
                       then old(queues)[d] + [p] else old(queues)[d]
        decreases todo
      {
        var d :| d in todo;
        if |queues[d]| < QueueSize(params.n) {
          queues := queues[d := queues[d] + [p]];
        }
        todo := todo - {d};
      }
    }

    /** A packet goes to the channel of its kind, if there is room. */
    method HandOver(p: Packet) returns (ok: bool)
      requires Valid()
      modifies this`app, this`inbox
      ensures Valid() && ok == old(HasRoom(p))
      ensures app == if ok then old(app) + [p] else old(app)
      ensures inbox == if ok then old(inbox)[p.kind := old(inbox)[p.kind] + [p]] else old(inbox)
    {
      ok := |inbox[p.kind]| < params.n;
      if ok {
        app := app + [p];
        inbox := inbox[p.kind := inbox[p.kind] + [p]];
      }
    }

    /** `PushDeals`, `PushResponses` and `PushJustifications`: handed over first, without the lock. */
    method PushOwn(p: Packet) returns (v: Verdict)
      requires Valid()
      modifies this
      ensures Valid() && queues == old(queues)
      ensures v == if old(HasRoom(p)) then Accepted else Blocked
      ensures State() == if v.Accepted? then Take(params, old(State()), p) else old(State())
      ensures direct == if v.Accepted? then old(direct) + [p] else old(direct)
    {
      var ok := HandOver(p);
      if !ok {
        return Blocked;
      }
      Put(params.digest(p));
      direct := direct + [p];
      return Accepted;
    }

    /** A blocked call has sent the packet on and holds the lock until the application reads. */
    method BroadcastDKG(p: Packet) returns (v: Verdict)
      requires Valid()
      modifies this
      ensures Valid() && direct == old(direct)
      ensures v.Refused? <==> params.digest(p) !in old(hashes) && !params.valid(p)
      ensures v.Blocked? <==> Fresh(params, old(State()), p) && !old(HasRoom(p))
      ensures !Fresh(params, old(State()), p) ==> State() == old(State()) && queues == old(queues)
      ensures Fresh(params, old(State()), p) ==>
        && hashes == old(hashes) + [params.digest(p)]
        && app == if v.Accepted? then old(app) + [p] else old(app)
      ensures Fresh(params, old(State()), p) ==> forall d :: d in queues ==>
        queues[d] == if |old(queues)[d]| < QueueSize(params.n) then old(queues)[d] + [p] else old(queues)[d]
    {
      var h := params.digest(p);
      var seen := Exists(h);
      if seen {
        return Accepted;
      }
      if !params.valid(p) {
        return Refused;
      }
      Put(h);
      Broadcast(p);
      var ok := HandOver(p);
      return if ok then Accepted else Blocked;
    }
  }

  // ---- The network ----------------------------------------------------------------------

  datatype Letter = Letter(from: nat, dest: nat, p: Packet)

  /** A letter ever sent waits in its sender's queue, is on the wire, has been handled, or was lost
      to a full queue. `known` are the packets that entered the network. */
  datatype Net = Net(
    peers: map<nat, Peer>, sent: set<Letter>, queued: set<Letter>, wire: set<Letter>, handled: set<Letter>,
    lost: set<Letter>, known: set<Packet>)

  datatype Step =
    | Push(i: nat, p: Packet)      // a node broadcasts its own new bundle
    | Inject(i: nat, p: Packet)    // anyone calls BroadcastDKG on a node
    | Dequeue(l: Letter)           // sender.run
    | Deliver(l: Letter)           // BroadcastDKG on the receiver

  /** The letters by which node `i` sends `p` to everyone else. */
  function Letters(c: Params, i: nat, p: Packet): set<Letter> {
    set j | j in Ids(c.n) && j != i :: Letter(i, j, p)
  }

  /** The queue of one link. */
  function Backlog(s: Net, i: nat, j: nat): set<Letter> {
    set l | l in s.queued && l.from == i && l.dest == j
  }

  function Dropped(c: Params, s: Net, i: nat, p: Packet): set<Letter> {
    set l | l in Letters(c, i, p) && |Backlog(s, i, l.dest)| >= QueueSize(c.n)
  }

  /** `BroadcastDKG` at node `i`. */
  function Receive(c: Params, s: Net, i: nat, p: Packet): Net
    requires i in s.peers
  {
    if !Fresh(c, s.peers[i], p) then s
    else s.(peers := s.peers[i := Take(c, s.peers[i], p)],
            sent := s.sent + Letters(c, i, p),
            queued := s.queued + (Letters(c, i, p) - Dropped(c, s, i, p)),
            lost := s.lost + Dropped(c, s, i, p))
  }

  ghost predicate Enabled(c: Params, s: Net, t: Step) {
    match t
    case Push(i, p) =>   // a bundle signed by this node, that nobody has seen before
      i in s.peers && c.valid(p) && p !in s.known
    case Inject(i, _) => i in s.peers
    case Dequeue(l) => l in s.queued
    case Deliver(l) => l in s.wire && l.dest in s.peers
  }

  function Next(c: Params, s: Net, t: Step): Net
    requires Enabled(c, s, t)
  {
    match t
    case Push(i, p) =>
      s.(peers := s.peers[i := Take(c, s.peers[i], p)], known := s.known + {p},
         sent := s.sent + Letters(c, i, p), wire := s.wire + Letters(c, i, p))
    case Inject(i, p) => Receive(c, s, i, p).(known := s.known + {p})
    case Dequeue(l) => s.(queued := s.queued - {l}, wire := s.wire + {l})
    case Deliver(l) =>
      var s' := Receive(c, s, l.dest, l.p);
      s'.(wire := s'.wire - {l}, handled := s'.handled + {l})
  }

  ghost predicate Initial(c: Params, s: Net) {
    && s.peers.Keys == Ids(c.n) && (forall i :: i in s.peers ==> s.peers[i] == Peer([], []))
    && s == Net(s.peers, {}, {}, {}, {}, {}, {})
  }

  ghost predicate IsStep(c: Params, s: Net, t: Step, s': Net) {
    Enabled(c, s, t) && s' == Next(c, s, t)
  }

  /** Step `k` leads from state `k` to the next one. */
  ghost predicate StepAt(c: Params, states: seq<Net>, steps: seq<Step>, k: nat)
    requires |states| == |steps| + 1 && k < |steps|
  {
    IsStep(c, states[k], steps[k], states[k + 1])
  }

  ghost predicate IsRun(c: Params, states: seq<Net>, steps: seq<Step>) {
    && |states| == |steps| + 1
    && forall k {:trigger StepAt(c, states, steps, k)} :: 0 <= k < |steps| ==> StepAt(c, states, steps, k)
  }

  // ---- Invariants -----------------------------------------------------------------------

  /** The node's hashes are those of what it delivered, in order and once each, all valid and known. */
  ghost predicate PeerInv(c: Params, s: Net, peer: Peer) {
    && NoRepeats(peer.app) && |peer.hashes| == |peer.app|
    && (forall i :: 0 <= i < |peer.app| ==> peer.hashes[i] == c.digest(peer.app[i]))
    && (forall p :: p in peer.app ==> c.valid(p) && p in s.known)
  }

  lemma HashOfDelivered(c: Params, s: Net, peer: Peer, p: Packet)
    requires HashInjective(c) && PeerInv(c, s, peer)
    ensures p in peer.app <==> c.digest(p) in peer.hashes
  {
    if p in peer.app {
      var i :| 0 <= i < |peer.app| && peer.app[i] == p;
      assert peer.hashes[i] == c.digest(p);
    } else {
      forall i | 0 <= i < |peer.hashes| ensures peer.hashes[i] != c.digest(p) {
        assert peer.app[i] != p;
      }
    }
  }

  ghost predicate LetterInv(s: Net, l: Letter) {
    && l.from in s.peers && l.dest in s.peers && l.from != l.dest
    && l.p in s.peers[l.from].app
    && (l in s.handled ==> l.p in s.peers[l.dest].app)
  }

  ghost predicate PeersOk(c: Params, s: Net) {
    s.peers.Keys == Ids(c.n) && forall i :: i in s.peers ==> PeerInv(c, s, s.peers[i])
  }

  ghost predicate LettersOk(s: Net) {
    forall l :: l in s.sent ==> LetterInv(s, l)
  }

  /** Whatever a node delivered, it has sent to everyone else. */
  ghost predicate Echoed(s: Net) {
    forall i, j, p :: i in s.peers && j in s.peers && i != j && p in s.peers[i].app ==> Letter(i, j, p) in s.sent
  }

  /** The four places a sent letter can be in. */
  ghost predicate Accounted(s: Net) {
    forall l :: l in s.sent <==> l in s.queued || l in s.wire || l in s.handled || l in s.lost
  }

  ghost predicate Inv(c: Params, s: Net) {
    PeersOk(c, s) && LettersOk(s) && Echoed(s) && Accounted(s)
  }

  lemma TakeKeepsPeer(c: Params, s: Net, s': Net, peer: Peer, p: Packet)
    requires HashInjective(c) && PeerInv(c, s, peer) && s.known <= s'.known
    requires c.digest(p) !in peer.hashes && c.valid(p) && p in s'.known
    ensures PeerInv(c, s', Take(c, peer, p))
  {
    HashOfDelivered(c, s, peer, p);
  }

  /** Node `i` takes a packet it has not seen and sends it to everyone. */
  ghost predicate Echoes(c: Params, s: Net, s': Net, i: nat, p: Packet) {
    && i in s.peers && Fresh(c, s.peers[i], p) && p in s'.known && s.known <= s'.known
    && s'.peers == s.peers[i := Take(c, s.peers[i], p)]
    && s'.sent == s.sent + Letters(c, i, p) && s'.handled == s.handled && Accounted(s')
  }

  /** None of the letters of an echo had been sent before. */
  lemma EchoSendsAnew(c: Params, s: Net, s': Net, i: nat, p: Packet)
    requires HashInjective(c) && Inv(c, s) && Echoes(c, s, s', i, p)
    ensures s.sent !! Letters(c, i, p)
  {
    HashOfDelivered(c, s, s.peers[i], p);
    assert forall l :: l in Letters(c, i, p) && l in s.sent ==> !LetterInv(s, l);
  }

  lemma EchoKeepsPeers(c: Params, s: Net, s': Net, i: nat, p: Packet)
    requires HashInjective(c) && PeersOk(c, s) && Echoes(c, s, s', i, p)
    ensures PeersOk(c, s')
  {
    TakeKeepsPeer(c, s, s', s.peers[i], p);
    forall k | k in s'.peers ensures PeerInv(c, s', s'.peers[k]) {
      assert PeerInv(c, s, s.peers[k]);
    }
  }

  lemma EchoKeepsLetters(c: Params, s: Net, s': Net, i: nat, p: Packet)
    requires s.peers.Keys == Ids(c.n) && LettersOk(s) && Echoes(c, s, s', i, p)
    requires s.handled !! Letters(c, i, p)
    ensures LettersOk(s')
  {
    forall l | l in s'.sent ensures LetterInv(s', l) {
      if l in s.sent {
        assert LetterInv(s, l);
      }
    }
  }

  lemma EchoKeepsEchoed(c: Params, s: Net, s': Net, i: nat, p: Packet)
    requires s.peers.Keys == Ids(c.n) && Echoed(s) && Echoes(c, s, s', i, p)
    ensures Echoed(s')
  {
    forall a, b, q | a in s'.peers && b in s'.peers && a != b && q in s'.peers[a].app
      ensures Letter(a, b, q) in s'.sent
    {
      if a == i && q == p {
        assert Letter(a, b, q) in Letters(c, i, p);
      } else {
        assert q in s.peers[a].app;
      }
    }
  }

  lemma EchoKeepsInv(c: Params, s: Net, s': Net, i: nat, p: Packet)
    requires HashInjective(c) && Inv(c, s) && Echoes(c, s, s', i, p)
    ensures Inv(c, s')
  {
    EchoSendsAnew(c, s, s', i, p);
    EchoKeepsPeers(c, s, s', i, p);
    EchoKeepsLetters(c, s, s', i, p);
    EchoKeepsEchoed(c, s, s', i, p);
  }

  /** Moving or losing nothing but `known` growing keeps the invariant. */
  lemma QuietKeepsInv(c: Params, s: Net, s': Net)
    requires Inv(c, s)
    requires s'.peers == s.peers && s'.sent == s.sent && s.known <= s'.known && Accounted(s')
    requires forall l :: l in s'.handled && l !in s.handled ==> l.dest in s.peers && l.p in s.peers[l.dest].app
    ensures Inv(c, s')
  {
    forall k | k in s'.peers ensures PeerInv(c, s', s'.peers[k]) {
      assert PeerInv(c, s, s.peers[k]);
    }
    forall l | l in s'.sent ensures LetterInv(s', l) {
      assert LetterInv(s, l);
    }
  }

  lemma ReceiveEchoes(c: Params, s: Net, i: nat, p: Packet, known: set<Packet>)
    requires i in s.peers && Fresh(c, s.peers[i], p) && s.known + {p} <= known && Accounted(s)
    ensures Echoes(c, s, Receive(c, s, i, p).(known := known), i, p)
  {
    var s' := Receive(c, s, i, p).(known := known);
    assert Accounted(s') by {
      assert forall l :: l in Dropped(c, s, i, p) ==> l in Letters(c, i, p);
    }
  }

  lemma ReceiveKeepsInv(c: Params, s: Net, i: nat, p: Packet)
    requires HashInjective(c) && Inv(c, s) && i in s.peers
    ensures Inv(c, Receive(c, s, i, p).(known := s.known + {p}))
  {
    var s' := Receive(c, s, i, p).(known := s.known + {p});
    if Fresh(c, s.peers[i], p) {
      ReceiveEchoes(c, s, i, p, s.known + {p});
      EchoKeepsInv(c, s, s', i, p);
    } else {
      QuietKeepsInv(c, s, s');
    }
  }

  /** A letter on the wire carries a known, valid packet. */
  lemma WireLetter(c: Params, s: Net, l: Letter)
    requires Inv(c, s) && l in s.wire
    ensures l.dest in s.peers && c.valid(l.p) && s.known + {l.p} == s.known
  {
    assert l in s.sent && LetterInv(s, l);
    assert PeerInv(c, s, s.peers[l.from]);
  }

  lemma ReceiverHolds(c: Params, s: Net, i: nat, p: Packet)
    requires HashInjective(c) && Inv(c, s) && i in s.peers && c.valid(p)
    ensures i in Receive(c, s, i, p).peers && p in Receive(c, s, i, p).peers[i].app
  {
    HashOfDelivered(c, s, s.peers[i], p);
  }

  /** A delivery is the receiver taking the packet, followed by the letter being filed as handled. */
  lemma DeliverKeepsInv(c: Params, s: Net, l: Letter)
    requires HashInjective(c) && Inv(c, s) && l in s.wire && l.dest in s.peers
    ensures Inv(c, Next(c, s, Deliver(l)))
  {
    WireLetter(c, s, l);
    var taken := Receive(c, s, l.dest, l.p);
    assert Inv(c, taken) by {
      ReceiveKeepsInv(c, s, l.dest, l.p);
      assert taken.(known := s.known + {l.p}) == taken;
    }
    ReceiverHolds(c, s, l.dest, l.p);
    HandledKeepsInv(c, taken, l);
    assert Next(c, s, Deliver(l)) == taken.(wire := taken.wire - {l}, handled := taken.handled + {l});
  }

  lemma HandledKeepsInv(c: Params, s: Net, l: Letter)
    requires Inv(c, s) && l in s.wire && l.dest in s.peers && l.p in s.peers[l.dest].app
    ensures Inv(c, s.(wire := s.wire - {l}, handled := s.handled + {l}))
  {
    var s' := s.(wire := s.wire - {l}, handled := s.handled + {l});
    QuietKeepsInv(c, s, s');
  }

  lemma PushKeepsInv(c: Params, s: Net, i: nat, p: Packet)
    requires HashInjective(c) && Inv(c, s) && Enabled(c, s, Push(i, p))
    ensures Inv(c, Next(c, s, Push(i, p)))
  {
    var s' := Next(c, s, Push(i, p));
    assert PeerInv(c, s, s.peers[i]);
    HashOfDelivered(c, s, s.peers[i], p);
    EchoKeepsInv(c, s, s', i, p);
  }

  lemma StepKeepsInv(c: Params, s: Net, t: Step, s': Net)
    requires HashInjective(c) && Inv(c, s) && IsStep(c, s, t, s')
    ensures Inv(c, s')
  {
    match t
    case Push(i, p) => PushKeepsInv(c, s, i, p);
    case Inject(i, p) => ReceiveKeepsInv(c, s, i, p);
    case Dequeue(l) => QuietKeepsInv(c, s, s');
    case Deliver(l) => DeliverKeepsInv(c, s, l);
  }

  lemma InitialInv(c: Params, s: Net)
    requires Initial(c, s)
    ensures Inv(c, s)
  {
  }

  lemma RunKeepsInv(c: Params, states: seq<Net>, steps: seq<Step>, k: nat)
    requires HashInjective(c) && IsRun(c, states, steps) && 0 < k < |states| && Inv(c, states[k - 1])
    ensures Inv(c, states[k])
  {
    assert StepAt(c, states, steps, k - 1);
    StepKeepsInv(c, states[k - 1], steps[k - 1], states[k]);
  }

  lemma {:induction false} InvThroughout(c: Params, states: seq<Net>, steps: seq<Step>, k: nat)
    requires HashInjective(c) && IsRun(c, states, steps) && Inv(c, states[0]) && k < |states|
    ensures Inv(c, states[k])
    decreases k
  {
    if k > 0 {
      InvThroughout(c, states, steps, k - 1);
      RunKeepsInv(c, states, steps, k);
    }
  }

  lemma Reachable(c: Params, states: seq<Net>, steps: seq<Step>, k: nat)
    requires HashInjective(c) && IsRun(c, states, steps) && Initial(c, states[0]) && k < |states|
    ensures Inv(c, states[k])
  {
    assert Inv(c, states[0]) by { InitialInv(c, states[0]); }
    InvThroughout(c, states, steps, k);
  }

  ghost predicate InvAt(c: Params, states: seq<Net>, k: nat)
    requires k < |states|
  {
    Inv(c, states[k])
  }

  /** The invariant holds in every state of a run. */
  ghost predicate InvAlong(c: Params, states: seq<Net>) {
    forall k {:trigger InvAt(c, states, k)} :: 0 <= k < |states| ==> InvAt(c, states, k)
  }

  lemma RunInvAlong(c: Params, states: seq<Net>, steps: seq<Step>)
    requires HashInjective(c) && IsRun(c, states, steps) && Initial(c, states[0])
    ensures InvAlong(c, states)
  {
    forall k | 0 <= k < |states| ensures InvAt(c, states, k) {
      Reachable(c, states, steps, k);
    }
  }

  /** Main result: in every reachable state, whatever is injected, no node has delivered a packet
      twice, and its hashes are exactly those of the packets it delivered. */
  lemma DeliveredOnce(c: Params, states: seq<Net>, steps: seq<Step>, k: nat, i: nat)
    requires HashInjective(c) && IsRun(c, states, steps) && Initial(c, states[0]) && k < |states|
    requires i < c.n
    ensures i in states[k].peers && NoRepeats(states[k].peers[i].app)
    ensures forall p :: p in states[k].peers[i].app <==> c.digest(p) in states[k].peers[i].hashes
  {
    Reachable(c, states, steps, k);
    assert i in Ids(c.n);
    var peer := states[k].peers[i];
    assert PeerInv(c, states[k], peer);
    forall p ensures p in peer.app <==> c.digest(p) in peer.hashes {
      HashOfDelivered(c, states[k], peer, p);
    }
  }

  // ---- Agreement at quiescence ----------------------------------------------------------

  predicate Quiescent(s: Net) {
    s.queued == {} && s.wire == {}
  }

  lemma AgreementStep(c: Params, s: Net, i: nat, j: nat, h: Bytes)
    requires HashInjective(c) && Inv(c, s) && Quiescent(s) && s.lost == {}
    requires i in s.peers && j in s.peers && h in s.peers[i].hashes
    ensures h in s.peers[j].hashes
  {
    assert PeerInv(c, s, s.peers[i]) && PeerInv(c, s, s.peers[j]);
    var k :| 0 <= k < |s.peers[i].hashes| && s.peers[i].hashes[k] == h;
    var p := s.peers[i].app[k];
    if i != j {
      var l := Letter(i, j, p);
      assert l in s.sent && LetterInv(s, l);
      HashOfDelivered(c, s, s.peers[j], p);
    }
  }

  /** Main result: once nothing is queued or on the wire, if no letter was lost to a full queue,
      all nodes hold the same hashes. */
  lemma AgreementTheorem(c: Params, states: seq<Net>, steps: seq<Step>, k: nat, i: nat, j: nat)
    requires HashInjective(c) && IsRun(c, states, steps) && Initial(c, states[0]) && k < |states|
    requires i < c.n && j < c.n && Quiescent(states[k]) && states[k].lost == {}
    ensures i in states[k].peers && j in states[k].peers
    ensures forall h :: h in states[k].peers[i].hashes <==> h in states[k].peers[j].hashes
  {
    Reachable(c, states, steps, k);
    assert i in Ids(c.n) && j in Ids(c.n);
    forall h ensures h in states[k].peers[i].hashes <==> h in states[k].peers[j].hashes {
      if h in states[k].peers[i].hashes { AgreementStep(c, states[k], i, j, h); }
      if h in states[k].peers[j].hashes { AgreementStep(c, states[k], j, i, h); }
    }
  }

  // ---- Nothing is missed ----------------------------------------------------------------

  /** Some node has delivered `p`. */
  ghost predicate Held(s: Net, p: Packet) {
    exists i :: i in s.peers && p in s.peers[i].app
  }

  /** What a node has delivered stays delivered. */
  lemma StepGrows(c: Params, s: Net, t: Step, s': Net, i: nat)
    requires IsStep(c, s, t, s') && i in s.peers
    ensures i in s'.peers && s.peers[i].app <= s'.peers[i].app
  {
  }

  lemma StillHeld(c: Params, s: Net, t: Step, s': Net, p: Packet)
    requires IsStep(c, s, t, s') && Held(s, p)
    ensures Held(s', p)
  {
    var i :| i in s.peers && p in s.peers[i].app;
    StepGrows(c, s, t, s', i);
    var m :| 0 <= m < |s.peers[i].app| && s.peers[i].app[m] == p;
    assert s'.peers[i].app[m] == p;
  }

  /** A valid packet is held by the node it enters the network at. */
  lemma EntersHeld(c: Params, s: Net, t: Step, s': Net, p: Packet)
    requires HashInjective(c) && Inv(c, s) && IsStep(c, s, t, s') && c.valid(p)
    requires t.Push? || t.Inject?
    requires t.p == p
    ensures Held(s', p)
  {
    if t.Inject? {
      ReceiverHolds(c, s, t.i, p);
    }
    assert p in s'.peers[t.i].app;
  }

  lemma NewlyKnown(c: Params, s: Net, t: Step, s': Net, p: Packet)
    requires IsStep(c, s, t, s') && p in s'.known && p !in s.known
    ensures (t.Push? || t.Inject?) && t.p == p
  {
  }

  lemma RunKeepsHeld(c: Params, states: seq<Net>, steps: seq<Step>, k: nat, p: Packet)
    requires HashInjective(c) && IsRun(c, states, steps) && 0 < k < |states| && Inv(c, states[k - 1])
    requires c.valid(p) && p in states[k].known && (p in states[k - 1].known ==> Held(states[k - 1], p))
    ensures Held(states[k], p)
  {
    assert StepAt(c, states, steps, k - 1);
    if p in states[k - 1].known {
      StillHeld(c, states[k - 1], steps[k - 1], states[k], p);
    } else {
      NewlyKnown(c, states[k - 1], steps[k - 1], states[k], p);
      EntersHeld(c, states[k - 1], steps[k - 1], states[k], p);
    }
  }

  lemma {:induction false} KnownHeld(c: Params, states: seq<Net>, steps: seq<Step>, k: nat, p: Packet)
    requires HashInjective(c) && IsRun(c, states, steps) && Initial(c, states[0]) && k < |states|
    requires c.valid(p) && p in states[k].known
    ensures Held(states[k], p)
    decreases k
  {
    if k > 0 {
      if p in states[k - 1].known {
        KnownHeld(c, states, steps, k - 1, p);
      }
      assert Inv(c, states[k - 1]) by { Reachable(c, states, steps, k - 1); }
      RunKeepsHeld(c, states, steps, k, p);
    }
  }

  /** Main result: once nothing is queued or on the wire, if no letter was lost to a full queue, every node
      has delivered exactly the valid packets that entered the network anywhere. */
  lemma CompletenessTheorem(c: Params, states: seq<Net>, steps: seq<Step>, k: nat, i: nat, p: Packet)
    requires HashInjective(c) && IsRun(c, states, steps) && Initial(c, states[0]) && k < |states|
    requires i < c.n && Quiescent(states[k]) && states[k].lost == {}
    ensures i in states[k].peers
    ensures p in states[k].peers[i].app <==> c.valid(p) && p in states[k].known
  {
    Reachable(c, states, steps, k);
    var s := states[k];
    assert i in Ids(c.n);
    assert PeerInv(c, s, s.peers[i]);
    if c.valid(p) && p in s.known {
      KnownHeld(c, states, steps, k, p);
      var j :| j in s.peers && p in s.peers[j].app;
      HashOfDelivered(c, s, s.peers[j], p);
      AgreementStep(c, s, j, i, c.digest(p));
      HashOfDelivered(c, s, s.peers[i], p);
    }
  }
}
