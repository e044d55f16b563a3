/** Spreading the new group before the DKG starts, and when the leader goes on
    (core/drand_control.go). */
module PushDkg {
  import opened Bytes
  import opened Group
  import opened Setup

  /** The outcome of pushing the group to one node. */
  datatype Reply = Reply(addr: string, ok: bool)

  ghost function Addrs(nodes: seq<GroupNode>): set<string> {
    set i | 0 <= i < |nodes| :: nodes[i].id.addr
  }

  predicate DistinctAddrs(nodes: seq<GroupNode>) {
    forall i, j :: 0 <= i < j < |nodes| ==> nodes[i].id.addr != nodes[j].id.addr
  }

  /** `nodeUnion`: both groups, each address once. */
  method NodeUnion(a: seq<GroupNode>, b: seq<GroupNode>) returns (out: seq<GroupNode>)
    requires DistinctAddrs(a) && DistinctAddrs(b)
    ensures Addrs(out) == Addrs(a) + Addrs(b) && DistinctAddrs(out) && a <= out
    ensures forall n :: n in out ==> n in a || n in b
  {
    out := a;
    for i := 0 to |b|
      invariant a <= out && DistinctAddrs(out)
      invariant Addrs(out) == Addrs(a) + Addrs(b[..i])
      invariant forall n :: n in out ==> n in a || n in b
    {
      AddrsSnoc(b[..i], b[i]);
      assert b[..i + 1] == b[..i] + [b[i]];
      var contained := HasAddr(a, b[i].id.addr);
      if !contained {
        assert b[i].id.addr !in Addrs(b[..i]);
        assert b[i].id.addr !in Addrs(out);
        AddrsSnoc(out, b[i]);
        out := out + [b[i]];
      }
    }
    assert b[..|b|] == b;
  }

  lemma AddrsSnoc(nodes: seq<GroupNode>, n: GroupNode)
    ensures Addrs(nodes + [n]) == Addrs(nodes) + {n.id.addr}
  {
    var all := nodes + [n];
    assert all[|nodes|] == n;
    assert forall i :: 0 <= i < |nodes| ==> all[i] == nodes[i];
  }

  /** `nodesContainAddr`. */
  method HasAddr(nodes: seq<GroupNode>, addr: string) returns (found: bool)
    ensures found <==> addr in Addrs(nodes)
  {
    for i := 0 to |nodes|
      invariant forall k :: 0 <= k < i ==> nodes[k].id.addr != addr
    {
      if nodes[i].id.addr == addr {
        return true;
      }
    }
    return false;
  }

  lemma {:induction false} AddrsSize(nodes: seq<GroupNode>)
    requires DistinctAddrs(nodes)
    ensures |Addrs(nodes)| == |nodes|
    decreases |nodes|
  {
    if nodes != [] {
      var init, last := nodes[..|nodes| - 1], nodes[|nodes| - 1];
      AddrsSize(init);
      AddrsSnoc(init, last);
      assert nodes == init + [last];
      assert last.id.addr !in Addrs(init);
    }
  }

  /** Each node pushed to answers at most once, and the leader pushes nothing to itself. */
  predicate ProperReplies(replies: seq<Reply>, own: string, targets: set<string>) {
    && (forall i, j :: 0 <= i < j < |replies| ==> replies[i].addr != replies[j].addr)
    && (forall i :: 0 <= i < |replies| ==> replies[i].addr != own && replies[i].addr in targets)
  }

  /** The members known to hold the new group: the leader and those that acknowledged it. */
  ghost function Confirmed(nodes: seq<GroupNode>, own: string, replies: seq<Reply>): set<string> {
    set x | x in Addrs(nodes) && (x == own || Reply(x, true) in replies)
  }

  lemma ConfirmedStart(nodes: seq<GroupNode>, own: string)
    ensures |Confirmed(nodes, own, [])| == if own in Addrs(nodes) then 1 else 0
  {
    assert Confirmed(nodes, own, []) == if own in Addrs(nodes) then {own} else {};
  }

  lemma ConfirmedStep(nodes: seq<GroupNode>, own: string, replies: seq<Reply>, r: Reply)
    requires r.addr != own && Reply(r.addr, true) !in replies
    ensures |Confirmed(nodes, own, replies + [r])| ==
            |Confirmed(nodes, own, replies)| + if r.ok && r.addr in Addrs(nodes) then 1 else 0
  {
    var before, after := Confirmed(nodes, own, replies), Confirmed(nodes, own, replies + [r]);
    if r.ok && r.addr in Addrs(nodes) {
      assert after == before + {r.addr};
      assert r.addr !in before;
    } else {
      assert after == before;
    }
  }

  ghost predicate Enough(nodes: seq<GroupNode>, own: string, replies: seq<Reply>, threshold: int) {
    |Confirmed(nodes, own, replies)| >= threshold
  }

  /** The replies the loop takes before it has counted down to zero or times out. */
  function Taken(replies: seq<Reply>, total: int): (n: nat)
    ensures n <= |replies|
  {
    if total <= 0 then 0 else if |replies| <= total then |replies| else total
  }

  /** The loop of `pushDKGInfo`: the replies come in order, and the minute of silence follows the last
      of them. It goes on exactly if both groups confirmed up to their thresholds. */
  method AwaitReplies(own: string, outgoing: seq<GroupNode>, incoming: seq<GroupNode>, previousThreshold: int,
                      newThreshold: int, total: int, replies: seq<Reply>) returns (ok: bool)
    requires ProperReplies(replies, own, Addrs(outgoing) + Addrs(incoming))
    ensures var seen := replies[..Taken(replies, total)];
            ok <==> Enough(outgoing, own, seen, previousThreshold) && Enough(incoming, own, seen, newThreshold)
  {
    var previous, next, left, i := previousThreshold, newThreshold, total, 0;
    ConfirmedStart(outgoing, own);
    ConfirmedStart(incoming, own);
    var contained := HasAddr(outgoing, own);
    if contained {
      previous := previous - 1;
    }
    contained := HasAddr(incoming, own);
    if contained {
      next := next - 1;
    }
    while left > 0
      invariant 0 <= i <= |replies| && left == total - i && (total > 0 ==> left >= 0) && (total <= 0 ==> i == 0)
      invariant previous == previousThreshold - |Confirmed(outgoing, own, replies[..i])|
      invariant next == newThreshold - |Confirmed(incoming, own, replies[..i])|
    {
      if i == |replies| {
        return previous <= 0 && next <= 0;
      }
      var r := replies[i];
      assert replies[..i + 1] == replies[..i] + [r];
      ConfirmedStep(outgoing, own, replies[..i], r);
      ConfirmedStep(incoming, own, replies[..i], r);
      i, left := i + 1, left - 1;
      if r.ok {
        contained := HasAddr(outgoing, r.addr);
        if contained {
          previous := previous - 1;
        }
        contained := HasAddr(incoming, r.addr);
        if contained {
          next := next - 1;
        }
      }
    }
    return !(previous > 0 || next > 0);
  }

  /** `pushDKGInfo`: the leader goes on exactly if, counting itself, a threshold of the old and of the
      new members hold the group. It hears all replies exactly if there are fewer than targets, and so
      whenever it belongs to one of the groups. */
  method PushDkgInfo(own: string, outgoing: seq<GroupNode>, incoming: seq<GroupNode>, previousThreshold: int,
                     newThreshold: int, replies: seq<Reply>) returns (ok: bool)
    requires DistinctAddrs(outgoing) && DistinctAddrs(incoming)
    requires ProperReplies(replies, own, Addrs(outgoing) + Addrs(incoming))
    ensures var targets := Addrs(outgoing) + Addrs(incoming);
            var seen := replies[..Taken(replies, |targets| - 1)];
            && (ok <==> Enough(outgoing, own, seen, previousThreshold) && Enough(incoming, own, seen, newThreshold))
            && (seen == replies <==> |replies| < |targets| || replies == [])
            && (own in targets ==> seen == replies)
  {
    var targets := NodeUnion(outgoing, incoming);
    AddrsSize(targets);
    if own in Addrs(targets) {
      RepliesFit(replies, own, Addrs(targets));
      assert replies[..|replies|] == replies;
    }
    ok := AwaitReplies(own, outgoing, incoming, previousThreshold, newThreshold, |targets| - 1, replies);
  }

  /** No reply is left unread when the leader is among the targets. */
  lemma {:induction false} RepliesFit(replies: seq<Reply>, own: string, targets: set<string>)
    requires ProperReplies(replies, own, targets) && own in targets
    ensures |replies| <= |targets| - 1
    decreases |replies|
  {
    if replies != [] {
      var init, last := replies[..|replies| - 1], replies[|replies| - 1];
      RepliesFit(init, own, targets - {last.addr});
    }
  }

  /** The leader of a setup is a member of the group it created, under its own address. */
  lemma LeaderIsTarget(h: Bytes -> Bytes, m: Manager, events: seq<Event>, now: nat, g: Info)
    requires m.period >= 1 && Gathered(m, events).Ready? && Creates(h, m, Gathered(m, events).keys, now, g)
    ensures m.leader.addr in Addrs(g.nodes) && DistinctAddrs(g.nodes)
  {
    MembersOfGroup(h, m, events, now, g);
    var i :| 0 <= i < |g.nodes| && g.nodes[i].id == m.leader;
  }

  /** Main result: for a group that came out of a setup, fresh or reshared, every reply is heard, and
      the leader goes on exactly if a threshold of the old and of the new members, itself included,
      acknowledged the group. */
  method PushNewGroup(h: Bytes -> Bytes, m: Manager, events: seq<Event>, now: nat, g: Info,
                      outgoing: seq<GroupNode>, previousThreshold: int, replies: seq<Reply>) returns (ok: bool)
    requires m.period >= 1 && Gathered(m, events).Ready? && Creates(h, m, Gathered(m, events).keys, now, g)
    requires DistinctAddrs(outgoing)
    requires ProperReplies(replies, m.leader.addr, Addrs(outgoing) + Addrs(g.nodes))
    ensures ok <==> && Enough(outgoing, m.leader.addr, replies, previousThreshold)
                    && Enough(g.nodes, m.leader.addr, replies, g.threshold)
  {
    LeaderIsTarget(h, m, events, now, g);
    ok := PushDkgInfo(m.leader.addr, outgoing, g.nodes, previousThreshold, g.threshold, replies);
  }
}
