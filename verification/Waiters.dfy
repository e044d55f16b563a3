/** The list of blocked requests of the HTTP server (http/server.go): `getRand` parks a request on
    a one-slot channel, `Watch` answers all parked requests when the next round arrives.

    Each step is one critical section of one goroutine; runs interleave them freely. */
module Waiters {
  import opened Bytes
  import opened Collections

  /** The bytes of some round, or the empty reply sent when a round was missed. */
  datatype Reply = Empty | Data(round: Round)

  datatype Outcome = Got(reply: Reply) | Cancelled | Direct

  /** Where a `getRand` call is: past its first look at the lock, parked, or on its way out. */
  datatype Phase = Checked | Parked | Leaving(outcome: Outcome)

  /** A request with its channel: the one-slot buffer, whether it is closed, and how often it was
      sent to. `reset` records that the stream was reset while the request was parked. */
  datatype Request = Request(
    want: Round, phase: Phase, buffer: Option<Reply>, closed: bool, sends: nat, reset: bool)

  datatype State = State(latest: Round, pending: seq<nat>, reqs: map<nat, Request>)

  const EMPTY: State := State(0, [], map[])

  datatype Step =
    | Arrive(w: nat, round: Round)  // getRand, first look under the read lock
    | Park(w: nat)                  // getRand, second look under the lock
    | Next(round: Round)            // Watch, an item of the stream
    | Reset                         // Watch, the stream ended
    | TakeReply(w: nat)             // getRand, a value on the channel
    | Cancel(w: nat)                // getRand, the context ended
    | Close(w: nat)                 // getRand, the deferred close

  /** `latestRound+1 == round && latestRound != 0`. */
  predicate ShouldBlock(s: State, round: Round) {
    Succ(s.latest) == round && s.latest != 0
  }

  function ReplyFor(s: State, round: Round): Reply {
    if Succ(s.latest) != round && s.latest != 0 then Empty else Data(round)
  }

  function Send(r: Request, b: Reply): Request {
    r.(buffer := Some(b), sends := r.sends + 1)
  }

  /** A send that neither panics nor blocks. */
  predicate CanSend(r: Request) {
    !r.closed && r.buffer.None?
  }

  function SendAll(reqs: map<nat, Request>, ws: seq<nat>, b: Reply): map<nat, Request> {
    map w | w in reqs :: if w in ws then Send(reqs[w], b) else reqs[w]
  }

  function MarkReset(s: State): map<nat, Request> {
    map w | w in s.reqs :: if w in s.pending then s.reqs[w].(reset := true) else s.reqs[w]
  }

  /** `ws` without the first occurrence of `w`. */
  function Remove(ws: seq<nat>, w: nat): seq<nat> {
    if ws == [] then [] else if ws[0] == w then ws[1..] else [ws[0]] + Remove(ws[1..], w)
  }

  predicate Enabled(s: State, t: Step) {
    match t
    case Arrive(w, _) => w !in s.reqs
    case Park(w) => w in s.reqs && s.reqs[w].phase.Checked?
    case Next(_) => true
    case Reset => true
    case TakeReply(w) => w in s.reqs && s.reqs[w].phase.Parked? && s.reqs[w].buffer.Some?
    case Cancel(w) => w in s.reqs && s.reqs[w].phase.Parked?
    case Close(w) => w in s.reqs && s.reqs[w].phase.Leaving? && !s.reqs[w].closed
  }

  function Apply(s: State, t: Step): State
    requires Enabled(s, t)
  {
    match t
    case Arrive(w, round) =>
      s.(reqs := s.reqs[w := if ShouldBlock(s, round) then Request(round, Checked, None, false, 0, false)
                             else Request(round, Leaving(Direct), None, true, 0, false)])
    case Park(w) =>
      if ShouldBlock(s, s.reqs[w].want)
      then s.(pending := s.pending + [w], reqs := s.reqs[w := s.reqs[w].(phase := Parked)])
      else s.(reqs := s.reqs[w := s.reqs[w].(phase := Leaving(Direct))])
    case Next(round) => State(round, [], SendAll(s.reqs, s.pending, ReplyFor(s, round)))
    case Reset => State(0, s.pending, MarkReset(s))
    case TakeReply(w) =>
      s.(reqs := s.reqs[w := s.reqs[w].(phase := Leaving(Got(s.reqs[w].buffer.value)), buffer := None)])
    case Cancel(w) =>
      s.(pending := Remove(s.pending, w),
         reqs := s.reqs[w := s.reqs[w].(phase := Leaving(Cancelled), buffer := None)])
    case Close(w) => s.(reqs := s.reqs[w := s.reqs[w].(closed := true)])
  }

  // ---- Invariant ------------------------------------------------------------------------

  /** A parked request on the list: its channel is open, empty and unused; the next round is the one
      it wants, unless the stream was reset since. */
  predicate OnList(s: State, r: Request) {
    && r.phase.Parked? && CanSend(r) && r.sends == 0
    && (if s.latest == 0 then r.reset else Succ(s.latest) == r.want && !r.reset)
  }

  predicate RightReply(want: Round, b: Reply) {
    b == Empty || b == Data(want)
  }

  /** Any request: at most one send, never to a closed channel, and the right answer unless the
      stream was reset while it was parked. */
  predicate InOrder(r: Request) {
    && r.sends <= 1
    && (r.buffer.Some? ==> r.sends == 1 && r.phase.Parked? && !r.closed)
    && (r.closed ==> r.phase.Leaving?)
    && (r.phase.Checked? ==> r.sends == 0 && !r.reset)
    && (!r.reset && r.buffer.Some? ==> RightReply(r.want, r.buffer.value))
    && (!r.reset && r.phase.Leaving? && r.phase.outcome.Got? ==> RightReply(r.want, r.phase.outcome.reply))
  }

  ghost predicate Inv(s: State) {
    && NoRepeats(s.pending)
    && (forall w :: w in s.pending ==> w in s.reqs && OnList(s, s.reqs[w]))
    && (forall w :: w in s.reqs ==> InOrder(s.reqs[w]))
  }

  lemma {:induction false} RemoveMember(ws: seq<nat>, w: nat, x: nat)
    requires NoRepeats(ws)
    ensures x in Remove(ws, w) <==> x in ws && x != w
    ensures NoRepeats(Remove(ws, w))
    decreases |ws|
  {
    if ws != [] {
      assert ws == [ws[0]] + ws[1..];
      RemoveMember(ws[1..], w, x);
      RemoveMember(ws[1..], w, ws[0]);
    }
  }

  lemma {:induction false} RemoveAt(ws: seq<nat>, w: nat, i: nat)
    requires i <= |ws| && w !in ws[..i] && (i < |ws| ==> ws[i] == w)
    ensures Remove(ws, w) == if i < |ws| then ws[..i] + ws[i + 1..] else ws
    decreases |ws|
  {
    if i == 0 {
      assert ws != [] ==> ws[..0] + ws[1..] == ws[1..];
    } else {
      var rest := ws[1..];
      assert ws[0] != w && w !in rest[..i - 1] by {
        assert ws[..i] == [ws[0]] + rest[..i - 1];
      }
      RemoveAt(rest, w, i - 1);
      if i < |ws| {
        assert ws[..i] + ws[i + 1..] == [ws[0]] + (rest[..i - 1] + rest[i..]);
      }
    }
  }

  lemma StepKeepsInv(s: State, t: Step)
    requires Inv(s) && Enabled(s, t)
    ensures Inv(Apply(s, t))
  {
    var s' := Apply(s, t);
    if t.Cancel? {
      forall x ensures x in Remove(s.pending, t.w) <==> x in s.pending && x != t.w {
        RemoveMember(s.pending, t.w, x);
      }
      RemoveMember(s.pending, t.w, t.w);
    } else if t.Next? {
      forall w | w in s'.reqs ensures InOrder(s'.reqs[w]) {
        assert InOrder(s.reqs[w]);
      }
    }
  }

  /** The state after a sequence of steps, if each is enabled where it is taken. */
  function Run(steps: seq<Step>): Option<State> {
    if steps == [] then Some(EMPTY)
    else
      var before := Run(steps[..|steps| - 1]);
      if before.Some? && Enabled(before.value, steps[|steps| - 1])
      then Some(Apply(before.value, steps[|steps| - 1])) else None
  }

  lemma {:induction false} RunInv(steps: seq<Step>)
    requires Run(steps).Some?
    ensures Inv(Run(steps).value)
    decreases |steps|
  {
    if steps != [] {
      RunInv(steps[..|steps| - 1]);
      StepKeepsInv(Run(steps[..|steps| - 1]).value, steps[|steps| - 1]);
    }
  }

  /** Main result: in every interleaving, whenever `Watch` answers the list, every send goes to an
      open channel with a free slot (so it neither panics nor blocks under the lock), and no
      channel is ever sent to twice. */
  lemma SendTheorem(steps: seq<Step>)
    requires Run(steps).Some?
    ensures var s := Run(steps).value;
            && NoRepeats(s.pending)
            && (forall w :: w in s.pending ==> w in s.reqs && CanSend(s.reqs[w]) && s.reqs[w].sends == 0)
            && (forall w :: w in s.reqs ==> s.reqs[w].sends <= 1)
  {
    RunInv(steps);
  }

  /** Main result: in every interleaving, a request that was not parked across a stream reset gets
      the bytes of the round it asked for, or the empty reply. */
  lemma ReplyTheorem(steps: seq<Step>, w: nat)
    requires Run(steps).Some? && w in Run(steps).value.reqs
    requires var r := Run(steps).value.reqs[w]; r.phase.Leaving? && r.phase.outcome.Got? && !r.reset
    ensures var r := Run(steps).value.reqs[w]; RightReply(r.want, r.phase.outcome.reply)
  {
    RunInv(steps);
    assert InOrder(Run(steps).value.reqs[w]);
  }

  /** The exact condition: `Watch` answers a parked request rightly if and only if the stream was not
      reset since it was parked, or the new round happens to be the one it wants. */
  lemma RightReplyIff(s: State, w: nat, round: Round)
    requires Inv(s) && w in s.pending
    ensures Apply(s, Next(round)).reqs[w].buffer.Some?
    ensures RightReply(s.reqs[w].want, Apply(s, Next(round)).reqs[w].buffer.value)
       <==> s.latest != 0 || round == s.reqs[w].want
  {
    assert OnList(s, s.reqs[w]);
  }

  /** Main result: what a parked request is sent, in terms of rounds alone. While the stream has not been
      reset since, it is the bytes it wants exactly if their round arrives, and the empty reply exactly if
      that round was skipped; after a reset it is whatever arrives. */
  lemma ReplyExactly(s: State, w: nat, round: Round)
    requires Inv(s) && w in s.pending
    ensures !s.reqs[w].reset ==>
              Apply(s, Next(round)).reqs[w].buffer == Some(if round == s.reqs[w].want then Data(round) else Empty)
    ensures s.reqs[w].reset ==> Apply(s, Next(round)).reqs[w].buffer == Some(Data(round))
    ensures w !in Apply(s, Next(round)).pending && Apply(s, Next(round)).reqs[w].phase.Parked?
  {
    assert OnList(s, s.reqs[w]);
  }

  // ---- From parking to the reply --------------------------------------------------------

  /** The request neither gives up nor leaves in this step. */
  predicate Spares(t: Step, w: nat) {
    t != Cancel(w) && t != TakeReply(w)
  }

  /** A step that leaves the parked request `w` waiting. */
  lemma StillWaiting(s: State, t: Step, w: nat)
    requires Inv(s) && Enabled(s, t) && Spares(t, w) && !t.Next? && !t.Reset?
    requires w in s.pending
    ensures w in Apply(s, t).pending && Apply(s, t).reqs[w] == s.reqs[w]
  {
    assert OnList(s, s.reqs[w]);
    if t.Cancel? {
      RemoveMember(s.pending, t.w, w);
    }
  }

  /** A step that leaves the answered request `w` with its answer. */
  lemma StillAnswered(s: State, t: Step, w: nat)
    requires Inv(s) && Enabled(s, t) && Spares(t, w)
    requires w in s.reqs && s.reqs[w].phase.Parked? && w !in s.pending
    ensures w in Apply(s, t).reqs && Apply(s, t).reqs[w] == s.reqs[w] && w !in Apply(s, t).pending
  {
    if t.Cancel? {
      RemoveMember(s.pending, t.w, w);
    }
  }

  lemma {:induction false} RunPrefix(a: seq<Step>, b: seq<Step>)
    requires Run(a + b).Some?
    ensures Run(a).Some?
    decreases |b|
  {
    if b == [] {
      assert a + b == a;
    } else {
      assert (a + b)[..|a + b| - 1] == a + b[..|b| - 1];
      RunPrefix(a, b[..|b| - 1]);
    }
  }

  lemma {:induction false} Waits(before: seq<Step>, mid: seq<Step>, w: nat)
    requires Run(before).Some? && Run(before + mid).Some? && w in Run(before).value.pending && w in Run(before).value.reqs
    requires forall t :: t in mid ==> Spares(t, w) && !t.Next? && !t.Reset?
    ensures w in Run(before + mid).value.pending && w in Run(before + mid).value.reqs
    ensures Run(before + mid).value.reqs[w] == Run(before).value.reqs[w]
    decreases |mid|
  {
    if mid == [] {
      assert before + mid == before;
    } else {
      var shorter, t := mid[..|mid| - 1], mid[|mid| - 1];
      assert (before + mid)[..|before + mid| - 1] == before + shorter;
      Waits(before, shorter, w);
      RunInv(before + shorter);
      StillWaiting(Run(before + shorter).value, t, w);
    }
  }

  lemma {:induction false} Keeps(before: seq<Step>, rest: seq<Step>, w: nat)
    requires Run(before).Some? && Run(before + rest).Some? && forall t :: t in rest ==> Spares(t, w)
    requires var s := Run(before).value; w in s.reqs && s.reqs[w].phase.Parked? && w !in s.pending
    ensures w in Run(before + rest).value.reqs && w !in Run(before + rest).value.pending
    ensures Run(before + rest).value.reqs[w] == Run(before).value.reqs[w]
    decreases |rest|
  {
    if rest == [] {
      assert before + rest == before;
    } else {
      var shorter, t := rest[..|rest| - 1], rest[|rest| - 1];
      assert (before + rest)[..|before + rest| - 1] == before + shorter;
      Keeps(before, shorter, w);
      RunInv(before + shorter);
      StillAnswered(Run(before + shorter).value, t, w);
    }
  }

  /** Main result: in every interleaving, a request parked on an unbroken stream that neither gives up nor
      sees a reset leaves with the next item of the stream if that is the round it wants, and with the
      empty reply otherwise, however long it takes to pick it up. */
  lemma AnsweredTheorem(before: seq<Step>, mid: seq<Step>, round: Round, rest: seq<Step>, w: nat)
    requires Run(before).Some? && Run(before + mid + [Next(round)] + rest + [TakeReply(w)]).Some?
    requires w in Run(before).value.pending && w in Run(before).value.reqs && !Run(before).value.reqs[w].reset
    requires forall t :: t in mid ==> Spares(t, w) && !t.Next? && !t.Reset?
    requires forall t :: t in rest ==> Spares(t, w)
    ensures var s := Run(before + mid + [Next(round)] + rest + [TakeReply(w)]).value;
            var want := Run(before).value.reqs[w].want;
            w in s.reqs && s.reqs[w].phase == Leaving(Got(if round == want then Data(want) else Empty))
  {
    var waited := before + mid;
    var sent := waited + [Next(round)];
    var late := sent + rest;
    RunPrefix(late, [TakeReply(w)]);
    RunPrefix(sent, rest);
    RunPrefix(waited, [Next(round)]);
    Waits(before, mid, w);
    RunInv(waited);
    ReplyExactly(Run(waited).value, w, round);
    RunOne(waited, Next(round));
    Keeps(sent, rest, w);
    assert (late + [TakeReply(w)])[..|late|] == late;
  }

  lemma RunOne(steps: seq<Step>, t: Step)
    requires Run(steps).Some? && Enabled(Run(steps).value, t)
    ensures Run(steps + [t]) == Some(Apply(Run(steps).value, t))
  {
    assert (steps + [t])[..|steps + [t]| - 1] == steps;
  }

  /** A concrete reset: a request for round 6, parked when round 5 had been seen, is answered with
      the bytes of round 9. */
  lemma ResetAnswersWrongRound()
    ensures exists steps ::
      && Run(steps).Some? && 0 in Run(steps).value.reqs
      && var r := Run(steps).value.reqs[0]; r.want == 6 && r.phase == Leaving(Got(Data(9)))
  {
    var l0: seq<Step> := [];
    var l1 := l0 + [Next(5)];
    var l2 := l1 + [Arrive(0, 6)];
    var l3 := l2 + [Park(0)];
    var l4 := l3 + [Reset];
    var l5 := l4 + [Next(9)];
    RunOne(l0, Next(5));
    RunOne(l1, Arrive(0, 6));
    RunOne(l2, Park(0));
    RunOne(l3, Reset);
    assert 0 in Run(l4).value.pending;
    RunOne(l4, Next(9));
    RunOne(l5, TakeReply(0));
    assert Run(l5 + [TakeReply(0)]).value.reqs[0].want == 6;
  }

  // ---- The start handshake --------------------------------------------------------------

  /** `start` holds the lock and waits for a signal; `Watch` signals when its stream is open, and again
      after every reset, but never waits for a receiver. */
  datatype Handshake = Wait | Signal

  /** Whether `start` has received a signal and released the lock. */
  function Started(events: seq<Handshake>, waiting: bool): bool {
    if events == [] then false
    else match events[0]
      case Wait => Started(events[1..], true)
      case Signal => waiting || Started(events[1..], waiting)
  }

  /** The exact condition: requests are served only once some signal comes after `start` began to wait. A
      signal before that is lost, and then only a reset of the stream brings another. */
  lemma {:induction false} StartedIff(events: seq<Handshake>, waiting: bool)
    ensures Started(events, waiting)
       <==> exists j :: 0 <= j < |events| && events[j].Signal? && (waiting || Wait in events[..j])
    decreases |events|
  {
    if events != [] {
      var rest, later := events[1..], waiting || events[0].Wait?;
      StartedIff(rest, later);
      if Started(rest, later) {
        var j :| 0 <= j < |rest| && rest[j].Signal? && (later || Wait in rest[..j]);
        PrefixFromHead(events, j + 1);
        assert events[j + 1].Signal?;
      }
      if j :| 0 < j < |events| && events[j].Signal? && (waiting || Wait in events[..j]) {
        PrefixFromHead(events, j);
        assert rest[j - 1].Signal?;
      }
    }
  }

  /** A concrete lost signal: the stream opens before `start` waits, and `start` keeps the lock. */
  lemma SignalLost()
    ensures !Started([Signal, Wait], false)
  {
    assert [Signal, Wait][1..] == [Wait] && [Wait][1..] == [];
  }

  // ---- The handler object ---------------------------------------------------------------

  class Handler {
    var latestRound: Round
    var pending: seq<nat>
    var reqs: map<nat, Request>

    ghost function Abs(): State
      reads this
    {
      State(latestRound, pending, reqs)
    }

    constructor ()
      ensures Abs() == EMPTY && Inv(Abs())
    {
      latestRound := 0;
      pending := [];
      reqs := map[];
    }

    /** `Watch`, one item: every waiter is sent the reply while the lock is held. */
    method OnNext(round: Round)
      requires Inv(Abs())
      modifies this
      ensures Abs() == Apply(old(Abs()), Next(round)) && Inv(Abs())
      ensures latestRound == round && pending == [] && reqs.Keys == old(reqs).Keys
      ensures forall w :: w in old(pending) ==>
                w in reqs && reqs[w].buffer == Some(if old(reqs)[w].reset || round == reqs[w].want then Data(round) else Empty)
      ensures forall w :: w in reqs && w !in old(pending) ==> reqs[w] == old(reqs)[w]
    {
      StepKeepsInv(Abs(), Next(round));
      forall w | w in pending {
        ReplyExactly(Abs(), w, round);
      }
      var b := Data(round);
      if Succ(latestRound) != round && latestRound != 0 {
        b := Empty;
      }
      latestRound := round;
      SendToAll(b);
      pending := [];
    }

    /** The loop over the waiters: no send blocks and none goes to a closed channel. */
    method SendToAll(b: Reply)
      requires NoRepeats(pending) && forall w :: w in pending ==> w in reqs && CanSend(reqs[w])
      modifies this`reqs
      ensures reqs == SendAll(old(reqs), pending, b)
    {
      assert SendAll(reqs, [], b) == reqs;
      for i := 0 to |pending|
        invariant reqs == SendAll(old(reqs), pending[..i], b)
      {
        var w := pending[i];
        assert w !in pending[..i];
        assert CanSend(reqs[w]);
        reqs := reqs[w := Send(reqs[w], b)];
        assert pending[..i + 1] == pending[..i] + [w];
      }
      assert pending[..|pending|] == pending;
    }

    method OnReset()
      requires Inv(Abs())
      modifies this
      ensures Abs() == Apply(old(Abs()), Reset) && Inv(Abs())
    {
      StepKeepsInv(Abs(), Reset);
      reqs := map w | w in reqs :: if w in pending then reqs[w].(reset := true) else reqs[w];
      latestRound := 0;
    }

    /** The second look of `getRand`. */
    method TryPark(w: nat) returns (block: bool)
      requires Inv(Abs()) && Enabled(Abs(), Park(w))
      modifies this
      ensures Abs() == Apply(old(Abs()), Park(w)) && Inv(Abs())
      ensures block <==> old(latestRound) != 0 && old(reqs)[w].want == Succ(old(latestRound))
      ensures pending == old(pending) + if block then [w] else []
      ensures reqs == old(reqs)[w := old(reqs)[w].(phase := if block then Parked else Leaving(Direct))]
    {
      StepKeepsInv(Abs(), Park(w));
      assert w !in pending;
      block := Succ(latestRound) == reqs[w].want && latestRound != 0;
      if block {
        pending := pending + [w];
        reqs := reqs[w := reqs[w].(phase := Parked)];
      } else {
        reqs := reqs[w := reqs[w].(phase := Leaving(Direct))];
      }
    }

    /** The cancellation branch of `getRand`: search, splice, drain. */
    method OnCancel(w: nat)
      requires Inv(Abs()) && Enabled(Abs(), Cancel(w))
      modifies this
      ensures Abs() == Apply(old(Abs()), Cancel(w)) && Inv(Abs())
    {
      StepKeepsInv(Abs(), Cancel(w));
      Splice(w);
      reqs := reqs[w := reqs[w].(phase := Leaving(Cancelled), buffer := None)];
    }

    /** The search through the list, and the splice. */
    method Splice(w: nat)
      modifies this`pending
      ensures pending == Remove(old(pending), w)
    {
      var i := 0;
      while i < |pending| && pending[i] != w
        invariant 0 <= i <= |pending| && pending == old(pending) && w !in pending[..i]
      {
        i := i + 1;
      }
      RemoveAt(pending, w, i);
      if i < |pending| {
        pending := pending[..i] + pending[i + 1..];
      }
    }
  }
}
