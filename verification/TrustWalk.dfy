/** The verifying clients and their walk from a point of trust (client/verify.go).

    The clients share one indirect client, which hands each request to one of them, so the walk of
    one client nests verifications by any of them. Sources answer anything, but for the round they
    were asked for; round 0 asks for the latest, of whatever round that is. */
module TrustWalk {
  import opened Bytes
  import opened Collections
  import opened Chain

  /** A result: its round, signature and, if the source gave one, previous signature. */
  datatype Answer = Answer(round: Round, sig: Bytes, prev: Option<Bytes>)

  /** `genuine` gives the signatures of the real chain; the group hash stands at round 0. */
  ghost predicate GenuineChain(s: Scheme, genuine: Round -> Bytes) {
    forall r: Round {:trigger GenuineAt(s, genuine, r)} :: GenuineAt(s, genuine, r)
  }

  predicate GenuineAt(s: Scheme, genuine: Round -> Bytes, r: Round) {
    1 <= r ==> s.valid(Message(s, r, genuine(r - 1)), genuine(r))
  }

  /** Somebody signed round 2 on top of the group hash, instead of the signature of round 1. */
  ghost predicate ForkedAtTwo(s: Scheme, genuine: Round -> Bytes) {
    exists sig: Bytes :: s.valid(Message(s, 2, genuine(0)), sig)
  }

  /** One signature per message. The group may be compromised: it may have signed anything besides. */
  ghost predicate World(s: Scheme, genuine: Round -> Bytes) {
    UniqueSignatures(s) && GenuineChain(s, genuine)
  }

  predicate IsGenuine(a: Answer, genuine: Round -> Bytes) {
    1 <= a.round && a.sig == genuine(a.round)
  }

  /** A signature verified on top of the genuine previous one is genuine itself. */
  lemma GenuineStep(s: Scheme, genuine: Round -> Bytes, r: Round, sig: Bytes)
    requires World(s, genuine) && 1 <= r
    ensures VerifyBeacon(s, Beacon(genuine(r - 1), r, sig)) <==> sig == genuine(r)
  {
    assert GenuineAt(s, genuine, r);
  }

  /** A point of trust from which round `round` can be reached. */
  predicate Below(pot: Option<Answer>, round: Round) {
    pot.Some? && pot.value.round < round
  }

  /** The point of trust that sends the walk back to the group hash. */
  predicate Slow(pot: Option<Answer>, round: Round) {
    pot.None? || pot.value.round > round
  }

  /** Nested verifications are for smaller rounds; round 0 walks up to the very top. */
  function Rank(round: Round): nat {
    if round == 0 then TWO64 else round
  }

  class Clients {
    const scheme: Scheme
    const genuine: Round -> Bytes
    const strict: bool
    /** `Info` never fails. */
    const informed: bool
    /** The sources return genuine results and never fail. */
    const honest: bool
    /** The point of trust of each client. */
    var pots: map<nat, Option<Answer>>

    ghost predicate Valid()
      reads this
    {
      World(scheme, genuine) && forall v :: v in pots && pots[v].Some? ==> 1 <= pots[v].value.round
    }

    /** Client `v` has a genuine point of trust below `round`. */
    predicate Trusts(v: nat, round: Round)
      reads this
    {
      v in pots && Below(pots[v], round) && IsGenuine(pots[v].value, genuine)
    }

    /** All points of trust are genuine. */
    ghost predicate AllGenuine()
      reads this
    {
      forall v :: v in pots && pots[v].Some? ==> IsGenuine(pots[v].value, genuine)
    }

    /** Nothing fails, sources are honest, and there is a single client. */
    ghost predicate Alone(v: nat)
      reads this
    {
      informed && honest && pots.Keys == {v}
    }

    constructor (scheme: Scheme, genuine: Round -> Bytes, strict: bool, informed: bool, honest: bool,
                 pots: map<nat, Option<Answer>>)
      requires World(scheme, genuine)
      requires forall v :: v in pots && pots[v].Some? ==> 1 <= pots[v].value.round
      ensures Valid() && this.pots == pots && this.strict == strict && this.informed == informed && this.honest == honest
      ensures this.scheme == scheme && this.genuine == genuine
    {
      this.scheme := scheme;
      this.genuine := genuine;
      this.strict := strict;
      this.informed := informed;
      this.honest := honest;
      this.pots := pots;
    }

    /** A wrapped source: a failure, or any answer for the round asked; round 0 asks for the latest. */
    method Fetch(round: Round) returns (r: Option<Answer>)
      ensures r.Some? && round != 0 ==> r.value.round == round
      ensures honest ==> r.Some? && IsGenuine(r.value, genuine)
      ensures honest ==> r.value.prev.None? || r.value.prev.value == genuine(r.value.round - 1)
    {
      if honest {
        var withPrev: bool := *;
        var one: Round := 1;
        assert 1 <= one;
        var latest: Round :| 1 <= latest;
        var which := if round != 0 then round else latest;
        return Some(Answer(which, genuine(which), if withPrev then Some(genuine(which - 1)) else None));
      }
      r := *;
      if r.Some? && round != 0 && r.value.round != round {
        r := None;
      }
    }

    /** `Info` on the indirect client: it may fail too. */
    method InfoAvailable() returns (ok: bool)
      ensures informed ==> ok
    {
      ok := *;
      ok := ok || informed;
    }

    /** Whether a result is checked by the walk rather than on the previous signature it carries. */
    predicate Walks(r: Answer) {
      strict || r.prev.None?
    }

    /** What a walking client may conclude from a result it accepted, `pot` being its point of trust
        before: a result above a genuine point of trust, or of round 1, is genuine; any other takes a
        fork at round 2 to be accepted. */
    ghost predicate Sound(pot: Option<Answer>, r: Answer) {
      && (r.round == 1 || (Below(pot, r.round) && IsGenuine(pot.value, genuine)) ==> IsGenuine(r, genuine))
      && (r.round != 1 && !Below(pot, r.round) ==> ForkedAtTwo(scheme, genuine))
    }

    /** A strict client concludes as much from every result it gets, whatever it asked for. With honest
        sources a single client gets every round above its point of trust. */
    method Get(v: nat, round: Round) returns (r: Option<Answer>)
      requires Valid() && v in pots
      modifies this
      ensures Valid() && pots.Keys == old(pots.Keys)
      ensures r.Some? && round != 0 ==> r.value.round == round
      ensures r.Some? && strict ==> Sound(old(pots[v]), r.value)
      ensures r.Some? && strict && old(Trusts(v, r.value.round)) ==> Trusts(v, r.value.round)
      ensures honest && r.Some? ==> IsGenuine(r.value, genuine)
      ensures old(Alone(v)) && round != 0 && old(Trusts(v, round)) ==> r.Some? && Trusts(v, round)
      ensures !ForkedAtTwo(scheme, genuine) && old(AllGenuine()) ==> AllGenuine()
      decreases if round == 0 then TWO64 + 1 else round, 3
    {
      var ok := InfoAvailable();
      if !ok {
        return None;
      }
      r := Fetch(round);
      if r.None? {
        return None;
      }
      if r.value.round >= 1 {
        GenuineStep(scheme, genuine, r.value.round, r.value.sig);
      }
      ok := Verify(v, r.value);
      if !ok {
        return None;
      }
    }

    /** Main result: whatever the sources and the other clients do, and whatever a compromised group has
        signed, a strict client (and any client, for results without a previous signature) that accepts a
        result above its genuine point of trust accepts the genuine one, and keeps a genuine point of
        trust below it. Without such a point of trust it accepts round 2 exactly if it is signed on top of
        the group hash, and other rounds above 1 only if some round 2 is. */
    method Verify(v: nat, r: Answer) returns (ok: bool)
      requires Valid() && v in pots
      modifies this
      ensures Valid() && pots.Keys == old(pots.Keys)
      ensures ok && Walks(r) ==> Sound(old(pots[v]), r)
      ensures ok && Walks(r) && old(Trusts(v, r.round)) ==> Trusts(v, r.round)
      ensures !Walks(r) ==> (ok <==> VerifyBeacon(scheme, Beacon(r.prev.value, r.round, r.sig)))
      // The exact condition at round 2, and that a point of trust at the round itself refuses it.
      ensures Walks(r) && r.round == 2 && Slow(old(pots[v]), 2) ==>
                && (ok ==> VerifyBeacon(scheme, Beacon(genuine(0), 2, r.sig)))
                && (informed ==> (ok <==> VerifyBeacon(scheme, Beacon(genuine(0), 2, r.sig))))
      ensures Walks(r) && r.round != 1 && old(pots[v]).Some? && old(pots[v]).value.round == r.round ==> !ok
      // Completeness for a single client with honest sources.
      ensures old(Alone(v)) && Walks(r) && IsGenuine(r, genuine) && (r.round == 1 || old(Trusts(v, r.round))) ==> ok
      ensures old(Alone(v)) && old(Trusts(v, r.round)) ==> Trusts(v, r.round)
      // Without a fork, everybody's point of trust stays genuine.
      ensures !ForkedAtTwo(scheme, genuine) && old(AllGenuine()) ==> AllGenuine()
      decreases Rank(r.round), 2
    {
      var ps := r.prev;
      if strict || r.prev.None? {
        ps := GetTrustedPreviousSignature(v, r.round);
        if ps.None? {
          return false;
        }
      }
      ok := VerifyBeacon(scheme, Beacon(ps.value, r.round, r.sig));
      if r.round >= 1 {
        GenuineStep(scheme, genuine, r.round, r.sig);
      }
    }

    /** The walk. From a genuine point of trust below `round`, success means the genuine signature of the
        round before and a genuine point of trust below `round` again. From the group hash it succeeds for
        round 1, gives round 2 the group hash, and gets further only across a fork at round 2. */
    method GetTrustedPreviousSignature(v: nat, round: Round) returns (ps: Option<Bytes>)
      requires Valid() && v in pots
      modifies this
      ensures Valid() && pots.Keys == old(pots.Keys)
      ensures ps.Some? && old(Trusts(v, round)) ==> 1 <= round && ps.value == genuine(round - 1) && Trusts(v, round)
      ensures ps.Some? && round == 1 ==> ps.value == genuine(0)
      ensures round == 2 && Slow(old(pots[v]), 2) ==> (informed ==> ps.Some?) && (ps.Some? ==> ps.value == genuine(0))
      ensures ps.Some? && round > 2 && Slow(old(pots[v]), round) ==> ForkedAtTwo(scheme, genuine)
      ensures ps.Some? && round == 0 ==> ForkedAtTwo(scheme, genuine)
      ensures round != 1 && old(pots[v]).Some? && old(pots[v]).value.round == round ==> ps.None?
      ensures old(Alone(v)) && (round == 1 || old(Trusts(v, round))) ==> ps.Some?
      ensures old(Alone(v)) && old(Trusts(v, round)) ==> Trusts(v, round)
      ensures !ForkedAtTwo(scheme, genuine) && old(AllGenuine()) ==> AllGenuine()
      decreases Rank(round), 1
    {
      var ok := InfoAvailable();
      if !ok {
        return None;
      }
      if round == 1 {
        return Some(genuine(0));
      }
      var trustRound: Round := 1;
      var trustPrevSig := genuine(0);
      if pots[v].Some? && pots[v].value.round <= round {
        trustRound := pots[v].value.round;
        trustPrevSig := pots[v].value.sig;
      }
      var initial := trustRound;
      ghost var trusts := Trusts(v, round);
      var next: Option<Answer> := None;
      if trustRound < Pred(round) {
        next := Climb(v, round, trustRound, trustPrevSig);
        if next.None? {
          return None;
        }
        trustRound := Pred(round);
        trustPrevSig := next.value.sig;
        pots := pots[v := next];
      }
      if trustRound != Pred(round) {
        return None;
      }
      return Some(trustPrevSig);
    }

    /** The loop: from `start` and its signature up to the round before `round`, whose result it returns. */
    method Climb(v: nat, round: Round, start: Round, sig: Bytes) returns (next: Option<Answer>)
      requires Valid() && v in pots && 1 <= start < Pred(round)
      modifies this
      ensures Valid() && pots.Keys == old(pots.Keys)
      ensures next.Some? ==> next.value.round == Pred(round)
      ensures next.Some? && sig == genuine(start) ==> IsGenuine(next.value, genuine)
      ensures next.Some? && start == 1 && sig == genuine(0) ==> ForkedAtTwo(scheme, genuine)
      ensures old(Alone(v)) && sig == genuine(start) && old(Trusts(v, start + 1)) ==> next.Some?
      ensures old(Alone(v)) && sig == genuine(start) && old(Trusts(v, start + 1)) ==> Trusts(v, Pred(round))
      ensures !ForkedAtTwo(scheme, genuine) && old(AllGenuine()) ==> AllGenuine()
      decreases Rank(round), 0
    {
      var trustRound := start;
      var trustPrevSig := sig;
      ghost var good := sig == genuine(start);
      ghost var alone := Alone(v) && good && Trusts(v, start + 1);
      ghost var forked := ForkedAtTwo(scheme, genuine);
      ghost var clean := !forked && AllGenuine();
      next := None;
      while trustRound < Pred(round)
        invariant Valid() && pots.Keys == old(pots.Keys)
        invariant start <= trustRound <= Pred(round)
        invariant good ==> trustPrevSig == genuine(trustRound)
        invariant trustRound > start ==> next.Some? && next.value.round == trustRound && next.value.sig == trustPrevSig
        invariant trustRound == start ==> trustPrevSig == sig
        invariant trustRound > start && start == 1 && sig == genuine(0) ==> forked
        invariant alone ==> Trusts(v, if trustRound == start then start + 1 else trustRound)
        invariant clean ==> AllGenuine()
      {
        next := Advance(v, trustRound + 1, trustPrevSig);
        if next.None? {
          return None;
        }
        trustRound := trustRound + 1;
        trustPrevSig := next.value.sig;
      }
    }

    /** One round of the loop: any client fetches it, and it must verify on top of `prev`. */
    method Advance(ghost v: nat, round: Round, prev: Bytes) returns (next: Option<Answer>)
      requires Valid() && v in pots && 2 <= round
      modifies this
      ensures Valid() && pots.Keys == old(pots.Keys)
      ensures next.Some? ==> next.value.round == round
      ensures next.Some? && prev == genuine(round - 1) ==> IsGenuine(next.value, genuine)
      ensures next.Some? && round == 2 && prev == genuine(0) ==> ForkedAtTwo(scheme, genuine)
      ensures old(Alone(v)) && prev == genuine(round - 1) && old(Trusts(v, round)) ==> next.Some? && Trusts(v, round)
      ensures !ForkedAtTwo(scheme, genuine) && old(AllGenuine()) ==> AllGenuine()
      decreases round, 4
    {
      var other :| other in pots;
      next := Get(other, round);
      if next.None? {
        return None;
      }
      GenuineStep(scheme, genuine, round, next.value.sig);
      if !VerifyBeacon(scheme, Beacon(prev, round, next.value.sig)) {
        return None;
      }
    }
  }

  /** A concrete refusal: a new client without a point of trust refuses the genuine result of every
      round above 1, although its sources are honest and nobody forked the chain. */
  method NewClientRefuses(scheme: Scheme, genuine: Round -> Bytes, round: Round) returns (ok: bool)
    requires World(scheme, genuine) && !ForkedAtTwo(scheme, genuine) && 2 <= round
    ensures !ok
  {
    var c := new Clients(scheme, genuine, true, true, true, map[0 := None]);
    ok := c.Verify(0, Answer(round, genuine(round), Some(genuine(round - 1))));
  }

  /** A concrete forgery: a strict client whose point of trust is missing, or is a genuine one above
      round 2, accepts for round 2 whatever is signed on top of the group hash. */
  method ForgedRoundTwoAccepted(scheme: Scheme, genuine: Round -> Bytes, sig: Bytes, pot: Option<Answer>) returns (ok: bool)
    requires World(scheme, genuine) && scheme.valid(Message(scheme, 2, genuine(0)), sig) && sig != genuine(2)
    requires pot.Some? ==> 2 < pot.value.round && IsGenuine(pot.value, genuine)
    ensures ok && !IsGenuine(Answer(2, sig, None), genuine)
  {
    var c := new Clients(scheme, genuine, true, true, false, map[0 := pot]);
    ok := c.Verify(0, Answer(2, sig, None));
  }
}
