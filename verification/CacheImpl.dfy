/** The mutable cache object, proved against the functions of `PartialCache`. A Go map is
    ranged over in any order, so every `range` here picks its next key freely. */
module CacheImpl {
  import opened Bytes
  import opened Collections
  import opened P = PartialCache

  /** The filter of `FlushRounds`, which writes the kept identifiers back into the slice it is
      reading. Returns how many it kept. */
  method FilterInPlace(buf: array<Bytes>, id: Bytes) returns (m: nat)
    modifies buf
    ensures m <= buf.Length
    ensures buf[..m] == Without(old(buf[..]), {id})
  {
    m := 0;
    assert buf[..0] == [];
    for i := 0 to buf.Length
      invariant m <= i
      invariant buf[i..] == old(buf[..])[i..]
      invariant buf[..m] == Without(old(buf[..])[..i], {id})
    {
      var idd := buf[i];
      assert idd == old(buf[..])[i];
      ghost var seen := old(buf[..])[..i + 1];
      assert seen[..|seen| - 1] == old(buf[..])[..i];
      if idd != id {
        assert buf[i + 1..] == buf[i..][1..];
        ghost var kept := buf[..m];
        buf[m] := idd;
        assert buf[..m + 1] == kept + [idd];
        m := m + 1;
      }
      assert buf[i + 1..] == old(buf[..])[i + 1..];
    }
    assert old(buf[..])[..buf.Length] == old(buf[..]);
  }

  lemma StrikeOneMore(rcvd: map<nat, seq<Bytes>>, id: Bytes, idxs: set<nat>, idx: nat)
    requires idx !in idxs
    ensures Strike(Strike(rcvd, id, idxs), id, {idx}) == Strike(rcvd, id, idxs + {idx})
  {
  }

  lemma Changes(c: Cache, p: Packet, idx: nat)
    ensures Missed(c, p, idx) ==> P.Append(c, p, idx) == c
    ensures !Missed(c, p, idx) ==>
              forall id, k :: Holds(P.Append(c, p, idx), id, k) <==> HoldsAfter(c, p, idx, id, k)
    ensures forall id, k :: Holds(c, id, k) && Holds(P.Append(c, p, idx), id, k) ==>
              P.Append(c, p, idx).rounds[id].sigs[k] == c.rounds[id].sigs[k]
    ensures var id := RoundId(p.round, p.prev);
            Holds(P.Append(c, p, idx), id, idx) && !Holds(c, id, idx) ==> P.Append(c, p, idx).rounds[id].sigs[idx] == p.partial
  {
    forall id, k {
      AppendMeaning(c, p, idx, id, k);
    }
  }

  lemma GoneGrows(c: Cache, round: Round, ids: set<Bytes>, id: Bytes, idx: nat)
    ensures Gone(c, round, idx, ids + {id})
         == Gone(c, round, idx, ids) + (if Flushed(c, round, id) && idx in c.rounds[id].sigs then {id} else {})
  {
  }

  /** What is left of a signer's list once `ids` have been visited. */
  function Kept(c: Cache, round: Round, idx: nat, ids: set<Bytes>): seq<Bytes>
    requires idx in c.rcvd
  {
    Without(c.rcvd[idx], Gone(c, round, idx, ids))
  }

  lemma KeptStep(c: Cache, round: Round, ids: set<Bytes>, id: Bytes, idx: nat)
    requires idx in c.rcvd
    ensures Kept(c, round, idx, ids + {id})
         == if Flushed(c, round, id) && idx in c.rounds[id].sigs
            then Without(Kept(c, round, idx, ids), {id}) else Kept(c, round, idx, ids)
  {
    GoneGrows(c, round, ids, id, idx);
    WithoutTwice(c.rcvd[idx], Gone(c, round, idx, ids), {id});
    assert Gone(c, round, idx, ids) + {} == Gone(c, round, idx, ids);
  }

  lemma FlushStepRounds(c: Cache, round: Round, ids: set<Bytes>, id: Bytes)
    requires id in c.rounds && id !in ids
    ensures FlushSome(c, round, ids + {id}).rounds
         == if Flushed(c, round, id) then FlushSome(c, round, ids).rounds - {id} else FlushSome(c, round, ids).rounds
  {
  }

  /** The lists, once one more round has been visited that is to be flushed. */
  lemma FlushStepLists(c: Cache, round: Round, ids: set<Bytes>, id: Bytes)
    requires id in c.rounds && id !in ids && Flushed(c, round, id)
    ensures FlushSome(c, round, ids + {id}).rcvd
         == Strike(FlushSome(c, round, ids).rcvd, id, c.rounds[id].sigs.Keys)
  {
    var before, after := FlushSome(c, round, ids).rcvd, FlushSome(c, round, ids + {id}).rcvd;
    var struck := Strike(before, id, c.rounds[id].sigs.Keys);
    forall idx
      ensures idx in after <==> idx in struck
      ensures idx in struck ==> idx in after && after[idx] == struck[idx]
    {
      if idx in c.rcvd {
        KeptStep(c, round, ids, id, idx);
        assert Without([], {id}) == [];
      }
    }
  }

  lemma SkipStepLists(c: Cache, round: Round, ids: set<Bytes>, id: Bytes)
    requires id in c.rounds && id !in ids && !Flushed(c, round, id)
    ensures FlushSome(c, round, ids + {id}).rcvd == FlushSome(c, round, ids).rcvd
  {
    forall idx | idx in c.rcvd ensures Kept(c, round, idx, ids + {id}) == Kept(c, round, idx, ids) {
      KeptStep(c, round, ids, id, idx);
    }
  }

  /** Visiting one more round of the cache is one step of the outer loop. */
  lemma FlushStep(c: Cache, round: Round, ids: set<Bytes>, id: Bytes)
    requires id in c.rounds && id !in ids
    ensures var before, after := FlushSome(c, round, ids), FlushSome(c, round, ids + {id});
            after == if Flushed(c, round, id)
                     then Cache(before.rounds - {id}, Strike(before.rcvd, id, c.rounds[id].sigs.Keys))
                     else before
  {
    FlushStepRounds(c, round, ids, id);
    if Flushed(c, round, id) {
      FlushStepLists(c, round, ids, id);
    } else {
      SkipStepLists(c, round, ids, id);
    }
  }

  lemma FlushNone(c: Cache, round: Round)
    requires forall idx :: idx in c.rcvd ==> c.rcvd[idx] != []
    ensures FlushSome(c, round, {}) == c
  {
    forall idx | idx in c.rcvd ensures Without(c.rcvd[idx], Gone(c, round, idx, {})) == c.rcvd[idx] {
      assert Gone(c, round, idx, {}) == {};
      WithoutNone(c.rcvd[idx], {});
    }
  }

  class PartialCache {
    const indexOf: Bytes -> nat
    var rounds: map<Bytes, RoundCache>
    var rcvd: map<nat, seq<Bytes>>

    ghost function State(): Cache
      reads this
    {
      Cache(rounds, rcvd)
    }

    ghost predicate Valid()
      reads this
    {
      WellFormed(State(), indexOf)
    }

    constructor (indexOf: Bytes -> nat)
      ensures Valid() && State() == EMPTY && this.indexOf == indexOf
    {
      this.indexOf := indexOf;
      rounds := map[];
      rcvd := map[];
    }

    method Append(p: Packet)
      requires Valid()
      modifies this
      ensures Valid()
      ensures State() == P.Append(old(State()), p, indexOf(p.partial))
      ensures Missed(old(State()), p, indexOf(p.partial)) ==> State() == old(State())
      ensures !Missed(old(State()), p, indexOf(p.partial)) ==>
                forall id, k :: Holds(State(), id, k) <==> HoldsAfter(old(State()), p, indexOf(p.partial), id, k)
      ensures forall id, k :: Holds(old(State()), id, k) && Holds(State(), id, k) ==>
                rounds[id].sigs[k] == old(rounds)[id].sigs[k]
      ensures var id, idx := RoundId(p.round, p.prev), indexOf(p.partial);
              Holds(State(), id, idx) && !old(Holds(State(), id, idx)) ==> rounds[id].sigs[idx] == p.partial
    {
      AppendWellFormed(State(), p, indexOf);
      var id, idx := RoundId(p.round, p.prev), indexOf(p.partial);
      Changes(State(), p, idx);
      var ok := GetCache(id, p);
      if !ok {
        return;
      }
      if idx !in rounds[id].sigs {
        rounds := rounds[id := rounds[id].(sigs := rounds[id].sigs[idx := p.partial])];
        rcvd := rcvd[idx := (if idx in rcvd then rcvd[idx] else []) + [id]];
      }
    }

    method GetCache(id: Bytes, p: Packet) returns (ok: bool)
      requires id == RoundId(p.round, p.prev)
      modifies this
      ensures ok == Opened(old(State()), p, indexOf(p.partial)).Some?
      ensures State() == if ok then Opened(old(State()), p, indexOf(p.partial)).value else old(State())
    {
      if id in rounds {
        return true;
      }
      var idx := indexOf(p.partial);
      if idx in rcvd && |rcvd[idx]| >= MAX_PARTIALS_PER_NODE {
        var toEvict := rcvd[idx][0];
        if toEvict !in rounds {
          return false;
        }
        var round := rounds[toEvict].(sigs := rounds[toEvict].sigs - {idx});
        rounds := rounds[toEvict := round];
        rcvd := rcvd[idx := rcvd[idx][1..] + [id]];
        if round.sigs == map[] {
          assert rounds - {toEvict} == old(rounds) - {toEvict};
          rounds := rounds - {toEvict};
        }
        assert State() == Evict(old(State()), id, idx);
      }
      rounds := rounds[id := RoundCache(p.round, p.prev, id, map[])];
      return true;
    }

    /** Leaves exactly the cached rounds above `round`, and takes exactly the flushed identifiers
        off the lists of the signers that took part, whatever the iteration order. */
    method FlushRounds(round: Round)
      requires Valid()
      modifies this
      ensures Valid()
      ensures State() == Flush(old(State()), round)
      ensures forall id :: id in rounds <==> id in old(rounds) && round < old(rounds)[id].round
      ensures forall id :: id in rounds ==> rounds[id] == old(rounds)[id]
    {
      ghost var c := State();
      assert FlushSome(c, round, {}) == c by { FlushNone(c, round); }
      assert WellFormed(Flush(c, round), indexOf) by { FlushWellFormed(c, round, indexOf); }
      var todo := rounds.Keys;
      ghost var visited: set<Bytes> := {};
      while todo != {}
        invariant todo !! visited && todo + visited == c.rounds.Keys
        invariant State() == FlushSome(c, round, visited)
        decreases todo
      {
        var id :| id in todo;
        FlushStep(c, round, visited, id);
        assert rounds[id] == c.rounds[id];
        Visit(id, round);
        todo := todo - {id};
        visited := visited + {id};
      }
    }

    /** The body of the outer loop. */
    method Visit(id: Bytes, round: Round)
      requires id in rounds
      modifies this
      ensures State() == if old(rounds[id]).round <= round
                         then Cache(old(rounds) - {id}, Strike(old(rcvd), id, old(rounds[id]).sigs.Keys))
                         else old(State())
    {
      if rounds[id].round > round {
        return;
      }
      var cache := rounds[id];
      rounds := rounds - {id};
      StrikeSigners(id, cache.sigs.Keys);
    }

    /** The inner loop: `id` comes off the list of every signer in `idxs`. */
    method StrikeSigners(id: Bytes, idxs: set<nat>)
      modifies this`rcvd
      ensures rcvd == Strike(old(rcvd), id, idxs)
    {
      var todo := idxs;
      ghost var struck: set<nat> := {};
      assert rcvd == Strike(old(rcvd), id, {});
      while todo != {}
        invariant todo !! struck && todo + struck == idxs
        invariant rcvd == Strike(old(rcvd), id, struck)
        decreases |todo|
      {
        var idx :| idx in todo;
        StrikeOneMore(old(rcvd), id, struck, idx);
        StrikeSigner(id, idx);
        todo := todo - {idx};
        struck := struck + {idx};
      }
    }

    /** The body of the inner loop. */
    method StrikeSigner(id: Bytes, idx: nat)
      modifies this`rcvd
      ensures rcvd == Strike(old(rcvd), id, {idx})
    {
      var list := if idx in rcvd then rcvd[idx] else [];
      var buf := new Bytes[|list|](i requires 0 <= i < |list| => list[i]);
      assert buf[..] == list;
      var m := FilterInPlace(buf, id);
      assert buf[..m] == Without(list, {id});
      if m > 0 {
        rcvd := rcvd[idx := buf[..m]];
      } else {
        rcvd := rcvd - {idx};
      }
    }

    method GetRoundCache(round: Round, prev: Bytes) returns (rc: Option<RoundCache>)
      requires Valid()
      ensures rc.Some? <==> RoundId(round, prev) in rounds
      ensures rc.Some? ==> rc.value.round == round && rc.value.prev == prev && rc.value.sigs != map[]
      ensures rc.Some? ==> rc.value == rounds[RoundId(round, prev)]
    {
      var id := RoundId(round, prev);
      if id in rounds {
        assert Filed(rounds[id], id);
        RoundIdInjective(round, prev, rounds[id].round, rounds[id].prev);
        return Some(rounds[id]);
      }
      return None;
    }
  }
}
