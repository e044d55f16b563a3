/** The watch scheduler of the optimizing client (client/optimizing.go): which clients are being
    watched, which are protected from being closed, and which failed recently.

    The latency index may be reordered between any two looks at it, so every method is given the
    rankings it looks, one for each look. */
module WatchScheduler {
  import opened Collections

  datatype Failure = Failure(client: nat, backoffUntil: int)

  datatype Watch = Watch(active: seq<nat>, protected: seq<nat>, failed: seq<Failure>)

  predicate HasFailed(w: Watch, c: nat) {
    exists i :: 0 <= i < |w.failed| && w.failed[i].client == c
  }

  /** A client `nextUnwatched` may return. */
  predicate Eligible(w: Watch, c: nat) {
    c !in w.active && c !in w.protected && !HasFailed(w, c)
  }

  /** What every operation keeps: the active clients are known, distinct, few enough, and neither
      protected nor backing off. */
  ghost predicate Inv(w: Watch, clients: seq<nat>, limit: nat) {
    && NoRepeats(w.active) && |w.active| <= limit
    && forall c :: c in w.active ==> c in clients && c !in w.protected && !HasFailed(w, c)
  }

  /** Every look at the latency index shows some ranking of the clients. */
  ghost predicate Rankings(looks: nat -> seq<nat>, clients: seq<nat>) {
    forall k: nat :: multiset(looks(k)) == multiset(clients)
  }

  // ---- One event ------------------------------------------------------------------------

  /** The first position of `c`, or -1. */
  function IndexOf(s: seq<nat>, c: nat): (i: int)
    ensures -1 <= i < |s|
    ensures i >= 0 ==> s[i] == c
    ensures i == -1 <==> c !in s
  {
    if s == [] then -1
    else if s[0] == c then 0
    else var i := IndexOf(s[1..], c); if i == -1 then -1 else i + 1
  }

  /** `s` with the entry at `i` replaced by the last one, one shorter. */
  function SwapOut(s: seq<nat>, i: nat): seq<nat>
    requires i < |s|
  {
    s[i := s[|s| - 1]][..|s| - 1]
  }

  /** `done`: an active client starts backing off, a protected one is dropped. */
  function Ended(w: Watch, c: nat, until: int): Watch {
    if c in w.active
    then w.(active := SwapOut(w.active, IndexOf(w.active, c)), failed := w.failed + [Failure(c, until)])
    else if c in w.protected then w.(protected := SwapOut(w.protected, IndexOf(w.protected, c)))
    else w
  }

  /** `clean`: the failures that still back off. */
  function Backing(failed: seq<Failure>, now: int): seq<Failure> {
    if failed == [] then []
    else Backing(failed[..|failed| - 1], now)
         + (if failed[|failed| - 1].backoffUntil > now then [failed[|failed| - 1]] else [])
  }

  function Cleaned(w: Watch, now: int): Watch {
    w.(failed := Backing(w.failed, now))
  }

  /** `nextUnwatched`: the first eligible client of a ranking. */
  function FirstEligible(w: Watch, order: seq<nat>): (c: Option<nat>)
    ensures c.Some? ==> c.value in order && Eligible(w, c.value)
    ensures c.None? ==> forall i :: 0 <= i < |order| ==> !Eligible(w, order[i])
  {
    if order == [] then None
    else if Eligible(w, order[0]) then Some(order[0])
    else FirstEligible(w, order[1..])
  }

  /** The loop of `tryRepopulate`, whose looks at the index start with number `k`. */
  function Fill(w: Watch, looks: nat -> seq<nat>, k: nat, limit: nat): Watch
    decreases limit - |w.active|
  {
    if |w.active| >= limit then w
    else match FirstEligible(w, looks(k))
      case None => w
      case Some(c) => Fill(w.(active := w.active + [c]), looks, k + 1, limit)
  }

  lemma SwapOutMembers(s: seq<nat>, i: nat)
    requires NoRepeats(s) && i < |s|
    ensures NoRepeats(SwapOut(s, i)) && |SwapOut(s, i)| == |s| - 1
    ensures forall c :: c in SwapOut(s, i) <==> c in s && c != s[i]
  {
    var t := SwapOut(s, i);
    forall c ensures c in t <==> c in s && c != s[i] {
      if c in s && c != s[i] {
        var k :| 0 <= k < |s| && s[k] == c;
        assert t[if k == |s| - 1 then i else k] == c;
      }
    }
  }

  lemma {:induction false} BackingMeaning(failed: seq<Failure>, now: int)
    ensures forall f :: f in Backing(failed, now) <==> f in failed && f.backoffUntil > now
    decreases |failed|
  {
    if failed != [] {
      BackingMeaning(failed[..|failed| - 1], now);
      assert failed == failed[..|failed| - 1] + [failed[|failed| - 1]];
    }
  }

  // ---- The invariant --------------------------------------------------------------------

  lemma SwapOutContents(s: seq<nat>, i: nat)
    requires i < |s|
    ensures multiset(SwapOut(s, i)) == multiset(s) - multiset{s[i]}
  {
    var init, last := s[..|s| - 1], s[|s| - 1];
    assert s == init + [last];
    if i < |init| {
      assert SwapOut(s, i) == init[i := last];
    } else {
      assert SwapOut(s, i) == init;
    }
  }

  /** Exactly one watch ends: the client's active one, which then backs off, or else one protected one. */
  lemma EndedContents(w: Watch, c: nat, until: int)
    ensures var w' := Ended(w, c, until);
            && w'.failed == w.failed + (if c in w.active then [Failure(c, until)] else [])
            && multiset(w'.active) == multiset(w.active) - multiset{c}
            && multiset(w'.protected) == multiset(w.protected) - (if c in w.active then multiset{} else multiset{c})
  {
    var w' := Ended(w, c, until);
    if c in w.active {
      SwapOutContents(w.active, IndexOf(w.active, c));
    } else {
      assert w'.active == w.active && w'.failed == w.failed;
      if c in w.protected {
        SwapOutContents(w.protected, IndexOf(w.protected, c));
      }
    }
  }

  lemma EndedKeepsInv(w: Watch, c: nat, until: int, clients: seq<nat>, limit: nat)
    requires Inv(w, clients, limit)
    ensures Inv(Ended(w, c, until), clients, limit)
    ensures forall x :: x in Ended(w, c, until).active <==> x in w.active && x != c
  {
    var w' := Ended(w, c, until);
    if c in w.active {
      SwapOutMembers(w.active, IndexOf(w.active, c));
      forall x | x in w'.active ensures !HasFailed(w', x) {
        assert !HasFailed(w, x);
        forall k | 0 <= k < |w'.failed| ensures w'.failed[k].client != x {}
      }
    } else {
      forall x | x in w.active ensures x !in w'.protected && !HasFailed(w', x) {
        assert x !in w.protected && !HasFailed(w, x);
      }
    }
  }

  lemma CleanedKeepsInv(w: Watch, now: int, clients: seq<nat>, limit: nat)
    requires Inv(w, clients, limit)
    ensures Inv(Cleaned(w, now), clients, limit)
  {
    BackingMeaning(w.failed, now);
    var w' := Cleaned(w, now);
    forall x | x in w'.active ensures !HasFailed(w', x) {
      assert !HasFailed(w, x);
      forall k | 0 <= k < |w'.failed| ensures w'.failed[k].client != x {
        assert w'.failed[k] in w.failed;
      }
    }
  }

  /** Main result: repopulating only adds, keeps the invariant, and ends with the list full or with no
      eligible client left. */
  lemma {:induction false} FillMeaning(w: Watch, looks: nat -> seq<nat>, k: nat, clients: seq<nat>, limit: nat)
    requires Inv(w, clients, limit) && Rankings(looks, clients)
    ensures var w' := Fill(w, looks, k, limit);
            && Inv(w', clients, limit) && w.active <= w'.active
            && w'.protected == w.protected && w'.failed == w.failed
            && (|w'.active| == limit || forall c :: c in clients ==> !Eligible(w', c))
    decreases limit - |w.active|
  {
    if |w.active| < limit {
      var order := looks(k);
      SameMembers(order, clients);
      var c := FirstEligible(w, order);
      if c.Some? {
        var w' := w.(active := w.active + [c.value]);
        forall x | x in w'.active ensures x in clients && x !in w'.protected && !HasFailed(w', x) {
          assert HasFailed(w', x) <==> HasFailed(w, x);
        }
        FillMeaning(w', looks, k + 1, clients, limit);
      } else {
        forall x | x in clients ensures !Eligible(w, x) {
          var i :| 0 <= i < |order| && order[i] == x;
        }
      }
    }
  }

  // ---- Who is watched next --------------------------------------------------------------

  /** How many of the first `n` clients of a ranking are eligible. */
  function EligibleBefore(w: Watch, order: seq<nat>, n: nat): nat
    requires n <= |order|
  {
    if n == 0 then 0
    else EligibleBefore(w, order, n - 1) + if Eligible(w, order[n - 1]) then 1 else 0
  }

  lemma {:induction false} NoneBefore(w: Watch, order: seq<nat>, n: nat)
    requires n <= |order| && forall i :: 0 <= i < n ==> !Eligible(w, order[i])
    ensures EligibleBefore(w, order, n) == 0
    decreases n
  {
    if n > 0 {
      NoneBefore(w, order, n - 1);
    }
  }

  lemma {:induction false} FirstEligibleAt(w: Watch, order: seq<nat>) returns (f: nat)
    requires FirstEligible(w, order).Some?
    ensures f < |order| && order[f] == FirstEligible(w, order).value && Eligible(w, order[f])
    ensures forall i :: 0 <= i < f ==> !Eligible(w, order[i])
    decreases |order|
  {
    if Eligible(w, order[0]) {
      f := 0;
    } else {
      var g := FirstEligibleAt(w, order[1..]);
      f := g + 1;
      forall i | 0 <= i < f ensures !Eligible(w, order[i]) {
        if i > 0 { assert order[1..][i - 1] == order[i]; }
      }
    }
  }

  /** Watching one more client takes exactly that client off the eligible ones. */
  lemma {:induction false} OneFewerBefore(w: Watch, order: seq<nat>, f: nat, n: nat)
    requires NoRepeats(order) && f < |order| && n <= |order| && Eligible(w, order[f])
    ensures EligibleBefore(w.(active := w.active + [order[f]]), order, n)
         == EligibleBefore(w, order, n) - if f < n then 1 else 0
    decreases n
  {
    if n > 0 {
      OneFewerBefore(w, order, f, n - 1);
      var w', x := w.(active := w.active + [order[f]]), order[n - 1];
      assert HasFailed(w', x) <==> HasFailed(w, x);
    }
  }

  lemma {:induction false} FillOnlyAdds(w: Watch, looks: nat -> seq<nat>, k: nat, limit: nat, c: nat)
    requires c in w.active
    ensures c in Fill(w, looks, k, limit).active
    decreases limit - |w.active|
  {
    if |w.active| < limit {
      var e := FirstEligible(w, looks(k));
      if e.Some? {
        FillOnlyAdds(w.(active := w.active + [e.value]), looks, k + 1, limit, c);
      }
    }
  }

  /** Main result: under a ranking that stays put, an eligible client is watched exactly if fewer
      eligible clients rank before it than there are free places. */
  lemma {:induction false} WatchedIff(w: Watch, looks: nat -> seq<nat>, k: nat, limit: nat, order: seq<nat>, n: nat)
    requires NoRepeats(order) && n < |order| && (forall i: nat :: looks(i) == order)
    requires Eligible(w, order[n])
    ensures order[n] in Fill(w, looks, k, limit).active <==> EligibleBefore(w, order, n) < limit - |w.active|
    decreases limit - |w.active|
  {
    if |w.active| < limit {
      assert looks(k) == order;
      var f := FirstEligibleAt(w, order);
      var w' := w.(active := w.active + [order[f]]);
      assert Fill(w, looks, k, limit) == Fill(w', looks, k + 1, limit);
      if f == n {
        NoneBefore(w, order, n);
        FillOnlyAdds(w', looks, k + 1, limit, order[n]);
      } else {
        assert HasFailed(w', order[n]) <==> HasFailed(w, order[n]);
        OneFewerBefore(w, order, f, n);
        WatchedIff(w', looks, k + 1, limit, order, n);
      }
    }
  }

  /** A client that is not eligible, or not known, is not added. */
  lemma {:induction false} NotAdded(w: Watch, looks: nat -> seq<nat>, k: nat, limit: nat, c: nat)
    requires c !in w.active && (!Eligible(w, c) || forall i: nat :: c !in looks(i))
    ensures c !in Fill(w, looks, k, limit).active
    decreases limit - |w.active|
  {
    if |w.active| < limit {
      var e := FirstEligible(w, looks(k));
      if e.Some? {
        var w' := w.(active := w.active + [e.value]);
        assert HasFailed(w', c) <==> HasFailed(w, c);
        NotAdded(w', looks, k + 1, limit, c);
      }
    }
  }

  /** The exact condition under which a protected client whose watch ended is opened again, which the
      documentation rules out: it is known, does not back off, was not protected twice, and fewer
      eligible clients rank before it than there are free places. */
  lemma ReopenedIff(w: Watch, c: nat, until: int, now: int, looks: nat -> seq<nat>, limit: nat, order: seq<nat>)
    requires NoRepeats(order) && (forall i: nat :: looks(i) == order)
    requires c in w.protected && c !in w.active
    ensures c in Fill(Cleaned(Ended(w, c, until), now), looks, 0, limit).active
       <==> && c in order && multiset(w.protected)[c] == 1
            && (forall f :: f in w.failed && f.client == c ==> f.backoffUntil <= now)
            && EligibleBefore(Cleaned(Ended(w, c, until), now), order, IndexOf(order, c)) < limit - |w.active|
  {
    var w' := Cleaned(Ended(w, c, until), now);
    BackingMeaning(w.failed, now);
    assert HasFailed(w', c) <==> exists f :: f in w.failed && f.client == c && f.backoffUntil > now by {
      if f :| f in w.failed && f.client == c && f.backoffUntil > now {
        var i :| 0 <= i < |w'.failed| && w'.failed[i] == f;
      }
      if HasFailed(w', c) {
        var i :| 0 <= i < |w'.failed| && w'.failed[i].client == c;
        assert w'.failed[i] in w'.failed;
      }
    }
    DroppedOnce(w.protected, IndexOf(w.protected, c));
    if c in order && Eligible(w', c) {
      WatchedIff(w', looks, 0, limit, order, IndexOf(order, c));
    } else {
      NotAdded(w', looks, 0, limit, c);
    }
  }

  /** Swapping one occurrence out leaves the others. */
  lemma DroppedOnce(s: seq<nat>, i: nat)
    requires i < |s|
    ensures s[i] in SwapOut(s, i) <==> multiset(s)[s[i]] != 1
    ensures multiset(s)[s[i]] >= 1
  {
    var n := |s| - 1;
    assert s == s[..n] + [s[n]];
    if i < n {
      assert SwapOut(s, i) == s[..n][i := s[n]];
      assert multiset(SwapOut(s, i)) == multiset(s[..n]) - multiset{s[i]} + multiset{s[n]};
    } else {
      assert SwapOut(s, i) == s[..n];
    }
    assert multiset(SwapOut(s, i)) == multiset(s) - multiset{s[i]};
    assert s[i] in SwapOut(s, i) <==> s[i] in multiset(SwapOut(s, i));
  }

  /** A concrete reopening: the only client is passive, its watch ends, and it is watched again. */
  lemma PassiveReopens(looks: nat -> seq<nat>, until: int, now: int)
    requires forall i: nat :: looks(i) == [7]
    ensures var w := Watch([], [7], []);
            Fill(Cleaned(Ended(w, 7, until), now), looks, 0, 1).active == [7]
  {
    var w := Watch([], [7], []);
    var w' := Cleaned(Ended(w, 7, until), now);
    assert w' == Watch([], [], []);
    assert Eligible(w', looks(0)[0]);
    assert FirstEligible(w', looks(0)) == Some(7);
    assert w'.active + [7] == [7];
  }

  // ---- Late reports ---------------------------------------------------------------------

  /** `closeSlowest` on client `c`. The watch it cancels reports its end only later. */
  function Closed(w: Watch, c: nat): Watch
    requires c in w.active
  {
    w.(active := SwapOut(w.active, IndexOf(w.active, c)))
  }

  lemma ClosedIsFree(w: Watch, c: nat, now: int, clients: seq<nat>, limit: nat)
    requires Inv(w, clients, limit) && c in w.active
    ensures Eligible(Cleaned(Closed(w, c), now), c)
  {
    SwapOutMembers(w.active, IndexOf(w.active, c));
    BackingMeaning(w.failed, now);
    var w' := Cleaned(Closed(w, c), now);
    assert !HasFailed(w, c) && c !in w.protected;
    forall k | 0 <= k < |w'.failed| ensures w'.failed[k].client != c {
      assert w'.failed[k] in w.failed;
    }
  }

  /** The exact condition under which the report of a watch that `closeSlowest` cancelled is harmless, as
      the source expects it to be: the list was full without its client, or enough eligible clients
      ranked before it. Otherwise the client was opened again meanwhile, and the report closes its new
      watch and makes it back off. */
  lemma LateReportIff(w: Watch, c: nat, until: int, now: int, looks: nat -> seq<nat>, k: nat,
                      clients: seq<nat>, limit: nat, order: seq<nat>)
    requires Inv(w, clients, limit) && c in w.active
    requires NoRepeats(order) && multiset(order) == multiset(clients) && (forall i: nat :: looks(i) == order)
    ensures c in order
    ensures var refilled := Fill(Cleaned(Closed(w, c), now), looks, k, limit);
            Ended(refilled, c, until) == refilled
            <==> EligibleBefore(Cleaned(Closed(w, c), now), order, IndexOf(order, c)) >= limit - (|w.active| - 1)
  {
    SameMembers(order, clients);
    var w' := Cleaned(Closed(w, c), now);
    SwapOutMembers(w.active, IndexOf(w.active, c));
    ClosedIsFree(w, c, now, clients, limit);
    WatchedIff(w', looks, k, limit, order, IndexOf(order, c));
    FillKeepsRest(w', looks, k, limit);
    var refilled := Fill(w', looks, k, limit);
    if c in refilled.active {
      assert |Ended(refilled, c, until).failed| == |refilled.failed| + 1;
    }
  }

  lemma {:induction false} FillKeepsRest(w: Watch, looks: nat -> seq<nat>, k: nat, limit: nat)
    ensures Fill(w, looks, k, limit).protected == w.protected && Fill(w, looks, k, limit).failed == w.failed
    decreases limit - |w.active|
  {
    if |w.active| < limit {
      var e := FirstEligible(w, looks(k));
      if e.Some? {
        FillKeepsRest(w.(active := w.active + [e.value]), looks, k + 1, limit);
      }
    }
  }

  /** A concrete harmful report: the fastest client 1 backs off, so the periodic turn closes client 2 and
      opens it again; the report of the closed watch then leaves nobody watched. */
  lemma LateReportHarms(looks: nat -> seq<nat>, now: int, until: int)
    requires forall i: nat :: looks(i) == [1, 2]
    ensures var w := Watch([2], [], [Failure(1, now + 1)]);
            var refilled := Fill(Cleaned(Closed(w, 2), now), looks, 0, 1);
            && Inv(w, [1, 2], 1) && refilled.active == [2]
            && Ended(refilled, 2, until).active == [] && HasFailed(Ended(refilled, 2, until), 2)
  {
    var w := Watch([2], [], [Failure(1, now + 1)]);
    var w' := Cleaned(Closed(w, 2), now);
    assert w.failed[..0] == [] && Backing(w.failed, now) == w.failed;
    assert w' == Watch([], [], [Failure(1, now + 1)]);
    assert w'.failed[0].client == 1 && !Eligible(w', 1) && Eligible(w', 2);
    assert [1, 2][1..] == [2];
    assert FirstEligible(w', looks(0)) == Some(2);
    assert w'.active + [2] == [2];
    var refilled := Fill(w', looks, 0, 1);
    assert refilled == Fill(w'.(active := [2]), looks, 1, 1);
    assert refilled == Watch([2], [], [Failure(1, now + 1)]);
    var ended := Ended(refilled, 2, until);
    assert ended.failed[1].client == 2;
  }

  /** Rank `r` is the last one of an active client, and just that client goes. */
  ghost predicate ClosesLast(order: seq<nat>, before: seq<nat>, after: seq<nat>, r: int) {
    && 0 <= r < |order| && order[r] in before
    && (forall k :: r < k < |order| ==> order[k] !in before)
    && (forall c :: c in after <==> c in before && c != order[r])
  }

  // ---- The object -----------------------------------------------------------------------

  class WatchState {
    const clients: seq<nat>
    const limit: nat
    const retryInterval: nat
    var active: seq<nat>
    var protected: seq<nat>
    var failed: seq<Failure>

    ghost function Abs(): Watch
      reads this
    {
      Watch(active, protected, failed)
    }

    ghost predicate Valid()
      reads this
    {
      Inv(Abs(), clients, limit)
    }

    constructor (clients: seq<nat>, limit: nat, retryInterval: nat, passive: seq<nat>)
      ensures Valid() && Abs() == Watch([], passive, [])
      ensures this.clients == clients && this.limit == limit && this.retryInterval == retryInterval
    {
      this.clients := clients;
      this.limit := limit;
      this.retryInterval := retryInterval;
      active := [];
      protected := passive;
      failed := [];
    }

    method HasActive(c: nat) returns (i: int)
      ensures i == IndexOf(active, c)
    {
      i := Find(active, c);
    }

    method HasProtected(c: nat) returns (i: int)
      ensures i == IndexOf(protected, c)
    {
      i := Find(protected, c);
    }

    static method Find(s: seq<nat>, c: nat) returns (i: int)
      ensures i == IndexOf(s, c)
    {
      i := 0;
      while i < |s|
        invariant 0 <= i <= |s|
        invariant IndexOf(s, c) == var r := IndexOf(s[i..], c); if r == -1 then -1 else r + i
      {
        if s[i] == c {
          return;
        }
        assert s[i..][1..] == s[i + 1..];
        i := i + 1;
      }
      i := -1;
    }

    method Clean(now: int)
      requires Valid()
      modifies this`failed
      ensures Valid() && Abs() == Cleaned(old(Abs()), now)
      ensures forall f :: f in failed <==> f in old(failed) && f.backoffUntil > now
    {
      CleanedKeepsInv(Abs(), now, clients, limit);
      BackingMeaning(failed, now);
      var nf: seq<Failure> := [];
      for i := 0 to |failed|
        invariant nf == Backing(failed[..i], now)
      {
        assert failed[..i + 1][..i] == failed[..i];
        if failed[i].backoffUntil > now {
          nf := nf + [failed[i]];
        }
      }
      assert failed[..|failed|] == failed;
      failed := nf;
    }

    /** The first eligible client of the ranking read. */
    method NextUnwatched(order: seq<nat>) returns (c: Option<nat>)
      ensures c == FirstEligible(Abs(), order)
    {
      for k := 0 to |order|
        invariant FirstEligible(Abs(), order) == FirstEligible(Abs(), order[k..])
      {
        assert order[k..][1..] == order[k + 1..];
        var free := IsFree(order[k]);
        if free {
          return Some(order[k]);
        }
      }
      return None;
    }

    method IsFree(c: nat) returns (free: bool)
      ensures free <==> Eligible(Abs(), c)
    {
      var a := HasActive(c);
      if a != -1 {
        return false;
      }
      for i := 0 to |failed|
        invariant forall k :: 0 <= k < i ==> failed[k].client != c
      {
        if failed[i].client == c {
          return false;
        }
      }
      var p := HasProtected(c);
      return p == -1;
    }

    /** Ends with the active list full or no eligible client left; only adds eligible clients. */
    method TryRepopulate(now: int, looks: nat -> seq<nat>, from: nat)
      requires Valid() && Rankings(looks, clients)
      modifies this`active, this`failed
      ensures Valid() && Abs() == Fill(Cleaned(old(Abs()), now), looks, from, limit)
      ensures old(active) <= active
      ensures |active| == limit || forall c :: c in clients ==> !Eligible(Abs(), c)
    {
      Clean(now);
      FillMeaning(Abs(), looks, from, clients, limit);
      Refill(looks, from);
    }

    /** The loop of `tryRepopulate`. */
    method Refill(looks: nat -> seq<nat>, from: nat)
      modifies this`active
      ensures Abs() == Fill(old(Abs()), looks, from, limit)
    {
      ghost var target := Fill(Abs(), looks, from, limit);
      var k := from;
      while |active| < limit
        invariant target == Fill(Abs(), looks, k, limit)
        decreases limit - |active|
      {
        var c := NextUnwatched(looks(k));
        if c.None? {
          return;
        }
        active := active + [c.value];
        k := k + 1;
      }
    }

    method Close(i: nat)
      requires Valid() && i < |active|
      modifies this`active
      ensures Valid() && active == SwapOut(old(active), i)
      ensures forall c :: c in active <==> c in old(active) && c != old(active)[i]
    {
      SwapOutMembers(active, i);
      active := active[i := active[|active| - 1]];
      active := active[..|active| - 1];
    }

    /** A watch ended: an active client starts backing off, a protected one is dropped. */
    method Done(c: nat, now: int)
      requires Valid()
      modifies this
      ensures Valid() && Abs() == Ended(old(Abs()), c, now + retryInterval)
      ensures forall x :: x in active <==> x in old(active) && x != c
      ensures failed == old(failed) + if c in old(active) then [Failure(c, now + retryInterval)] else []
      ensures multiset(protected) == multiset(old(protected)) - if c in old(active) then multiset{} else multiset{c}
    {
      EndedContents(Abs(), c, now + retryInterval);
      Finish(c, now);
    }

    method Finish(c: nat, now: int)
      requires Valid()
      modifies this
      ensures Valid() && Abs() == Ended(old(Abs()), c, now + retryInterval)
      ensures forall x :: x in active <==> x in old(active) && x != c
    {
      EndedKeepsInv(Abs(), c, now + retryInterval, clients, limit);
      var idx := HasActive(c);
      if idx > -1 {
        Close(idx);
        failed := failed + [Failure(c, now + retryInterval)];
      } else {
        var i := HasProtected(c);
        if i > -1 {
          protected := protected[i := protected[|protected| - 1]];
          protected := protected[..|protected| - 1];
        }
      }
    }

    /** Closes exactly the active client ranked last; with no active client, does nothing. The
        index it computes is always in range. */
    method CloseSlowest(order: seq<nat>)
      requires Valid() && multiset(order) == multiset(clients)
      modifies this`active
      ensures Valid() && (old(active) == [] ==> active == [])
      ensures old(active) != [] ==> exists r :: ClosesLast(order, old(active), active, r)
    {
      if |active| == 0 {
        return;
      }
      SameMembers(order, clients);
      var idxs: seq<nat> := [];
      ghost var rank := -1;
      for k := 0 to |order|
        invariant active == old(active)
        invariant -1 <= rank < k
        invariant idxs != [] <==> rank >= 0
        invariant idxs != [] ==> idxs[|idxs| - 1] < |active| && active[idxs[|idxs| - 1]] == order[rank]
        invariant forall j :: rank < j < k ==> order[j] !in active
      {
        var i := HasActive(order[k]);
        if i > -1 {
          idxs := idxs + [i];
          rank := k;
        }
      }
      assert active[0] in order;
      Close(idxs[|idxs| - 1]);
      assert ClosesLast(order, old(active), active, rank);
    }

    /** One event of the dispatch loop: a watch that ended. */
    method OnClosing(c: nat, now: int, cancelled: bool, looks: nat -> seq<nat>) returns (finished: bool)
      requires Valid() && Rankings(looks, clients)
      modifies this
      ensures Valid()
      ensures var w := Ended(old(Abs()), c, now + retryInterval);
              Abs() == if cancelled then w else Fill(Cleaned(w, now), looks, 0, limit)
      ensures !cancelled ==> |active| == limit || forall x :: x in clients ==> !Eligible(Abs(), x)
      ensures finished <==> active == [] && protected == []
    {
      Done(c, now);
      if !cancelled {
        TryRepopulate(now, looks, 0);
      }
      finished := |active| == 0 && |protected| == 0;
    }

    /** One event of the dispatch loop: the periodic turn to the fastest client. It changes nothing
        unless the fastest client is neither watched nor protected; then the slowest is closed, and
        afterwards the watch list is full again, or nobody is left to add. */
    method OnTick(now: int, looks: nat -> seq<nat>) returns (turned: bool)
      requires Valid() && Rankings(looks, clients)
      modifies this
      ensures Valid() && protected == old(protected)
      ensures turned <==> looks(0) != [] && looks(0)[0] !in old(active) && looks(0)[0] !in old(protected)
      ensures !turned ==> Abs() == old(Abs())
      ensures turned ==> exists kept :: && (old(active) == [] ==> kept == [])
                                       && (old(active) != [] ==> exists r :: ClosesLast(looks(1), old(active), kept, r))
                                       && Abs() == Fill(Cleaned(old(Abs()).(active := kept), now), looks, 2, limit)
      ensures turned ==> |active| == limit || forall c :: c in clients ==> !Eligible(Abs(), c)
    {
      var order := looks(0);
      if |order| == 0 {
        return false;
      }
      var a := HasActive(order[0]);
      var p := HasProtected(order[0]);
      turned := a == -1 && p == -1;
      if turned {
        CloseSlowest(looks(1));
        ghost var kept := active;
        TryRepopulate(now, looks, 2);
        assert Abs() == Fill(Cleaned(old(Abs()).(active := kept), now), looks, 2, limit);
      }
    }
  }
}
