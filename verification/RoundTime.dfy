/** The arithmetic that ties rounds to wall-clock seconds (chain/time.go).

    Periods are whole seconds, as on the wire. The machine integers of the source wrap
    explicitly here; the floating-point `floor` and `log2` are exact integer floors. */
module RoundTime {
  import opened Bytes

  const TWO63: int := 0x8000_0000_0000_0000
  const MAX_INT64: int := TWO63 - 1
  const MAX_TIME_BUFFER: int := 0x10_0000_0000
  /** `TimeOfRoundErrorValue`. */
  const ERROR_VALUE: int := MAX_INT64 - MAX_TIME_BUFFER
  /** The longest whole-second `time.Duration`. */
  const MAX_PERIOD: int := 9_223_372_036
  /** The range of genesis times for which the round times are shown not to wrap. */
  const MAX_GENESIS: int := 0x2_0000_0000
  /** Elapsed times below this are exact in a `float64`. */
  const MAX_ELAPSED: int := 0x20_0000_0000_0000

  const TWO32: int := 0x1_0000_0000

  function WrapU32(x: int): (r: nat)
    ensures r < TWO32
  {
    x % TWO32
  }

  function WrapU64(x: int): (r: int)
    ensures 0 <= r < TWO64
  {
    x % TWO64
  }

  function WrapI64(x: int): (r: int)
    ensures -TWO63 <= r < TWO63
    ensures -TWO63 <= x < TWO63 ==> r == x
  {
    (x + TWO63) % (2 * TWO63) - TWO63
  }

  function Pow2(k: nat): (p: nat)
    ensures p >= 1
  {
    if k == 0 then 1 else 2 * Pow2(k - 1)
  }

  function Log2(x: nat): (k: nat)
    requires x >= 1
    ensures Pow2(k) <= x < Pow2(k + 1)
  {
    if x == 1 then 0 else 1 + Log2(x / 2)
  }

  function TimeOfRound(period: int, genesis: int, round: Round): int {
    if round == 0 then genesis
    else if period < 0 then ERROR_VALUE
    else if round >= MAX_ROUND / Pow2(Log2(period + 1) + 2) then ERROR_VALUE
    else
      var delta := WrapU64((round - 1) * period);
      var val := WrapI64(genesis + WrapI64(delta));
      if val > ERROR_VALUE then ERROR_VALUE else val
  }

  /** `NextRound`: the next round and its time. */
  function NextRound(now: int, period: int, genesis: int): (Round, int)
    requires 1 <= period
  {
    if now < genesis then (1, genesis)
    else
      var started := WrapU64((now - genesis) / period + 1);
      (WrapU64(started + 1), WrapI64(genesis + WrapI64(WrapU64(started * period))))
  }

  function CurrentRound(now: int, period: int, genesis: int): Round
    requires 1 <= period
  {
    var (next, _) := NextRound(now, period, genesis);
    if next <= 1 then next else next - 1
  }

  /** The check of `Transition` and `TransitionNewGroup`: the time is that of a round. */
  predicate Aligned(period: int, genesis: int, t: int)
    requires 1 <= period
  {
    TimeOfRound(period, genesis, CurrentRound(t, period, genesis)) == t
  }

  /** The periods and genesis times a group may carry. */
  predicate ValidSchedule(period: int, genesis: int) {
    1 <= period <= MAX_PERIOD && 0 <= genesis <= MAX_GENESIS
  }

  predicate InRange(now: int, genesis: int) {
    genesis <= now < genesis + MAX_ELAPSED
  }

  lemma {:induction false} Pow2Add(a: nat, b: nat)
    ensures Pow2(a + b) == Pow2(a) * Pow2(b)
  {
    if a != 0 {
      Pow2Add(a - 1, b);
      assert Pow2(a + b) == 2 * (Pow2(a - 1) * Pow2(b));
      assert 2 * (Pow2(a - 1) * Pow2(b)) == (2 * Pow2(a - 1)) * Pow2(b);
    }
  }

  lemma {:induction false} Pow2Monotone(a: nat, b: nat)
    requires a <= b
    ensures Pow2(a) <= Pow2(b)
  {
    if a != b {
      Pow2Monotone(a, b - 1);
    }
  }

  lemma Pow2Values()
    ensures Pow2(10) == 0x400 && Pow2(32) == 0x1_0000_0000 && Pow2(33) == 0x2_0000_0000
    ensures Pow2(34) == 0x4_0000_0000 && Pow2(54) == 0x40_0000_0000_0000
    ensures Pow2(63) == TWO63 && Pow2(64) == TWO64
  {
    assert Pow2(8) == 0x100 && Pow2(10) == 0x400;
    Pow2Add(8, 8);
    Pow2Add(16, 16);
    Pow2Add(1, 32);
    Pow2Add(2, 32);
    Pow2Add(22, 32) by { Pow2Add(10, 10); Pow2Add(2, 20); }
    Pow2Add(10, 10);
    Pow2Add(2, 20);
    Pow2Add(32, 32);
    Pow2Add(1, 63);
  }

  /** The overflow guard is a plain power of two. */
  lemma GuardValue(bits: nat)
    requires bits <= 33
    ensures MAX_ROUND / Pow2(bits + 2) == Pow2(62 - bits) - 1
  {
    assert Pow2(bits + 2) * Pow2(62 - bits) == TWO64 by {
      Pow2Add(bits + 2, 62 - bits);
      Pow2Values();
    }
    JustBelowProduct(MAX_ROUND, Pow2(bits + 2), Pow2(62 - bits));
  }

  lemma JustBelowProduct(x: nat, d: nat, q: nat)
    requires 1 <= d && 1 <= q && d * q == x + 1
    ensures x / d == q - 1
  {
    assert d * (q - 1) == d * q - d;
    DivUnique(x, d, q - 1, d - 1);
  }

  lemma DivUnique(x: nat, d: nat, q: nat, r: nat)
    requires 1 <= d && r < d && x == d * q + r
    ensures x / d == q
  {
    var e := x / d - q;
    assert d * e == d * (x / d) - d * q == r - x % d;
    assert e == 0 by {
      if e >= 1 {
        MulMonotone(d, 1, d, e);
      }
    }
  }

  lemma BitsBound(period: int)
    requires 0 <= period <= MAX_PERIOD
    ensures Log2(period + 1) <= 33
  {
    Pow2Values();
    if Log2(period + 1) >= 34 {
      Pow2Monotone(34, Log2(period + 1));
    }
  }

  lemma MulMonotone(a: nat, b: nat, c: nat, d: nat)
    requires a <= c && b <= d
    ensures a * b <= c * d
  {
    assert a * b <= a * d;
    assert a * d <= c * d;
  }

  /** The slack the guard leaves below `2^63` covers every genesis time. */
  lemma GuardSlack(b: nat)
    requires b <= 33
    ensures 2 * Pow2(62 - b) + 3 * Pow2(b + 1) - 6 > MAX_GENESIS
  {
    Pow2Values();
    if b == 0 {
      Pow2Monotone(33, 62);
    } else if b <= 30 {
      Pow2Monotone(32, 62 - b);
      Pow2Monotone(2, b + 1);
    } else {
      Pow2Monotone(32, b + 1);
    }
  }

  lemma ProductBelow(m: nat, p: nat, A: nat, B: nat)
    requires 3 <= A && 2 <= B && m <= A - 3 && p <= B - 2
    ensures m * p <= A * B - 2 * A - 3 * B + 6
  {
    MulMonotone(m, p, A - 3, B - 2);
    assert (A - 3) * (B - 2) == A * (B - 2) - 3 * (B - 2);
    assert A * (B - 2) == A * B - 2 * A;
  }

  /** Below the guard, `genesis + (round - 1) * period` stays within `int64`. */
  lemma NoWrap(period: int, genesis: int, round: Round)
    requires 0 <= period <= MAX_PERIOD && 0 <= genesis <= MAX_GENESIS
    requires Log2(period + 1) <= 33
    requires 1 <= round < Pow2(62 - Log2(period + 1)) - 1
    ensures 0 <= (round - 1) * period
    ensures genesis + (round - 1) * period < TWO63
  {
    var b := Log2(period + 1);
    var A, B := Pow2(62 - b), Pow2(b + 1);
    assert A * B == TWO63 by {
      Pow2Add(62 - b, b + 1);
      Pow2Values();
    }
    assert 2 * A + 3 * B - 6 > MAX_GENESIS by { GuardSlack(b); }
    SumBelow(round - 1, period, A, B, genesis);
  }

  lemma SumBelow(m: nat, p: nat, A: nat, B: nat, genesis: nat)
    requires 3 <= A && 2 <= B && m <= A - 3 && p <= B - 2
    requires A * B == TWO63 && genesis < 2 * A + 3 * B - 6
    ensures 0 <= m * p && genesis + m * p < TWO63
  {
    ProductBelow(m, p, A, B);
    MulMonotone(0, 0, m, p);
  }

  /** The first round `TimeOfRound` refuses for its size alone. */
  function RoundLimit(period: int): (limit: nat)
    requires 0 <= period <= MAX_PERIOD
    ensures limit == MAX_ROUND / Pow2(Log2(period + 1) + 2)
  {
    BitsBound(period);
    GuardValue(Log2(period + 1));
    Pow2(62 - Log2(period + 1)) - 1
  }

  lemma Unwrapped(genesis: nat, delta: nat)
    requires genesis + delta < TWO63
    ensures WrapI64(genesis + WrapI64(WrapU64(delta))) == genesis + delta
  {
  }

  /** Main result on `TimeOfRound`: no `uint64` or `int64` step ever wraps. The result is the
      exact round time, or the error value where the round or its time is out of range. */
  lemma TimeOfRoundExact(period: int, genesis: int, round: Round)
    requires 0 <= period <= MAX_PERIOD && 0 <= genesis <= MAX_GENESIS
    ensures var exact := genesis + (if round == 0 then 0 else (round - 1) * period);
            TimeOfRound(period, genesis, round) ==
            if round != 0 && (round >= RoundLimit(period) || exact > ERROR_VALUE)
            then ERROR_VALUE else exact
  {
    if round != 0 && round < RoundLimit(period) {
      BitsBound(period);
      NoWrap(period, genesis, round);
      Unwrapped(genesis, (round - 1) * period);
    }
  }

  /** Round times never decrease, and none lies beyond the error value. */
  lemma TimeOfRoundMonotone(period: int, genesis: int, r: Round, s: Round)
    requires 0 <= period <= MAX_PERIOD && 0 <= genesis <= MAX_GENESIS
    requires r <= s
    ensures TimeOfRound(period, genesis, r) <= TimeOfRound(period, genesis, s) <= ERROR_VALUE
  {
    TimeOfRoundExact(period, genesis, r);
    TimeOfRoundExact(period, genesis, s);
    if r != 0 {
      MulMonotone(r - 1, period, s - 1, period);
    } else if s != 0 {
      MulMonotone(0, 0, s - 1, period);
    }
  }

  /** In range, `NextRound` is the exact integer quotient: nothing wraps. */
  lemma NextRoundExact(now: int, period: int, genesis: int)
    requires ValidSchedule(period, genesis) && InRange(now, genesis)
    ensures var q := (now - genesis) / period;
            && NextRound(now, period, genesis) == (q + 2, genesis + (q + 1) * period)
            && CurrentRound(now, period, genesis) == q + 1
            && q * period <= now - genesis < (q + 1) * period
  {
    var q := (now - genesis) / period;
    Quotient(now - genesis, period);
    NextRoundFrom(now, period, genesis, q, (q + 1) * period);
  }

  lemma NextRoundFrom(now: int, period: int, genesis: int, q: nat, delta: nat)
    requires ValidSchedule(period, genesis) && InRange(now, genesis)
    requires q == (now - genesis) / period && q < MAX_ELAPSED
    requires delta == (q + 1) * period && delta < MAX_ELAPSED + MAX_PERIOD
    ensures NextRound(now, period, genesis) == (q + 2, genesis + delta)
  {
    assert WrapU64(q + 1) == q + 1 && WrapU64(q + 2) == q + 2;
    assert NextRound(now, period, genesis).1 == WrapI64(genesis + WrapI64(WrapU64(delta)));
    Unwrapped(genesis, delta);
  }

  lemma Quotient(x: nat, p: nat)
    requires 1 <= p
    ensures var q := x / p; 0 <= q <= x && q * p <= x < (q + 1) * p && (q + 1) * p <= x + p
  {
    var q := x / p;
    assert x == p * q + x % p;
    assert (q + 1) * p == p * q + p;
    MulMonotone(q, 1, q, p);
  }

  lemma FarBelow(period: nat, round: nat, A: nat, P: nat)
    requires 2 <= A && P <= 2 * period && P <= 0x2_0000_0000 && A * P == 0x4000_0000_0000_0000
    requires 1 <= round && (round - 1) * period <= MAX_ELAPSED + MAX_PERIOD
    ensures round < A - 1
  {
    assert (round - 1) * (2 * period) == 2 * ((round - 1) * period);
    assert (A - 2) * P == A * P - 2 * P;
    if A - 2 <= round - 1 {
      MulMonotone(A - 2, P, round - 1, 2 * period);
    }
  }

  /** A round the clock has reached is far below `TimeOfRound`'s guard. */
  lemma ReachedRoundBelowGuard(period: int, round: nat)
    requires 1 <= period <= MAX_PERIOD && 1 <= round
    requires (round - 1) * period <= MAX_ELAPSED + MAX_PERIOD
    ensures round < RoundLimit(period) && round < TWO64
  {
    BitsBound(period);
    var b := Log2(period + 1);
    var A, P := Pow2(62 - b), Pow2(b);
    assert A * P == 0x4000_0000_0000_0000 && A <= 0x4000_0000_0000_0000 by {
      Pow2Of62();
      Pow2Add(62 - b, b);
      Pow2Monotone(62 - b, 62);
    }
    assert 2 <= A by { Pow2Monotone(1, 62 - b); }
    assert P <= 0x2_0000_0000 by {
      Pow2Values();
      Pow2Monotone(b, 33);
    }
    assert P <= period + 1 <= 2 * period;
    FarBelow(period, round, A, P);
  }

  lemma Pow2Of62()
    ensures Pow2(62) == 0x4000_0000_0000_0000
  {
    Pow2Values();
    Pow2Add(1, 62);
  }

  /** Main result on the clock: rounds and times form an adjunction. A round from 1 on has come
      exactly when it is at most the current round, for every round number, in range or not. */
  lemma RoundClock(now: int, period: int, genesis: int, r: Round)
    requires ValidSchedule(period, genesis) && InRange(now, genesis) && 1 <= r
    ensures TimeOfRound(period, genesis, r) <= now <==> r <= CurrentRound(now, period, genesis)
  {
    NextRoundExact(now, period, genesis);
    var q := (now - genesis) / period;
    TimeOfRoundExact(period, genesis, r);
    if r <= q + 1 {
      MulMonotone(r - 1, period, q, period);
      ReachedRoundBelowGuard(period, r);
    } else {
      MulMonotone(q + 1, period, r - 1, period);
    }
  }

  /** In range, `NextRound` announces the exact time of the round it names. */
  lemma NextRoundTime(now: int, period: int, genesis: int)
    requires ValidSchedule(period, genesis) && InRange(now, genesis)
    ensures var (n, t) := NextRound(now, period, genesis);
            && n == CurrentRound(now, period, genesis) + 1
            && t == TimeOfRound(period, genesis, n)
            && t == genesis + (n - 1) * period
  {
    NextRoundExact(now, period, genesis);
    var q := (now - genesis) / period;
    assert (q + 1) * period == q * period + period;
    ReachedRoundBelowGuard(period, q + 2);
    TimeOfRoundExact(period, genesis, q + 2);
  }

  /** The current round brackets the clock, and `NextRound` announces the time of its round. */
  lemma CurrentRoundBrackets(now: int, period: int, genesis: int)
    requires ValidSchedule(period, genesis) && InRange(now, genesis)
    ensures var c := CurrentRound(now, period, genesis);
            var (n, t) := NextRound(now, period, genesis);
            && 1 <= c && n == c + 1
            && TimeOfRound(period, genesis, c) <= now < TimeOfRound(period, genesis, n)
            && t == TimeOfRound(period, genesis, n)
  {
    NextRoundTime(now, period, genesis);
    var c := CurrentRound(now, period, genesis);
    assert 1 <= c by { NextRoundExact(now, period, genesis); }
    RoundClock(now, period, genesis, c);
    RoundClock(now, period, genesis, c + 1);
  }

  lemma ScaledGap(a: nat, b: nat, period: nat)
    requires a * period <= b * period < (a + 1) * period
    ensures a == b
  {
    if a < b {
      MulMonotone(a + 1, period, b, period);
    }
  }

  /** `CurrentRound` inverts `TimeOfRound`. */
  lemma CurrentRoundOfTime(period: int, genesis: int, r: Round)
    requires ValidSchedule(period, genesis) && 1 <= r
    requires InRange(TimeOfRound(period, genesis, r), genesis)
    ensures CurrentRound(TimeOfRound(period, genesis, r), period, genesis) == r
  {
    var t := TimeOfRound(period, genesis, r);
    TimeOfRoundExact(period, genesis, r);
    NextRoundExact(t, period, genesis);
    ScaledGap((t - genesis) / period, r - 1, period);
  }

  /** The current round never goes back, also across the genesis time. */
  lemma CurrentRoundMonotone(now: int, later: int, period: int, genesis: int)
    requires ValidSchedule(period, genesis) && now <= later < genesis + MAX_ELAPSED
    ensures CurrentRound(now, period, genesis) <= CurrentRound(later, period, genesis)
  {
    if now >= genesis {
      CurrentRoundBrackets(now, period, genesis);
      RoundClock(later, period, genesis, CurrentRound(now, period, genesis));
    } else if later >= genesis {
      CurrentRoundBrackets(later, period, genesis);
    }
  }
}
