/** How ipc_wait_event charges the time spent in poll to the caller's timer. */
module CTimer {
  /** struct timeval. */
  datatype Time = Time(sec: int, usec: int)

  predicate Normal(t: Time) {
    0 <= t.usec < 1_000_000
  }

  function Micros(t: Time): int {
    t.sec * 1_000_000 + t.usec
  }

  /** C division of integers: toward zero. */
  function TruncDiv(a: int, b: int): int
    requires b > 0
  {
    if a >= 0 then a / b else -((-a) / b)
  }

  type CInt = x: int | -0x8000_0000 <= x < 0x8000_0000

  /** Conversion to int, and int arithmetic with overflow taken to wrap. */
  function Int32(x: int): CInt {
    (x + 0x8000_0000) % 0x1_0000_0000 - 0x8000_0000
  }

  /** The two int variables and their sum. */
  function Elapsed(t1: Time, t2: Time): CInt {
    var secMs := Int32((t2.sec - t1.sec) * 1000);
    var usecMs := Int32(TruncDiv(t2.usec - t1.usec, 1000));
    Int32(secMs + usecMs)
  }

  /** The same sum without a bound on int. */
  function WideElapsed(t1: Time, t2: Time): int {
    (t2.sec - t1.sec) * 1000 + TruncDiv(t2.usec - t1.usec, 1000)
  }

  /** The new value of the caller's timer. */
  function Charge(timer: CInt, elapsed: CInt): CInt {
    if elapsed >= timer then 0 else Int32(timer - elapsed)
  }

  ghost predicate WithinOneMs(elapsed: int, micros: int) {
    -1000 < 1000 * elapsed - micros < 1000
  }

  lemma TruncDivClose(a: int)
    ensures -1000 < 1000 * TruncDiv(a, 1000) - a < 1000
    ensures a >= 0 ==> TruncDiv(a, 1000) >= 0
    ensures a > -1_000_000 ==> TruncDiv(a, 1000) > -1000
  {
  }

  /** Two truncations, one of them toward zero from below, never lose or invent
      a whole millisecond, and never give a negative duration. */
  lemma WideElapsedClose(t1: Time, t2: Time)
    requires Normal(t1) && Normal(t2) && Micros(t1) <= Micros(t2)
    ensures 0 <= WideElapsed(t1, t2)
    ensures WithinOneMs(WideElapsed(t1, t2), Micros(t2) - Micros(t1))
  {
    TruncDivClose(t2.usec - t1.usec);
  }

  /** Which way it rounds: up when the microseconds have wrapped round, down
      otherwise. */
  lemma WideElapsedExact(t1: Time, t2: Time)
    requires Normal(t1) && Normal(t2) && Micros(t1) <= Micros(t2)
    ensures var micros := Micros(t2) - Micros(t1);
            WideElapsed(t1, t2) == if t1.usec <= t2.usec then micros / 1000 else (micros + 999) / 1000
  {
    var sec, usec := t2.sec - t1.sec, t2.usec - t1.usec;
    assert Micros(t2) - Micros(t1) == 1_000_000 * sec + usec;
    if usec >= 0 {
      ThousandsApart(sec * 1000, usec);
    } else {
      ThousandsApart(sec * 1000, usec + 999);
    }
  }

  lemma ThousandsApart(ms: int, usec: int)
    ensures (1000 * ms + usec) / 1000 == ms + usec / 1000
  {
  }

  /** The charge is right to the millisecond exactly while it fits an int, which
      is a little under 25 days. */
  lemma ElapsedClose(t1: Time, t2: Time)
    requires Normal(t1) && Normal(t2) && Micros(t1) <= Micros(t2)
    ensures WithinOneMs(Elapsed(t1, t2), Micros(t2) - Micros(t1)) <==> WideElapsed(t1, t2) < 0x8000_0000
    ensures WideElapsed(t1, t2) < 0x8000_0000 ==> Elapsed(t1, t2) == WideElapsed(t1, t2)
  {
    WideElapsedClose(t1, t2);
    TruncDivClose(t2.usec - t1.usec);
    Int32Sum((t2.sec - t1.sec) * 1000, TruncDiv(t2.usec - t1.usec, 1000));
  }

  lemma Int32Sum(x: int, y: int)
    requires -1000 < y < 1000
    ensures Int32(Int32(x) + Int32(y)) == Int32(x + y)
    ensures 0 <= x + y < 0x8000_0000 ==> Int32(x + y) == x + y
  {
    var q := (x + 0x8000_0000) / 0x1_0000_0000;
    assert Int32(x) == x - q * 0x1_0000_0000;
    assert Int32(y) == y;
    Mod32(x + y + 0x8000_0000, q);
  }

  lemma Mod32(a: int, q: int)
    ensures (a - q * 0x1_0000_0000) % 0x1_0000_0000 == a % 0x1_0000_0000
  {
  }

  /** The timer shrinks and stays non-negative exactly when neither it nor the
      charge, which may have wrapped, is negative: a caller's -1 (wait for ever)
      becomes 0 after one wait, and a wait of 25 days can lengthen a timer. */
  lemma TimerShrinks(timer: CInt, elapsed: CInt)
    ensures 0 <= Charge(timer, elapsed) <= timer <==> timer >= 0 && elapsed >= 0
    ensures timer < 0 ==> (Charge(timer, elapsed) == 0 <==> elapsed >= timer)
  {
  }

  /** A timer runs out exactly when the charge reaches it; until then it loses
      the charge. */
  lemma ChargeExact(timer: CInt, elapsed: CInt)
    requires timer >= 0 && elapsed >= 0
    ensures Charge(timer, elapsed) == 0 <==> elapsed >= timer
    ensures elapsed < timer ==> Charge(timer, elapsed) == timer - elapsed
  {
  }

  // ----- several waits -----

  datatype Interval = Interval(before: Time, after: Time)

  /** The clock does not go back. */
  predicate Measured(w: Interval) {
    && Normal(w.before) && Normal(w.after)
    && Micros(w.before) <= Micros(w.after)
  }

  function After(timer: CInt, waits: seq<Interval>): CInt
    decreases |waits|
  {
    if waits == [] then timer
    else After(Charge(timer, Elapsed(waits[0].before, waits[0].after)), waits[1..])
  }

  /** No wait exhausts the timer. */
  predicate Unexpired(timer: CInt, waits: seq<Interval>)
    decreases |waits|
  {
    waits == [] ||
    (Elapsed(waits[0].before, waits[0].after) < timer
     && Unexpired(Charge(timer, Elapsed(waits[0].before, waits[0].after)), waits[1..]))
  }

  function RealMicros(waits: seq<Interval>): int {
    if waits == [] then 0
    else Micros(waits[0].after) - Micros(waits[0].before) + RealMicros(waits[1..])
  }

  function WideTotal(waits: seq<Interval>): int {
    if waits == [] then 0
    else WideElapsed(waits[0].before, waits[0].after) + WideTotal(waits[1..])
  }

  /** The bound one expects of a sum of k charges. */
  ghost predicate WithinOneMsEach(charged: int, waits: seq<Interval>) {
    -1000 * |waits| < 1000 * charged - RealMicros(waits) < 1000 * |waits|
  }

  lemma {:induction false} WideTotalClose(waits: seq<Interval>)
    requires waits != [] && forall k :: 0 <= k < |waits| ==> Measured(waits[k])
    ensures WithinOneMsEach(WideTotal(waits), waits) && WideTotal(waits) >= 0
    decreases |waits|
  {
    WideElapsedClose(waits[0].before, waits[0].after);
    if |waits| == 1 {
    } else {
      WideTotalClose(waits[1..]);
    }
  }

  /** Int32 removes a multiple of 2^32. */
  lemma Wraps(x: int) returns (q: int)
    ensures x == Int32(x) + q * 0x1_0000_0000
  {
    q := (x + 0x8000_0000) / 0x1_0000_0000;
  }

  lemma {:induction false} ChargedModulo(timer: CInt, waits: seq<Interval>) returns (q: int)
    requires Unexpired(timer, waits) && forall k :: 0 <= k < |waits| ==> Measured(waits[k])
    ensures WideTotal(waits) == timer - After(timer, waits) + q * 0x1_0000_0000
    decreases |waits|
  {
    if waits == [] {
      return 0;
    }
    var elapsed := Elapsed(waits[0].before, waits[0].after);
    var q1 := ElapsedModulo(waits[0]);
    var q2 := Wraps(timer - elapsed);
    var q3 := ChargedModulo(Charge(timer, elapsed), waits[1..]);
    q := q1 - q2 + q3;
  }

  lemma ElapsedModulo(w: Interval) returns (q: int)
    requires Measured(w)
    ensures WideElapsed(w.before, w.after) == Elapsed(w.before, w.after) + q * 0x1_0000_0000
  {
    var sec, usec := w.after.sec - w.before.sec, w.after.usec - w.before.usec;
    TruncDivClose(usec);
    Int32Sum(sec * 1000, TruncDiv(usec, 1000));
    q := Wraps(WideElapsed(w.before, w.after));
  }

  /** Over k waits that do not exhaust the timer, what it has lost differs from
      the real time by less than k milliseconds, if and only if the milliseconds
      of the waits, taken together, do not bring it below the smallest int. Any
      one of them may have wrapped. */
  lemma DriftBound(timer: CInt, waits: seq<Interval>)
    requires 0 < |waits| <= 0x8000_0000 && Unexpired(timer, waits)
    requires forall k :: 0 <= k < |waits| ==> Measured(waits[k])
    ensures WithinOneMsEach(timer - After(timer, waits), waits) <==> WideTotal(waits) <= timer + 0x8000_0000
  {
    var q := ChargedModulo(timer, waits);
    WideTotalClose(waits);
    WrappedIsFar(timer, After(timer, waits), WideTotal(waits), q);
  }

  lemma WrappedIsFar(timer: CInt, after: CInt, wide: nat, q: int)
    requires wide == timer - after + q * 0x1_0000_0000
    ensures wide <= timer + 0x8000_0000 ==> timer - after == wide
    ensures wide > timer + 0x8000_0000 ==> timer - after <= wide - 0x1_0000_0000
  {
  }

  /** Over waits that each fit an int, the timer has run out exactly when their
      milliseconds have reached it, and otherwise it has lost just them. */
  lemma {:induction false} TimerRunsOut(timer: CInt, waits: seq<Interval>)
    requires timer >= 0
    requires forall k :: 0 <= k < |waits| ==>
               Measured(waits[k]) && WideElapsed(waits[k].before, waits[k].after) < 0x8000_0000
    ensures WideTotal(waits) >= 0
    ensures After(timer, waits) == 0 <==> WideTotal(waits) >= timer
    ensures WideTotal(waits) < timer ==> After(timer, waits) == timer - WideTotal(waits)
    decreases |waits|
  {
    if waits == [] {
    } else {
      var w := waits[0];
      WideElapsedClose(w.before, w.after);
      ElapsedClose(w.before, w.after);
      ChargeExact(timer, Elapsed(w.before, w.after));
      TimerRunsOut(Charge(timer, Elapsed(w.before, w.after)), waits[1..]);
    }
  }
}
