/** Whole runs of ticks, absorbs and rate changes on one book: how much interest it credits,
    what an extra tick costs, and how capital spreads by weight. */
module BookRuns {
  import opened Words
  import opened Arithmetic
  import opened Pools
  import opened Books

  datatype Op =
    | TickAt(now: i64)
    | AbsorbAt(inflow: u64, outflow: u64, now: i64)
    | SetAprAt(index: u8, aprBps: u32, now: i64)

  function Apply(b: Book, op: Op): Result<Book> {
    match op
    case TickAt(now) => Tick(b, now)
    case AbsorbAt(inflow, outflow, now) => Absorb(b, inflow, outflow, now)
    case SetAprAt(index, aprBps, now) => SetApr(b, index, aprBps, now)
  }

  /** Seconds of yield an operation folds in. */
  function Seconds(b: Book, op: Op): nat { Monus(op.now as int - I64_MIN, b.lastTs as int - I64_MIN) }

  /** The operation succeeds, and neither the cast nor the saturating adds lose anything. */
  predicate Clean(b: Book, op: Op) {
    && Apply(b, op).Ok?
    && (forall i :: 0 <= i < POOL_COUNT ==>
         b.pools[i].accrued + Pending(b.pools[i], Seconds(b, op)) <= U64_MAX)
    && (op.AbsorbAt? ==> Principals(b.pools) + op.inflow <= U64_MAX)
  }

  predicate CleanRun(b: Book, ops: seq<Op>)
    decreases |ops|
  {
    |ops| == 0 || (Clean(b, ops[0]) && CleanRun(Apply(b, ops[0]).value, ops[1..]))
  }

  function After(b: Book, ops: seq<Op>): Book
    requires CleanRun(b, ops)
    decreases |ops|
  {
    if |ops| == 0 then b else After(Apply(b, ops[0]).value, ops[1..])
  }

  /** What one clean operation does to pool `i`: yield at the old rate and principal, then the rest. */
  lemma OnePool(b: Book, op: Op, i: nat)
    requires Clean(b, op) && i < POOL_COUNT
    ensures var p, t := b.pools[i], Apply(b, op).value.pools[i];
      && t.accrued == p.accrued + Pending(p, Seconds(b, op))
      && t.weightBps == p.weightBps
      && (op.TickAt? ==> t.principal == p.principal && t.aprBps == p.aprBps)
      && (op.SetAprAt? ==> t.principal == p.principal && t.aprBps == if i == op.index then op.aprBps else p.aprBps)
      && (op.AbsorbAt? ==> t.aprBps == p.aprBps)
    ensures Apply(b, op).value.lastTs == op.now
  {
    AccruedPool(b, op, i);
    if op.AbsorbAt? {
      AccruedToKeepsPrincipal(b, op.now);
    }
  }

  lemma AccruedPool(b: Book, op: Op, i: nat)
    requires Clean(b, op) && i < POOL_COUNT
    ensures AccruedTo(b, op.now)[i] == b.pools[i].(accrued := b.pools[i].accrued + Pending(b.pools[i], Seconds(b, op)))
  {
    hide Apply, Pending;
    if op.now <= b.lastTs {
      NoTimeNoYield(b.pools[i]);
    }
  }

  lemma NoTimeNoYield(p: Pool)
    ensures Pending(p, 0) == 0
  {
  }

  // ---------------------------------------------------------------- interest

  /** Simple interest of pool `i` over the run, exact, in units of 1/YIELD_SCALE: for each stretch
      between two operations, the principal and rate in force times the seconds that passed. */
  function ExactInterest(b: Book, ops: seq<Op>, i: nat): nat
    requires CleanRun(b, ops) && i < POOL_COUNT
    decreases |ops|
  {
    if |ops| == 0 then 0
    else YieldNumerator(b.pools[i], Seconds(b, ops[0])) + ExactInterest(Apply(b, ops[0]).value, ops[1..], i)
  }

  /** Operations of the run on which the clock moved forward. */
  function Accruals(b: Book, ops: seq<Op>): nat
    requires CleanRun(b, ops)
    decreases |ops|
  {
    if |ops| == 0 then 0
    else (if Seconds(b, ops[0]) > 0 then 1 else 0) + Accruals(Apply(b, ops[0]).value, ops[1..])
  }

  /** `credited` units are at most `exact` 1/YIELD_SCALE-ths, and less than `k` units short of them. */
  predicate RoundedDown(credited: nat, exact: nat, k: nat) {
    credited * YIELD_SCALE <= exact <= credited * YIELD_SCALE + k * (YIELD_SCALE - 1)
  }

  /** Over any run, a pool is credited at most its exact simple interest, and less than one unit
      short of it for every accrual. */
  lemma {:induction false} InterestIsSimpleInterest(b: Book, ops: seq<Op>, i: nat)
    requires CleanRun(b, ops) && i < POOL_COUNT
    ensures After(b, ops).pools[i].accrued >= b.pools[i].accrued
    ensures RoundedDown(After(b, ops).pools[i].accrued - b.pools[i].accrued, ExactInterest(b, ops, i), Accruals(b, ops))
    decreases |ops|
  {
    hide RoundedDown, Apply, Pending, YieldNumerator;
    if |ops| == 0 {
      NothingRounded();
    } else {
      var next, dt := Apply(b, ops[0]).value, Seconds(b, ops[0]);
      OnePool(b, ops[0], i);
      InterestIsSimpleInterest(next, ops[1..], i);
      PendingRoundsDown(b.pools[i], dt);
      RoundingAdds(Pending(b.pools[i], dt), YieldNumerator(b.pools[i], dt), if dt > 0 then 1 else 0,
                   After(next, ops[1..]).pools[i].accrued - next.pools[i].accrued,
                   ExactInterest(next, ops[1..], i), Accruals(next, ops[1..]));
    }
  }

  lemma NothingRounded()
    ensures RoundedDown(0, 0, 0)
  {
  }

  lemma PendingRoundsDown(p: Pool, dt: nat)
    ensures RoundedDown(Pending(p, dt), YieldNumerator(p, dt), if dt > 0 then 1 else 0)
  {
    var n := YieldNumerator(p, dt);
    assert n == n / YIELD_SCALE * YIELD_SCALE + n % YIELD_SCALE;
  }

  lemma RoundingAdds(c: nat, exact: nat, k: nat, d: nat, more: nat, n: nat)
    requires RoundedDown(c, exact, k) && RoundedDown(d, more, n)
    ensures RoundedDown(c + d, exact + more, k + n)
  {
    Distribute(c, d, YIELD_SCALE);
    Distribute(k, n, YIELD_SCALE - 1);
  }

  /** Seconds of yield the whole run folds in. */
  function SecondsCredited(b: Book, ops: seq<Op>): nat
    requires CleanRun(b, ops)
    decreases |ops|
  {
    if |ops| == 0 then 0 else Seconds(b, ops[0]) + SecondsCredited(Apply(b, ops[0]).value, ops[1..])
  }

  /** The clock never runs backwards during the run. */
  predicate ClockForward(b: Book, ops: seq<Op>)
    requires CleanRun(b, ops)
    decreases |ops|
  {
    |ops| == 0 || (b.lastTs <= ops[0].now && ClockForward(Apply(b, ops[0]).value, ops[1..]))
  }

  /** A run credits exactly the time that passed if and only if its clock never goes back:
      `last_ts` is rewritten even when nothing accrued, so a clock that steps back is paid twice. */
  lemma {:induction false} CreditsElapsedTimeIff(b: Book, ops: seq<Op>)
    requires CleanRun(b, ops)
    ensures SecondsCredited(b, ops) >= After(b, ops).lastTs - b.lastTs
    ensures SecondsCredited(b, ops) == After(b, ops).lastTs - b.lastTs <==> ClockForward(b, ops)
    decreases |ops|
  {
    if |ops| > 0 {
      OnePool(b, ops[0], 0);
      CreditsElapsedTimeIff(Apply(b, ops[0]).value, ops[1..]);
    }
  }

  /** A book whose one funded pool earns exactly one unit a second. */
  function UnitBook(accrued: nat, now: nat, ticks: nat): Book
    requires accrued <= 1000 && now <= 1000 && ticks <= 1000
  {
    Book([Pool(10_000, 1, SECONDS_PER_YEAR, accrued), EMPTY_POOL, EMPTY_POOL, EMPTY_POOL],
         SECONDS_PER_YEAR + accrued, SECONDS_PER_YEAR, 0, now, ticks)
  }

  lemma UnitBookTicks(accrued: nat, last: nat, ticks: nat, now: nat)
    requires accrued < 500 && last < 500 && ticks < 500 && now < 500
    ensures var b, earned := UnitBook(accrued, last, ticks), if now > last then now - last else 0;
      && Clean(b, TickAt(now))
      && Apply(b, TickAt(now)).value == UnitBook(accrued + earned, now, ticks + 1)
  {
    hide Pending, YieldNumerator;
    var b, dt := UnitBook(accrued, last, ticks), if now > last then now - last else 0;
    UnitPoolEarns(accrued, dt);
    assert Seconds(b, TickAt(now)) == dt;
    if now > last {
      assert AccruedPools(b.pools, dt) == UnitBook(accrued + dt, now, ticks + 1).pools;
    }
  }

  lemma UnitPoolEarns(accrued: nat, dt: nat)
    requires accrued < 500 && dt < 500
    ensures var p := Pool(10_000, 1, SECONDS_PER_YEAR, accrued);
      Pending(p, dt) == dt && YieldNumerator(p, dt) <= U128_MAX
    ensures Pending(EMPTY_POOL, dt) == 0 && YieldNumerator(EMPTY_POOL, dt) == 0
  {
  }

  /** A pool earning one unit a second, ticked at 100 seconds, then at 50, then at 100 again, is
      credited 150 seconds of yield for 100 that passed. */
  lemma ClockSteppingBackPaysTwice()
    ensures var b, ops := UnitBook(0, 0, 0), [TickAt(100), TickAt(50), TickAt(100)];
      && Balanced(b)
      && CleanRun(b, ops) && !ClockForward(b, ops)
      && After(b, ops) == UnitBook(150, 100, 3)
  {
    hide Apply, Clean;
    var ops := [TickAt(100), TickAt(50), TickAt(100)];
    UnitBookTicks(0, 0, 0, 100);
    UnitBookTicks(100, 100, 1, 50);
    UnitBookTicks(100, 50, 2, 100);
    assert ops[1..] == [TickAt(50), TickAt(100)] && ops[1..][1..] == [TickAt(100)];
    assert CleanRun(UnitBook(150, 100, 3), []) && CleanRun(UnitBook(100, 50, 2), ops[1..][1..]);
    assert CleanRun(UnitBook(100, 100, 1), ops[1..]);
  }

  predicate OnlyTicks(ops: seq<Op>) { forall k :: 0 <= k < |ops| ==> ops[k].TickAt? }

  /** With nothing but ticks, interest is principal times rate times the seconds credited, however
      the seconds are cut up. */
  lemma {:induction false} TicksCreditTime(b: Book, ops: seq<Op>, i: nat)
    requires CleanRun(b, ops) && OnlyTicks(ops) && i < POOL_COUNT
    ensures ExactInterest(b, ops, i) == YieldNumerator(b.pools[i], SecondsCredited(b, ops))
    decreases |ops|
  {
    hide YieldNumerator, Apply;
    if |ops| == 0 {
      SameYieldOverNothing(b.pools[i]);
    } else {
      OnePool(b, ops[0], i);
      var next := Apply(b, ops[0]).value;
      TicksCreditTime(next, ops[1..], i);
      YieldAdds(b.pools[i], Seconds(b, ops[0]), SecondsCredited(next, ops[1..]));
      SameYield(next.pools[i], b.pools[i], SecondsCredited(next, ops[1..]));
    }
  }

  lemma SameYieldOverNothing(p: Pool)
    ensures YieldNumerator(p, 0) == 0
  {
  }

  lemma YieldAdds(p: Pool, d: nat, e: nat)
    ensures YieldNumerator(p, d + e) == YieldNumerator(p, d) + YieldNumerator(p, e)
  {
    Distribute(d, e, p.principal * p.aprBps);
  }

  /** Missed ticks are caught up by the next one, and a book copied from its last commit by its first:
      one tick to `t` credits each pool what any run of ticks up to `t` does, plus at most the
      rounding those ticks lost. */
  lemma MissedTicksAreCaughtUp(b: Book, ops: seq<Op>, i: nat)
    requires |ops| > 0 && CleanRun(b, ops) && OnlyTicks(ops) && ClockForward(b, ops) && i < POOL_COUNT
    requires Clean(b, TickAt(After(b, ops).lastTs))
    ensures var run, once := After(b, ops).pools[i].accrued, Tick(b, After(b, ops).lastTs).value.pools[i].accrued;
      && run <= once
      && (once < run + Accruals(b, ops) || (Accruals(b, ops) == 0 && once == run))
  {
    hide RoundedDown, Pending, YieldNumerator, Tick;
    var t := After(b, ops).lastTs;
    CreditsElapsedTimeIff(b, ops);
    TicksCreditTime(b, ops, i);
    InterestIsSimpleInterest(b, ops, i);
    TickIsOk(b, t);
    TickedPool(b, t, i);
    PendingRoundsDown(b.pools[i], t - b.lastTs);
    OneFloorAgainstMany(Pending(b.pools[i], t - b.lastTs), After(b, ops).pools[i].accrued - b.pools[i].accrued,
                        YieldNumerator(b.pools[i], t - b.lastTs), Accruals(b, ops));
  }

  lemma TickIsOk(b: Book, t: i64)
    requires Clean(b, TickAt(t))
    ensures Tick(b, t).Ok?
  {
  }

  lemma OneFloorAgainstMany(once: nat, many: nat, exact: nat, k: nat)
    requires RoundedDown(once, exact, 0) || RoundedDown(once, exact, 1)
    requires RoundedDown(many, exact, k)
    ensures many <= once
    ensures once < many + k || (k == 0 && once == many)
  {
    if many > once {
      MulMono(once + 1, many, YIELD_SCALE);
    } else if once >= many + k {
      MulMono(many + k, once, YIELD_SCALE);
      Distribute(many, k, YIELD_SCALE);
    }
  }

  // --------------------------------------------------------- an extra tick

  /** `x` is `y` but for at most one unit less accrued yield in each pool. */
  predicate OneBelow(x: Book, y: Book) {
    && x.lastTs == y.lastTs && x.markedIn == y.markedIn && x.markedOut == y.markedOut
    && (forall i :: 0 <= i < POOL_COUNT ==>
         && y.pools[i] == x.pools[i].(accrued := y.pools[i].accrued)
         && x.pools[i].accrued <= y.pools[i].accrued <= x.pools[i].accrued + 1)
  }

  lemma PendingSplits(p: Pool, d: nat, e: nat)
    ensures Pending(p, d) + Pending(p, e) <= Pending(p, d + e) <= Pending(p, d) + Pending(p, e) + 1
  {
    YieldAdds(p, d, e);
    QuotientsAdd(YieldNumerator(p, d), YieldNumerator(p, e));
  }

  lemma QuotientsAdd(m: nat, n: nat)
    ensures m / YIELD_SCALE + n / YIELD_SCALE <= (m + n) / YIELD_SCALE <= m / YIELD_SCALE + n / YIELD_SCALE + 1
  {
  }

  lemma YieldMonotone(p: Pool, d: nat, e: nat)
    requires d <= e
    ensures YieldNumerator(p, d) <= YieldNumerator(p, e)
  {
    YieldAdds(p, d, e - d);
  }

  predicate SameCapital(x: PoolSet, y: PoolSet) {
    forall i :: 0 <= i < POOL_COUNT ==> y[i] == x[i].(accrued := y[i].accrued)
  }

  lemma SamePrincipalMoved(x: PoolSet, y: PoolSet, inflow: u64, outflow: u64, i: nat)
    requires SameCapital(x, y) && i < POOL_COUNT
    ensures var s, t := Moved(x, inflow, outflow)[i], Moved(y, inflow, outflow)[i];
      t == s.(accrued := t.accrued)
  {
    SameParts(x, y, inflow);
    var s, t := if inflow > 0 then Funded(x, inflow) else x, if inflow > 0 then Funded(y, inflow) else y;
    assert SameCapital(s, t);
    SameTaken(s, t, outflow, i);
  }

  lemma {:induction false} SameBefore(x: PoolSet, y: PoolSet, i: nat)
    requires SameCapital(x, y) && i <= POOL_COUNT
    ensures Before(x, i) == Before(y, i)
  {
    if i > 0 {
      SameBefore(x, y, i - 1);
      assert y[i - 1].principal == x[i - 1].principal;
    }
  }

  lemma SameTaken(x: PoolSet, y: PoolSet, amount: nat, i: nat)
    requires SameCapital(x, y) && i < POOL_COUNT
    ensures Defunded(y, amount)[i] == Defunded(x, amount)[i].(accrued := y[i].accrued)
  {
    SameBefore(x, y, i);
    assert Taken(x, amount, i) == Taken(y, amount, i);
  }

  lemma SameParts(x: PoolSet, y: PoolSet, amount: nat)
    requires SameCapital(x, y)
    ensures forall i :: 0 <= i < POOL_COUNT ==> Part(x, amount, i) == Part(y, amount, i)
  {
    assert TotalWeight(x) == TotalWeight(y);
  }

  lemma SameYield(p: Pool, q: Pool, dt: nat)
    requires p.principal == q.principal && p.aprBps == q.aprBps
    ensures YieldNumerator(p, dt) == YieldNumerator(q, dt) && Pending(p, dt) == Pending(q, dt)
  {
  }

  /** Books that differ only in accrued yield go through an operation alike. */
  lemma SamePrincipalSameStep(x: Book, y: Book, op: Op)
    requires OneBelow(x, y) && Clean(y, op)
    ensures Clean(x, op) && OneBelow(Apply(x, op).value, Apply(y, op).value)
  {
    hide Pending, YieldNumerator, MarkedValue, AccruedPools, Moved;
    forall i | 0 <= i < POOL_COUNT
      ensures Pending(x.pools[i], Seconds(x, op)) == Pending(y.pools[i], Seconds(y, op))
      ensures YieldNumerator(x.pools[i], Seconds(x, op)) == YieldNumerator(y.pools[i], Seconds(y, op))
    {
      SameYield(x.pools[i], y.pools[i], Seconds(y, op));
    }
    assert Principals(x.pools) == Principals(y.pools);
    assert AccrualTraps(x, op.now) <==> AccrualTraps(y, op.now);
    assert Clean(x, op);
    forall i | 0 <= i < POOL_COUNT
      ensures var s, t := Apply(x, op).value.pools[i], Apply(y, op).value.pools[i];
        t == s.(accrued := t.accrued) && s.accrued <= t.accrued <= s.accrued + 1
    {
      SameCapitalAfter(x, y, op, i);
    }
  }

  lemma {:induction false} OneBelowStays(x: Book, y: Book, ops: seq<Op>)
    requires OneBelow(x, y) && CleanRun(y, ops)
    ensures CleanRun(x, ops) && OneBelow(After(x, ops), After(y, ops))
    decreases |ops|
  {
    if |ops| > 0 {
      SamePrincipalSameStep(x, y, ops[0]);
      OneBelowStays(Apply(x, ops[0]).value, Apply(y, ops[0]).value, ops[1..]);
    }
  }

  /** Cutting a stretch of time in two costs a pool at most one unit of yield. */
  lemma CutInTwo(p: Pool, d: nat, e: nat)
    ensures YieldNumerator(p, d) <= YieldNumerator(p, d + e)
    ensures YieldNumerator(p, e) <= YieldNumerator(p, d + e)
    ensures Pending(p, d) + Pending(p, e) <= Pending(p, d + e) <= Pending(p, d) + Pending(p, e) + 1
  {
    YieldMonotone(p, d, d + e);
    YieldMonotone(p, e, d + e);
    PendingSplits(p, d, e);
  }

  lemma ShorterDoesNotTrap(b: Book, c: Book, early: i64, late: i64)
    requires !AccrualTraps(b, late) && b.lastTs <= late
    requires early - c.lastTs <= late - b.lastTs
    requires forall i :: 0 <= i < POOL_COUNT ==>
      c.pools[i].principal == b.pools[i].principal && c.pools[i].aprBps == b.pools[i].aprBps
    ensures !AccrualTraps(c, early)
  {
    if c.lastTs < early {
      forall i | 0 <= i < POOL_COUNT
        ensures YieldNumerator(c.pools[i], early - c.lastTs) <= U128_MAX
      {
        YieldMonotone(b.pools[i], early - c.lastTs, late - b.lastTs);
        assert YieldNumerator(c.pools[i], early - c.lastTs) == YieldNumerator(b.pools[i], early - c.lastTs);
      }
    }
  }

  lemma TickFits(b: Book, t: i64, op: Op)
    requires Clean(b, op) && b.lastTs <= t <= op.now
    ensures Clean(b, TickAt(t))
  {
    ShorterDoesNotTrap(b, b, t, op.now);
    forall i | 0 <= i < POOL_COUNT
      ensures b.pools[i].accrued + Pending(b.pools[i], Seconds(b, TickAt(t))) <= U64_MAX
    {
      TickFitsPool(b.pools[i], t - b.lastTs, op.now - t);
      assert b.pools[i].accrued + Pending(b.pools[i], Seconds(b, op)) <= U64_MAX;
    }
  }

  lemma TickFitsPool(p: Pool, d: nat, e: nat)
    ensures Pending(p, d) <= Pending(p, d + e)
  {
    CutInTwo(p, d, e);
  }

  lemma TickedPool(b: Book, t: i64, i: nat)
    requires Clean(b, TickAt(t)) && b.lastTs <= t && i < POOL_COUNT
    ensures Tick(b, t).value.pools[i] == b.pools[i].(accrued := b.pools[i].accrued + Pending(b.pools[i], t - b.lastTs))
  {
    OnePool(b, TickAt(t), i);
  }

  lemma OpFitsPool(b: Book, t: i64, op: Op, i: nat)
    requires Clean(b, op) && b.lastTs <= t <= op.now && Clean(b, TickAt(t)) && i < POOL_COUNT
    ensures var p := Tick(b, t).value.pools[i];
      && p.accrued + Pending(p, op.now - t) <= U64_MAX
      && p.principal == b.pools[i].principal && p.aprBps == b.pools[i].aprBps
  {
    hide Pending, YieldNumerator, AccruedPools, MarkedValue;
    TickedPool(b, t, i);
    CutInTwo(b.pools[i], t - b.lastTs, op.now - t);
    SameYield(Tick(b, t).value.pools[i], b.pools[i], op.now - t);
  }

  lemma OpFitsAfterTick(b: Book, t: i64, op: Op)
    requires Clean(b, op) && b.lastTs <= t <= op.now && Clean(b, TickAt(t))
    ensures Clean(Tick(b, t).value, op)
  {
    hide Pending, YieldNumerator, MarkedValue, AccruedPools, Moved;
    var mid := Tick(b, t).value;
    forall i | 0 <= i < POOL_COUNT
      ensures mid.pools[i].accrued + Pending(mid.pools[i], Seconds(mid, op)) <= U64_MAX
      ensures mid.pools[i].principal == b.pools[i].principal && mid.pools[i].aprBps == b.pools[i].aprBps
    {
      OpFitsPool(b, t, op, i);
    }
    ShorterDoesNotTrap(b, mid, op.now, op.now);
  }

  /** A tick slipped in before an operation: the run still goes through, and each pool ends the
      operation with the same capital and at most one unit less yield. */
  lemma TickBefore(b: Book, t: i64, op: Op)
    requires Clean(b, op) && b.lastTs <= t <= op.now
    ensures Clean(b, TickAt(t)) && Clean(Tick(b, t).value, op)
    ensures OneBelow(Apply(Tick(b, t).value, op).value, Apply(b, op).value)
  {
    TickFits(b, t, op);
    OpFitsAfterTick(b, t, op);
    var mid := Tick(b, t).value;
    forall i | 0 <= i < POOL_COUNT
      ensures var s, u := Apply(mid, op).value.pools[i], Apply(b, op).value.pools[i];
        u == s.(accrued := u.accrued) && s.accrued <= u.accrued <= s.accrued + 1
    {
      TickedThen(b, t, op, i);
    }
  }

  lemma TickedThen(b: Book, t: i64, op: Op, i: nat)
    requires Clean(b, op) && b.lastTs <= t <= op.now && Clean(b, TickAt(t)) && Clean(Tick(b, t).value, op)
    requires i < POOL_COUNT
    ensures Apply(Tick(b, t).value, op).Ok? && Apply(b, op).Ok?
    ensures var s, u := Apply(Tick(b, t).value, op).value.pools[i], Apply(b, op).value.pools[i];
      u == s.(accrued := u.accrued) && s.accrued <= u.accrued <= s.accrued + 1
  {
    hide Pending, YieldNumerator, Tick, Apply, Clean;
    TickedBook(b, t);
    SameCapitalAfter(Tick(b, t).value, b, op, i);
    CutPool(b, t, op, i);
  }

  lemma TickedBook(b: Book, t: i64)
    requires Clean(b, TickAt(t)) && b.lastTs <= t
    ensures Tick(b, t).Ok? && Tick(b, t).value.lastTs == t && SameCapital(Tick(b, t).value.pools, b.pools)
  {
    forall j | 0 <= j < POOL_COUNT
      ensures b.pools[j] == Tick(b, t).value.pools[j].(accrued := b.pools[j].accrued)
    {
      TickedPool(b, t, j);
    }
  }

  lemma CutPool(b: Book, t: i64, op: Op, i: nat)
    requires Clean(b, op) && b.lastTs <= t <= op.now && Clean(b, TickAt(t)) && i < POOL_COUNT
    ensures var p := Tick(b, t).value.pools[i];
      p.accrued + Pending(p, op.now - t) <= b.pools[i].accrued + Pending(b.pools[i], op.now - b.lastTs)
        <= p.accrued + Pending(p, op.now - t) + 1
  {
    hide Pending, YieldNumerator, AccruedPools, MarkedValue;
    TickedPool(b, t, i);
    CutInTwo(b.pools[i], t - b.lastTs, op.now - t);
    SameYield(Tick(b, t).value.pools[i], b.pools[i], op.now - t);
  }

  /** Two books with the same capital keep it through a clean operation, and earn by their own seconds. */
  lemma SameCapitalAfter(x: Book, y: Book, op: Op, i: nat)
    requires SameCapital(x.pools, y.pools) && Clean(x, op) && Clean(y, op) && i < POOL_COUNT
    ensures Apply(x, op).Ok? && Apply(y, op).Ok?
    ensures var s, t := Apply(x, op).value.pools[i], Apply(y, op).value.pools[i];
      && t == s.(accrued := t.accrued)
      && s.accrued == x.pools[i].accrued + Pending(x.pools[i], Seconds(x, op))
      && t.accrued == y.pools[i].accrued + Pending(y.pools[i], Seconds(y, op))
  {
    OnePool(x, op, i);
    OnePool(y, op, i);
    if op.AbsorbAt? {
      AccruedPoolsSameCapital(x, y, op);
      SamePrincipalMoved(AccruedTo(x, op.now), AccruedTo(y, op.now), op.inflow, op.outflow, i);
    }
  }

  lemma AccruedPoolsSameCapital(x: Book, y: Book, op: Op)
    requires Clean(x, op) && Clean(y, op) && SameCapital(x.pools, y.pools)
    ensures SameCapital(AccruedTo(x, op.now), AccruedTo(y, op.now))
  {
    forall i | 0 <= i < POOL_COUNT
      ensures AccruedTo(y, op.now)[i] == AccruedTo(x, op.now)[i].(accrued := AccruedTo(y, op.now)[i].accrued)
    {
      AccruedPool(x, op, i);
      AccruedPool(y, op, i);
    }
  }

  lemma {:induction false} RunsCompose(b: Book, first: seq<Op>, rest: seq<Op>)
    ensures CleanRun(b, first + rest) <==> CleanRun(b, first) && CleanRun(After(b, first), rest)
    ensures CleanRun(b, first + rest) ==> After(b, first + rest) == After(After(b, first), rest)
    decreases |first|
  {
    if |first| == 0 {
      assert first + rest == rest;
    } else {
      assert (first + rest)[1..] == first[1..] + rest;
      if Clean(b, first[0]) {
        RunsCompose(Apply(b, first[0]).value, first[1..], rest);
      }
    }
  }

  /** One more tick anywhere in a run, at a time between its neighbours, changes nothing but the
      rounding: every pool ends with the same capital and zero or one unit less yield. */
  lemma ExtraTickCostsAtMostOneUnit(b: Book, before: seq<Op>, t: i64, op: Op, rest: seq<Op>)
    requires CleanRun(b, before + [op] + rest) && CleanRun(b, before)
    requires After(b, before).lastTs <= t <= op.now
    ensures CleanRun(b, before + [TickAt(t), op] + rest)
    ensures OneBelow(After(b, before + [TickAt(t), op] + rest), After(b, before + [op] + rest))
  {
    var mid := After(b, before);
    var plain, ticked := [op] + rest, [TickAt(t), op] + rest;
    assert before + [op] + rest == before + plain;
    assert before + [TickAt(t), op] + rest == before + ticked;
    RunsCompose(b, before, plain);
    RunsCompose(b, before, ticked);
    assert plain[1..] == rest && ticked[1..][1..] == rest && ticked[1..][0] == op;
    TickBefore(mid, t, op);
    OneBelowStays(Apply(Tick(mid, t).value, op).value, Apply(mid, op).value, rest);
  }

  // --------------------------------------------------------- spread by weight

  predicate InflowOnly(ops: seq<Op>) {
    forall k :: 0 <= k < |ops| && ops[k].AbsorbAt? ==> ops[k].outflow == 0
  }

  function Inflow(ops: seq<Op>): nat {
    if |ops| == 0 then 0 else (if ops[0].AbsorbAt? then ops[0].inflow else 0) + Inflow(ops[1..])
  }

  /** Absorbs in the run that placed something. */
  function Absorbs(ops: seq<Op>): nat {
    if |ops| == 0 then 0 else (if ops[0].AbsorbAt? && ops[0].inflow > 0 then 1 else 0) + Absorbs(ops[1..])
  }

  lemma PartBounds(ps: PoolSet, amount: nat, i: nat)
    requires TotalWeight(ps) > 0 && i < POOL_COUNT
    ensures var w, part := TotalWeight(ps), Part(ps, amount, i);
      && (i < 3 ==> part * w <= amount * ps[i].weightBps <= part * w + (w - 1))
      && (i == 3 ==> amount * ps[3].weightBps <= part * w <= amount * ps[3].weightBps + 3 * (w - 1))
  {
    var w := TotalWeight(ps);
    var q0, q1, q2 := Share(ps, amount, 0), Share(ps, amount, 1), Share(ps, amount, 2);
    MulDivBounds(amount, ps[0].weightBps, w);
    MulDivBounds(amount, ps[1].weightBps, w);
    MulDivBounds(amount, ps[2].weightBps, w);
    if i == 3 {
      Distribute(amount, q0 + q1 + q2, w);
      Distribute(q0, q1, w);
      Distribute(q0 + q1, q2, w);
      Distribute(ps[0].weightBps, ps[1].weightBps, amount);
      Distribute(ps[0].weightBps + ps[1].weightBps, ps[2].weightBps, amount);
      Distribute(ps[0].weightBps + ps[1].weightBps + ps[2].weightBps, ps[3].weightBps, amount);
    }
  }

  /** Where a clean inflow goes, pool by pool. */
  lemma InflowParts(b: Book, op: Op, i: nat)
    requires Clean(b, op) && i < POOL_COUNT && (op.AbsorbAt? ==> op.outflow == 0)
    ensures var inflow := if op.AbsorbAt? then op.inflow else 0;
      Apply(b, op).value.pools[i].principal
        == b.pools[i].principal + (if inflow > 0 then Part(b.pools, inflow, i) else 0)
  {
    OnePool(b, op, i);
    if op.AbsorbAt? && op.inflow > 0 {
      AccruedToKeepsPrincipal(b, op.now);
      FundPlacesExactly(AccruedTo(b, op.now), op.inflow);
      forall j | 0 <= j < POOL_COUNT
        ensures AccruedTo(b, op.now)[j] == b.pools[j].(accrued := AccruedTo(b, op.now)[j].accrued)
      {
        AccruedPool(b, op, j);
      }
      SameParts(b.pools, AccruedTo(b, op.now), op.inflow);
    }
  }

  /** `gained` is `inflow` times `weight / w`, up to the rounding of `k` absorbs: at most `k` units
      below for the first three pools, at most `3k` above for the last. */
  predicate SpreadWithin(i: nat, gained: int, w: nat, inflow: nat, weight: nat, k: nat)
    requires w > 0
  {
    if i < 3 then gained * w <= inflow * weight <= gained * w + k * (w - 1)
    else inflow * weight <= gained * w <= inflow * weight + 3 * k * (w - 1)
  }

  /** After any run that only takes capital in, each of the first three pools is at most one unit
      per absorb below its exact weighted share of the inflow, and the last at most three above. */
  lemma {:induction false} CapitalSpreadsByWeight(b: Book, ops: seq<Op>, i: nat)
    requires CleanRun(b, ops) && InflowOnly(ops) && TotalWeight(b.pools) > 0 && i < POOL_COUNT
    ensures SpreadWithin(i, After(b, ops).pools[i].principal - b.pools[i].principal, TotalWeight(b.pools),
                         Inflow(ops), b.pools[i].weightBps, Absorbs(ops))
    decreases |ops|
  {
    hide SpreadWithin, Apply, Part;
    if |ops| == 0 {
      NothingSpread(i, TotalWeight(b.pools), b.pools[i].weightBps);
    } else {
      var op, next := ops[0], Apply(b, ops[0]).value;
      InflowParts(b, op, i);
      WeightsStay(b, op);
      CapitalSpreadsByWeight(next, ops[1..], i);
      if op.AbsorbAt? && op.inflow > 0 {
        PartWithin(b.pools, op.inflow, i);
        SpreadStep(i, b.pools[i].weightBps, TotalWeight(b.pools), op.inflow, Inflow(ops[1..]),
                   Part(b.pools, op.inflow, i),
                   After(next, ops[1..]).pools[i].principal - next.pools[i].principal, Absorbs(ops[1..]));
      }
    }
  }

  lemma NothingSpread(i: nat, w: nat, weight: nat)
    requires w > 0
    ensures SpreadWithin(i, 0, w, 0, weight, 0)
  {
  }

  lemma PartWithin(ps: PoolSet, amount: nat, i: nat)
    requires TotalWeight(ps) > 0 && i < POOL_COUNT
    ensures SpreadWithin(i, Part(ps, amount, i), TotalWeight(ps), amount, ps[i].weightBps, 1)
  {
    PartBounds(ps, amount, i);
  }

  lemma WeightsStay(b: Book, op: Op)
    requires Clean(b, op)
    ensures forall i :: 0 <= i < POOL_COUNT ==> Apply(b, op).value.pools[i].weightBps == b.pools[i].weightBps
    ensures TotalWeight(Apply(b, op).value.pools) == TotalWeight(b.pools)
  {
    forall i | 0 <= i < POOL_COUNT
      ensures Apply(b, op).value.pools[i].weightBps == b.pools[i].weightBps
    {
      OnePool(b, op, i);
    }
  }

  /** One more absorb on top of `k`: the errors add up. */
  lemma SpreadStep(i: nat, weight: nat, w: nat, inflow: nat, more: nat, part: int, gained: int, k: nat)
    requires w > 0
    requires SpreadWithin(i, part, w, inflow, weight, 1) && SpreadWithin(i, gained, w, more, weight, k)
    ensures SpreadWithin(i, part + gained, w, inflow + more, weight, 1 + k)
  {
    Distribute(part, gained, w);
    Distribute(inflow, more, weight);
    Distribute(1, k, w - 1);
    assert 3 * (1 + k) * (w - 1) == 3 * k * (w - 1) + 3 * (w - 1);
  }
}
