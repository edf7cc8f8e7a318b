/** The pool book on values: what one tick, absorb or rate change does to it,
    the balance every one of them keeps, and exactly when an absorb breaks it. */
module Books {
  import opened Words
  import opened Arithmetic
  import opened Pools

  datatype Book = Book(
    pools: PoolSet,
    nav: u64,
    markedIn: u64,
    markedOut: u64,
    lastTs: i64,
    ticks: u64
  )

  // ------------------------------------------------------------- operations

  /** Overflow checks are on: a timestamp difference outside i64, or a yield product outside
      u128, aborts the instruction. */
  predicate AccrualTraps(b: Book, now: i64) {
    && b.lastTs < now
    && (|| now - b.lastTs > I64_MAX
        || exists i | 0 <= i < POOL_COUNT :: YieldNumerator(b.pools[i], now - b.lastTs) > U128_MAX)
  }

  /** The pools with yield folded in up to `now`; nothing when the clock has not advanced. */
  function AccruedTo(b: Book, now: i64): PoolSet {
    if now <= b.lastTs then b.pools else AccruedPools(b.pools, now - b.lastTs)
  }

  function Tick(b: Book, now: i64): Result<Book> {
    if AccrualTraps(b, now) then Err(Trap)
    else
      var ps := AccruedTo(b, now);
      Ok(b.(pools := ps, nav := MarkedValue(ps), lastTs := now, ticks := SatAdd(b.ticks, 1)))
  }

  /** The pools once `inflow` has been spread over them and `outflow` pulled back out. */
  function Moved(ps: PoolSet, inflow: u64, outflow: u64): PoolSet {
    var funded := if inflow > 0 then Funded(ps, inflow) else ps;
    if outflow > 0 then Defunded(funded, outflow) else funded
  }

  function Absorb(b: Book, inflow: u64, outflow: u64, now: i64): Result<Book> {
    if AccrualTraps(b, now) then Err(Trap)
    else
      var ps := Moved(AccruedTo(b, now), inflow, outflow);
      Ok(b.(pools := ps, nav := MarkedValue(ps), lastTs := now,
            markedIn := SatAdd(b.markedIn, inflow), markedOut := SatAdd(b.markedOut, outflow)))
  }

  function SetApr(b: Book, index: u8, aprBps: u32, now: i64): Result<Book> {
    if index >= POOL_COUNT then Err(BadPool)
    else if AccrualTraps(b, now) then Err(Trap)
    else
      var ps := AccruedTo(b, now);
      Ok(b.(pools := ps[index := ps[index].(aprBps := aprBps)], nav := MarkedValue(ps), lastTs := now))
  }

  // ---------------------------------------------------------------- balance

  /** The book's own accounts agree: the marked NAV is what the pools are worth, and the
      principal in them is exactly the flow absorbed in, less the flow absorbed out. */
  predicate Balanced(b: Book) {
    && b.nav == Worth(b.pools)
    && b.markedOut <= b.markedIn
    && Principals(b.pools) == b.markedIn - b.markedOut
  }

  /** Yield on the book, over all pools. */
  function Yield(b: Book): nat { Accrueds(b.pools) }

  lemma AccruedToKeepsPrincipal(b: Book, now: i64)
    ensures Principals(AccruedTo(b, now)) == Principals(b.pools)
    ensures Accrueds(AccruedTo(b, now)) >= Yield(b)
  {
    if now > b.lastTs {
      AccrualOnlyAddsYield(b.pools, now - b.lastTs);
    }
  }

  /** A tick moves no principal and no marks, never lowers accrued yield, and keeps the balance. */
  lemma TickKeepsBalance(b: Book, now: i64)
    requires Balanced(b) && Tick(b, now).Ok? && Tick(b, now).value.nav < U64_MAX
    ensures var t := Tick(b, now).value;
      && Balanced(t)
      && t.markedIn == b.markedIn && t.markedOut == b.markedOut
      && Yield(t) >= Yield(b)
      && t.lastTs == now && (b.ticks < U64_MAX ==> t.ticks == b.ticks + 1)
  {
    AccruedToKeepsPrincipal(b, now);
  }

  /** A replayed tick advances nothing but the count of ticks. */
  lemma ReplayedTickAdvancesNothing(b: Book, now: i64)
    requires Tick(b, now).Ok?
    ensures var t := Tick(b, now).value;
      && t.lastTs == now
      && Tick(t, now) == Ok(t.(ticks := SatAdd(t.ticks, 1)))
  {
  }

  /** A rate change accrues at the old rate first: like a tick, it only adds yield. */
  lemma SetAprKeepsBalance(b: Book, index: u8, aprBps: u32, now: i64)
    requires Balanced(b) && SetApr(b, index, aprBps, now).Ok?
    requires SetApr(b, index, aprBps, now).value.nav < U64_MAX
    ensures var t := SetApr(b, index, aprBps, now).value;
      && Balanced(t)
      && t.markedIn == b.markedIn && t.markedOut == b.markedOut
      && Yield(t) >= Yield(b)
      && t.lastTs == now && t.ticks == b.ticks
      && t.pools[index].aprBps == aprBps
      && (forall i :: 0 <= i < POOL_COUNT ==> t.pools[i].accrued == AccruedTo(b, now)[i].accrued)
  {
    AccruedToKeepsPrincipal(b, now);
  }

  lemma MovedPools(ps: PoolSet, inflow: u64, outflow: u64)
    requires Principals(ps) + inflow <= U64_MAX
    ensures Principals(Moved(ps, inflow, outflow)) == Monus(Principals(ps) + inflow, outflow)
    ensures Accrueds(Moved(ps, inflow, outflow)) == Accrueds(ps)
  {
    if inflow > 0 {
      FundPlacesExactly(ps, inflow);
    }
    DefundTakesWhatIsThere(if inflow > 0 then Funded(ps, inflow) else ps, outflow);
  }

  /** An absorb that no counter saturates on keeps the balance exactly when the flow out it
      reports, on top of what is already marked out, is covered by the flow in. Past that point
      `defund` has nothing left to take while `marked_out` still grows by the full outflow. */
  lemma AbsorbKeepsBalanceIff(b: Book, inflow: u64, outflow: u64, now: i64)
    requires Balanced(b) && Absorb(b, inflow, outflow, now).Ok?
    requires b.markedIn + inflow <= U64_MAX && b.markedOut + outflow <= U64_MAX
    requires Absorb(b, inflow, outflow, now).value.nav < U64_MAX
    ensures Balanced(Absorb(b, inflow, outflow, now).value)
      <==> b.markedOut + outflow <= b.markedIn + inflow
  {
    AccruedToKeepsPrincipal(b, now);
    MovedPools(AccruedTo(b, now), inflow, outflow);
  }

  /** An outflow reported to a book that never took anything in: nothing to take, yet it is marked out. */
  lemma UncoveredAbsorbUnbalances()
    ensures var b := Book([EMPTY_POOL, EMPTY_POOL, EMPTY_POOL, EMPTY_POOL], 0, 0, 0, 0, 0);
      && Balanced(b)
      && Absorb(b, 0, 5, 0).Ok? && Absorb(b, 0, 5, 0).value.markedOut == 5
      && !Balanced(Absorb(b, 0, 5, 0).value)
  {
    var b := Book([EMPTY_POOL, EMPTY_POOL, EMPTY_POOL, EMPTY_POOL], 0, 0, 0, 0, 0);
    AbsorbKeepsBalanceIff(b, 0, 5, 0) by {
      DefundTakesWhatIsThere(b.pools, 5);
    }
  }

  /** A covered absorb marks exactly the flow it was told and moves accrued yield only by what
      had been earned up to that instant, so the cap in `defund` never bites. */
  lemma CoveredAbsorb(b: Book, inflow: u64, outflow: u64, now: i64)
    requires Balanced(b) && Absorb(b, inflow, outflow, now).Ok?
    requires b.markedIn + inflow <= U64_MAX && b.markedOut + outflow <= b.markedIn + inflow
    requires Absorb(b, inflow, outflow, now).value.nav < U64_MAX
    ensures var t := Absorb(b, inflow, outflow, now).value;
      && Balanced(t)
      && t.markedIn == b.markedIn + inflow && t.markedOut == b.markedOut + outflow
      && Principals(t.pools) == Principals(b.pools) + inflow - outflow
      && Yield(t) == Accrueds(AccruedTo(b, now)) >= Yield(b)
      && t.lastTs == now && t.ticks == b.ticks
  {
    AccruedToKeepsPrincipal(b, now);
    MovedPools(AccruedTo(b, now), inflow, outflow);
  }

  /** Where the capital ends, pool by pool: the inflow goes in first, each pool getting its part, and the
      outflow then leaves the first pools, so that what the first `i` hold is what they would have held
      less the outflow. */
  lemma AbsorbFillsThenDrains(b: Book, inflow: u64, outflow: u64, now: i64, i: nat)
    requires Absorb(b, inflow, outflow, now).Ok? && Principals(b.pools) + inflow <= U64_MAX && i <= POOL_COUNT
    ensures var t := Absorb(b, inflow, outflow, now).value;
      var placed := PlacedBefore(AccruedTo(b, now), inflow, i);
      placed >= 0 && Before(t.pools, i) == Monus(Before(b.pools, i) + placed, outflow)
  {
    hide Part, Before, PlacedBefore, Funded, Defunded, Principals, MarkedValue, AccrualTraps;
    var ps := AccruedTo(b, now);
    AccruedToKeepsPrincipal(b, now);
    EachKeepsPrincipal(b, now);
    FilledBefore(ps, inflow, i);
    DrainedBefore(if inflow > 0 then Funded(ps, inflow) else ps, outflow, i);
    SamePrincipalsBefore(b.pools, ps, i);
  }

  lemma EachKeepsPrincipal(b: Book, now: i64)
    ensures forall j :: 0 <= j < POOL_COUNT ==> AccruedTo(b, now)[j].principal == b.pools[j].principal
  {
  }

  lemma SamePrincipalsBefore(x: PoolSet, y: PoolSet, i: nat)
    requires i <= POOL_COUNT && forall j :: 0 <= j < POOL_COUNT ==> x[j].principal == y[j].principal
    ensures Before(x, i) == Before(y, i)
  {
  }

  lemma {:induction false} FilledBefore(ps: PoolSet, inflow: u64, i: nat)
    requires i <= POOL_COUNT && Principals(ps) + inflow <= U64_MAX
    ensures 0 <= PlacedBefore(ps, inflow, i)
    ensures Before(if inflow > 0 then Funded(ps, inflow) else ps, i) == Before(ps, i) + PlacedBefore(ps, inflow, i)
  {
    FundPlacesExactly(ps, inflow);
    PartsMakeTheAmount(ps, inflow);
    if i > 0 {
      FilledBefore(ps, inflow, i - 1);
    }
  }

  lemma {:induction false} DrainedBefore(ps: PoolSet, outflow: u64, i: nat)
    requires i <= POOL_COUNT
    ensures Before(if outflow > 0 then Defunded(ps, outflow) else ps, i) == Monus(Before(ps, i), outflow)
  {
    if i > 0 {
      DrainedBefore(ps, outflow, i - 1);
    }
  }

  /** No accrual over up to 2^32 seconds, some 136 years, traps, whatever the pools hold and earn: the
      product is a u64 by a u32 by such a time, and that fits a u128. */
  lemma NoTrapWithinACentury(b: Book, now: i64)
    requires now <= b.lastTs || now - b.lastTs <= 0x1_0000_0000
    ensures !AccrualTraps(b, now)
  {
    if now > b.lastTs {
      forall i | 0 <= i < POOL_COUNT
        ensures YieldNumerator(b.pools[i], now - b.lastTs) <= U128_MAX
      {
        ProductFits(b.pools[i], now - b.lastTs);
      }
    }
  }

  lemma ProductFits(p: Pool, dt: nat)
    requires dt <= 0x1_0000_0000
    ensures YieldNumerator(p, dt) <= U128_MAX
  {
    MulMono(p.principal, U64_MAX, p.aprBps);
    MulMono(p.aprBps, U32_MAX, U64_MAX);
    assert p.principal * p.aprBps <= U64_MAX * U32_MAX;
    MulMono(p.principal * p.aprBps, U64_MAX * U32_MAX, dt);
    MulMono(dt, 0x1_0000_0000, U64_MAX * U32_MAX);
  }

  /** So in that time a tick and an absorb always go through, and a rate change if and only if there is
      such a pool. */
  lemma BookStepsGoThrough(b: Book, inflow: u64, outflow: u64, index: u8, aprBps: u32, now: i64)
    requires now <= b.lastTs || now - b.lastTs <= 0x1_0000_0000
    ensures Tick(b, now).Ok? && Absorb(b, inflow, outflow, now).Ok?
    ensures SetApr(b, index, aprBps, now).Ok? <==> index < 4
    ensures SetApr(b, index, aprBps, now).Err? ==> SetApr(b, index, aprBps, now).error == BadPool
  {
    hide AccrualTraps;
    NoTrapWithinACentury(b, now);
  }

  /** Over four times as long it can: the most capital in one pool, at the highest rate. */
  lemma LongerAccrualsTrap()
    ensures var pools := [Pool(U32_MAX, 1, U64_MAX, 0), EMPTY_POOL, EMPTY_POOL, EMPTY_POOL];
      var b := Book(pools, U64_MAX, U64_MAX, 0, 0, 0);
      Tick(b, 0x4_0000_0000) == Err(Trap)
  {
    assert YieldNumerator(Pool(U32_MAX, 1, U64_MAX, 0), 0x4_0000_0000) > U128_MAX;
  }

  /** An accrual is exact as long as the balance fits a u64. Yield of a whole 2^64 in one go would not
      saturate but vanish in the cast. */
  lemma AccrualCanVanish(accrued: u64)
    ensures var p := Pool(BPS, 1, 0x8000_0000_0000_0000, accrued);
      Pending(p, 2 * SECONDS_PER_YEAR) == U64_MAX + 1 && Accrued(p, 2 * SECONDS_PER_YEAR) == p
  {
    var p := Pool(BPS, 1, 0x8000_0000_0000_0000, accrued);
    assert YieldNumerator(p, 2 * SECONDS_PER_YEAR) == (U64_MAX + 1) * YIELD_SCALE;
  }
}
