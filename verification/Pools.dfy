/** The four lending pools, on values: how capital is spread over them and pulled back,
    how yield is folded in, and what the whole book is marked at.
    Each function is written in closed form; the loops that compute them are in PoolBook.dfy. */
module Pools {
  import opened Words
  import opened Arithmetic

  const POOL_COUNT: nat := 4
  const BPS: nat := 10_000
  const SECONDS_PER_YEAR: nat := 31_536_000
  /** One whole token, and a share price of 1, at 6 decimals. */
  const ONE: nat := 1_000_000

  datatype Pool = Pool(aprBps: u32, weightBps: u16, principal: u64, accrued: u64)

  const EMPTY_POOL := Pool(0, 0, 0, 0)

  type PoolSet = ps: seq<Pool> | |ps| == POOL_COUNT
    witness [EMPTY_POOL, EMPTY_POOL, EMPTY_POOL, EMPTY_POOL]

  function TotalWeight(ps: PoolSet): nat {
    ps[0].weightBps + ps[1].weightBps + ps[2].weightBps + ps[3].weightBps
  }

  function Principals(ps: PoolSet): nat {
    ps[0].principal + ps[1].principal + ps[2].principal + ps[3].principal
  }

  function Accrueds(ps: PoolSet): nat {
    ps[0].accrued + ps[1].accrued + ps[2].accrued + ps[3].accrued
  }

  /** What the pools are worth: principal plus accrued yield, over all of them. */
  function Worth(ps: PoolSet): nat { Principals(ps) + Accrueds(ps) }

  // --------------------------------------------------------------- fund

  /** The weighted share of `amount` that goes to pool `i`, rounded down. */
  function Share(ps: PoolSet, amount: nat, i: nat): nat
    requires i < POOL_COUNT
  {
    if TotalWeight(ps) == 0 then amount / POOL_COUNT
    else MulDiv(amount, ps[i].weightBps, TotalWeight(ps))
  }

  /** The first three pools get their share; the last gets everything that is left. */
  function Part(ps: PoolSet, amount: nat, i: nat): int
    requires i < POOL_COUNT
  {
    if i < POOL_COUNT - 1 then Share(ps, amount, i)
    else amount - Share(ps, amount, 0) - Share(ps, amount, 1) - Share(ps, amount, 2)
  }

  lemma WeightedSharesFit(a: nat, w0: nat, w1: nat, w2: nat, total: nat)
    requires total > 0 && w0 + w1 + w2 <= total
    ensures MulDiv(a, w0, total) + MulDiv(a, w1, total) + MulDiv(a, w2, total) <= a
  {
    var q0, q1, q2 := MulDiv(a, w0, total), MulDiv(a, w1, total), MulDiv(a, w2, total);
    assert q0 * total + q1 * total + q2 * total <= a * w0 + a * w1 + a * w2 by {
      MulDivBounds(a, w0, total);
      MulDivBounds(a, w1, total);
      MulDivBounds(a, w2, total);
    }
    Distribute(q0, q1, total);
    Distribute(q0 + q1, q2, total);
    Distribute(w0, w1, a);
    Distribute(w0 + w1, w2, a);
    MulMono(w0 + w1 + w2, total, a);
    MulCancel(q0 + q1 + q2, a, total);
  }

  /** No part is negative or above `amount`, and together the parts are exactly `amount`,
      whatever the weights are, all-zero included. */
  lemma PartsMakeTheAmount(ps: PoolSet, amount: nat)
    ensures forall i :: 0 <= i < POOL_COUNT ==> 0 <= Part(ps, amount, i) <= amount
    ensures Part(ps, amount, 0) + Part(ps, amount, 1) + Part(ps, amount, 2) + Part(ps, amount, 3) == amount
  {
    if TotalWeight(ps) > 0 {
      WeightedSharesFit(amount, ps[0].weightBps, ps[1].weightBps, ps[2].weightBps, TotalWeight(ps));
    }
  }

  /** What the parts before pool `i` add up to. */
  function PlacedBefore(ps: PoolSet, amount: nat, i: nat): int
    requires i <= POOL_COUNT
  {
    if i == 0 then 0 else PlacedBefore(ps, amount, i - 1) + Part(ps, amount, i - 1)
  }

  lemma PlacedSoFar(ps: PoolSet, amount: nat, i: nat)
    requires i <= POOL_COUNT
    ensures 0 <= PlacedBefore(ps, amount, i) <= amount
    ensures PlacedBefore(ps, amount, 3) == amount - Part(ps, amount, 3)
  {
    PartsMakeTheAmount(ps, amount);
    assert PlacedBefore(ps, amount, 1) == PlacedBefore(ps, amount, 0) + Part(ps, amount, 0);
    assert PlacedBefore(ps, amount, 2) == PlacedBefore(ps, amount, 1) + Part(ps, amount, 1);
    assert PlacedBefore(ps, amount, 3) == PlacedBefore(ps, amount, 2) + Part(ps, amount, 2);
    assert PlacedBefore(ps, amount, 4) == PlacedBefore(ps, amount, 3) + Part(ps, amount, 3);
  }

  /** The `as u64` cast on a weighted share never drops a bit. */
  lemma ShareFits(ps: PoolSet, amount: u64, i: nat)
    requires i < POOL_COUNT - 1
    ensures Truncate(Share(ps, amount, i)) == Share(ps, amount, i) == Part(ps, amount, i)
  {
    PartsMakeTheAmount(ps, amount);
  }

  /** The pools after `PoolBook::fund`. */
  function Funded(ps: PoolSet, amount: u64): PoolSet {
    seq(POOL_COUNT, i requires 0 <= i < POOL_COUNT =>
      PartsMakeTheAmount(ps, amount);
      ps[i].(principal := SatAdd(ps[i].principal, Part(ps, amount, i))))
  }

  /** `parts` are the parts of the first `|parts|` pools. */
  predicate PartsFrom(ps: PoolSet, amount: nat, parts: seq<u64>)
    decreases |parts|
  {
    |parts| == 0
    || (&& |parts| <= POOL_COUNT
        && parts[|parts| - 1] == Part(ps, amount, |parts| - 1)
        && PartsFrom(ps, amount, parts[..|parts| - 1]))
  }

  lemma PartsGrow(ps: PoolSet, amount: nat, parts: seq<u64>, part: u64)
    requires PartsFrom(ps, amount, parts) && |parts| < POOL_COUNT && part == Part(ps, amount, |parts|)
    ensures PartsFrom(ps, amount, parts + [part])
  {
    assert (parts + [part])[..|parts|] == parts;
  }

  lemma FundedByParts(ps: PoolSet, amount: u64, parts: seq<u64>)
    requires |parts| == POOL_COUNT && PartsFrom(ps, amount, parts)
    ensures forall i :: 0 <= i < POOL_COUNT ==>
      Funded(ps, amount)[i] == ps[i].(principal := SatAdd(ps[i].principal, parts[i]))
  {
    var p3, p2, p1 := parts[..3], parts[..2], parts[..1];
    assert p3 == parts[..|parts| - 1] && p2 == p3[..|p3| - 1] && p1 == p2[..|p2| - 1];
    assert parts[3] == Part(ps, amount, 3) && PartsFrom(ps, amount, p3);
    assert parts[2] == p3[2] == Part(ps, amount, 2) && PartsFrom(ps, amount, p2);
    assert parts[1] == p2[1] == Part(ps, amount, 1) && PartsFrom(ps, amount, p1);
    assert parts[0] == p1[0] == Part(ps, amount, 0);
  }

  /** Funding places exactly `amount` and moves nothing else, while principal stays inside a u64. */
  lemma FundPlacesExactly(ps: PoolSet, amount: u64)
    requires Principals(ps) + amount <= U64_MAX
    ensures Principals(Funded(ps, amount)) == Principals(ps) + amount
    ensures Accrueds(Funded(ps, amount)) == Accrueds(ps)
    ensures forall i :: 0 <= i < POOL_COUNT ==>
      Funded(ps, amount)[i] == ps[i].(principal := ps[i].principal + Part(ps, amount, i))
  {
    PartsMakeTheAmount(ps, amount);
  }

  // ------------------------------------------------------------- defund

  /** Principal held by the pools before pool `i`. */
  function Before(ps: PoolSet, i: nat): nat
    requires i <= POOL_COUNT
  {
    if i == 0 then 0 else Before(ps, i - 1) + ps[i - 1].principal
  }

  /** What pool `i` gives towards `amount`, once the pools before it have given all they hold. */
  function Taken(ps: PoolSet, amount: nat, i: nat): (t: nat)
    requires i < POOL_COUNT
    ensures t <= ps[i].principal
  {
    Min(ps[i].principal, Monus(amount, Before(ps, i)))
  }

  /** The pools after `PoolBook::defund`. */
  function Defunded(ps: PoolSet, amount: nat): PoolSet {
    seq(POOL_COUNT, i requires 0 <= i < POOL_COUNT =>
      ps[i].(principal := ps[i].principal - Taken(ps, amount, i)))
  }

  lemma BeforeAll(ps: PoolSet)
    ensures Before(ps, 1) == ps[0].principal
    ensures Before(ps, 2) == ps[0].principal + ps[1].principal
    ensures Before(ps, 3) == ps[0].principal + ps[1].principal + ps[2].principal
    ensures Before(ps, 4) == Principals(ps)
  {
    assert Before(ps, 1) == Before(ps, 0) + ps[0].principal;
    assert Before(ps, 2) == Before(ps, 1) + ps[1].principal;
    assert Before(ps, 3) == Before(ps, 2) + ps[2].principal;
    assert Before(ps, 4) == Before(ps, 3) + ps[3].principal;
  }

  /** Once the pools before `i` cover the amount, the loop may stop: no later pool gives anything. */
  lemma NothingLeftToTake(ps: PoolSet, amount: nat, i: nat)
    requires i < POOL_COUNT && amount <= Before(ps, i)
    ensures forall j :: i <= j < POOL_COUNT ==> Defunded(ps, amount)[j] == ps[j]
  {
    BeforeAll(ps);
  }

  /** Defunding takes out exactly `amount` if and only if that much principal is there;
      otherwise it empties the pools. Accrued yield is never touched, and a pool gives
      anything only after every pool before it is empty. */
  lemma DefundTakesWhatIsThere(ps: PoolSet, amount: nat)
    ensures Principals(Defunded(ps, amount)) == Monus(Principals(ps), amount)
    ensures Accrueds(Defunded(ps, amount)) == Accrueds(ps)
    ensures forall i, j ::
      0 <= j < i < POOL_COUNT && Defunded(ps, amount)[i].principal < ps[i].principal ==>
      Defunded(ps, amount)[j].principal == 0
  {
    BeforeAll(ps);
  }

  // ------------------------------------------------------------- accrue

  /** Yield a pool earns over `dt` seconds before the division: exact, in units of 1/YIELD_SCALE. */
  function YieldNumerator(p: Pool, dt: nat): nat {
    ProductIsNat(p.principal, p.aprBps);
    ProductIsNat(p.principal * p.aprBps, dt);
    p.principal * p.aprBps * dt
  }

  const YIELD_SCALE: nat := BPS * SECONDS_PER_YEAR

  function Pending(p: Pool, dt: nat): nat { YieldNumerator(p, dt) / YIELD_SCALE }

  /** Over 365 days a pool earns its rate, in hundredths of a percent of its principal, rounded down. */
  lemma AYearEarnsTheRate(p: Pool)
    ensures Pending(p, 365 * 24 * 60 * 60) == MulDiv(p.principal, p.aprBps, 10_000)
  {
    var x, y := p.principal * p.aprBps, 365 * 24 * 60 * 60;
    MulDivBounds(p.principal, p.aprBps, 10_000);
    MulDivUnique(x, y, 10_000 * y, MulDiv(p.principal, p.aprBps, 10_000));
  }

  /** One pool with `dt` seconds of yield folded in, through the `as u64` cast and the saturating add. */
  function Accrued(p: Pool, dt: nat): Pool {
    p.(accrued := SatAdd(p.accrued, Truncate(Pending(p, dt))))
  }

  function AccruedPools(ps: PoolSet, dt: nat): PoolSet {
    seq(POOL_COUNT, i requires 0 <= i < POOL_COUNT => Accrued(ps[i], dt))
  }

  /** Folding yield in moves no principal, rate or weight, and no accrued balance ever falls. */
  lemma AccrualOnlyAddsYield(ps: PoolSet, dt: nat)
    ensures Principals(AccruedPools(ps, dt)) == Principals(ps)
    ensures TotalWeight(AccruedPools(ps, dt)) == TotalWeight(ps)
    ensures Accrueds(AccruedPools(ps, dt)) >= Accrueds(ps)
    ensures forall i :: 0 <= i < POOL_COUNT ==> AccruedPools(ps, dt)[i].accrued >= ps[i].accrued
  {
  }

  // ------------------------------------------------------- marked value

  /** The saturating fold of `marked_value`, over the first `i` pools. */
  function MarkedUpTo(ps: PoolSet, i: nat): u64
    requires i <= POOL_COUNT
  {
    if i == 0 then 0
    else SatAdd(SatAdd(MarkedUpTo(ps, i - 1), ps[i - 1].principal), ps[i - 1].accrued)
  }

  function MarkedValue(ps: PoolSet): u64 { Min(Worth(ps), U64_MAX) }

  /** Saturating after each addition is the same as saturating once at the end. */
  lemma MarkedIsWorth(ps: PoolSet)
    ensures MarkedUpTo(ps, POOL_COUNT) == MarkedValue(ps)
  {
    assert MarkedUpTo(ps, 1) == SatAdd(SatAdd(MarkedUpTo(ps, 0), ps[0].principal), ps[0].accrued);
    assert MarkedUpTo(ps, 2) == SatAdd(SatAdd(MarkedUpTo(ps, 1), ps[1].principal), ps[1].accrued);
    assert MarkedUpTo(ps, 3) == SatAdd(SatAdd(MarkedUpTo(ps, 2), ps[2].principal), ps[2].accrued);
    assert MarkedUpTo(ps, 4) == SatAdd(SatAdd(MarkedUpTo(ps, 3), ps[3].principal), ps[3].accrued);
  }
}
