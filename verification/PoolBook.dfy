/** The PoolBook account: the loops the program runs over its pools, in place. */
module PoolBookAccount {
  import opened Words
  import opened Arithmetic
  import opened Pools
  import B = Books

  class PoolBook {
    const pools: array<Pool>
    var nav: u64
    var markedIn: u64
    var markedOut: u64
    var lastTs: i64
    var ticks: u64

    ghost predicate Valid() { pools.Length == POOL_COUNT }

    function View(): B.Book
      requires Valid()
      reads this, pools
    {
      B.Book(pools[..], nav, markedIn, markedOut, lastTs, ticks)
    }

    /** `init_book`: the four pools by rate and weight, with nothing in them. */
    constructor (entries: PoolSet, now: i64)
      requires forall i :: 0 <= i < POOL_COUNT ==> entries[i].principal == 0 && entries[i].accrued == 0
      ensures Valid() && fresh(pools)
      ensures View() == B.Book(entries, 0, 0, 0, now, 0)
      ensures B.Balanced(View())
    {
      pools := new Pool[POOL_COUNT](i requires 0 <= i < POOL_COUNT => entries[i]);
      nav, markedIn, markedOut, lastTs, ticks := 0, 0, 0, now, 0;
      new;
      assert pools[..] == entries;
    }

    /** `migrate_book`: an exact copy of the legacy book's last committed state. */
    constructor Migrate(legacy: B.Book)
      ensures Valid() && fresh(pools)
      ensures View() == legacy
    {
      pools := new Pool[POOL_COUNT](i requires 0 <= i < POOL_COUNT => legacy.pools[i]);
      nav, markedIn, markedOut := legacy.nav, legacy.markedIn, legacy.markedOut;
      lastTs, ticks := legacy.lastTs, legacy.ticks;
      new;
      assert pools[..] == legacy.pools;
    }

    /** The part of `amount` that goes to pool `i`, as `fund` computes it from what is placed so far. */
    method NextPart(amount: u64, i: nat, totalWeight: nat, placed: u64, ghost was: PoolSet) returns (part: u64)
      requires Valid() && i < POOL_COUNT
      requires totalWeight == TotalWeight(was) && placed == PlacedBefore(was, amount, i)
      requires pools[i].weightBps == was[i].weightBps
      ensures part == Part(was, amount, i)
    {
      if i == POOL_COUNT - 1 {
        part := SatSub(amount, placed);
        PlacedSoFar(was, amount, 3);
      } else {
        part := if totalWeight == 0 then amount / POOL_COUNT
                else Truncate(MulDiv(amount, pools[i].weightBps, totalWeight));
        ShareFits(was, amount, i);
      }
    }

    method Fund(amount: u64)
      requires Valid()
      modifies pools
      ensures pools[..] == Funded(old(pools[..]), amount)
    {
      ghost var was: PoolSet := pools[..];
      var totalWeight := pools[0].weightBps + pools[1].weightBps + pools[2].weightBps + pools[3].weightBps;
      var placed: u64 := 0;
      ghost var parts: seq<u64> := [];
      for i := 0 to POOL_COUNT
        invariant placed == PlacedBefore(was, amount, i)
        invariant |parts| == i && PartsFrom(was, amount, parts)
        invariant forall j :: 0 <= j < i ==>
          pools[j] == was[j].(principal := SatAdd(was[j].principal, parts[j]))
        invariant forall j :: i <= j < POOL_COUNT ==> pools[j] == was[j]
      {
        var part := NextPart(amount, i, totalWeight, placed, was);
        PlacedSoFar(was, amount, i + 1);
        PartsGrow(was, amount, parts, part);
        parts := parts + [part];
        pools[i] := pools[i].(principal := SatAdd(pools[i].principal, part));
        placed := SatAdd(placed, part);
      }
      FundedByParts(was, amount, parts);
    }

    method Defund(amount: u64)
      requires Valid()
      modifies pools
      ensures pools[..] == Defunded(old(pools[..]), amount)
    {
      ghost var was: PoolSet := pools[..];
      var rem: u64 := amount;
      for i := 0 to POOL_COUNT
        invariant rem == Monus(amount, Before(was, i))
        invariant forall j :: 0 <= j < i ==> pools[j] == Defunded(was, amount)[j]
        invariant forall j :: i <= j < POOL_COUNT ==> pools[j] == was[j]
      {
        if rem == 0 {
          NothingLeftToTake(was, amount, i);
          break;
        }
        var take := Min(rem, pools[i].principal);
        pools[i] := pools[i].(principal := pools[i].principal - take);
        rem := rem - take;
      }
    }

    /** Folds yield in up to `now`. False when the arithmetic overflowed: the runtime then throws
        every write of the instruction away, so nothing is promised about the pools. */
    method Accrue(now: i64) returns (ok: bool)
      requires Valid()
      modifies pools
      ensures ok <==> !B.AccrualTraps(old(View()), now)
      ensures ok ==> pools[..] == B.AccruedTo(old(View()), now)
    {
      ghost var was := View();
      if now <= lastTs {
        return true;
      }
      if now - lastTs > I64_MAX {
        return false;
      }
      var dt := now - lastTs;
      for i := 0 to POOL_COUNT
        invariant forall j :: 0 <= j < i ==> pools[j] == Accrued(was.pools[j], dt)
        invariant forall j :: 0 <= j < i ==> YieldNumerator(was.pools[j], dt) <= U128_MAX
        invariant forall j :: i <= j < POOL_COUNT ==> pools[j] == was.pools[j]
      {
        var numerator := YieldNumerator(pools[i], dt);
        if numerator > U128_MAX {
          return false;
        }
        var pending := numerator / (BPS * SECONDS_PER_YEAR);
        pools[i] := pools[i].(accrued := SatAdd(pools[i].accrued, Truncate(pending)));
      }
      ok := true;
    }

    method Marked() returns (value: u64)
      requires Valid()
      ensures value == MarkedValue(pools[..])
    {
      value := 0;
      for i := 0 to POOL_COUNT
        invariant value == MarkedUpTo(pools[..], i)
      {
        value := SatAdd(SatAdd(value, pools[i].principal), pools[i].accrued);
      }
      MarkedIsWorth(pools[..]);
    }

    method Tick(now: i64) returns (r: Result<()>)
      requires Valid()
      modifies this, pools
      ensures r.Ok? <==> B.Tick(old(View()), now).Ok?
      ensures r.Ok? ==> View() == B.Tick(old(View()), now).value
    {
      var ok := Accrue(now);
      if !ok {
        return Err(Trap);
      }
      nav := Marked();
      lastTs := now;
      ticks := SatAdd(ticks, 1);
      r := Ok(());
    }

    method Absorb(inflow: u64, outflow: u64, now: i64) returns (r: Result<()>)
      requires Valid()
      modifies this, pools
      ensures r.Ok? <==> B.Absorb(old(View()), inflow, outflow, now).Ok?
      ensures r.Ok? ==> View() == B.Absorb(old(View()), inflow, outflow, now).value
    {
      hide Funded, Defunded, AccruedPools, MarkedValue;
      var ok := Accrue(now);
      if !ok {
        return Err(Trap);
      }
      lastTs := now;
      if inflow > 0 {
        Fund(inflow);
        markedIn := SatAdd(markedIn, inflow);
      }
      if outflow > 0 {
        Defund(outflow);
        markedOut := SatAdd(markedOut, outflow);
      }
      nav := Marked();
      r := Ok(());
    }

    method SetApr(index: u8, aprBps: u32, now: i64) returns (r: Result<()>)
      requires Valid()
      modifies this, pools
      ensures r.Ok? <==> B.SetApr(old(View()), index, aprBps, now).Ok?
      ensures r.Ok? ==> View() == B.SetApr(old(View()), index, aprBps, now).value
    {
      if index >= POOL_COUNT {
        return Err(BadPool);
      }
      hide Funded, Defunded, AccruedPools, MarkedValue;
      var ok := Accrue(now);
      if !ok {
        return Err(Trap);
      }
      lastTs := now;
      pools[index] := pools[index].(aprBps := aprBps);
      nav := Marked();
      r := Ok(());
    }
  }
}
