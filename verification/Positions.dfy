/** Position ledgers: the carried entry price, the marks, who may act, and the sync
    that catches the public leg up. */
module Positions {
  import opened Words
  import opened Arithmetic
  import opened Pools

  datatype Position = Position(
    owner: Pubkey,
    shares: u64,
    privateShares: u64,
    entryPrice: u64,
    valueUsdc: u64,
    costBasis: u64,
    yieldUsdc: u64,
    syncedTs: i64,
    syncs: u32,
    isPrivate: bool,
    sessionKey: Pubkey,
    sessionExpiry: i64
  )

  /** `init_position`. */
  function Opened(owner: Pubkey): Position {
    Position(owner, 0, 0, ONE, 0, 0, 0, 0, 0, false, ZERO_KEY, 0)
  }

  predicate MayAct(p: Position, signer: Pubkey, now: i64) {
    signer == p.owner
    || (signer == p.sessionKey && p.sessionKey != ZERO_KEY && now < p.sessionExpiry)
  }

  /** The entry price after buying `added` more: the weighted mean of the old one and `price`. */
  function Blend(p: Position, added: u64, price: u64): Result<Position> {
    var before := SatAdd(p.shares, p.privateShares);
    var after := SatAdd(before, added);
    if after == 0 then Ok(p)
    else
      var blended :- TryU64(WeightedSum(p.entryPrice, before, price, added) / after);
      Ok(p.(entryPrice := blended))
  }

  function WeightedSum(entry: nat, before: nat, price: nat, added: nat): nat {
    ProductIsNat(entry, before);
    ProductIsNat(price, added);
    entry * before + price * added
  }

  /** The position with its public and private shares together valued at `price`, as of `now`. */
  function Mark(p: Position, price: u64, now: i64): Result<Position> {
    var total := SatAdd(p.shares, p.privateShares);
    var value :- TryU64(MulDiv(total, price, ONE));
    var cost :- TryU64(MulDiv(total, p.entryPrice, ONE));
    Ok(p.(valueUsdc := value, costBasis := cost, yieldUsdc := SatSub(value, cost),
          syncedTs := now, syncs := Min(p.syncs + 1, U32_MAX)))
  }

  /** `sync_position`, once the price is known: blend public shares that arrived, then mark. */
  function Sync(p: Position, held: u64, price: u64, now: i64): Result<Position> {
    var blended :- if held > p.shares then Blend(p, held - p.shares, price) else Ok(p);
    Mark(blended.(shares := held), price, now)
  }

  /** The position half of `deposit_private`. */
  function Credit(p: Position, shares: u64, price: u64, now: i64): Result<Position> {
    var blended :- Blend(p, shares, price);
    Mark(blended.(privateShares := SatAdd(blended.privateShares, shares)), price, now)
  }

  /** The position half of `open_exit`. */
  function Debit(p: Position, shares: u64, price: u64, now: i64): Result<Position> {
    if p.privateShares < shares then Err(InsufficientShares)
    else Mark(p.(privateShares := p.privateShares - shares), price, now)
  }

  // ---------------------------------------------------------- the average

  /** Everything that can happen to a position's shares. */
  datatype Event =
    | Synced(held: u64, price: u64, now: i64)
    | Credited(shares: u64, price: u64, now: i64)
    | Debited(shares: u64, price: u64, now: i64)

  function Apply(p: Position, e: Event): Result<Position> {
    match e
    case Synced(held, price, now) => Sync(p, held, price, now)
    case Credited(shares, price, now) => Credit(p, shares, price, now)
    case Debited(shares, price, now) => Debit(p, shares, price, now)
  }

  /** Shares an event buys: a sync that finds more agYLD than last time, or a private credit. */
  function Buys(p: Position, e: Event): nat {
    match e
    case Synced(held, _, _) => Monus(held, p.shares)
    case Credited(shares, _, _) => shares
    case Debited(_, _, _) => 0
  }

  function Held(p: Position): nat { p.shares + p.privateShares }

  /** The position after the events, all of which succeed, beside the exact share-weighted
      average price of what it holds and the number of purchases blended in. */
  datatype Tracked = Tracked(position: Position, average: real, blends: nat)

  ghost function Track(t: Tracked, e: Event): Tracked
    requires Apply(t.position, e).Ok?
  {
    var bought := Buys(t.position, e);
    var after := Apply(t.position, e).value;
    if bought == 0 then t.(position := after)
    else
      Tracked(after, ExactAverage(t.average, Held(t.position), e.price, bought), t.blends + 1)
  }

  ghost function ExactAverage(average: real, held: nat, price: nat, bought: nat): real
    requires bought > 0
  {
    (average * held as real + price as real * bought as real) / (held + bought) as real
  }

  /** The carried entry price is never above the exact average, below it by less than the
      number of purchases, and within whatever range every price paid was in. */
  ghost predicate EntryIsSound(t: Tracked, low: nat, high: nat) {
    var entry := t.position.entryPrice as real;
    && entry <= t.average
    && (t.average < entry + t.blends as real || (t.blends == 0 && t.average == entry))
    && (Held(t.position) > 0 ==> low <= t.position.entryPrice <= high)
  }

  lemma FloorQuotient(n: nat, d: nat)
    requires d > 0
    ensures (n / d) * d <= n < (n / d) * d + d
  {
    assert n == n / d * d + n % d;
  }

  /** A weighted sum of two prices in a range, over the total weight, stays in the range. */
  lemma BlendInRange(entry: nat, before: nat, price: nat, added: nat, low: nat, high: nat)
    requires before + added > 0
    requires before > 0 ==> low <= entry <= high
    requires added > 0 ==> low <= price <= high
    ensures low <= WeightedSum(entry, before, price, added) / (before + added) <= high
  {
    var total := before + added;
    var n := WeightedSum(entry, before, price, added);
    FloorQuotient(n, total);
    Distribute(before, added, low);
    Distribute(before, added, high);
    if before > 0 {
      MulMono(low, entry, before);
      MulMono(entry, high, before);
    }
    if added > 0 {
      MulMono(low, price, added);
      MulMono(price, high, added);
    }
    var q := n / total;
    assert low * total <= n <= high * total;
    Distribute(q, 1, total);
    MulCancelStrict(low, q + 1, total);
    MulCancel(q, high, total);
  }

  /** The exact cost of a holding lies between the cost at the carried entry and `slack` above it. */
  lemma CostBounds(entry: real, average: real, slack: real, held: real, total: real, paid: real)
    requires entry <= average <= entry + slack && 0.0 <= held <= total && slack >= 0.0
    ensures entry * held + paid <= average * held + paid <= entry * held + paid + slack * total
  {
    RealMono(entry, average, held);
    RealMono(average, entry + slack, held);
    RealMono(held, total, slack);
    assert (entry + slack) * held == entry * held + held * slack;
  }

  lemma CastProduct(a: nat, b: nat)
    ensures (a * b) as real == a as real * b as real
  {
  }

  lemma RealMono(a: real, b: real, c: real)
    requires a <= b && c >= 0.0
    ensures a * c <= b * c
  {
    assert (b - a) * c >= 0.0;
  }

  lemma RealStrict(a: real, b: real, c: real)
    requires a < b && c > 0.0
    ensures a * c < b * c
  {
    assert (b - a) * c > 0.0;
  }

  lemma RealQuotient(x: real, d: real, low: real, high: real)
    requires d > 0.0 && low * d <= x < high * d
    ensures low <= x / d < high
  {
    var q := x / d;
    assert q * d == x;
    if q < low {
      RealStrict(q, low, d);
    } else if high <= q {
      RealMono(high, q, d);
    }
  }

  lemma RoundedQuotient(sum: real, n: nat, total: nat, slack: real)
    requires total > 0 && n as real <= sum <= n as real + slack * total as real
    ensures (n / total) as real <= sum / total as real < (n / total) as real + slack + 1.0
  {
    var q, d := n / total, total as real;
    FloorQuotient(n, total);
    assert (q * total) as real == q as real * d;
    assert (q as real + slack + 1.0) * d == q as real * d + slack * d + d;
    RealQuotient(sum, d, q as real, q as real + slack + 1.0);
  }

  /** Rounding a blend down loses less than one unit of price against the exact average. */
  lemma BlendAgainstExact(entry: nat, before: nat, average: real, price: nat, added: nat, slack: real)
    requires added > 0 && slack >= 0.0
    requires entry as real <= average <= entry as real + slack
    ensures var q := WeightedSum(entry, before, price, added) / (before + added);
      var exact := ExactAverage(average, before, price, added);
      q as real <= exact < q as real + slack + 1.0
  {
    var n, total := WeightedSum(entry, before, price, added), before + added;
    var sum := average * before as real + price as real * added as real;
    assert n as real <= sum <= n as real + slack * total as real by {
      WeightedSumCast(entry, before, price, added);
      CostBounds(entry as real, average, slack, before as real, total as real, price as real * added as real);
    }
    RoundedQuotient(sum, n, total, slack);
  }

  lemma WeightedSumCast(entry: nat, before: nat, price: nat, added: nat)
    ensures WeightedSum(entry, before, price, added) as real
      == entry as real * before as real + price as real * added as real
  {
    CastProduct(entry, before);
    CastProduct(price, added);
  }

  lemma BlendedEntry(p: Position, added: u64, price: u64)
    requires Held(p) + added <= U64_MAX && Blend(p, added, price).Ok?
    ensures Blend(p, added, price).value == p.(entryPrice := Blend(p, added, price).value.entryPrice)
    ensures Held(p) + added > 0 ==>
      Blend(p, added, price).value.entryPrice
        == WeightedSum(p.entryPrice, Held(p), price, added) / (Held(p) + added)
  {
  }

  /** A purchase blends, everything else leaves the entry price alone. */
  lemma EventEntry(p: Position, e: Event)
    requires Apply(p, e).Ok? && Held(p) + Buys(p, e) <= U64_MAX
    ensures var t := Apply(p, e).value;
      && (Buys(p, e) == 0 ==> t.entryPrice == p.entryPrice && Held(t) <= Held(p))
      && (Buys(p, e) > 0 ==>
           && Held(t) == Held(p) + Buys(p, e)
           && t.entryPrice == WeightedSum(p.entryPrice, Held(p), e.price, Buys(p, e)) / (Held(p) + Buys(p, e)))
  {
    match e
    case Synced(held, price, now) =>
      if held > p.shares {
        BlendedEntry(p, held - p.shares, price);
      }
    case Credited(shares, price, now) =>
      if shares > 0 {
        BlendedEntry(p, shares, price);
      } else {
        CreditOfNothing(p, price, now);
      }
    case Debited(_, _, _) =>
  }

  lemma CreditOfNothing(p: Position, price: u64, now: i64)
    requires Held(p) <= U64_MAX && Credit(p, 0, price, now).Ok?
    ensures Credit(p, 0, price, now).value.entryPrice == p.entryPrice
  {
    if Held(p) > 0 {
      assert WeightedSum(p.entryPrice, Held(p), price, 0) == p.entryPrice * Held(p);
      MulDivUnique(p.entryPrice, Held(p), Held(p), p.entryPrice);
    }
  }

  ghost predicate FitsAndPriced(t: Tracked, e: Event, low: nat, high: nat) {
    && Apply(t.position, e).Ok?
    && Held(t.position) + Buys(t.position, e) <= U64_MAX
    && (Buys(t.position, e) > 0 ==> low <= e.price <= high)
  }

  lemma EventKeepsEntrySound(t: Tracked, e: Event, low: nat, high: nat)
    requires EntryIsSound(t, low, high) && FitsAndPriced(t, e, low, high)
    ensures EntryIsSound(Track(t, e), low, high)
  {
    EventEntry(t.position, e);
    var bought := Buys(t.position, e);
    if bought > 0 {
      BlendInRange(t.position.entryPrice, Held(t.position), e.price, bought, low, high);
      BlendAgainstExact(t.position.entryPrice, Held(t.position), t.average, e.price, bought, t.blends as real);
    }
  }

  /** Every event succeeds, no share count leaves u64, and every price paid is in the range. */
  ghost predicate GoodRun(t: Tracked, es: seq<Event>, low: nat, high: nat)
    decreases |es|
  {
    |es| == 0 || (FitsAndPriced(t, es[0], low, high) && GoodRun(Track(t, es[0]), es[1..], low, high))
  }

  ghost function RunOf(t: Tracked, es: seq<Event>, low: nat, high: nat): Tracked
    requires GoodRun(t, es, low, high)
    decreases |es|
  {
    if |es| == 0 then t else RunOf(Track(t, es[0]), es[1..], low, high)
  }

  /** Over any run of purchases, redemptions and syncs the carried entry price is sound. */
  lemma {:induction false} EntryStaysSound(t: Tracked, es: seq<Event>, low: nat, high: nat)
    requires EntryIsSound(t, low, high) && GoodRun(t, es, low, high)
    ensures EntryIsSound(RunOf(t, es, low, high), low, high)
    decreases |es|
  {
    if |es| > 0 {
      EventKeepsEntrySound(t, es[0], low, high);
      EntryStaysSound(Track(t, es[0]), es[1..], low, high);
    }
  }

  /** The same from a position just opened, where nothing has been bought yet. */
  lemma EntryOfANewPosition(owner: Pubkey, es: seq<Event>, low: nat, high: nat)
    requires GoodRun(Tracked(Opened(owner), ONE as real, 0), es, low, high)
    ensures EntryIsSound(RunOf(Tracked(Opened(owner), ONE as real, 0), es, low, high), low, high)
  {
    EntryStaysSound(Tracked(Opened(owner), ONE as real, 0), es, low, high);
  }

  /** A replayed sync changes nothing but the time and the count of syncs. */
  lemma ReplayedSyncOnlyRestamps(p: Position, held: u64, price: u64, now: i64, later: i64)
    requires Sync(p, held, price, now).Ok?
    ensures var once := Sync(p, held, price, now).value;
      Sync(once, held, price, later)
        == Ok(once.(syncedTs := later, syncs := Min(once.syncs + 1, U32_MAX)))
  {
  }

  /** A mark values all shares at the price and costs them at the carried entry, each rounded down
      to a unit; the yield it shows is the value above cost, never negative. */
  lemma MarkValuesAndCosts(p: Position, price: u64, now: i64)
    requires Held(p) <= U64_MAX && Mark(p, price, now).Ok?
    ensures var t := Mark(p, price, now).value;
      && t.valueUsdc * ONE <= Held(p) * price < t.valueUsdc * ONE + ONE
      && t.costBasis * ONE <= Held(p) * p.entryPrice < t.costBasis * ONE + ONE
      && t.yieldUsdc == Monus(t.valueUsdc, t.costBasis)
      && t == p.(valueUsdc := t.valueUsdc, costBasis := t.costBasis, yieldUsdc := t.yieldUsdc,
                 syncedTs := now, syncs := t.syncs)
  {
    MulDivBounds(Held(p), price, ONE);
    MulDivBounds(Held(p), p.entryPrice, ONE);
  }

  // --------------------------------------------------------------- account

  class PositionAccount {
    const owner: Pubkey
    var shares: u64
    var privateShares: u64
    var entryPrice: u64
    var valueUsdc: u64
    var costBasis: u64
    var yieldUsdc: u64
    var syncedTs: i64
    var syncs: u32
    var isPrivate: bool
    var sessionKey: Pubkey
    var sessionExpiry: i64

    constructor (owner: Pubkey)
      ensures View() == Opened(owner)
    {
      this.owner := owner;
      shares, privateShares, entryPrice := 0, 0, ONE;
      valueUsdc, costBasis, yieldUsdc := 0, 0, 0;
      syncedTs, syncs, isPrivate := 0, 0, false;
      sessionKey, sessionExpiry := ZERO_KEY, 0;
    }

    function View(): Position
      reads this
    {
      Position(owner, shares, privateShares, entryPrice, valueUsdc, costBasis, yieldUsdc,
               syncedTs, syncs, isPrivate, sessionKey, sessionExpiry)
    }

    method BlendEntry(added: u64, price: u64) returns (r: Result<()>)
      modifies this
      ensures r.Ok? <==> Blend(old(View()), added, price).Ok?
      ensures r.Err? ==> r.error == Blend(old(View()), added, price).error && View() == old(View())
      ensures r.Ok? ==> View() == Blend(old(View()), added, price).value
    {
      var before := SatAdd(shares, privateShares);
      var after := SatAdd(before, added);
      if after == 0 {
        return Ok(());
      }
      entryPrice :- TryU64(WeightedSum(entryPrice, before, price, added) / after);
      r := Ok(());
    }

    /** An error leaves the value written before it; the runtime then discards the instruction. */
    method MarkTo(price: u64, now: i64) returns (r: Result<()>)
      modifies this
      ensures r.Ok? <==> Mark(old(View()), price, now).Ok?
      ensures r.Err? ==> r.error == Mark(old(View()), price, now).error
      ensures r.Ok? ==> View() == Mark(old(View()), price, now).value
    {
      var total := SatAdd(shares, privateShares);
      valueUsdc :- TryU64(MulDiv(total, price, ONE));
      costBasis :- TryU64(MulDiv(total, entryPrice, ONE));
      yieldUsdc := SatSub(valueUsdc, costBasis);
      syncedTs := now;
      syncs := Min(syncs + 1, U32_MAX);
      r := Ok(());
    }

    method SyncPosition(held: u64, price: u64, now: i64) returns (r: Result<()>)
      modifies this
      ensures r.Ok? <==> Sync(old(View()), held, price, now).Ok?
      ensures r.Err? ==> r.error == Sync(old(View()), held, price, now).error
      ensures r.Ok? ==> View() == Sync(old(View()), held, price, now).value
    {
      if held > shares {
        var added := held - shares;
        var _ :- BlendEntry(added, price);
      }
      shares := held;
      r := MarkTo(price, now);
    }
  }
}
