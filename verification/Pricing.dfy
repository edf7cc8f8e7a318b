/** Pricing: the NAV and supply a share is worth, what a deposit mints, what a redemption pays,
    and the rounding every flow leaves behind for the shares that stay. */
module Pricing {
  import opened Words
  import opened Arithmetic
  import opened Pools
  import opened Books

  /** Public side of the vault, on Solana: agYLD supply and cumulative USDC flow. */
  datatype Vault = Vault(shares: u64, totalIn: u64, totalOut: u64)

  /** Private side, in the enclave: private shares and cumulative USDC flow. */
  datatype Shielded = Shielded(shares: u64, totalIn: u64, totalOut: u64)

  datatype Quote = Quote(nav: u64, supply: u64)

  function NavForPricing(v: Vault, b: Book, sh: Shielded): Result<Quote> {
    var totalIn := SatAdd(v.totalIn, sh.totalIn);
    var totalOut := SatAdd(v.totalOut, sh.totalOut);
    var _ :- Require(b.markedIn <= totalIn && b.markedOut <= totalOut, BookAheadOfVault);
    var unmarked := totalIn - b.markedIn;
    var unreturned := totalOut - b.markedOut;
    Ok(Quote(SatSub(SatAdd(b.nav, unmarked), unreturned), SatAdd(v.shares, sh.shares)))
  }

  /** Shares minted for `amount`, public or private. */
  function SharesFor(amount: u64, q: Quote): Result<u64> {
    var shares :- if q.supply == 0 || q.nav == 0 then Ok(amount) else TryU64(MulDiv(amount, q.supply, q.nav));
    var _ :- Require(shares > 0, DustDeposit);
    Ok(shares)
  }

  /** USDC paid for `shares`, public or private. Dividing by an empty supply aborts. */
  function AssetsFor(shares: u64, q: Quote): Result<u64> {
    if q.supply == 0 then Err(Trap) else TryU64(MulDiv(shares, q.nav, q.supply))
  }

  /** Share price, 6 decimals. */
  function SharePrice(q: Quote): Result<u64> {
    if q.supply == 0 then Ok(ONE) else TryU64(MulDiv(q.nav, ONE, q.supply))
  }

  /** The share price is what one whole share is worth, rounded down; one for an empty supply. */
  lemma SharePriceIsPerShare(q: Quote)
    requires SharePrice(q).Ok?
    ensures q.supply == 0 ==> SharePrice(q).value == ONE
    ensures q.supply > 0 ==>
      SharePrice(q).value * q.supply <= q.nav * ONE < (SharePrice(q).value + 1) * q.supply
  {
    if q.supply > 0 {
      MulDivBounds(q.nav, ONE, q.supply);
      Distribute(SharePrice(q).value, 1, q.supply);
    }
  }

  // ------------------------------------------------------ the simple ledger

  /** What the two layers are meant to add up to: one pot of assets and one share supply. */
  datatype Ledger = Ledger(assets: nat, supply: nat)

  /** Total in, less total out, plus the yield the committed book has accrued. */
  function LedgerOf(v: Vault, b: Book, sh: Shielded): Ledger
    requires v.totalOut <= v.totalIn && sh.totalOut <= sh.totalIn
  {
    Ledger(v.totalIn - v.totalOut + sh.totalIn - sh.totalOut + Yield(b), v.shares + sh.shares)
  }

  /** No sum that pricing takes reaches the end of a u64. */
  predicate SumsFit64(v: Vault, b: Book, sh: Shielded) {
    && v.totalIn + sh.totalIn + Yield(b) < U64_MAX
    && v.shares + sh.shares < U64_MAX
  }

  /** The pricing formula, with its marked and unmarked parts, is the simple ledger. It succeeds
      exactly when the book has not marked more flow than this view of the two custodies shows. */
  lemma PricingIsTheLedger(v: Vault, b: Book, sh: Shielded)
    requires v.totalOut <= v.totalIn && sh.totalOut <= sh.totalIn
    requires Balanced(b) && SumsFit64(v, b, sh)
    ensures NavForPricing(v, b, sh).Ok? <==>
      b.markedIn <= v.totalIn + sh.totalIn && b.markedOut <= v.totalOut + sh.totalOut
    ensures NavForPricing(v, b, sh).Ok? ==>
      var q := NavForPricing(v, b, sh).value;
      Ledger(q.nav, q.supply) == LedgerOf(v, b, sh)
    ensures NavForPricing(v, b, sh).Err? ==> NavForPricing(v, b, sh).error == BookAheadOfVault
  {
  }

  // ---------------------------------------------------------- one price

  /** The second ledger's price per share is at least the first's, without dividing. */
  predicate PriceAtLeast(low: Ledger, high: Ledger) {
    low.assets * high.supply <= high.assets * low.supply
  }

  lemma PriceOrderIsTransitive(a: Ledger, b: Ledger, c: Ledger)
    requires b.supply > 0 && PriceAtLeast(a, b) && PriceAtLeast(b, c)
    ensures PriceAtLeast(a, c)
  {
    calc {
      a.assets * c.supply * b.supply;
      { Reorder(a.assets, c.supply, b.supply); }
      a.assets * b.supply * c.supply;
      <= { MulMono(a.assets * b.supply, b.assets * a.supply, c.supply); }
      b.assets * a.supply * c.supply;
      { Reorder(b.assets, a.supply, c.supply); }
      b.assets * c.supply * a.supply;
      <= { MulMono(b.assets * c.supply, c.assets * b.supply, a.supply); }
      c.assets * b.supply * a.supply;
      { Reorder(c.assets, b.supply, a.supply); }
      c.assets * a.supply * b.supply;
    }
    MulCancel(a.assets * c.supply, c.assets * a.supply, b.supply);
  }

  lemma Reorder(x: int, y: int, z: int)
    ensures x * y * z == x * z * y
  {
  }

  function Bought(l: Ledger, amount: nat, shares: nat): Ledger {
    Ledger(l.assets + amount, l.supply + shares)
  }

  function Sold(l: Ledger, assets: nat, shares: nat): Ledger
    requires assets <= l.assets && shares <= l.supply
  {
    Ledger(l.assets - assets, l.supply - shares)
  }

  /** A deposit never lowers the price, and raises it by less than a factor 1 + 1/(supply after). */
  lemma DepositRoundsForThePool(l: Ledger, amount: nat)
    requires l.supply > 0 && l.assets > 0
    ensures var after := Bought(l, amount, MulDiv(amount, l.supply, l.assets));
      && PriceAtLeast(l, after)
      && after.assets * l.supply < l.assets * (after.supply + 1)
  {
    var f := MulDiv(amount, l.supply, l.assets);
    MulDivBounds(amount, l.supply, l.assets);
    Distribute(l.assets, amount, l.supply);
    Distribute(l.supply, f, l.assets);
    Distribute(l.supply + f, 1, l.assets);
  }

  /** A redemption never pays more than is there, never lowers the price of what is left, and
      raises it by less than 1/(supply after). Burning the whole supply pays everything. */
  lemma RedeemRoundsForThePool(l: Ledger, shares: nat)
    requires 0 < shares <= l.supply
    ensures var paid := MulDiv(shares, l.assets, l.supply);
      && paid <= l.assets
      && PriceAtLeast(l, Sold(l, paid, shares))
      && (l.assets - paid) * l.supply < l.assets * (l.supply - shares) + l.supply
      && (shares == l.supply ==> paid == l.assets)
  {
    var paid := MulDiv(shares, l.assets, l.supply);
    MulDivBounds(shares, l.assets, l.supply);
    MulMono(shares, l.supply, l.assets);
    MulCancel(paid, l.assets, l.supply);
    Distribute(l.assets, paid, l.supply);
    Distribute(l.supply, shares, l.assets);
    if shares == l.supply {
      MulDivUnique(shares, l.assets, l.supply, l.assets);
    }
  }

  /** Depositing and at once redeeming the minted shares returns at most what was put in,
      and loses less than one share's worth plus one unit. */
  lemma RoundTripBounds(l: Ledger, amount: nat)
    requires l.supply > 0 && l.assets > 0
    ensures var f := MulDiv(amount, l.supply, l.assets);
      var back := MulDiv(f, l.assets + amount, l.supply + f);
      && back <= amount
      && (amount - back) * (l.supply + f) < l.assets + (l.supply + f)
  {
    var n, s := l.assets, l.supply;
    var f := MulDiv(amount, s, n);
    MulDivBounds(amount, s, n);
    var t := s + f;
    var back := MulDiv(f, n + amount, t);
    MulDivBounds(f, n + amount, t);
    Distribute(n, amount, f);
    Distribute(s, f, amount);
    assert f * (n + amount) == f * n + f * amount;
    assert amount * t == amount * s + amount * f;
    MulCancel(back, amount, t);
    Distribute(amount, back, t);
  }

  /** Shares the simple ledger mints for `amount`: one to one when it is empty. */
  function MintedFor(l: Ledger, amount: nat): nat {
    if l.supply == 0 || l.assets == 0 then amount else MulDiv(amount, l.supply, l.assets)
  }

  /** Every way the simple ledger can move: a deposit, a redemption, yield, or nothing. */
  datatype Move = Buy(amount: nat) | Sell(shares: nat) | Earn(gain: nat)

  predicate CanMove(l: Ledger, m: Move) { m.Sell? ==> 0 < m.shares <= l.supply }

  function MovedBy(l: Ledger, m: Move): Ledger
    requires CanMove(l, m)
  {
    match m
    case Buy(amount) => Bought(l, amount, MintedFor(l, amount))
    case Sell(shares) =>
      RedeemRoundsForThePool(l, shares);
      Sold(l, MulDiv(shares, l.assets, l.supply), shares)
    case Earn(gain) => l.(assets := l.assets + gain)
  }

  /** No move lowers the price of a supply that is there. */
  lemma MovesKeepThePrice(l: Ledger, m: Move)
    requires l.supply > 0 && CanMove(l, m)
    ensures PriceAtLeast(l, MovedBy(l, m))
  {
    match m
    case Buy(amount) =>
      if l.assets > 0 {
        DepositRoundsForThePool(l, amount);
      }
    case Sell(shares) => RedeemRoundsForThePool(l, shares);
    case Earn(gain) => MulMono(l.assets, l.assets + gain, l.supply);
  }

  /** While assets equal supply, deposits and redemptions keep them equal: the price is exactly one. */
  lemma MovesKeepPar(l: Ledger, m: Move)
    requires l.assets == l.supply && CanMove(l, m) && (m.Earn? ==> m.gain == 0)
    ensures MovedBy(l, m).assets == MovedBy(l, m).supply
  {
    match m
    case Buy(amount) =>
      if l.assets > 0 {
        MulDivUnique(amount, l.supply, l.assets, amount);
      }
    case Sell(shares) => MulDivUnique(shares, l.assets, l.supply, shares);
    case Earn(_) =>
  }

  /** The price is at or above `floor`'s; and if the supply has run out, or no yield has been committed
      (`unearned`), `floor` is at par, so that a supply restarting at one to one is no worse. */
  predicate Upholds(floor: Ledger, l: Ledger, unearned: bool) {
    PriceAtLeast(floor, l) && (l.supply == 0 || unearned ==> floor.assets == floor.supply)
  }

  lemma MoveUpholds(floor: Ledger, l: Ledger, m: Move, unearned: bool)
    requires floor.supply > 0 && Upholds(floor, l, unearned) && CanMove(l, m)
    requires m.Sell? && !unearned ==> m.shares < l.supply
    ensures Upholds(floor, MovedBy(l, m), unearned)
  {
    var after := MovedBy(l, m);
    if l.supply > 0 {
      MovesKeepThePrice(l, m);
      PriceOrderIsTransitive(floor, l, after);
    } else {
      MulMono(after.supply, after.assets, floor.supply);
    }
  }

  lemma EarlierIsUnearned(floor: Ledger, l: Ledger, unearned: bool, later: bool)
    requires Upholds(floor, l, unearned) && (later ==> unearned)
    ensures Upholds(floor, l, later)
  {
  }

  // ------------------------------------------------------- redeeming it all

  function SumOf(burns: seq<nat>): nat {
    if |burns| == 0 then 0 else burns[0] + SumOf(burns[1..])
  }

  /** What each redemption in a row pays, by the shared formula. */
  function Payouts(l: Ledger, burns: seq<nat>): (paid: seq<nat>)
    requires SumOf(burns) <= l.supply && forall i :: 0 <= i < |burns| ==> burns[i] > 0
    ensures |paid| == |burns|
    decreases |burns|
  {
    if |burns| == 0 then []
    else
      RedeemRoundsForThePool(l, burns[0]);
      var first := MulDiv(burns[0], l.assets, l.supply);
      [first] + Payouts(Sold(l, first, burns[0]), burns[1..])
  }

  lemma QuoteRisesWithPrice(low: Ledger, high: Ledger, shares: nat)
    requires low.supply > 0 && high.supply > 0 && PriceAtLeast(low, high)
    ensures MulDiv(shares, low.assets, low.supply) <= MulDiv(shares, high.assets, high.supply)
  {
    var a, b := MulDiv(shares, low.assets, low.supply), MulDiv(shares, high.assets, high.supply);
    MulDivBounds(shares, low.assets, low.supply);
    MulDivBounds(shares, high.assets, high.supply);
    calc {
      a * high.supply * low.supply;
      { Reorder(a, high.supply, low.supply); }
      a * low.supply * high.supply;
      <= { MulMono(a * low.supply, shares * low.assets, high.supply); }
      shares * low.assets * high.supply;
      { Associate(shares, low.assets, high.supply); }
      (low.assets * high.supply) * shares;
      <= { MulMono(low.assets * high.supply, high.assets * low.supply, shares); }
      (high.assets * low.supply) * shares;
      { Associate(shares, high.assets, low.supply); }
      shares * high.assets * low.supply;
    }
    MulCancel(a * high.supply, shares * high.assets, low.supply);
    Distribute(b, 1, high.supply);
    MulCancelStrict(a, b + 1, high.supply);
  }

  lemma Associate(x: int, y: int, z: int)
    ensures x * y * z == (y * z) * x
  {
  }

  /** On one ledger, sales in any order each take out at least what they were quoted at the start. */
  lemma {:induction false} EachGetsTheirQuote(l: Ledger, burns: seq<nat>, k: nat)
    requires SumOf(burns) <= l.supply && forall i :: 0 <= i < |burns| ==> burns[i] > 0
    requires k < |burns|
    ensures Payouts(l, burns)[k] >= MulDiv(burns[k], l.assets, l.supply)
    decreases |burns|
  {
    RedeemRoundsForThePool(l, burns[0]);
    if k > 0 {
      var next := Sold(l, MulDiv(burns[0], l.assets, l.supply), burns[0]);
      EachGetsTheirQuote(next, burns[1..], k - 1);
      TotalCovers(burns[1..], k - 1);
      QuoteRisesWithPrice(l, next, burns[k]);
    }
  }

  lemma {:induction false} TotalCovers(burns: seq<nat>, k: nat)
    requires k < |burns|
    ensures burns[k] <= SumOf(burns)
  {
    if k > 0 {
      TotalCovers(burns[1..], k - 1);
    }
  }

  /** On one ledger, sales of the whole supply, however it is split and ordered, take out all its
      assets. The program only lets this happen when they are all in custody. */
  lemma {:induction false} BurningTheSupplyPaysTheNav(l: Ledger, burns: seq<nat>)
    requires SumOf(burns) == l.supply > 0 && forall i :: 0 <= i < |burns| ==> burns[i] > 0
    ensures SumOf(Payouts(l, burns)) == l.assets
    decreases |burns|
  {
    RedeemRoundsForThePool(l, burns[0]);
    var first := MulDiv(burns[0], l.assets, l.supply);
    var next := Sold(l, first, burns[0]);
    if |burns| > 1 {
      TotalCovers(burns[1..], 0);
      BurningTheSupplyPaysTheNav(next, burns[1..]);
    }
    assert Payouts(l, burns)[1..] == Payouts(next, burns[1..]);
  }
}
