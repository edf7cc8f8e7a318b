/** USDC sent straight to the vault's account: what it does to the vault's books, over any run of the
    system at all, and exactly when a redemption can draw on it. */
module Donations {
  import opened Words
  import opened Arithmetic
  import opened Pools
  import opened Books
  import opened Pricing
  import opened Sums
  import opened Protocol
  import opened ProtocolProofs
  import opened StaleViews
  import BaseLayer
  import Enc = Enclave

  /** The vault's counters do not reach the end of a u64. */
  predicate Counts(w: World) {
    w.vault.totalIn < U64_MAX && w.vault.totalOut < U64_MAX && w.vault.shares < U64_MAX
  }

  /** Nothing is assumed of the run but that: donations, any keeper and any custody key are allowed. */
  predicate CountingRun(cfg: Setup, w: World, steps: seq<Step>)
    decreases |steps|
  {
    |steps| == 0 || (Counts(Next(cfg, w, steps[0])) && CountingRun(cfg, Next(cfg, w, steps[0]), steps[1..]))
  }

  /** The vault holds what came in and was donated, less what went out, and its supply is the agYLD
      people hold. */
  ghost predicate CashAddsUp(w: World) {
    && w.vaultUsdc + w.vault.totalOut == w.vault.totalIn + w.donated
    && w.vault.shares == w.agyldSupply == Total(w.agyld)
  }

  lemma StepKeepsCash(cfg: Setup, w: World, step: Step)
    requires CashAddsUp(w) && Counts(Next(cfg, w, step))
    ensures CashAddsUp(Next(cfg, w, step))
  {
    hide NavForPricing, BaseLayer.Deposit, BaseLayer.Redeem, Enc.RunTransaction, Tick, Absorb, SetApr, Unabsorbed;
    var next := Next(cfg, w, step);
    match step
    case Deposit(user, funds, amount) => DepositCounts(w, PurseOf(w, user, funds), user, amount);
    case Redeem(user, funds, shares) => RedeemCounts(w, PurseOf(w, user, funds), user, shares);
    case TransferAgyld(from, to, amount) =>
      if next != w {
        AgyldMoves(w.agyld, from, to, Held(w.agyld, from) - amount, Held(w.agyld, to) + amount);
      }
    case _ =>
  }

  lemma DepositCounts(w: World, p: BaseLayer.Purse, user: Pubkey, amount: u64)
    requires CashAddsUp(w) && p == PurseOf(w, user, p.userUsdc)
    ensures var r := BaseLayer.Deposit(p, w.committed, w.published, amount);
      r.Ok? && Counts(WithPurse(w, user, r.value)) ==> CashAddsUp(WithPurse(w, user, r.value))
  {
    hide NavForPricing, SharesFor;
    var r := BaseLayer.Deposit(p, w.committed, w.published, amount);
    if r.Ok? {
      TotalAfterUpdate(w.agyld, user, r.value.userAgyld);
    }
  }

  lemma RedeemCounts(w: World, p: BaseLayer.Purse, user: Pubkey, shares: u64)
    requires CashAddsUp(w) && p == PurseOf(w, user, p.userUsdc)
    ensures var r := BaseLayer.Redeem(p, w.committed, w.published, shares);
      r.Ok? && Counts(WithPurse(w, user, r.value)) ==> CashAddsUp(WithPurse(w, user, r.value))
  {
    hide NavForPricing, AssetsFor;
    var r := BaseLayer.Redeem(p, w.committed, w.published, shares);
    if r.Ok? {
      TotalAfterUpdate(w.agyld, user, r.value.userAgyld);
    }
  }

  lemma {:induction false} RunKeepsCash(cfg: Setup, w: World, steps: seq<Step>)
    requires CashAddsUp(w) && CountingRun(cfg, w, steps)
    ensures CashAddsUp(Run(cfg, w, steps))
    decreases |steps|
  {
    hide CashAddsUp, Next, Counts;
    if |steps| > 0 {
      StepKeepsCash(cfg, w, steps[0]);
      RunKeepsCash(cfg, Next(cfg, w, steps[0]), steps[1..]);
    }
  }

  /** In every state of every run from the set-up, whoever misbehaves, the vault's cash adds up; so its
      outflow is within its inflow and the donations. */
  lemma OutflowIsInflowOrDonation(cfg: Setup, entries: PoolSet, now: i64, steps: seq<Step>)
    requires CountingRun(cfg, Initial(cfg, entries, now), steps)
    ensures var w := Run(cfg, Initial(cfg, entries, now), steps);
      CashAddsUp(w) && w.vault.totalOut <= w.vault.totalIn + w.donated
  {
    RunKeepsCash(cfg, Initial(cfg, entries, now), steps);
  }

  // ------------------------------------------------- when a redemption overdraws

  predicate Overdraws(p: BaseLayer.Purse, b: Book, sh: Shielded, shares: u64) {
    var r := BaseLayer.Redeem(p, b, sh, shares);
    r.Ok? && r.value.vault.totalOut > p.vault.totalIn
  }

  /** The fewest shares that are quoted at more than `cash`. */
  function FewestAbove(q: Quote, cash: nat): nat
    requires q.nav > 0
  {
    ProductIsNat(cash + 1, q.supply);
    ((cash + 1) * q.supply + q.nav - 1) / q.nav
  }

  lemma FewestAboveIsFewest(q: Quote, cash: nat, shares: nat)
    requires q.nav > 0 && q.supply > 0
    ensures MulDiv(shares, q.nav, q.supply) > cash <==> shares >= FewestAbove(q, cash)
  {
    var quote, n, x := MulDiv(shares, q.nav, q.supply), FewestAbove(q, cash), (cash + 1) * q.supply;
    MulDivBounds(shares, q.nav, q.supply);
    CeilingIsLeast(x, q.nav, shares);
    if quote > cash {
      MulMono(cash + 1, quote, q.supply);
    } else {
      MulMono(quote, cash, q.supply);
      Distribute(cash, 1, q.supply);
    }
  }

  lemma CeilingIsLeast(x: nat, d: nat, n: nat)
    requires d > 0
    ensures x <= n * d <==> (x + d - 1) / d <= n
  {
    var c := (x + d - 1) / d;
    assert x + d - 1 == c * d + (x + d - 1) % d;
    if c <= n {
      MulMono(c, n, d);
    } else {
      MulMono(n + 1, c, d);
      Distribute(n, 1, d);
    }
  }

  /** Read off before the call: the user holds enough shares to be quoted more than came in and has
      not gone out, and the vault's account holds that quote. */
  predicate CanOverdraw(p: BaseLayer.Purse, q: Quote)
    requires p.vault.totalOut <= p.vault.totalIn
  {
    && q.nav > 0 && q.supply > 0
    && var n := FewestAbove(q, p.vault.totalIn - p.vault.totalOut);
    && n <= p.vault.shares && n <= p.userAgyld && n <= p.agyldSupply
    && MulDiv(n, q.nav, q.supply) <= p.vaultUsdc
  }

  /** Some redemption of this user takes outflow above inflow if and only if that holds. */
  lemma OverdrawIff(p: BaseLayer.Purse, b: Book, sh: Shielded)
    requires p.vault.totalOut <= p.vault.totalIn < U64_MAX && NavForPricing(p.vault, b, sh).Ok?
    requires p.userUsdc + p.vaultUsdc <= U64_MAX
    ensures (exists shares: u64 :: Overdraws(p, b, sh, shares))
      <==> CanOverdraw(p, NavForPricing(p.vault, b, sh).value)
  {
    hide NavForPricing, FewestAbove;
    var q := NavForPricing(p.vault, b, sh).value;
    var cash := p.vault.totalIn - p.vault.totalOut;
    if shares: u64 :| Overdraws(p, b, sh, shares) {
      OverdrawingIsAbove(p, b, sh, shares);
      FewestAboveIsFewest(q, cash, shares);
      var n := FewestAbove(q, cash);
      MulDivBounds(n, q.nav, q.supply);
      MulDivBounds(shares, q.nav, q.supply);
      MulMono(n, shares, q.nav);
      QuoteMonotone(n, shares, q.nav, q.supply);
    }
    if CanOverdraw(p, q) {
      var n := FewestAbove(q, cash);
      FewestAboveIsFewest(q, cash, n);
      FewestAboveIsFewest(q, cash, 0);
      NothingIsQuotedNothing(q);
      assert Overdraws(p, b, sh, n);
    }
  }

  lemma OverdrawingIsAbove(p: BaseLayer.Purse, b: Book, sh: Shielded, shares: u64)
    requires p.vault.totalOut <= p.vault.totalIn < U64_MAX && Overdraws(p, b, sh, shares)
    ensures var q := NavForPricing(p.vault, b, sh).value;
      && q.supply > 0 && q.nav > 0
      && p.vault.totalIn - p.vault.totalOut < MulDiv(shares, q.nav, q.supply) <= p.vaultUsdc
      && shares <= p.vault.shares && shares <= p.userAgyld && shares <= p.agyldSupply
  {
    hide NavForPricing, MulDiv;
    NothingIsWorthNothing(shares, NavForPricing(p.vault, b, sh).value);
  }

  lemma NothingIsWorthNothing(shares: u64, q: Quote)
    ensures q.supply > 0 && q.nav == 0 ==> MulDiv(shares, q.nav, q.supply) == 0
  {
  }

  lemma NothingIsQuotedNothing(q: Quote)
    requires q.supply > 0
    ensures MulDiv(0, q.nav, q.supply) == 0
  {
  }

  lemma QuoteMonotone(n: nat, m: nat, a: nat, b: nat)
    requires n <= m && b > 0
    ensures MulDiv(n, a, b) <= MulDiv(m, a, b)
  {
    MulDivBounds(n, a, b);
    MulDivBounds(m, a, b);
    MulMono(n, m, a);
    Distribute(MulDiv(m, a, b), 1, b);
    MulCancelStrict(MulDiv(n, a, b), MulDiv(m, a, b) + 1, b);
  }

  /** Without a donation nobody ever can. */
  lemma OnlyDonationsAreOverdrawn(w: World, user: Pubkey, funds: u64, q: Quote)
    requires CashAddsUp(w) && w.vault.totalOut <= w.vault.totalIn && CanOverdraw(PurseOf(w, user, funds), q)
    ensures w.donated > 0
  {
    FewestAboveIsFewest(q, w.vault.totalIn - w.vault.totalOut, FewestAbove(q, w.vault.totalIn - w.vault.totalOut));
  }

  /** A reachable state, one donation and one redemption: 20 has gone out of a vault that took in 10. */
  lemma DonationUnbalancesTheVault(c: Cast)
    requires GoodCast(c)
    ensures Reached(c, Earned(c))
    ensures var given := Next(c.cfg, Earned(c), Donate(10));
      && CanOverdraw(PurseOf(given, c.user, 0), Quote(20, 10))
      && Next(c.cfg, given, Redeem(c.user, 0, 10)).vault == Vault(0, 10, 20)
  {
    EarnedIsReached(c);
    RedeemsTheDonation(c);
  }

  lemma RedeemsTheDonation(c: Cast)
    ensures var given := Next(c.cfg, Earned(c), Donate(10));
      && CanOverdraw(PurseOf(given, c.user, 0), Quote(20, 10))
      && Next(c.cfg, given, Redeem(c.user, 0, 10)).vault == Vault(0, 10, 20)
  {
    var given := Next(c.cfg, Earned(c), Donate(10));
    assert given.vault == Vault(10, 10, 0) && given.vaultUsdc == 20;
    assert NavForPricing(given.vault, given.committed, given.published) == Ok(Quote(20, 10));
    assert AssetsFor(10, Quote(20, 10)) == Ok(20);
    assert FewestAbove(Quote(20, 10), 10) == 6 && MulDiv(6, 20, 10) == 12;
  }
}
