/** What redeemers are paid over whole runs, and what one layer's flow does to the other's price. */
module Payouts {
  import opened Words
  import opened Arithmetic
  import opened Pools
  import opened Books
  import opened Pricing
  import opened Exits
  import opened Protocol
  import opened ProtocolProofs
  import opened Theorems
  import BaseLayer
  import P = Positions
  import Enc = Enclave
  import E = EnclaveProofs
  import T = Transactions

  // ------------------------------------------------------- quotes over runs

  /** What `shares` are worth on a ledger, to the unit below. */
  function QuoteFor(l: Ledger, shares: nat): nat { if l.supply == 0 then 0 else MulDiv(shares, l.assets, l.supply) }

  lemma QuotesFollowPrices(low: Ledger, high: Ledger, shares: nat)
    requires high.supply > 0 && PriceAtLeast(low, high)
    ensures QuoteFor(low, shares) <= QuoteFor(high, shares)
  {
    if low.supply > 0 {
      QuoteRisesWithPrice(low, high, shares);
    }
  }

  /** Between publications every public redemption that is accepted pays at least what its shares were
      quoted at on Solana at the start, whoever redeemed, deposited or moved privately before it. */
  lemma RedeemersGetTheirQuote(cfg: Setup, w: World, steps: seq<Step>, user: Pubkey, funds: u64, shares: u64)
    requires Inv(cfg, w) && InRange(w) && AllowedRun(cfg, w, steps) && Unpublished(steps)
    requires w.vault.shares + w.published.shares > 0
    requires var end := Run(cfg, w, steps);
      BaseLayer.Redeem(PurseOf(end, user, funds), end.committed, end.published, shares).Ok?
    ensures var end := Run(cfg, w, steps);
      BaseLayer.Redeem(PurseOf(end, user, funds), end.committed, end.published, shares).value.userUsdc - funds
        >= QuoteFor(SolanaLedger(w), shares)
  {
    hide E.Good, E.Surplus, EnclaveInv, SeenInv, AllowedRun, Run, MarksInv, BaseLayer.Redeem, LedgerOf;
    SolanaPriceNeverFalls(cfg, w, steps);
    var end := Run(cfg, w, steps);
    RangeGivesFit(cfg, end);
    BookParts(cfg, end);
    RedeemPays(PurseOf(end, user, funds), end.committed, end.published, shares);
    QuotesFollowPrices(SolanaLedger(w), SolanaLedger(end), shares);
  }

  /** While nobody deposits or redeems on Solana, every ticket is opened for at least what its shares
      were quoted at in the enclave at the start. */
  lemma ExitersGetTheirQuote(cfg: Setup, w: World, steps: seq<Step>, now: i64, p: P.Position, shares: u64, t: Exit)
    requires Inv(cfg, w) && InRange(w) && AllowedRun(cfg, w, steps)
    requires forall i :: 0 <= i < |steps| ==> NoPublicFlow(steps[i])
    requires w.vault.shares + w.enclave.shielded.shares > 0
    requires var end := Run(cfg, w, steps);
      && p.privateShares <= end.enclave.shielded.shares
      && Enc.OpenExit(EnvAt(cfg, end, now), p, end.enclave.shielded, end.enclave.slots, shares, t).Ok?
    ensures w.enclave.shielded.totalOut <= w.enclave.shielded.totalIn
    ensures var end := Run(cfg, w, steps);
      var (_, sh, _) := Enc.OpenExit(EnvAt(cfg, end, now), p, end.enclave.shielded, end.enclave.slots, shares, t).value;
      sh.totalOut - end.enclave.shielded.totalOut >= QuoteFor(EnclaveLedger(w), shares)
  {
    hide E.Surplus, SeenInv, AllowedRun, Run, MarksInv, BooksInv, Enc.OpenExit, LedgerOf, E.GoodRotations;
    EnclavePriceNeverFalls(cfg, w, steps);
    var end := Run(cfg, w, steps);
    RangeGivesFit(cfg, end);
    GoodAtAnyTime(cfg, end, now);
    var env := EnvAt(cfg, end, now);
    E.ExitIsASale(env, p, end.enclave.shielded, end.enclave.slots, shares, t);
    var (_, sh, _) := Enc.OpenExit(env, p, end.enclave.shielded, end.enclave.slots, shares, t).value;
    PrivateSharesInLedger(env, end.enclave.shielded, sh);
    QuotesFollowPrices(EnclaveLedger(w), EnclaveLedger(end), shares);
  }

  // ------------------------------------------------------ money in, money out

  /** USDC that came into both custodies, and that was paid or promised out of them, so far. */
  function CameIn(w: World): nat { w.vault.totalIn + w.enclave.shielded.totalIn }

  function WentOut(w: World): nat { w.vault.totalOut + w.enclave.shielded.totalOut }

  /** What one step pays its user: a redemption's USDC, or the tickets a transaction opens. */
  function Paid(cfg: Setup, w: World, step: Step): int {
    match step
    case Redeem(user, funds, shares) =>
      var r := BaseLayer.Redeem(PurseOf(w, user, funds), w.committed, w.published, shares);
      if r.Ok? then r.value.userUsdc - funds else 0
    case EnclaveTx(_, _) => Next(cfg, w, step).enclave.shielded.totalOut - w.enclave.shielded.totalOut
    case _ => 0
  }

  function PaidOver(cfg: Setup, w: World, steps: seq<Step>): int
    decreases |steps|
  {
    if |steps| == 0 then 0 else Paid(cfg, w, steps[0]) + PaidOver(cfg, Next(cfg, w, steps[0]), steps[1..])
  }

  lemma StepPays(cfg: Setup, w: World, step: Step)
    requires Inv(cfg, w) && InRange(w) && Allowed(cfg, w, step)
    ensures var next := Next(cfg, w, step);
      && WentOut(next) - WentOut(w) == Paid(cfg, w, step) >= 0
      && CameIn(next) >= CameIn(w)
  {
    hide E.Good, E.Surplus, SeenInv, BooksInv, MarksInv, EnclaveInv, T.StaysInRange, Enc.RunTransaction, NavForPricing;
    if step.EnclaveTx? {
      GoodAtAnyTime(cfg, w, step.now);
      T.TransactionKeepsGood(EnvAt(cfg, w, step.now), w.enclave, step.ixs, Ledger(0, 0));
    } else if step.Redeem? && Next(cfg, w, step) != w {
      RedeemCounts(w, step.user, step.funds, step.shares);
    }
  }

  lemma RedeemCounts(w: World, user: Pubkey, funds: u64, shares: u64)
    requires w.vault.totalOut <= w.vault.totalIn && w.vaultUsdc == w.vault.totalIn - w.vault.totalOut
    requires BaseLayer.Redeem(PurseOf(w, user, funds), w.committed, w.published, shares).Ok?
    ensures var r := BaseLayer.Redeem(PurseOf(w, user, funds), w.committed, w.published, shares).value;
      r.vault.totalOut - w.vault.totalOut == r.userUsdc - funds >= 0
  {
  }

  lemma {:induction false} RunPays(cfg: Setup, w: World, steps: seq<Step>)
    requires Inv(cfg, w) && InRange(w) && AllowedRun(cfg, w, steps)
    ensures var end := Run(cfg, w, steps);
      && Inv(cfg, end) && InRange(end)
      && WentOut(end) - WentOut(w) == PaidOver(cfg, w, steps)
      && CameIn(end) >= CameIn(w)
    decreases |steps|
  {
    hide Inv, InRange, Next, Allowed, Paid, CameIn, WentOut;
    if |steps| > 0 {
      StepPays(cfg, w, steps[0]);
      NextKeepsInv(cfg, w, steps[0]);
      RunPays(cfg, Next(cfg, w, steps[0]), steps[1..]);
    }
  }

  /** What both custodies hold for shareholders, beside the open tickets. */
  function Custodied(w: World): int { CameIn(w) - WentOut(w) }

  lemma NavIsCustodyAndYield(cfg: Setup, w: World)
    requires Inv(cfg, w)
    ensures w.enclave.shielded.totalOut <= w.enclave.shielded.totalIn
    ensures EnclaveLedger(w).assets == Custodied(w) + Yield(w.committed)
    ensures Custodied(w) == w.vaultUsdc + w.enclave.shielded.totalIn - w.enclave.shielded.totalOut >= 0
    ensures Yield(w.committed) == 0 ==> EnclaveLedger(w).assets == EnclaveLedger(w).supply
  {
    hide E.Surplus, SeenInv, MarksInv, BooksInv;
    GoodParts(cfg, w);
  }

  /** Redemptions and tickets are paid out of the custodies only: over any run they come to at most
      the NAV at the start less its yield, plus what was deposited on the way. */
  lemma PayoutsStayWithinCustody(cfg: Setup, w: World, steps: seq<Step>)
    requires Inv(cfg, w) && InRange(w) && AllowedRun(cfg, w, steps)
    ensures w.enclave.shielded.totalOut <= w.enclave.shielded.totalIn
    ensures PaidOver(cfg, w, steps)
      <= EnclaveLedger(w).assets - Yield(w.committed) + CameIn(Run(cfg, w, steps)) - CameIn(w)
  {
    hide Inv, InRange, AllowedRun, Run;
    RunPays(cfg, w, steps);
    NavIsCustodyAndYield(cfg, w);
    NavIsCustodyAndYield(cfg, Run(cfg, w, steps));
  }

  /** A run that redeems every share there is, public and private, without committing more yield, pays
      the NAV at the start, and what was deposited on the way, if and only if no yield was committed. */
  lemma EmptyingPaysTheNavIff(cfg: Setup, w: World, steps: seq<Step>)
    requires Inv(cfg, w) && InRange(w) && AllowedRun(cfg, w, steps)
    requires var end := Run(cfg, w, steps);
      end.vault.shares + end.enclave.shielded.shares == 0 && Yield(end.committed) == Yield(w.committed)
    ensures w.enclave.shielded.totalOut <= w.enclave.shielded.totalIn
    ensures PaidOver(cfg, w, steps) == EnclaveLedger(w).assets + CameIn(Run(cfg, w, steps)) - CameIn(w)
      <==> Yield(w.committed) == 0
  {
    hide Inv, InRange, AllowedRun, Run;
    RunPays(cfg, w, steps);
    NavIsCustodyAndYield(cfg, w);
    NavIsCustodyAndYield(cfg, Run(cfg, w, steps));
    FlowPositive(cfg, Run(cfg, w, steps));
  }

  // ------------------------------------------ public flow and the private price

  /** Public flow moves the enclave's ledger at Solana's price, not at the enclave's own: a deposit
      leaves the private price at or above where it was if and only if it mints at most what the
      enclave would, and a redemption if and only if it pays at most that. */
  lemma PublicFlowAndThePrivatePrice(cfg: Setup, w: World, step: Step)
    requires Inv(cfg, w) && InRange(w) && Allowed(cfg, w, step)
    requires (step.Deposit? || step.Redeem?) && Next(cfg, w, step) != w
    ensures var next := Next(cfg, w, step);
      && Inv(cfg, next)
      && next.enclave == w.enclave && next.vault.totalOut <= next.vault.totalIn
      && w.enclave.shielded.totalOut <= w.enclave.shielded.totalIn
    ensures var l, m := EnclaveLedger(w), EnclaveLedger(Next(cfg, w, step));
      match step
      case Deposit(_, _, amount) =>
        var minted := MintedFor(SolanaLedger(w), amount);
        && m == Bought(l, amount, minted)
        && (PriceAtLeast(l, m) <==> minted * l.assets <= amount * l.supply)
      case Redeem(_, _, shares) =>
        var paid := QuoteFor(SolanaLedger(w), shares);
        && paid <= l.assets && shares <= l.supply
        && m == Sold(l, paid, shares)
        && (PriceAtLeast(l, m) <==> paid * l.supply <= shares * l.assets)
  {
    hide E.Good, E.Surplus, EnclaveInv, SeenInv, BooksInv, MarksInv, BaseLayer.Deposit, BaseLayer.Redeem, LedgerOf;
    EnclaveFlowPositive(cfg, w);
    var l, next := EnclaveLedger(w), Next(cfg, w, step);
    match step
    case Deposit(user, funds, amount) =>
      DepositStep(cfg, w, user, funds, amount);
      ViewsMoveTogether(w, next);
      Distribute(l.assets, amount, l.supply);
      Distribute(l.supply, MintedFor(SolanaLedger(w), amount), l.assets);
    case Redeem(user, funds, shares) =>
      RedeemStep(cfg, w, user, funds, shares);
      ViewsMoveTogether(w, next);
      Distribute(l.assets, QuoteFor(SolanaLedger(w), shares), l.supply);
      Distribute(l.supply, shares, l.assets);
  }

  /** So a public redemption spares the private price whenever that is at or above Solana's, and a
      deposit whenever it is at or below. */
  lemma PublicFlowSpares(cfg: Setup, w: World, step: Step)
    requires Inv(cfg, w) && InRange(w) && Allowed(cfg, w, step)
    requires (step.Deposit? || step.Redeem?) && Next(cfg, w, step) != w
    requires SolanaLedger(w).supply > 0 && SolanaLedger(w).assets > 0
    requires w.enclave.shielded.totalOut <= w.enclave.shielded.totalIn
    requires step.Redeem? ==> PriceAtLeast(SolanaLedger(w), EnclaveLedger(w))
    requires step.Deposit? ==> PriceAtLeast(EnclaveLedger(w), SolanaLedger(w))
    ensures Next(cfg, w, step).vault.totalOut <= Next(cfg, w, step).vault.totalIn
    ensures Next(cfg, w, step).enclave == w.enclave
    ensures PriceAtLeast(EnclaveLedger(w), EnclaveLedger(Next(cfg, w, step)))
  {
    hide Inv, InRange, Allowed, Next, LedgerOf;
    PublicFlowAndThePrivatePrice(cfg, w, step);
    FlowPositive(cfg, w);
    var s, l := SolanaLedger(w), EnclaveLedger(w);
    match step
    case Deposit(_, _, amount) => FloorUnderPrice(amount, s.supply, s.assets, l.supply, l.assets);
    case Redeem(_, _, shares) => FloorUnderPrice(shares, s.assets, s.supply, l.assets, l.supply);
  }

  lemma FloorUnderPrice(x: nat, a: nat, b: nat, c: nat, d: nat)
    requires b > 0 && a * d <= c * b
    ensures MulDiv(x, a, b) * d <= x * c
  {
    var q := MulDiv(x, a, b);
    MulDivBounds(x, a, b);
    calc {
      q * d * b;
      { Reorder(q, d, b); }
      q * b * d;
      <= { MulMono(q * b, x * a, d); }
      x * a * d;
      { Associate(x, a, d); }
      a * d * x;
      <= { MulMono(a * d, c * b, x); }
      c * b * x;
      { Associate(x, c, b); }
      x * c * b;
    }
    MulCancel(q * d, x * c, b);
  }

  lemma ViewsMoveTogether(w: World, next: World)
    requires w.vault.totalOut <= w.vault.totalIn && w.published.totalOut <= w.published.totalIn
    requires w.enclave.shielded.totalOut <= w.enclave.shielded.totalIn && next.vault.totalOut <= next.vault.totalIn
    requires next.committed == w.committed && next.published == w.published && next.enclave == w.enclave
    ensures EnclaveLedger(next).assets - EnclaveLedger(w).assets == SolanaLedger(next).assets - SolanaLedger(w).assets
    ensures EnclaveLedger(next).supply - EnclaveLedger(w).supply == SolanaLedger(next).supply - SolanaLedger(w).supply
  {
  }
}
