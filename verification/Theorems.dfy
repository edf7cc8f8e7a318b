/** The main results, about every state of every run of the two-layer vault. */
module Theorems {
  import opened Words
  import opened Arithmetic
  import opened Pools
  import opened Books
  import opened Pricing
  import opened Exits
  import opened Protocol
  import Sums
  import opened ProtocolProofs
  import BaseLayer
  import P = Positions
  import Enc = Enclave
  import E = EnclaveProofs
  import T = Transactions
  import S = Session
  import I = Instructions
  import R = BookRuns

  /** The end of an allowed run from the vault's set-up, with empty pools of any rates and weights. */
  ghost predicate Reaches(cfg: Setup, entries: PoolSet, now: i64, steps: seq<Step>, w: World) {
    && (forall i :: 0 <= i < POOL_COUNT ==> entries[i].principal == 0 && entries[i].accrued == 0)
    && AllowedRun(cfg, Initial(cfg, entries, now), steps)
    && w == Run(cfg, Initial(cfg, entries, now), steps)
  }

  lemma ReachableIsGood(cfg: Setup, entries: PoolSet, now: i64, steps: seq<Step>, w: World)
    requires Reaches(cfg, entries, now, steps, w)
    ensures Inv(cfg, w) && InRange(w)
  {
    hide Inv, InRange;
    InitialHolds(cfg, entries, now);
    RunKeepsInv(cfg, Initial(cfg, entries, now), steps);
  }

  // ------------------------------------------------------------ one ledger

  function QuoteOf(l: Ledger): Quote
    requires l.assets <= U64_MAX && l.supply <= U64_MAX
  {
    Quote(l.assets, l.supply)
  }

  /** In every reachable state both layers can price, and what they price with is one simple ledger:
      everything that came in, less everything that went out, plus the committed yield, over all
      shares that view can see. `BookAheadOfVault` is never raised. */
  lemma BothLayersPriceOneLedger(cfg: Setup, entries: PoolSet, now: i64, steps: seq<Step>, w: World)
    requires Reaches(cfg, entries, now, steps, w)
    ensures w.vault.totalOut <= w.vault.totalIn
    ensures w.published.totalOut <= w.published.totalIn && w.enclave.shielded.totalOut <= w.enclave.shielded.totalIn
    ensures SolanaLedger(w).assets < U64_MAX && SolanaLedger(w).supply < U64_MAX
    ensures EnclaveLedger(w).assets < U64_MAX && EnclaveLedger(w).supply < U64_MAX
    ensures NavForPricing(w.vault, w.committed, w.published) == Ok(QuoteOf(SolanaLedger(w)))
    ensures NavForPricing(w.vault, w.committed, w.enclave.shielded) == Ok(QuoteOf(EnclaveLedger(w)))
  {
    ReachableIsGood(cfg, entries, now, steps, w);
    ViewsPrice(cfg, w);
  }

  lemma ViewsPrice(cfg: Setup, w: World)
    requires Inv(cfg, w) && InRange(w)
    ensures w.vault.totalOut <= w.vault.totalIn
    ensures w.published.totalOut <= w.published.totalIn && w.enclave.shielded.totalOut <= w.enclave.shielded.totalIn
    ensures SolanaLedger(w).assets < U64_MAX && SolanaLedger(w).supply < U64_MAX
    ensures EnclaveLedger(w).assets < U64_MAX && EnclaveLedger(w).supply < U64_MAX
    ensures NavForPricing(w.vault, w.committed, w.published) == Ok(QuoteOf(SolanaLedger(w)))
    ensures NavForPricing(w.vault, w.committed, w.enclave.shielded) == Ok(QuoteOf(EnclaveLedger(w)))
  {
    hide NavForPricing, E.Good, E.Surplus, SeenInv;
    GoodParts(cfg, w);
    RangeGivesFit(cfg, w);
    PricingIsTheLedger(w.vault, w.committed, w.published);
    PricingIsTheLedger(w.vault, w.committed, w.enclave.shielded);
  }

  /** Neither layer ever prices a live supply at zero: the branch that mints one to one on a zero
      NAV is only taken when there are no shares, so nobody's shares are diluted by it. */
  lemma ZeroNavMeansNoShares(cfg: Setup, entries: PoolSet, now: i64, steps: seq<Step>, w: World)
    requires Reaches(cfg, entries, now, steps, w)
    ensures var q := NavForPricing(w.vault, w.committed, w.published);
      q.Ok? && (q.value.nav == 0 ==> q.value.supply == 0)
    ensures var q := NavForPricing(w.vault, w.committed, w.enclave.shielded);
      q.Ok? && (q.value.nav == 0 ==> q.value.supply == 0)
  {
    hide NavForPricing, E.Good, E.Surplus, SeenInv;
    ReachableIsGood(cfg, entries, now, steps, w);
    ViewsPrice(cfg, w);
    GoodParts(cfg, w);
  }

  /** A public redemption never aborts on an empty supply and is never refused for a book ahead of
      the vault; it is refused only for the user's own amount, balance or for missing liquidity. */
  lemma RedeemFailsOnlyForTheUser(cfg: Setup, entries: PoolSet, now: i64, steps: seq<Step>, w: World,
                                  user: Pubkey, funds: u64, shares: u64)
    requires Reaches(cfg, entries, now, steps, w)
    ensures var r := BaseLayer.Redeem(PurseOf(w, user, funds), w.committed, w.published, shares);
      r.Err? ==> r.error in {ZeroAmount, InsufficientShares, InsufficientLiquidity, TokenProgram}
  {
    hide E.Good, E.Surplus, SeenInv, NavForPricing;
    ReachableIsGood(cfg, entries, now, steps, w);
    ViewsPrice(cfg, w);
    if 0 < shares <= w.vault.shares {
      RedeemRoundsForThePool(SolanaLedger(w), shares);
    }
  }

  /** The same in the enclave: burning private shares never aborts on an empty supply and is never
      refused for a book ahead of the vault. */
  lemma ExitFailsOnlyForTheUser(cfg: Setup, entries: PoolSet, start: i64, steps: seq<Step>, w: World, now: i64,
                                position: Pubkey, shares: u64, t: Exit)
    requires Reaches(cfg, entries, start, steps, w) && position in w.enclave.positions
    ensures var e := w.enclave;
      var r := Enc.OpenExit(EnvAt(cfg, w, now), e.positions[position], e.shielded, e.slots, shares, t);
      r.Err? ==> r.error in {ZeroAmount, BadExitParams, InsufficientShares, DustDeposit, InsufficientLiquidity,
                             ExitBookFull, MathOverflow}
  {
    hide E.GoodRotations, E.Surplus, SeenInv, MarksInv, BooksInv, NavForPricing, GoodSlots, LedgerOf;
    ReachableIsGood(cfg, entries, start, steps, w);
    ViewsPrice(cfg, w);
    E.SharesAfterUpdate(w.enclave.positions, position, w.enclave.positions[position]);
    EnclaveSupply(w);
  }

  lemma EnclaveSupply(w: World)
    requires w.vault.totalOut <= w.vault.totalIn && w.enclave.shielded.totalOut <= w.enclave.shielded.totalIn
    ensures EnclaveLedger(w).supply == w.vault.shares + w.enclave.shielded.shares
  {
  }

  // ------------------------------------------------------------ one price

  /** What each step does to the ledger Solana prices on: a deposit buys, a redemption sells, a book
      commit earns exactly the newly committed yield, and no other step moves it, except publishing
      the private aggregate, which switches it to the enclave's. */
  lemma SolanaFollowsTheLedger(cfg: Setup, w: World, step: Step)
    requires Inv(cfg, w) && InRange(w) && Allowed(cfg, w, step)
    ensures Inv(cfg, Next(cfg, w, step))
    ensures var l, after := SolanaLedger(w), SolanaLedger(Next(cfg, w, step));
      match step
      case Deposit(_, _, amount) => after == l || after == MovedBy(l, Buy(amount))
      case Redeem(_, _, shares) => after == l || (CanMove(l, Sell(shares)) && after == MovedBy(l, Sell(shares)))
      case CommitBook =>
        Yield(w.live) >= Yield(w.committed) && after == MovedBy(l, Earn(Yield(w.live) - Yield(w.committed)))
      case CommitShielded => after == EnclaveLedger(w)
      case _ => after == l
  {
    hide E.Good, E.Surplus, SeenInv, MovedBy, EnclaveInv;
    NextKeepsInv(cfg, w, step);
    EnclaveFlowPositive(cfg, w);
    match step
    case Deposit(user, funds, amount) => DepositStep(cfg, w, user, funds, amount);
    case Redeem(user, funds, shares) => RedeemStep(cfg, w, user, funds, shares);
    case CommitBook => CommitBookStep(cfg, w);
    case MigrateBook => MigrateStep(cfg, w);
    case _ =>
  }

  lemma EnclaveFlowPositive(cfg: Setup, w: World)
    requires Inv(cfg, w)
    ensures w.enclave.shielded.totalOut <= w.enclave.shielded.totalIn
  {
    GoodParts(cfg, w);
  }

  lemma FlowPositive(cfg: Setup, w: World)
    requires Inv(cfg, w)
    ensures w.vault.totalOut <= w.vault.totalIn && w.published.totalOut <= w.published.totalIn
  {
  }

  /** No step publishes the private aggregate. */
  predicate Unpublished(steps: seq<Step>) { forall i :: 0 <= i < |steps| ==> !steps[i].CommitShielded? }

  /** While yield has been committed no public redemption burns the last share Solana sees: it would
      pay more than the vault holds. */
  lemma RedeemLeavesSupply(cfg: Setup, w: World, user: Pubkey, funds: u64, shares: u64)
    requires Inv(cfg, w) && InRange(w) && Yield(w.committed) > 0
    requires BaseLayer.Redeem(PurseOf(w, user, funds), w.committed, w.published, shares).Ok?
    ensures shares < SolanaLedger(w).supply
  {
    hide E.Good, E.Surplus, EnclaveInv, SeenInv;
    RangeGivesFit(cfg, w);
    BookParts(cfg, w);
    PricingIsTheLedger(w.vault, w.committed, w.published);
    RedeemRoundsForThePool(SolanaLedger(w), shares);
  }

  lemma SolanaStepUpholds(cfg: Setup, w: World, step: Step, floor: Ledger)
    requires Inv(cfg, w) && InRange(w) && Allowed(cfg, w, step) && !step.CommitShielded?
    requires floor.supply > 0 && Upholds(floor, SolanaLedger(w), Yield(w.committed) == 0)
    ensures var next := Next(cfg, w, step);
      Inv(cfg, next) && Upholds(floor, SolanaLedger(next), Yield(next.committed) == 0)
  {
    hide Inv, InRange, Allowed, MovedBy, LedgerOf, Upholds, Yield;
    SolanaFollowsTheLedger(cfg, w, step);
    FlowPositive(cfg, w);
    FlowPositive(cfg, Next(cfg, w, step));
    var l, unearned := SolanaLedger(w), Yield(w.committed) == 0;
    match step
    case Deposit(_, _, amount) => MoveUpholds(floor, l, Buy(amount), unearned);
    case Redeem(user, funds, shares) =>
      if BaseLayer.Redeem(PurseOf(w, user, funds), w.committed, w.published, shares).Ok? && CanMove(l, Sell(shares)) {
        if !unearned {
          RedeemLeavesSupply(cfg, w, user, funds, shares);
        }
        MoveUpholds(floor, l, Sell(shares), unearned);
      }
    case CommitBook =>
      MoveUpholds(floor, l, Earn(Yield(w.live) - Yield(w.committed)), unearned);
      EarlierIsUnearned(floor, SolanaLedger(Next(cfg, w, step)), unearned, Yield(w.live) == 0);
    case _ =>
  }

  lemma {:induction false} SolanaRunUpholds(cfg: Setup, w: World, steps: seq<Step>, floor: Ledger)
    requires Inv(cfg, w) && InRange(w) && AllowedRun(cfg, w, steps) && Unpublished(steps)
    requires floor.supply > 0 && Upholds(floor, SolanaLedger(w), Yield(w.committed) == 0)
    ensures var end := Run(cfg, w, steps);
      Inv(cfg, end) && InRange(end) && Upholds(floor, SolanaLedger(end), Yield(end.committed) == 0)
    decreases |steps|
  {
    hide Inv, InRange, Next, LedgerOf, Upholds, Allowed, Yield;
    FlowPositive(cfg, w);
    if |steps| > 0 {
      SolanaStepUpholds(cfg, w, steps[0], floor);
      NextKeepsInv(cfg, w, steps[0]);
      SolanaRunUpholds(cfg, Next(cfg, w, steps[0]), steps[1..], floor);
    }
  }

  /** Between two publications of the private aggregate, Solana's share price never falls from a state
      with shares outstanding, whatever deposits, redemptions, ticks, absorbs, rate changes, commits,
      migrations and private transactions interleave: not even when every share Solana sees is
      redeemed on the way and the supply starts again. */
  lemma SolanaPriceNeverFalls(cfg: Setup, w: World, steps: seq<Step>)
    requires Inv(cfg, w) && InRange(w) && AllowedRun(cfg, w, steps) && Unpublished(steps)
    requires w.vault.shares + w.published.shares > 0
    ensures Inv(cfg, Run(cfg, w, steps)) && InRange(Run(cfg, w, steps))
    ensures PriceAtLeast(SolanaLedger(w), SolanaLedger(Run(cfg, w, steps)))
  {
    hide EnclaveInv, SeenInv, BooksInv, MarksInv, InRange, Next, AllowedRun, Run;
    LedgerSupply(w);
    SolanaRunUpholds(cfg, w, steps, SolanaLedger(w));
  }

  lemma LedgerSupply(w: World)
    requires w.vault.totalOut <= w.vault.totalIn && w.published.totalOut <= w.published.totalIn
    ensures SolanaLedger(w).supply == w.vault.shares + w.published.shares
  {
  }

  // ----------------------------------------------- the private price and the public one

  /** Steps that move no shares or USDC of the public side. */
  predicate NoPublicFlow(step: Step) { !step.Deposit? && !step.Redeem? }

  ghost predicate EnclaveUpholds(cfg: Setup, w: World, floor: Ledger) {
    && E.EnvOk(EnvAt(cfg, w, 0)) && E.CanPrice(EnvAt(cfg, w, 0), w.enclave.shielded)
    && T.PricedFrom(EnvAt(cfg, w, 0), floor, w.enclave.shielded)
  }

  lemma EnclaveStepUpholds(cfg: Setup, w: World, step: Step, floor: Ledger)
    requires Inv(cfg, w) && InRange(w) && Allowed(cfg, w, step) && NoPublicFlow(step)
    requires EnclaveUpholds(cfg, w, floor)
    ensures var next := Next(cfg, w, step);
      && Inv(cfg, next) && InRange(next) && next.vault == w.vault
      && EnclaveUpholds(cfg, next, floor)
  {
    hide E.Good, E.Surplus, SeenInv, MarksInv, T.StaysInRange, Enc.RunTransaction, Upholds, Yield;
    NextKeepsInv(cfg, w, step);
    var next := Next(cfg, w, step);
    GoodParts(cfg, next);
    if step.EnclaveTx? {
      GoodAtAnyTime(cfg, w, step.now);
      T.TransactionKeepsGood(EnvAt(cfg, w, step.now), w.enclave, step.ixs, floor);
    } else if step.CommitBook? {
      CommitEarnsInTheEnclave(cfg, w, floor);
    }
  }

  lemma CommitEarnsInTheEnclave(cfg: Setup, w: World, floor: Ledger)
    requires Inv(cfg, w) && EnclaveUpholds(cfg, w, floor)
    requires E.EnvOk(EnvAt(cfg, Next(cfg, w, CommitBook), 0))
    requires E.CanPrice(EnvAt(cfg, Next(cfg, w, CommitBook), 0), w.enclave.shielded)
    ensures T.PricedFrom(EnvAt(cfg, Next(cfg, w, CommitBook), 0), floor, w.enclave.shielded)
  {
    hide E.Good, E.Surplus, SeenInv, MarksInv, Upholds;
    var l, gain := EnclaveLedger(w), Yield(w.live) - Yield(w.committed);
    MoveUpholds(floor, l, Earn(gain), Yield(w.committed) == 0);
    EarlierIsUnearned(floor, MovedBy(l, Earn(gain)), Yield(w.committed) == 0, Yield(w.live) == 0);
  }

  lemma {:induction false} EnclaveRunUpholds(cfg: Setup, w: World, steps: seq<Step>, floor: Ledger)
    requires Inv(cfg, w) && InRange(w) && AllowedRun(cfg, w, steps)
    requires forall i :: 0 <= i < |steps| ==> NoPublicFlow(steps[i])
    requires EnclaveUpholds(cfg, w, floor)
    ensures var end := Run(cfg, w, steps);
      && Inv(cfg, end) && InRange(end) && end.vault == w.vault
      && EnclaveUpholds(cfg, end, floor)
    decreases |steps|
  {
    hide Inv, InRange, Next, EnclaveUpholds, Allowed;
    if |steps| > 0 {
      EnclaveStepUpholds(cfg, w, steps[0], floor);
      EnclaveRunUpholds(cfg, Next(cfg, w, steps[0]), steps[1..], floor);
    }
  }

  lemma EnclaveStartsOnItself(cfg: Setup, w: World)
    requires Inv(cfg, w) && w.vault.shares + w.enclave.shielded.shares > 0
    ensures w.enclave.shielded.totalOut <= w.enclave.shielded.totalIn
    ensures EnclaveUpholds(cfg, w, EnclaveLedger(w))
  {
    hide E.Surplus, SeenInv, MarksInv, BooksInv;
    GoodParts(cfg, w);
  }

  /** While nobody deposits or redeems on Solana, the enclave's share price never falls from a state
      with shares outstanding, whatever private transactions, ticks, absorbs and commits of either kind
      interleave, and not even through an empty supply. */
  lemma EnclavePriceNeverFalls(cfg: Setup, w: World, steps: seq<Step>)
    requires Inv(cfg, w) && InRange(w) && AllowedRun(cfg, w, steps)
    requires forall i :: 0 <= i < |steps| ==> NoPublicFlow(steps[i])
    requires w.vault.shares + w.enclave.shielded.shares > 0
    ensures var end := Run(cfg, w, steps);
      && Inv(cfg, end) && InRange(end) && end.vault == w.vault
      && w.enclave.shielded.totalOut <= w.enclave.shielded.totalIn
      && end.enclave.shielded.totalOut <= end.enclave.shielded.totalIn
      && PriceAtLeast(EnclaveLedger(w), EnclaveLedger(end))
  {
    hide Inv, InRange, Run, AllowedRun;
    EnclaveStartsOnItself(cfg, w);
    EnclaveRunUpholds(cfg, w, steps, EnclaveLedger(w));
    EnclaveFlowPositive(cfg, Run(cfg, w, steps));
    FlowPositive(cfg, w);
  }

  /** Steps that leave Solana's view alone: no public flow, no commit of either kind. */
  predicate LeavesSolana(step: Step) { NoPublicFlow(step) && !step.CommitBook? && !step.CommitShielded? }

  predicate PrivateRun(steps: seq<Step>) { forall i :: 0 <= i < |steps| ==> LeavesSolana(steps[i]) }

  lemma {:induction false} PrivateRunLeavesSolana(cfg: Setup, w: World, steps: seq<Step>)
    requires PrivateRun(steps)
    ensures var end := Run(cfg, w, steps);
      end.vault == w.vault && end.committed == w.committed && end.published == w.published
    decreases |steps|
  {
    if |steps| > 0 {
      PrivateRunLeavesSolana(cfg, Next(cfg, w, steps[0]), steps[1..]);
    }
  }

  /** From a moment the two layers agree, private flow alone leaves the enclave's price at or above
      Solana's: every private deposit and redemption rounds for the pool. So publishing the
      aggregate then does not lower Solana's price. */
  lemma PrivateFlowKeepsEnclaveAbove(cfg: Setup, w: World, steps: seq<Step>)
    requires Inv(cfg, w) && InRange(w) && AllowedRun(cfg, w, steps) && PrivateRun(steps)
    requires w.published == w.enclave.shielded && w.vault.shares + w.published.shares > 0
    ensures var end := Run(cfg, w, steps);
      && Inv(cfg, end) && end.enclave.shielded.totalOut <= end.enclave.shielded.totalIn
      && PriceAtLeast(SolanaLedger(end), EnclaveLedger(end))
      && SolanaLedger(end) == SolanaLedger(w)
      && Inv(cfg, Next(cfg, end, CommitShielded))
      && PriceAtLeast(SolanaLedger(end), SolanaLedger(Next(cfg, end, CommitShielded)))
  {
    hide EnclaveInv, SeenInv, MarksInv, BooksInv, AllowedRun, Run;
    PrivateRunLeavesSolana(cfg, w, steps);
    EnclavePriceNeverFalls(cfg, w, steps);
    CommitShieldedStep(cfg, Run(cfg, w, steps));
  }

  // ------------------------------------------------------------- the book

  /** In every reachable state both books balance, principal against marked flow, and neither has
      marked more than Solana shows of the two custodies, nor will the absorb on its way. */
  lemma BooksAlwaysBalance(cfg: Setup, entries: PoolSet, now: i64, steps: seq<Step>, w: World)
    requires Reaches(cfg, entries, now, steps, w)
    ensures Balanced(w.live) && Balanced(w.committed)
    ensures w.committed.markedIn <= w.live.markedIn <= w.vault.totalIn + w.published.totalIn
    ensures w.committed.markedOut <= w.live.markedOut <= w.vault.totalOut + w.published.totalOut
    ensures Yield(w.committed) <= Yield(w.live)
    ensures w.absorbing.Some? ==>
      var a := w.absorbing.value;
      && w.live.markedOut + a.outflow <= w.live.markedIn + a.inflow
      && w.live.markedIn + a.inflow <= w.vault.totalIn + w.published.totalIn
      && w.live.markedOut + a.outflow <= w.vault.totalOut + w.published.totalOut
  {
    hide InRange, EnclaveInv, SeenInv, Balanced, Yield;
    ReachableIsGood(cfg, entries, now, steps, w);
  }

  /** When the keeper's absorb lands, pricing on the live book would move by exactly the yield that
      had accrued to that instant: the capital it places was already priced at par. */
  lemma AbsorbMovesOnlyYield(cfg: Setup, w: World, now: i64)
    requires Inv(cfg, w) && InRange(w) && InRange(Next(cfg, w, AbsorbLands(now))) && w.absorbing.Some?
    requires Absorb(w.live, w.absorbing.value.inflow, w.absorbing.value.outflow, now).Ok?
    ensures var next := Next(cfg, w, AbsorbLands(now));
      var before, after := NavForPricing(w.vault, w.live, w.published), NavForPricing(w.vault, next.live, w.published);
      && before.Ok? && after.Ok?
      && after.value.nav - before.value.nav == Accrueds(AccruedTo(w.live, now)) - Yield(w.live)
      && after.value.supply == before.value.supply
      && Principals(next.live.pools) == next.live.markedIn - next.live.markedOut
  {
    hide E.Good, E.Surplus, EnclaveInv, SeenInv, NavForPricing, Absorb;
    var a, next := w.absorbing.value, Next(cfg, w, AbsorbLands(now));
    AbsorbStep(cfg, w, now);
    LiveFits(w);
    LiveFits(next);
    PricingIsTheLedger(w.vault, w.live, w.published);
    PricingIsTheLedger(w.vault, next.live, w.published);
    AbsorbYield(w.live, a.inflow, a.outflow, now);
  }

  lemma LiveFits(w: World)
    requires InRange(w) && Later(w.published, w.enclave.shielded)
    ensures SumsFit64(w.vault, w.live, w.published)
  {
  }

  lemma AbsorbYield(b: Book, inflow: u64, outflow: u64, now: i64)
    requires Balanced(b) && Absorb(b, inflow, outflow, now).Ok? && b.markedIn + inflow <= U64_MAX
    ensures Yield(Absorb(b, inflow, outflow, now).value) == Accrueds(AccruedTo(b, now))
  {
    AccruedToKeepsPrincipal(b, now);
    MovedPools(AccruedTo(b, now), inflow, outflow);
  }

  /** What the keeper may read always includes what Solana shows now. */
  predicate LatestIsSeen(w: World) {
    && |w.vaultSeen| > 0 && w.vaultSeen[|w.vaultSeen| - 1] == w.vault
    && |w.publishedSeen| > 0 && w.publishedSeen[|w.publishedSeen| - 1] == w.published
  }

  lemma {:induction false} RunKeepsLatest(cfg: Setup, w: World, steps: seq<Step>)
    requires LatestIsSeen(w)
    ensures LatestIsSeen(Run(cfg, w, steps))
    decreases |steps|
  {
    if |steps| > 0 {
      StepKeepsLatest(cfg, w, steps[0]);
      RunKeepsLatest(cfg, Next(cfg, w, steps[0]), steps[1..]);
    }
  }

  lemma StepKeepsLatest(cfg: Setup, w: World, step: Step)
    requires LatestIsSeen(w)
    ensures LatestIsSeen(Next(cfg, w, step))
  {
    hide NavForPricing, Enc.RunTransaction, Tick, Absorb, SetApr, Unabsorbed;
  }

  /** In every reachable state with no absorb out, a keeper that reads what Solana shows now and whose
      absorb lands catches the book up: all flow Solana knows of is marked, and the capital in the pools is
      exactly what both custodies took in less what they gave out. */
  lemma FreshAbsorbCatchesUp(cfg: Setup, entries: PoolSet, start: i64, steps: seq<Step>, w: World, now: i64)
    requires Reaches(cfg, entries, start, steps, w) && w.absorbing.None? && !AccrualTraps(w.live, now)
    ensures LatestIsSeen(w)
    ensures var sent := Next(cfg, w, KeeperReads(|w.vaultSeen| - 1, |w.publishedSeen| - 1));
      var b := Next(cfg, sent, AbsorbLands(now)).live;
      && b.markedIn == w.vault.totalIn + w.published.totalIn
      && b.markedOut == w.vault.totalOut + w.published.totalOut
      && Principals(b.pools) == w.vault.totalIn - w.vault.totalOut + w.published.totalIn - w.published.totalOut
  {
    hide E.Good, E.Surplus, EnclaveInv, SeenInv, AccrualTraps, Next, Run, AllowedRun, LatestIsSeen;
    ReachableIsGood(cfg, entries, start, steps, w);
    LatestAtFirst(cfg, entries, start);
    RunKeepsLatest(cfg, Initial(cfg, entries, start), steps);
    AbsorbsTheRest(cfg, w, now);
  }

  lemma LatestAtFirst(cfg: Setup, entries: PoolSet, start: i64)
    ensures LatestIsSeen(Initial(cfg, entries, start))
  {
  }

  lemma AbsorbsTheRest(cfg: Setup, w: World, now: i64)
    requires LatestIsSeen(w) && w.absorbing.None? && !AccrualTraps(w.live, now)
    requires Balanced(w.live) && MarksInv(w.live, w.vault, w.published, None) && InRange(w)
    requires Later(w.published, w.enclave.shielded)
    requires w.vault.totalOut <= w.vault.totalIn && w.published.totalOut <= w.published.totalIn
    ensures var sent := Next(cfg, w, KeeperReads(|w.vaultSeen| - 1, |w.publishedSeen| - 1));
      var b := Next(cfg, sent, AbsorbLands(now)).live;
      && b.markedIn == w.vault.totalIn + w.published.totalIn
      && b.markedOut == w.vault.totalOut + w.published.totalOut
      && Principals(b.pools) == w.vault.totalIn - w.vault.totalOut + w.published.totalIn - w.published.totalOut
  {
    hide AccrualTraps, Moved, AccruedTo, Principals;
    var inflow := w.vault.totalIn + w.published.totalIn - w.live.markedIn;
    var outflow := w.vault.totalOut + w.published.totalOut - w.live.markedOut;
    AccruedToKeepsPrincipal(w.live, now);
    MovedPools(AccruedTo(w.live, now), inflow, outflow);
  }

  /** Restarting the book from its last commit loses no yield: when the live book has only ticked since, one
      tick of the copy to the same instant credits each pool what the live book had, plus at most what
      rounding had cost it. */
  lemma MigrationIsCaughtUp(cfg: Setup, w: World, ops: seq<R.Op>, i: nat)
    requires |ops| > 0 && R.CleanRun(w.committed, ops) && R.OnlyTicks(ops) && R.ClockForward(w.committed, ops)
    requires R.After(w.committed, ops) == w.live && i < POOL_COUNT
    requires R.Clean(w.committed, R.TickAt(w.live.lastTs))
    ensures var b := Next(cfg, Next(cfg, w, MigrateBook), TickBook(w.live.lastTs)).live;
      && w.live.pools[i].accrued <= b.pools[i].accrued <= w.live.pools[i].accrued + R.Accruals(w.committed, ops)
      && b.lastTs == w.live.lastTs
  {
    hide R.CleanRun, R.After, R.Accruals, R.ClockForward, Tick;
    R.MissedTicksAreCaughtUp(w.committed, ops, i);
    R.TickIsOk(w.committed, w.live.lastTs);
    R.OnePool(w.committed, R.TickAt(w.live.lastTs), i);
  }

  /** And of a book just committed, migration changes nothing. */
  lemma CommitThenMigrate(cfg: Setup, w: World)
    requires w.absorbing.None?
    ensures Next(cfg, Next(cfg, w, CommitBook), MigrateBook) == Next(cfg, w, CommitBook)
    ensures Next(cfg, w, CommitBook).live == w.live
  {
  }

  // ------------------------------------------------------------- round trips

  /** Depositing on Solana and at once redeeming what was minted never returns more than was put
      in, and costs less than one share's worth plus one unit. */
  lemma PublicRoundTrip(p: BaseLayer.Purse, b: Book, sh: Shielded, amount: u64)
    requires BaseLayer.Backed(p) && Balanced(b) && sh.totalOut <= sh.totalIn && SumsFit64(p.vault, b, sh)
    requires LedgerOf(p.vault, b, sh).supply > 0 && LedgerOf(p.vault, b, sh).assets > 0
    requires BaseLayer.Deposit(p, b, sh, amount).Ok?
    requires SumsFit64(BaseLayer.Deposit(p, b, sh, amount).value.vault, b, sh)
    requires var t := BaseLayer.Deposit(p, b, sh, amount).value;
      BaseLayer.Redeem(t, b, sh, t.vault.shares - p.vault.shares).Ok?
    ensures var t := BaseLayer.Deposit(p, b, sh, amount).value;
      var f := t.vault.shares - p.vault.shares;
      var u := BaseLayer.Redeem(t, b, sh, f).value;
      var l := LedgerOf(p.vault, b, sh);
      && u.userAgyld == p.userAgyld && u.vault.shares == p.vault.shares
      && u.userUsdc <= p.userUsdc
      && (p.userUsdc - u.userUsdc) * (l.supply + f) < l.assets + (l.supply + f)
  {
    hide LedgerOf, BaseLayer.Deposit, BaseLayer.Redeem, SumsFit64;
    var l := LedgerOf(p.vault, b, sh);
    var t := BaseLayer.Deposit(p, b, sh, amount).value;
    var f := t.vault.shares - p.vault.shares;
    DepositPays(p, b, sh, amount);
    DepositIsABuy(p, b, sh, amount);
    SharesInLedger(p.vault, t.vault, b, sh);
    RedeemPays(t, b, sh, f);
    RedeemIsASale(t, b, sh, f);
    RoundTripBounds(l, amount);
  }

  lemma SharesInLedger(v: Vault, t: Vault, b: Book, sh: Shielded)
    requires v.totalOut <= v.totalIn && t.totalOut <= t.totalIn && sh.totalOut <= sh.totalIn
    ensures LedgerOf(t, b, sh).supply - LedgerOf(v, b, sh).supply == t.shares - v.shares
  {
  }

  lemma DepositPays(p: BaseLayer.Purse, b: Book, sh: Shielded, amount: u64)
    requires BaseLayer.Deposit(p, b, sh, amount).Ok?
    ensures BaseLayer.Deposit(p, b, sh, amount).value.userUsdc == p.userUsdc - amount
  {
  }

  lemma RedeemPays(p: BaseLayer.Purse, b: Book, sh: Shielded, shares: u64)
    requires BaseLayer.Backed(p) && Balanced(b) && sh.totalOut <= sh.totalIn && SumsFit64(p.vault, b, sh)
    requires BaseLayer.Redeem(p, b, sh, shares).Ok?
    ensures LedgerOf(p.vault, b, sh).supply > 0
    ensures BaseLayer.Redeem(p, b, sh, shares).value.userUsdc - p.userUsdc
      == MulDiv(shares, LedgerOf(p.vault, b, sh).assets, LedgerOf(p.vault, b, sh).supply)
  {
    PricingIsTheLedger(p.vault, b, sh);
  }

  /** A private credit followed at once by a redemption of what it minted never opens a ticket for
      more than was deposited, with the same bound on the loss. */
  lemma PrivateRoundTrip(env: Enc.Env, p: P.Position, sh: Shielded, slots: Slots, depositor: Pubkey, signer: Pubkey,
                         amount: u64, prev: Option<I.Instruction>, t: Exit)
    requires E.EnvOk(env) && E.CanPrice(env, sh) && E.InRange(env, sh) && p.privateShares <= sh.shares
    requires GoodSlots(slots) && E.LedgerIn(env, sh).supply > 0 && E.LedgerIn(env, sh).assets > 0
    requires Enc.CreditDeposit(env, p, sh, depositor, signer, amount, prev).Ok?
    requires E.InRange(env, Enc.CreditDeposit(env, p, sh, depositor, signer, amount, prev).value.1)
    requires var (q, after) := Enc.CreditDeposit(env, p, sh, depositor, signer, amount, prev).value;
      Enc.OpenExit(env, q, after, slots, q.privateShares - p.privateShares, t).Ok?
    ensures var (q, after) := Enc.CreditDeposit(env, p, sh, depositor, signer, amount, prev).value;
      var f := q.privateShares - p.privateShares;
      var (_, end, _) := Enc.OpenExit(env, q, after, slots, f, t).value;
      var l, ticket := E.LedgerIn(env, sh), end.totalOut - sh.totalOut;
      && ticket <= amount
      && (amount - ticket) * (l.supply + f) < l.assets + (l.supply + f)
  {
    hide Enc.CreditDeposit, Enc.OpenExit, LedgerOf, SumsFit64, GoodSlots;
    var l := E.LedgerIn(env, sh);
    var (q, after) := Enc.CreditDeposit(env, p, sh, depositor, signer, amount, prev).value;
    var f := q.privateShares - p.privateShares;
    E.CreditIsABuy(env, p, sh, depositor, signer, amount, prev);
    PrivateSharesInLedger(env, sh, after);
    E.ExitIsASale(env, q, after, slots, f, t);
    var (_, end, _) := Enc.OpenExit(env, q, after, slots, f, t).value;
    PrivateSharesInLedger(env, after, end);
    RoundTripBounds(l, amount);
  }

  lemma PrivateSharesInLedger(env: Enc.Env, sh: Shielded, t: Shielded)
    requires E.EnvOk(env) && E.CanPrice(env, sh) && E.CanPrice(env, t)
    ensures var l, m := E.LedgerIn(env, sh), E.LedgerIn(env, t);
      && m.supply - l.supply == t.shares - sh.shares
      && m.assets - l.assets == (t.totalIn - sh.totalIn) - (t.totalOut - sh.totalOut)
  {
  }

  // ------------------------------------------------------------- the enclave

  /** In every reachable state the private custody covers its books and every open ticket, so all
      of them can be paid, in any order. */
  lemma EveryTicketCanBePaid(cfg: Setup, entries: PoolSet, start: i64, steps: seq<Step>, w: World, now: i64,
                             order: seq<Exit>, q: QueueAccounts)
    requires Reaches(cfg, entries, start, steps, w)
    requires forall i :: 0 <= i < |order| ==> IsOpen(w.enclave.slots, order[i])
    requires forall i, j :: 0 <= i < j < |order| ==> order[i] != order[j]
    ensures var env := EnvAt(cfg, w, now);
      && Enc.Custody(env) in w.enclave.tokens
      && E.CustodyUsdc(env, w.enclave)
           >= w.enclave.shielded.totalIn - w.enclave.shielded.totalOut + Owed(w.enclave.slots)
      && (forall x ::
            IsOpen(T.PayAll(env, w.enclave, order, q).slots, x) <==> IsOpen(w.enclave.slots, x) && x !in order)
  {
    hide Inv, InRange, E.GoodRotations, GoodSlots, E.EnvOk, E.CanPrice, Owed, IsOpen;
    ReachableIsGood(cfg, entries, start, steps, w);
    EnclaveOf(cfg, w);
    GoodAtAnyTime(cfg, w, now);
    T.TicketsCanBePaidInAnyOrder(EnvAt(cfg, w, now), w.enclave, order, q);
  }

  /** Some transaction of the run that went through settled the ticket right behind its payment. */
  ghost predicate SettledOver(cfg: Setup, w: World, steps: seq<Step>, t: Exit)
    decreases |steps|
  {
    && |steps| > 0
    && (SettledBy(cfg, w, steps[0], t) || SettledOver(cfg, Next(cfg, w, steps[0]), steps[1..], t))
  }

  ghost predicate SettledBy(cfg: Setup, w: World, step: Step, t: Exit) {
    && step.EnclaveTx?
    && Enc.ExecFrom(EnvAt(cfg, w, step.now), w.enclave, step.ixs, 0).Ok?
    && T.SettlesTicket(EnvAt(cfg, w, step.now), step.ixs, t)
  }

  /** An open ticket is a promise: over any run it stays open and as it is, until a transaction that
      carries its payment in full settles it. */
  lemma {:induction false} TicketsStayOpenUntilPaid(cfg: Setup, w: World, steps: seq<Step>, t: Exit)
    requires Inv(cfg, w) && InRange(w) && AllowedRun(cfg, w, steps) && IsOpen(w.enclave.slots, t)
    ensures IsOpen(Run(cfg, w, steps).enclave.slots, t) || SettledOver(cfg, w, steps, t)
    decreases |steps|
  {
    hide Inv, InRange, Next, Allowed, IsOpen, SettledBy;
    if |steps| > 0 {
      var next := Next(cfg, w, steps[0]);
      StepKeepsTicket(cfg, w, steps[0], t);
      NextKeepsInv(cfg, w, steps[0]);
      if IsOpen(next.enclave.slots, t) {
        TicketsStayOpenUntilPaid(cfg, next, steps[1..], t);
      }
    }
  }

  lemma StepKeepsTicket(cfg: Setup, w: World, step: Step, t: Exit)
    requires Inv(cfg, w) && InRange(w) && Allowed(cfg, w, step) && IsOpen(w.enclave.slots, t)
    ensures IsOpen(Next(cfg, w, step).enclave.slots, t) || SettledBy(cfg, w, step, t)
  {
    hide E.Good, E.Surplus, SeenInv, BooksInv, MarksInv, T.StaysInRange, Enc.RunTransaction, T.SettlesTicket, IsOpen;
    if step.EnclaveTx? {
      GoodAtAnyTime(cfg, w, step.now);
      T.TransactionKeepsTicket(EnvAt(cfg, w, step.now), w.enclave, step.ixs, t);
    }
  }

  lemma EnclaveOf(cfg: Setup, w: World)
    requires Inv(cfg, w)
    ensures EnclaveInv(cfg, w)
  {
  }

  /** In every reachable state: every share the private side counts is in some position, every share
      the vault counts is agYLD somebody holds, and open tickets have distinct 24-bit ids. */
  lemma SharesAndTicketsAddUp(cfg: Setup, entries: PoolSet, now: i64, steps: seq<Step>, w: World)
    requires Reaches(cfg, entries, now, steps, w)
    ensures w.vault.shares == Sums.Total(w.agyld)
    ensures w.enclave.shielded.shares == Sums.Total(E.PrivateShares(w.enclave.positions))
    ensures forall k :: k in w.enclave.positions ==> w.enclave.positions[k].privateShares <= w.enclave.shielded.shares
    ensures forall t, u :: IsOpen(w.enclave.slots, t) && IsOpen(w.enclave.slots, u) && t.groupId == u.groupId ==> t == u
    ensures forall t :: IsOpen(w.enclave.slots, t) ==> 0 < t.groupId <= MAX_GROUP_ID
  {
    hide E.GoodRotations, SeenInv, BooksInv, MarksInv;
    ReachableIsGood(cfg, entries, now, steps, w);
    forall k | k in w.enclave.positions
      ensures w.enclave.positions[k].privateShares <= w.enclave.shielded.shares
    {
      E.SharesAfterUpdate(w.enclave.positions, k, w.enclave.positions[k]);
    }
    forall t, u | IsOpen(w.enclave.slots, t) && IsOpen(w.enclave.slots, u) && t.groupId == u.groupId
      ensures t == u
    {
      TicketFoundById(w.enclave.slots, t);
      TicketFoundById(w.enclave.slots, u);
    }
  }

  /** In every reachable state the accepted rotations of a position expire ever later, each was
      signed by its owner, and no signed message was ever used for two of them. */
  lemma EachSignedMessageRotatesOnce(cfg: Setup, entries: PoolSet, now: i64, steps: seq<Step>, w: World, i: nat, j: nat)
    requires Reaches(cfg, entries, now, steps, w) && i < j < |w.enclave.rotations|
    ensures var r, s := w.enclave.rotations[i], w.enclave.rotations[j];
      && (r.position == s.position ==> r.expiry < s.expiry)
      && S.SessionMessage(r.position, r.sessionKey, r.expiry) != S.SessionMessage(s.position, s.sessionKey, s.expiry)
      && (r.owner, S.SessionMessage(r.position, r.sessionKey, r.expiry)) in w.signed
      && (s.owner, S.SessionMessage(s.position, s.sessionKey, s.expiry)) in w.signed
  {
    hide S.SessionMessage, SeenInv, BooksInv, MarksInv, GoodSlots;
    ReachableIsGood(cfg, entries, now, steps, w);
    var r, s := w.enclave.rotations[i], w.enclave.rotations[j];
    if S.SessionMessage(r.position, r.sessionKey, r.expiry) == S.SessionMessage(s.position, s.sessionKey, s.expiry) {
      S.MessageIsInjective(r.position, r.sessionKey, r.expiry, s.position, s.sessionKey, s.expiry);
    }
  }
}
