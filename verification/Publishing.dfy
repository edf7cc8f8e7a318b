/** Publishing the private aggregate: when it lowers Solana's price, and by how little rounding
    stands against it. */
module Publishing {
  import opened Words
  import opened Arithmetic
  import opened Pools
  import opened Books
  import opened Pricing
  import opened Instructions
  import opened Protocol
  import opened ProtocolProofs
  import opened Theorems
  import Enc = Enclave
  import E = EnclaveProofs
  import T = Transactions
  import X = Exits
  import P = Positions
  import S = Session

  /** Private shares, and private USDC in less out, that Solana has not been told of yet. */
  function UnpublishedShares(w: World): int { w.enclave.shielded.shares - w.published.shares }

  function UnpublishedFlow(w: World): int {
    (w.enclave.shielded.totalIn - w.enclave.shielded.totalOut) - (w.published.totalIn - w.published.totalOut)
  }

  /** From any state of any run, publishing leaves Solana's price where it was or above if and only
      if the unpublished flow paid, on net, at least Solana's present price for its shares. */
  lemma PublishingKeepsThePriceIff(cfg: Setup, w: World)
    requires Inv(cfg, w)
    ensures Inv(cfg, Next(cfg, w, CommitShielded))
    ensures var l := SolanaLedger(w);
      PriceAtLeast(l, SolanaLedger(Next(cfg, w, CommitShielded))) <==>
      UnpublishedFlow(w) * l.supply >= UnpublishedShares(w) * l.assets
  {
    hide EnclaveInv, SeenInv, MarksInv, BooksInv, SolanaAtPar, UnpublishedFlow, UnpublishedShares;
    EnclaveFlowPositive(cfg, w);
    CommitShieldedStep(cfg, w);
    ViewsDifferByTheUnpublished(w);
    var l := SolanaLedger(w);
    Distribute(l.assets, UnpublishedFlow(w), l.supply);
    Distribute(l.supply, UnpublishedShares(w), l.assets);
  }

  lemma ViewsDifferByTheUnpublished(w: World)
    requires w.vault.totalOut <= w.vault.totalIn
    requires w.published.totalOut <= w.published.totalIn && w.enclave.shielded.totalOut <= w.enclave.shielded.totalIn
    ensures EnclaveLedger(w).assets == SolanaLedger(w).assets + UnpublishedFlow(w)
    ensures EnclaveLedger(w).supply == SolanaLedger(w).supply + UnpublishedShares(w)
  {
  }

  // --------------------------------------------------- what rounding leaves

  /** How far the second ledger's price is above the first's, cross-multiplied. */
  function Above(low: Ledger, high: Ledger): int { high.assets * low.supply - low.assets * high.supply }

  function Larger(l: Ledger): nat { Max(l.assets, l.supply) }

  /** After `k` flows, of a supply that never went below `least`, the price is at most `k / least` of
      the larger of it and one above `floor`'s. */
  predicate RoundedUp(floor: Ledger, l: Ledger, least: nat, k: nat) {
    Above(floor, l) * least <= k * Larger(l) * floor.supply
  }

  lemma MoveRoundsUp(floor: Ledger, l: Ledger, m: Move, least: nat, k: nat)
    requires RoundedUp(floor, l, least, k) && !m.Earn? && CanMove(l, m)
    requires 0 < least <= l.supply && least <= MovedBy(l, m).supply && l.assets > 0
    ensures RoundedUp(floor, MovedBy(l, m), least, k + 1)
  {
    hide MovedBy, RoundedUp;
    MovesKeepThePrice(l, m);
    RoundingIsSmall(l, m);
    AboveAdds(floor, l, MovedBy(l, m), least, k);
  }

  lemma RoundingIsSmall(l: Ledger, m: Move)
    requires !m.Earn? && CanMove(l, m) && l.supply > 0 && l.assets > 0
    ensures Above(l, MovedBy(l, m)) <= Larger(l)
  {
    match m
    case Buy(amount) =>
      DepositRoundsForThePool(l, amount);
      Distribute(MovedBy(l, m).supply, 1, l.assets);
    case Sell(shares) => RedeemRoundsForThePool(l, shares);
  }

  lemma AboveAdds(floor: Ledger, l: Ledger, t: Ledger, least: nat, k: nat)
    requires RoundedUp(floor, l, least, k) && PriceAtLeast(l, t) && Above(l, t) <= Larger(l)
    requires 0 < least <= l.supply && least <= t.supply
    ensures RoundedUp(floor, t, least, k + 1)
  {
    hide Larger;
    var h, h', f := Larger(l), Larger(t), floor.supply;
    assert h * t.supply <= h' * l.supply by {
      LargerFollowsPrice(l, t);
    }
    calc {
      Above(floor, t) * least * l.supply;
      { CrossThrough(floor, l, t, least); }
      Above(floor, l) * least * t.supply + Above(l, t) * f * least;
      <= { MulMono(Above(floor, l) * least, k * h * f, t.supply); }
      k * h * f * t.supply + Above(l, t) * f * least;
      <= { MulMono(Above(l, t), h, f * least); Associative(Above(l, t), f, least); Associative(h, f, least); }
      k * h * f * t.supply + h * f * least;
      <= { MulMono(least, t.supply, h * f); Commute(least, h * f); Commute(t.supply, h * f); }
      k * h * f * t.supply + h * f * t.supply;
      { OneMore(k, h, f, t.supply); }
      (k + 1) * f * (h * t.supply);
      <= { MulMono(h * t.supply, h' * l.supply, (k + 1) * f);
           Commute(h * t.supply, (k + 1) * f); Commute(h' * l.supply, (k + 1) * f); }
      (k + 1) * f * (h' * l.supply);
      { Regroup(k + 1, f, h', l.supply); }
      (k + 1) * h' * f * l.supply;
    }
    MulCancel(Above(floor, t) * least, (k + 1) * h' * f, l.supply);
  }

  lemma LargerFollowsPrice(l: Ledger, t: Ledger)
    requires PriceAtLeast(l, t)
    ensures Larger(l) * t.supply <= Larger(t) * l.supply
  {
    if l.assets >= l.supply {
      MulMono(t.assets, Larger(t), l.supply);
    } else {
      MulMono(t.supply, Larger(t), l.supply);
      Commute(l.supply, t.supply);
    }
  }

  lemma CrossThrough(floor: Ledger, l: Ledger, t: Ledger, least: nat)
    ensures Above(floor, t) * least * l.supply
      == Above(floor, l) * least * t.supply + Above(l, t) * floor.supply * least
  {
    var r, y, s := l.supply, t.supply, floor.supply;
    assert Above(floor, t) * r == Above(floor, l) * y + Above(l, t) * s;
    Reorder(Above(floor, t), least, r);
    Reorder(Above(floor, l), least, y);
    Distribute(Above(floor, l) * y, Above(l, t) * s, least);
  }

  lemma Commute(x: int, y: int)
    ensures x * y == y * x
  {
  }

  lemma Associative(x: int, y: int, z: int)
    ensures x * y * z == x * (y * z)
  {
  }

  lemma OneMore(k: int, h: int, f: int, s: int)
    ensures k * h * f * s + h * f * s == (k + 1) * f * (h * s)
  {
    assert k * h * f * s == k * f * (h * s);
    assert h * f * s == f * (h * s);
    Distribute(k * f, f, h * s);
  }

  lemma Regroup(k: int, f: int, h: int, s: int)
    ensures k * f * (h * s) == k * h * f * s
  {
  }

  // ------------------------------------------------------ over private flows

  /** The two calls that move the private aggregate. */
  predicate IsFlow(ix: Instruction) {
    ix.program == Agama && (ix.call.DepositPrivate? || ix.call.RedeemPrivate? || ix.call.RedeemPrivateTo?)
  }

  function FlowsFrom(ixs: seq<Instruction>, i: nat): nat
    requires i <= |ixs|
    decreases |ixs| - i
  {
    if i == |ixs| then 0 else (if IsFlow(ixs[i]) then 1 else 0) + FlowsFrom(ixs, i + 1)
  }

  /** Private deposits and redemptions asked for during the run, accepted or not. */
  function FlowsIn(steps: seq<Step>): nat {
    if |steps| == 0 then 0
    else (if steps[0].EnclaveTx? then FlowsFrom(steps[0].ixs, 0) else 0) + FlowsIn(steps[1..])
  }

  predicate RoundedIn(env: Enc.Env, floor: Ledger, sh: Shielded, k: nat)
    requires E.EnvOk(env) && E.CanPrice(env, sh)
  {
    RoundedUp(floor, E.LedgerIn(env, sh), env.vault.shares, k)
  }

  lemma MoreFlows(floor: Ledger, l: Ledger, least: nat, k: nat, n: nat)
    requires RoundedUp(floor, l, least, k) && k <= n
    ensures RoundedUp(floor, l, least, n)
  {
    Associative(k, Larger(l), floor.supply);
    Associative(n, Larger(l), floor.supply);
    MulMono(k, n, Larger(l) * floor.supply);
  }

  lemma OnlyFlowsMoveTheAggregate(env: Enc.Env, e: Enc.State, ixs: seq<Instruction>, i: nat)
    requires i < |ixs| && !IsFlow(ixs[i]) && Enc.Exec(env, e, ixs, i).Ok?
    ensures Enc.Exec(env, e, ixs, i).value.shielded == e.shielded
  {
    hide Enc.ExecTransfer, Enc.ExecQueue, NavForPricing, S.Rotate, X.CloseTicket, P.Sync;
  }

  lemma FlowRoundsUp(env: Enc.Env, floor: Ledger, e: Enc.State, t: Enc.State, k: nat)
    requires E.Good(env, e) && E.CanPrice(env, t.shielded) && E.StepsLedger(env, e, t)
    requires RoundedIn(env, floor, e.shielded, k)
    ensures RoundedIn(env, floor, t.shielded, k + 1)
  {
    hide E.GoodRotations, X.GoodSlots, RoundedUp;
    var l, m, least := E.LedgerIn(env, e.shielded), E.LedgerIn(env, t.shielded), env.vault.shares;
    if t.shielded == e.shielded {
      MoreFlows(floor, l, least, k, k + 1);
    } else if least == 0 {
      NoPublicShares(floor, m, k + 1);
    } else {
      var step: Move :| !step.Earn? && CanMove(l, step) && m == MovedBy(l, step);
      MoveRoundsUp(floor, l, step, least, k);
    }
  }

  lemma NoPublicShares(floor: Ledger, l: Ledger, k: nat)
    ensures RoundedUp(floor, l, 0, k)
  {
    ProductIsNat(k, Larger(l));
    ProductIsNat(k * Larger(l), floor.supply);
  }

  lemma {:induction false} SuccessRoundsUp(env: Enc.Env, e: Enc.State, ixs: seq<Instruction>, i: nat, floor: Ledger,
                                           k: nat)
    requires i <= |ixs| && E.Good(env, e) && E.Executed(env, ixs, i) && E.CustodyDisciplined(env, ixs)
    requires T.StaysInRange(env, e, ixs, i) && Enc.ExecFrom(env, e, ixs, i).Ok?
    requires RoundedIn(env, floor, e.shielded, k)
    ensures var t := Enc.ExecFrom(env, e, ixs, i).value;
      && E.EnvOk(env) && E.CanPrice(env, t.shielded)
      && RoundedIn(env, floor, t.shielded, k + FlowsFrom(ixs, i))
    decreases |ixs| - i
  {
    hide Enc.Exec, E.GoodRotations, X.GoodSlots, RoundedIn, E.StepsLedger, E.Surplus, SumsFit64, LedgerOf, IsFlow;
    if i < |ixs| {
      var next := Enc.Exec(env, e, ixs, i).value;
      E.ExecKeepsGood(env, e, ixs, i);
      if IsFlow(ixs[i]) {
        FlowRoundsUp(env, floor, e, next, k);
        SuccessRoundsUp(env, next, ixs, i + 1, floor, k + 1);
      } else {
        OnlyFlowsMoveTheAggregate(env, e, ixs, i);
        SuccessRoundsUp(env, next, ixs, i + 1, floor, k);
      }
    }
  }

  ghost predicate RoundedAt(cfg: Setup, w: World, floor: Ledger, k: nat) {
    && w.vault.totalOut <= w.vault.totalIn && w.enclave.shielded.totalOut <= w.enclave.shielded.totalIn
    && RoundedUp(floor, EnclaveLedger(w), w.vault.shares, k)
  }

  lemma StepRoundsUp(cfg: Setup, w: World, step: Step, floor: Ledger, k: nat)
    requires Inv(cfg, w) && InRange(w) && Allowed(cfg, w, step) && LeavesSolana(step)
    requires RoundedAt(cfg, w, floor, k)
    ensures RoundedAt(cfg, Next(cfg, w, step), floor, k + FlowsIn([step]))
  {
    hide E.Good, E.Surplus, SeenInv, MarksInv, BooksInv, T.StaysInRange, Enc.ExecFrom, RoundedUp, LedgerOf;
    if step.EnclaveTx? {
      var env := EnvAt(cfg, w, step.now);
      GoodAtAnyTime(cfg, w, step.now);
      TransactionRoundsUp(env, w.enclave, step.ixs, floor, k);
      assert FlowsIn([step]) == FlowsFrom(step.ixs, 0) + FlowsIn([step][1..]);
    } else {
      assert FlowsIn([step]) == FlowsIn([step][1..]) == 0;
    }
  }

  lemma TransactionRoundsUp(env: Enc.Env, e: Enc.State, ixs: seq<Instruction>, floor: Ledger, k: nat)
    requires E.Good(env, e) && E.CustodyDisciplined(env, ixs) && T.StaysInRange(env, e, ixs, 0)
    requires E.EnvOk(env) && E.CanPrice(env, e.shielded) && RoundedIn(env, floor, e.shielded, k)
    ensures var t := Enc.RunTransaction(env, e, ixs);
      && E.CanPrice(env, t.shielded) && RoundedIn(env, floor, t.shielded, k + FlowsFrom(ixs, 0))
  {
    hide E.Good, T.StaysInRange, RoundedUp, LedgerOf;
    if Enc.ExecFrom(env, e, ixs, 0).Ok? {
      SuccessRoundsUp(env, e, ixs, 0, floor, k);
    } else {
      MoreFlows(floor, E.LedgerIn(env, e.shielded), env.vault.shares, k, k + FlowsFrom(ixs, 0));
    }
  }

  lemma {:induction false} RunRoundsUp(cfg: Setup, w: World, steps: seq<Step>, floor: Ledger, k: nat)
    requires Inv(cfg, w) && InRange(w) && AllowedRun(cfg, w, steps) && PrivateRun(steps)
    requires RoundedAt(cfg, w, floor, k)
    ensures RoundedAt(cfg, Run(cfg, w, steps), floor, k + FlowsIn(steps))
    decreases |steps|
  {
    hide Inv, InRange, Next, RoundedAt, Allowed;
    if |steps| > 0 {
      StepRoundsUp(cfg, w, steps[0], floor, k);
      NextKeepsInv(cfg, w, steps[0]);
      assert FlowsIn([steps[0]]) + FlowsIn(steps[1..]) == FlowsIn(steps) by {
        assert [steps[0]][1..] == [];
      }
      RunRoundsUp(cfg, Next(cfg, w, steps[0]), steps[1..], floor, k + FlowsIn([steps[0]]));
    }
  }

  // ------------------------------------------------------ committed yield on top

  /** What the unpublished flow paid beyond Solana's price, times Solana's supply: rounding only, when
      the two views agreed before it. */
  function Slack(w: World): int
    requires w.vault.totalOut <= w.vault.totalIn && w.published.totalOut <= w.published.totalIn
  {
    UnpublishedFlow(w) * SolanaLedger(w).supply - UnpublishedShares(w) * SolanaLedger(w).assets
  }

  lemma SlackIsAbove(w: World)
    requires w.vault.totalOut <= w.vault.totalIn
    requires w.published.totalOut <= w.published.totalIn && w.enclave.shielded.totalOut <= w.enclave.shielded.totalIn
    ensures Slack(w) == Above(SolanaLedger(w), EnclaveLedger(w))
  {
    ViewsDifferByTheUnpublished(w);
    var l := SolanaLedger(w);
    Distribute(l.assets, UnpublishedFlow(w), l.supply);
    Distribute(l.supply, UnpublishedShares(w), l.assets);
  }

  /** The two views agree, private flow follows, and then the book commits: publishing now lowers
      Solana's price if and only if the yield it committed, on the unpublished shares, outweighs what
      rounding left for the pool on the way. That slack is never negative, and `k` private deposits and
      redemptions leave it at most `k` parts in the public supply of what both views hold. */
  lemma CommittedYieldLowersThePriceIff(cfg: Setup, w: World, steps: seq<Step>)
    requires Inv(cfg, w) && InRange(w) && AllowedRun(cfg, w, steps) && PrivateRun(steps)
    requires w.published == w.enclave.shielded && w.vault.shares + w.published.shares > 0
    ensures var mid := Run(cfg, w, steps);
      var after := Next(cfg, mid, CommitBook);
      && Inv(cfg, mid) && Inv(cfg, after) && Inv(cfg, Next(cfg, after, CommitShielded))
      && mid.enclave.shielded.totalOut <= mid.enclave.shielded.totalIn
      && (!PriceAtLeast(SolanaLedger(after), SolanaLedger(Next(cfg, after, CommitShielded))) <==>
          UnpublishedShares(mid) * (Yield(mid.live) - Yield(mid.committed)) > Slack(mid))
      && 0 <= Slack(mid)
      && Slack(mid) * w.vault.shares <= FlowsIn(steps) * Larger(EnclaveLedger(mid)) * SolanaLedger(w).supply
  {
    hide EnclaveInv, SeenInv, MarksInv, BooksInv, AllowedRun, Run, LedgerOf, InRange, Yield, UnpublishedFlow,
      UnpublishedShares;
    PrivateRunLeavesSolana(cfg, w, steps);
    PrivateFlowKeepsEnclaveAbove(cfg, w, steps);
    var mid := Run(cfg, w, steps);
    SlackIsAbove(mid);
    NothingRoundedYet(cfg, w);
    RunRoundsUp(cfg, w, steps, SolanaLedger(w), 0);
    CommitBookStep(cfg, mid);
    var after := Next(cfg, mid, CommitBook);
    PublishingKeepsThePriceIff(cfg, after);
    SameUnpublished(mid, after);
    Distribute(SolanaLedger(mid).assets, Yield(mid.live) - Yield(mid.committed), UnpublishedShares(mid));
  }

  lemma SameUnpublished(w: World, after: World)
    requires after.published == w.published && after.enclave == w.enclave
    ensures UnpublishedShares(after) == UnpublishedShares(w) && UnpublishedFlow(after) == UnpublishedFlow(w)
  {
  }

  lemma NothingRoundedYet(cfg: Setup, w: World)
    requires Inv(cfg, w) && w.published == w.enclave.shielded
    ensures w.vault.totalOut <= w.vault.totalIn && w.published.totalOut <= w.published.totalIn
    ensures RoundedAt(cfg, w, SolanaLedger(w), 0)
  {
  }
}
