/** The global invariant of the two-layer vault, and what it gives: one price formula for both
    layers, no book ahead of the vault, payable tickets, and a price that never falls. */
module ProtocolProofs {
  import opened Words
  import opened Arithmetic
  import opened Pools
  import opened Books
  import opened Pricing
  import opened Exits
  import opened Sums
  import opened Protocol
  import BaseLayer
  import P = Positions
  import Enc = Enclave
  import E = EnclaveProofs
  import T = Transactions

  // -------------------------------------------------------------- invariant

  /** Solana's view prices with the published aggregate, the enclave's with the live one. */
  function SolanaLedger(w: World): Ledger
    requires w.vault.totalOut <= w.vault.totalIn && w.published.totalOut <= w.published.totalIn
  {
    LedgerOf(w.vault, w.committed, w.published)
  }

  function EnclaveLedger(w: World): Ledger
    requires w.vault.totalOut <= w.vault.totalIn && w.enclave.shielded.totalOut <= w.enclave.shielded.totalIn
  {
    LedgerOf(w.vault, w.committed, w.enclave.shielded)
  }

  /** Nothing flows backwards: each later figure is at least the earlier one. */
  predicate Later(a: Shielded, b: Shielded) { a.totalIn <= b.totalIn && a.totalOut <= b.totalOut }

  /** Both books balance, and what Solana holds is an earlier state of what the rollup holds. */
  predicate BooksInv(live: Book, committed: Book) {
    && Balanced(live) && Balanced(committed)
    && committed.markedIn <= live.markedIn && committed.markedOut <= live.markedOut
    && Yield(committed) <= Yield(live)
  }

  /** The live book, and any absorb on its way to it, has marked no more than Solana shows now. */
  predicate MarksInv(live: Book, v: Vault, sh: Shielded, absorbing: Option<Absorbing>) {
    && live.markedIn <= v.totalIn + sh.totalIn && live.markedOut <= v.totalOut + sh.totalOut
    && (absorbing.Some? ==>
         var a := absorbing.value;
         && live.markedIn + a.inflow <= v.totalIn + sh.totalIn
         && live.markedOut + a.outflow <= v.totalOut + sh.totalOut
         && live.markedOut + a.outflow <= live.markedIn + a.inflow)
  }

  /** Every state the keeper's reads may return is an earlier one. */
  predicate SeenInv(w: World) {
    && (forall i :: 0 <= i < |w.vaultSeen| ==>
         var v := w.vaultSeen[i];
         v.totalOut <= v.totalIn <= w.vault.totalIn && v.totalOut <= w.vault.totalOut)
    && (forall i :: 0 <= i < |w.publishedSeen| ==>
         var s := w.publishedSeen[i];
         s.totalOut <= s.totalIn <= w.published.totalIn && s.totalOut <= w.published.totalOut)
  }

  /** The vault's supply is the agYLD people hold, and its USDC is what flowed in less what flowed out. */
  ghost predicate BaseInv(w: World) {
    && BaseLayer.Backed(PurseOf(w, ZERO_KEY, 0))
    && w.agyldSupply == Total(w.agyld)
  }

  /** Without committed yield Solana's price is exactly one, too. */
  predicate SolanaAtPar(w: World)
    requires w.vault.totalOut <= w.vault.totalIn && w.published.totalOut <= w.published.totalIn
  {
    Yield(w.committed) == 0 ==> SolanaLedger(w).assets == SolanaLedger(w).supply
  }

  ghost predicate EnclaveInv(cfg: Setup, w: World) {
    E.Good(EnvAt(cfg, w, 0), w.enclave) && E.Surplus(EnvAt(cfg, w, 0), w.enclave) >= 0
  }

  ghost predicate Inv(cfg: Setup, w: World) {
    && BaseInv(w)
    && BooksInv(w.live, w.committed)
    && w.published.totalOut <= w.published.totalIn && Later(w.published, w.enclave.shielded)
    && MarksInv(w.live, w.vault, w.published, w.absorbing)
    && SeenInv(w)
    && SolanaAtPar(w)
    && EnclaveInv(cfg, w)
  }

  /** No sum the program takes reaches the end of a u64. */
  predicate InRange(w: World) {
    && w.vault.totalIn + w.enclave.shielded.totalIn + Yield(w.live) < U64_MAX
    && w.vault.shares + w.enclave.shielded.shares < U64_MAX
    && w.vault.shares + w.published.shares < U64_MAX
  }

  /** The assumptions on one step: it ends in range, it is not a donation, and an enclave transaction
      stays in range and has the custody key sign only payments paired with their settle. */
  ghost predicate Allowed(cfg: Setup, w: World, step: Step) {
    && InRange(Next(cfg, w, step)) && !step.Donate?
    && (step.EnclaveTx? ==>
         && E.CustodyDisciplined(EnvAt(cfg, w, step.now), step.ixs)
         && T.StaysInRange(EnvAt(cfg, w, step.now), w.enclave, step.ixs, 0))
  }

  ghost predicate AllowedRun(cfg: Setup, w: World, steps: seq<Step>)
    decreases |steps|
  {
    |steps| == 0 || (Allowed(cfg, w, steps[0]) && AllowedRun(cfg, Next(cfg, w, steps[0]), steps[1..]))
  }

  // ----------------------------------------------------- it holds initially

  lemma InitialHolds(cfg: Setup, entries: PoolSet, now: i64)
    requires forall i :: 0 <= i < POOL_COUNT ==> entries[i].principal == 0 && entries[i].accrued == 0
    ensures Inv(cfg, Initial(cfg, entries, now)) && InRange(Initial(cfg, entries, now))
  {
    hide EnclaveInv, Balanced;
    InitialEnclaveHolds(cfg, entries, now);
    EmptyBookBalances(entries, now);
  }

  lemma EmptyBookBalances(entries: PoolSet, now: i64)
    requires forall i :: 0 <= i < POOL_COUNT ==> entries[i].principal == 0 && entries[i].accrued == 0
    ensures Balanced(Book(entries, 0, 0, 0, now, 0)) && Yield(Book(entries, 0, 0, 0, now, 0)) == 0
  {
  }

  lemma InitialEnclaveHolds(cfg: Setup, entries: PoolSet, now: i64)
    requires forall i :: 0 <= i < POOL_COUNT ==> entries[i].principal == 0 && entries[i].accrued == 0
    ensures EnclaveInv(cfg, Initial(cfg, entries, now))
  {
    hide Owed, Balanced;
    var w := Initial(cfg, entries, now);
    NothingOwed(w.enclave.slots);
    EmptyBookBalances(entries, now);
    assert E.PrivateShares(w.enclave.positions) == map[];
  }

  lemma {:induction false} NothingOwed(slots: seq<Exit>)
    requires forall i :: 0 <= i < |slots| ==> slots[i] == FREE
    ensures Owed(slots) == 0
  {
    if |slots| > 0 {
      NothingOwed(slots[1..]);
    }
  }

  // ------------------------------------------------------------ the enclave

  /** The enclave's invariants carry over to a later vault, book or signature set it still prices under. */
  lemma GoodUnderLaterEnv(env: Enc.Env, later: Enc.Env, e: Enc.State)
    requires E.Good(env, e) && E.EnvOk(later) && E.CanPrice(later, e.shielded) && E.AtPar(later, e.shielded)
    requires Enc.Custody(later) == Enc.Custody(env) && later.custodyOwner == env.custodyOwner
    requires env.signed <= later.signed
    ensures E.Good(later, e)
    ensures E.Surplus(later, e) == E.Surplus(env, e)
  {
  }

  lemma GoodParts(cfg: Setup, w: World)
    requires EnclaveInv(cfg, w)
    ensures E.EnvOk(EnvAt(cfg, w, 0)) && E.CanPrice(EnvAt(cfg, w, 0), w.enclave.shielded)
    ensures E.AtPar(EnvAt(cfg, w, 0), w.enclave.shielded)
    ensures w.enclave.shielded.totalOut <= w.enclave.shielded.totalIn
    ensures Balanced(w.committed) && w.vault.totalOut <= w.vault.totalIn
  {
  }

  /** In range overall means in range for either view. */
  lemma RangeGivesFit(cfg: Setup, w: World)
    requires Inv(cfg, w) && InRange(w)
    ensures SumsFit64(w.vault, w.committed, w.published)
    ensures SumsFit64(w.vault, w.committed, w.enclave.shielded)
    ensures E.InRange(EnvAt(cfg, w, 0), w.enclave.shielded)
  {
  }

  // ----------------------------------------------------------- public flows

  /** A public deposit is a purchase on the simple ledger, at Solana's own price. */
  lemma DepositIsABuy(p: BaseLayer.Purse, b: Book, sh: Shielded, amount: u64)
    requires BaseLayer.Backed(p) && Balanced(b) && sh.totalOut <= sh.totalIn && SumsFit64(p.vault, b, sh)
    requires BaseLayer.Deposit(p, b, sh, amount).Ok?
    requires SumsFit64(BaseLayer.Deposit(p, b, sh, amount).value.vault, b, sh)
    ensures var t := BaseLayer.Deposit(p, b, sh, amount).value;
      && BaseLayer.Backed(t)
      && t.vault.totalIn == p.vault.totalIn + amount && t.vault.totalOut == p.vault.totalOut
      && t.vault.shares >= p.vault.shares
      && t.userAgyld - p.userAgyld == t.vault.shares - p.vault.shares
      && LedgerOf(t.vault, b, sh) == MovedBy(LedgerOf(p.vault, b, sh), Buy(amount))
  {
    PricingIsTheLedger(p.vault, b, sh);
  }

  /** A public redemption is a sale on the simple ledger, at Solana's own price. */
  lemma RedeemIsASale(p: BaseLayer.Purse, b: Book, sh: Shielded, shares: u64)
    requires BaseLayer.Backed(p) && Balanced(b) && sh.totalOut <= sh.totalIn && SumsFit64(p.vault, b, sh)
    requires BaseLayer.Redeem(p, b, sh, shares).Ok?
    ensures var t := BaseLayer.Redeem(p, b, sh, shares).value;
      && BaseLayer.Backed(t)
      && t.vault.totalIn == p.vault.totalIn && t.vault.totalOut >= p.vault.totalOut
      && t.vault.shares == p.vault.shares - shares && t.userAgyld == p.userAgyld - shares
      && CanMove(LedgerOf(p.vault, b, sh), Sell(shares))
      && LedgerOf(t.vault, b, sh) == MovedBy(LedgerOf(p.vault, b, sh), Sell(shares))
  {
    PricingIsTheLedger(p.vault, b, sh);
    RedeemRoundsForThePool(LedgerOf(p.vault, b, sh), shares);
  }

  /** A change of vault that moves Solana's ledger by a flow keeps everything else in place. */
  lemma VaultMoves(cfg: Setup, w: World, user: Pubkey, t: BaseLayer.Purse, m: Move)
    requires Inv(cfg, w) && BaseLayer.Backed(t) && !m.Earn?
    requires t.vault.totalIn >= w.vault.totalIn && t.vault.totalOut >= w.vault.totalOut
    requires t.userAgyld - Held(w.agyld, user) == t.vault.shares - w.vault.shares
    requires CanMove(SolanaLedger(w), m)
    requires LedgerOf(t.vault, w.committed, w.published) == MovedBy(SolanaLedger(w), m)
    ensures Inv(cfg, WithPurse(w, user, t))
  {
    hide MovedBy, E.Good, E.Surplus, BooksInv;
    var after := WithPurse(w, user, t);
    GoodParts(cfg, w);
    TotalAfterUpdate(w.agyld, user, t.userAgyld);
    if Yield(w.committed) == 0 {
      MovesKeepPar(SolanaLedger(w), m);
    }
    GoodUnderLaterEnv(EnvAt(cfg, w, 0), EnvAt(cfg, after, 0), w.enclave);
    SeenGrows(w, after);
  }

  lemma SeenGrows(w: World, after: World)
    requires SeenInv(w)
    requires after.vaultSeen == w.vaultSeen + [after.vault] && after.publishedSeen == w.publishedSeen
    requires after.vault.totalOut <= after.vault.totalIn && after.published == w.published
    requires after.vault.totalIn >= w.vault.totalIn && after.vault.totalOut >= w.vault.totalOut
    ensures SeenInv(after)
  {
  }

  lemma DepositStep(cfg: Setup, w: World, user: Pubkey, funds: u64, amount: u64)
    requires Inv(cfg, w) && InRange(w) && InRange(Next(cfg, w, Deposit(user, funds, amount)))
    ensures var after := Next(cfg, w, Deposit(user, funds, amount));
      && Inv(cfg, after)
      && (after == w || SolanaLedger(after) == MovedBy(SolanaLedger(w), Buy(amount)))
  {
    hide E.Good, E.Surplus, EnclaveInv, BooksInv, MovedBy, BaseLayer.Deposit, LedgerOf;
    var p := PurseOf(w, user, funds);
    var r := BaseLayer.Deposit(p, w.committed, w.published, amount);
    if r.Ok? {
      RangeGivesFit(cfg, w);
      BookParts(cfg, w);
      DepositFits(w, r.value, amount, user);
      DepositIsABuy(p, w.committed, w.published, amount);
      VaultMoves(cfg, w, user, r.value, Buy(amount));
    }
  }

  lemma BookParts(cfg: Setup, w: World)
    requires Inv(cfg, w)
    ensures Balanced(w.committed) && Yield(w.committed) <= Yield(w.live)
    ensures Later(w.published, w.enclave.shielded)
  {
  }

  lemma DepositFits(w: World, t: BaseLayer.Purse, amount: u64, user: Pubkey)
    requires InRange(WithPurse(w, user, t))
    requires Yield(w.committed) <= Yield(w.live) && Later(w.published, w.enclave.shielded)
    ensures SumsFit64(t.vault, w.committed, w.published)
  {
  }

  lemma RedeemStep(cfg: Setup, w: World, user: Pubkey, funds: u64, shares: u64)
    requires Inv(cfg, w) && InRange(w)
    ensures var after := Next(cfg, w, Redeem(user, funds, shares));
      && Inv(cfg, after)
      && (after == w || (CanMove(SolanaLedger(w), Sell(shares))
           && SolanaLedger(after) == MovedBy(SolanaLedger(w), Sell(shares))))
  {
    hide E.Good, E.Surplus, EnclaveInv, BooksInv, MovedBy, BaseLayer.Redeem, LedgerOf;
    var p := PurseOf(w, user, funds);
    var r := BaseLayer.Redeem(p, w.committed, w.published, shares);
    if r.Ok? {
      RangeGivesFit(cfg, w);
      BookParts(cfg, w);
      RedeemIsASale(p, w.committed, w.published, shares);
      VaultMoves(cfg, w, user, r.value, Sell(shares));
    }
  }

  lemma TransferStep(cfg: Setup, w: World, from: Pubkey, to: Pubkey, amount: u64)
    requires Inv(cfg, w)
    ensures Inv(cfg, Next(cfg, w, TransferAgyld(from, to, amount)))
  {
    hide E.Good, E.Surplus, BooksInv, MarksInv, EnclaveInv;
    var after := Next(cfg, w, TransferAgyld(from, to, amount));
    if after != w {
      AgyldMoves(w.agyld, from, to, Held(w.agyld, from) - amount, Held(w.agyld, to) + amount);
      SameEnclave(cfg, w, after);
    }
  }

  lemma AgyldMoves(agyld: map<Pubkey, nat>, from: Pubkey, to: Pubkey, left: nat, got: nat)
    requires from != to
    requires left + got == (if from in agyld then agyld[from] else 0) + (if to in agyld then agyld[to] else 0)
    ensures Total<Pubkey>(agyld[from := left][to := got]) == Total(agyld)
  {
    TotalAfterUpdate<Pubkey>(agyld, from, left);
    TotalAfterUpdate<Pubkey>(agyld[from := left], to, got);
  }

  lemma SameEnclave(cfg: Setup, w: World, after: World)
    requires EnclaveInv(cfg, w) && after.enclave == w.enclave
    requires after.vault == w.vault && after.committed == w.committed && after.signed == w.signed
    ensures EnclaveInv(cfg, after)
  {
    assert EnvAt(cfg, after, 0) == EnvAt(cfg, w, 0);
  }

  // ------------------------------------------------------ the public rollup

  /** The live book may move on by itself as long as it balances, marks nothing new and loses no yield. */
  lemma LiveBookMoves(cfg: Setup, w: World, live: Book, absorbing: Option<Absorbing>)
    requires Inv(cfg, w) && Balanced(live) && Yield(live) >= Yield(w.live)
    requires live.markedIn >= w.live.markedIn && live.markedOut >= w.live.markedOut
    requires MarksInv(live, w.vault, w.published, absorbing)
    ensures Inv(cfg, w.(live := live, absorbing := absorbing))
  {
    hide E.Good, E.Surplus;
    assert EnvAt(cfg, w.(live := live, absorbing := absorbing), 0) == EnvAt(cfg, w, 0);
  }

  lemma NavFits(ps: PoolSet, marked: nat)
    requires Principals(ps) <= marked && marked + Accrueds(ps) < U64_MAX
    ensures MarkedValue(ps) == Worth(ps) < U64_MAX
  {
  }

  lemma TickStep(cfg: Setup, w: World, now: i64)
    requires Inv(cfg, w) && InRange(Next(cfg, w, TickBook(now)))
    ensures Inv(cfg, Next(cfg, w, TickBook(now)))
  {
    hide E.Good, E.Surplus, EnclaveInv;
    if Tick(w.live, now).Ok? {
      var live := Tick(w.live, now).value;
      AccruedToKeepsPrincipal(w.live, now);
      NavFits(live.pools, w.vault.totalIn + w.enclave.shielded.totalIn);
      TickKeepsBalance(w.live, now);
      LiveBookMoves(cfg, w, live, w.absorbing);
    }
  }

  lemma SetRateStep(cfg: Setup, w: World, index: u8, aprBps: u32, now: i64)
    requires Inv(cfg, w) && InRange(Next(cfg, w, SetRate(index, aprBps, now)))
    ensures Inv(cfg, Next(cfg, w, SetRate(index, aprBps, now)))
  {
    hide E.Good, E.Surplus, EnclaveInv;
    if SetApr(w.live, index, aprBps, now).Ok? {
      var live := SetApr(w.live, index, aprBps, now).value;
      AccruedToKeepsPrincipal(w.live, now);
      NavFits(AccruedTo(w.live, now), w.vault.totalIn + w.enclave.shielded.totalIn);
      SetAprKeepsBalance(w.live, index, aprBps, now);
      LiveBookMoves(cfg, w, live, w.absorbing);
    }
  }

  /** The keeper's reads, of any past states of Solana however old and however far apart, never send
      an absorb that Solana has not seen covered. */
  lemma KeeperReadsStep(cfg: Setup, w: World, i: nat, j: nat)
    requires Inv(cfg, w)
    ensures Inv(cfg, Next(cfg, w, KeeperReads(i, j)))
  {
    hide E.Good, E.Surplus, EnclaveInv;
    var after := Next(cfg, w, KeeperReads(i, j));
    if after != w {
      LiveBookMoves(cfg, w, w.live, after.absorbing);
    }
  }

  lemma AbsorbStep(cfg: Setup, w: World, now: i64)
    requires Inv(cfg, w) && InRange(w) && InRange(Next(cfg, w, AbsorbLands(now)))
    ensures Inv(cfg, Next(cfg, w, AbsorbLands(now)))
  {
    hide E.Good, E.Surplus, EnclaveInv;
    if w.absorbing.Some? {
      var a := w.absorbing.value;
      if Absorb(w.live, a.inflow, a.outflow, now).Ok? {
        var live := Absorb(w.live, a.inflow, a.outflow, now).value;
        AccruedToKeepsPrincipal(w.live, now);
        MovedPools(AccruedTo(w.live, now), a.inflow, a.outflow);
        NavFits(live.pools, w.vault.totalIn + w.enclave.shielded.totalIn);
        CoveredAbsorb(w.live, a.inflow, a.outflow, now);
        LiveBookMoves(cfg, w, live, None);
      } else {
        LiveBookMoves(cfg, w, w.live, None);
      }
    }
  }

  // --------------------------------------------------------- between layers

  /** A new committed book, balanced, behind the live one and with no less yield, keeps everything. */
  lemma CommittedBookMoves(cfg: Setup, w: World, committed: Book)
    requires Inv(cfg, w) && BooksInv(w.live, committed)
    requires committed.markedIn <= w.vault.totalIn + w.published.totalIn
    requires committed.markedOut <= w.vault.totalOut + w.published.totalOut
    requires Yield(committed) >= Yield(w.committed)
    ensures Inv(cfg, w.(committed := committed))
  {
    hide E.Good, E.Surplus;
    GoodParts(cfg, w);
    GoodUnderLaterEnv(EnvAt(cfg, w, 0), EnvAt(cfg, w.(committed := committed), 0), w.enclave);
  }

  lemma CommitBookStep(cfg: Setup, w: World)
    requires Inv(cfg, w)
    ensures Inv(cfg, Next(cfg, w, CommitBook))
    ensures SolanaLedger(Next(cfg, w, CommitBook))
      == MovedBy(SolanaLedger(w), Earn(Yield(w.live) - Yield(w.committed)))
  {
    CommittedBookMoves(cfg, w, w.live);
  }

  lemma CommitShieldedStep(cfg: Setup, w: World)
    requires Inv(cfg, w)
    ensures Inv(cfg, Next(cfg, w, CommitShielded))
  {
    hide E.Good, E.Surplus, BooksInv;
    var after := Next(cfg, w, CommitShielded);
    GoodParts(cfg, w);
    assert EnvAt(cfg, after, 0) == EnvAt(cfg, w, 0);
  }

  lemma MigrateStep(cfg: Setup, w: World)
    requires Inv(cfg, w)
    ensures Inv(cfg, Next(cfg, w, MigrateBook))
    ensures SolanaLedger(Next(cfg, w, MigrateBook)) == SolanaLedger(w)
  {
    hide E.Good, E.Surplus;
    assert EnvAt(cfg, Next(cfg, w, MigrateBook), 0) == EnvAt(cfg, w, 0);
  }

  // -------------------------------------------------------------- the enclave

  /** The enclave may move on by itself while its invariants hold and its flow only grows. */
  lemma EnclaveMoves(cfg: Setup, w: World, e: Enc.State)
    requires Inv(cfg, w) && Later(w.enclave.shielded, e.shielded)
    requires EnclaveInv(cfg, w.(enclave := e))
    ensures Inv(cfg, w.(enclave := e))
  {
    hide E.Good, E.Surplus, BooksInv;
  }

  lemma EnclaveTxStep(cfg: Setup, w: World, step: Step)
    requires Inv(cfg, w) && InRange(w) && step.EnclaveTx? && Allowed(cfg, w, step)
    ensures Inv(cfg, Next(cfg, w, step))
  {
    hide E.Good, E.Surplus, T.StaysInRange, Enc.RunTransaction, BooksInv;
    var env := EnvAt(cfg, w, step.now);
    GoodAtAnyTime(cfg, w, step.now);
    T.TransactionKeepsGood(env, w.enclave, step.ixs, Ledger(0, 0));
    var e := Enc.RunTransaction(env, w.enclave, step.ixs);
    GoodAtTimeZero(cfg, w.(enclave := e), step.now);
    EnclaveMoves(cfg, w, e);
  }

  lemma GoodAtAnyTime(cfg: Setup, w: World, now: i64)
    requires EnclaveInv(cfg, w)
    ensures E.Good(EnvAt(cfg, w, now), w.enclave) && E.Surplus(EnvAt(cfg, w, now), w.enclave) >= 0
  {
    GoodParts(cfg, w);
    GoodUnderLaterEnv(EnvAt(cfg, w, 0), EnvAt(cfg, w, now), w.enclave);
  }

  lemma GoodAtTimeZero(cfg: Setup, w: World, now: i64)
    requires E.Good(EnvAt(cfg, w, now), w.enclave) && E.Surplus(EnvAt(cfg, w, now), w.enclave) >= 0
    ensures EnclaveInv(cfg, w)
  {
    GoodUnderLaterEnv(EnvAt(cfg, w, now), EnvAt(cfg, w, 0), w.enclave);
  }

  lemma ShieldStep(cfg: Setup, w: World, account: Pubkey, holding: Enc.TokenHolding)
    requires Inv(cfg, w)
    ensures Inv(cfg, Next(cfg, w, Shield(account, holding)))
  {
    var after := Next(cfg, w, Shield(account, holding));
    if after != w {
      OtherTokensMayMove(EnvAt(cfg, w, 0), w.enclave, after.enclave);
      EnclaveMoves(cfg, w, after.enclave);
    }
  }

  lemma OtherTokensMayMove(env: Enc.Env, e: Enc.State, t: Enc.State)
    requires E.Good(env, e) && t == e.(tokens := t.tokens)
    requires Enc.Custody(env) in t.tokens && t.tokens[Enc.Custody(env)] == e.tokens[Enc.Custody(env)]
    ensures E.Good(env, t) && E.Surplus(env, t) == E.Surplus(env, e)
  {
  }

  lemma OpenPositionStep(cfg: Setup, w: World, address: Pubkey, owner: Pubkey, key: Pubkey, expiry: i64)
    requires Inv(cfg, w)
    ensures Inv(cfg, Next(cfg, w, OpenPosition(address, owner, key, expiry)))
  {
    var after := Next(cfg, w, OpenPosition(address, owner, key, expiry));
    if address !in w.enclave.positions {
      var p := after.enclave.positions[address];
      E.SharesAfterUpdate(w.enclave.positions, address, p);
      NewPositionIsGood(EnvAt(cfg, w, 0), w.enclave, address, p);
      EnclaveMoves(cfg, w, after.enclave);
    }
  }

  lemma NewPositionIsGood(env: Enc.Env, e: Enc.State, address: Pubkey, p: P.Position)
    requires E.Good(env, e) && address !in e.positions && p.privateShares == 0
    ensures var t := e.(positions := e.positions[address := p]);
      E.Good(env, t) && E.Surplus(env, t) == E.Surplus(env, e)
  {
    E.SharesAfterUpdate(e.positions, address, p);
  }

  lemma OwnerSignsStep(cfg: Setup, w: World, owner: Pubkey, message: Bytes)
    requires Inv(cfg, w)
    ensures Inv(cfg, Next(cfg, w, OwnerSigns(owner, message)))
  {
    hide E.Good, E.Surplus;
    GoodParts(cfg, w);
    GoodUnderLaterEnv(EnvAt(cfg, w, 0), EnvAt(cfg, Next(cfg, w, OwnerSigns(owner, message)), 0), w.enclave);
  }

  // ----------------------------------------------------------- every step, every run

  lemma NextKeepsInv(cfg: Setup, w: World, step: Step)
    requires Inv(cfg, w) && InRange(w) && Allowed(cfg, w, step)
    ensures Inv(cfg, Next(cfg, w, step)) && InRange(Next(cfg, w, step))
  {
    hide Inv, InRange;
    match step
    case Deposit(user, funds, amount) => DepositStep(cfg, w, user, funds, amount);
    case Redeem(user, funds, shares) => RedeemStep(cfg, w, user, funds, shares);
    case TransferAgyld(from, to, amount) => TransferStep(cfg, w, from, to, amount);
    case OpenPosition(address, owner, key, expiry) => OpenPositionStep(cfg, w, address, owner, key, expiry);
    case OwnerSigns(owner, message) => OwnerSignsStep(cfg, w, owner, message);
    case TickBook(now) => TickStep(cfg, w, now);
    case SetRate(index, aprBps, now) => SetRateStep(cfg, w, index, aprBps, now);
    case KeeperReads(i, j) => KeeperReadsStep(cfg, w, i, j);
    case AbsorbLands(now) => AbsorbStep(cfg, w, now);
    case AbsorbLost => AbsorbLostStep(cfg, w);
    case Shield(account, holding) => ShieldStep(cfg, w, account, holding);
    case EnclaveTx(_, _) => EnclaveTxStep(cfg, w, step);
    case CommitBook => CommitBookStep(cfg, w);
    case CommitShielded => CommitShieldedStep(cfg, w);
    case MigrateBook => MigrateStep(cfg, w);
  }

  lemma AbsorbLostStep(cfg: Setup, w: World)
    requires Inv(cfg, w)
    ensures Inv(cfg, Next(cfg, w, AbsorbLost))
  {
    hide E.Good, E.Surplus, EnclaveInv;
    LiveBookMoves(cfg, w, w.live, None);
  }

  /** Every state of every run satisfies the invariant. */
  lemma {:induction false} RunKeepsInv(cfg: Setup, w: World, steps: seq<Step>)
    requires Inv(cfg, w) && InRange(w) && AllowedRun(cfg, w, steps)
    ensures Inv(cfg, Run(cfg, w, steps)) && InRange(Run(cfg, w, steps))
    decreases |steps|
  {
    hide Inv, InRange, Next;
    if |steps| > 0 {
      NextKeepsInv(cfg, w, steps[0]);
      RunKeepsInv(cfg, Next(cfg, w, steps[0]), steps[1..]);
    }
  }
}
