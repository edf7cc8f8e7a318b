/** One run of the whole system, step by step, to states where the two layers' views have come apart:
    publishing lowers Solana's price, and a public redemption costs the private holders. */
module StaleViews {
  import opened Words
  import opened Pools
  import opened Books
  import opened Pricing
  import opened Instructions
  import opened Exits
  import opened Protocol
  import opened ProtocolProofs
  import opened Theorems
  import opened Payouts
  import BaseLayer
  import P = Positions
  import Enc = Enclave
  import E = EnclaveProofs
  import T = Transactions

  /** The keys of the run: a public user, a private position and its owner, and the throwaway key the
      owner deposits from. */
  datatype Cast = Cast(cfg: Setup, user: Pubkey, owner: Pubkey, position: Pubkey, depositor: Pubkey)

  function Account(c: Cast): Pubkey { c.cfg.ata(c.depositor, c.cfg.usdc) }

  function CustodyOf(c: Cast): Pubkey { c.cfg.ata(c.cfg.custodyOwner, c.cfg.usdc) }

  predicate GoodCast(c: Cast) { c.depositor != c.cfg.custodyOwner && Account(c) != CustodyOf(c) }

  /** One pool at a hundred percent a year takes all the capital. */
  const ENTRIES: PoolSet := [Pool(10_000, 1, 0, 0), EMPTY_POOL, EMPTY_POOL, EMPTY_POOL]

  ghost predicate Reached(c: Cast, w: World) { exists steps :: Reaches(c.cfg, ENTRIES, 0, steps, w) }

  lemma Start(c: Cast)
    ensures Reached(c, Initial(c.cfg, ENTRIES, 0))
  {
    assert Reaches(c.cfg, ENTRIES, 0, [], Initial(c.cfg, ENTRIES, 0));
  }

  lemma {:induction false} RunGrows(cfg: Setup, w: World, steps: seq<Step>, step: Step)
    requires AllowedRun(cfg, w, steps) && Allowed(cfg, Run(cfg, w, steps), step)
    ensures AllowedRun(cfg, w, steps + [step])
    ensures Run(cfg, w, steps + [step]) == Next(cfg, Run(cfg, w, steps), step)
    decreases |steps|
  {
    hide Allowed, Next;
    if |steps| == 0 {
      assert (steps + [step])[1..] == [];
    } else {
      assert (steps + [step])[1..] == steps[1..] + [step];
      RunGrows(cfg, Next(cfg, w, steps[0]), steps[1..], step);
    }
  }

  lemma Then(c: Cast, w: World, step: Step)
    requires Reached(c, w) && Allowed(c.cfg, w, step)
    ensures Reached(c, Next(c.cfg, w, step))
  {
    hide Allowed, Next, AllowedRun, Run;
    var steps :| Reaches(c.cfg, ENTRIES, 0, steps, w);
    RunGrows(c.cfg, Initial(c.cfg, ENTRIES, 0), steps, step);
    assert Reaches(c.cfg, ENTRIES, 0, steps + [step], Next(c.cfg, w, step));
  }

  // ------------------------------------------------------------ the public side

  /** The book with all its capital in the first pool. */
  function BookOf(principal: u32, accrued: u32, lastTs: u32, ticks: u32): Book {
    Book([Pool(10_000, 1, principal, accrued), EMPTY_POOL, EMPTY_POOL, EMPTY_POOL],
         principal + accrued, principal, 0, lastTs, ticks)
  }

  /** The user deposits 10. */
  function Deposited(c: Cast): World {
    Initial(c.cfg, ENTRIES, 0).(
      vault := Vault(10, 10, 0), vaultUsdc := 10, agyldSupply := 10, agyld := map[c.user := 10],
      vaultSeen := [Vault(0, 0, 0), Vault(10, 10, 0)])
  }

  lemma DepositedNext(c: Cast)
    ensures Next(c.cfg, Initial(c.cfg, ENTRIES, 0), Deposit(c.user, 10, 10)) == Deposited(c)
    ensures Allowed(c.cfg, Initial(c.cfg, ENTRIES, 0), Deposit(c.user, 10, 10))
  {
    var w := Initial(c.cfg, ENTRIES, 0);
    assert NavForPricing(w.vault, w.committed, w.published) == Ok(Quote(0, 0));
    assert map[][c.user := 10] == map[c.user := 10];
  }

  /** The keeper reads it and sends the absorb. */
  function Read(c: Cast): World { Deposited(c).(absorbing := Some(Absorbing(10, 0))) }

  lemma ReadNext(c: Cast)
    ensures Next(c.cfg, Deposited(c), KeeperReads(1, 0)) == Read(c)
    ensures Allowed(c.cfg, Deposited(c), KeeperReads(1, 0))
  {
  }

  /** It lands. */
  function Absorbed(c: Cast): World { Deposited(c).(live := BookOf(10, 0, 0, 0)) }

  lemma AbsorbedNext(c: Cast)
    ensures Next(c.cfg, Read(c), AbsorbLands(0)) == Absorbed(c)
    ensures Allowed(c.cfg, Read(c), AbsorbLands(0))
  {
    FirstPoolTakesAll();
  }

  lemma FirstPoolTakesAll()
    ensures Absorb(Book(ENTRIES, 0, 0, 0, 0, 0), 10, 0, 0) == Ok(BookOf(10, 0, 0, 0))
  {
    assert Share(ENTRIES, 10, 0) == 10 && Share(ENTRIES, 10, 1) == Share(ENTRIES, 10, 2) == 0;
    assert Funded(ENTRIES, 10) == BookOf(10, 0, 0, 0).pools;
  }

  /** A year later the pool has earned 10. */
  function Ticked(c: Cast): World { Deposited(c).(live := BookOf(10, 10, SECONDS_PER_YEAR, 1)) }

  lemma TickedNext(c: Cast)
    ensures Next(c.cfg, Absorbed(c), TickBook(SECONDS_PER_YEAR)) == Ticked(c)
    ensures Allowed(c.cfg, Absorbed(c), TickBook(SECONDS_PER_YEAR))
  {
    AYearEarnsTen();
  }

  lemma AYearEarnsTen()
    ensures Tick(BookOf(10, 0, 0, 0), SECONDS_PER_YEAR) == Ok(BookOf(10, 10, SECONDS_PER_YEAR, 1))
  {
    var b := BookOf(10, 0, 0, 0);
    assert YieldNumerator(b.pools[0], SECONDS_PER_YEAR) == 10 * YIELD_SCALE;
    assert forall i :: 1 <= i < POOL_COUNT ==> YieldNumerator(b.pools[i], SECONDS_PER_YEAR) == 0;
    assert AccruedPools(b.pools, SECONDS_PER_YEAR) == BookOf(10, 10, SECONDS_PER_YEAR, 1).pools;
  }

  lemma TickedIsReached(c: Cast)
    ensures Reached(c, Ticked(c))
  {
    hide Next, Reached, Allowed;
    Start(c);
    DepositedNext(c);
    Then(c, Initial(c.cfg, ENTRIES, 0), Deposit(c.user, 10, 10));
    ReadNext(c);
    Then(c, Deposited(c), KeeperReads(1, 0));
    AbsorbedNext(c);
    Then(c, Read(c), AbsorbLands(0));
    TickedNext(c);
    Then(c, Absorbed(c), TickBook(SECONDS_PER_YEAR));
  }

  /** The book commits with nobody in the enclave. */
  function Earned(c: Cast): World { Ticked(c).(committed := BookOf(10, 10, SECONDS_PER_YEAR, 1)) }

  lemma EarnedIsReached(c: Cast)
    ensures Reached(c, Earned(c))
  {
    hide Reached;
    TickedIsReached(c);
    Then(c, Ticked(c), CommitBook);
  }

  // ------------------------------------------------------------ the private side

  /** A position, and 1000 shielded with the throwaway key. */
  function Shielding(c: Cast): World {
    var w := Ticked(c);
    w.(enclave := w.enclave.(positions := map[c.position := P.Opened(c.owner)],
                             tokens := w.enclave.tokens[Account(c) := Enc.TokenHolding(c.depositor, c.cfg.usdc, 1000)]))
  }

  function Opening(c: Cast): Step { OpenPosition(c.position, c.owner, ZERO_KEY, 0) }

  function Shields(c: Cast): Step { Shield(Account(c), Enc.TokenHolding(c.depositor, c.cfg.usdc, 1000)) }

  lemma ShieldingNext(c: Cast)
    requires GoodCast(c)
    ensures Next(c.cfg, Next(c.cfg, Ticked(c), Opening(c)), Shields(c)) == Shielding(c)
    ensures Allowed(c.cfg, Ticked(c), Opening(c))
    ensures Allowed(c.cfg, Next(c.cfg, Ticked(c), Opening(c)), Shields(c))
  {
    assert map[][c.position := P.Opened(c.owner)] == map[c.position := P.Opened(c.owner)];
  }

  /** The 1000 are deposited privately, at par: no yield has been committed yet. */
  function PrivateDeposit(c: Cast): seq<Instruction> {
    [TransferIx(Account(c), CustodyOf(c), c.depositor, 1000),
     Instruction(Agama, [], [], DepositPrivate(c.depositor, c.owner, c.position, 1000))]
  }

  function Bought(c: Cast): P.Position {
    P.Opened(c.owner).(privateShares := 1000, valueUsdc := 1000, costBasis := 1000, syncs := 1)
  }

  function Credited(c: Cast): World {
    var w := Shielding(c);
    w.(enclave := w.enclave.(
      shielded := Shielded(1000, 1000, 0), positions := map[c.position := Bought(c)],
      tokens := w.enclave.tokens[Account(c) := Enc.TokenHolding(c.depositor, c.cfg.usdc, 0)]
                                [CustodyOf(c) := Enc.TokenHolding(c.cfg.custodyOwner, c.cfg.usdc, 1000)]))
  }

  function Transferred(c: Cast): Enc.State {
    Shielding(c).enclave.(tokens := Credited(c).enclave.tokens)
  }

  lemma TransferRuns(c: Cast)
    requires GoodCast(c)
    ensures Enc.Exec(EnvAt(c.cfg, Shielding(c), 0), Shielding(c).enclave, PrivateDeposit(c), 0) == Ok(Transferred(c))
  {
    hide LeBytes;
    var ix := PrivateDeposit(c)[0];
    BuiltTransferIsRead(Account(c), CustodyOf(c), c.depositor, 1000, 1000, Account(c), CustodyOf(c), c.depositor);
    assert TransferShape(ix).Some? && TransferShape(ix).value.amount == 1000;
  }

  lemma CreditRuns(c: Cast)
    requires GoodCast(c)
    ensures Enc.Exec(EnvAt(c.cfg, Shielding(c), 0), Transferred(c), PrivateDeposit(c), 1) == Ok(Credited(c).enclave)
  {
    hide IsTokenTransfer, TransferIx;
    var env, p := EnvAt(c.cfg, Shielding(c), 0), P.Opened(c.owner);
    BuiltTransferIsRead(Account(c), CustodyOf(c), c.depositor, 1000, 1000, Account(c), CustodyOf(c), c.depositor);
    assert NavForPricing(env.vault, env.book, Shielded(0, 0, 0)) == Ok(Quote(10, 10));
    assert SharesFor(1000, Quote(10, 10)) == Ok(1000) && SharePrice(Quote(10, 10)) == Ok(ONE);
    FirstPurchase(p);
    assert map[c.position := p][c.position := Bought(c)] == map[c.position := Bought(c)];
  }

  lemma FirstPurchase(p: P.Position)
    requires p == P.Opened(p.owner)
    ensures P.Credit(p, 1000, ONE, 0)
      == Ok(p.(privateShares := 1000, valueUsdc := 1000, costBasis := 1000, syncs := 1))
  {
    assert P.Blend(p, 1000, ONE) == Ok(p);
  }

  lemma CreditedNext(c: Cast)
    requires GoodCast(c)
    ensures Next(c.cfg, Shielding(c), EnclaveTx(PrivateDeposit(c), 0)) == Credited(c)
    ensures Allowed(c.cfg, Shielding(c), EnclaveTx(PrivateDeposit(c), 0))
  {
    hide Enc.Exec, TransferIx;
    var env, ixs := EnvAt(c.cfg, Shielding(c), 0), PrivateDeposit(c);
    TransferRuns(c);
    CreditRuns(c);
    assert Enc.ExecFrom(env, Credited(c).enclave, ixs, 2) == Ok(Credited(c).enclave);
    assert Enc.ExecFrom(env, Transferred(c), ixs, 1) == Ok(Credited(c).enclave);
    assert T.StaysInRange(env, Credited(c).enclave, ixs, 2);
    assert T.StaysInRange(env, Transferred(c), ixs, 1);
    OnlyTheDepositorSigns(c);
  }

  lemma OnlyTheDepositorSigns(c: Cast)
    requires GoodCast(c)
    ensures E.CustodyDisciplined(EnvAt(c.cfg, Shielding(c), 0), PrivateDeposit(c))
  {
    var ixs := PrivateDeposit(c);
    assert ixs[0].accounts == [AccountMeta(Account(c), false), AccountMeta(CustodyOf(c), false),
                               AccountMeta(c.depositor, true)];
    assert ixs[1].accounts == [];
  }

  // ---------------------------------------------- the views come apart

  /** The book commits the 10 it earned: Solana counts it over 10 shares, the enclave over 1010. */
  function Split(c: Cast): World { Credited(c).(committed := BookOf(10, 10, SECONDS_PER_YEAR, 1)) }

  lemma SplitIsReached(c: Cast)
    requires GoodCast(c)
    ensures Reached(c, Split(c))
  {
    hide Next, Reached, Allowed;
    TickedIsReached(c);
    ShieldingNext(c);
    Then(c, Ticked(c), Opening(c));
    Then(c, Next(c.cfg, Ticked(c), Opening(c)), Shields(c));
    CreditedNext(c);
    Then(c, Shielding(c), EnclaveTx(PrivateDeposit(c), 0));
    SplitNext(c);
    Then(c, Credited(c), CommitBook);
  }

  lemma SplitNext(c: Cast)
    ensures Next(c.cfg, Credited(c), CommitBook) == Split(c)
    ensures Allowed(c.cfg, Credited(c), CommitBook)
  {
  }

  /** A reachable state from which publishing the private aggregate lowers Solana's share price, from
      2.000000 to 1.009900. */
  lemma PublishingCanLowerThePrice(c: Cast)
    requires GoodCast(c)
    ensures Reached(c, Split(c)) && Reached(c, Next(c.cfg, Split(c), CommitShielded))
    ensures var w, after := Split(c), Next(c.cfg, Split(c), CommitShielded);
      && NavForPricing(w.vault, w.committed, w.published) == Ok(Quote(20, 10))
      && SharePrice(Quote(20, 10)) == Ok(2_000_000)
      && NavForPricing(after.vault, after.committed, after.published) == Ok(Quote(1020, 1010))
      && SharePrice(Quote(1020, 1010)) == Ok(1_009_900)
  {
    hide Reached;
    SplitIsReached(c);
    Then(c, Split(c), CommitShielded);
  }

  /** The private holder redeems 990 of the 1000 shares at the enclave's price, for 999. */
  function Leaving(c: Cast): seq<Instruction> {
    [Instruction(Agama, [], [], RedeemPrivate(c.owner, c.position, 990, 1, 0, 0, 1))]
  }

  function Left(c: Cast): World {
    var w := Split(c);
    w.(enclave := w.enclave.(
      shielded := Shielded(10, 1000, 999),
      positions := map[c.position := LeftPosition(c)],
      slots := w.enclave.slots[0 := Exit(c.owner, 999, 0, 0, 1, 1)]))
  }

  lemma LeftNext(c: Cast)
    requires GoodCast(c)
    ensures Next(c.cfg, Split(c), EnclaveTx(Leaving(c), 0)) == Left(c)
    ensures Allowed(c.cfg, Split(c), EnclaveTx(Leaving(c), 0))
  {
    hide Enc.Exec;
    var env, e, ixs := EnvAt(c.cfg, Split(c), 0), Split(c).enclave, Leaving(c);
    ExitRuns(c);
    assert Enc.ExecFrom(env, Left(c).enclave, ixs, 1) == Ok(Left(c).enclave);
    assert T.StaysInRange(env, Left(c).enclave, ixs, 1);
    assert ixs[0].accounts == [];
  }

  lemma ExitRuns(c: Cast)
    requires GoodCast(c)
    ensures Enc.Exec(EnvAt(c.cfg, Split(c), 0), Split(c).enclave, Leaving(c), 0) == Ok(Left(c).enclave)
  {
    hide Enc.OpenExit;
    ExitOpens(c);
    assert map[c.position := Bought(c)][c.position := LeftPosition(c)] == map[c.position := LeftPosition(c)];
  }

  function LeftPosition(c: Cast): P.Position {
    Bought(c).(privateShares := 10, valueUsdc := 10, costBasis := 10, syncs := 2)
  }

  lemma ExitOpens(c: Cast)
    ensures Enc.OpenExit(EnvAt(c.cfg, Split(c), 0), Bought(c), Shielded(1000, 1000, 0), Split(c).enclave.slots, 990,
                         Exit(c.owner, 0, 0, 0, 1, 1))
      == Ok((LeftPosition(c), Shielded(10, 1000, 999), Left(c).enclave.slots))
  {
    hide P.Debit, OpenTicket;
    var env, slots := EnvAt(c.cfg, Split(c), 0), Split(c).enclave.slots;
    assert NavForPricing(env.vault, env.book, Shielded(1000, 1000, 0)) == Ok(Quote(1020, 1010));
    assert AssetsFor(990, Quote(1020, 1010)) == Ok(999) && SharePrice(Quote(1020, 1010)) == Ok(1_009_900);
    LastShares(c);
    FirstSlot(slots, Exit(c.owner, 999, 0, 0, 1, 1));
  }

  lemma LastShares(c: Cast)
    ensures P.Debit(Bought(c), 990, 1_009_900, 0) == Ok(LeftPosition(c))
  {
  }

  lemma FirstSlot(slots: Slots, t: Exit)
    requires (forall i :: 0 <= i < EXIT_SLOTS ==> slots[i] == FREE) && t.groupId != 0
    ensures OpenTicket(slots, t) == Ok(slots[0 := t])
  {
    assert FirstWith(slots, 0) == 0;
  }

  /** A reachable state in which the private holder's 10 shares are quoted at 10, and a public redemption
      of 5 shares, at the price Solana still believes, leaves them quoted at 7, below what was paid. */
  lemma PublicRedemptionCanCostPrivateHolders(c: Cast)
    requires GoodCast(c)
    ensures Reached(c, Left(c)) && Reached(c, Next(c.cfg, Left(c), Redeem(c.user, 0, 5)))
    ensures var w, after := Left(c), Next(c.cfg, Left(c), Redeem(c.user, 0, 5));
      && after.vault.shares == w.vault.shares - 5
      && EnclaveLedger(w) == Ledger(21, 20) && EnclaveLedger(after) == Ledger(11, 15)
      && QuoteFor(EnclaveLedger(w), 10) == 10 && QuoteFor(EnclaveLedger(after), 10) == 7
  {
    hide Reached;
    SplitIsReached(c);
    LeftNext(c);
    Then(c, Split(c), EnclaveTx(Leaving(c), 0));
    RedeemsAtTheOldPrice(c);
    Then(c, Left(c), Redeem(c.user, 0, 5));
  }

  lemma RedeemsAtTheOldPrice(c: Cast)
    ensures Allowed(c.cfg, Left(c), Redeem(c.user, 0, 5))
    ensures var after := Next(c.cfg, Left(c), Redeem(c.user, 0, 5));
      && after.vault == Vault(5, 10, 10)
      && after.enclave == Left(c).enclave && after.committed == Left(c).committed
  {
    var w := Left(c);
    assert NavForPricing(w.vault, w.committed, w.published) == Ok(Quote(20, 10));
    assert AssetsFor(5, Quote(20, 10)) == Ok(10);
  }
}
