# Agama on MagicBlock: the two-layer vault

One share ledger, priced from state that lives in three places and is seen at three ages: the vault and its
USDC on Solana, the pool book on a public rollup (live, and as last committed), and the private aggregate,
exit tickets and positions in an enclave (live, and as last published). Deposits, redemptions, ticks, absorbs,
rate changes, private credits, exit tickets and two kinds of commit interleave freely. The development states
the invariant that makes this behave like one simple ledger, total in less total out plus committed yield
over all shares, proves that every step keeps it, and derives what the vault promises its users.

| file | content |
|---|---|
| `Words`, `Arithmetic`, `Sums` | integer widths, saturation and casts, little-endian bytes; products and floors; sums over maps |
| `Pools`, `Books`, `PoolBook`, `BookRuns` | the pool book: values, the in-place account, and whole runs of operations on it |
| `Pricing`, `BaseLayer` | `nav_for_pricing`, the rounding of both flows, `deposit` and `redeem` |
| `Positions`, `Session`, `Exits`, `Instructions` | entry price and marks, session rotation, exit tickets and their payment bytes, the instructions read from the sysvar |
| `Enclave`, `EnclaveProofs`, `Transactions` | enclave instructions, the handlers in place, transactions as instruction sequences with rollback |
| `Protocol`, `ProtocolProofs`, `Theorems` | the whole system as one state machine, its invariant, and the main results |
| `Payouts`, `Publishing`, `Donations` | what redeemers are paid over runs, what publishing does to the price, what donations do to the vault |
| `Outcomes`, `Authority`, `Entries` | exactly when each flow goes through and what it does on the ledger; who may act on a position; entry prices over runs |
| `StaleViews` | one concrete run to states where the two layers' views have come apart |
| `Keeper` | the keeper's loop, piece by piece among everybody else's steps, and the exit payer |

Each operation is a function on values. Where the program updates accounts in place there is also a class
whose methods are proved to change the account as that function says, errors included; the state machine and
the lemmas use the function. `Theorems` is the place to start reading, `ProtocolProofs.Inv` the invariant.

## Assumptions

The results about whole runs hold under these assumptions, each of which the code needs.

- **Sums stay inside u64** (`ProtocolProofs.InRange`, `Transactions.StaysInRange`): total inflow plus yield, and
  total shares, stay below the end of a u64 after every step. Casts, saturating operations and trapping
  overflows are modelled as they are; this says they do not bite.
- **Absorbs come from the keeper, one at a time** (`Protocol.KeeperReads`): it reads any two past states of the
  vault and of the published aggregate, possibly of different ages, and the live book, and its absorb lands or
  is lost for good before it reads again. `Keeper.KeeperInterleaves` shows that the loop never has two out.
  For any other absorb, `Books.AbsorbKeepsBalanceIff` says exactly when it breaks the book.
- **Nobody sends USDC straight to the vault's account, nor burns agYLD outside `redeem`.** `Protocol.Donate` is a
  step like any other, and `Donations` says over all runs what it does and exactly when a redemption can draw on
  it; the other results are about runs without one. USDC sent to the private custody is harmless and allowed.
- **The custody key signs nothing but queued payments, each right before a settle**
  (`EnclaveProofs.CustodyDisciplined`), and instructions run at top level. The program's own comment at
  `programs/agama-magicblock/src/lib.rs:993-995` notes that the key could do otherwise.
- **The enclave reads the current vault and the committed book.** Solana reads the committed book and the
  published aggregate.
- **The clock** may do anything in the state machine; only the results about elapsed time
  (`BookRuns.MissedTicksAreCaughtUp`, `BookRuns.ExtraTickCostsAtMostOneUnit`) need it not to go back, and
  `BookRuns.CreditsElapsedTimeIff` says why.
- **Trusted from other programs:** SPL Token moves, mints and burns exactly what it is asked or refuses; a
  queued payment debits exactly its amount from its source with its owner's signature; the Ed25519 precompile lets a
  transaction through only if every signature it lists is by its key over its message, wherever in the transaction
  those are (`Session.PrecompilePasses`); associated accounts are a function of
  owner and mint.

## Where the code and its documentation differ

- `programs/agama-magicblock/src/lib.rs:1083-1087` says a private flow not yet published leaves Solana's price
  alone. It does (`SolanaFollowsTheLedger`), and publishing it leaves the price at or above
  (`PrivateFlowKeepsEnclaveAbove`), but not once yield has been committed on top: the two views then divide it by
  different supplies. `PublishingKeepsThePriceIff` gives the exact condition for any state,
  `CommittedYieldLowersThePriceIff` for a commit on top of a private run, and
  `StaleViews.PublishingCanLowerThePrice` a run that gets there. So the price is proved not to fall between
  publications, not across them.
- `lib.rs:899-900` says that the two kinds of share are always worth the same. Private flow is priced on the live
  aggregate and public flow on the published one, so they are not between publications: a public redemption at the
  older price takes from the private holders exactly when `PublicFlowAndThePrivatePrice` says, and
  `PublicRedemptionCanCostPrivateHolders` is a run in which it leaves them below what they paid.
- Nothing in the code says how much of the NAV can be withdrawn. Accrued yield is not in custody, so redemptions
  and tickets together pay the whole NAV if and only if no yield is committed (`EmptyingPaysTheNavIff`).
- `lib.rs:1080-1081` and `README.md:96-101` say the price does not step at a commit. Deployed and undeployed
  capital do not make it step, but newly committed yield does, upwards (`CommitBookStep`).
- `lib.rs:567` says the marks only move forward, and `lib.rs:1415-1416` that nothing is lost in funding. Both hold;
  but an absorb whose outflow is not covered marks out more than it takes from the pools
  (`UncoveredAbsorbUnbalances`).
- `lib.rs:542-544` calls a tick idempotent and a missed one caught up. That holds up to rounding
  (`MissedTicksAreCaughtUp`, `ExtraTickCostsAtMostOneUnit`) on a clock that does not go back: `last_ts` is rewritten even when
  nothing accrued, so seconds behind a backward step are paid twice (`ClockSteppingBackPaysTwice`).
- `lib.rs:776` says every admitted viewer is kept by a rotation. A viewer who is the old session key is not
  (`RotationKeepsViewers`).
- `lib.rs:1276-1278` says a session key cannot move a token. It can open an exit ticket, paid only to the
  position's owner (`SessionKeyCannotRedirect`).

## Model

| member | source | states |
|---|---|---|
| `Theorems.BothLayersPriceOneLedger` | programs/agama-magicblock/src/lib.rs:1088-1108 | In every reachable state of the whole system `nav_for_pricing` succeeds on Solana (published aggregate) and in the enclave (live aggregate), so `BookAheadOfVault` never fires, and returns total in less total out plus the committed yield, over all shares that view sees |
| `Theorems.SolanaPriceNeverFalls` | programs/agama-magicblock/src/lib.rs:214-325 | From any state with shares outstanding, over any run without a publication of the private aggregate, Solana's NAV per share (by cross-multiplication) never falls, whatever deposits, redemptions, ticks, absorbs, rate changes, commits, migrations and private transactions interleave, even through an empty supply |
| `Theorems.RedeemLeavesSupply` | programs/agama-magicblock/src/lib.rs:278-283 | In every state of a run with committed yield, an accepted public redemption burns fewer shares than Solana sees: the last one would pay more than the vault holds |
| `Theorems.EnclavePriceNeverFalls` | programs/agama-magicblock/src/lib.rs:901-936 | From any state with shares outstanding, while nobody deposits or redeems on Solana, the enclave's NAV per share never falls, whatever private transactions, ticks, absorbs, commits and publications interleave |
| `Theorems.SolanaFollowsTheLedger` | programs/agama-magicblock/src/lib.rs:605-614 | Step by step: a deposit is a purchase on the one ledger, a redemption a sale, a book commit earns exactly the newly committed yield, publishing switches to the enclave's ledger, and no other step (migration, tick, absorb, private flow) moves it |
| `Theorems.PrivateFlowKeepsEnclaveAbove` | programs/agama-magicblock/src/lib.rs:1083-1087 | From a moment the two views agree, private flow, ticks, absorbs and rate changes leave the enclave's price at or above Solana's, and publishing then does not lower Solana's |
| `Publishing.PublishingKeepsThePriceIff` | programs/agama-magicblock/src/lib.rs:1036-1045 | From any state of any run, publishing leaves Solana's price where it was or above if and only if the unpublished private flow paid, on net, at least Solana's present price for its shares |
| `Publishing.CommittedYieldLowersThePriceIff` | programs/agama-magicblock/src/lib.rs:1083-1087 | Why that comment fails: from agreeing views, after any private run and then a book commit, publishing lowers Solana's price if and only if the unpublished shares times the yield just committed exceed what rounding left for the pool; that slack is never negative, and k private deposits and redemptions leave it at most k parts in the public supply of the larger of the enclave's assets and supply |
| `Publishing.RunRoundsUp` | programs/agama-magicblock/src/lib.rs:918-923 | Over k private deposits and redemptions rounding lifts the enclave's price by at most k parts in the public supply of the larger of that price and one |
| `StaleViews.PublishingCanLowerThePrice` | programs/agama-magicblock/src/lib.rs:1083-1087 | A state reached by a run from the set-up, from which publishing lowers Solana's price from 2.000000 to 1.009900 |
| `Theorems.BooksAlwaysBalance` | programs/agama-magicblock/src/lib.rs:568-589 | In every reachable state both books satisfy nav = Σ(principal + accrued) and Σ principal = marked_in - marked_out, and neither they nor an absorb in flight have marked more than Solana sees |
| `Theorems.AbsorbMovesOnlyYield` | programs/agama-magicblock/src/lib.rs:568-589 | A keeper absorb landing moves pricing NAV by exactly the yield accrued to that instant, and leaves the supply and the principal-against-marks balance as they were |
| `Theorems.FreshAbsorbCatchesUp` | scripts/keeper.ts:79-96 | In every reachable state, reading what Solana shows now and landing the absorb marks all the flow Solana knows, and leaves in the pools exactly what both custodies took in less what they gave out |
| `Theorems.MigrationIsCaughtUp` | programs/agama-magicblock/src/lib.rs:363-385 | Of a live book that only ticked since its last commit, one tick of the migrated copy to the same instant credits each pool what the live one had, plus at most what rounding had cost it |
| `Theorems.CommitThenMigrate` | programs/agama-magicblock/src/lib.rs:372-385 | Of a book just committed, migration changes nothing |
| `Theorems.ZeroNavMeansNoShares` | programs/agama-magicblock/src/lib.rs:220-225 | In every reachable state the NAV is zero only when there are no shares, in both views: the one-to-one branch never dilutes a holder |
| `Theorems.RedeemFailsOnlyForTheUser` | programs/agama-magicblock/src/lib.rs:271-283 | In every reachable state a redemption can fail only for a zero amount, the user's own shares or balance, or liquidity; never by dividing by zero or for a book ahead of the vault |
| `Theorems.ExitFailsOnlyForTheUser` | programs/agama-magicblock/src/lib.rs:1150-1185 | In every reachable state burning private shares fails only for its parameters, the position's own shares, dust, liquidity, a full exit book or an amount past a u64; never by dividing by zero or for a book ahead of the vault |
| `Outcomes.DepositOutcome` | programs/agama-magicblock/src/lib.rs:214-268 | In every state of a run: a deposit goes through if and only if it is for something, Solana's ledger mints something for it that fits a u64, and the user and the three balances can take it; it then moves exactly the amount and the minted shares; otherwise which error it ends with, dust included |
| `Outcomes.RedeemOutcome` | programs/agama-magicblock/src/lib.rs:271-325 | The same for a redemption: shares counted by the vault, the ledger's quote in its account, shares held by the user |
| `Outcomes.CreditOutcome` | programs/agama-magicblock/src/lib.rs:901-936 | The same for a private deposit: signer, transfer before it, minted shares and price on the enclave's ledger; the position then holds exactly the minted shares more, blended in and marked at that ledger's price, and the aggregate counts shares and amount |
| `Outcomes.ExitOutcome` | programs/agama-magicblock/src/lib.rs:1140-1186 | The same for a private redemption: parameters in range, the ledger's quote held by the custody, an unused id and a free slot; the position is then marked at the ledger's price, and the ticket for the quote is open beside all others |
| `Outcomes.RedeemCallIff` | programs/agama-magicblock/src/lib.rs:951-986 | A private redemption of either kind goes through if and only if the owner or, paid to the owner, the live session key signed, somebody is named to pay, and `open_exit` accepts exactly the ticket asked for |
| `Outcomes.RedeemCallOpens` | programs/agama-magicblock/src/lib.rs:951-986 | It then opens one ticket, for the quote on the enclave's ledger, to that payee, with the call's own id, delays and parts, and touches no other position |
| `Outcomes.SettleOutcome` | programs/agama-magicblock/src/lib.rs:996-1032 | A settle goes through if and only if the vault's authority sends it behind a payment in full of an open ticket with its id, and removes that ticket alone |
| `Outcomes.SyncOutcome` | programs/agama-magicblock/src/lib.rs:734-761 | A sync goes through if and only if the owner or live session key signed and price and marks fit a u64; arrivals are blended in, and everything marked, at the enclave's ledger price, on that position alone |
| `Authority.ActingNeedsAuthority` | programs/agama-magicblock/src/lib.rs:1279-1291 | An accepted instruction that deposits to, redeems from or syncs a position was signed by its owner or, unless it names the payee, by its session key, set and before its expiry |
| `Authority.OthersLeaveItAlone` | programs/agama-magicblock/src/lib.rs:1279-1291 | Any other instruction leaves a position as it was, but for a rotation on it, which changes the session only |
| `Authority.TicketsNeedAuthority` | programs/agama-magicblock/src/lib.rs:1136-1140 | Only private redemptions open tickets |
| `Authority.TransactionNeedsAuthority` | programs/agama-magicblock/src/lib.rs:1279-1291 | A transaction changes a position, beyond its session, only if it goes through and carries such an instruction with that authority at that point |
| `Authority.StepNeedsAuthority` | programs/agama-magicblock/src/lib.rs:1279-1291 | And no other step of the system changes a position at all |
| `Outcomes.MayActIff` | programs/agama-magicblock/src/lib.rs:1279-1291 | Who may act, written out: the owner, or the session key when it is not all zero bytes and now is before its expiry |
| `Payouts.RedeemersGetTheirQuote` | programs/agama-magicblock/src/lib.rs:271-325 | Over any run without a publication, every accepted public redemption pays at least what its shares were quoted at on Solana at the start, whatever happened in between |
| `Payouts.ExitersGetTheirQuote` | programs/agama-magicblock/src/lib.rs:1150-1185 | Over any run without public flow, every private redemption opens a ticket for at least what its shares were quoted at in the enclave at the start |
| `Payouts.PayoutsStayWithinCustody` | programs/agama-magicblock/src/lib.rs:280-283 | Over any run, what redeemers are paid and ticket holders promised comes to at most the NAV at the start less its committed yield, plus what was deposited on the way |
| `Payouts.EmptyingPaysTheNavIff` | programs/agama-magicblock/src/lib.rs:1163-1166 | A run that redeems every share, public and private, without committing more yield pays out the NAV at the start, and the deposits on the way, if and only if no yield was committed |
| `Payouts.RunPays` | programs/agama-magicblock/src/lib.rs:314-316 | Over any run the outflow the two sides count grows by exactly what redemptions paid and tickets promised, and inflow never falls |
| `Payouts.NavIsCustodyAndYield` | programs/agama-magicblock/src/lib.rs:1075-1082 | In every state of a run the enclave's NAV is the vault's USDC, what the private custody holds beside its tickets, and the committed yield |
| `Payouts.PublicFlowAndThePrivatePrice` | programs/agama-magicblock/src/lib.rs:897-900 | A public deposit or redemption moves the enclave's ledger at Solana's price, and leaves the private price where it was or above if and only if it mints, or pays, at most what the enclave would |
| `Payouts.PublicFlowSpares` | programs/agama-magicblock/src/lib.rs:897-900 | So a redemption spares the private price when that is at or above Solana's, and a deposit when it is at or below |
| `StaleViews.PublicRedemptionCanCostPrivateHolders` | programs/agama-magicblock/src/lib.rs:897-900 | A state reached by a run in which ten private shares are quoted at 10, and a public redemption at Solana's older price leaves them quoted at 7, in a pool of 11 over 15 shares |
| `Theorems.PublicRoundTrip` | programs/agama-magicblock/src/lib.rs:214-325 | Depositing and at once redeeming the minted shares returns at most the amount, loses less than NAV/(supply + minted) + 1 units, and restores the share counts |
| `Theorems.PrivateRoundTrip` | programs/agama-magicblock/src/lib.rs:901-936 | The same bound for `deposit_private` followed by `open_exit`: the ticket is for at most the deposit and short of it by less than one share's worth plus one unit |
| `Theorems.EveryTicketCanBePaid` | programs/agama-magicblock/src/lib.rs:1163-1166 | In every reachable state the custody holds at least total_in - total_out plus all open tickets, and any set of open tickets can be paid and closed in any order, leaving exactly the others open |
| `Theorems.SharesAndTicketsAddUp` | programs/agama-magicblock/src/lib.rs:1159-1184 | In every reachable state vault shares are the agYLD held, private shares are the sum over positions and no position holds more, and open tickets have distinct 24-bit ids |
| `Theorems.TicketsStayOpenUntilPaid` | programs/agama-magicblock/src/lib.rs:993-1030 | Over any run an open ticket stays open and unchanged until a transaction that goes through settles it right behind its payment in full |
| `Theorems.EachSignedMessageRotatesOnce` | programs/agama-magicblock/src/lib.rs:777-796 | In every reachable state the accepted rotations of a position expire ever later, each was signed by the owner, and no two used the same signed message |
| `Donations.OutflowIsInflowOrDonation` | programs/agama-magicblock/src/lib.rs:257-259 | Over any run at all, with any donations, keeper and custody key, the vault's USDC is inflow and donations less outflow, its supply is the agYLD held, and outflow is within inflow and donations |
| `Donations.OverdrawIff` | programs/agama-magicblock/src/lib.rs:278-283 | Some redemption of a user takes outflow above inflow if and only if the fewest shares quoted above the vault's net inflow are among those held and their quote is within the vault's balance |
| `Donations.OnlyDonationsAreOverdrawn` | programs/agama-magicblock/src/lib.rs:280-283 | That never holds without a donation |
| `Donations.DonationUnbalancesTheVault` | programs/agama-magicblock/src/lib.rs:280-283 | From a state reached by a run, one donation and one redemption take 20 out of a vault that took in 10 |
| `ProtocolProofs.NextKeepsInv` | programs/agama-magicblock/src/lib.rs:1075-1108 | Every step of every party but a donation, fifteen kinds, keeps the global invariant |
| `ProtocolProofs.RunKeepsInv` | programs/agama-magicblock/src/lib.rs:1075-1108 | So does every run |
| `ProtocolProofs.InitialHolds` | programs/agama-magicblock/src/lib.rs:143-178 | The set-up vault, book, aggregate and exit book satisfy it, for pools of any rates and weights |
| `ProtocolProofs.DepositIsABuy` | programs/agama-magicblock/src/lib.rs:214-268 | On a backed vault and a balanced book a public deposit is a purchase on the simple ledger, to the unit |
| `ProtocolProofs.RedeemIsASale` | programs/agama-magicblock/src/lib.rs:271-325 | A public redemption is a sale on the simple ledger, to the unit |
| `ProtocolProofs.KeeperReadsStep` | scripts/keeper.ts:79-96 | Whatever past states of the vault and of the published aggregate the keeper reads, of different ages, the absorb it sends keeps the invariant: it will mark no more than Solana shows, and leave the book's outflow within its inflow |
| `ProtocolProofs.AbsorbStep` | programs/agama-magicblock/src/lib.rs:568-589 | That absorb landing, or failing to, keeps the invariant |
| `ProtocolProofs.CommitBookStep` | programs/agama-magicblock/src/lib.rs:605-614 | A book commit keeps the invariant and moves Solana's ledger by exactly the newly committed yield |
| `ProtocolProofs.MigrateStep` | programs/agama-magicblock/src/lib.rs:372-385 | Restarting the live book from its last committed state keeps the invariant and moves no price |
| `ProtocolProofs.CommitShieldedStep` | programs/agama-magicblock/src/lib.rs:1036-1045 | Publishing the private aggregate keeps the invariant |
| `ProtocolProofs.EnclaveTxStep` | programs/agama-magicblock/src/lib.rs:883-1032 | Any enclave transaction, accepted or rolled back, keeps the invariant |
| `Pricing.PricingIsTheLedger` | programs/agama-magicblock/src/lib.rs:1088-1108 | On a balanced book, `nav_for_pricing` succeeds if and only if the marks are within both custodies' flow, fails only with `BookAheadOfVault`, and otherwise is the simple ledger |
| `Pricing.DepositRoundsForThePool` | programs/agama-magicblock/src/lib.rs:220-225 | A deposit never lowers NAV/supply and raises it by less than a factor 1 + 1/(supply after) |
| `Pricing.RedeemRoundsForThePool` | programs/agama-magicblock/src/lib.rs:278-279 | A redemption never lowers NAV/supply, raises it by less than 1/(supply after), never pays more than is there, and pays everything when it burns everything |
| `Pricing.RoundTripBounds` | programs/agama-magicblock/src/lib.rs:220-225 | Buying and at once selling on the simple ledger returns at most the amount, with the loss bounded |
| `Pricing.MovesKeepThePrice` | programs/agama-magicblock/src/lib.rs:220-225 | No purchase, sale or yield lowers the price of a positive supply |
| `Pricing.PriceOrderIsTransitive` | programs/agama-magicblock/src/lib.rs:1259-1265 | Comparing prices by cross-multiplication is transitive through a positive supply |
| `Pricing.MoveUpholds` | programs/agama-magicblock/src/lib.rs:220-225 | A price floor survives every purchase, sale and yield, and an emptied supply that starts again at one to one |
| `Pricing.MovesKeepPar` | programs/agama-magicblock/src/lib.rs:1075-1082 | Without yield, assets stay equal to supply: unmarked dollars are worth exactly par |
| `Pricing.SharePriceIsPerShare` | programs/agama-magicblock/src/lib.rs:1260-1265 | `share_price` is NAV per share with six decimals rounded down, and one for an empty supply |
| `BaseLayer.DepositIsBacked` | programs/agama-magicblock/src/lib.rs:228-259 | A public deposit moves exactly the amount from user to vault, mints to the user exactly what the vault counts, and keeps the vault backed |
| `BaseLayer.RedeemIsBacked` | programs/agama-magicblock/src/lib.rs:285-316 | A public redemption burns and pays exactly what the vault counts, and never takes out more than came in |
| `BaseLayer.Accounts.DepositHandler` | programs/agama-magicblock/src/lib.rs:214-268 | The handler on the accounts succeeds, fails and changes every account as the value-level deposit does |
| `BaseLayer.Accounts.RedeemHandler` | programs/agama-magicblock/src/lib.rs:271-325 | The same for `redeem` |
| `BaseLayer.VaultAccount.constructor` | programs/agama-magicblock/src/lib.rs:143-153 | `initialize` leaves an empty vault |
| `Pools.PartsMakeTheAmount` | programs/agama-magicblock/src/lib.rs:1417-1431 | The four parts `fund` computes are each between 0 and the amount and sum to it exactly, for every weight vector, all-zero included |
| `Pools.FundPlacesExactly` | programs/agama-magicblock/src/lib.rs:1417-1431 | `fund` raises total principal by exactly the amount, pool by pool by its part, and touches no accrued yield |
| `Pools.ShareFits` | programs/agama-magicblock/src/lib.rs:1426 | The `as u64` cast on a weighted part loses nothing |
| `Pools.DefundTakesWhatIsThere` | programs/agama-magicblock/src/lib.rs:1434-1444 | `defund` takes exactly the smaller of the amount and the principal, drains pools strictly in order, and touches no accrued yield |
| `Pools.AccrualOnlyAddsYield` | programs/agama-magicblock/src/lib.rs:1447-1457 | Accrual moves no principal and lowers no accrued balance |
| `Pools.AYearEarnsTheRate` | programs/agama-magicblock/src/lib.rs:1451-1455 | Over 365 days a pool earns its rate in hundredths of a percent of its principal, rounded down |
| `Pools.MarkedIsWorth` | programs/agama-magicblock/src/lib.rs:1459-1463 | The saturating fold over the pools is the exact Σ(principal + accrued), capped once |
| `Books.TickKeepsBalance` | programs/agama-magicblock/src/lib.rs:545-553 | A tick keeps the book balanced, moves no mark, and never lowers yield |
| `Books.ReplayedTickAdvancesNothing` | programs/agama-magicblock/src/lib.rs:542-553 | A tick replayed at the same instant changes nothing but the tick count |
| `Books.SetAprKeepsBalance` | programs/agama-magicblock/src/lib.rs:592-601 | A rate change accrues every pool at the old rate first, then sets the rate of that pool, and keeps the book balanced |
| `Books.AbsorbKeepsBalanceIff` | programs/agama-magicblock/src/lib.rs:568-589 | An absorb keeps the book balanced if and only if the outflow marked after it is within the inflow marked after it |
| `Books.UncoveredAbsorbUnbalances` | programs/agama-magicblock/src/lib.rs:578-580 | A concrete absorb that breaks the balance: `defund` is capped while `marked_out` grows by the full outflow |
| `Books.CoveredAbsorb` | programs/agama-magicblock/src/lib.rs:568-589 | A covered absorb marks and places exactly the flow it was told and adds only the yield accrued to that instant |
| `Books.AbsorbFillsThenDrains` | programs/agama-magicblock/src/lib.rs:568-589 | Pool by pool: the inflow is placed first and the outflow then leaves the first pools, so what the first i pools hold is what they would have held less the outflow |
| `Books.NoTrapWithinACentury` | programs/agama-magicblock/src/lib.rs:1447-1457 | No accrual over up to 2^32 seconds overflows a u128 or an i64, whatever the pools |
| `Books.BookStepsGoThrough` | programs/agama-magicblock/src/lib.rs:545-601 | In that time a tick and an absorb always go through, and a rate change if and only if there is such a pool, else with `BadPool` |
| `Books.LongerAccrualsTrap` | programs/agama-magicblock/src/lib.rs:1451-1454 | A concrete book and a time four times as long on which the tick aborts |
| `Books.AccrualCanVanish` | programs/agama-magicblock/src/lib.rs:1455 | A concrete pool whose yield of 2^64 units is lost whole in the `as u64` cast |
| `PoolBookAccount.PoolBook.constructor` | programs/agama-magicblock/src/lib.rs:157-178 | `init_book` leaves an empty, balanced book of the given pools |
| `PoolBookAccount.PoolBook.Migrate` | programs/agama-magicblock/src/lib.rs:372-385 | The new book is an exact copy of the legacy one |
| `PoolBookAccount.PoolBook.Fund` | programs/agama-magicblock/src/lib.rs:1417-1431 | The in-place loop with its running `placed` gives every pool exactly its part and changes nothing else |
| `PoolBookAccount.PoolBook.Defund` | programs/agama-magicblock/src/lib.rs:1434-1444 | The in-place loop with its early exit leaves the pools drained in order, each by what it owes after those before it |
| `PoolBookAccount.PoolBook.Accrue` | programs/agama-magicblock/src/lib.rs:1447-1457 | The in-place loop folds the yield of the elapsed seconds into every pool, or nothing on a clock that did not advance |
| `PoolBookAccount.PoolBook.Marked` | programs/agama-magicblock/src/lib.rs:1459-1463 | The fold returns the worth of the pools, capped |
| `PoolBookAccount.PoolBook.Tick` | programs/agama-magicblock/src/lib.rs:545-553 | On the account, `tick` is the value-level tick |
| `PoolBookAccount.PoolBook.Absorb` | programs/agama-magicblock/src/lib.rs:568-589 | On the account, `absorb` is the value-level absorb |
| `PoolBookAccount.PoolBook.SetApr` | programs/agama-magicblock/src/lib.rs:592-601 | On the account, `set_apr` is the value-level rate change, with `BadPool` for an index past the pools |
| `BookRuns.InterestIsSimpleInterest` | programs/agama-magicblock/src/lib.rs:1447-1457 | Over any run of ticks, absorbs and rate changes each pool is credited at most its exact simple interest Σ principal·apr·dt, and short of it by less than one unit per accrual |
| `BookRuns.ExtraTickCostsAtMostOneUnit` | programs/agama-magicblock/src/lib.rs:538-553 | A tick inserted anywhere in a run, between two of its operations, lowers each pool's final accrued balance by 0 or 1 unit and changes nothing else but the tick count |
| `BookRuns.MissedTicksAreCaughtUp` | programs/agama-magicblock/src/lib.rs:363-371 | One tick to an instant credits what any run of ticks up to it credits, plus at most the rounding those ticks lost |
| `BookRuns.TicksCreditTime` | programs/agama-magicblock/src/lib.rs:538-553 | With only ticks, the exact interest depends on the seconds credited and not on how they are cut up |
| `BookRuns.CreditsElapsedTimeIff` | programs/agama-magicblock/src/lib.rs:1447-1451 | A run credits exactly the time that passed if and only if the clock never went back |
| `BookRuns.ClockSteppingBackPaysTwice` | programs/agama-magicblock/src/lib.rs:1448-1451 | A concrete run on a clock that steps back is paid 150 seconds of yield for 100 |
| `BookRuns.CapitalSpreadsByWeight` | programs/agama-magicblock/src/lib.rs:1417-1431 | After k inflow-only absorbs, with ticks and rate changes between them, the first three pools are each within k units below their exact weighted share of the inflow and the last within 3k above |
| `Positions.EntryStaysSound` | programs/agama-magicblock/src/lib.rs:1110-1121 | Over any run of syncs, private credits and redemptions, the entry price lies within the range of prices paid, never exceeds the exact share-weighted average, and is below it by less than the number of blends |
| `Positions.EntryOfANewPosition` | programs/agama-magicblock/src/lib.rs:1110-1121 | The same from a freshly opened position |
| `Entries.EntryStaysSoundOverRuns` | programs/agama-magicblock/src/lib.rs:1110-1121 | Over any run of the system a position's entry price stays in the range of the enclave's ledger prices it paid, never exceeds their exact share-weighted average, and is below it by less than the number of purchases |
| `Entries.EntryOfAnOpenedPosition` | programs/agama-magicblock/src/lib.rs:330-361 | The same from the moment it is opened |
| `Entries.ActingIsItsEvent` | programs/agama-magicblock/src/lib.rs:925-930 | An accepted private deposit, redemption or sync changes the position exactly as its event does at the ledger's price |
| `Positions.EventEntry` | programs/agama-magicblock/src/lib.rs:745-760 | Only a purchase moves the entry price: redemptions, syncs that find no more agYLD and empty credits leave it alone |
| `Positions.ReplayedSyncOnlyRestamps` | programs/agama-magicblock/src/lib.rs:749-760 | A replayed sync changes nothing but the timestamp and the count |
| `Positions.MarkValuesAndCosts` | programs/agama-magicblock/src/lib.rs:1124-1134 | `mark` values and costs all shares to within a unit, shows the yield as the difference or zero, and touches nothing else |
| `Positions.PositionAccount.BlendEntry` | programs/agama-magicblock/src/lib.rs:1111-1121 | In place, `blend_entry` is the value-level blend |
| `Positions.PositionAccount.MarkTo` | programs/agama-magicblock/src/lib.rs:1124-1134 | In place, `mark` is the value-level mark |
| `Positions.PositionAccount.SyncPosition` | programs/agama-magicblock/src/lib.rs:745-760 | In place, the sync blends arrivals first, then mirrors the balance, then marks |
| `Instructions.BuiltTransferIsRead` | programs/agama-magicblock/src/lib.rs:1233-1257 | The SPL transfer the client builds is recognised for exactly its own amount, accounts and authority |
| `Instructions.TransferAcceptedIff` | programs/agama-magicblock/src/lib.rs:1233-1257 | Exactly the bytes of a `Transfer` or `TransferChecked` of the amount, with that source, destination and signing authority in the form's own places, are accepted |
| `Session.KeyTextIsUnique` | scripts/private.ts:190-192 | Base-58 key text determines the key |
| `Session.MessageIsInjective` | programs/agama-magicblock/src/lib.rs:1198-1203 | The session message determines position, key and expiry |
| `Session.BuiltVerificationIsRead` | programs/agama-magicblock/src/lib.rs:1209-1229 | The precompile instruction the client builds is accepted for exactly the signer and message it carries |
| `Session.VerificationAcceptedIff` | programs/agama-magicblock/src/lib.rs:1209-1229 | A verification is accepted exactly for one signature, all three instruction indices 0xFFFF, and that key and message at the offsets its bytes name |
| `Session.RotationAcceptedIff` | programs/agama-magicblock/src/lib.rs:777-796 | Next to the client's verification a rotation goes through if and only if the key is not the zero key, the expiry is after now and the present one and at most seven days and an hour ahead, and the owner signed exactly this message |
| `Session.MessageFits` | programs/agama-magicblock/src/lib.rs:1198-1203 | The message always fits the precompile's 16-bit length |
| `Session.RotationWasSigned` | programs/agama-magicblock/src/lib.rs:777-796 | An accepted rotation was signed by the owner for exactly this position, key and expiry, moves the expiry forward, and leaves only the owner and the new key able to act |
| `Session.ReplayIsRefused` | programs/agama-magicblock/src/lib.rs:773-775 | The same signed message is refused ever after, as long as the expiry does not go back |
| `Session.RotationKeepsViewers` | programs/agama-magicblock/src/lib.rs:798-822 | After a rotation the readers are the owner, the new key, and exactly the earlier readers other than the old key |
| `Session.RotationGivesRoles` | programs/agama-magicblock/src/lib.rs:1332-1361 | After a rotation the owner heads the list with the owner's role, and everybody else, the new session key included, is a viewer |
| `Session.Permission.CarriedOver` | programs/agama-magicblock/src/lib.rs:803-808 | The viewers gathered from the member list are those it names other than the owner and the old key, in order |
| `Session.RotateSessionHandler` | programs/agama-magicblock/src/lib.rs:777-826 | The handler accepts, refuses and writes as the value-level rotation does; a private position's list is then headed by its only owner, and read by owner, new key and the earlier readers but the old key |
| `Exits.OpeningAddsOneTicket` | programs/agama-magicblock/src/lib.rs:1169-1179 | A ticket opens if and only if its id is unused and a slot is free; then it is added, nothing else changes, and ids stay distinct |
| `Exits.ClosingRemovesOneTicket` | programs/agama-magicblock/src/lib.rs:996-1032 | Closing removes exactly the ticket with that id, next to its payment, and what is owed falls by its amount |
| `Exits.TicketFoundById` | programs/agama-magicblock/src/lib.rs:1001-1005 | The slot scan finds an open ticket by its id |
| `Exits.PaymentBytesAreUnique` | programs/agama-magicblock/src/lib.rs:1008-1020 | 32 bytes decode to a ticket's fields if and only if they are that ticket's encoding |
| `Exits.AcceptedPaymentIsTheTicket` | programs/agama-magicblock/src/lib.rs:1007-1029 | `settle_exit` accepts a payment if and only if it is the ticket's encoding with the right accounts and the custody's signature |
| `Exits.OnePaymentOneTicket` | programs/agama-magicblock/src/lib.rs:1013-1029 | One payment never pays two different tickets |
| `Exits.BuiltPaymentIsAccepted` | scripts/private.ts:117-182 | The payment built for a ticket is accepted for it |
| `Exits.WriteLe` | scripts/private.ts:156-162 | Writing an integer little-endian into the buffer fills exactly its bytes |
| `Exits.PaymentBuffer` | scripts/private.ts:154-162 | The buffer filled field by field is the ticket's encoding |
| `Exits.ExitBook.Find` | programs/agama-magicblock/src/lib.rs:1169-1178 | The scan returns the first slot with the id |
| `Exits.ExitBook.Open` | programs/agama-magicblock/src/lib.rs:1169-1179 | In place, opening is the value-level opening, and a refusal changes nothing |
| `Exits.ExitBook.Settle` | programs/agama-magicblock/src/lib.rs:996-1032 | In place, settling is the value-level closing, and a refusal changes nothing |
| `EnclaveProofs.CreditIsABuy` | programs/agama-magicblock/src/lib.rs:901-936 | A private credit is a purchase on the simple ledger at the enclave's price, and position and aggregate gain the same shares |
| `EnclaveProofs.ExitIsASale` | programs/agama-magicblock/src/lib.rs:1150-1185 | A private redemption is a sale on the simple ledger for exactly the ticket it opens, and position and aggregate lose the same shares |
| `EnclaveProofs.ExitLeavesSupply` | programs/agama-magicblock/src/lib.rs:1163-1166 | While there is committed yield a private redemption never burns the last share |
| `EnclaveProofs.ExecKeepsGood` | programs/agama-magicblock/src/lib.rs:883-1032 | Every instruction of a disciplined transaction keeps the enclave's invariants and moves the custody's surplus by exactly its transfer, credit, payment or settle |
| `Enclave.DepositPrivateHandler` | programs/agama-magicblock/src/lib.rs:901-936 | The handler on the accounts credits, refuses and writes as the value-level credit does |
| `Enclave.RedeemPrivateAccounts.OpenExitHandler` | programs/agama-magicblock/src/lib.rs:1140-1186 | `open_exit` on position, aggregate and exit book is the value-level redemption |
| `Transactions.EveryCreditHasItsTransfer` | programs/agama-magicblock/src/lib.rs:890-895 | In an accepted transaction of any length every credit sits behind its own transfer of exactly that amount, and every settle behind a full payment of exactly the open ticket it closes |
| `Transactions.CreditsAreTransferred` | programs/agama-magicblock/src/lib.rs:890-914 | An accepted transaction in which the custody key signs no transfer never credits more than it brought into the custody from other accounts |
| `Transactions.TransactionKeepsGood` | programs/agama-magicblock/src/lib.rs:883-1032 | Any transaction, accepted or rolled back, keeps the enclave's invariants, never lowers the custody's surplus and never lowers the private price |
| `Transactions.OpenTicketCanBePaid` | scripts/private.ts:117-137 | In a solvent enclave the two instructions built for an open ticket go through, close that ticket only, and keep the surplus |
| `Transactions.TicketsCanBePaidInAnyOrder` | scripts/private-keeper.ts:99-105 | So any open tickets can be paid in any order |
| `Transactions.TicketsStayUntilSettled` | programs/agama-magicblock/src/lib.rs:993-1030 | An open ticket stays as it is until an instruction settles it next to its payment |
| `Transactions.SessionKeyCannotRedirect` | programs/agama-magicblock/src/lib.rs:941-986 | A new ticket was asked for by the position's owner, or by its live session key and then pays the owner |
| `Keeper.AbsorbMarksTheMaximum` | scripts/keeper.ts:79-96 | An absorb is sent exactly when the flow read exceeds a mark, in or out, with exactly the two excesses; after the absorb step the marks are the maximum of what they were and what was read, and the same reads send nothing more |
| `Keeper.KeeperInterleaves` | scripts/keeper.ts:71-160 | However the pieces of the loop between its network waits, on reads of any age and with any outcome, interleave with everybody else's steps, what happens is a run of the protocol with at most one absorb out, so under the run's assumptions the invariant holds throughout |
| `Keeper.PieceIsAStep` | scripts/keeper.ts:79-139 | Each piece changes the books exactly as the protocol step it stands for |
| `Keeper.TurnIsItsPieces` | scripts/keeper.ts:71-160 | A turn is its pieces with nobody in between, and ends idle whatever the network did |
| `Keeper.PiecesStaySponsored` | scripts/keeper.ts:123-139 | The count of reported commits stays within the limit and no commit is asked for beyond it; the committed book becomes the live one, and only with a commit or undelegation; only accepted ticks are counted |
| `Keeper.HealthyTurn` | scripts/keeper.ts:71-139 | A turn on which everything goes through absorbs when due, then ticks, then commits the book as just ticked when due, or recycles at the limit |
| `Keeper.CadenceHolds` | scripts/keeper.ts:79-123 | Of as many healthy turns in a row as the cadence says, exactly one absorbs, and exactly one commits or recycles |
| `Keeper.FailedTurnsRetry` | scripts/keeper.ts:140-152 | A turn that fails before its tick is counted leaves the next one to try the same |
| `Keeper.FailedTurnHeals` | scripts/keeper.ts:140-152 | A failed turn is over unless the error says that the book is not delegated; then, if everything lands, healing leaves the rollup with the book and a fresh count |
| `Keeper.RecycleFinishes` | scripts/recycle.ts:34-109 | A recycle leaves Solana with the book, the rollup with it one tick on and a fresh count, and one cut off after undelegating and resumed ends the same |
| `Keeper.BookKeeper.AbsorbStep` | scripts/keeper.ts:79-96 | In place, from reads to report, the absorb step is its two pieces, and reports whether the turn goes on |
| `Keeper.BookKeeper.Recycle` | scripts/recycle.ts:34-109 | In place, recycling undelegates (which commits), delegates and proves with a tick, resumes where an earlier one was cut off, and clears the count only when all of it was reported |
| `Keeper.BookKeeper.CommitStep` | scripts/keeper.ts:123-139 | In place, the commit step commits, recycles at the limit or when told it is reached, and otherwise fails |
| `Keeper.BookKeeper.TryTurn` | scripts/keeper.ts:72-139 | In place, the body of the `try` is its pieces, and says whether it threw |
| `Keeper.BookKeeper.TurnOfTheLoop` | scripts/keeper.ts:71-152 | In place, a turn is the specified turn, with a failed one healed by recycling when the error says that the book is not delegated |
| `Keeper.PassClosesWhatIsDue` | scripts/private-keeper.ts:94-106 | A pass over a solvent exit book, however its payments fare, closes exactly the tickets it paid, all due, and keeps the custody as solvent; not cut short, it closes every due one |
| `Keeper.PrivateKeeper.PayExits` | scripts/private-keeper.ts:94-106 | The pass, in place, pays the due tickets in slot order, one transaction each, until one is not reported, and remembers open ids only, with their first sight |
| `Keeper.PrivateKeeper.Forget` | scripts/private-keeper.ts:98 | Going through the ids one by one, exactly those of open tickets are kept, each with its first sight |
| `Keeper.PrivateKeeper.Note` | scripts/private-keeper.ts:100-101 | A ticket's first sight is kept, and it is due once the grace has passed |
| `Keeper.GraceIsKept` | scripts/private-keeper.ts:100-101 | A ticket first seen by one pass is due in a later one exactly once the grace has gone by since |

## Left out

- Delivery of commits: a commit copies the account to Solana in one step. The seconds between sending and landing, rent top-ups, the router and the polling are not modelled.
- Keeper.BookKeeper.Recycle: its first tick is sent once, where the script retries it up to ten times, and the reads that check where the book is are taken to be right.
- RPC, websockets, logging, stall detection, the sponsor refill, and the private keeper's own commits, recycling and healing.
- Keeper.PrivateKeeper.PayExits: assumes that nobody else acts in the enclave between its read and its payments; `Theorems.TicketsStayOpenUntilPaid` is what holds of a ticket otherwise. The grace is keyed by group id, and an id reused after settling is only treated as new when a pass saw it gone.
- Theorems.SolanaPriceNeverFalls: between publications of the private aggregate only, because across them it is false (see `Publishing.PublishingKeepsThePriceIff`); and from a state with shares outstanding, because before that there is no price.
- Theorems.EnclavePriceNeverFalls: without public flow only, because with it it is false (see `Payouts.PublicFlowAndThePrivatePrice`).
- Theorems.EachSignedMessageRotatesOnce: for positions that stay in the enclave. `authorize_session` on Solana may set an earlier expiry and is modelled only as the state a position enters with.
- Session.BuiltVerificationIsRead: messages longer than a 16-bit length are outside the precompile's layout. Signatures themselves are a set of (key, message) pairs.
- Position addresses, mints and the vault's own addresses are opaque keys; PDA seeds, Anchor's account and signer checks (which keys sign a call, who the authority is) are fields of the decoded call, and Borsh is not modelled.
- SPL Token: transfers, mints and burns only. Delegates, freezing, closing accounts, the decimals of `TransferChecked` and native SOL are not modelled; users' USDC on Solana is a parameter of each step rather than tracked state.
- Pool names and sectors, events, the faucet, `init_permission`, `set_permission`, `close_permission` and `init_shielded_permission`.
- Outcomes.CreditOutcome: and `ExitOutcome`, `SyncOutcome`, `RedeemCallOpens`: for positions whose public and private shares together fit a u64; past that the program saturates the sum.
- A position's agYLD balance as `sync_position` reads it is a parameter: the model does not say it equals the holding on Solana.
- The shield, stealth-key and encrypted-destination builders of `scripts/private.ts`, random group ids, delays and splits as a means of privacy, and the secrecy of the enclave.
- The in-place handlers take read-only accounts (book, vault, aggregate) as values, and an instruction that fails midway is rolled back by the runtime, not by the method.
