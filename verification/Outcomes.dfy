/** What each flow does, exactly and in every case: when it goes through, what it then moves, and which
    error it ends with otherwise, in terms of the one ledger its layer prices on. */
module Outcomes {
  import opened Words
  import opened Arithmetic
  import opened Pools
  import opened Books
  import opened Pricing
  import opened Instructions
  import opened Exits
  import opened Protocol
  import opened ProtocolProofs
  import opened Theorems
  import opened Payouts
  import BaseLayer
  import P = Positions
  import Enc = Enclave
  import E = EnclaveProofs

  // ------------------------------------------------------------ on Solana

  /** In every state of a run, a public deposit goes through if and only if it is for something, the ledger
      mints something for it that fits a u64, and the user and the three balances can take it. It then
      moves exactly the amount one way and exactly the minted shares the other. */
  lemma DepositOutcome(cfg: Setup, w: World, user: Pubkey, funds: u64, amount: u64)
    requires Inv(cfg, w) && InRange(w)
    ensures var r := BaseLayer.Deposit(PurseOf(w, user, funds), w.committed, w.published, amount);
      var held, minted := Held(w.agyld, user), MintedFor(SolanaLedger(w), amount);
      && (r.Ok? <==>
           && amount > 0 && 0 < minted <= U64_MAX
           && amount <= funds && w.vaultUsdc + amount <= U64_MAX
           && w.agyldSupply + minted <= U64_MAX && held + minted <= U64_MAX)
      && (r.Ok? ==>
           r.value == BaseLayer.Purse(
             Vault(w.vault.shares + minted, Min(w.vault.totalIn + amount, U64_MAX), w.vault.totalOut),
             w.vaultUsdc + amount, w.agyldSupply + minted, funds - amount, held + minted))
      && (r.Err? ==>
           r.error == if amount == 0 then ZeroAmount
                      else if minted == 0 then DustDeposit
                      else if minted > U64_MAX then MathOverflow
                      else TokenProgram)
  {
    hide E.Good, E.Surplus, EnclaveInv, SeenInv, MarksInv, NavForPricing, LedgerOf, Held;
    ViewsPrice(cfg, w);
  }

  /** A public redemption goes through if and only if it is for something, the vault has counted that many
      shares, the quote is in the vault's account, and the user holds the shares and can take the quote.
      It then moves exactly the shares one way and exactly the quote the other. */
  lemma RedeemOutcome(cfg: Setup, w: World, user: Pubkey, funds: u64, shares: u64)
    requires Inv(cfg, w) && InRange(w)
    ensures var r := BaseLayer.Redeem(PurseOf(w, user, funds), w.committed, w.published, shares);
      var held, paid := Held(w.agyld, user), QuoteFor(SolanaLedger(w), shares);
      && (r.Ok? <==>
           && 0 < shares <= w.vault.shares && paid <= w.vaultUsdc
           && shares <= held && funds + paid <= U64_MAX)
      && (r.Ok? ==>
           r.value == BaseLayer.Purse(
             Vault(w.vault.shares - shares, w.vault.totalIn, w.vault.totalOut + paid),
             w.vaultUsdc - paid, w.agyldSupply - shares, funds + paid, held - shares))
      && (r.Err? ==>
           r.error == if shares == 0 then ZeroAmount
                      else if shares > w.vault.shares then InsufficientShares
                      else if paid > w.vaultUsdc then InsufficientLiquidity
                      else TokenProgram)
  {
    hide E.Good, E.Surplus, EnclaveInv, SeenInv, MarksInv, NavForPricing, LedgerOf, Held;
    ViewsPrice(cfg, w);
    LedgerSupply(w);
    if 0 < shares <= w.vault.shares {
      RedeemRoundsForThePool(SolanaLedger(w), shares);
    }
  }

  // ------------------------------------------------------------ in the enclave

  /** A ledger's price per whole share, with six decimals: one when there are no shares. */
  function PriceOf(l: Ledger): nat { if l.supply == 0 then ONE else MulDiv(l.assets, ONE, l.supply) }

  lemma EnclaveQuote(cfg: Setup, w: World, now: i64)
    requires Inv(cfg, w) && InRange(w)
    ensures w.enclave.shielded.totalOut <= w.enclave.shielded.totalIn
    ensures var l := EnclaveLedger(w);
      && l.assets <= U64_MAX && l.supply <= U64_MAX
      && NavForPricing(EnvAt(cfg, w, now).vault, EnvAt(cfg, w, now).book, w.enclave.shielded) == Ok(QuoteOf(l))
      && l.supply == w.vault.shares + w.enclave.shielded.shares
      && SharePrice(QuoteOf(l)) == if PriceOf(l) <= U64_MAX then Ok(PriceOf(l)) else Err(MathOverflow)
  {
    hide E.Good, E.Surplus, SeenInv, MarksInv, NavForPricing, LedgerOf;
    ViewsPrice(cfg, w);
    EnclaveSupply(w);
  }

  /** All shares of a position at a price, to the unit below. */
  function ValueAt(shares: nat, price: nat): nat { MulDiv(shares, price, ONE) }

  /** The entry price of `held` shares once `bought` more have joined them at `price`. */
  function BlendedAt(entry: nat, held: nat, price: nat, bought: nat): nat {
    if held + bought == 0 then entry else P.WeightedSum(entry, held, price, bought) / (held + bought)
  }

  /** `p` marked at `price`: its value and cost at its entry price, and the yield between the two. */
  function MarkedAt(p: P.Position, price: nat, now: i64): P.Position
    requires ValueAt(P.Held(p), price) <= U64_MAX && ValueAt(P.Held(p), p.entryPrice) <= U64_MAX
  {
    var value, cost := ValueAt(P.Held(p), price), ValueAt(P.Held(p), p.entryPrice);
    p.(valueUsdc := value, costBasis := cost, yieldUsdc := Monus(value, cost), syncedTs := now,
       syncs := Min(p.syncs + 1, U32_MAX))
  }

  lemma MarkIs(p: P.Position, price: u64, now: i64)
    requires P.Held(p) <= U64_MAX
    ensures var fits := ValueAt(P.Held(p), price) <= U64_MAX && ValueAt(P.Held(p), p.entryPrice) <= U64_MAX;
      P.Mark(p, price, now) == if fits then Ok(MarkedAt(p, price, now)) else Err(MathOverflow)
  {
  }

  lemma BlendIs(p: P.Position, bought: u64, price: u64)
    requires P.Held(p) + bought <= U64_MAX
    ensures BlendedAt(p.entryPrice, P.Held(p), price, bought) <= U64_MAX
    ensures P.Blend(p, bought, price) == Ok(p.(entryPrice := BlendedAt(p.entryPrice, P.Held(p), price, bought)))
  {
    if P.Held(p) + bought > 0 {
      P.BlendInRange(p.entryPrice, P.Held(p), price, bought, 0, U64_MAX);
    }
  }

  /** The owner, or the session key while the session lasts. */
  lemma MayActIff(p: P.Position, signer: Pubkey, now: i64)
    ensures P.MayAct(p, signer, now) <==>
      || signer == p.owner
      || (signer == p.sessionKey && now < p.sessionExpiry && exists i :: 0 <= i < 32 && signer[i] != 0)
  {
    if forall i :: 0 <= i < 32 ==> signer[i] == 0 {
      assert signer == ZERO_KEY;
    }
  }

  /** A position with `bought` more private shares, blended in at `price`. */
  function WithBought(p: P.Position, bought: nat, price: nat): P.Position
    requires P.Held(p) + bought <= U64_MAX && price <= U64_MAX
  {
    BlendIs(p, bought, price);
    p.(privateShares := p.privateShares + bought, entryPrice := BlendedAt(p.entryPrice, P.Held(p), price, bought))
  }

  predicate Markable(p: P.Position, price: nat) {
    ValueAt(P.Held(p), price) <= U64_MAX && ValueAt(P.Held(p), p.entryPrice) <= U64_MAX
  }

  lemma CreditIs(p: P.Position, bought: u64, price: u64, now: i64)
    requires P.Held(p) + bought <= U64_MAX
    ensures P.Credit(p, bought, price, now)
      == if Markable(WithBought(p, bought, price), price) then Ok(MarkedAt(WithBought(p, bought, price), price, now))
         else Err(MathOverflow)
  {
    hide P.Mark, P.Blend, ValueAt, BlendedAt;
    BlendIs(p, bought, price);
    MarkIs(WithBought(p, bought, price), price, now);
  }

  /** The instruction before is the depositor's transfer of this amount into the custody. */
  predicate BehindTransfer(env: Enc.Env, depositor: Pubkey, amount: u64, prev: Option<Instruction>) {
    && prev.Some?
    && IsTokenTransfer(prev.value, amount, env.ata(depositor, env.usdc), Enc.Custody(env), depositor)
  }

  /** In every state of a run, a private deposit goes through if and only if it is for something, comes
      from the position's owner or live session key, sits behind its own transfer, mints something that
      fits a u64 at the enclave's ledger, and the price and the marks fit a u64. The position then holds
      exactly the minted shares more, blended in and marked at that ledger's price, and the aggregate
      counts exactly the shares and the amount. */
  lemma CreditOutcome(cfg: Setup, w: World, now: i64, p: P.Position, depositor: Pubkey, signer: Pubkey, amount: u64,
                      prev: Option<Instruction>)
    requires Inv(cfg, w) && InRange(w)
    requires w.enclave.shielded.totalOut <= w.enclave.shielded.totalIn
    requires var minted := MintedFor(EnclaveLedger(w), amount);
      minted <= U64_MAX ==> P.Held(p) + minted <= U64_MAX && w.enclave.shielded.shares + minted <= U64_MAX
    ensures var env, sh, l := EnvAt(cfg, w, now), w.enclave.shielded, EnclaveLedger(w);
      var r := Enc.CreditDeposit(env, p, sh, depositor, signer, amount, prev);
      var minted, price := MintedFor(l, amount), PriceOf(l);
      && (r.Ok? <==>
           && amount > 0 && P.MayAct(p, signer, now) && BehindTransfer(env, depositor, amount, prev)
           && 0 < minted <= U64_MAX && price <= U64_MAX && Markable(WithBought(p, minted, price), price))
      && (r.Ok? ==>
           && r.value.0 == MarkedAt(WithBought(p, minted, price), price, now)
           && r.value.1 == Shielded(sh.shares + minted, Min(sh.totalIn + amount, U64_MAX), sh.totalOut))
      && (r.Err? ==>
           r.error == if amount == 0 then ZeroAmount
                      else if !P.MayAct(p, signer, now) then Unauthorized
                      else if !BehindTransfer(env, depositor, amount, prev) then TransferMismatch
                      else if minted == 0 then DustDeposit
                      else MathOverflow)
  {
    hide Inv, InRange, NavForPricing, SharePrice, SharesFor, Enc.CreditDeposit, LedgerOf, Markable, MarkedAt, P.MayAct,
      BehindTransfer, MintedFor, WithBought, PriceOf, QuoteOf;
    EnclaveQuote(cfg, w, now);
    FlowPositive(cfg, w);
    var env, sh, l := EnvAt(cfg, w, now), w.enclave.shielded, EnclaveLedger(w);
    if amount > 0 {
      MintIs(l, amount);
    }
    CreditAtQuote(env, p, sh, depositor, signer, amount, prev, QuoteOf(l), MintedFor(l, amount), PriceOf(l));
  }

  lemma MintIs(l: Ledger, amount: u64)
    requires l.assets <= U64_MAX && l.supply <= U64_MAX && amount > 0
    ensures var minted := MintedFor(l, amount);
      SharesFor(amount, QuoteOf(l))
        == if minted == 0 then Err(DustDeposit) else if minted > U64_MAX then Err(MathOverflow) else Ok(minted)
  {
  }

  lemma CreditAtQuote(env: Enc.Env, p: P.Position, sh: Shielded, depositor: Pubkey, signer: Pubkey, amount: u64,
                      prev: Option<Instruction>, q: Quote, minted: nat, price: nat)
    requires NavForPricing(env.vault, env.book, sh) == Ok(q)
    requires amount == 0 || SharesFor(amount, q) ==
      if minted == 0 then Err(DustDeposit) else if minted > U64_MAX then Err(MathOverflow) else Ok(minted)
    requires SharePrice(q) == if price <= U64_MAX then Ok(price) else Err(MathOverflow)
    requires minted <= U64_MAX ==> P.Held(p) + minted <= U64_MAX && sh.shares + minted <= U64_MAX
    ensures var r := Enc.CreditDeposit(env, p, sh, depositor, signer, amount, prev);
      && (r.Ok? <==>
           && amount > 0 && P.MayAct(p, signer, env.now) && BehindTransfer(env, depositor, amount, prev)
           && 0 < minted <= U64_MAX && price <= U64_MAX && Markable(WithBought(p, minted, price), price))
      && (r.Ok? ==>
           && r.value.0 == MarkedAt(WithBought(p, minted, price), price, env.now)
           && r.value.1 == Shielded(sh.shares + minted, Min(sh.totalIn + amount, U64_MAX), sh.totalOut))
      && (r.Err? ==>
           r.error == if amount == 0 then ZeroAmount
                      else if !P.MayAct(p, signer, env.now) then Unauthorized
                      else if !BehindTransfer(env, depositor, amount, prev) then TransferMismatch
                      else if minted == 0 then DustDeposit
                      else MathOverflow)
  {
    hide NavForPricing, SharePrice, SharesFor, P.Credit, IsTokenTransfer, MarkedAt, P.MayAct, WithBought, ValueAt;
    if minted <= U64_MAX && price <= U64_MAX {
      CreditIs(p, minted, price, env.now);
    }
  }

  /** What a position is left with when `shares` of its private ones are burnt. */
  function WithBurnt(p: P.Position, shares: nat): P.Position
    requires shares <= p.privateShares
  {
    p.(privateShares := p.privateShares - shares)
  }

  /** The ticket's parameters are in range: a 24-bit id, at least one part, delays in order and of a day at
      most. */
  predicate GoodParameters(t: Exit) {
    && 0 < t.groupId < 0x100_0000 && t.split >= 1
    && t.minDelayMs <= t.maxDelayMs <= 86_400_000
  }

  /** A private redemption goes through if and only if its parameters are in range, the position holds the
      shares, the enclave's ledger quotes something for them that the private custody holds, no open ticket
      has the id, a slot is free, and the price and the marks fit a u64. The position then holds exactly
      the shares fewer, marked at that ledger's price, the aggregate counts exactly the shares and the
      quote, and the ticket for the quote is open beside all others. */
  lemma ExitOutcome(cfg: Setup, w: World, now: i64, p: P.Position, shares: u64, t: Exit)
    requires Inv(cfg, w) && InRange(w) && P.Held(p) <= U64_MAX && p.privateShares <= w.enclave.shielded.shares
    requires w.enclave.shielded.totalOut <= w.enclave.shielded.totalIn
    ensures var sh, slots, l := w.enclave.shielded, w.enclave.slots, EnclaveLedger(w);
      var r := Enc.OpenExit(EnvAt(cfg, w, now), p, sh, slots, shares, t);
      var paid, price := QuoteFor(l, shares), PriceOf(l);
      && (r.Ok? <==>
           && 0 < shares <= p.privateShares && GoodParameters(t)
           && 0 < paid <= sh.totalIn - sh.totalOut
           && !HasId(slots, t.groupId) && FREE in slots
           && price <= U64_MAX && Markable(WithBurnt(p, shares), price))
      && (r.Ok? ==>
           && r.value.0 == MarkedAt(WithBurnt(p, shares), price, now)
           && r.value.1 == Shielded(sh.shares - shares, sh.totalIn, sh.totalOut + paid)
           && forall x :: IsOpen(r.value.2, x) <==> IsOpen(slots, x) || x == t.(assets := paid))
  {
    hide E.GoodRotations, E.Surplus, SeenInv, MarksInv, BooksInv, NavForPricing, SharePrice, LedgerOf, Markable,
      MarkedAt, GoodSlots, OpenTicket, P.Mark;
    EnclaveQuote(cfg, w, now);
    var l := EnclaveLedger(w);
    if 0 < shares <= p.privateShares {
      RedeemRoundsForThePool(l, shares);
      if PriceOf(l) <= U64_MAX {
        MarkIs(WithBurnt(p, shares), PriceOf(l), now);
        MarkableFits(WithBurnt(p, shares), PriceOf(l));
      }
      var paid := QuoteFor(l, shares);
      if 0 < paid <= U64_MAX && GoodParameters(t) {
        OpeningAddsOneTicket(w.enclave.slots, t.(assets := paid));
      }
    }
  }

  lemma MarkableFits(p: P.Position, price: nat)
    ensures Markable(p, price) <==>
      ValueAt(P.Held(p), price) <= U64_MAX && ValueAt(P.Held(p), p.entryPrice) <= U64_MAX
  {
  }

  // ------------------------------------------------------------ calls

  /** A position once a sync has found `held` agYLD: shares that arrived are blended in at `price`. */
  function WithHeld(p: P.Position, held: u64, price: nat): P.Position
    requires P.Held(p) <= U64_MAX && held + p.privateShares <= U64_MAX && price <= U64_MAX
  {
    if held > p.shares then
      BlendIs(p, held - p.shares, price);
      p.(shares := held, entryPrice := BlendedAt(p.entryPrice, P.Held(p), price, held - p.shares))
    else p.(shares := held)
  }

  lemma SyncIs(p: P.Position, held: u64, price: u64, now: i64)
    requires P.Held(p) <= U64_MAX && held + p.privateShares <= U64_MAX
    ensures P.Sync(p, held, price, now)
      == if Markable(WithHeld(p, held, price), price) then Ok(MarkedAt(WithHeld(p, held, price), price, now))
         else Err(MathOverflow)
  {
    hide P.Mark, P.Blend, ValueAt, BlendedAt;
    if held > p.shares {
      BlendIs(p, held - p.shares, price);
    }
    MarkIs(WithHeld(p, held, price), price, now);
  }

  /** A sync goes through if and only if it comes from the position's owner or live session key and the
      price and the marks fit a u64. It then touches that position only: the agYLD that arrived is blended
      in, and all of it marked, at the enclave's ledger. */
  lemma SyncOutcome(cfg: Setup, w: World, now: i64, signer: Pubkey, position: Pubkey, held: u64,
                    prev: Option<Instruction>)
    requires Inv(cfg, w) && InRange(w) && position in w.enclave.positions
    requires w.enclave.shielded.totalOut <= w.enclave.shielded.totalIn
    requires var p := w.enclave.positions[position];
      P.Held(p) <= U64_MAX && held + p.privateShares <= U64_MAX
    ensures var e, p, price := w.enclave, w.enclave.positions[position], PriceOf(EnclaveLedger(w));
      var r := Enc.ExecCall(EnvAt(cfg, w, now), e, SyncPosition(signer, position, held), prev);
      && (r.Ok? <==> P.MayAct(p, signer, now) && price <= U64_MAX && Markable(WithHeld(p, held, price), price))
      && (r.Ok? ==>
           r.value == e.(positions := e.positions[position := MarkedAt(WithHeld(p, held, price), price, now)]))
      && (r.Err? ==> r.error == if !P.MayAct(p, signer, now) then Unauthorized else MathOverflow)
  {
    hide Inv, InRange, NavForPricing, SharePrice, P.Sync, LedgerOf, Markable, MarkedAt, WithHeld, P.MayAct, PriceOf;
    EnclaveQuote(cfg, w, now);
    FlowPositive(cfg, w);
    var price := PriceOf(EnclaveLedger(w));
    if price <= U64_MAX {
      SyncIs(w.enclave.positions[position], held, price, now);
    }
  }

  /** Where a private redemption pays: the owner of the position, or whom the owner names. */
  function Payee(call: Call, p: P.Position): Pubkey {
    if call.RedeemPrivateTo? then call.payout else p.owner
  }

  /** What is left of a position whose shares were burnt, marked at `price`. */
  predicate BurntTo(p: P.Position, shares: nat, price: nat, now: i64, q: P.Position) {
    && shares <= p.privateShares && Markable(WithBurnt(p, shares), price)
    && q == MarkedAt(WithBurnt(p, shares), price, now)
  }

  predicate IsTicketOf(call: Call, payee: Pubkey, quote: nat, t: Exit)
    requires call.RedeemPrivate? || call.RedeemPrivateTo?
  {
    && t.assets == quote && t.owner == payee
    && t.minDelayMs == call.minDelayMs && t.maxDelayMs == call.maxDelayMs
    && t.groupId == call.groupId && t.split == call.split
  }

  /** `t` is `e` with the call's shares burnt, and a ticket for their quote on the ledger beside the others. */
  ghost predicate RedeemOpened(l: Ledger, now: i64, e: Enc.State, call: Call, t: Enc.State)
    requires call.RedeemPrivate? || call.RedeemPrivateTo?
  {
    && call.position in e.positions && call.position in t.positions
    && var p := e.positions[call.position];
    && BurntTo(p, call.shares, PriceOf(l), now, t.positions[call.position])
    && t == e.(positions := e.positions[call.position := t.positions[call.position]], shielded := t.shielded,
               slots := t.slots)
    && var quote := QuoteFor(l, call.shares);
    && forall x :: IsOpen(t.slots, x) <==> IsOpen(e.slots, x) || IsTicketOf(call, Payee(call, p), quote, x)
  }

  /** A private redemption of either kind that goes through opens one ticket, which pays the quote of its
      shares on the enclave's ledger to the payee, with the call's own id, delays and parts. */
  lemma RedeemCallOpens(cfg: Setup, w: World, now: i64, call: Call, prev: Option<Instruction>)
    requires Inv(cfg, w) && InRange(w) && (call.RedeemPrivate? || call.RedeemPrivateTo?)
    requires w.enclave.shielded.totalOut <= w.enclave.shielded.totalIn
    requires forall k :: k in w.enclave.positions ==> P.Held(w.enclave.positions[k]) <= U64_MAX
    requires Enc.ExecCall(EnvAt(cfg, w, now), w.enclave, call, prev).Ok?
    ensures RedeemOpened(EnclaveLedger(w), now, w.enclave, call,
                         Enc.ExecCall(EnvAt(cfg, w, now), w.enclave, call, prev).value)
  {
    hide Inv, InRange, Enc.OpenExit, Enc.ExecCall, IsOpen, LedgerOf, Markable, MarkedAt, PriceOf, QuoteFor,
      GoodParameters, HasId;
    FlowPositive(cfg, w);
    RedeemCallIff(EnvAt(cfg, w, now), w.enclave, call, prev);
    var p := w.enclave.positions[call.position];
    PositionWithinAggregate(cfg, w, call.position);
    ExitOutcome(cfg, w, now, p, call.shares,
                Exit(Payee(call, p), 0, call.minDelayMs, call.maxDelayMs, call.groupId, call.split));
  }

  /** It goes through if and only if it comes from the owner or, paid to the owner, the live session key,
      names somebody to pay, and `open_exit` accepts the ticket it asks for. */
  lemma RedeemCallIff(env: Enc.Env, e: Enc.State, call: Call, prev: Option<Instruction>)
    requires call.RedeemPrivate? || call.RedeemPrivateTo?
    ensures Enc.ExecCall(env, e, call, prev).Ok? <==>
      && call.position in e.positions
      && var p := e.positions[call.position];
      && (if call.RedeemPrivateTo? then call.signer == p.owner && call.payout != ZERO_KEY
          else P.MayAct(p, call.signer, env.now))
      && Enc.OpenExit(env, p, e.shielded, e.slots, call.shares,
                      Exit(Payee(call, p), 0, call.minDelayMs, call.maxDelayMs, call.groupId, call.split)).Ok?
    ensures Enc.ExecCall(env, e, call, prev).Ok? ==>
      var p := e.positions[call.position];
      var t := Exit(Payee(call, p), 0, call.minDelayMs, call.maxDelayMs, call.groupId, call.split);
      var r := Enc.OpenExit(env, p, e.shielded, e.slots, call.shares, t).value;
      Enc.ExecCall(env, e, call, prev).value
        == e.(positions := e.positions[call.position := r.0], shielded := r.1, slots := r.2)
  {
    hide Enc.OpenExit, P.MayAct;
  }

  lemma PositionWithinAggregate(cfg: Setup, w: World, k: Pubkey)
    requires Inv(cfg, w) && k in w.enclave.positions
    ensures w.enclave.positions[k].privateShares <= w.enclave.shielded.shares
  {
    hide E.GoodRotations, E.Surplus, SeenInv, MarksInv, BooksInv;
    E.SharesAfterUpdate(w.enclave.positions, k, w.enclave.positions[k]);
  }

  /** A settle goes through if and only if it comes from the vault's authority and the instruction before
      it pays, in full, an open ticket with the id it names; that ticket, and nothing else, is then gone. */
  lemma SettleOutcome(cfg: Setup, w: World, now: i64, authority: Pubkey, groupId: u32, prev: Option<Instruction>)
    requires Inv(cfg, w)
    ensures var env, e := EnvAt(cfg, w, now), w.enclave;
      var r := Enc.ExecCall(env, e, SettleExit(authority, groupId), prev);
      && (r.Ok? <==>
           && authority == cfg.authority && prev.Some?
           && exists t :: IsOpen(e.slots, t) && Settles(env, t, groupId, prev.value))
      && (r.Ok? ==>
           && r.value == e.(slots := r.value.slots)
           && forall t :: IsOpen(r.value.slots, t) <==>
                IsOpen(e.slots, t) && !Settles(env, t, groupId, prev.value))
  {
    hide E.GoodRotations, E.Surplus, SeenInv, MarksInv, BooksInv, PaysTicket, GoodSlots;
    var env, e := EnvAt(cfg, w, now), w.enclave;
    var r := Enc.ExecCall(env, e, SettleExit(authority, groupId), prev);
    if prev.Some? {
      if r.Ok? {
        ClosingRemovesOneTicket(e.slots, groupId, prev.value, env.usdc, Enc.Custody(env), env.custodyOwner);
        OneTicketPerId(e.slots, groupId);
      } else if t :| IsOpen(e.slots, t) && Settles(env, t, groupId, prev.value) {
        TicketFoundById(e.slots, t);
        E.OpenTicketsAreGood(e.slots, t);
        OpenIdIsPositive(e.slots, t);
      }
    }
  }

  predicate Settles(env: Enc.Env, t: Exit, groupId: u32, payment: Instruction) {
    t.groupId == groupId && PaysTicket(payment, t, env.usdc, Enc.Custody(env), env.custodyOwner)
  }

  lemma OpenIdIsPositive(slots: Slots, t: Exit)
    requires GoodSlots(slots) && IsOpen(slots, t)
    ensures t.groupId != 0
  {
  }

  lemma OneTicketPerId(slots: Slots, groupId: u32)
    requires GoodSlots(slots)
    ensures forall t, u :: IsOpen(slots, t) && IsOpen(slots, u) && t.groupId == groupId == u.groupId ==> t == u
  {
    forall t, u | IsOpen(slots, t) && IsOpen(slots, u) && t.groupId == groupId == u.groupId
      ensures t == u
    {
      TicketFoundById(slots, t);
      TicketFoundById(slots, u);
    }
  }
}
