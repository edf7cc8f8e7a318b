/** What every transaction in the enclave keeps: backed credits, payable tickets, shares that add
    up, pricing that follows the simple ledger, and rotations that were signed and only move on. */
module EnclaveProofs {
  import opened Words
  import opened Books
  import opened Pricing
  import opened Instructions
  import opened Exits
  import opened Sums
  import opened Enclave
  import P = Positions
  import S = Session

  // -------------------------------------------------------------- invariants

  ghost function PrivateShares(ps: map<Pubkey, P.Position>): map<Pubkey, nat> {
    map k | k in ps :: ps[k].privateShares
  }

  predicate EnvOk(env: Env) {
    Balanced(env.book) && env.vault.totalOut <= env.vault.totalIn
  }

  /** The enclave's view can price: it sees at least the flow the committed book has marked. */
  predicate CanPrice(env: Env, sh: Shielded) {
    && sh.totalOut <= sh.totalIn
    && env.book.markedIn <= env.vault.totalIn + sh.totalIn
    && env.book.markedOut <= env.vault.totalOut + sh.totalOut
  }

  predicate InRange(env: Env, sh: Shielded) { SumsFit64(env.vault, env.book, sh) }

  function LedgerIn(env: Env, sh: Shielded): Ledger
    requires EnvOk(env) && CanPrice(env, sh)
  {
    LedgerOf(env.vault, env.book, sh)
  }

  /** Without committed yield there is nothing to price apart: every share is worth exactly one unit. */
  predicate AtPar(env: Env, sh: Shielded)
    requires EnvOk(env) && CanPrice(env, sh)
  {
    Yield(env.book) == 0 ==> LedgerIn(env, sh).assets == LedgerIn(env, sh).supply
  }

  /** Accepted rotations were signed by the owner, and per position each expires later than the last. */
  predicate GoodRotations(env: Env, e: State) {
    && (forall i :: 0 <= i < |e.rotations| ==>
         var r := e.rotations[i];
         && r.position in e.positions
         && r.owner == e.positions[r.position].owner
         && r.expiry <= e.positions[r.position].sessionExpiry
         && (r.owner, S.SessionMessage(r.position, r.sessionKey, r.expiry)) in env.signed)
    && (forall i, j :: 0 <= i < j < |e.rotations| && e.rotations[i].position == e.rotations[j].position ==>
         e.rotations[i].expiry < e.rotations[j].expiry)
  }

  ghost predicate Good(env: Env, e: State) {
    && EnvOk(env) && CanPrice(env, e.shielded) && AtPar(env, e.shielded)
    && e.shielded.shares == Total(PrivateShares(e.positions))
    && GoodSlots(e.slots)
    && Custody(env) in e.tokens && e.tokens[Custody(env)].owner == env.custodyOwner
    && GoodRotations(env, e)
  }

  // ----------------------------------------------------------------- pricing

  /** A private credit is a purchase on the simple ledger, at the enclave's own price. */
  lemma CreditIsABuy(env: Env, p: P.Position, sh: Shielded, depositor: Pubkey, signer: Pubkey, amount: u64,
                     prev: Option<Instruction>)
    requires EnvOk(env) && CanPrice(env, sh) && InRange(env, sh) && p.privateShares <= sh.shares
    requires CreditDeposit(env, p, sh, depositor, signer, amount, prev).Ok?
    requires InRange(env, CreditDeposit(env, p, sh, depositor, signer, amount, prev).value.1)
    ensures var (q, t) := CreditDeposit(env, p, sh, depositor, signer, amount, prev).value;
      && CanPrice(env, t) && amount > 0
      && LedgerIn(env, t) == MovedBy(LedgerIn(env, sh), Buy(amount))
      && t.totalIn == sh.totalIn + amount && t.totalOut == sh.totalOut
      && t.shares - sh.shares == q.privateShares - p.privateShares
      && q.owner == p.owner && q.sessionKey == p.sessionKey && q.sessionExpiry == p.sessionExpiry
  {
    hide P.Mark, P.WeightedSum;
    PricingIsTheLedger(env.vault, env.book, sh);
    var quote := NavForPricing(env.vault, env.book, sh).value;
    CreditKeeps(p, SharesFor(amount, quote).value, SharePrice(quote).value, env.now);
  }

  lemma CreditKeeps(p: P.Position, shares: u64, price: u64, now: i64)
    requires P.Credit(p, shares, price, now).Ok?
    ensures var q := P.Credit(p, shares, price, now).value;
      && q.privateShares == SatAdd(p.privateShares, shares) && q.shares == p.shares
      && q.owner == p.owner && q.sessionKey == p.sessionKey && q.sessionExpiry == p.sessionExpiry
  {
  }

  lemma DebitKeeps(p: P.Position, shares: u64, price: u64, now: i64)
    requires P.Debit(p, shares, price, now).Ok?
    ensures var q := P.Debit(p, shares, price, now).value;
      && shares <= p.privateShares
      && q.privateShares == p.privateShares - shares && q.shares == p.shares && q.entryPrice == p.entryPrice
      && q.owner == p.owner && q.sessionKey == p.sessionKey && q.sessionExpiry == p.sessionExpiry
  {
  }

  lemma SyncKeeps(p: P.Position, held: u64, price: u64, now: i64)
    requires P.Sync(p, held, price, now).Ok?
    ensures var q := P.Sync(p, held, price, now).value;
      && q.shares == held && q.privateShares == p.privateShares
      && q.owner == p.owner && q.sessionKey == p.sessionKey && q.sessionExpiry == p.sessionExpiry
  {
  }

  /** A private redemption is a sale on the simple ledger, at the enclave's own price, for exactly
      the ticket's amount; and it opens exactly that ticket. */
  lemma ExitIsASale(env: Env, p: P.Position, sh: Shielded, slots: Slots, shares: u64, t: Exit)
    requires EnvOk(env) && CanPrice(env, sh) && InRange(env, sh) && p.privateShares <= sh.shares
    requires GoodSlots(slots) && OpenExit(env, p, sh, slots, shares, t).Ok?
    ensures var (q, s, after) := OpenExit(env, p, sh, slots, shares, t).value;
      && CanPrice(env, s) && InRange(env, s)
      && CanMove(LedgerIn(env, sh), Sell(shares))
      && LedgerIn(env, s) == MovedBy(LedgerIn(env, sh), Sell(shares))
      && s.totalIn == sh.totalIn && s.totalOut > sh.totalOut
      && sh.shares - s.shares == p.privateShares - q.privateShares
      && q.owner == p.owner && q.sessionKey == p.sessionKey && q.sessionExpiry == p.sessionExpiry
      && GoodSlots(after) && Owed(after) == Owed(slots) + (s.totalOut - sh.totalOut)
      && (forall x :: IsOpen(after, x) <==> IsOpen(slots, x) || x == t.(assets := s.totalOut - sh.totalOut))
  {
    hide P.Mark, P.WeightedSum, GoodSlots, Owed;
    PricingIsTheLedger(env.vault, env.book, sh);
    var quote := NavForPricing(env.vault, env.book, sh).value;
    var assets := AssetsFor(shares, quote).value;
    DebitKeeps(p, shares, SharePrice(quote).value, env.now);
    OpeningAddsOneTicket(slots, t.(assets := assets));
    RedeemRoundsForThePool(LedgerIn(env, sh), shares);
  }

  // -------------------------------------------------------- shares adding up

  lemma SharesAfterUpdate(ps: map<Pubkey, P.Position>, k: Pubkey, p: P.Position)
    ensures Total(PrivateShares(ps[k := p]))
      == Total(PrivateShares(ps)) - (if k in ps then ps[k].privateShares else 0) + p.privateShares
    ensures k in ps ==> ps[k].privateShares <= Total(PrivateShares(ps))
  {
    assert PrivateShares(ps[k := p]) == PrivateShares(ps)[k := p.privateShares];
    TotalAfterUpdate(PrivateShares(ps), k, p.privateShares);
  }

  /** Replacing a position by one with the same owner and a session that has not gone back. */
  lemma RotationsAfterUpdate(env: Env, e: State, k: Pubkey, p: P.Position)
    requires GoodRotations(env, e) && k in e.positions
    requires p.owner == e.positions[k].owner && p.sessionExpiry >= e.positions[k].sessionExpiry
    ensures GoodRotations(env, e.(positions := e.positions[k := p]))
  {
  }

  // ------------------------------------------------------------ one by one

  /** What executing the instruction before `i` has already established. */
  predicate Executed(env: Env, ixs: seq<Instruction>, i: nat)
    requires i <= |ixs|
  {
    i > 0 ==>
      && (ixs[i - 1].program == Ed25519 ==> S.PrecompilePasses(env.signed, AllData(ixs), ixs[i - 1].data))
      && (OutAmount(env, ixs[i - 1]) > 0 ==> SignedBy(ixs[i - 1], env.custodyOwner))
  }

  predicate SignedBy(ix: Instruction, key: Pubkey) {
    exists a :: a in ix.accounts && a.pubkey == key && a.isSigner
  }

  /** USDC an instruction moves into the custody from some other account, as SPL Token reads it. */
  function InAmount(env: Env, ix: Instruction): nat {
    if ix.program == SplToken && TransferShape(ix).Some?
       && ix.accounts[TransferShape(ix).value.destination].pubkey == Custody(env)
       && ix.accounts[TransferShape(ix).value.source].pubkey != Custody(env)
    then TransferShape(ix).value.amount else 0
  }

  /** USDC an instruction pays out of the custody through the private queue. */
  function OutAmount(env: Env, ix: Instruction): nat {
    if IsQueuePayment(ix) && ix.accounts[3].pubkey == Custody(env) then U64At(ix.data, 1) else 0
  }

  /** USDC an instruction credits as a private deposit. */
  function CreditAmount(ix: Instruction): nat {
    if ix.program == Agama && ix.call.DepositPrivate? then ix.call.amount else 0
  }

  /** The custody key signs nothing but queued payments, each right before the settle it pays for. */
  predicate CustodyDisciplined(env: Env, ixs: seq<Instruction>) {
    forall i :: 0 <= i < |ixs| && SignedBy(ixs[i], env.custodyOwner) ==>
      && ixs[i].program == EphemeralSpl
      && i + 1 < |ixs| && ixs[i + 1].program == Agama && ixs[i + 1].call.SettleExit?
  }

  lemma ExecutedNext(env: Env, e: State, ixs: seq<Instruction>, i: nat)
    requires i < |ixs| && Good(env, e) && Exec(env, e, ixs, i).Ok?
    ensures Executed(env, ixs, i + 1)
  {
    if OutAmount(env, ixs[i]) > 0 {
      assert ixs[i].accounts[6] in ixs[i].accounts;
    }
  }

  lemma TransferKeepsCustody(env: Env, tokens: map<Pubkey, TokenHolding>, ix: Instruction)
    requires Custody(env) in tokens && tokens[Custody(env)].owner == env.custodyOwner
    requires ix.program == SplToken && ExecTransfer(tokens, ix).Ok?
    ensures var t := ExecTransfer(tokens, ix).value;
      && Custody(env) in t && t[Custody(env)].owner == env.custodyOwner
      && (!SignedBy(ix, env.custodyOwner) ==>
           t[Custody(env)].amount == tokens[Custody(env)].amount + InAmount(env, ix))
  {
    if TransferShape(ix).Some? {
      assert ix.accounts[TransferShape(ix).value.authority] in ix.accounts;
    }
  }

  lemma QueueKeepsCustody(env: Env, tokens: map<Pubkey, TokenHolding>, ix: Instruction)
    requires Custody(env) in tokens && tokens[Custody(env)].owner == env.custodyOwner
    requires ix.program == EphemeralSpl && ExecQueue(tokens, ix).Ok?
    ensures var t := ExecQueue(tokens, ix).value;
      && Custody(env) in t && t[Custody(env)].owner == env.custodyOwner
      && t[Custody(env)].amount == tokens[Custody(env)].amount - OutAmount(env, ix)
  {
  }

  function CustodyUsdc(env: Env, e: State): nat
    requires Custody(env) in e.tokens
  {
    e.tokens[Custody(env)].amount
  }

  /** What the custody holds beyond its own books and every open ticket. */
  function Surplus(env: Env, e: State): int
    requires Custody(env) in e.tokens
  {
    CustodyUsdc(env, e) - (e.shielded.totalIn - e.shielded.totalOut) - Owed(e.slots)
  }

  /** The private ledger step one instruction takes, if any. */
  ghost predicate StepsLedger(env: Env, e: State, t: State)
    requires EnvOk(env) && CanPrice(env, e.shielded) && CanPrice(env, t.shielded)
  {
    var l := LedgerIn(env, e.shielded);
    || t.shielded == e.shielded
    || (exists m: Move :: !m.Earn? && CanMove(l, m) && LedgerIn(env, t.shielded) == MovedBy(l, m)
         && (Yield(env.book) > 0 && l.supply > 0 ==> LedgerIn(env, t.shielded).supply > 0))
  }

  /** A deposit keeps everything and adds exactly what it credits to the books. */
  lemma DepositKeepsGood(env: Env, e: State, call: Call, prev: Option<Instruction>)
    requires Good(env, e) && InRange(env, e.shielded)
    requires call.DepositPrivate? && ExecCall(env, e, call, prev).Ok?
    requires InRange(env, ExecCall(env, e, call, prev).value.shielded)
    ensures var t := ExecCall(env, e, call, prev).value;
      && Good(env, t) && StepsLedger(env, e, t)
      && t.tokens == e.tokens && t.slots == e.slots
      && t.shielded.totalIn == e.shielded.totalIn + call.amount && t.shielded.totalOut == e.shielded.totalOut
  {
    hide GoodSlots, LedgerOf, NavForPricing, SharesFor, SharePrice, P.Credit, GoodRotations, MovedBy, SumsFit64;
    var t := ExecCall(env, e, call, prev).value;
    var p := e.positions[call.position];
    var q := CreditDeposit(env, p, e.shielded, call.depositor, call.signer, call.amount, prev).value.0;
    SharesAfterUpdate(e.positions, call.position, q);
    CreditIsABuy(env, p, e.shielded, call.depositor, call.signer, call.amount, prev);
    RotationsAfterUpdate(env, e, call.position, q);
    RotationsDependOn(env, e.(positions := t.positions), t);
    ParAfter(env, e.shielded, t.shielded, Buy(call.amount));
    BuyNeverEmpties(LedgerIn(env, e.shielded), call.amount);
  }

  lemma RotationsDependOn(env: Env, e: State, t: State)
    requires GoodRotations(env, e) && t.positions == e.positions && t.rotations == e.rotations
    ensures GoodRotations(env, t)
  {
  }

  lemma BuyNeverEmpties(l: Ledger, amount: nat)
    ensures l.supply > 0 ==> MovedBy(l, Buy(amount)).supply > 0
  {
  }

  lemma ParAfter(env: Env, sh: Shielded, t: Shielded, m: Move)
    requires EnvOk(env) && CanPrice(env, sh) && CanPrice(env, t) && AtPar(env, sh)
    requires !m.Earn? && CanMove(LedgerIn(env, sh), m) && LedgerIn(env, t) == MovedBy(LedgerIn(env, sh), m)
    ensures AtPar(env, t)
  {
    hide MovedBy;
    if Yield(env.book) == 0 {
      MovesKeepPar(LedgerIn(env, sh), m);
    }
  }

  /** Redeeming never takes the last share of a pot that holds more than the custody does. */
  lemma ExitLeavesSupply(env: Env, p: P.Position, sh: Shielded, slots: Slots, shares: u64, t: Exit)
    requires EnvOk(env) && CanPrice(env, sh) && InRange(env, sh) && p.privateShares <= sh.shares
    requires GoodSlots(slots) && OpenExit(env, p, sh, slots, shares, t).Ok? && Yield(env.book) > 0
    ensures LedgerIn(env, sh).supply > shares
  {
    hide P.Mark, P.WeightedSum, P.Debit, GoodSlots, OpenTicket;
    PricingIsTheLedger(env.vault, env.book, sh);
    RedeemRoundsForThePool(LedgerIn(env, sh), shares);
  }

  lemma RedeemKeepsGood(env: Env, e: State, position: Pubkey, shares: u64, ticket: Exit)
    requires Good(env, e) && InRange(env, e.shielded) && position in e.positions
    requires OpenExit(env, e.positions[position], e.shielded, e.slots, shares, ticket).Ok?
    ensures var (q, s, slots) := OpenExit(env, e.positions[position], e.shielded, e.slots, shares, ticket).value;
      var t := e.(positions := e.positions[position := q], shielded := s, slots := slots);
      && Good(env, t) && StepsLedger(env, e, t)
      && t.tokens == e.tokens && t.shielded.totalIn == e.shielded.totalIn
      && t.shielded.totalOut >= e.shielded.totalOut
      && Owed(t.slots) - Owed(e.slots) == t.shielded.totalOut - e.shielded.totalOut
  {
    hide GoodSlots, LedgerOf, OpenExit, GoodRotations, MovedBy, SumsFit64, Owed;
    var (q, s, slots) := OpenExit(env, e.positions[position], e.shielded, e.slots, shares, ticket).value;
    var t := e.(positions := e.positions[position := q], shielded := s, slots := slots);
    SharesAfterUpdate(e.positions, position, q);
    ExitIsASale(env, e.positions[position], e.shielded, e.slots, shares, ticket);
    RotationsAfterUpdate(env, e, position, q);
    RotationsDependOn(env, e.(positions := t.positions), t);
    ParAfter(env, e.shielded, s, Sell(shares));
    if Yield(env.book) > 0 {
      ExitLeavesSupply(env, e.positions[position], e.shielded, e.slots, shares, ticket);
      SaleLeaves(LedgerIn(env, e.shielded), shares);
    }
  }

  lemma SaleLeaves(l: Ledger, shares: nat)
    requires CanMove(l, Sell(shares))
    ensures MovedBy(l, Sell(shares)).supply == l.supply - shares
  {
  }

  lemma SettleKeepsGood(env: Env, e: State, call: Call, prev: Option<Instruction>)
    requires Good(env, e) && call.SettleExit? && ExecCall(env, e, call, prev).Ok?
    ensures var t := ExecCall(env, e, call, prev).value;
      && Good(env, t) && t.shielded == e.shielded && t.tokens == e.tokens
      && prev.Some? && OutAmount(env, prev.value) > 0
      && Owed(t.slots) == Owed(e.slots) - OutAmount(env, prev.value)
  {
    hide GoodSlots, LedgerOf, GoodRotations, Owed;
    var t := ExecCall(env, e, call, prev).value;
    ClosingRemovesOneTicket(e.slots, call.groupId, prev.value, env.usdc, Custody(env), env.custodyOwner);
    OpenTicketsAreGood(e.slots, e.slots[FirstWith(e.slots, call.groupId)]);
    RotationsDependOn(env, e, t);
  }

  lemma OpenTicketsAreGood(slots: Slots, t: Exit)
    requires GoodSlots(slots) && IsOpen(slots, t)
    ensures GoodTicket(t)
  {
  }

  lemma SyncKeepsGood(env: Env, e: State, call: Call, prev: Option<Instruction>)
    requires Good(env, e) && call.SyncPosition? && ExecCall(env, e, call, prev).Ok?
    ensures var t := ExecCall(env, e, call, prev).value;
      && Good(env, t) && t == e.(positions := t.positions)
  {
    hide GoodSlots, LedgerOf, GoodRotations, P.Sync, NavForPricing, SharePrice;
    var t := ExecCall(env, e, call, prev).value;
    var p := e.positions[call.position];
    var price := SharePrice(NavForPricing(env.vault, env.book, e.shielded).value).value;
    var q := P.Sync(p, call.held, price, env.now).value;
    SyncKeeps(p, call.held, price, env.now);
    SharesAfterUpdate(e.positions, call.position, q);
    RotationsAfterUpdate(env, e, call.position, q);
  }

  lemma RotateKeepsGood(env: Env, e: State, call: Call, prev: Option<Instruction>, all: seq<Bytes>)
    requires Good(env, e) && call.RotateSession? && ExecCall(env, e, call, prev).Ok?
    requires prev.Some? && prev.value.program == Ed25519 ==> S.PrecompilePasses(env.signed, all, prev.value.data)
    ensures var t := ExecCall(env, e, call, prev).value;
      && Good(env, t) && t == e.(positions := t.positions, rotations := t.rotations)
  {
    hide GoodSlots, LedgerOf, S.SessionMessage, S.PrecompilePasses;
    var t := ExecCall(env, e, call, prev).value;
    var p := e.positions[call.position];
    var q := S.Rotate(p, call.position, call.sessionKey, call.expiry, env.now, prev).value;
    S.RotationWasSigned(p, call.position, call.sessionKey, call.expiry, env.now, prev, env.signed, all);
    SharesAfterUpdate(e.positions, call.position, q);
    RotationLogGrows(env, e, call.position, q, call.sessionKey, call.expiry);
  }

  lemma RotationLogGrows(env: Env, e: State, position: Pubkey, q: P.Position, sessionKey: Pubkey, expiry: i64)
    requires GoodRotations(env, e) && position in e.positions
    requires q == e.positions[position].(sessionKey := sessionKey, sessionExpiry := expiry)
    requires expiry > e.positions[position].sessionExpiry
    requires (q.owner, S.SessionMessage(position, sessionKey, expiry)) in env.signed
    ensures GoodRotations(env, e.(positions := e.positions[position := q],
                                  rotations := e.rotations + [Rotation(position, q.owner, sessionKey, expiry)]))
  {
    hide S.SessionMessage;
    var t := e.(positions := e.positions[position := q],
                rotations := e.rotations + [Rotation(position, q.owner, sessionKey, expiry)]);
    forall i | 0 <= i < |t.rotations|
      ensures var r := t.rotations[i];
        && r.position in t.positions && r.owner == t.positions[r.position].owner
        && r.expiry <= t.positions[r.position].sessionExpiry
        && (r.owner, S.SessionMessage(r.position, r.sessionKey, r.expiry)) in env.signed
    {
      if i < |e.rotations| {
        assert t.rotations[i] == e.rotations[i];
      }
    }
  }

  /** One instruction keeps everything, moves the private ledger only by its own deposit or
      redemption, and changes what the custody holds beyond its debts by exactly the transfers in
      that were not credited; a payment is balanced by the settle after it. */
  lemma ExecKeepsGood(env: Env, e: State, ixs: seq<Instruction>, i: nat)
    requires i < |ixs| && Good(env, e) && InRange(env, e.shielded) && Executed(env, ixs, i)
    requires CustodyDisciplined(env, ixs)
    requires Exec(env, e, ixs, i).Ok? && InRange(env, Exec(env, e, ixs, i).value.shielded)
    ensures var t := Exec(env, e, ixs, i).value;
      && Good(env, t) && StepsLedger(env, e, t) && Executed(env, ixs, i + 1)
      && t.shielded.totalIn == e.shielded.totalIn + CreditAmount(ixs[i])
      && t.shielded.totalOut >= e.shielded.totalOut
      && Surplus(env, t) == Surplus(env, e) + InAmount(env, ixs[i]) - CreditAmount(ixs[i]) - OutAmount(env, ixs[i])
           + (if i > 0 then OutAmount(env, ixs[i - 1]) else 0)
  {
    hide ExecCall, GoodRotations, GoodSlots, Owed, TransferShape, SumsFit64, LedgerOf, StepsLedger;
    ExecutedNext(env, e, ixs, i);
    var t := Exec(env, e, ixs, i).value;
    if ixs[i].program == Agama {
      CallKeepsGood(env, e, ixs, i);
    } else {
      NothingOwedBefore(env, ixs, i);
      TokensKeepGood(env, e, ixs, i);
    }
  }

  /** A payment out of the custody has its settle right behind it; anything else is not that settle. */
  lemma NothingOwedBefore(env: Env, ixs: seq<Instruction>, i: nat)
    requires i < |ixs| && Executed(env, ixs, i) && CustodyDisciplined(env, ixs)
    requires ixs[i].program != Agama || !ixs[i].call.SettleExit?
    ensures i > 0 ==> OutAmount(env, ixs[i - 1]) == 0
  {
  }

  lemma TokensKeepGood(env: Env, e: State, ixs: seq<Instruction>, i: nat)
    requires i < |ixs| && Good(env, e) && CustodyDisciplined(env, ixs)
    requires ixs[i].program != Agama && Exec(env, e, ixs, i).Ok?
    ensures var t := Exec(env, e, ixs, i).value;
      && Good(env, t) && StepsLedger(env, e, t) && t == e.(tokens := t.tokens)
      && CustodyUsdc(env, t) == CustodyUsdc(env, e) + InAmount(env, ixs[i]) - OutAmount(env, ixs[i])
      && CreditAmount(ixs[i]) == 0
  {
    hide GoodRotations, GoodSlots, Owed, LedgerOf, ExecTransfer, ExecQueue, TransferShape;
    var t := Exec(env, e, ixs, i).value;
    RotationsDependOn(env, e, t);
    match ixs[i].program
    case SplToken => TransferKeepsCustody(env, e.tokens, ixs[i]);
    case EphemeralSpl => QueueKeepsCustody(env, e.tokens, ixs[i]);
    case Ed25519 =>
    case OtherProgram(_) =>
  }

  lemma CallKeepsGood(env: Env, e: State, ixs: seq<Instruction>, i: nat)
    requires i < |ixs| && Good(env, e) && InRange(env, e.shielded) && Executed(env, ixs, i)
    requires CustodyDisciplined(env, ixs) && ixs[i].program == Agama
    requires Exec(env, e, ixs, i).Ok? && InRange(env, Exec(env, e, ixs, i).value.shielded)
    ensures var t := Exec(env, e, ixs, i).value;
      && Good(env, t) && StepsLedger(env, e, t)
      && t.tokens == e.tokens && InAmount(env, ixs[i]) == OutAmount(env, ixs[i]) == 0
      && t.shielded.totalIn == e.shielded.totalIn + CreditAmount(ixs[i])
      && t.shielded.totalOut >= e.shielded.totalOut
      && Surplus(env, t) == Surplus(env, e) - CreditAmount(ixs[i]) + (if i > 0 then OutAmount(env, ixs[i - 1]) else 0)
  {
    hide GoodRotations, GoodSlots, Owed, LedgerOf, SumsFit64, CreditDeposit, OpenExit, CloseTicket, AtPar;
    var call, prev := ixs[i].call, Previous(ixs, i);
    if !call.SettleExit? {
      NothingOwedBefore(env, ixs, i);
    }
    match call
    case NoCall =>
    case DepositPrivate(_, _, _, _) => DepositKeepsGood(env, e, call, prev);
    case RedeemPrivate(_, position, shares, _, _, _, _) =>
      RedeemKeepsGood(env, e, position, shares, Ticket(call, e.positions[position].owner));
    case RedeemPrivateTo(_, position, shares, _, _, _, _, payout) =>
      RedeemKeepsGood(env, e, position, shares, Ticket(call, payout));
    case SettleExit(_, _) => SettleKeepsGood(env, e, call, prev);
    case SyncPosition(_, _, _) => SyncKeepsGood(env, e, call, prev);
    case RotateSession(_, _, _) => RotateKeepsGood(env, e, call, prev, AllData(ixs));
  }
}
