/** The enclave: what each instruction does to its state, and transactions as sequences of
    top-level instructions that either all go through or leave nothing behind. */
module Enclave {
  import opened Words
  import opened Books
  import opened Pricing
  import opened Instructions
  import opened Exits
  import P = Positions
  import S = Session

  datatype TokenHolding = TokenHolding(owner: Pubkey, mint: Pubkey, amount: u64)

  /** A rotation that went through. */
  datatype Rotation = Rotation(position: Pubkey, owner: Pubkey, sessionKey: Pubkey, expiry: i64)

  /** Everything the enclave writes. `rotations` is history: it records accepted rotations in order. */
  datatype State = State(
    shielded: Shielded,
    positions: map<Pubkey, P.Position>,
    slots: Slots,
    tokens: map<Pubkey, TokenHolding>,
    rotations: seq<Rotation>
  )

  /** Everything it only reads: clones of Solana's vault and committed book, the fixed keys, the
      associated-account derivation, the signatures that exist, and the clock. */
  datatype Env = Env(
    vault: Vault,
    book: Book,
    usdc: Pubkey,
    custodyOwner: Pubkey,
    authority: Pubkey,
    ata: (Pubkey, Pubkey) -> Pubkey,
    signed: set<(Pubkey, Bytes)>,
    now: i64
  )

  /** The private custody's token account. */
  function Custody(env: Env): Pubkey { env.ata(env.custodyOwner, env.usdc) }

  // ------------------------------------------------------------ private flow

  /** `deposit_private`, on the accounts it touches. */
  function CreditDeposit(env: Env, p: P.Position, sh: Shielded, depositor: Pubkey, signer: Pubkey, amount: u64,
                          prev: Option<Instruction>): Result<(P.Position, Shielded)>
  {
    var _ :- Require(amount > 0, ZeroAmount);
    var _ :- Require(P.MayAct(p, signer, env.now), Unauthorized);
    var _ :- Require(prev.Some?, TransferMismatch);
    var _ :- Require(IsTokenTransfer(prev.value, amount, env.ata(depositor, env.usdc), Custody(env), depositor),
                     TransferMismatch);
    var q :- NavForPricing(env.vault, env.book, sh);
    var shares :- SharesFor(amount, q);
    var price :- SharePrice(q);
    var credited :- P.Credit(p, shares, price, env.now);
    Ok((credited, Shielded(SatAdd(sh.shares, shares), SatAdd(sh.totalIn, amount), sh.totalOut)))
  }

  /** `open_exit`, on the accounts it touches: `t` carries everything but the amount. */
  function OpenExit(env: Env, p: P.Position, sh: Shielded, slots: Slots, shares: u64, t: Exit)
    : Result<(P.Position, Shielded, Slots)>
  {
    var _ :- Require(shares > 0, ZeroAmount);
    var _ :- Require(0 < t.groupId <= MAX_GROUP_ID, BadExitParams);
    var _ :- Require(t.split > 0 && t.minDelayMs <= t.maxDelayMs <= MAX_EXIT_DELAY_MS, BadExitParams);
    var _ :- Require(p.privateShares >= shares, InsufficientShares);
    var q :- NavForPricing(env.vault, env.book, sh);
    var assets :- AssetsFor(shares, q);
    var _ :- Require(assets > 0, DustDeposit);
    var _ :- Require(assets <= SatSub(sh.totalIn, sh.totalOut), InsufficientLiquidity);
    var price :- SharePrice(q);
    var opening :- OpenTicket(slots, t.(assets := assets));
    var debited :- P.Debit(p, shares, price, env.now);
    Ok((debited, Shielded(SatSub(sh.shares, shares), sh.totalIn, SatAdd(sh.totalOut, assets)), opening))
  }

  function Ticket(call: Call, owner: Pubkey): Exit
    requires call.RedeemPrivate? || call.RedeemPrivateTo?
  {
    Exit(owner, 0, call.minDelayMs, call.maxDelayMs, call.groupId, call.split)
  }

  // ---------------------------------------------- the same two, on the accounts

  class ShieldedAccount {
    var shares: u64
    var totalIn: u64
    var totalOut: u64

    /** `init_shielded`. */
    constructor ()
      ensures View() == Shielded(0, 0, 0)
    {
      shares, totalIn, totalOut := 0, 0, 0;
    }

    function View(): Shielded
      reads this
    {
      Shielded(shares, totalIn, totalOut)
    }
  }

  /** `deposit_private`. On an error the runtime discards every write of the transaction. */
  method DepositPrivateHandler(env: Env, position: P.PositionAccount, shielded: ShieldedAccount, depositor: Pubkey,
                               signer: Pubkey, amount: u64, prev: Option<Instruction>) returns (r: Result<()>)
    modifies position, shielded
    ensures var spec := CreditDeposit(env, old(position.View()), old(shielded.View()), depositor, signer, amount, prev);
      && (r.Ok? <==> spec.Ok?)
      && (r.Err? ==> r.error == spec.error)
      && (r.Ok? ==> position.View() == spec.value.0 && shielded.View() == spec.value.1)
  {
    var _ :- Require(amount > 0, ZeroAmount);
    var _ :- Require(P.MayAct(position.View(), signer, env.now), Unauthorized);
    var _ :- Require(prev.Some?, TransferMismatch);
    var _ :- Require(IsTokenTransfer(prev.value, amount, env.ata(depositor, env.usdc), Custody(env), depositor),
                     TransferMismatch);
    var q :- NavForPricing(env.vault, env.book, shielded.View());
    var shares :- SharesFor(amount, q);
    var price :- SharePrice(q);
    var _ :- position.BlendEntry(shares, price);
    position.privateShares := SatAdd(position.privateShares, shares);
    var _ :- position.MarkTo(price, env.now);
    shielded.shares := SatAdd(shielded.shares, shares);
    shielded.totalIn := SatAdd(shielded.totalIn, amount);
    r := Ok(());
  }

  /** The RedeemPrivate context: the accounts `open_exit` writes. */
  class RedeemPrivateAccounts {
    const position: P.PositionAccount
    const shielded: ShieldedAccount
    const exits: ExitBook

    constructor (position: P.PositionAccount, shielded: ShieldedAccount, exits: ExitBook)
      ensures this.position == position && this.shielded == shielded && this.exits == exits
    {
      this.position, this.shielded, this.exits := position, shielded, exits;
    }

    /** `open_exit`. `t` carries everything of the ticket but its amount. */
    method OpenExitHandler(env: Env, shares: u64, t: Exit) returns (r: Result<()>)
      requires exits.Valid()
      modifies position, shielded, exits.slots
      ensures var spec := OpenExit(env, old(position.View()), old(shielded.View()), old(exits.View()), shares, t);
        && (r.Ok? <==> spec.Ok?)
        && (r.Err? ==> r.error == spec.error)
        && (r.Ok? ==> position.View() == spec.value.0 && shielded.View() == spec.value.1
                      && exits.View() == spec.value.2)
    {
      hide P.WeightedSum;
      var _ :- Require(shares > 0, ZeroAmount);
      var _ :- Require(0 < t.groupId <= MAX_GROUP_ID, BadExitParams);
      var _ :- Require(t.split > 0 && t.minDelayMs <= t.maxDelayMs <= MAX_EXIT_DELAY_MS, BadExitParams);
      var _ :- Require(position.privateShares >= shares, InsufficientShares);
      var q :- NavForPricing(env.vault, env.book, shielded.View());
      var assets :- AssetsFor(shares, q);
      var _ :- Require(assets > 0, DustDeposit);
      var _ :- Require(assets <= SatSub(shielded.totalIn, shielded.totalOut), InsufficientLiquidity);
      var price :- SharePrice(q);
      var _ :- exits.Open(t.(assets := assets));
      position.privateShares := position.privateShares - shares;
      var _ :- position.MarkTo(price, env.now);
      shielded.shares := SatSub(shielded.shares, shares);
      shielded.totalOut := SatAdd(shielded.totalOut, assets);
      r := Ok(());
    }
  }

  // ------------------------------------------------------------ instructions

  /** SPL Token executing a transfer: the source's owner signs, the mints agree, the money is there. */
  function ExecTransfer(tokens: map<Pubkey, TokenHolding>, ix: Instruction): Result<map<Pubkey, TokenHolding>> {
    if TransferShape(ix).None? then Ok(tokens)
    else
      var t := TransferShape(ix).value;
      var from, to := ix.accounts[t.source].pubkey, ix.accounts[t.destination].pubkey;
      var _ :- Require(from in tokens && to in tokens, AccountMissing);
      var _ :- Require(&& tokens[from].mint == tokens[to].mint
                       && tokens[from].owner == ix.accounts[t.authority].pubkey
                       && ix.accounts[t.authority].isSigner
                       && t.amount <= tokens[from].amount, TokenProgram);
      if from == to then Ok(tokens)
      else
        var _ :- Require(tokens[to].amount + t.amount <= U64_MAX, TokenProgram);
        Ok(tokens[from := tokens[from].(amount := tokens[from].amount - t.amount)]
                 [to := tokens[to].(amount := tokens[to].amount + t.amount)])
  }

  /** The shape of a queued private transfer. */
  predicate IsQueuePayment(ix: Instruction) {
    && ix.program == EphemeralSpl
    && |ix.data| >= 32 && ix.data[0] == ESPL_DEPOSIT_AND_QUEUE_TRANSFER
    && |ix.accounts| >= 7
  }

  /** MagicBlock's program taking a queued transfer's amount out of its source. */
  function ExecQueue(tokens: map<Pubkey, TokenHolding>, ix: Instruction): Result<map<Pubkey, TokenHolding>> {
    if !IsQueuePayment(ix) then Ok(tokens)
    else
      var from, amount := ix.accounts[3].pubkey, U64At(ix.data, 1);
      var _ :- Require(from in tokens, AccountMissing);
      var _ :- Require(&& tokens[from].owner == ix.accounts[6].pubkey
                       && ix.accounts[6].isSigner
                       && amount <= tokens[from].amount, TokenProgram);
      Ok(tokens[from := tokens[from].(amount := tokens[from].amount - amount)])
  }

  function PositionAt(e: State, address: Pubkey): Result<P.Position> {
    if address in e.positions then Ok(e.positions[address]) else Err(AccountMissing)
  }

  function ExecCall(env: Env, e: State, call: Call, prev: Option<Instruction>): Result<State> {
    match call
    case NoCall => Ok(e)
    case DepositPrivate(depositor, signer, position, amount) =>
      var p :- PositionAt(e, position);
      var r :- CreditDeposit(env, p, e.shielded, depositor, signer, amount, prev);
      Ok(e.(positions := e.positions[position := r.0], shielded := r.1))
    case RedeemPrivate(signer, position, shares, _, _, _, _) =>
      var p :- PositionAt(e, position);
      var _ :- Require(P.MayAct(p, signer, env.now), Unauthorized);
      var r :- OpenExit(env, p, e.shielded, e.slots, shares, Ticket(call, p.owner));
      Ok(e.(positions := e.positions[position := r.0], shielded := r.1, slots := r.2))
    case RedeemPrivateTo(signer, position, shares, _, _, _, _, payout) =>
      var p :- PositionAt(e, position);
      var _ :- Require(signer == p.owner, Unauthorized);
      var _ :- Require(payout != ZERO_KEY, BadExitParams);
      var r :- OpenExit(env, p, e.shielded, e.slots, shares, Ticket(call, payout));
      Ok(e.(positions := e.positions[position := r.0], shielded := r.1, slots := r.2))
    case SettleExit(authority, groupId) =>
      var _ :- Require(authority == env.authority, Unauthorized);
      var _ :- Require(prev.Some?, TransferMismatch);
      var slots :- CloseTicket(e.slots, groupId, prev.value, env.usdc, Custody(env), env.custodyOwner);
      Ok(e.(slots := slots))
    case SyncPosition(signer, position, held) =>
      var p :- PositionAt(e, position);
      var _ :- Require(P.MayAct(p, signer, env.now), Unauthorized);
      var q :- NavForPricing(env.vault, env.book, e.shielded);
      var price :- SharePrice(q);
      var synced :- P.Sync(p, held, price, env.now);
      Ok(e.(positions := e.positions[position := synced]))
    case RotateSession(position, sessionKey, expiry) =>
      var p :- PositionAt(e, position);
      var rotated :- S.Rotate(p, position, sessionKey, expiry, env.now, prev);
      Ok(e.(positions := e.positions[position := rotated],
            rotations := e.rotations + [Rotation(position, p.owner, sessionKey, expiry)]))
  }

  /** `previous_instruction`: the one right before, if there is one. */
  function Previous(ixs: seq<Instruction>, i: nat): Option<Instruction>
    requires i <= |ixs|
  {
    if i == 0 then None else Some(ixs[i - 1])
  }

  function AllData(ixs: seq<Instruction>): seq<Bytes> {
    seq(|ixs|, k requires 0 <= k < |ixs| => ixs[k].data)
  }

  function Exec(env: Env, e: State, ixs: seq<Instruction>, i: nat): Result<State>
    requires i < |ixs|
  {
    match ixs[i].program
    case SplToken =>
      var tokens :- ExecTransfer(e.tokens, ixs[i]);
      Ok(e.(tokens := tokens))
    case EphemeralSpl =>
      var tokens :- ExecQueue(e.tokens, ixs[i]);
      Ok(e.(tokens := tokens))
    case Ed25519 =>
      if S.PrecompilePasses(env.signed, AllData(ixs), ixs[i].data) then Ok(e) else Err(BadSessionRotation)
    case Agama => ExecCall(env, e, ixs[i].call, Previous(ixs, i))
    case OtherProgram(_) => Ok(e)
  }

  function ExecFrom(env: Env, e: State, ixs: seq<Instruction>, i: nat): Result<State>
    requires i <= |ixs|
    decreases |ixs| - i
  {
    if i == |ixs| then Ok(e)
    else
      var next :- Exec(env, e, ixs, i);
      ExecFrom(env, next, ixs, i + 1)
  }

  /** One error anywhere and none of the transaction happened. */
  function RunTransaction(env: Env, e: State, ixs: seq<Instruction>): State {
    match ExecFrom(env, e, ixs, 0)
    case Ok(after) => after
    case Err(_) => e
  }
}
