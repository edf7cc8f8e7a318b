/** Top-level instructions of a transaction, as the instructions sysvar shows them, and the two
    token movements the program reads instead of making. */
module Instructions {
  import opened Words

  /** Program ids. Distinct programs have distinct ids. */
  datatype Program = SplToken | EphemeralSpl | Ed25519 | Agama | OtherProgram(id: Pubkey)

  datatype AccountMeta = AccountMeta(pubkey: Pubkey, isSigner: bool)

  /** The program's own instructions inside the enclave, decoded. */
  datatype Call =
    | DepositPrivate(depositor: Pubkey, signer: Pubkey, position: Pubkey, amount: u64)
    | RedeemPrivate(signer: Pubkey, position: Pubkey, shares: u64, groupId: u32, minDelayMs: u64,
                    maxDelayMs: u64, split: u32)
    | RedeemPrivateTo(signer: Pubkey, position: Pubkey, shares: u64, groupId: u32, minDelayMs: u64,
                      maxDelayMs: u64, split: u32, payout: Pubkey)
    | SettleExit(authority: Pubkey, groupId: u32)
    | SyncPosition(signer: Pubkey, position: Pubkey, held: u64)
    | RotateSession(position: Pubkey, sessionKey: Pubkey, expiry: i64)
    | NoCall

  /** `call` is what an Agama instruction decodes to; it means nothing for other programs. */
  datatype Instruction = Instruction(program: Program, accounts: seq<AccountMeta>, data: Bytes, call: Call)

  const SPL_TRANSFER: u8 := 3
  const SPL_TRANSFER_CHECKED: u8 := 12
  const ESPL_DEPOSIT_AND_QUEUE_TRANSFER: u8 := 16

  function U64At(d: Bytes, i: nat): nat
    requires i + 8 <= |d|
  {
    LeValue(d[i..i + 8])
  }

  // ---------------------------------------------------------- SPL transfers

  datatype TransferParts = TransferParts(amount: nat, source: nat, destination: nat, authority: nat)

  /** Where a `Transfer` or a `TransferChecked` keeps its amount and its accounts; None for anything else. */
  function TransferShape(ix: Instruction): Option<TransferParts> {
    if |ix.data| >= 9 && ix.data[0] == SPL_TRANSFER && |ix.accounts| >= 3 then
      Some(TransferParts(U64At(ix.data, 1), 0, 1, 2))
    else if |ix.data| >= 10 && ix.data[0] == SPL_TRANSFER_CHECKED && |ix.accounts| >= 4 then
      Some(TransferParts(U64At(ix.data, 1), 0, 2, 3))
    else None
  }

  /** `assert_token_transfer`. */
  predicate IsTokenTransfer(ix: Instruction, amount: u64, from: Pubkey, to: Pubkey, authority: Pubkey) {
    && ix.program == SplToken
    && TransferShape(ix).Some?
    && var t := TransferShape(ix).value;
    && t.amount == amount
    && ix.accounts[t.source].pubkey == from
    && ix.accounts[t.destination].pubkey == to
    && ix.accounts[t.authority].pubkey == authority
    && ix.accounts[t.authority].isSigner
  }

  /** `createTransferInstruction`. */
  function TransferIx(source: Pubkey, destination: Pubkey, authority: Pubkey, amount: u64): Instruction {
    Instruction(SplToken,
                [AccountMeta(source, false), AccountMeta(destination, false), AccountMeta(authority, true)],
                [SPL_TRANSFER] + LeBytes(amount, 8), NoCall)
  }

  /** An instruction is accepted as a transfer exactly when its bytes are those of a `Transfer`, or of a
      `TransferChecked`, of this amount, and its source, destination and signing authority are these. */
  lemma TransferAcceptedIff(ix: Instruction, amount: u64, from: Pubkey, to: Pubkey, authority: Pubkey)
    ensures IsTokenTransfer(ix, amount, from, to, authority) <==>
      && ix.program == SplToken
      && var d, k := ix.data, ix.accounts;
      || (&& |d| >= 9 && d[..9] == [3] + LeBytes(amount, 8)
          && |k| >= 3 && k[0].pubkey == from && k[1].pubkey == to && k[2] == AccountMeta(authority, true))
      || (&& |d| >= 10 && d[..9] == [12] + LeBytes(amount, 8)
          && |k| >= 4 && k[0].pubkey == from && k[2].pubkey == to && k[3] == AccountMeta(authority, true))
  {
    var d := ix.data;
    Pow256Values();
    if |d| >= 9 {
      assert d[..9] == [d[0]] + d[1..9];
      LeDecodesEncoded(amount, 8);
      LeEncodesDecoded(d[1..9]);
      assert ([3] + LeBytes(amount, 8))[1..] == LeBytes(amount, 8) == ([12] + LeBytes(amount, 8))[1..];
    }
  }

  /** The transfer the client builds is the one the program looks for, and for nothing but its own
      amount, accounts and authority. */
  lemma BuiltTransferIsRead(source: Pubkey, destination: Pubkey, authority: Pubkey, built: u64,
                            amount: u64, from: Pubkey, to: Pubkey, wanted: Pubkey)
    ensures IsTokenTransfer(TransferIx(source, destination, authority, built), amount, from, to, wanted)
      <==> amount == built && from == source && to == destination && wanted == authority
  {
    var d := TransferIx(source, destination, authority, built).data;
    assert d[1..9] == LeBytes(built, 8);
    Pow256Values();
    LeDecodesEncoded(built, 8);
  }
}
