/** Exit tickets: the sixteen slots, the payment that closes a ticket, and the bytes it travels in. */
module Exits {
  import opened Words
  import opened Instructions

  const EXIT_SLOTS: nat := 16
  const MAX_EXIT_DELAY_MS: nat := 24 * 3600 * 1000
  const MAX_GROUP_ID: nat := 0x00FF_FFFF

  datatype Exit = Exit(
    owner: Pubkey,
    assets: u64,
    minDelayMs: u64,
    maxDelayMs: u64,
    groupId: u32,
    split: u32
  )

  /** `Exit::default()`: group id zero marks a free slot. */
  const FREE: Exit := Exit(ZERO_KEY, 0, 0, 0, 0, 0)

  type Slots = s: seq<Exit> | |s| == EXIT_SLOTS
    witness [FREE, FREE, FREE, FREE, FREE, FREE, FREE, FREE, FREE, FREE, FREE, FREE, FREE, FREE, FREE, FREE]

  predicate GoodTicket(t: Exit) {
    && 0 < t.groupId <= MAX_GROUP_ID
    && t.assets > 0 && t.split > 0
    && t.minDelayMs <= t.maxDelayMs <= MAX_EXIT_DELAY_MS
  }

  /** Every slot is free or holds a well-formed ticket, and no two tickets share an id. */
  predicate GoodSlots(slots: seq<Exit>) {
    && (forall i :: 0 <= i < |slots| ==> slots[i] == FREE || GoodTicket(slots[i]))
    && (forall i, j :: 0 <= i < j < |slots| && slots[i] != FREE ==> slots[i].groupId != slots[j].groupId)
  }

  predicate HasId(slots: seq<Exit>, groupId: u32) {
    exists i :: 0 <= i < |slots| && slots[i].groupId == groupId
  }

  /** Index of the first slot with this id, or the number of slots when there is none. */
  function FirstWith(slots: seq<Exit>, groupId: u32): (k: nat)
    ensures k <= |slots|
    ensures k < |slots| ==> slots[k].groupId == groupId
    ensures forall i :: 0 <= i < k ==> slots[i].groupId != groupId
  {
    if |slots| == 0 || slots[0].groupId == groupId then 0 else 1 + FirstWith(slots[1..], groupId)
  }

  /** Opening: refuse a duplicate id, then take the first free slot. */
  function OpenTicket(slots: Slots, t: Exit): Result<Slots> {
    var _ :- Require(!HasId(slots, t.groupId), BadExitParams);
    var k := FirstWith(slots, 0);
    var _ :- Require(k < EXIT_SLOTS, ExitBookFull);
    Ok(slots[k := t])
  }

  /** `ix` is `DepositAndQueueTransfer` out of the custody for exactly this ticket. */
  predicate PaysTicket(ix: Instruction, t: Exit, usdc: Pubkey, custody: Pubkey, custodyOwner: Pubkey) {
    var d := ix.data;
    && ix.program == EphemeralSpl
    && |d| >= 32 && d[0] == ESPL_DEPOSIT_AND_QUEUE_TRANSFER
    && U64At(d, 1) == t.assets
    && LeValue([d[9], d[10], d[11], 0]) == t.groupId
    && U64At(d, 12) == t.minDelayMs
    && U64At(d, 20) == t.maxDelayMs
    && LeValue(d[28..32]) == t.split
    && |ix.accounts| >= 7
    && ix.accounts[2].pubkey == usdc
    && ix.accounts[3].pubkey == custody
    && ix.accounts[5].pubkey == t.owner
    && ix.accounts[6].pubkey == custodyOwner
    && ix.accounts[6].isSigner
  }

  /** Closing: the ticket must be open and the instruction before must pay it exactly. */
  function CloseTicket(slots: Slots, groupId: u32, prev: Instruction, usdc: Pubkey, custody: Pubkey,
                       custodyOwner: Pubkey): Result<Slots>
  {
    var k := FirstWith(slots, groupId);
    var _ :- Require(groupId != 0 && k < EXIT_SLOTS, UnknownExit);
    var _ :- Require(PaysTicket(prev, slots[k], usdc, custody, custodyOwner), PaymentMismatch);
    Ok(slots[k := FREE])
  }

  // --------------------------------------------------------- what they keep

  predicate IsOpen(slots: seq<Exit>, t: Exit) { t in slots && t != FREE }

  /** What the custody still owes over all tickets. */
  function Owed(slots: seq<Exit>): nat {
    if |slots| == 0 then 0 else slots[0].assets + Owed(slots[1..])
  }

  lemma {:induction false} OwedAfterUpdate(slots: seq<Exit>, k: nat, t: Exit)
    requires k < |slots|
    ensures Owed(slots[k := t]) == Owed(slots) - slots[k].assets + t.assets
    ensures slots[k].assets <= Owed(slots)
  {
    if k == 0 {
      assert slots[0 := t][1..] == slots[1..];
    } else {
      assert slots[k := t][1..] == slots[1..][k - 1 := t];
      OwedAfterUpdate(slots[1..], k - 1, t);
    }
  }

  /** A free slot is found exactly when there is one. */
  lemma FreeSlotFound(slots: Slots)
    requires GoodSlots(slots)
    ensures FirstWith(slots, 0) == EXIT_SLOTS <==> FREE !in slots
    ensures FirstWith(slots, 0) < EXIT_SLOTS ==> slots[FirstWith(slots, 0)] == FREE
  {
    if FREE in slots {
      var i :| 0 <= i < EXIT_SLOTS && slots[i] == FREE;
    }
  }

  /** Opening a ticket succeeds exactly when its id is unused and a slot is free; it then adds that
      ticket, leaves every other one as it was, and keeps ids distinct. */
  lemma OpeningAddsOneTicket(slots: Slots, t: Exit)
    requires GoodSlots(slots) && GoodTicket(t)
    ensures OpenTicket(slots, t).Ok? <==> !HasId(slots, t.groupId) && FREE in slots
    ensures OpenTicket(slots, t).Ok? ==>
      var after := OpenTicket(slots, t).value;
      && GoodSlots(after)
      && Owed(after) == Owed(slots) + t.assets
      && (forall x :: IsOpen(after, x) <==> IsOpen(slots, x) || x == t)
  {
    FreeSlotFound(slots);
    if OpenTicket(slots, t).Ok? {
      var k := FirstWith(slots, 0);
      var after := slots[k := t];
      OwedAfterUpdate(slots, k, t);
      assert forall i :: 0 <= i < EXIT_SLOTS && i != k ==> after[i] == slots[i];
      forall x ensures IsOpen(after, x) <==> IsOpen(slots, x) || x == t {
        assert after[k] == t;
        if IsOpen(slots, x) {
          var i :| 0 <= i < EXIT_SLOTS && slots[i] == x;
          assert after[i] == x;
        }
      }
    }
  }

  /** Closing one removes exactly the ticket with that id, and only next to its payment. */
  lemma ClosingRemovesOneTicket(slots: Slots, groupId: u32, prev: Instruction, usdc: Pubkey, custody: Pubkey,
                                custodyOwner: Pubkey)
    requires GoodSlots(slots) && CloseTicket(slots, groupId, prev, usdc, custody, custodyOwner).Ok?
    ensures var after := CloseTicket(slots, groupId, prev, usdc, custody, custodyOwner).value;
      var paid := slots[FirstWith(slots, groupId)];
      && GoodSlots(after)
      && IsOpen(slots, paid) && paid.groupId == groupId
      && PaysTicket(prev, paid, usdc, custody, custodyOwner)
      && Owed(after) == Owed(slots) - paid.assets
      && (forall x :: IsOpen(after, x) <==> IsOpen(slots, x) && x != paid)
  {
    var k := FirstWith(slots, groupId);
    var after := slots[k := FREE];
    OwedAfterUpdate(slots, k, FREE);
    assert forall i :: 0 <= i < EXIT_SLOTS && i != k ==> after[i] == slots[i];
    forall x ensures IsOpen(after, x) <==> IsOpen(slots, x) && x != slots[k] {
      if IsOpen(slots, x) && x != slots[k] {
        var i :| 0 <= i < EXIT_SLOTS && slots[i] == x;
        assert after[i] == x;
      }
      if IsOpen(after, x) {
        var i :| 0 <= i < EXIT_SLOTS && after[i] == x;
        assert i != k && slots[i] == x;
        assert slots[k].groupId != slots[i].groupId;
      }
    }
  }

  /** An open ticket is found by its id, and nothing else is. */
  lemma TicketFoundById(slots: Slots, t: Exit)
    requires GoodSlots(slots) && IsOpen(slots, t)
    ensures FirstWith(slots, t.groupId) < EXIT_SLOTS && slots[FirstWith(slots, t.groupId)] == t
  {
    var i :| 0 <= i < EXIT_SLOTS && slots[i] == t;
    var k := FirstWith(slots, t.groupId);
    assert k == i;
  }

  // ------------------------------------------------------------ the payment

  /** The 32 bytes a ticket is paid with: tag, amount (8 bytes), id (3), delays (8 each), parts (4). */
  function PaymentData(t: Exit): (d: Bytes)
    ensures |d| == 32
  {
    [ESPL_DEPOSIT_AND_QUEUE_TRANSFER] + LeBytes(t.assets, 8) + LeBytes(t.groupId, 3)
    + LeBytes(t.minDelayMs, 8) + LeBytes(t.maxDelayMs, 8) + LeBytes(t.split, 4)
  }

  lemma PaymentFields(a: Bytes, b: Bytes, c: Bytes, e: Bytes, f: Bytes, d: Bytes)
    requires |a| == 8 && |b| == 3 && |c| == 8 && |e| == 8 && |f| == 4
    requires d == [ESPL_DEPOSIT_AND_QUEUE_TRANSFER] + a + b + c + e + f
    ensures |d| == 32 && d[0] == ESPL_DEPOSIT_AND_QUEUE_TRANSFER
    ensures d[1..9] == a && d[9..12] == b && d[12..20] == c && d[20..28] == e && d[28..32] == f
  {
  }

  lemma GroupIdValue(b: Bytes)
    requires |b| == 3
    ensures LeValue([b[0], b[1], b[2], 0]) == LeValue(b)
  {
    LeValueOf3(b[0], b[1], b[2]);
    assert b == [b[0], b[1], b[2]];
  }

  lemma LeValueOf3(x: u8, y: u8, z: u8)
    ensures LeValue([x, y, z, 0]) == LeValue([x, y, z]) == x as int + 256 * (y as int) + 65536 * (z as int)
  {
    LeValueStep(x, [y, z, 0]);
    LeValueStep(y, [z, 0]);
    LeValueStep(z, [0]);
    LeValueStep(0, []);
    LeValueStep(x, [y, z]);
    LeValueStep(y, [z]);
    LeValueStep(z, []);
  }

  lemma LeValueStep(x: u8, s: Bytes)
    ensures LeValue([x] + s) == x + 256 * LeValue(s)
  {
    assert ([x] + s)[1..] == s;
  }

  /** Decoding the first 32 bytes of an instruction to a ticket's fields is the same as finding that
      ticket's encoding there: the layout is unambiguous for every id that fits its 24 bits. */
  lemma PaymentBytesAreUnique(d: Bytes, t: Exit)
    requires |d| >= 32 && t.groupId <= MAX_GROUP_ID
    ensures d[..32] == PaymentData(t) <==>
      && d[0] == 16
      && U64At(d, 1) == t.assets
      && LeValue([d[9], d[10], d[11], 0]) == t.groupId
      && U64At(d, 12) == t.minDelayMs
      && U64At(d, 20) == t.maxDelayMs
      && LeValue(d[28..32]) == t.split
  {
    Pow256Values();
    var e, p := d[..32], PaymentData(t);
    PaymentFields(LeBytes(t.assets, 8), LeBytes(t.groupId, 3), LeBytes(t.minDelayMs, 8), LeBytes(t.maxDelayMs, 8),
                  LeBytes(t.split, 4), p);
    assert d[1..9] == e[1..9] && d[9..12] == e[9..12] && d[12..20] == e[12..20];
    assert d[20..28] == e[20..28] && d[28..32] == e[28..32];
    GroupIdValue(d[9..12]);
    FieldMatches(d[1..9], t.assets);
    FieldMatches(d[9..12], t.groupId);
    FieldMatches(d[12..20], t.minDelayMs);
    FieldMatches(d[20..28], t.maxDelayMs);
    FieldMatches(d[28..32], t.split);
    if d[0] == ESPL_DEPOSIT_AND_QUEUE_TRANSFER && d[1..9] == p[1..9] && d[9..12] == p[9..12]
       && d[12..20] == p[12..20] && d[20..28] == p[20..28] && d[28..32] == p[28..32] {
      SameFields(e, p);
    }
  }

  lemma FieldMatches(f: Bytes, value: nat)
    requires value < Pow256(|f|)
    ensures LeValue(f) == value <==> f == LeBytes(value, |f|)
  {
    LeDecodesEncoded(value, |f|);
    LeEncodesDecoded(f);
  }

  lemma SameFields(e: Bytes, p: Bytes)
    requires |e| == |p| == 32 && e[0] == p[0]
    requires e[1..9] == p[1..9] && e[9..12] == p[9..12] && e[12..20] == p[12..20]
    requires e[20..28] == p[20..28] && e[28..32] == p[28..32]
    ensures e == p
  {
    assert e == [e[0]] + e[1..9] + e[9..12] + e[12..20] + e[20..28] + e[28..32];
    assert p == [p[0]] + p[1..9] + p[9..12] + p[12..20] + p[20..28] + p[28..32];
  }

  /** A payment is accepted for a ticket exactly when its first 32 bytes are that ticket's encoding
      and its accounts are the mint, the custody, the ticket's owner and the signing custody key. */
  lemma AcceptedPaymentIsTheTicket(ix: Instruction, t: Exit, usdc: Pubkey, custody: Pubkey, custodyOwner: Pubkey)
    requires t.groupId <= MAX_GROUP_ID
    ensures PaysTicket(ix, t, usdc, custody, custodyOwner) <==>
      && ix.program == EphemeralSpl
      && |ix.data| >= 32 && ix.data[..32] == PaymentData(t)
      && |ix.accounts| >= 7
      && ix.accounts[2].pubkey == usdc && ix.accounts[3].pubkey == custody
      && ix.accounts[5].pubkey == t.owner && ix.accounts[6] == AccountMeta(custodyOwner, true)
  {
    if |ix.data| >= 32 {
      PaymentBytesAreUnique(ix.data, t);
    }
  }

  /** Two different well-formed tickets never share a payment. */
  lemma OnePaymentOneTicket(ix: Instruction, t: Exit, u: Exit, usdc: Pubkey, custody: Pubkey, custodyOwner: Pubkey)
    requires PaysTicket(ix, t, usdc, custody, custodyOwner) && PaysTicket(ix, u, usdc, custody, custodyOwner)
    ensures t == u
  {
  }

  /** The accounts around the payment that the program does not look at. */
  datatype QueueAccounts = QueueAccounts(queue: Pubkey, vaultAta: Pubkey, token: Pubkey, receipt: Pubkey,
                                         ephemeralVault: Pubkey, magic: Pubkey)

  /** `queueTransferIx` for a ticket paid out of the custody, as `payExitIxs` calls it. */
  function PaymentIx(t: Exit, usdc: Pubkey, custody: Pubkey, custodyOwner: Pubkey, q: QueueAccounts): Instruction {
    Instruction(EphemeralSpl, [
      AccountMeta(q.queue, false), AccountMeta(q.queue, false), AccountMeta(usdc, false),
      AccountMeta(custody, false), AccountMeta(q.vaultAta, false), AccountMeta(t.owner, false),
      AccountMeta(custodyOwner, true), AccountMeta(q.token, false), AccountMeta(custody, false),
      AccountMeta(q.receipt, false), AccountMeta(q.ephemeralVault, false), AccountMeta(q.magic, false)
    ], PaymentData(t), NoCall)
  }

  /** The payment built for a ticket is accepted for that ticket. */
  lemma BuiltPaymentIsAccepted(t: Exit, usdc: Pubkey, custody: Pubkey, custodyOwner: Pubkey, q: QueueAccounts)
    requires t.groupId <= MAX_GROUP_ID
    ensures PaysTicket(PaymentIx(t, usdc, custody, custodyOwner, q), t, usdc, custody, custodyOwner)
  {
    var ix := PaymentIx(t, usdc, custody, custodyOwner, q);
    assert ix.data[..32] == PaymentData(t);
    AcceptedPaymentIsTheTicket(ix, t, usdc, custody, custodyOwner);
  }

  // ------------------------------------------------------ built byte by byte

  /** Writes `n` little-endian bytes of `value` at `at`, as `writeBigUInt64LE` and `writeUInt32LE` do. */
  method WriteLe(data: array<u8>, value: nat, at: nat, n: nat)
    requires at + n <= data.Length
    modifies data
    ensures data[at..at + n] == LeBytes(value, n)
    ensures data[..at] == old(data[..at]) && data[at + n..] == old(data[at + n..])
  {
    var rest := value;
    var k := 0;
    while k < n
      invariant k <= n && rest >= 0
      invariant data[..at] == old(data[..at]) && data[at + n..] == old(data[at + n..])
      invariant data[at..at + k] + LeBytes(rest, n - k) == LeBytes(value, n)
    {
      ghost var before := data[at..at + k];
      data[at + k] := rest % 256;
      assert data[at..at + k] == before;
      assert data[at..at + k + 1] == before + [rest % 256];
      assert LeBytes(rest, n - k) == [rest % 256] + LeBytes(rest / 256, n - k - 1);
      rest := rest / 256;
      k := k + 1;
    }
  }

  /** `queueTransferIx`'s buffer, filled field by field. */
  method PaymentBuffer(t: Exit) returns (data: array<u8>)
    ensures fresh(data) && data[..] == PaymentData(t)
  {
    data := new u8[32](_ => 0);
    data[0] := ESPL_DEPOSIT_AND_QUEUE_TRANSFER;
    WriteLe(data, t.assets, 1, 8);
    ghost var d1 := data[..9];
    data[9] := t.groupId % 256;
    data[10] := t.groupId / 256 % 256;
    data[11] := t.groupId / 65536 % 256;
    GroupIdBytes(t.groupId);
    ghost var d2 := data[..12];
    assert d2 == d1 + LeBytes(t.groupId, 3);
    WriteLe(data, t.minDelayMs, 12, 8);
    ghost var d3 := data[..20];
    assert d3 == d2 + LeBytes(t.minDelayMs, 8);
    WriteLe(data, t.maxDelayMs, 20, 8);
    ghost var d4 := data[..28];
    assert d4 == d3 + LeBytes(t.maxDelayMs, 8);
    WriteLe(data, t.split, 28, 4);
    assert data[..] == d4 + LeBytes(t.split, 4);
  }

  lemma GroupIdBytes(g: nat)
    ensures LeBytes(g, 3) == [g % 256, g / 256 % 256, g / 65536 % 256]
  {
    assert g / 256 / 256 == g / 65536;
    assert LeBytes(g, 3) == [g % 256] + LeBytes(g / 256, 2);
    assert LeBytes(g / 256, 2) == [g / 256 % 256] + LeBytes(g / 256 / 256, 1);
    assert LeBytes(g / 256 / 256, 1) == [g / 256 / 256 % 256] + LeBytes(g / 256 / 256 / 256, 0);
  }

  // ----------------------------------------------------------------- account

  class ExitBook {
    const slots: array<Exit>

    ghost predicate Valid() { slots.Length == EXIT_SLOTS }

    ghost function View(): Slots
      requires Valid()
      reads slots
    {
      slots[..]
    }

    constructor ()
      ensures Valid() && fresh(slots)
      ensures forall i :: 0 <= i < EXIT_SLOTS ==> View()[i] == FREE
    {
      slots := new Exit[EXIT_SLOTS](_ => FREE);
    }

    /** The scan both `any` and `find` make: the first slot with this id. */
    method Find(groupId: u32) returns (k: nat)
      requires Valid()
      ensures k == FirstWith(View(), groupId)
    {
      k := 0;
      while k < EXIT_SLOTS && slots[k].groupId != groupId
        invariant k <= EXIT_SLOTS
        invariant k + FirstWith(slots[k..], groupId) == FirstWith(View(), groupId)
      {
        assert slots[k..][1..] == slots[k + 1..];
        k := k + 1;
      }
    }

    method Open(t: Exit) returns (r: Result<()>)
      requires Valid()
      modifies slots
      ensures r.Ok? <==> OpenTicket(old(View()), t).Ok?
      ensures r.Err? ==> r.error == OpenTicket(old(View()), t).error && View() == old(View())
      ensures r.Ok? ==> View() == OpenTicket(old(View()), t).value
    {
      var taken := Find(t.groupId);
      assert taken < EXIT_SLOTS ==> View()[taken].groupId == t.groupId;
      var _ :- Require(taken == EXIT_SLOTS, BadExitParams);
      var k := Find(0);
      var _ :- Require(k < EXIT_SLOTS, ExitBookFull);
      slots[k] := t;
      r := Ok(());
    }

    method Settle(groupId: u32, prev: Instruction, usdc: Pubkey, custody: Pubkey, custodyOwner: Pubkey)
      returns (r: Result<()>)
      requires Valid()
      modifies slots
      ensures r.Ok? <==> CloseTicket(old(View()), groupId, prev, usdc, custody, custodyOwner).Ok?
      ensures r.Err? ==> r.error == CloseTicket(old(View()), groupId, prev, usdc, custody, custodyOwner).error
      ensures r.Err? ==> View() == old(View())
      ensures r.Ok? ==> View() == CloseTicket(old(View()), groupId, prev, usdc, custody, custodyOwner).value
    {
      var k := Find(groupId);
      var _ :- Require(groupId != 0 && k < EXIT_SLOTS, UnknownExit);
      var _ :- Require(PaysTicket(prev, slots[k], usdc, custody, custodyOwner), PaymentMismatch);
      slots[k] := FREE;
      r := Ok(());
    }
  }
}
