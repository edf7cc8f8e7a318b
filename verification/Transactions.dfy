/** Whole transactions in the enclave, of any length and any mix of instructions. */
module Transactions {
  import opened Words
  import opened Books
  import opened Pricing
  import opened Instructions
  import opened Exits
  import opened Enclave
  import opened EnclaveProofs

  /** Every state the transaction passes through keeps its sums inside u64. */
  ghost predicate StaysInRange(env: Env, e: State, ixs: seq<Instruction>, i: nat)
    requires i <= |ixs|
    decreases |ixs| - i
  {
    && InRange(env, e.shielded)
    && (i < |ixs| && Exec(env, e, ixs, i).Ok? ==> StaysInRange(env, Exec(env, e, ixs, i).value, ixs, i + 1))
  }

  /** USDC moved into the custody by SPL transfers from elsewhere, from instruction `i` on. */
  function TransfersFrom(env: Env, ixs: seq<Instruction>, i: nat): nat
    requires i <= |ixs|
    decreases |ixs| - i
  {
    if i == |ixs| then 0 else InAmount(env, ixs[i]) + TransfersFrom(env, ixs, i + 1)
  }

  /** USDC credited as private deposits, from instruction `i` on. */
  function CreditsFrom(ixs: seq<Instruction>, i: nat): nat
    requires i <= |ixs|
    decreases |ixs| - i
  {
    if i == |ixs| then 0 else CreditAmount(ixs[i]) + CreditsFrom(ixs, i + 1)
  }

  // ------------------------------------------------- credits match transfers

  lemma CreditReadsTransfer(env: Env, e: State, ixs: seq<Instruction>, i: nat)
    requires i < |ixs| && Exec(env, e, ixs, i).Ok?
    requires ixs[i].program == Agama && ixs[i].call.DepositPrivate?
    ensures i > 0
    ensures IsTokenTransfer(ixs[i - 1], ixs[i].call.amount, env.ata(ixs[i].call.depositor, env.usdc), Custody(env),
                            ixs[i].call.depositor)
  {
    hide NavForPricing, SharesFor, SharePrice;
  }

  lemma SettleReadsPayment(env: Env, e: State, ixs: seq<Instruction>, i: nat)
    requires i < |ixs| && Exec(env, e, ixs, i).Ok?
    requires ixs[i].program == Agama && ixs[i].call.SettleExit?
    ensures i > 0 && SettlesPaidTicket(env, e, ixs[i - 1], ixs[i].call.groupId, Exec(env, e, ixs, i).value)
  {
    hide PaysTicket;
  }

  /** The ticket with this id is open, `payment` pays exactly it, and `after` is `e` without it. */
  predicate SettlesPaidTicket(env: Env, e: State, payment: Instruction, groupId: u32, after: State) {
    var n := FirstWith(e.slots, groupId);
    && n < EXIT_SLOTS && IsOpen(e.slots, e.slots[n]) && e.slots[n].groupId == groupId
    && PaysTicket(payment, e.slots[n], env.usdc, Custody(env), env.custodyOwner)
    && after == e.(slots := e.slots[n := FREE])
  }

  /** The state instruction `k` runs on. */
  function StateBefore(env: Env, e: State, ixs: seq<Instruction>, i: nat, k: nat): State
    requires i <= k <= |ixs| && ExecFrom(env, e, ixs, i).Ok?
    decreases k - i
  {
    if i == k then e else StateBefore(env, Exec(env, e, ixs, i).value, ixs, i + 1, k)
  }

  /** In a transaction that goes through, every credit sits right behind its own SPL transfer of
      exactly that amount, from that depositor into the custody, and every settle right behind a
      payment in full of the ticket it closes, open until then. Each looks only at its predecessor,
      so no transfer and no payment is used twice. */
  lemma {:induction false} EveryCreditHasItsTransfer(env: Env, e: State, ixs: seq<Instruction>, i: nat, k: nat)
    requires i <= k < |ixs| && ExecFrom(env, e, ixs, i).Ok? && ixs[k].program == Agama
    ensures var before := StateBefore(env, e, ixs, i, k);
      && Exec(env, before, ixs, k).Ok?
      && (ixs[k].call.DepositPrivate? ==>
           k > 0
           && IsTokenTransfer(ixs[k - 1], ixs[k].call.amount, env.ata(ixs[k].call.depositor, env.usdc), Custody(env),
                              ixs[k].call.depositor))
      && (ixs[k].call.SettleExit? ==>
           k > 0
           && SettlesPaidTicket(env, before, ixs[k - 1], ixs[k].call.groupId, Exec(env, before, ixs, k).value))
    decreases |ixs| - i
  {
    hide Exec, PaysTicket;
    if i < k {
      EveryCreditHasItsTransfer(env, Exec(env, e, ixs, i).value, ixs, i + 1, k);
    } else if ixs[k].call.DepositPrivate? {
      CreditReadsTransfer(env, e, ixs, i);
    } else if ixs[k].call.SettleExit? {
      SettleReadsPayment(env, e, ixs, i);
    }
  }

  /** The custody's account is there and belongs to the custody key. */
  predicate HoldsCustody(env: Env, tokens: map<Pubkey, TokenHolding>) {
    Custody(env) in tokens && tokens[Custody(env)].owner == env.custodyOwner
  }

  lemma ExecHoldsCustody(env: Env, e: State, ixs: seq<Instruction>, i: nat)
    requires i < |ixs| && HoldsCustody(env, e.tokens) && Exec(env, e, ixs, i).Ok?
    ensures HoldsCustody(env, Exec(env, e, ixs, i).value.tokens)
  {
    hide ExecTransfer, ExecQueue;
    match ixs[i].program
    case SplToken => TransferKeepsCustody(env, e.tokens, ixs[i]);
    case EphemeralSpl => QueueKeepsCustody(env, e.tokens, ixs[i]);
    case _ =>
  }

  /** What a transaction credits never exceeds what it brought into the custody from elsewhere: the
      custody key signs no transfers, so the custody is never its own depositor. */
  lemma {:induction false} CreditsAreTransferred(env: Env, e: State, ixs: seq<Instruction>, i: nat)
    requires i <= |ixs| && ExecFrom(env, e, ixs, i).Ok?
    requires CustodyDisciplined(env, ixs) && HoldsCustody(env, e.tokens)
    requires i > 0 ==> FromElsewhere(env, ixs[i - 1])
    ensures CreditsFrom(ixs, i) <= TransfersFrom(env, ixs, i) + (if i > 0 then InAmount(env, ixs[i - 1]) else 0)
    decreases |ixs| - i
  {
    hide Exec, IsTokenTransfer, InAmount, FromElsewhere, HoldsCustody, CustodyDisciplined;
    if i < |ixs| {
      TransfersComeFromElsewhere(env, e, ixs, i);
      ExecHoldsCustody(env, e, ixs, i);
      CreditsAreTransferred(env, Exec(env, e, ixs, i).value, ixs, i + 1);
      if ixs[i].program == Agama && ixs[i].call.DepositPrivate? {
        CreditReadsTransfer(env, e, ixs, i);
        TransferMovesIn(env, ixs[i - 1], ixs[i].call.amount, ixs[i].call.depositor);
      }
    }
  }

  /** An SPL transfer, if it is one, takes from some account other than the custody. */
  predicate FromElsewhere(env: Env, ix: Instruction) {
    ix.program == SplToken && TransferShape(ix).Some? ==>
      ix.accounts[TransferShape(ix).value.source].pubkey != Custody(env)
  }

  lemma TransfersComeFromElsewhere(env: Env, e: State, ixs: seq<Instruction>, i: nat)
    requires i < |ixs| && CustodyDisciplined(env, ixs) && HoldsCustody(env, e.tokens)
    requires Exec(env, e, ixs, i).Ok?
    ensures FromElsewhere(env, ixs[i])
  {
    if ixs[i].program == SplToken && TransferShape(ixs[i]).Some? {
      assert ixs[i].accounts[TransferShape(ixs[i]).value.authority] in ixs[i].accounts;
    }
  }

  lemma TransferMovesIn(env: Env, ix: Instruction, amount: u64, depositor: Pubkey)
    requires IsTokenTransfer(ix, amount, env.ata(depositor, env.usdc), Custody(env), depositor)
    requires FromElsewhere(env, ix)
    ensures InAmount(env, ix) == amount
  {
  }

  // ------------------------------------------------------ the private price

  /** The enclave's price has not fallen below `floor`'s. */
  predicate PricedFrom(env: Env, floor: Ledger, sh: Shielded)
    requires EnvOk(env) && CanPrice(env, sh)
  {
    floor.supply > 0 && Upholds(floor, LedgerIn(env, sh), Yield(env.book) == 0)
  }

  lemma StepKeepsPrice(env: Env, floor: Ledger, e: State, t: State)
    requires EnvOk(env) && CanPrice(env, e.shielded) && CanPrice(env, t.shielded)
    requires StepsLedger(env, e, t) && PricedFrom(env, floor, e.shielded)
    ensures PricedFrom(env, floor, t.shielded)
  {
    hide Upholds, LedgerOf;
    var l, m := LedgerIn(env, e.shielded), LedgerIn(env, t.shielded);
    if t.shielded != e.shielded {
      var step: Move :| !step.Earn? && CanMove(l, step) && m == MovedBy(l, step)
        && (Yield(env.book) > 0 && l.supply > 0 ==> m.supply > 0);
      MoveUpholds(floor, l, step, Yield(env.book) == 0);
    }
  }

  // -------------------------------------------------------- the whole of it

  /** Everything a transaction that goes through keeps, and what it moves. */
  lemma {:induction false} SuccessKeepsGood(env: Env, e: State, ixs: seq<Instruction>, i: nat, floor: Ledger)
    requires i <= |ixs| && Good(env, e) && Executed(env, ixs, i) && CustodyDisciplined(env, ixs)
    requires StaysInRange(env, e, ixs, i) && ExecFrom(env, e, ixs, i).Ok?
    ensures var t := ExecFrom(env, e, ixs, i).value;
      && Good(env, t) && InRange(env, t.shielded)
      && t.shielded.totalIn == e.shielded.totalIn + CreditsFrom(ixs, i)
      && t.shielded.totalOut >= e.shielded.totalOut
      && Surplus(env, t) == Surplus(env, e) + TransfersFrom(env, ixs, i) - CreditsFrom(ixs, i)
           + (if i > 0 then OutAmount(env, ixs[i - 1]) else 0)
      && (PricedFrom(env, floor, e.shielded) ==> PricedFrom(env, floor, t.shielded))
    decreases |ixs| - i
  {
    hide Exec, GoodRotations, GoodSlots, PricedFrom, StepsLedger, Surplus, SumsFit64, LedgerOf;
    if i < |ixs| {
      var next := Exec(env, e, ixs, i).value;
      ExecKeepsGood(env, e, ixs, i);
      if PricedFrom(env, floor, e.shielded) {
        StepKeepsPrice(env, floor, e, next);
      }
      SuccessKeepsGood(env, next, ixs, i + 1, floor);
    }
  }

  /** Any transaction, accepted or rolled back, keeps the enclave's invariants; it never lowers what
      the custody holds beyond its debts, and it never lowers the private price. */
  lemma TransactionKeepsGood(env: Env, e: State, ixs: seq<Instruction>, floor: Ledger)
    requires Good(env, e) && CustodyDisciplined(env, ixs) && StaysInRange(env, e, ixs, 0)
    ensures var t := RunTransaction(env, e, ixs);
      && Good(env, t) && InRange(env, t.shielded)
      && t.shielded.totalIn >= e.shielded.totalIn && t.shielded.totalOut >= e.shielded.totalOut
      && Surplus(env, t) >= Surplus(env, e)
      && (PricedFrom(env, floor, e.shielded) ==> PricedFrom(env, floor, t.shielded))
  {
    hide Good, Surplus, PricedFrom;
    if ExecFrom(env, e, ixs, 0).Ok? {
      SuccessKeepsGood(env, e, ixs, 0, floor);
      GoodParts(env, e);
      CreditsAreTransferred(env, e, ixs, 0);
    }
  }

  // --------------------------------------------------------- paying tickets

  /** `payExitIxs`: the payment and, right behind it, the settle. */
  function PayExitIxs(env: Env, t: Exit, q: QueueAccounts): seq<Instruction> {
    [PaymentIx(t, env.usdc, Custody(env), env.custodyOwner, q),
     Instruction(Agama, [], [], SettleExit(env.authority, t.groupId))]
  }

  lemma PaymentAmount(env: Env, t: Exit, q: QueueAccounts)
    requires t.groupId <= MAX_GROUP_ID
    ensures OutAmount(env, PaymentIx(t, env.usdc, Custody(env), env.custodyOwner, q)) == t.assets
    ensures IsQueuePayment(PaymentIx(t, env.usdc, Custody(env), env.custodyOwner, q))
  {
    BuiltPaymentIsAccepted(t, env.usdc, Custody(env), env.custodyOwner, q);
  }

  lemma TicketIsCovered(slots: seq<Exit>, t: Exit)
    requires t in slots
    ensures t.assets <= Owed(slots)
  {
    var i :| 0 <= i < |slots| && slots[i] == t;
    OwedAfterUpdate(slots, i, t);
  }

  /** A solvent custody can pay any open ticket: the transaction built for it goes through, closes
      that ticket and no other, and leaves the custody exactly as solvent for the rest. */
  lemma OpenTicketCanBePaid(env: Env, e: State, t: Exit, q: QueueAccounts)
    requires Good(env, e) && Surplus(env, e) >= 0 && IsOpen(e.slots, t)
    ensures ExecFrom(env, e, PayExitIxs(env, t, q), 0).Ok?
    ensures var after := RunTransaction(env, e, PayExitIxs(env, t, q));
      && Good(env, after) && Surplus(env, after) == Surplus(env, e)
      && after.shielded == e.shielded && after.positions == e.positions
      && (forall x :: IsOpen(after.slots, x) <==> IsOpen(e.slots, x) && x != t)
  {
    hide Good, GoodRotations, PaymentIx, PaysTicket, LedgerOf, OutAmount, IsQueuePayment;
    var ixs := PayExitIxs(env, t, q);
    var c := Custody(env);
    GoodParts(env, e);
    OpenTicketsAreGood(e.slots, t);
    TicketIsCovered(e.slots, t);
    PaymentAmount(env, t, q);
    assert ixs[0] == PaymentIx(t, env.usdc, c, env.custodyOwner, q);
    var paid := e.(tokens := e.tokens[c := e.tokens[c].(amount := e.tokens[c].amount - t.assets)]);
    assert Exec(env, e, ixs, 0) == Ok(paid) by {
      PaymentExecutes(env, e, t, q);
    }
    BuiltPaymentIsAccepted(t, env.usdc, c, env.custodyOwner, q);
    TicketFoundById(e.slots, t);
    ClosingRemovesOneTicket(e.slots, t.groupId, ixs[0], env.usdc, c, env.custodyOwner);
    var closed := CloseTicket(e.slots, t.groupId, ixs[0], env.usdc, c, env.custodyOwner).value;
    var after := paid.(slots := closed);
    assert Exec(env, paid, ixs, 1) == Ok(after);
    assert ExecFrom(env, after, ixs, 2) == Ok(after);
    assert ExecFrom(env, paid, ixs, 1) == Ok(after);
    SettledIsGood(env, e, after);
  }

  lemma GoodParts(env: Env, e: State)
    requires Good(env, e)
    ensures EnvOk(env) && CanPrice(env, e.shielded) && GoodSlots(e.slots)
    ensures Custody(env) in e.tokens && e.tokens[Custody(env)].owner == env.custodyOwner
  {
  }

  lemma PaymentExecutes(env: Env, e: State, t: Exit, q: QueueAccounts)
    requires Good(env, e) && t.groupId <= MAX_GROUP_ID && t.assets <= CustodyUsdc(env, e)
    ensures var c := Custody(env);
      Exec(env, e, PayExitIxs(env, t, q), 0)
        == Ok(e.(tokens := e.tokens[c := e.tokens[c].(amount := e.tokens[c].amount - t.assets)]))
  {
    PaymentAmount(env, t, q);
  }

  lemma SettledIsGood(env: Env, e: State, after: State)
    requires Good(env, e) && GoodSlots(after.slots)
    requires after == e.(slots := after.slots, tokens := after.tokens)
    requires Custody(env) in after.tokens && after.tokens[Custody(env)].owner == env.custodyOwner
    ensures Good(env, after)
  {
    RotationsDependOn(env, e, after);
  }

  /** Pays the tickets one transaction after another. */
  function PayAll(env: Env, e: State, order: seq<Exit>, q: QueueAccounts): State
    decreases |order|
  {
    if |order| == 0 then e
    else PayAll(env, RunTransaction(env, e, PayExitIxs(env, order[0], q)), order[1..], q)
  }

  /** Open tickets can be paid in any order, down to the last one. */
  lemma {:induction false} TicketsCanBePaidInAnyOrder(env: Env, e: State, order: seq<Exit>, q: QueueAccounts)
    requires Good(env, e) && Surplus(env, e) >= 0
    requires forall i :: 0 <= i < |order| ==> IsOpen(e.slots, order[i])
    requires forall i, j :: 0 <= i < j < |order| ==> order[i] != order[j]
    ensures var after := PayAll(env, e, order, q);
      && Good(env, after) && Surplus(env, after) == Surplus(env, e)
      && (forall x :: IsOpen(after.slots, x) <==> IsOpen(e.slots, x) && x !in order)
    decreases |order|
  {
    hide Good, Surplus, RunTransaction, PayExitIxs;
    if |order| > 0 {
      var next := RunTransaction(env, e, PayExitIxs(env, order[0], q));
      OpenTicketCanBePaid(env, e, order[0], q);
      TicketsCanBePaidInAnyOrder(env, next, order[1..], q);
      assert order == [order[0]] + order[1..];
    }
  }

  /** Paying is the only way a ticket leaves: whatever one instruction does, a ticket that was open
      is still there unchanged, unless that instruction settled it next to its payment. */
  lemma TicketsStayUntilSettled(env: Env, e: State, ixs: seq<Instruction>, i: nat, t: Exit)
    requires i < |ixs| && Good(env, e) && InRange(env, e.shielded) && Exec(env, e, ixs, i).Ok? && IsOpen(e.slots, t)
    ensures IsOpen(Exec(env, e, ixs, i).value.slots, t)
      || (&& ixs[i].program == Agama && ixs[i].call.SettleExit? && ixs[i].call.groupId == t.groupId
          && i > 0 && PaysTicket(ixs[i - 1], t, env.usdc, Custody(env), env.custodyOwner))
  {
    hide GoodRotations, GoodSlots, Owed, LedgerOf, CreditDeposit, OpenExit, CloseTicket, PaysTicket, IsOpen;
    if ixs[i].program == Agama {
      var call := ixs[i].call;
      match call
      case RedeemPrivate(_, position, shares, _, _, _, _) =>
        ExitOpensOne(env, e, position, shares, Ticket(call, e.positions[position].owner));
      case RedeemPrivateTo(_, position, shares, _, _, _, _, payout) =>
        ExitOpensOne(env, e, position, shares, Ticket(call, payout));
      case SettleExit(_, groupId) =>
        ClosingRemovesOneTicket(e.slots, groupId, ixs[i - 1], env.usdc, Custody(env), env.custodyOwner);
      case _ =>
    }
  }

  /** The transaction settles this ticket right behind its payment. */
  ghost predicate SettlesTicket(env: Env, ixs: seq<Instruction>, t: Exit) {
    exists i :: 0 < i < |ixs| && SettlesAt(env, ixs, i, t)
  }

  predicate SettlesAt(env: Env, ixs: seq<Instruction>, i: nat, t: Exit)
    requires 0 < i < |ixs|
  {
    && ixs[i].program == Agama && ixs[i].call.SettleExit? && ixs[i].call.groupId == t.groupId
    && PaysTicket(ixs[i - 1], t, env.usdc, Custody(env), env.custodyOwner)
  }

  lemma {:induction false} SuccessKeepsTicket(env: Env, e: State, ixs: seq<Instruction>, i: nat, t: Exit)
    requires i <= |ixs| && Good(env, e) && Executed(env, ixs, i) && CustodyDisciplined(env, ixs)
    requires StaysInRange(env, e, ixs, i) && ExecFrom(env, e, ixs, i).Ok? && IsOpen(e.slots, t)
    ensures IsOpen(ExecFrom(env, e, ixs, i).value.slots, t) || SettlesTicket(env, ixs, t)
    decreases |ixs| - i
  {
    hide Exec, GoodRotations, GoodSlots, StepsLedger, Surplus, SumsFit64, LedgerOf, PaysTicket, IsOpen;
    if i < |ixs| {
      var next := Exec(env, e, ixs, i).value;
      ExecKeepsGood(env, e, ixs, i);
      TicketsStayUntilSettled(env, e, ixs, i, t);
      if IsOpen(next.slots, t) {
        SuccessKeepsTicket(env, next, ixs, i + 1, t);
      } else {
        assert SettlesAt(env, ixs, i, t);
      }
    }
  }

  lemma TransactionKeepsTicket(env: Env, e: State, ixs: seq<Instruction>, t: Exit)
    requires Good(env, e) && CustodyDisciplined(env, ixs) && StaysInRange(env, e, ixs, 0) && IsOpen(e.slots, t)
    ensures IsOpen(RunTransaction(env, e, ixs).slots, t)
      || (ExecFrom(env, e, ixs, 0).Ok? && SettlesTicket(env, ixs, t))
  {
    hide Good, IsOpen, SettlesTicket;
    if ExecFrom(env, e, ixs, 0).Ok? {
      SuccessKeepsTicket(env, e, ixs, 0, t);
    }
  }

  lemma ExitOpensOne(env: Env, e: State, position: Pubkey, shares: u64, ticket: Exit)
    requires Good(env, e) && InRange(env, e.shielded) && position in e.positions
    requires OpenExit(env, e.positions[position], e.shielded, e.slots, shares, ticket).Ok?
    ensures var (_, s, slots) := OpenExit(env, e.positions[position], e.shielded, e.slots, shares, ticket).value;
      && s.totalOut >= e.shielded.totalOut
      && (forall x ::
            IsOpen(slots, x) <==> IsOpen(e.slots, x) || x == ticket.(assets := s.totalOut - e.shielded.totalOut))
  {
    hide OpenExit, GoodRotations;
    SharesAfterUpdate(e.positions, position, e.positions[position]);
    ExitIsASale(env, e.positions[position], e.shielded, e.slots, shares, ticket);
  }

  /** Nobody but the owner and the live session key can open a ticket, and the session key never chooses
      where it pays: unless the owner signed, the new ticket names the position's owner. */
  lemma SessionKeyCannotRedirect(env: Env, e: State, ixs: seq<Instruction>, i: nat, t: Exit)
    requires i < |ixs| && Good(env, e) && InRange(env, e.shielded) && Exec(env, e, ixs, i).Ok?
    requires !IsOpen(e.slots, t) && IsOpen(Exec(env, e, ixs, i).value.slots, t)
    ensures ixs[i].program == Agama && (ixs[i].call.RedeemPrivate? || ixs[i].call.RedeemPrivateTo?)
    ensures ixs[i].call.position in e.positions
    ensures var p := e.positions[ixs[i].call.position];
      || ixs[i].call.signer == p.owner
      || (&& ixs[i].call.RedeemPrivate? && t.owner == p.owner
          && ixs[i].call.signer == p.sessionKey && p.sessionKey != ZERO_KEY && env.now < p.sessionExpiry)
    ensures ixs[i].call.RedeemPrivate? ==> t.owner == e.positions[ixs[i].call.position].owner
  {
    hide GoodRotations, GoodSlots, Owed, LedgerOf, CreditDeposit, OpenExit, CloseTicket, PaysTicket, IsOpen;
    if ixs[i].program == Agama {
      var call := ixs[i].call;
      match call
      case RedeemPrivate(_, position, shares, _, _, _, _) =>
        ExitOpensOne(env, e, position, shares, Ticket(call, e.positions[position].owner));
      case RedeemPrivateTo(_, position, shares, _, _, _, _, payout) =>
        ExitOpensOne(env, e, position, shares, Ticket(call, payout));
      case SettleExit(_, groupId) =>
        ClosingRemovesOneTicket(e.slots, groupId, ixs[i - 1], env.usdc, Custody(env), env.custodyOwner);
      case _ =>
    }
  }
}
