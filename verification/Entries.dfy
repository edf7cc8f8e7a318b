/** The entry price a position carries, over whole runs of the system: what it paid is the enclave's
    ledger price at each purchase. */
module Entries {
  import opened Words
  import opened Pools
  import opened Pricing
  import opened Instructions
  import opened Enclave
  import opened Protocol
  import opened ProtocolProofs
  import opened Theorems
  import opened Outcomes
  import opened Authority
  import P = Positions
  import E = EnclaveProofs
  import T = Transactions
  import X = Exits

  /** The price a private credit or a sync is due: per whole share on the enclave's ledger before it. */
  function LedgerPrice(env: Env, sh: Shielded): nat
    requires E.EnvOk(env) && E.CanPrice(env, sh)
  {
    PriceOf(E.LedgerIn(env, sh))
  }

  /** What an instruction means for the shares of a position, at the ledger's price. */
  function EventOf(env: Env, e: State, ix: Instruction, position: Pubkey): Option<P.Event>
    requires E.EnvOk(env) && E.CanPrice(env, e.shielded)
  {
    var price := LedgerPrice(env, e.shielded);
    if !ActsOn(ix, position) || price > U64_MAX then None
    else
      match ix.call
      case DepositPrivate(_, _, _, amount) =>
        var minted := MintedFor(E.LedgerIn(env, e.shielded), amount);
        if minted <= U64_MAX then Some(P.Credited(minted, price, env.now)) else None
      case RedeemPrivate(_, _, shares, _, _, _, _) => Some(P.Debited(shares, price, env.now))
      case RedeemPrivateTo(_, _, shares, _, _, _, _, _) => Some(P.Debited(shares, price, env.now))
      case SyncPosition(_, _, held) => Some(P.Synced(held, price, env.now))
      case _ => None
  }

  lemma EnclaveQuotes(env: Env, e: State)
    requires E.Good(env, e) && E.InRange(env, e.shielded)
    ensures var l := E.LedgerIn(env, e.shielded);
      && l.assets <= U64_MAX && l.supply <= U64_MAX
      && NavForPricing(env.vault, env.book, e.shielded) == Ok(QuoteOf(l))
      && SharePrice(QuoteOf(l)) == if PriceOf(l) <= U64_MAX then Ok(PriceOf(l)) else Err(MathOverflow)
  {
    hide E.GoodRotations, NavForPricing;
    PricingIsTheLedger(env.vault, env.book, e.shielded);
  }

  /** An accepted instruction that acts on a position is exactly its event, at the ledger's price. */
  lemma ActingIsItsEvent(env: Env, e: State, ixs: seq<Instruction>, i: nat, position: Pubkey)
    requires i < |ixs| && Exec(env, e, ixs, i).Ok? && ActsOn(ixs[i], position)
    requires E.Good(env, e) && E.InRange(env, e.shielded)
    ensures position in e.positions && position in Exec(env, e, ixs, i).value.positions
    ensures var ev := EventOf(env, e, ixs[i], position);
      && ev.Some?
      && P.Apply(e.positions[position], ev.value) == Ok(Exec(env, e, ixs, i).value.positions[position])
  {
    hide E.Good, NavForPricing, SharePrice, SharesFor, AssetsFor, IsTokenTransfer, P.Credit, P.Debit, P.Sync, P.MayAct,
      PriceOf, LedgerOf, MintedFor, X.OpenTicket, QuoteOf;
    EnclaveQuotes(env, e);
    T.GoodParts(env, e);
    if ixs[i].call.DepositPrivate? && ixs[i].call.amount > 0 {
      MintIs(E.LedgerIn(env, e.shielded), ixs[i].call.amount);
    }
  }

  /** A position as it is tracked through one instruction: its event, if it is one, at the ledger's price;
      a rotation changes nothing that is tracked. */
  ghost function TrackOne(env: Env, e: State, ixs: seq<Instruction>, i: nat, position: Pubkey, t: P.Tracked): P.Tracked
    requires i < |ixs| && Exec(env, e, ixs, i).Ok? && E.EnvOk(env) && E.CanPrice(env, e.shielded)
    requires position in Exec(env, e, ixs, i).value.positions
  {
    var ev := EventOf(env, e, ixs[i], position);
    if ev.Some? && P.Apply(t.position, ev.value).Ok? then P.Track(t, ev.value)
    else t.(position := Exec(env, e, ixs, i).value.positions[position])
  }

  /** Every purchase along the transaction is at a price within `low` and `high`, and no share count of
      the position leaves a u64. */
  ghost predicate PaysWithin(env: Env, e: State, ix: Instruction, position: Pubkey, low: nat, high: nat)
    requires E.EnvOk(env) && E.CanPrice(env, e.shielded) && position in e.positions
  {
    var p, ev := e.positions[position], EventOf(env, e, ix, position);
    ev.Some? ==>
      && P.Held(p) + P.Buys(p, ev.value) <= U64_MAX
      && (P.Buys(p, ev.value) > 0 ==> low <= ev.value.price <= high)
  }

  lemma InstructionKeepsEntry(env: Env, e: State, ixs: seq<Instruction>, i: nat, position: Pubkey, t: P.Tracked,
                              low: nat, high: nat)
    requires i < |ixs| && Exec(env, e, ixs, i).Ok? && E.Good(env, e) && E.InRange(env, e.shielded)
    requires position in e.positions && t.position == e.positions[position] && P.EntryIsSound(t, low, high)
    requires E.EnvOk(env) && E.CanPrice(env, e.shielded) && PaysWithin(env, e, ixs[i], position, low, high)
    ensures position in Exec(env, e, ixs, i).value.positions
    ensures var after := TrackOne(env, e, ixs, i, position, t);
      after.position == Exec(env, e, ixs, i).value.positions[position] && P.EntryIsSound(after, low, high)
  {
    hide E.Good, Exec, P.Apply, LedgerPrice;
    OthersLeaveItAlone(env, e, ixs, i, position);
    if ActsOn(ixs[i], position) {
      ActingIsItsEvent(env, e, ixs, i, position);
      var ev := EventOf(env, e, ixs[i], position).value;
      P.EventKeepsEntrySound(t, ev, low, high);
    }
  }

  // ------------------------------------------------------ transactions and runs

  /** The position is there and the enclave can price, as in every state of a run. */
  predicate Followed(env: Env, e: State, position: Pubkey) {
    E.EnvOk(env) && E.CanPrice(env, e.shielded) && position in e.positions
  }

  ghost predicate PaysFrom(env: Env, e: State, ixs: seq<Instruction>, i: nat, position: Pubkey, low: nat, high: nat)
    requires i <= |ixs| && ExecFrom(env, e, ixs, i).Ok?
    decreases |ixs| - i
  {
    i < |ixs| ==>
      && (Followed(env, e, position) ==> PaysWithin(env, e, ixs[i], position, low, high))
      && PaysFrom(env, Exec(env, e, ixs, i).value, ixs, i + 1, position, low, high)
  }

  ghost function TrackFrom(env: Env, e: State, ixs: seq<Instruction>, i: nat, position: Pubkey, t: P.Tracked): P.Tracked
    requires i <= |ixs| && ExecFrom(env, e, ixs, i).Ok?
    decreases |ixs| - i
  {
    if i == |ixs| then t
    else
      var next := Exec(env, e, ixs, i).value;
      var after := if Followed(env, e, position) && position in next.positions
        then TrackOne(env, e, ixs, i, position, t) else t;
      TrackFrom(env, next, ixs, i + 1, position, after)
  }

  lemma {:induction false} SuccessKeepsEntry(env: Env, e: State, ixs: seq<Instruction>, i: nat, position: Pubkey,
                                             t: P.Tracked, low: nat, high: nat)
    requires i <= |ixs| && E.Good(env, e) && E.Executed(env, ixs, i) && E.CustodyDisciplined(env, ixs)
    requires T.StaysInRange(env, e, ixs, i) && ExecFrom(env, e, ixs, i).Ok?
    requires position in e.positions && t.position == e.positions[position] && P.EntryIsSound(t, low, high)
    requires PaysFrom(env, e, ixs, i, position, low, high)
    ensures position in ExecFrom(env, e, ixs, i).value.positions
    ensures var after := TrackFrom(env, e, ixs, i, position, t);
      && after.position == ExecFrom(env, e, ixs, i).value.positions[position]
      && P.EntryIsSound(after, low, high)
    decreases |ixs| - i
  {
    hide E.Good, E.StepsLedger, E.Surplus, E.InRange, Exec, TrackOne, PaysWithin, P.EntryIsSound;
    if i < |ixs| {
      T.GoodParts(env, e);
      E.ExecKeepsGood(env, e, ixs, i);
      InstructionKeepsEntry(env, e, ixs, i, position, t, low, high);
      SuccessKeepsEntry(env, Exec(env, e, ixs, i).value, ixs, i + 1, position, TrackOne(env, e, ixs, i, position, t),
                        low, high);
    }
  }

  /** Every purchase of the position along the run is at a ledger price within `low` and `high`. */
  ghost predicate PaysOver(cfg: Setup, w: World, steps: seq<Step>, position: Pubkey, low: nat, high: nat)
    decreases |steps|
  {
    |steps| > 0 ==>
      && (steps[0].EnclaveTx? && ExecFrom(EnvAt(cfg, w, steps[0].now), w.enclave, steps[0].ixs, 0).Ok? ==>
           PaysFrom(EnvAt(cfg, w, steps[0].now), w.enclave, steps[0].ixs, 0, position, low, high))
      && PaysOver(cfg, Next(cfg, w, steps[0]), steps[1..], position, low, high)
  }

  ghost function TrackStep(cfg: Setup, w: World, step: Step, position: Pubkey, t: P.Tracked): P.Tracked {
    if step.EnclaveTx? && ExecFrom(EnvAt(cfg, w, step.now), w.enclave, step.ixs, 0).Ok?
    then TrackFrom(EnvAt(cfg, w, step.now), w.enclave, step.ixs, 0, position, t)
    else t
  }

  /** The position at the end of the run, beside the exact share-weighted average of the ledger prices it
      bought at and the number of its purchases. */
  ghost function TrackOver(cfg: Setup, w: World, steps: seq<Step>, position: Pubkey, t: P.Tracked): P.Tracked
    decreases |steps|
  {
    if |steps| == 0 then t
    else TrackOver(cfg, Next(cfg, w, steps[0]), steps[1..], position, TrackStep(cfg, w, steps[0], position, t))
  }

  lemma StepKeepsEntry(cfg: Setup, w: World, step: Step, position: Pubkey, t: P.Tracked, low: nat, high: nat)
    requires Inv(cfg, w) && InRange(w) && Allowed(cfg, w, step) && position in w.enclave.positions
    requires t.position == w.enclave.positions[position] && P.EntryIsSound(t, low, high)
    requires PaysOver(cfg, w, [step], position, low, high)
    ensures position in Next(cfg, w, step).enclave.positions
    ensures var after := TrackStep(cfg, w, step, position, t);
      && after.position == Next(cfg, w, step).enclave.positions[position]
      && P.EntryIsSound(after, low, high)
  {
    hide E.Good, E.Surplus, SeenInv, MarksInv, BooksInv, T.StaysInRange, ExecFrom, PaysFrom, TrackFrom, P.EntryIsSound;
    if step.EnclaveTx? {
      GoodAtAnyTime(cfg, w, step.now);
      if ExecFrom(EnvAt(cfg, w, step.now), w.enclave, step.ixs, 0).Ok? {
        SuccessKeepsEntry(EnvAt(cfg, w, step.now), w.enclave, step.ixs, 0, position, t, low, high);
      }
    }
  }

  /** Over any run of the system, while a position pays prices within a range, the entry price it carries
      stays in that range, never above the exact share-weighted average of the enclave's ledger prices at
      its purchases, and below it by less than the number of purchases. */
  lemma {:induction false} EntryStaysSoundOverRuns(cfg: Setup, w: World, steps: seq<Step>, position: Pubkey,
                                                   t: P.Tracked, low: nat, high: nat)
    requires Inv(cfg, w) && InRange(w) && AllowedRun(cfg, w, steps) && position in w.enclave.positions
    requires t.position == w.enclave.positions[position] && P.EntryIsSound(t, low, high)
    requires PaysOver(cfg, w, steps, position, low, high)
    ensures position in Run(cfg, w, steps).enclave.positions
    ensures var after := TrackOver(cfg, w, steps, position, t);
      && after.position == Run(cfg, w, steps).enclave.positions[position]
      && P.EntryIsSound(after, low, high)
    decreases |steps|
  {
    hide Inv, InRange, Next, Allowed, TrackStep, P.EntryIsSound;
    if |steps| > 0 {
      assert PaysOver(cfg, w, [steps[0]], position, low, high) by {
        assert [steps[0]][1..] == [];
      }
      StepKeepsEntry(cfg, w, steps[0], position, t, low, high);
      NextKeepsInv(cfg, w, steps[0]);
      EntryStaysSoundOverRuns(cfg, Next(cfg, w, steps[0]), steps[1..], position,
                              TrackStep(cfg, w, steps[0], position, t), low, high);
    }
  }

  /** From the moment a position is opened, with nothing bought yet. */
  lemma EntryOfAnOpenedPosition(cfg: Setup, w: World, position: Pubkey, owner: Pubkey, key: Pubkey, expiry: i64,
                                steps: seq<Step>, low: nat, high: nat)
    requires Inv(cfg, w) && InRange(w) && position !in w.enclave.positions
    requires AllowedRun(cfg, w, [OpenPosition(position, owner, key, expiry)] + steps)
    requires PaysOver(cfg, Next(cfg, w, OpenPosition(position, owner, key, expiry)), steps, position, low, high)
    ensures var started := Next(cfg, w, OpenPosition(position, owner, key, expiry));
      && position in started.enclave.positions
      && position in Run(cfg, started, steps).enclave.positions
      && var after := TrackOver(cfg, started, steps, position,
                                P.Tracked(started.enclave.positions[position], ONE as real, 0));
      && after.position == Run(cfg, started, steps).enclave.positions[position]
      && P.EntryIsSound(after, low, high)
  {
    hide Inv, InRange, Run, PaysOver, TrackOver;
    var open := OpenPosition(position, owner, key, expiry);
    assert ([open] + steps)[0] == open && ([open] + steps)[1..] == steps;
    var started := Next(cfg, w, open);
    NextKeepsInv(cfg, w, open);
    EntryStaysSoundOverRuns(cfg, started, steps, position,
                            P.Tracked(started.enclave.positions[position], ONE as real, 0), low, high);
  }
}
