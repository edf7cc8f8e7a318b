/** Who may act on a private position: whatever an accepted instruction, transaction or step does to one,
    its owner or live session key asked for it. */
module Authority {
  import opened Words
  import opened Pricing
  import opened Instructions
  import opened Exits
  import opened Enclave
  import opened Protocol
  import P = Positions
  import S = Session
  import T = Transactions

  /** The calls that act on a position with a signer's authority. */
  predicate ActsOn(ix: Instruction, position: Pubkey) {
    && ix.program == Agama
    && (ix.call.DepositPrivate? || ix.call.RedeemPrivate? || ix.call.RedeemPrivateTo? || ix.call.SyncPosition?)
    && ix.call.position == position
  }

  /** An accepted instruction that acts on a position was signed by its owner, or, unless it names where
      the money goes, by its session key, set and not yet expired. */
  lemma ActingNeedsAuthority(env: Env, e: State, ixs: seq<Instruction>, i: nat, position: Pubkey)
    requires i < |ixs| && ActsOn(ixs[i], position) && Exec(env, e, ixs, i).Ok?
    ensures position in e.positions
    ensures var p, call := e.positions[position], ixs[i].call;
      || call.signer == p.owner
      || (&& !call.RedeemPrivateTo?
          && call.signer == p.sessionKey && p.sessionKey != ZERO_KEY && env.now < p.sessionExpiry)
  {
    hide CreditDeposit, OpenExit, NavForPricing, SharePrice, P.Sync;
    if ixs[i].call.DepositPrivate? {
      CreditNeedsAuthority(env, e.positions[position], e.shielded, ixs[i].call, Previous(ixs, i));
    }
  }

  lemma CreditNeedsAuthority(env: Env, p: P.Position, sh: Shielded, call: Call, prev: Option<Instruction>)
    requires call.DepositPrivate?
    requires CreditDeposit(env, p, sh, call.depositor, call.signer, call.amount, prev).Ok?
    ensures P.MayAct(p, call.signer, env.now)
  {
    hide NavForPricing, SharePrice, SharesFor, IsTokenTransfer, P.Credit;
  }

  /** Everything about a position but its session. */
  predicate SameButSession(p: P.Position, q: P.Position) {
    q == p.(sessionKey := q.sessionKey, sessionExpiry := q.sessionExpiry)
  }

  /** Nothing else touches a position: any other instruction leaves it as it was, but for a rotation on it,
      which changes the session only. */
  lemma OthersLeaveItAlone(env: Env, e: State, ixs: seq<Instruction>, i: nat, position: Pubkey)
    requires i < |ixs| && Exec(env, e, ixs, i).Ok? && position in e.positions
    ensures var t := Exec(env, e, ixs, i).value;
      && position in t.positions
      && (!ActsOn(ixs[i], position) ==> SameButSession(e.positions[position], t.positions[position]))
      && (t.positions[position].sessionKey != e.positions[position].sessionKey
          || t.positions[position].sessionExpiry != e.positions[position].sessionExpiry ==>
            ixs[i].program == Agama && ixs[i].call.RotateSession? && ixs[i].call.position == position)
  {
    hide OpenExit, CreditDeposit, NavForPricing, SharePrice, P.Sync, ExecTransfer, ExecQueue, CloseTicket,
      S.NamesSignatureOf, S.SessionMessage;
    if ActsOn(ixs[i], position) {
      ActingKeepsTheSession(env, e, ixs, i, position);
    }
  }

  lemma ActingKeepsTheSession(env: Env, e: State, ixs: seq<Instruction>, i: nat, position: Pubkey)
    requires i < |ixs| && Exec(env, e, ixs, i).Ok? && ActsOn(ixs[i], position)
    ensures var t := Exec(env, e, ixs, i).value;
      && position in e.positions && position in t.positions
      && t.positions[position].sessionKey == e.positions[position].sessionKey
      && t.positions[position].sessionExpiry == e.positions[position].sessionExpiry
  {
    hide NavForPricing, SharePrice, SharesFor, AssetsFor, IsTokenTransfer, OpenTicket, P.WeightedSum;
  }

  /** Tickets are opened by private redemptions only, so only with authority over some position. */
  lemma TicketsNeedAuthority(env: Env, e: State, ixs: seq<Instruction>, i: nat, t: Exit)
    requires i < |ixs| && Exec(env, e, ixs, i).Ok?
    requires !IsOpen(e.slots, t) && IsOpen(Exec(env, e, ixs, i).value.slots, t)
    ensures ixs[i].program == Agama && (ixs[i].call.RedeemPrivate? || ixs[i].call.RedeemPrivateTo?)
    ensures ActsOn(ixs[i], ixs[i].call.position)
  {
    hide OpenExit, CreditDeposit, NavForPricing, SharePrice, P.Sync, ExecTransfer, ExecQueue, S.Rotate;
    if ixs[i].program == Agama && ixs[i].call.SettleExit? {
      ClosingOpensNothing(e.slots, ixs[i].call.groupId, ixs[i - 1], env, t);
    }
  }

  lemma ClosingOpensNothing(slots: Slots, groupId: u32, prev: Instruction, env: Env, t: Exit)
    requires CloseTicket(slots, groupId, prev, env.usdc, Custody(env), env.custodyOwner).Ok? && t != FREE
    requires t in CloseTicket(slots, groupId, prev, env.usdc, Custody(env), env.custodyOwner).value
    ensures t in slots
  {
    hide PaysTicket;
  }

  // ------------------------------------------------------ transactions and steps

  /** Instruction `i` acts on the position, with the authority it needs when it runs. */
  ghost predicate AskedFor(env: Env, e: State, ixs: seq<Instruction>, start: nat, i: nat, position: Pubkey)
    requires start <= i < |ixs| && ExecFrom(env, e, ixs, start).Ok?
  {
    var before := T.StateBefore(env, e, ixs, start, i);
    && ActsOn(ixs[i], position) && position in before.positions
    && var p, call := before.positions[position], ixs[i].call;
    || call.signer == p.owner
    || (&& !call.RedeemPrivateTo?
        && call.signer == p.sessionKey && p.sessionKey != ZERO_KEY && env.now < p.sessionExpiry)
  }

  lemma {:induction false} SuccessNeedsAuthority(env: Env, e: State, ixs: seq<Instruction>, start: nat,
                                                 position: Pubkey)
    requires start <= |ixs| && ExecFrom(env, e, ixs, start).Ok? && position in e.positions
    ensures var t := ExecFrom(env, e, ixs, start).value;
      && position in t.positions
      && (SameButSession(e.positions[position], t.positions[position])
          || exists i :: start <= i < |ixs| && AskedFor(env, e, ixs, start, i, position))
    decreases |ixs| - start
  {
    hide Exec, ActsOn;
    if start < |ixs| {
      var next := Exec(env, e, ixs, start).value;
      OthersLeaveItAlone(env, e, ixs, start, position);
      SuccessNeedsAuthority(env, next, ixs, start + 1, position);
      if ActsOn(ixs[start], position) {
        ActingNeedsAuthority(env, e, ixs, start, position);
        assert AskedFor(env, e, ixs, start, start, position);
      } else {
        var rest := start + 1;
        if i :| rest <= i < |ixs| && AskedFor(env, next, ixs, rest, i, position) {
          assert AskedFor(env, e, ixs, start, i, position);
        }
      }
    }
  }

  /** A transaction changes a position, beyond its session, only if it goes through and carries an
      instruction on it with the owner's or the live session key's authority at that point. */
  lemma TransactionNeedsAuthority(env: Env, e: State, ixs: seq<Instruction>, position: Pubkey)
    requires position in e.positions
    ensures var t := RunTransaction(env, e, ixs);
      && position in t.positions
      && (SameButSession(e.positions[position], t.positions[position])
          || (&& ExecFrom(env, e, ixs, 0).Ok?
              && exists i :: 0 <= i < |ixs| && AskedFor(env, e, ixs, 0, i, position)))
  {
    hide ExecFrom, AskedFor;
    if ExecFrom(env, e, ixs, 0).Ok? {
      SuccessNeedsAuthority(env, e, ixs, 0, position);
    }
  }

  /** And no other step of anybody's changes a position at all. */
  lemma StepNeedsAuthority(cfg: Setup, w: World, step: Step, position: Pubkey)
    requires position in w.enclave.positions
    ensures var next := Next(cfg, w, step);
      && position in next.enclave.positions
      && (next.enclave.positions[position] == w.enclave.positions[position] || step.EnclaveTx?)
      && (step.EnclaveTx? ==>
           || SameButSession(w.enclave.positions[position], next.enclave.positions[position])
           || (&& ExecFrom(EnvAt(cfg, w, step.now), w.enclave, step.ixs, 0).Ok?
               && exists i :: 0 <= i < |step.ixs|
                    && AskedFor(EnvAt(cfg, w, step.now), w.enclave, step.ixs, 0, i, position)))
  {
    hide RunTransaction, AskedFor;
    if step.EnclaveTx? {
      TransactionNeedsAuthority(EnvAt(cfg, w, step.now), w.enclave, step.ixs, position);
    }
  }
}
