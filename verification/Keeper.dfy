/** The keeper: the loop that absorbs, ticks and commits the book, cut into the pieces between which
    anybody else may act, and the tickets it pays beside it. What the network answers is passed in. */
module Keeper {
  import opened Words
  import opened Books
  import opened Pricing
  import opened Exits
  import opened Protocol
  import opened ProtocolProofs
  import opened PoolBookAccount
  import Arithmetic
  import Enc = Enclave
  import E = EnclaveProofs
  import T = Transactions

  /** Commits one delegation sponsors. */
  const COMMIT_LIMIT: nat := 10

  /** A transaction lands and is reported, lands although its report was lost, or never lands. */
  datatype Sent = Landed | LandedUnreported | Lost

  /** A tick is sent without waiting: whether it lands shows nowhere, but the send itself can fail. */
  datatype TickAnswer = TickAnswer(lands: bool, accepted: bool)

  datatype CommitAnswer = Committed | CommittedUnreported | LimitReached | CommitFailed

  datatype Cadence = Cadence(absorbEvery: nat, commitEvery: nat)

  predicate GoodCadence(c: Cadence) { c.absorbEvery > 0 && c.commitEvery > 0 }

  // ------------------------------------------------------------------ pieces

  /** Where a turn of the loop stands. Recycling is either part of the turn or healing a failed one. */
  datatype Phase =
    | Idle | Reading | Sending | Ticking | Committing
    | Undelegating(healing: bool) | Delegating(healing: bool) | Proving(healing: bool)
    | Failed

  /** What the keeper works on: the book, live and as Solana has it, the absorb it has sent, whether the
      rollup has the book, and its own counters. */
  datatype Desk = Desk(live: Book, committed: Book, outgoing: Option<Absorbing>, delegated: bool, n: nat,
                       commits: nat, phase: Phase)

  /** Everything a turn does, cut wherever it waits for the network. A piece out of its phase does nothing. */
  datatype Piece =
    | Begins
    | Reads(vault: Vault, published: Option<Shielded>)
    | ReadsFail
    | Sends(sent: Sent, now: i64)
    | Ticks(tick: TickAnswer, now: i64)
    | Commits(answer: CommitAnswer)
    | Undelegates(sent: Sent)
    | Delegates(sent: Sent)
    | Proves(sent: Sent, now: i64)
    | Heals(noticed: bool)

  /** No aggregate account on Solana reads as an aggregate with no flow. */
  function OrNone(published: Option<Shielded>): Shielded {
    if published.Some? then published.value else Shielded(0, 0, 0)
  }

  function ToAbsorb(b: Book, v: Vault, published: Option<Shielded>): Option<Absorbing> {
    Unabsorbed(v, OrNone(published), b.markedIn, b.markedOut)
  }

  /** The book once an absorb or a tick has been executed on it, successfully or not. */
  function AfterAbsorb(b: Book, x: Option<Absorbing>, now: i64): Book {
    if x.None? then b else OrSame(Absorb(b, x.value.inflow, x.value.outflow, now), b)
  }

  function AfterTick(b: Book, now: i64): Book { OrSame(Tick(b, now), b) }

  /** A recycle cut off here: the turn fails, or the healing is given up until the next turn. */
  function CutOff(healing: bool): Phase { if healing then Idle else Failed }

  function Do(c: Cadence, d: Desk, p: Piece): Desk
    requires GoodCadence(c)
  {
    match p
    case Begins =>
      if d.phase != Idle then d else d.(phase := if d.n % c.absorbEvery == 0 then Reading else Ticking)
    case Reads(vault, published) =>
      if d.phase != Reading then d
      else
        var x := ToAbsorb(d.live, vault, published);
        d.(outgoing := x, phase := if x.Some? then Sending else Ticking)
    case ReadsFail => if d.phase != Reading then d else d.(phase := Failed)
    case Sends(sent, now) =>
      if d.phase != Sending then d
      else
        d.(live := if sent.Lost? || !d.delegated then d.live else AfterAbsorb(d.live, d.outgoing, now),
           outgoing := None, phase := if sent.Landed? && d.delegated then Ticking else Failed)
    case Ticks(tick, now) => if d.phase != Ticking then d else DoTick(c, d, tick, now)
    case Commits(answer) => if d.phase != Committing then d else DoCommit(d, answer)
    case Undelegates(sent) =>
      if !d.phase.Undelegating? then d
      else if !d.delegated then d.(phase := Delegating(d.phase.healing))
      else if sent.Lost? then d.(phase := CutOff(d.phase.healing))
      else
        d.(committed := d.live, delegated := false,
           phase := if sent.Landed? then Delegating(d.phase.healing) else CutOff(d.phase.healing))
    case Delegates(sent) =>
      if !d.phase.Delegating? then d
      else
        d.(delegated := d.delegated || !sent.Lost?,
           phase := if sent.Landed? then Proving(d.phase.healing) else CutOff(d.phase.healing))
    case Proves(sent, now) =>
      if !d.phase.Proving? then d
      else
        d.(live := if sent.Lost? then d.live else AfterTick(d.live, now),
           commits := if sent.Landed? then 0 else d.commits,
           phase := if sent.Landed? then Idle else CutOff(d.phase.healing))
    case Heals(noticed) =>
      if d.phase != Failed then d else d.(phase := if noticed then Undelegating(true) else Idle)
  }

  function DoTick(c: Cadence, d: Desk, tick: TickAnswer, now: i64): Desk
    requires GoodCadence(c)
  {
    var ticked := d.(live := if tick.lands && d.delegated then AfterTick(d.live, now) else d.live);
    if !tick.accepted then ticked.(phase := Failed)
    else ticked.(n := d.n + 1, phase := PhaseAfterTick(c, d.n + 1, d.commits))
  }

  function PhaseAfterTick(c: Cadence, n: nat, commits: nat): Phase
    requires GoodCadence(c)
  {
    if n % c.commitEvery != 0 then Idle else if commits >= COMMIT_LIMIT then Undelegating(false) else Committing
  }

  function DoCommit(d: Desk, answer: CommitAnswer): Desk {
    if !d.delegated then d.(phase := Failed)
    else
      match answer
      case Committed => d.(committed := d.live, commits := d.commits + 1, phase := Idle)
      case CommittedUnreported => d.(committed := d.live, phase := Failed)
      case LimitReached => d.(phase := Undelegating(false))
      case CommitFailed => d.(phase := Failed)
  }

  function Drive(c: Cadence, d: Desk, ps: seq<Piece>): Desk
    requires GoodCadence(c)
    decreases |ps|
  {
    if |ps| == 0 then d else Drive(c, Do(c, d, ps[0]), ps[1..])
  }

  lemma {:induction false} DriveOn(c: Cadence, d: Desk, first: seq<Piece>, rest: seq<Piece>)
    requires GoodCadence(c)
    ensures Drive(c, d, first + rest) == Drive(c, Drive(c, d, first), rest)
    decreases |first|
  {
    hide Do;
    if |first| == 0 {
      assert first + rest == rest;
    } else {
      assert (first + rest)[1..] == first[1..] + rest;
      DriveOn(c, Do(c, d, first[0]), first[1..], rest);
    }
  }

  // -------------------------------------------------------- with everyone else

  /** Anything that happens: a piece of the keeper's loop, its reads returning the `vaultAt`-th vault and
      the `publishedAt`-th aggregate ever seen on Solana, or a step of somebody else. */
  datatype Event = Ours(piece: Piece, vaultAt: nat, publishedAt: nat) | Theirs(step: Step)

  predicate Possible(w: World, ev: Event) {
    match ev
    case Ours(p, i, j) =>
      p.Reads? ==>
        && i < |w.vaultSeen| && j < |w.publishedSeen|
        && p.vault == w.vaultSeen[i] && OrNone(p.published) == w.publishedSeen[j]
    case Theirs(step) => !step.KeeperReads? && !step.AbsorbLands? && !step.AbsorbLost?
  }

  /** The books and the outgoing absorb are the same ones. */
  predicate SameBooks(w: World, d: Desk) {
    w.live == d.live && w.committed == d.committed && w.absorbing == d.outgoing
  }

  /** The protocol step a piece is, if it is one. */
  function StepOf(d: Desk, p: Piece, i: nat, j: nat): Option<Step> {
    match p
    case Reads(_, _) => if d.phase == Reading then Some(KeeperReads(i, j)) else None
    case Sends(sent, now) =>
      if d.phase != Sending then None
      else Some(if sent.Lost? || !d.delegated then AbsorbLost else AbsorbLands(now))
    case Ticks(tick, now) => if d.phase == Ticking && tick.lands && d.delegated then Some(TickBook(now)) else None
    case Commits(answer) =>
      if d.phase == Committing && d.delegated && (answer.Committed? || answer.CommittedUnreported?)
      then Some(CommitBook) else None
    case Undelegates(sent) => if d.phase.Undelegating? && d.delegated && !sent.Lost? then Some(CommitBook) else None
    case Proves(sent, now) => if d.phase.Proving? && !sent.Lost? then Some(TickBook(now)) else None
    case _ => None
  }

  function EventStep(d: Desk, ev: Event): Option<Step> {
    match ev
    case Ours(p, i, j) => StepOf(d, p, i, j)
    case Theirs(step) => Some(step)
  }

  /** The keeper never has two absorbs out: one is out only between a read and its answer. */
  predicate OneOut(d: Desk) { d.outgoing.Some? ==> d.phase == Sending }

  function Taken(cfg: Setup, w: World, step: Option<Step>): World {
    if step.None? then w else Next(cfg, w, step.value)
  }

  /** A piece of the loop is the protocol step it stands for. */
  lemma PieceIsAStep(cfg: Setup, c: Cadence, w: World, d: Desk, p: Piece, i: nat, j: nat)
    requires GoodCadence(c) && SameBooks(w, d) && OneOut(d) && Possible(w, Ours(p, i, j))
    ensures OneOut(Do(c, d, p))
    ensures var after := Do(c, d, p);
      Taken(cfg, w, StepOf(d, p, i, j))
        == w.(live := after.live, committed := after.committed, absorbing := after.outgoing)
  {
    hide Absorb, Tick, Unabsorbed;
  }

  /** The world and the keeper's desk after everything in `evs`, the keeper working on the same books
      everybody else does. */
  function Together(cfg: Setup, c: Cadence, w: World, d: Desk, evs: seq<Event>): (World, Desk)
    requires GoodCadence(c)
    decreases |evs|
  {
    if |evs| == 0 then (w, d)
    else
      match evs[0]
      case Ours(p, _, _) =>
        var after := Do(c, d, p);
        Together(cfg, c, w.(live := after.live, committed := after.committed, absorbing := after.outgoing), after,
                 evs[1..])
      case Theirs(step) =>
        var next := Next(cfg, w, step);
        Together(cfg, c, next, d.(live := next.live, committed := next.committed, outgoing := next.absorbing), evs[1..])
  }

  predicate AllPossible(cfg: Setup, c: Cadence, w: World, d: Desk, evs: seq<Event>)
    requires GoodCadence(c)
    decreases |evs|
  {
    |evs| == 0
    || (&& Possible(w, evs[0])
        && var (next, after) := Together(cfg, c, w, d, [evs[0]]);
        AllPossible(cfg, c, next, after, evs[1..]))
  }

  /** The protocol steps among them. */
  function StepsOf(cfg: Setup, c: Cadence, w: World, d: Desk, evs: seq<Event>): seq<Step>
    requires GoodCadence(c)
    decreases |evs|
  {
    if |evs| == 0 then []
    else
      var step := EventStep(d, evs[0]);
      var (next, after) := Together(cfg, c, w, d, [evs[0]]);
      (if step.Some? then [step.value] else []) + StepsOf(cfg, c, next, after, evs[1..])
  }

  lemma OneEvent(cfg: Setup, c: Cadence, w: World, d: Desk, evs: seq<Event>)
    requires GoodCadence(c) && |evs| > 0
    ensures var (next, after) := Together(cfg, c, w, d, [evs[0]]);
      Together(cfg, c, w, d, evs) == Together(cfg, c, next, after, evs[1..])
  {
    hide Do, Next;
    assert [evs[0]][1..] == [];
  }

  lemma EventIsAStep(cfg: Setup, c: Cadence, w: World, d: Desk, ev: Event)
    requires GoodCadence(c) && SameBooks(w, d) && OneOut(d) && Possible(w, ev)
    ensures var (next, after) := Together(cfg, c, w, d, [ev]);
      && SameBooks(next, after) && OneOut(after)
      && next == Taken(cfg, w, EventStep(d, ev))
  {
    hide Do, StepOf;
    assert [ev][1..] == [];
    match ev
    case Ours(p, i, j) => PieceIsAStep(cfg, c, w, d, p, i, j);
    case Theirs(step) => OthersSendNothing(cfg, w, step);
  }

  lemma OthersSendNothing(cfg: Setup, w: World, step: Step)
    requires !step.KeeperReads? && !step.AbsorbLands? && !step.AbsorbLost?
    ensures Next(cfg, w, step).absorbing == w.absorbing || Next(cfg, w, step).absorbing.None?
  {
  }

  /** However the pieces of the keeper's loop, on reads of any age and with any network outcome,
      interleave with everybody else, what happens is a run of the protocol, with one absorb out at most;
      so while the run's assumptions hold, so does the invariant, and neither view ever finds the book
      ahead of the vault. */
  lemma {:induction false} KeeperInterleaves(cfg: Setup, c: Cadence, w: World, d: Desk, evs: seq<Event>)
    requires GoodCadence(c) && SameBooks(w, d) && OneOut(d) && AllPossible(cfg, c, w, d, evs)
    ensures var (end, desk) := Together(cfg, c, w, d, evs);
      && SameBooks(end, desk) && OneOut(desk)
      && end == Run(cfg, w, StepsOf(cfg, c, w, d, evs))
      && (Inv(cfg, w) && InRange(w) && AllowedRun(cfg, w, StepsOf(cfg, c, w, d, evs)) ==>
           Inv(cfg, end) && InRange(end))
    decreases |evs|
  {
    hide Inv, InRange, Allowed, Next, Do, StepOf, SameBooks, OneOut, Possible, Together;
    if |evs| == 0 {
      NothingHappens(cfg, c, w, d);
    } else {
      var (next, after) := Together(cfg, c, w, d, [evs[0]]);
      OneEvent(cfg, c, w, d, evs);
      EventIsAStep(cfg, c, w, d, evs[0]);
      KeeperInterleaves(cfg, c, next, after, evs[1..]);
      var steps, rest := StepsOf(cfg, c, w, d, evs), StepsOf(cfg, c, next, after, evs[1..]);
      var step := EventStep(d, evs[0]);
      if step.Some? {
        assert steps[0] == step.value && steps[1..] == rest;
      } else {
        assert steps == rest;
      }
      if Inv(cfg, w) && InRange(w) && AllowedRun(cfg, w, steps) {
        RunKeepsInv(cfg, w, steps);
      }
    }
  }

  lemma NothingHappens(cfg: Setup, c: Cadence, w: World, d: Desk)
    requires GoodCadence(c)
    ensures Together(cfg, c, w, d, []) == (w, d)
  {
  }

  // ------------------------------------------------------------ what the loop keeps

  /** An absorb is sent exactly when the flow read exceeds a mark, in or out, and carries exactly the two
      excesses; after it has executed, or when there was nothing to send, the marks are the running
      maximum of what the keeper has ever read. So flow is never marked twice, and re-sending after a
      lost report is harmless. */
  lemma AbsorbMarksTheMaximum(b: Book, v: Vault, published: Option<Shielded>, now: i64)
    requires v.totalIn + OrNone(published).totalIn <= U64_MAX
    requires v.totalOut + OrNone(published).totalOut <= U64_MAX
    requires !AccrualTraps(b, now)
    ensures var cameIn, wentOut := v.totalIn + OrNone(published).totalIn, v.totalOut + OrNone(published).totalOut;
      var x, after := ToAbsorb(b, v, published), AfterAbsorb(b, ToAbsorb(b, v, published), now);
      && (x.Some? <==> cameIn > b.markedIn || wentOut > b.markedOut)
      && (x.Some? ==> x.value.inflow == Monus(cameIn, b.markedIn) && x.value.outflow == Monus(wentOut, b.markedOut))
      && after.markedIn == Max(b.markedIn, cameIn) && after.markedOut == Max(b.markedOut, wentOut)
      && ToAbsorb(after, v, published).None?
  {
    hide AccrualTraps;
  }

  predicate WithinLimit(d: Desk) { d.commits <= COMMIT_LIMIT && (d.phase == Committing ==> d.commits < COMMIT_LIMIT) }

  /** The keeper counts the commits that were reported and never asks for one more than a delegation
      sponsors by that count; a commit whose report was lost is not in it, and the rollup's own refusal
      covers that. The committed book moves only with a commit or an undelegation, and becomes the live
      one; the tick count grows by accepted ticks only. */
  lemma PiecesStaySponsored(c: Cadence, d: Desk, p: Piece)
    requires GoodCadence(c) && WithinLimit(d)
    ensures var after := Do(c, d, p);
      && WithinLimit(after)
      && (after.committed == d.committed || ((p.Commits? || p.Undelegates?) && after.committed == d.live == after.live))
      && (after.commits == d.commits || after.commits == 0 || (p.Commits? && after.commits == d.commits + 1))
      && (after.n == d.n || (p.Ticks? && p.tick.accepted && after.n == d.n + 1))
  {
    hide Absorb, Tick, Unabsorbed;
  }

  // ---------------------------------------------------------------- the loop

  /** How the three transactions of a recycle fare, and the rollup's clock at its first tick. */
  datatype RecycleAnswer = RecycleAnswer(undelegate: Sent, delegate: Sent, prove: Sent, now: i64)

  /** What the network does during one turn: the vault and aggregate as read from Solana, if the reads
      succeed, how each transaction fares, and whether a failure says that the book is not delegated. */
  datatype Answers = Answers(onSolana: Option<(Vault, Option<Shielded>)>, absorb: Sent, tick: TickAnswer,
                             commit: CommitAnswer, recycle: RecycleAnswer, noticed: bool, healing: RecycleAnswer,
                             now: i64)

  function AbsorbPart(c: Cadence, d: Desk, a: Answers): Desk
    requires GoodCadence(c)
  {
    Do(c, Do(c, d, ReadPiece(a)), Sends(a.absorb, a.now))
  }

  function ReadPiece(a: Answers): Piece {
    if a.onSolana.Some? then Reads(a.onSolana.value.0, a.onSolana.value.1) else ReadsFail
  }

  function RecyclePart(c: Cadence, d: Desk, r: RecycleAnswer): Desk
    requires GoodCadence(c)
  {
    Do(c, Do(c, Do(c, d, Undelegates(r.undelegate)), Delegates(r.delegate)), Proves(r.prove, r.now))
  }

  function CommitPart(c: Cadence, d: Desk, a: Answers): Desk
    requires GoodCadence(c)
  {
    RecyclePart(c, Do(c, d, Commits(a.commit)), a.recycle)
  }

  /** The body of the loop's `try`. */
  function TryPart(c: Cadence, d: Desk, a: Answers): Desk
    requires GoodCadence(c)
  {
    CommitPart(c, Do(c, AbsorbPart(c, Do(c, d, Begins), a), Ticks(a.tick, a.now)), a)
  }

  /** One turn of the loop. */
  function Turn(c: Cadence, d: Desk, a: Answers): Desk
    requires GoodCadence(c)
  {
    RecyclePart(c, Do(c, TryPart(c, d, a), Heals(a.noticed)), a.healing)
  }

  function TurnPieces(a: Answers): seq<Piece> {
    [Begins, ReadPiece(a), Sends(a.absorb, a.now), Ticks(a.tick, a.now), Commits(a.commit)]
    + RecyclePieces(a.recycle) + [Heals(a.noticed)] + RecyclePieces(a.healing)
  }

  function RecyclePieces(r: RecycleAnswer): seq<Piece> {
    [Undelegates(r.undelegate), Delegates(r.delegate), Proves(r.prove, r.now)]
  }

  /** A turn is its pieces with nobody in between, and it ends idle whatever the network did. */
  lemma TurnIsItsPieces(c: Cadence, d: Desk, a: Answers)
    requires GoodCadence(c) && d.phase == Idle
    ensures Drive(c, d, TurnPieces(a)) == Turn(c, d, a)
    ensures Turn(c, d, a).phase == Idle
  {
    TurnEndsIdle(c, d, a);
    hide Do, DoTick, DoCommit;
    var first := [Begins, ReadPiece(a), Sends(a.absorb, a.now), Ticks(a.tick, a.now), Commits(a.commit)];
    var second, third := RecyclePieces(a.recycle), [Heals(a.noticed)];
    DriveOn(c, d, first + second + third, RecyclePieces(a.healing));
    DriveOn(c, d, first + second, third);
    DriveOn(c, d, first, second);
    DriveFive(c, d, first);
    DriveThree(c, Drive(c, d, first), second);
    DriveOne(c, Drive(c, d, first + second), third[0]);
    DriveThree(c, Drive(c, d, first + second + third), RecyclePieces(a.healing));
  }

  lemma DriveOne(c: Cadence, d: Desk, p: Piece)
    requires GoodCadence(c)
    ensures Drive(c, d, [p]) == Do(c, d, p)
  {
    hide Do;
    assert [p][1..] == [];
  }

  lemma DriveThree(c: Cadence, d: Desk, ps: seq<Piece>)
    requires GoodCadence(c) && |ps| == 3
    ensures Drive(c, d, ps) == Do(c, Do(c, Do(c, d, ps[0]), ps[1]), ps[2])
  {
    hide Do;
    assert ps == [ps[0]] + ([ps[1]] + [ps[2]]);
    DriveOn(c, d, [ps[0]], [ps[1]] + [ps[2]]);
    DriveOne(c, d, ps[0]);
    DriveOn(c, Do(c, d, ps[0]), [ps[1]], [ps[2]]);
    DriveOne(c, Do(c, d, ps[0]), ps[1]);
    DriveOne(c, Do(c, Do(c, d, ps[0]), ps[1]), ps[2]);
  }

  lemma DriveFive(c: Cadence, d: Desk, ps: seq<Piece>)
    requires GoodCadence(c) && |ps| == 5
    ensures Drive(c, d, ps) == Do(c, Do(c, Do(c, Do(c, Do(c, d, ps[0]), ps[1]), ps[2]), ps[3]), ps[4])
  {
    hide Do;
    assert ps == ps[..3] + ([ps[3]] + [ps[4]]);
    DriveOn(c, d, ps[..3], [ps[3]] + [ps[4]]);
    DriveThree(c, d, ps[..3]);
    var three := Drive(c, d, ps[..3]);
    DriveOn(c, three, [ps[3]], [ps[4]]);
    DriveOne(c, three, ps[3]);
    DriveOne(c, Do(c, three, ps[3]), ps[4]);
  }

  predicate Over(d: Desk) { d.phase == Idle || d.phase == Failed }

  /** Once a turn is over, what is left of its body does nothing. */
  lemma OverStaysOver(c: Cadence, d: Desk, a: Answers)
    requires GoodCadence(c) && Over(d)
    ensures RecyclePart(c, d, a.recycle) == RecyclePart(c, d, a.healing) == CommitPart(c, d, a) == d
    ensures CommitPart(c, Do(c, d, Ticks(a.tick, a.now)), a) == d
  {
    hide DoTick, DoCommit, AfterAbsorb, AfterTick;
  }

  lemma AbsorbSkipped(c: Cadence, d: Desk, a: Answers)
    requires GoodCadence(c) && d.phase == Ticking
    ensures AbsorbPart(c, d, a) == d
  {
  }

  lemma RecycleEnds(c: Cadence, d: Desk, r: RecycleAnswer)
    requires GoodCadence(c) && (d.phase.Undelegating? || Over(d))
    ensures Over(RecyclePart(c, d, r))
    ensures d.phase == Undelegating(true) || d.phase == Idle ==> RecyclePart(c, d, r).phase == Idle
  {
    hide AfterTick;
  }

  lemma TurnEndsIdle(c: Cadence, d: Desk, a: Answers)
    requires GoodCadence(c) && d.phase == Idle
    ensures Over(TryPart(c, d, a)) && Turn(c, d, a).phase == Idle
  {
    hide RecyclePart, AfterTick, AfterAbsorb, ToAbsorb;
    var ticked := Do(c, AbsorbPart(c, Do(c, d, Begins), a), Ticks(a.tick, a.now));
    RecycleEnds(c, Do(c, ticked, Commits(a.commit)), a.recycle);
    RecycleEnds(c, Do(c, TryPart(c, d, a), Heals(a.noticed)), a.healing);
  }

  /** A turn on which everything goes through: the absorb when it is due, then the tick, then the commit
      when it is due, so that what is committed is the book as just ticked. */
  lemma HealthyTurn(c: Cadence, d: Desk, a: Answers)
    requires GoodCadence(c) && d.phase == Idle && d.delegated && d.outgoing.None? && Healthy(a)
    ensures var absorbed := if d.n % c.absorbEvery == 0
        then AfterAbsorb(d.live, ToAbsorb(d.live, a.onSolana.value.0, a.onSolana.value.1), a.now) else d.live;
      var ticked, due := AfterTick(absorbed, a.now), (d.n + 1) % c.commitEvery == 0;
      Turn(c, d, a) ==
        if !due then d.(live := ticked, n := d.n + 1)
        else if d.commits < COMMIT_LIMIT
        then d.(live := ticked, n := d.n + 1, committed := ticked, commits := d.commits + 1)
        else d.(live := AfterTick(ticked, a.recycle.now), n := d.n + 1, committed := ticked, commits := 0)
  {
    hide AfterTick, AfterAbsorb, ToAbsorb;
    NothingAbsorbed(d.live, a.now);
  }

  lemma NothingAbsorbed(b: Book, now: i64)
    ensures AfterAbsorb(b, None, now) == b
  {
  }

  predicate AllLanded(r: RecycleAnswer) { r.undelegate.Landed? && r.delegate.Landed? && r.prove.Landed? }

  predicate Healthy(a: Answers) {
    && a.onSolana.Some? && a.absorb.Landed? && a.tick.lands && a.tick.accepted && a.commit.Committed?
    && AllLanded(a.recycle)
  }

  function Turns(c: Cadence, d: Desk, turns: seq<Answers>): Desk
    requires GoodCadence(c)
  {
    if |turns| == 0 then d else Turn(c, Turns(c, d, turns[..|turns| - 1]), turns[|turns| - 1])
  }

  lemma {:induction false} HealthyTurnsCount(c: Cadence, d: Desk, turns: seq<Answers>)
    requires GoodCadence(c) && d.phase == Idle && d.delegated && d.outgoing.None?
    requires forall i :: 0 <= i < |turns| ==> Healthy(turns[i])
    ensures var after := Turns(c, d, turns);
      after.phase == Idle && after.delegated && after.outgoing.None? && after.n == d.n + |turns|
  {
    hide Turn, Healthy;
    if |turns| > 0 {
      HealthyTurnsCount(c, d, turns[..|turns| - 1]);
      HealthyTurn(c, Turns(c, d, turns[..|turns| - 1]), turns[|turns| - 1]);
    }
  }

  predicate ReadsNext(c: Cadence, d: Desk)
    requires GoodCadence(c)
  {
    Do(c, d, Begins).phase == Reading
  }

  predicate CommitsNext(c: Cadence, d: Desk)
    requires GoodCadence(c)
  {
    PhaseAfterTick(c, d.n + 1, d.commits) != Idle
  }

  /** Of any `absorbEvery` healthy turns in a row exactly one absorbs, and of any `commitEvery` exactly one
      commits or recycles. */
  lemma CadenceHolds(c: Cadence, d: Desk, turns: seq<Answers>)
    requires GoodCadence(c) && d.phase == Idle && d.delegated && d.outgoing.None?
    requires forall i :: 0 <= i < |turns| ==> Healthy(turns[i])
    ensures |turns| == c.absorbEvery ==> exists i: nat | i < |turns| ::
      ReadsNext(c, Turns(c, d, turns[..i]))
      && forall j: nat | j < |turns| :: ReadsNext(c, Turns(c, d, turns[..j])) ==> j == i
    ensures |turns| == c.commitEvery ==> exists i: nat | i < |turns| ::
      CommitsNext(c, Turns(c, d, turns[..i]))
      && forall j: nat | j < |turns| :: CommitsNext(c, Turns(c, d, turns[..j])) ==> j == i
  {
    hide Turns, Healthy, ReadsNext, CommitsNext, DueAt;
    forall i: nat | i < |turns|
      ensures ReadsNext(c, Turns(c, d, turns[..i])) <==> DueAt(d.n, i, c.absorbEvery)
      ensures CommitsNext(c, Turns(c, d, turns[..i])) <==> DueAt(d.n + 1, i, c.commitEvery)
    {
      HealthyTurnsCount(c, d, turns[..i]);
      WhatIsNext(c, Turns(c, d, turns[..i]), d.n, i);
    }
    if |turns| == c.absorbEvery {
      var i := OneDue(d.n, c.absorbEvery);
      assert ReadsNext(c, Turns(c, d, turns[..i]));
    }
    if |turns| == c.commitEvery {
      var i := OneDue(d.n + 1, c.commitEvery);
      assert CommitsNext(c, Turns(c, d, turns[..i]));
    }
  }

  predicate DueAt(n: nat, i: nat, k: nat)
    requires k > 0
  {
    (n + i) % k == 0
  }

  lemma WhatIsNext(c: Cadence, d: Desk, n: nat, i: nat)
    requires GoodCadence(c) && d.phase == Idle && d.n == n + i
    ensures ReadsNext(c, d) <==> DueAt(n, i, c.absorbEvery)
    ensures CommitsNext(c, d) <==> DueAt(n + 1, i, c.commitEvery)
  {
    assert n + 1 + i == d.n + 1;
  }

  lemma OneDue(n: nat, k: nat) returns (i: nat)
    requires k > 0
    ensures i < k && DueAt(n, i, k)
    ensures forall j: nat | j < k :: DueAt(n, j, k) ==> j == i
  {
    i := if n % k == 0 then 0 else k - n % k;
    forall j: nat | j < k
      ensures DueAt(n, j, k) <==> j == i
    {
      DueWithin(n, j, k);
    }
  }

  lemma DueWithin(n: nat, j: nat, k: nat)
    requires j < k
    ensures DueAt(n, j, k) <==> j == if n % k == 0 then 0 else k - n % k
  {
    var q, r := n / k, n % k;
    assert n == q * k + r;
    if r + j < k {
      RemainderIs(n + j, k, q, r + j);
    } else {
      Arithmetic.Distribute(q, 1, k);
      RemainderIs(n + j, k, q + 1, r + j - k);
    }
  }

  lemma RemainderIs(x: nat, k: nat, q: nat, r: nat)
    requires k > 0 && r < k && x == q * k + r
    ensures x % k == r
  {
    var p := x / k;
    assert x == p * k + x % k;
    if p < q {
      Arithmetic.MulMono(p + 1, q, k);
      Arithmetic.Distribute(p, 1, k);
    } else if p > q {
      Arithmetic.MulMono(q + 1, p, k);
      Arithmetic.Distribute(q, 1, k);
    }
  }

  /** A turn that fails before its tick is counted leaves the counter, so the next one tries the same
      things again. */
  lemma FailedTurnsRetry(c: Cadence, d: Desk, a: Answers)
    requires GoodCadence(c) && d.phase == Idle && d.outgoing.None?
    requires (d.n % c.absorbEvery == 0 && a.onSolana.None?) || !a.tick.accepted
    ensures Turn(c, d, a).n == d.n
    ensures ReadsNext(c, Turn(c, d, a)) == ReadsNext(c, d)
  {
    hide AfterTick, AfterAbsorb, ToAbsorb;
  }

  /** A turn that fails is over, unless the failure says that the book is not delegated: then, if everything
      lands, healing leaves the rollup with the book, a tick on, and a fresh count. */
  lemma FailedTurnHeals(c: Cadence, d: Desk, a: Answers)
    requires GoodCadence(c) && TryPart(c, d, a).phase == Failed
    ensures var failed := TryPart(c, d, a);
      && (!a.noticed ==> Turn(c, d, a) == failed.(phase := Idle))
      && (a.noticed && AllLanded(a.healing) ==>
           Turn(c, d, a) == failed.(live := AfterTick(failed.live, a.healing.now),
                                    committed := if failed.delegated then failed.live else failed.committed,
                                    delegated := true, commits := 0, phase := Idle))
  {
    hide TryPart, AfterTick;
  }

  /** A recycle on which everything lands leaves Solana with the book as it was, the rollup with it one tick
      on, and a fresh count; one cut off after undelegating, and resumed, ends the same. */
  lemma RecycleFinishes(c: Cadence, d: Desk, r: RecycleAnswer, cut: RecycleAnswer, healing: bool)
    requires GoodCadence(c) && d.phase == Undelegating(healing) && AllLanded(r)
    requires cut.undelegate != Lost && cut.delegate == Lost
    ensures RecyclePart(c, d, r)
      == d.(live := AfterTick(d.live, r.now), committed := if d.delegated then d.live else d.committed,
            delegated := true, commits := 0, phase := Idle)
    ensures var resumed := RecyclePart(c, d, cut);
      && !resumed.delegated && Over(resumed)
      && RecyclePart(c, resumed.(phase := Undelegating(healing)), r) == RecyclePart(c, d, r)
  {
    hide AfterTick;
  }

  /** The book as Solana last saw it, and whether the rollup has it. */
  class Delegation {
    var book: Book
    var delegated: bool

    constructor (book: Book)
      ensures this.book == book && delegated
    {
      this.book, delegated := book, true;
    }
  }

  class BookKeeper {
    const cadence: Cadence
    const book: PoolBook
    const solana: Delegation
    var n: nat
    var commits: nat

    ghost predicate Valid() { GoodCadence(cadence) && book.Valid() }

    function DeskAt(phase: Phase): Desk
      requires Valid()
      reads this, book, book.pools, solana
    {
      Desk(book.View(), solana.book, None, solana.delegated, n, commits, phase)
    }

    constructor (book: PoolBook, solana: Delegation, cadence: Cadence)
      requires GoodCadence(cadence) && book.Valid()
      ensures Valid() && n == 0 && commits == 0
      ensures this.book == book && this.solana == solana && this.cadence == cadence
    {
      this.book, this.solana, this.cadence := book, solana, cadence;
      n, commits := 0, 0;
    }

    /** The rollup running a tick: a failed instruction leaves the book as it was. */
    method RunTick(now: i64)
      requires Valid()
      modifies book, book.pools
      ensures book.View() == AfterTick(old(book.View()), now)
    {
      if !AccrualTraps(book.View(), now) {
        var _ := book.Tick(now);
      }
    }

    /** The absorb step, from its reads to its report. */
    method AbsorbStep(a: Answers) returns (ok: bool)
      requires Valid()
      modifies book, book.pools
      ensures DeskAt(if ok then Ticking else Failed) == AbsorbPart(cadence, old(DeskAt(Reading)), a)
    {
      if a.onSolana.None? {
        return false;
      }
      var x := ToAbsorb(book.View(), a.onSolana.value.0, a.onSolana.value.1);
      if x.None? {
        return true;
      }
      if !a.absorb.Lost? && solana.delegated && !AccrualTraps(book.View(), a.now) {
        var _ := book.Absorb(x.value.inflow, x.value.outflow, a.now);
      }
      ok := a.absorb == Landed && solana.delegated;
    }

    /** `recycleBook` and what the loop does after it, from wherever the last one was cut off. */
    method Recycle(r: RecycleAnswer, healing: bool) returns (ok: bool)
      requires Valid()
      modifies this, book, book.pools, solana
      ensures DeskAt(if ok then Idle else CutOff(healing))
        == RecyclePart(cadence, old(DeskAt(Undelegating(healing))), r)
    {
      if solana.delegated {
        if r.undelegate.Lost? {
          return false;
        }
        solana.book := book.View();
        solana.delegated := false;
        if r.undelegate != Landed {
          return false;
        }
      }
      if !r.delegate.Lost? {
        solana.delegated := true;
      }
      if r.delegate != Landed {
        return false;
      }
      if !r.prove.Lost? {
        RunTick(r.now);
      }
      ok := r.prove == Landed;
      if ok {
        commits := 0;
      }
    }

    /** The commit step: commit, recycle at the limit or when told that it is reached, or fail. */
    method CommitStep(a: Answers) returns (ok: bool)
      requires Valid()
      modifies this, book, book.pools, solana
      ensures DeskAt(if ok then Idle else Failed)
        == CommitPart(cadence, old(DeskAt(if commits >= COMMIT_LIMIT then Undelegating(false) else Committing)), a)
    {
      if commits >= COMMIT_LIMIT {
        ok := Recycle(a.recycle, false);
      } else if !solana.delegated {
        ok := false;
      } else {
        match a.commit
        case Committed =>
          solana.book := book.View();
          commits := commits + 1;
          ok := true;
        case CommittedUnreported =>
          solana.book := book.View();
          ok := false;
        case LimitReached => ok := Recycle(a.recycle, false);
        case CommitFailed => ok := false;
      }
    }

    /** Sends the tick, and counts it if the send went through. */
    method TickStep(a: Answers) returns (ok: bool)
      requires Valid()
      modifies this, book, book.pools
      ensures DeskAt(if ok then PhaseAfterTick(cadence, n, commits) else Failed)
        == Do(cadence, old(DeskAt(Ticking)), Ticks(a.tick, a.now))
    {
      if a.tick.lands && solana.delegated {
        RunTick(a.now);
      }
      ok := a.tick.accepted;
      if ok {
        n := n + 1;
      }
    }

    /** The body of the `try`: false when something in it threw. */
    method TryTurn(a: Answers) returns (ok: bool)
      requires Valid()
      modifies this, book, book.pools, solana
      ensures DeskAt(if ok then Idle else Failed) == TryPart(cadence, old(DeskAt(Idle)), a)
    {
      hide AbsorbPart, CommitPart, DoTick, DoCommit, AfterTick, AfterAbsorb, ToAbsorb;
      ok := true;
      if n % cadence.absorbEvery == 0 {
        ok := AbsorbStep(a);
        if !ok {
          OverStaysOver(cadence, DeskAt(Failed), a);
          return;
        }
      } else {
        AbsorbSkipped(cadence, DeskAt(Ticking), a);
      }
      ok := TickStep(a);
      if !ok {
        OverStaysOver(cadence, DeskAt(Failed), a);
        return;
      }
      if n % cadence.commitEvery == 0 {
        ok := CommitStep(a);
      } else {
        OverStaysOver(cadence, DeskAt(Idle), a);
      }
    }

    method TurnOfTheLoop(a: Answers)
      requires Valid()
      modifies this, book, book.pools, solana
      ensures DeskAt(Idle) == Turn(cadence, old(DeskAt(Idle)), a)
    {
      hide TryPart, RecyclePart;
      var ok := TryTurn(a);
      OverStaysOver(cadence, DeskAt(Idle), a);
      if !ok && a.noticed {
        var _ := Recycle(a.healing, true);
      }
    }
  }

  // -------------------------------------------------------------- paying exits

  /** Some open ticket has this id. */
  predicate OpenId(slots: seq<Exit>, g: u32) { g != 0 && HasId(slots, g) }

  /** First sight of a ticket: remembered if it was open before, now otherwise. */
  function SeenAt(before: map<u32, nat>, t: Exit, now: nat): nat {
    if t.groupId in before then before[t.groupId] else now
  }

  predicate Due(before: map<u32, nat>, t: Exit, now: nat, graceMs: nat) {
    t.groupId != 0 && now >= SeenAt(before, t, now) + graceMs
  }

  /** A ticket first seen by a pass is due in it only without a grace, and in a later one exactly once the
      grace has gone by since. */
  lemma GraceIsKept(before: map<u32, nat>, t: Exit, first: nat, later: map<u32, nat>, now: nat, graceMs: nat)
    requires t.groupId != 0 && t.groupId !in before
    requires t.groupId in later && later[t.groupId] == SeenAt(before, t, first)
    ensures Due(before, t, first, graceMs) <==> graceMs == 0
    ensures Due(later, t, now, graceMs) <==> now >= first + graceMs
  {
  }

  /** What a pass has paid, in slot order, and whether it still goes on: a payment that is not reported
      ends it. */
  datatype Progress = Progress(paid: seq<Exit>, on: bool)

  /** The pass over `slots`, the payment for the ticket in slot `i` faring as `sent[i]` says. */
  function Pass(slots: seq<Exit>, before: map<u32, nat>, now: nat, graceMs: nat, sent: seq<Sent>): Progress
    requires |slots| <= |sent|
  {
    if |slots| == 0 then Progress([], true)
    else
      var k := |slots| - 1;
      var p := Pass(slots[..k], before, now, graceMs, sent);
      if !p.on || !Due(before, slots[k], now, graceMs) then p
      else Progress(p.paid + if sent[k].Lost? then [] else [slots[k]], sent[k].Landed?)
  }

  lemma {:induction false} PassIs(slots: seq<Exit>, before: map<u32, nat>, now: nat, graceMs: nat, sent: seq<Sent>)
    requires GoodSlots(slots) && |slots| <= |sent|
    ensures var p := Pass(slots, before, now, graceMs, sent);
      && (forall x :: x in p.paid ==> x in slots && Due(before, x, now, graceMs))
      && (p.on ==> forall x :: x in slots && Due(before, x, now, graceMs) ==> x in p.paid)
      && (forall i, j :: 0 <= i < j < |p.paid| ==> p.paid[i] != p.paid[j])
      && ((forall i :: 0 <= i < |sent| ==> sent[i].Landed?) ==> p.on)
  {
    if |slots| > 0 {
      var rest, last := slots[..|slots| - 1], slots[|slots| - 1];
      assert slots == rest + [last];
      PassIs(rest, before, now, graceMs, sent);
      assert last != FREE ==> last !in rest;
    }
  }

  lemma PassGrows(slots: seq<Exit>, i: nat, before: map<u32, nat>, now: nat, graceMs: nat, sent: seq<Sent>)
    requires i < |slots| <= |sent|
    ensures var p := Pass(slots[..i], before, now, graceMs, sent);
      Pass(slots[..i + 1], before, now, graceMs, sent)
        == if !p.on || !Due(before, slots[i], now, graceMs) then p
           else Progress(p.paid + if sent[i].Lost? then [] else [slots[i]], sent[i].Landed?)
  {
    assert slots[..i + 1][..i] == slots[..i];
  }

  lemma {:induction false} PassStops(slots: seq<Exit>, i: nat, before: map<u32, nat>, now: nat, graceMs: nat,
                                     sent: seq<Sent>)
    requires i <= |slots| <= |sent| && !Pass(slots[..i], before, now, graceMs, sent).on
    ensures Pass(slots, before, now, graceMs, sent) == Pass(slots[..i], before, now, graceMs, sent)
  {
    if i == |slots| {
      assert slots[..i] == slots;
    } else {
      assert slots[..|slots| - 1][..i] == slots[..i];
      PassStops(slots[..|slots| - 1], i, before, now, graceMs, sent);
    }
  }

  lemma {:induction false} PayAllAppends(env: Enc.Env, e: Enc.State, order: seq<Exit>, t: Exit, q: QueueAccounts)
    ensures T.PayAll(env, e, order + [t], q)
      == Enc.RunTransaction(env, T.PayAll(env, e, order, q), T.PayExitIxs(env, t, q))
    decreases |order|
  {
    hide Enc.RunTransaction, T.PayExitIxs;
    if |order| == 0 {
      assert (order + [t])[1..] == [];
    } else {
      assert (order + [t])[1..] == order[1..] + [t];
      PayAllAppends(env, Enc.RunTransaction(env, e, T.PayExitIxs(env, order[0], q)), order[1..], t, q);
    }
  }

  /** One pass over a solvent exit book, however its payments fare, closes exactly the tickets it paid,
      all of them due, leaves every other ticket as it was, and leaves the custody exactly as solvent as
      it found it. If the pass was not cut short, it closed every ticket that was due. */
  lemma PassClosesWhatIsDue(env: Enc.Env, e: Enc.State, before: map<u32, nat>, now: nat, graceMs: nat,
                            sent: seq<Sent>, q: QueueAccounts)
    requires E.Good(env, e) && E.Surplus(env, e) >= 0 && |sent| == EXIT_SLOTS
    ensures var p := Pass(e.slots, before, now, graceMs, sent);
      var end := T.PayAll(env, e, p.paid, q);
      && E.Good(env, end) && E.Surplus(env, end) == E.Surplus(env, e)
      && (forall x :: IsOpen(end.slots, x) <==> IsOpen(e.slots, x) && x !in p.paid)
      && (forall x :: x in p.paid ==> IsOpen(e.slots, x) && Due(before, x, now, graceMs))
      && (p.on ==> forall x :: IsOpen(end.slots, x) <==> IsOpen(e.slots, x) && !Due(before, x, now, graceMs))
      && ((forall i :: 0 <= i < EXIT_SLOTS ==> sent[i].Landed?) ==> p.on)
  {
    hide E.GoodRotations, E.EnvOk, E.CanPrice, E.Surplus, GoodSlots, T.PayAll, Pass, Due;
    PassIs(e.slots, before, now, graceMs, sent);
    FreeIsNeverDue(before, now, graceMs);
    T.TicketsCanBePaidInAnyOrder(env, e, Pass(e.slots, before, now, graceMs, sent).paid, q);
  }

  lemma FreeIsNeverDue(before: map<u32, nat>, now: nat, graceMs: nat)
    ensures !Due(before, FREE, now, graceMs)
  {
  }

  class PrivateKeeper {
    const graceMs: nat
    /** When each open ticket was first seen, by group id. */
    var seen: map<u32, nat>

    constructor (graceMs: nat)
      ensures seen == map[] && this.graceMs == graceMs
    {
      this.graceMs := graceMs;
      seen := map[];
    }

    /** Forgets the ids that are no longer open, one by one, and keeps the first sight of the others. */
    method Forget(slots: Slots)
      modifies this
      ensures forall g :: g in seen <==> g in old(seen) && OpenId(slots, g)
      ensures forall g :: g in seen ==> seen[g] == old(seen)[g]
    {
      var ids := seen.Keys;
      while ids != {}
        invariant ids <= seen.Keys <= old(seen).Keys
        invariant forall g :: g in old(seen) && (g in ids || OpenId(slots, g)) ==> g in seen
        invariant forall g :: g in seen ==> (g in ids || OpenId(slots, g)) && seen[g] == old(seen)[g]
        decreases |ids|
      {
        var id :| id in ids;
        ids := ids - {id};
        if !OpenId(slots, id) {
          seen := seen - {id};
        }
      }
    }

    /** Remembers when a ticket was first seen, and says whether it has been open long enough. */
    method Note(t: Exit, now: nat, ghost before: map<u32, nat>) returns (due: bool)
      requires t.groupId != 0
      requires t.groupId in before ==> t.groupId in seen
      requires t.groupId in seen ==> seen[t.groupId] == SeenAt(before, t, now)
      modifies this
      ensures seen == old(seen)[t.groupId := SeenAt(before, t, now)]
      ensures due == Due(before, t, now, graceMs)
    {
      if t.groupId !in seen {
        seen := seen[t.groupId := now];
      }
      due := now >= seen[t.groupId] + graceMs;
    }

    /** One slot of the pass: nothing for a free one, else pay its ticket if it has been open long enough. */
    method PayOne(env: Enc.Env, start: Enc.State, t: Exit, q: QueueAccounts, now: nat, sent: Sent,
                  ghost before: map<u32, nat>) returns (end: Enc.State, ok: bool)
      requires t.groupId != 0 && t.groupId in before ==> t.groupId in seen
      requires t.groupId != 0 && t.groupId in seen ==> seen[t.groupId] == SeenAt(before, t, now)
      modifies this
      ensures seen == if t.groupId == 0 then old(seen) else old(seen)[t.groupId := SeenAt(before, t, now)]
      ensures ok == (Due(before, t, now, graceMs) ==> sent.Landed?)
      ensures end == if Due(before, t, now, graceMs) && !sent.Lost?
        then Enc.RunTransaction(env, start, T.PayExitIxs(env, t, q)) else start
    {
      hide Enc.RunTransaction, T.PayExitIxs;
      end, ok := start, true;
      if t.groupId != 0 {
        var due := Note(t, now, before);
        if due {
          if !sent.Lost? {
            end := Enc.RunTransaction(env, end, T.PayExitIxs(env, t, q));
          }
          ok := sent.Landed?;
        }
      }
    }

    /** `payExits`: one pass over the exit book as read, forgetting ids that are no longer open and
        paying every ticket that has been open long enough, each in its own transaction, until one is
        not reported. */
    method PayExits(env: Enc.Env, start: Enc.State, q: QueueAccounts, now: nat, sent: seq<Sent>)
      returns (end: Enc.State, ok: bool)
      requires GoodSlots(start.slots) && |sent| == EXIT_SLOTS
      modifies this
      ensures var p := Pass(start.slots, old(seen), now, graceMs, sent);
        ok == p.on && end == T.PayAll(env, start, p.paid, q)
      ensures forall g :: g in seen ==> OpenId(start.slots, g)
      ensures forall t :: IsOpen(start.slots, t) ==>
        && (ok || t.groupId in old(seen) ==> t.groupId in seen)
        && (t.groupId in seen ==> seen[t.groupId] == SeenAt(old(seen), t, now))
    {
      hide Enc.RunTransaction, T.PayExitIxs, T.PayAll, Due, GoodSlots, Pass;
      ghost var before := seen;
      ghost var paid: seq<Exit> := [];
      NothingPaid(env, start, q, before, now, graceMs, sent);
      end, ok := start, true;
      Forget(start.slots);
      var i := 0;
      while i < EXIT_SLOTS && ok
        invariant i <= EXIT_SLOTS
        invariant Pass(start.slots[..i], before, now, graceMs, sent) == Progress(paid, ok)
        invariant end == T.PayAll(env, start, paid, q)
        invariant Remembers(start.slots, before, now, i)
      {
        var t := start.slots[i];
        PassGrows(start.slots, i, before, now, graceMs, sent);
        if Due(before, t, now, graceMs) && !sent[i].Lost? {
          PayAllAppends(env, start, paid, t, q);
          paid := paid + [t];
        }
        end, ok := PayOne(env, end, t, q, now, sent[i], before);
        i := i + 1;
      }
      assert start.slots[..EXIT_SLOTS] == start.slots;
      if !ok {
        PassStops(start.slots, i, before, now, graceMs, sent);
      }
      AllRemembered(start.slots, before, now, i);
    }

    lemma AllRemembered(slots: Slots, before: map<u32, nat>, now: nat, i: nat)
      requires GoodSlots(slots) && i <= EXIT_SLOTS && Remembers(slots, before, now, i)
      ensures forall t :: IsOpen(slots, t) ==>
        && (i == EXIT_SLOTS || t.groupId in before ==> t.groupId in seen)
        && (t.groupId in seen ==> seen[t.groupId] == SeenAt(before, t, now))
    {
      forall t | IsOpen(slots, t)
        ensures (i == EXIT_SLOTS || t.groupId in before ==> t.groupId in seen)
        ensures t.groupId in seen ==> seen[t.groupId] == SeenAt(before, t, now)
      {
        OpenHasItsId(slots, t);
      }
    }

    /** Every id remembered is open, with its first sight; every open one so far, or known before, is. */
    ghost predicate Remembers(slots: Slots, before: map<u32, nat>, now: nat, i: nat)
      requires i <= EXIT_SLOTS
      reads this
    {
      && (forall g :: g in seen ==> OpenId(slots, g))
      && (forall k :: 0 <= k < EXIT_SLOTS && slots[k].groupId != 0 ==>
           && (k < i || slots[k].groupId in before ==> slots[k].groupId in seen)
           && (slots[k].groupId in seen ==> seen[slots[k].groupId] == SeenAt(before, slots[k], now)))
    }
  }

  lemma OpenHasItsId(slots: Slots, t: Exit)
    requires GoodSlots(slots) && IsOpen(slots, t)
    ensures exists k :: 0 <= k < EXIT_SLOTS && slots[k] == t && slots[k].groupId != 0
  {
    var k :| 0 <= k < EXIT_SLOTS && slots[k] == t;
    assert slots[k].groupId != 0;
  }

  lemma NothingPaid(env: Enc.Env, e: Enc.State, q: QueueAccounts, before: map<u32, nat>, now: nat, graceMs: nat,
                    sent: seq<Sent>)
    requires |sent| == EXIT_SLOTS
    ensures T.PayAll(env, e, [], q) == e && Pass(e.slots[..0], before, now, graceMs, sent) == Progress([], true)
  {
  }
}
