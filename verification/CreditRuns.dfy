/** What every run of one credit operation keeps. */
module CreditRuns {
  import opened Basics
  import opened CreditTypes
  import opened CreditMachine

  // ---------------------------------------------------------------- the core invariant

  predicate RowOk(row: Row) {
    && row.rec.state.Known?
    && row.rec.status == StatusOf(row.rec.state.state)
    && OnFlow(row.rec.id.kind, row.rec.state.state)
    && row.blob.Some?
  }

  function RowState(row: Row): State
    requires RowOk(row)
  {
    row.rec.state.state
  }

  /** A row as admission writes it: the kind's entry state, or the pre-created receive invoice. */
  predicate AdmittedRow(row: Row) {
    && RowOk(row)
    && row.rec.lastError == NoError
    && row.rec.destination == []
    && row.blob.value.script == []
    && row.blob.value.polls == 0
    && (RowState(row) == InitialState(row.rec.id.kind)
        || (row.rec.id.kind == Receive && RowState(row) == AwaitingSettlement))
  }

  /** The system just after an operation was admitted. */
  predicate Admitted(s: Sys) {
    AdmittedRow(s.row) && s.mem.Gone? && s.log == [] && s.polls == 0
  }

  predicate Synced(op: Op) {
    && op.rec.state == Known(op.cur)
    && op.rec.status == StatusOf(op.cur)
    && !op.corrupt
    && OnFlow(op.rec.id.kind, op.cur)
  }

  /** The fields a caller authorized; for a pay no run may change them. */
  predicate SameAuthority(a: Record, aOnly: bool, b: Record, bOnly: bool) {
    && a.id == b.id && aOnly == bOnly
    && (a.id.kind == Pay ==> a.terms == b.terms)
  }

  predicate Awaiting(s: State) {
    s.TopupAwaitingCredit? || s.PayAwaitingSettlement? || s.AwaitingSettlement? || s.AwaitingOOR?
  }

  /**
   * The in-memory operation of a running turn is at or past the durable row, and an
   * awaiting state only runs once the row records it.
   */
  predicate Extends(row: Row, op: Op) {
    && RowOk(row) && Synced(op)
    && SameAuthority(row.rec, row.blob.value.creditOnly, op.rec, op.creditOnly)
    && Rank(RowState(row)) <= Rank(op.cur)
    && (Terminal(RowState(row)) ==> Persist(op) == row)
    && (Awaiting(op.cur) ==> RowState(row) == op.cur)
  }

  predicate Inv(s: Sys) {
    && RowOk(s.row)
    && match s.mem
       case Gone => true
       case Idle(op, stale) => !stale ==> Restore(s.row) == Some(op)
       case Driving(op) => Extends(s.row, op) && !Terminal(op.cur)
       case Committing(op, _) => Extends(s.row, op) && (Terminal(op.cur) || Awaiting(op.cur))
  }

  /** A transition that stays on its flow, keeps the authority and parks in place or strictly climbs. */
  predicate Climbs(op: Op, t: Trans) {
    t.Move? ==>
      && OnFlow(op.rec.id.kind, t.next)
      && !t.op.corrupt && t.op.rec.state == op.rec.state
      && SameAuthority(op.rec, op.creditOnly, t.op.rec, t.op.creditOnly)
      && (t.park <==> t.next == op.cur)
      && (!t.park ==> Rank(t.next) > Rank(op.cur))
      && (t.park ==> Awaiting(op.cur))
      && (Awaiting(t.next) && !t.park ==> t.stage)
      && (t.stage ==> !Terminal(t.next) && !t.park)
      && (t.op.rec.lastError == LegacyReceivePollCap ==> op.rec.lastError == LegacyReceivePollCap)
  }

  lemma TopupCreateClimbs(op: Op, d: Daemon, c: Replies)
    requires Synced(op) && op.cur == TopupCreating
    ensures Climbs(op, TopupCreate(op, d, c).trans)
  {
  }

  lemma TopupFundClimbs(op: Op, d: Daemon, c: Replies)
    requires Synced(op) && op.cur == TopupFunding
    ensures Climbs(op, TopupFund(op, d, c).trans)
  {
  }

  lemma TopupAwaitClimbs(cfg: Config, op: Op, c: Replies)
    requires Synced(op) && op.cur == TopupAwaitingCredit
    ensures Climbs(op, TopupAwait(cfg, op, c))
  {
  }

  lemma StartPayClimbs(op: Op, c: Replies)
    requires Synced(op) && op.cur == Paying
    ensures Climbs(op, StartPay(op, c))
  {
  }

  lemma PayAwaitClimbs(cfg: Config, op: Op, c: Replies)
    requires Synced(op) && op.cur == PayAwaitingSettlement
    ensures Climbs(op, PayAwait(cfg, op, c))
  {
  }

  lemma ReceiveCreateClimbs(op: Op, c: Replies)
    requires Synced(op) && op.cur == ReceiveCreating
    ensures Climbs(op, ReceiveCreate(op, c))
  {
  }

  lemma ReceiveAwaitClimbs(cfg: Config, op: Op, c: Replies)
    requires Synced(op) && op.cur == AwaitingSettlement
    ensures Climbs(op, ReceiveAwait(cfg, op, c))
  {
  }

  lemma RedeemReserveClimbs(op: Op, d: Daemon, c: Replies)
    requires Synced(op) && op.cur == RedeemReserving
    ensures Climbs(op, RedeemReserve(op, d, c).trans)
  {
  }

  lemma RedeemSubmitClimbs(op: Op, d: Daemon, c: Replies)
    requires Synced(op) && op.cur == RedeemSubmitting
    ensures Climbs(op, RedeemSubmit(op, d, c).trans)
  {
  }

  lemma RedeemAwaitClimbs(cfg: Config, op: Op, d: Daemon, c: Replies)
    requires Synced(op) && op.cur == AwaitingOOR
    ensures Climbs(op, RedeemAwait(cfg, op, d, c).trans)
  {
    CountPollClimbs(cfg, op, RedeemPollCap);
  }

  lemma CountPollClimbs(cfg: Config, op: Op, reason: Reason)
    requires Synced(op) && op.cur == AwaitingOOR && reason != LegacyReceivePollCap
    ensures Climbs(op, CountPoll(cfg, op, reason))
  {
  }

  /** Every step of every flow does, so a turn that does not park always makes progress. */
  lemma StepClimbs(cfg: Config, op: Op, d: Daemon, c: Replies)
    requires Synced(op) && !Terminal(op.cur)
    ensures Climbs(op, Process(cfg, op, d, c).trans)
  {
    match op.cur
    case Quoting =>
    case TopupCreating => TopupCreateClimbs(op, d, c);
    case TopupFunding => TopupFundClimbs(op, d, c);
    case TopupAwaitingCredit => TopupAwaitClimbs(cfg, op, c);
    case Paying => StartPayClimbs(op, c);
    case PayAwaitingSettlement => PayAwaitClimbs(cfg, op, c);
    case ReceiveCreating => ReceiveCreateClimbs(op, c);
    case AwaitingSettlement => ReceiveAwaitClimbs(cfg, op, c);
    case RedeemReserving => RedeemReserveClimbs(op, d, c);
    case RedeemSubmitting => RedeemSubmitClimbs(op, d, c);
    case AwaitingOOR => RedeemAwaitClimbs(cfg, op, d, c);
  }

  // ---------------------------------------------------------------- the row never retreats

  /** A write moves a row forward along its flow; a terminal row is only rewritten as itself. */
  predicate Forward(a: Row, b: Row) {
    && RowOk(a) && RowOk(b)
    && SameAuthority(a.rec, a.blob.value.creditOnly, b.rec, b.blob.value.creditOnly)
    && Rank(RowState(a)) <= Rank(RowState(b))
    && (Terminal(RowState(a)) ==> a == b)
  }

  lemma InvTake(s: Sys, r: Driven, w: Write)
    requires Inv(s) && s.mem.Driving? && Climbs(s.mem.op, r.trans)
    ensures var s' := Take(s, s.mem.op, r, w);
            Inv(s') && Forward(s.row, s'.row) && s.log <= s'.log
  {
  }

  lemma InvNext(cfg: Config, s: Sys, e: Event)
    requires Inv(s)
    ensures Inv(Next(cfg, s, e))
    ensures (e.Repair? && LegacyFailure(s.row.rec)) || Forward(s.row, Next(cfg, s, e).row)
    ensures s.log <= Next(cfg, s, e).log
  {
    if e.Drive? && s.mem.Driving? {
      StepClimbs(cfg, s.mem.op, s.daemon, e.c);
      InvTake(s, Process(cfg, s.mem.op, s.daemon, e.c), e.w);
    }
  }

  lemma {:induction false} InvRun(cfg: Config, s: Sys, es: seq<Event>)
    requires Inv(s)
    ensures Inv(Run(cfg, s, es))
    ensures s.log <= Run(cfg, s, es).log
    decreases |es|
  {
    if es != [] {
      InvRun(cfg, s, es[..|es| - 1]);
      InvNext(cfg, Run(cfg, s, es[..|es| - 1]), es[|es| - 1]);
    }
  }

  /** A terminal row changes only by the boot repair of a receive carrying the exact legacy error. */
  lemma OnlyRepairLeavesTerminal(cfg: Config, s: Sys, e: Event)
    requires Inv(s) && Terminal(RowState(s.row)) && Next(cfg, s, e).row != s.row
    ensures e.Repair? && LegacyFailure(s.row.rec) && s.row.rec.id.kind == Receive
    ensures var r := Next(cfg, s, e).row;
            && r.rec.id == s.row.rec.id
            && (RowOk(r) && RowState(r) == AwaitingSettlement ==> e.server.Created? || e.server.AwaitingPayment?)
            && (RowOk(r) && RowState(r) == Completed ==> e.server.Credited?)
  {
    InvNext(cfg, s, e);
  }

  /** No operation of this client carries the legacy error. */
  predicate Modern(s: Sys) {
    && s.row.rec.lastError != LegacyReceivePollCap
    && (s.mem.Driving? || s.mem.Committing? ==> s.mem.op.rec.lastError != LegacyReceivePollCap)
  }

  lemma ModernNext(cfg: Config, s: Sys, e: Event)
    requires Inv(s) && Modern(s)
    ensures Modern(Next(cfg, s, e))
  {
    if e.Drive? && s.mem.Driving? {
      StepClimbs(cfg, s.mem.op, s.daemon, e.c);
    }
  }

  /**
   * Over any run (crashes, lost or landed failed writes, redeliveries and boot repairs
   * included) the durable row of an operation this client admitted only moves forward,
   * a terminal row never changes, and identity and pay authority are fixed.
   */
  lemma {:induction false} RowNeverRetreats(cfg: Config, s: Sys, es: seq<Event>)
    requires Inv(s) && Modern(s)
    ensures Inv(Run(cfg, s, es)) && Modern(Run(cfg, s, es))
    ensures Forward(s.row, Run(cfg, s, es).row)
    decreases |es|
  {
    if es != [] {
      var mid := Run(cfg, s, es[..|es| - 1]);
      RowNeverRetreats(cfg, s, es[..|es| - 1]);
      InvNext(cfg, mid, es[|es| - 1]);
      ModernNext(cfg, mid, es[|es| - 1]);
    }
  }

  // ---------------------------------------------------------------- effects are not reissued

  /** The state whose durable record retires an effect. */
  function EffectTarget(e: Entry): Option<State> {
    match e
    case CalledCreate(ArkTopUp, _, _) => Some(TopupFunding)
    case CalledSend(_, _, _, _) => Some(TopupAwaitingCredit)
    case CalledStart(_, _, _) => Some(PayAwaitingSettlement)
    case CalledCreate(LightningReceive, _, _) => Some(AwaitingSettlement)
    case CalledRedeem(_, _, _) => Some(AwaitingOOR)
    case _ => None
  }

  predicate Recorded(row: Row, target: State) {
    && RowOk(row) && OnFlow(row.rec.id.kind, target)
    && !Terminal(target) && Rank(RowState(row)) >= Rank(target)
  }

  /** An effect is only issued from a state before the one that retires it. */
  lemma EffectsPrecede(cfg: Config, op: Op, d: Daemon, c: Replies, i: nat)
    requires Synced(op) && i < |Process(cfg, op, d, c).entries|
    ensures var t := EffectTarget(Process(cfg, op, d, c).entries[i]);
            t.Some? ==> OnFlow(op.rec.id.kind, t.value) && Rank(op.cur) < Rank(t.value)
  {
  }

  lemma RecordedNext(cfg: Config, s: Sys, e: Event, target: State)
    requires Inv(s) && Recorded(s.row, target)
    ensures Recorded(Next(cfg, s, e).row, target)
  {
    InvNext(cfg, s, e);
  }

  /** The new part of the log is the state's calls, then at most the row they led to. */
  lemma TakeLog(s: Sys, op: Op, r: Driven, w: Write)
    ensures var s' := Take(s, op, r, w);
            (s'.log == s.log + r.entries && s'.row == s.row) || s'.log == s.log + r.entries + [Wrote(s'.row)]
  {
  }

  /** None of the entries is an effect retired by target. */
  predicate Silent(entries: seq<Entry>, target: State) {
    forall i :: 0 <= i < |entries| ==> EffectTarget(entries[i]) != Some(target)
  }

  lemma EntriesSilent(cfg: Config, op: Op, d: Daemon, c: Replies, target: State)
    requires Synced(op) && OnFlow(op.rec.id.kind, target) && Rank(op.cur) >= Rank(target)
    ensures Silent(Process(cfg, op, d, c).entries, target)
  {
    forall i | 0 <= i < |Process(cfg, op, d, c).entries|
      ensures EffectTarget(Process(cfg, op, d, c).entries[i]) != Some(target)
    {
      EffectsPrecede(cfg, op, d, c, i);
    }
  }

  lemma SilentTake(s: Sys, r: Driven, w: Write, target: State)
    requires s.mem.Driving? && Silent(r.entries, target)
    ensures var s' := Take(s, s.mem.op, r, w);
            s.log <= s'.log && Silent(s'.log[|s.log|..], target)
  {
    TakeLog(s, s.mem.op, r, w);
  }

  lemma SilentOther(cfg: Config, s: Sys, e: Event, target: State)
    requires !e.Drive?
    ensures s.log <= Next(cfg, s, e).log
    ensures Silent(Next(cfg, s, e).log[|s.log|..], target)
  {
    var row := Next(cfg, s, e).row;
    assert Next(cfg, s, e).log == s.log || Next(cfg, s, e).log == s.log + [Wrote(row)];
  }

  lemma SilentDrive(cfg: Config, s: Sys, c: Replies, w: Write, target: State)
    requires Inv(s) && Recorded(s.row, target) && s.mem.Driving?
    ensures var s' := Take(s, s.mem.op, Process(cfg, s.mem.op, s.daemon, c), w);
            s.log <= s'.log && Silent(s'.log[|s.log|..], target)
  {
    EntriesSilent(cfg, s.mem.op, s.daemon, c, target);
    SilentTake(s, Process(cfg, s.mem.op, s.daemon, c), w, target);
  }

  lemma SilentNow(cfg: Config, s: Sys, e: Event, target: State)
    requires Inv(s) && Recorded(s.row, target)
    ensures s.log <= Next(cfg, s, e).log
    ensures Silent(Next(cfg, s, e).log[|s.log|..], target)
  {
    if !e.Drive? {
      SilentOther(cfg, s, e, target);
    } else if s.mem.Driving? {
      SilentDrive(cfg, s, e.c, e.w, target);
    }
  }

  /** Silence since a and silence since b make silence since a. */
  lemma SilentOn(a: seq<Entry>, b: seq<Entry>, c: seq<Entry>, target: State)
    requires a <= b && b <= c && Silent(b[|a|..], target) && Silent(c[|b|..], target)
    ensures a <= c && Silent(c[|a|..], target)
  {
    assert c[|a|..] == b[|a|..] + c[|b|..];
  }

  /**
   * Once the durable row records the state an effect leads to, no later part of any run
   * issues that effect again: CreateCredit, SendOOR, StartPay and RedeemCredit alike.
   */
  lemma {:induction false} EffectNotReissued(cfg: Config, s: Sys, es: seq<Event>, target: State)
    requires Inv(s) && Recorded(s.row, target)
    ensures Inv(Run(cfg, s, es)) && Recorded(Run(cfg, s, es).row, target)
    ensures s.log <= Run(cfg, s, es).log
    ensures Silent(Run(cfg, s, es).log[|s.log|..], target)
    decreases |es|
  {
    if es != [] {
      var mid := Run(cfg, s, es[..|es| - 1]);
      var e := es[|es| - 1];
      EffectNotReissued(cfg, s, es[..|es| - 1], target);
      InvNext(cfg, mid, e);
      RecordedNext(cfg, mid, e, target);
      SilentNow(cfg, mid, e, target);
      SilentOn(s.log, mid.log, Next(cfg, mid, e).log, target);
    }
  }

  // ---------------------------------------------------------------- corrupt rows

  /** A pending row whose state text is unknown, and a child that will only fail it. */
  predicate CorruptInv(s: Sys) {
    && s.row.rec.state.Unrecognized? && s.row.rec.status == StatusPending && s.row.blob.Some?
    && match s.mem
       case Gone => true
       case Idle(op, stale) => !stale ==> Restore(s.row) == Some(op)
       case Driving(op) => false
       case Committing(op, counted) => op == FailCorrupt(Restore(s.row).value) && !counted
  }

  /** Such a row stays as it is until a commit lands that leaves it healthy. */
  lemma CorruptNext(cfg: Config, s: Sys, e: Event)
    requires CorruptInv(s)
    ensures var t := Next(cfg, s, e);
            if t.row == s.row then CorruptInv(t) else Inv(t) && RowState(t.row) == Failed
  {
  }

  /** One committed turn durably fails a row whose state text is unknown; no effect is issued, no child respawned. */
  lemma CorruptRowFails(cfg: Config, s: Sys)
    requires s.row.rec.state.Unrecognized? && s.row.rec.status == StatusPending && s.row.blob.Some? && s.mem.Gone?
    ensures var s' := Next(cfg, Next(cfg, Next(cfg, s, Spawn), Deliver(true)), Commit(Landed));
            && s'.row.rec.state == Known(Failed)
            && s'.row.rec.status == StatusFailed
            && s'.row.rec.lastError == CorruptState(s.row.rec.state.text)
            && s'.daemon == s.daemon
            && s'.log == s.log + [Wrote(s'.row)]
            && Next(cfg, Next(cfg, s', Crash), Spawn).mem.Gone?
  {
  }
}
