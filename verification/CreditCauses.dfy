/**
 * Why an operation ended: in every run a terminal row has its cause in what was read
 * before it was written.
 */
module CreditCauses {
  import opened Basics
  import opened CreditTypes
  import opened CreditMachine
  import opened CreditRuns
  import opened CreditPollRuns
  import opened CreditOutcomes

  // ---------------------------------------------------------------- what a log shows

  /** The ledger lists an operation with the id, and the first one is in the given state. */
  predicate Lists(ledger: Option<Ledger>, id: string, st: ServerState) {
    && ledger.Some? && id != ""
    && exists i: nat | i < |ledger.value.ops| ::
         FirstOp(ledger.value.ops, i, id) && ledger.value.ops[i].state == st
  }

  /** The first operation the ledger lists under the payment hash is in the given state. */
  predicate ListsUnder(ledger: Option<Ledger>, hash: Bytes, st: ServerState) {
    && ledger.Some? && hash != []
    && exists i: nat | i < |ledger.value.ops| ::
         FirstUnder(ledger.value.ops, i, hash) && ledger.value.ops[i].state == st
  }

  predicate Saw(log: seq<Entry>, id: string, st: ServerState) {
    exists k :: 0 <= k < |log| && log[k].SawLedger? && Lists(log[k].ledger, id, st)
  }

  predicate SawUnder(log: seq<Entry>, hash: Bytes, st: ServerState) {
    exists k :: 0 <= k < |log| && log[k].SawLedger? && ListsUnder(log[k].ledger, hash, st)
  }

  /** How often the ledger was read. */
  function Reads(log: seq<Entry>): nat {
    if log == [] then 0 else Reads(log[..|log| - 1]) + if log[|log| - 1].SawLedger? then 1 else 0
  }

  lemma {:induction false} ReadsConcat(a: seq<Entry>, b: seq<Entry>)
    ensures Reads(a + b) == Reads(a) + Reads(b)
  {
    if b == [] {
      assert a + b == a;
    } else {
      ReadsConcat(a, b[..|b| - 1]);
      assert (a + b)[..|a + b| - 1] == a + b[..|b| - 1];
    }
  }

  lemma {:induction false} FoundIsFirst(ops: seq<ServerOp>, id: string) returns (i: nat)
    requires FirstById(ops, id).Some?
    ensures FirstOp(ops, i, id) && ops[i].state == FirstById(ops, id).value
  {
    if ops[0].opId == id {
      i := 0;
    } else {
      var j := FoundIsFirst(ops[1..], id);
      i := j + 1;
      forall k | 0 <= k < i ensures ops[k].opId != id {
        if k > 0 { assert ops[k] == ops[1..][k - 1]; }
      }
    }
  }

  lemma {:induction false} EvidenceIsFirst(ops: seq<ServerOp>, hash: Bytes, cap: nat) returns (i: nat)
    requires FirstPayEvidence(ops, hash, cap).Evidence?
    ensures FirstUnder(ops, i, hash) && ops[i].state == FirstPayEvidence(ops, hash, cap).state
  {
    if ops[0].hash == hash {
      i := 0;
    } else {
      var j := EvidenceIsFirst(ops[1..], hash, cap);
      i := j + 1;
      forall k | 0 <= k < i ensures ops[k].hash != hash {
        if k > 0 { assert ops[k] == ops[1..][k - 1]; }
      }
    }
  }

  lemma StateIsListed(ledger: Option<Ledger>, id: string)
    requires ServerOpState(ledger, id).Some?
    ensures Lists(ledger, id, ServerOpState(ledger, id).value)
  {
    var i := FoundIsFirst(ledger.value.ops, id);
  }

  lemma EvidenceIsListed(ledger: Option<Ledger>, hash: Bytes, cap: nat)
    requires AuthorizedPayState(ledger, hash, cap).Evidence?
    ensures ListsUnder(ledger, hash, AuthorizedPayState(ledger, hash, cap).state)
  {
    var i := EvidenceIsFirst(ledger.value.ops, hash, cap);
  }

  // ---------------------------------------------------------------- causes

  /** The reasons an operation of each kind can fail with. */
  predicate FailureOf(kind: Kind, r: Reason) {
    match kind
    case Pay =>
      || r.TopupRejected? || r.TopupCreateEnded? || r.TopupNoDestination? || r.FundRejected? || r.TopupFundingEnded?
      || r.TopupPollCap? || r.PayRejected? || r.PayEnded? || r.PayPollCap?
    case Receive => r.ReceiveCreateEnded? || r.ReceiveNoInvoice? || r.ReceiveFundingEnded?
    case Redeem => r.RedeemEmptyDestination? || r.RedeemRejected? || r.RedeemEnded? || r.RedeemPollCap?
  }

  /** What the log must show for the reason, beyond calls whose replies it does not hold. */
  predicate Backed(cfg: Config, rec: Record, log: seq<Entry>) {
    match rec.lastError
    case TopupFundingEnded(st) => Ended(st) && Saw(log, rec.serverOpId, st)
    case ReceiveFundingEnded(st) => Ended(st) && Saw(log, rec.serverOpId, st)
    case PayEnded(st) => Ended(st) && SawUnder(log, rec.terms.hash, st)
    case TopupCreateEnded(st) => Ended(st)
    case ReceiveCreateEnded(st) => Ended(st)
    case RedeemEnded(st) => Ended(st)
    case TopupPollCap => 0 < cfg.maxPolls < Reads(log)
    case PayPollCap => 0 < cfg.maxPolls < Reads(log)
    case RedeemPollCap => 0 < cfg.maxPolls < Reads(log)
    case _ => true
  }

  /** A terminal state of a record has its cause in the log. */
  predicate Caused(cfg: Config, rec: Record, cur: State, log: seq<Entry>) {
    && (cur == Failed ==> FailureOf(rec.id.kind, rec.lastError) && Backed(cfg, rec, log))
    && (cur == Completed && rec.id.kind == Receive ==> Saw(log, rec.serverOpId, Credited))
  }

  lemma SawGrows(log: seq<Entry>, more: seq<Entry>, id: string, st: ServerState)
    requires Saw(log, id, st) || Saw(more, id, st)
    ensures Saw(log + more, id, st)
  {
    if Saw(log, id, st) {
      var k :| 0 <= k < |log| && log[k].SawLedger? && Lists(log[k].ledger, id, st);
      assert (log + more)[k] == log[k];
    } else {
      var k :| 0 <= k < |more| && more[k].SawLedger? && Lists(more[k].ledger, id, st);
      assert (log + more)[|log| + k] == more[k];
    }
  }

  lemma SawUnderGrows(log: seq<Entry>, more: seq<Entry>, hash: Bytes, st: ServerState)
    requires SawUnder(log, hash, st) || SawUnder(more, hash, st)
    ensures SawUnder(log + more, hash, st)
  {
    if SawUnder(log, hash, st) {
      var k :| 0 <= k < |log| && log[k].SawLedger? && ListsUnder(log[k].ledger, hash, st);
      assert (log + more)[k] == log[k];
    } else {
      var k :| 0 <= k < |more| && more[k].SawLedger? && ListsUnder(more[k].ledger, hash, st);
      assert (log + more)[|log| + k] == more[k];
    }
  }

  lemma CausedGrows(cfg: Config, rec: Record, cur: State, log: seq<Entry>, more: seq<Entry>)
    requires Caused(cfg, rec, cur, log)
    ensures Caused(cfg, rec, cur, log + more)
  {
    ReadsConcat(log, more);
    if cur == Completed && rec.id.kind == Receive { SawGrows(log, more, rec.serverOpId, Credited); }
    if cur == Failed {
      match rec.lastError
      case TopupFundingEnded(st) => SawGrows(log, more, rec.serverOpId, st);
      case ReceiveFundingEnded(st) => SawGrows(log, more, rec.serverOpId, st);
      case PayEnded(st) => SawUnderGrows(log, more, rec.terms.hash, st);
      case _ =>
    }
  }

  // ---------------------------------------------------------------- one step

  /** What one step that ends an operation shows by itself; a cap needs the polls counted before it. */
  predicate StepCaused(cfg: Config, op: Op, r: Driven) {
    r.trans.Move? ==>
      var rec := r.trans.op.rec;
      && (r.trans.next == Completed && rec.id.kind == Receive ==> Saw(r.entries, rec.serverOpId, Credited))
      && (r.trans.next == Failed ==> FailureOf(rec.id.kind, rec.lastError) && StepBacked(cfg, op, rec, r.entries))
      && (r.trans.counted ==> Reads(r.entries) > 0)
  }

  predicate StepBacked(cfg: Config, op: Op, rec: Record, entries: seq<Entry>) {
    match rec.lastError
    case TopupPollCap => Exhausted(cfg, Bump(op.polls)) && Reads(entries) > 0
    case PayPollCap => Exhausted(cfg, Bump(op.polls)) && Reads(entries) > 0
    case RedeemPollCap => Exhausted(cfg, Bump(op.polls)) && Reads(entries) > 0
    case _ => Backed(cfg, rec, entries)
  }

  lemma ReadOnce(ledger: Option<Ledger>, more: seq<Entry>)
    ensures Reads([SawLedger(ledger)] + more) > 0
  {
    assert [SawLedger(ledger)][..0] == [];
    assert Reads([SawLedger(ledger)]) == 1;
    ReadsConcat([SawLedger(ledger)], more);
  }

  lemma OneEntrySaw(ledger: Option<Ledger>, id: string, st: ServerState)
    requires ServerOpState(ledger, id) == Some(st)
    ensures Saw([SawLedger(ledger)], id, st)
  {
    StateIsListed(ledger, id);
    assert [SawLedger(ledger)][0] == SawLedger(ledger);
  }

  /** A step that fails the operation for a reason that is backed by what it read. */
  lemma FailIsCaused(cfg: Config, op: Op, from: Op, why: Reason, entries: seq<Entry>, d: Daemon)
    requires FailureOf(from.rec.id.kind, why) && !why.TopupPollCap? && !why.PayPollCap? && !why.RedeemPollCap?
    requires Backed(cfg, from.rec.(lastError := why), entries)
    ensures StepCaused(cfg, op, Driven(Fail(from, why), entries, d))
  {
  }

  /** A step that counts a poll it read, or hits the cap. */
  lemma PollIsCaused(cfg: Config, op: Op, from: Op, why: Reason, entries: seq<Entry>, d: Daemon)
    requires from.polls == op.polls && !Terminal(from.cur) && Reads(entries) > 0 && FailureOf(from.rec.id.kind, why)
    requires why.TopupPollCap? || why.PayPollCap? || why.RedeemPollCap?
    ensures StepCaused(cfg, op, Driven(CountPoll(cfg, from, why), entries, d))
  {
  }

  lemma TopupAwaitCaused(cfg: Config, op: Op, d: Daemon, c: Replies)
    requires Synced(op) && op.cur == TopupAwaitingCredit
    ensures StepCaused(cfg, op, Driven(TopupAwait(cfg, op, c), SawIfRead(c), d))
  {
    if c.acctOk && c.list.ListOk? {
      var s, saw := ServerOpState(c.list.ledger, op.rec.serverOpId), [SawLedger(c.list.ledger)];
      if s.Some? && TerminalFailure(s.value) {
        OneEntrySaw(c.list.ledger, op.rec.serverOpId, s.value);
        FailIsCaused(cfg, op, op, TopupFundingEnded(s.value), saw, d);
      } else if s != Some(Credited) {
        ReadOnce(c.list.ledger, []);
        assert saw + [] == saw;
        PollIsCaused(cfg, op, op, TopupPollCap, saw, d);
      }
    }
  }

  lemma PayAwaitCaused(cfg: Config, op: Op, d: Daemon, c: Replies)
    requires Synced(op) && op.cur == PayAwaitingSettlement
    ensures StepCaused(cfg, op, Driven(PayAwait(cfg, op, c), SawIfRead(c), d))
  {
    if c.acctOk && c.list.ListOk? {
      var ev := AuthorizedPayState(c.list.ledger, op.rec.terms.hash, op.rec.terms.maxCredit);
      var clean, saw := op.(rec := op.rec.(lastError := NoError)), [SawLedger(c.list.ledger)];
      if ev.Evidence? && TerminalFailure(ev.state) {
        EvidenceIsListed(c.list.ledger, op.rec.terms.hash, op.rec.terms.maxCredit);
        assert saw[0] == SawLedger(c.list.ledger);
        assert SawUnder(saw, op.rec.terms.hash, ev.state);
        FailIsCaused(cfg, op, clean, PayEnded(ev.state), saw, d);
      } else if !ev.Contradiction? && ev != Evidence(Debited) && !(ev.NoEvidence? && op.rec.lastError != NoError) {
        ReadOnce(c.list.ledger, []);
        assert saw + [] == saw;
        PollIsCaused(cfg, op, clean, PayPollCap, saw, d);
      }
    }
  }

  lemma ReceiveAwaitCaused(cfg: Config, op: Op, d: Daemon, c: Replies)
    requires Synced(op) && op.cur == AwaitingSettlement
    ensures StepCaused(cfg, op, Driven(ReceiveAwait(cfg, op, c), SawIfRead(c), d))
  {
    if c.acctOk && c.list.ListOk? {
      var s := ServerOpState(c.list.ledger, op.rec.serverOpId);
      if s.Some? {
        OneEntrySaw(c.list.ledger, op.rec.serverOpId, s.value);
        if TerminalFailure(s.value) {
          FailIsCaused(cfg, op, op, ReceiveFundingEnded(s.value), [SawLedger(c.list.ledger)], d);
        }
      }
    }
  }

  lemma RedeemAwaitCaused(cfg: Config, op: Op, d: Daemon, c: Replies)
    requires Synced(op) && op.cur == AwaitingOOR
    ensures StepCaused(cfg, op, RedeemAwait(cfg, op, d, c))
  {
    if c.acctOk && c.list.ListOk? {
      var s := ServerOpState(c.list.ledger, op.rec.serverOpId);
      if s.Some? && TerminalFailure(s.value) {
        FailIsCaused(cfg, op, op, RedeemEnded(s.value), [SawLedger(c.list.ledger)], d);
      } else if c.find.FindOk? && !(c.find.found && c.find.amount > 0) {
        ReadOnce(c.list.ledger, [LookedFor(op.script)]);
        assert [SawLedger(c.list.ledger)] + [LookedFor(op.script)] == [SawLedger(c.list.ledger), LookedFor(op.script)];
        PollIsCaused(cfg, op, op, RedeemPollCap, [SawLedger(c.list.ledger), LookedFor(op.script)], d);
      }
    }
  }

  lemma TopupCreateCaused(cfg: Config, op: Op, d: Daemon, c: Replies)
    requires Synced(op) && op.cur == TopupCreating
    ensures StepCaused(cfg, op, TopupCreate(op, d, c))
  {
  }

  lemma TopupFundCaused(cfg: Config, op: Op, d: Daemon, c: Replies)
    requires Synced(op) && op.cur == TopupFunding
    ensures StepCaused(cfg, op, TopupFund(op, d, c))
  {
  }

  lemma StartCaused(cfg: Config, op: Op, d: Daemon, c: Replies, call: seq<Entry>)
    requires Synced(op) && op.cur == Paying
    ensures StepCaused(cfg, op, Driven(StartPay(op, c), call, d))
  {
  }

  lemma ReceiveCreateCaused(cfg: Config, op: Op, d: Daemon, c: Replies, call: seq<Entry>)
    requires Synced(op) && op.cur == ReceiveCreating
    ensures StepCaused(cfg, op, Driven(ReceiveCreate(op, c), call, d))
  {
  }

  lemma RedeemReserveCaused(cfg: Config, op: Op, d: Daemon, c: Replies)
    requires Synced(op) && op.cur == RedeemReserving
    ensures StepCaused(cfg, op, RedeemReserve(op, d, c))
  {
  }

  lemma RedeemSubmitCaused(cfg: Config, op: Op, d: Daemon, c: Replies)
    requires Synced(op) && op.cur == RedeemSubmitting
    ensures StepCaused(cfg, op, RedeemSubmit(op, d, c))
  {
  }

  lemma StepsCaused(cfg: Config, op: Op, d: Daemon, c: Replies)
    requires Synced(op) && !Terminal(op.cur)
    ensures StepCaused(cfg, op, Process(cfg, op, d, c))
  {
    match op.cur
    case TopupAwaitingCredit => TopupAwaitCaused(cfg, op, d, c);
    case PayAwaitingSettlement => PayAwaitCaused(cfg, op, d, c);
    case AwaitingSettlement => ReceiveAwaitCaused(cfg, op, d, c);
    case AwaitingOOR => RedeemAwaitCaused(cfg, op, d, c);
    case TopupCreating => TopupCreateCaused(cfg, op, d, c);
    case TopupFunding => TopupFundCaused(cfg, op, d, c);
    case Paying =>
      StartCaused(cfg, op, d, c, [CalledStart(op.rec.terms.invoice, op.rec.terms.maxFee, op.rec.terms.maxCredit)]);
    case ReceiveCreating =>
      ReceiveCreateCaused(cfg, op, d, c, [CalledCreate(LightningReceive, op.rec.id.opKey, op.rec.terms.amount)]);
    case RedeemReserving => RedeemReserveCaused(cfg, op, d, c);
    case RedeemSubmitting => RedeemSubmitCaused(cfg, op, d, c);
    case Quoting =>
  }

  // ---------------------------------------------------------------- runs

  predicate CauseInv(cfg: Config, s: Sys) {
    && PollInv(cfg, s) && Modern(s)
    && Caused(cfg, s.row.rec, RowState(s.row), s.log)
    && s.polls <= Reads(s.log)
    && (s.mem.Committing? ==>
          && Caused(cfg, s.mem.op.rec, s.mem.op.cur, s.log)
          && (s.mem.counted ==> s.polls < Reads(s.log)))
  }

  /** The cap fires only after more reads than it allows. */
  lemma CapNeedsReads(cfg: Config, polls: nat, counter: Uint32, log: seq<Entry>, entries: seq<Entry>)
    requires counter == polls % TWO_32 && polls <= Reads(log) && Reads(entries) > 0
    requires Exhausted(cfg, Bump(counter)) && WithinCap(cfg, polls)
    ensures 0 < cfg.maxPolls < Reads(log + entries)
  {
    ReadsConcat(log, entries);
    BumpCounts(polls);
  }

  lemma EndCaused(cfg: Config, s: Sys, r: Driven)
    requires CauseInv(cfg, s) && s.mem.Driving? && r.trans.Move? && Terminal(r.trans.next)
    requires Climbs(s.mem.op, r.trans) && StepCaused(cfg, s.mem.op, r)
    ensures Caused(cfg, ApplyState(r.trans.op, r.trans.next).rec, r.trans.next, s.log + r.entries)
  {
    var rec := r.trans.op.rec;
    ReadsConcat(s.log, r.entries);
    if r.trans.next == Completed {
      if rec.id.kind == Receive { SawGrows(s.log, r.entries, rec.serverOpId, Credited); }
    } else {
      match rec.lastError
      case TopupFundingEnded(st) => SawGrows(s.log, r.entries, rec.serverOpId, st);
      case ReceiveFundingEnded(st) => SawGrows(s.log, r.entries, rec.serverOpId, st);
      case PayEnded(st) => SawUnderGrows(s.log, r.entries, rec.terms.hash, st);
      case TopupPollCap => CapReads(cfg, s, r);
      case PayPollCap => CapReads(cfg, s, r);
      case RedeemPollCap => CapReads(cfg, s, r);
      case _ =>
    }
  }

  lemma CapReads(cfg: Config, s: Sys, r: Driven)
    requires CauseInv(cfg, s) && s.mem.Driving? && Reads(r.entries) > 0 && Exhausted(cfg, Bump(s.mem.op.polls))
    ensures 0 < cfg.maxPolls < Reads(s.log + r.entries)
  {
    assert s.mem.op.cur == RowState(s.row);
    CapNeedsReads(cfg, s.polls, s.mem.op.polls, s.log, r.entries);
  }

  /** The row after a step: as it was, or staged in a state that is not terminal. */
  lemma CauseTakeRow(cfg: Config, s: Sys, r: Driven, w: Write)
    requires CauseInv(cfg, s) && s.mem.Driving? && Climbs(s.mem.op, r.trans)
    ensures var t := Take(s, s.mem.op, r, w);
            && RowOk(t.row) && Caused(cfg, t.row.rec, RowState(t.row), t.log) && t.polls <= Reads(t.log)
            && Reads(s.log) + Reads(r.entries) <= Reads(t.log)
  {
    InvTake(s, r, w);
    var t := Take(s, s.mem.op, r, w);
    TakeLog(s, s.mem.op, r, w);
    ReadsConcat(s.log, r.entries);
    ReadsConcat(s.log + r.entries, [Wrote(t.row)]);
    if t.log == s.log + r.entries {
      CausedGrows(cfg, s.row.rec, RowState(s.row), s.log, r.entries);
    }
  }

  lemma CauseTakeMem(cfg: Config, s: Sys, r: Driven, w: Write)
    requires CauseInv(cfg, s) && s.mem.Driving? && Climbs(s.mem.op, r.trans) && StepCaused(cfg, s.mem.op, r)
    ensures var t := Take(s, s.mem.op, r, w);
            t.mem.Committing? ==>
              && Caused(cfg, t.mem.op.rec, t.mem.op.cur, t.log)
              && (t.mem.counted ==> t.polls < Reads(t.log))
  {
    ReadsConcat(s.log, r.entries);
    if r.trans.Move? && Terminal(r.trans.next) {
      EndCaused(cfg, s, r);
    }
  }

  lemma CauseTake(cfg: Config, s: Sys, r: Driven, w: Write)
    requires CauseInv(cfg, s) && s.mem.Driving? && Climbs(s.mem.op, r.trans)
    requires PollStep(cfg, s.mem.op, r.trans) && StepCaused(cfg, s.mem.op, r)
    requires Modern(Take(s, s.mem.op, r, w))
    ensures CauseInv(cfg, Take(s, s.mem.op, r, w))
  {
    PollTake(cfg, s, r, w);
    CauseTakeRow(cfg, s, r, w);
    CauseTakeMem(cfg, s, r, w);
  }

  lemma CauseOther(cfg: Config, s: Sys, e: Event)
    requires CauseInv(cfg, s) && !e.Drive?
    ensures CauseInv(cfg, Next(cfg, s, e))
  {
    PollNext(cfg, s, e);
    ModernNext(cfg, s, e);
    var t := Next(cfg, s, e);
    if e.Commit? && s.mem.Committing? {
      ReadsConcat(s.log, [Wrote(Persist(s.mem.op))]);
      CausedGrows(cfg, s.mem.op.rec, s.mem.op.cur, s.log, [Wrote(Persist(s.mem.op))]);
    }
  }

  lemma CauseNext(cfg: Config, s: Sys, e: Event)
    requires CauseInv(cfg, s)
    ensures CauseInv(cfg, Next(cfg, s, e))
  {
    if !e.Drive? {
      CauseOther(cfg, s, e);
    } else if s.mem.Driving? {
      ModernNext(cfg, s, e);
      StepClimbs(cfg, s.mem.op, s.daemon, e.c);
      PollSteps(cfg, s.mem.op, s.daemon, e.c);
      StepsCaused(cfg, s.mem.op, s.daemon, e.c);
      CauseTake(cfg, s, Process(cfg, s.mem.op, s.daemon, e.c), e.w);
    }
  }

  lemma {:induction false} CauseRun(cfg: Config, s: Sys, es: seq<Event>)
    requires Admitted(s)
    ensures CauseInv(cfg, Run(cfg, s, es))
    decreases |es|
  {
    if es != [] {
      CauseRun(cfg, s, es[..|es| - 1]);
      CauseNext(cfg, Run(cfg, s, es[..|es| - 1]), es[|es| - 1]);
    }
  }

  /**
   * In every run of an operation this client admitted, a durably failed row carries a reason of
   * its kind, and the readings before it back the reason: an ended state was the first listed for
   * the operation, and a poll cap fired only after more reads than it allows.
   */
  lemma FailsOnlyForCause(cfg: Config, s: Sys, es: seq<Event>)
    requires Admitted(s)
    ensures var t := Run(cfg, s, es);
            RowOk(t.row) && (RowState(t.row) == Failed ==>
              FailureOf(t.row.rec.id.kind, t.row.rec.lastError) && Backed(cfg, t.row.rec, t.log))
  {
    CauseRun(cfg, s, es);
  }

  /** In every run a receive is durably completed only after the server listed its operation as credited. */
  lemma ReceiveCompletesOnlyWhenCredited(cfg: Config, s: Sys, es: seq<Event>)
    requires Admitted(s) && s.row.rec.id.kind == Receive
    ensures var t := Run(cfg, s, es);
            RowOk(t.row) && (RowState(t.row) == Completed ==> Saw(t.log, t.row.rec.serverOpId, Credited))
  {
    CauseRun(cfg, s, es);
    RowNeverRetreats(cfg, s, es);
  }
}
