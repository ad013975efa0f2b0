/** Poll accounting over runs, and what may fail a receive. */
module CreditPollRuns {
  import opened Basics
  import opened CreditTypes
  import opened CreditMachine
  import opened CreditRuns

  // ---------------------------------------------------------------- the poll cap

  /** The cap works as a cap: it is set, and the 32-bit counter can pass it. */
  predicate EffectiveCap(cfg: Config) { 0 < cfg.maxPolls < TWO_32 - 1 }

  lemma BumpCounts(n: nat)
    ensures Bump(n % TWO_32) == (n + 1) % TWO_32
  {
  }

  /** n polls are within the cap, if there is an effective one. */
  predicate WithinCap(cfg: Config, n: nat) { EffectiveCap(cfg) ==> n <= cfg.maxPolls }

  predicate PollMem(cfg: Config, cur: State, polls: nat, mem: Mem) {
    && (mem.Driving? ==> mem.op.polls == if mem.op.cur == cur then polls % TWO_32 else 0)
    && (mem.Committing? ==>
          var n := if mem.op.cur != cur then 0 else if mem.counted then polls + 1 else polls;
          WithinCap(cfg, n) && mem.op.polls == n % TWO_32)
  }

  /** The durable counter is the number of committed polls of the row's state, in 32 bits, and is within the cap. */
  predicate PollInv(cfg: Config, s: Sys) {
    && Inv(s)
    && s.row.blob.value.polls == s.polls % TWO_32 && WithinCap(cfg, s.polls)
    && PollMem(cfg, RowState(s.row), s.polls, s.mem)
  }

  /** A step leaves the count alone, or counts one poll that the cap still allows and parks. */
  predicate PollStep(cfg: Config, op: Op, t: Trans) {
    t.Move? ==>
      && (t.counted ==> t.park && t.op.polls == Bump(op.polls) && !Exhausted(cfg, t.op.polls))
      && (!t.counted && t.park ==> t.op.polls == op.polls)
  }

  lemma TopupPolls(cfg: Config, op: Op, c: Replies)
    requires op.cur == TopupAwaitingCredit
    ensures PollStep(cfg, op, TopupAwait(cfg, op, c))
  {
  }

  lemma PayPolls(cfg: Config, op: Op, c: Replies)
    requires op.cur == PayAwaitingSettlement
    ensures PollStep(cfg, op, PayAwait(cfg, op, c))
  {
  }

  lemma RedeemPolls(cfg: Config, op: Op, d: Daemon, c: Replies)
    requires op.cur == AwaitingOOR
    ensures PollStep(cfg, op, RedeemAwait(cfg, op, d, c).trans)
  {
  }

  lemma PollSteps(cfg: Config, op: Op, d: Daemon, c: Replies)
    requires !Terminal(op.cur)
    ensures PollStep(cfg, op, Process(cfg, op, d, c).trans)
  {
    match op.cur
    case TopupAwaitingCredit => TopupPolls(cfg, op, c);
    case PayAwaitingSettlement => PayPolls(cfg, op, c);
    case AwaitingOOR => RedeemPolls(cfg, op, d, c);
    case _ =>
  }

  /** A counted poll that is not exhausted is one more, still within the cap. */
  lemma OneMorePoll(cfg: Config, n: nat)
    requires WithinCap(cfg, n) && !Exhausted(cfg, Bump(n % TWO_32))
    ensures WithinCap(cfg, n + 1) && Bump(n % TWO_32) == (n + 1) % TWO_32
  {
    BumpCounts(n);
  }

  lemma PollPark(cfg: Config, s: Sys, r: Driven, w: Write)
    requires PollInv(cfg, s) && s.mem.Driving? && r.trans.Move? && r.trans.park
    requires Climbs(s.mem.op, r.trans) && PollStep(cfg, s.mem.op, r.trans)
    ensures PollInv(cfg, Take(s, s.mem.op, r, w))
  {
    InvTake(s, r, w);
    assert !r.trans.stage;
    assert RowState(s.row) == r.trans.next;
    assert ApplyState(r.trans.op, r.trans.next).polls == r.trans.op.polls;
    if r.trans.counted {
      OneMorePoll(cfg, s.polls);
    }
  }

  lemma PollAdvance(cfg: Config, s: Sys, r: Driven, w: Write)
    requires PollInv(cfg, s) && s.mem.Driving? && r.trans.Move? && !r.trans.park
    requires Climbs(s.mem.op, r.trans) && PollStep(cfg, s.mem.op, r.trans)
    ensures PollInv(cfg, Take(s, s.mem.op, r, w))
  {
    InvTake(s, r, w);
    assert !r.trans.counted;
    var op := ApplyState(r.trans.op, r.trans.next);
    assert op.polls == 0 && op.cur != RowState(s.row);
  }

  lemma PollTake(cfg: Config, s: Sys, r: Driven, w: Write)
    requires PollInv(cfg, s) && s.mem.Driving?
    requires Climbs(s.mem.op, r.trans) && PollStep(cfg, s.mem.op, r.trans)
    ensures PollInv(cfg, Take(s, s.mem.op, r, w))
  {
    if r.trans.Fault? {
      InvTake(s, r, w);
    } else if r.trans.park {
      PollPark(cfg, s, r, w);
    } else {
      PollAdvance(cfg, s, r, w);
    }
  }

  lemma PollCommit(cfg: Config, s: Sys, w: Write)
    requires PollInv(cfg, s) && Modern(s)
    ensures PollInv(cfg, Next(cfg, s, Commit(w)))
  {
    InvNext(cfg, s, Commit(w));
  }

  lemma PollDeliver(cfg: Config, s: Sys, reloadOk: bool)
    requires PollInv(cfg, s) && Modern(s)
    ensures PollInv(cfg, Next(cfg, s, Deliver(reloadOk)))
  {
    InvNext(cfg, s, Deliver(reloadOk));
  }

  lemma PollOther(cfg: Config, s: Sys, e: Event)
    requires PollInv(cfg, s) && (e.Spawn? || e.Crash? || e.Repair?) && Modern(s)
    ensures PollInv(cfg, Next(cfg, s, e))
  {
    InvNext(cfg, s, e);
  }

  lemma PollNext(cfg: Config, s: Sys, e: Event)
    requires PollInv(cfg, s) && Modern(s)
    ensures PollInv(cfg, Next(cfg, s, e))
  {
    if e.Commit? {
      PollCommit(cfg, s, e.w);
    } else if e.Deliver? {
      PollDeliver(cfg, s, e.reloadOk);
    } else if !e.Drive? {
      PollOther(cfg, s, e);
    } else if s.mem.Driving? {
      StepClimbs(cfg, s.mem.op, s.daemon, e.c);
      PollSteps(cfg, s.mem.op, s.daemon, e.c);
      PollTake(cfg, s, Process(cfg, s.mem.op, s.daemon, e.c), e.w);
    }
  }

  lemma {:induction false} PollRun(cfg: Config, s: Sys, es: seq<Event>)
    requires PollInv(cfg, s) && Modern(s)
    ensures PollInv(cfg, Run(cfg, s, es)) && Modern(Run(cfg, s, es))
    decreases |es|
  {
    if es != [] {
      var mid := Run(cfg, s, es[..|es| - 1]);
      PollRun(cfg, s, es[..|es| - 1]);
      PollNext(cfg, mid, es[|es| - 1]);
      ModernNext(cfg, mid, es[|es| - 1]);
    }
  }

  /**
   * For every cap, counted across restarts and ambiguous writes: the persisted counter is the
   * number of committed polls the row's state has taken, in 32 bits, and with an effective cap
   * N that number never exceeds N.
   */
  lemma CapBoundsPolls(cfg: Config, s: Sys, es: seq<Event>)
    requires Admitted(s)
    ensures var t := Run(cfg, s, es);
            && PollInv(cfg, t) && Modern(t) && t.row.blob.value.polls == t.polls % TWO_32
            && (EffectiveCap(cfg) ==> t.row.blob.value.polls == t.polls <= cfg.maxPolls)
  {
    AdmittedPolls(cfg, s);
    PollRun(cfg, s, es);
    if EffectiveCap(cfg) { PollFacts(cfg, Run(cfg, s, es)); }
  }

  lemma AdmittedPolls(cfg: Config, s: Sys)
    requires Admitted(s)
    ensures PollInv(cfg, s) && Modern(s)
  {
  }

  lemma PollFacts(cfg: Config, t: Sys)
    requires PollInv(cfg, t) && EffectiveCap(cfg)
    ensures t.row.blob.value.polls == t.polls <= cfg.maxPolls
  {
  }

  // ---------------------------------------------------------------- when the cap fires

  /** The awaiting states a cap applies to. */
  predicate Capped(s: State) { s.TopupAwaitingCredit? || s.PayAwaitingSettlement? || s.AwaitingOOR? }

  /** The server op is neither credited nor failed. */
  predicate Unsettled(s: Option<ServerState>) { s.Some? ==> !TerminalFailure(s.value) && !s.value.Credited? }

  /** Replies that can be read, decide nothing and contradict nothing. */
  predicate Undecided(op: Op, c: Replies) {
    && c.acctOk && c.list.ListOk?
    && match op.cur
       case TopupAwaitingCredit => Unsettled(ServerOpState(c.list.ledger, op.rec.serverOpId))
       case PayAwaitingSettlement =>
         var ev := AuthorizedPayState(c.list.ledger, op.rec.terms.hash, op.rec.terms.maxCredit);
         && (ev.NoEvidence? ==> op.rec.lastError == NoError)
         && !ev.Contradiction? && (ev.Evidence? ==> !ev.state.Debited? && !TerminalFailure(ev.state))
       case AwaitingOOR =>
         var s := ServerOpState(c.list.ledger, op.rec.serverOpId);
         (s.Some? ==> !TerminalFailure(s.value)) && c.find.FindOk? && !(c.find.found && c.find.amount > 0)
       case _ => false
  }

  /** The error a cap leaves, by state. */
  function CapReason(s: State): Reason {
    match s
    case TopupAwaitingCredit => TopupPollCap
    case PayAwaitingSettlement => PayPollCap
    case _ => RedeemPollCap
  }

  /**
   * An undecided reading is one counted poll that parks, or the cap. Nothing but the counter and the
   * error changes: the cap leaves its own, and a pay that reads consistent evidence loses an old one.
   */
  predicate OnePoll(cfg: Config, op: Op, t: Trans) {
    && t.Move? && !t.stage
    && if Exhausted(cfg, Bump(op.polls))
       then && t.next == Failed && !t.park && !t.counted
            && t.op == op.(polls := Bump(op.polls), rec := op.rec.(lastError := CapReason(op.cur)))
       else && t.next == op.cur && t.park && t.counted
            && t.op == op.(polls := Bump(op.polls),
                           rec := op.rec.(lastError := if op.cur.PayAwaitingSettlement? then NoError
                                                       else op.rec.lastError))
  }

  lemma CountPollPolls(cfg: Config, op: Op)
    requires Capped(op.cur) && (op.cur.PayAwaitingSettlement? ==> op.rec.lastError == NoError)
    ensures OnePoll(cfg, op, CountPoll(cfg, op, CapReason(op.cur)))
  {
  }

  lemma UndecidedPay(cfg: Config, op: Op, c: Replies)
    requires op.cur == PayAwaitingSettlement && Undecided(op, c)
    ensures OnePoll(cfg, op, PayAwait(cfg, op, c))
  {
    CountPollPolls(cfg, op.(rec := op.rec.(lastError := NoError)));
  }

  lemma UndecidedPolls(cfg: Config, op: Op, d: Daemon, c: Replies)
    requires Capped(op.cur) && Undecided(op, c)
    ensures OnePoll(cfg, op, Process(cfg, op, d, c).trans)
  {
    match op.cur
    case TopupAwaitingCredit => CountPollPolls(cfg, op);
    case PayAwaitingSettlement => UndecidedPay(cfg, op, c);
    case AwaitingOOR => CountPollPolls(cfg, op);
  }

  /**
   * With an effective cap N an undecided, uncontradicted poll fails the operation exactly when N
   * polls are already committed, and once that turn's commit lands the row is failed.
   */
  lemma CapFiresAtN(cfg: Config, s: Sys, c: Replies, w: Write)
    requires EffectiveCap(cfg) && PollInv(cfg, s) && s.mem.Driving?
    requires Capped(s.mem.op.cur) && RowState(s.row) == s.mem.op.cur && Undecided(s.mem.op, c)
    ensures var t := Next(cfg, s, Drive(c, w));
            && t.mem.Committing? && t.row == s.row
            && t.mem.op.cur == (if s.polls == cfg.maxPolls then Failed else s.mem.op.cur)
            && (s.polls == cfg.maxPolls ==> t.mem.op.rec.lastError == CapReason(s.mem.op.cur))
            && Next(cfg, t, Commit(Landed)).row.rec.state == Known(t.mem.op.cur)
            && Next(cfg, t, Commit(Landed)).polls == if s.polls == cfg.maxPolls then 0 else s.polls + 1
  {
    UndecidedPolls(cfg, s.mem.op, s.daemon, c);
    PollAtCap(cfg, s, Process(cfg, s.mem.op, s.daemon, c), w);
  }

  lemma PollAtCap(cfg: Config, s: Sys, r: Driven, w: Write)
    requires EffectiveCap(cfg) && PollInv(cfg, s) && s.mem.Driving? && RowState(s.row) == s.mem.op.cur
    requires Capped(s.mem.op.cur) && OnePoll(cfg, s.mem.op, r.trans)
    ensures var t := Take(s, s.mem.op, r, w);
            && t.mem.Committing? && t.row == s.row
            && t.mem.op.cur == (if s.polls == cfg.maxPolls then Failed else s.mem.op.cur)
            && (s.polls == cfg.maxPolls ==> t.mem.op.rec.lastError == CapReason(s.mem.op.cur))
            && Next(cfg, t, Commit(Landed)).row.rec.state == Known(t.mem.op.cur)
            && Next(cfg, t, Commit(Landed)).polls == if s.polls == cfg.maxPolls then 0 else s.polls + 1
  {
    BumpCounts(s.polls);
  }

  /** Nothing the server says settles an operation that is asked about. */
  const QUIET := Replies(true, CreateFailed, SendOk(""), ProbeAnswered, StartFailed, ListOk(None), AllocFailed,
                         RedeemError, FindOk(false, 0), NoProvider, None)

  /** k turns that each take one undecided poll and commit it. */
  function QuietTurns(k: nat): seq<Event> {
    if k == 0 then [] else QuietTurns(k - 1) + [Deliver(true), Drive(QUIET, Landed), Commit(Landed)]
  }

  /** Between turns in a capped awaiting state, with no contradiction standing. */
  predicate Resting(s: Sys) {
    && RowOk(s.row) && Capped(RowState(s.row)) && s.row.rec.lastError == NoError
    && s.mem == Idle(Restore(s.row).value, false)
  }

  /** A poll that parks is committed in place and leaves the operation resting. */
  lemma PollAndRest(cfg: Config, s: Sys, op: Op, r: Driven)
    requires OnePoll(cfg, op, r.trans) && !Exhausted(cfg, r.trans.op.polls)
    requires Synced(op) && Capped(op.cur) && op.rec.lastError == NoError && s.row.rec.state == Known(op.cur)
    ensures var t := Next(cfg, Take(s, op, r, Landed), Commit(Landed));
            Resting(t) && RowState(t.row) == op.cur && t.polls == s.polls + 1
  {
    var op2 := ApplyState(r.trans.op, r.trans.next);
    assert Take(s, op, r, Landed).mem == Committing(op2, true);
    PersistRestores(op2);
  }

  lemma QuietTurn(cfg: Config, s: Sys)
    requires !EffectiveCap(cfg) && Resting(s)
    ensures var t := Next(cfg, Next(cfg, Next(cfg, s, Deliver(true)), Drive(QUIET, Landed)), Commit(Landed));
            Resting(t) && RowState(t.row) == RowState(s.row) && t.polls == s.polls + 1
  {
    var op := s.mem.op;
    assert Undecided(op, QUIET);
    UndecidedPolls(cfg, op, s.daemon, QUIET);
    var s1 := Next(cfg, s, Deliver(true));
    assert s1 == s.(mem := Driving(op));
    PollAndRest(cfg, s1, op, Process(cfg, op, s.daemon, QUIET));
  }

  lemma RunTurn(cfg: Config, s: Sys, es: seq<Event>, a: Event, b: Event, c: Event)
    ensures Run(cfg, s, es + [a, b, c]) == Next(cfg, Next(cfg, Next(cfg, Run(cfg, s, es), a), b), c)
  {
    var all := es + [a, b, c];
    assert all[..|es| + 2] == es + [a, b] && all[|es| + 2] == c;
    assert (es + [a, b])[..|es| + 1] == es + [a] && (es + [a])[..|es|] == es;
    assert Run(cfg, s, es + [a]) == Next(cfg, Run(cfg, s, es), a);
    assert Run(cfg, s, es + [a, b]) == Next(cfg, Run(cfg, s, es + [a]), b);
  }

  /** Without an effective cap (0, or 2^32 - 1) any number of polls can be committed in the same state. */
  lemma {:induction false} UncappedPolls(cfg: Config, s: Sys, k: nat)
    requires !EffectiveCap(cfg) && Resting(s)
    ensures var t := Run(cfg, s, QuietTurns(k));
            Resting(t) && RowState(t.row) == RowState(s.row) && t.polls == s.polls + k
  {
    if k > 0 {
      UncappedPolls(cfg, s, k - 1);
      QuietTurn(cfg, Run(cfg, s, QuietTurns(k - 1)));
      RunTurn(cfg, s, QuietTurns(k - 1), Deliver(true), Drive(QUIET, Landed), Commit(Landed));
    }
  }

  ghost predicate PollsBounded(cfg: Config, s: Sys, n: nat) {
    forall es :: Run(cfg, s, es).polls <= n
  }

  /**
   * From any resting state the committed polls of a state are bounded over all runs exactly when
   * the cap is effective. A cap of 2^32 - 1 never fires: the counter wraps instead of passing it.
   */
  lemma CapFiresExactly(cfg: Config, s: Sys)
    requires PollInv(cfg, s) && Modern(s) && Resting(s)
    ensures EffectiveCap(cfg) <==> exists n :: PollsBounded(cfg, s, n)
    ensures EffectiveCap(cfg) ==> PollsBounded(cfg, s, cfg.maxPolls)
  {
    if EffectiveCap(cfg) {
      forall es ensures Run(cfg, s, es).polls <= cfg.maxPolls { PollRun(cfg, s, es); }
      assert PollsBounded(cfg, s, cfg.maxPolls);
    } else {
      forall n: nat ensures !PollsBounded(cfg, s, n) {
        UncappedPolls(cfg, s, n + 1);
        assert Run(cfg, s, QuietTurns(n + 1)).polls > n;
      }
    }
  }

  // ---------------------------------------------------------------- what counts as a poll

  /** A settlement poll of a pay is counted unless it contradicts, or a contradiction stands unanswered. */
  lemma CountedPayPoll(cfg: Config, op: Op, c: Replies)
    requires op.cur == PayAwaitingSettlement && PayAwait(cfg, op, c).Move? && PayAwait(cfg, op, c).park
    ensures var ev := AuthorizedPayState(c.list.ledger, op.rec.terms.hash, op.rec.terms.maxCredit);
            PayAwait(cfg, op, c).counted <==> ev.Evidence? || (ev.NoEvidence? && op.rec.lastError == NoError)
  {
  }

  // ---------------------------------------------------------------- receives

  /** The server itself ended the operation, in some ledger read so far. */
  predicate ServerEnded(log: seq<Entry>, serverOpId: string) {
    exists i :: 0 <= i < |log| && log[i].SawLedger?
                && ServerOpState(log[i].ledger, serverOpId).Some?
                && TerminalFailure(ServerOpState(log[i].ledger, serverOpId).value)
  }

  predicate ReceiveFailure(rec: Record, log: seq<Entry>) {
    rec.lastError.ReceiveCreateEnded? || rec.lastError.ReceiveNoInvoice? || ServerEnded(log, rec.serverOpId)
  }

  predicate ReceiveInv(s: Sys) {
    && Inv(s) && s.row.rec.id.kind == Receive
    && (RowState(s.row) == Failed ==> ReceiveFailure(s.row.rec, s.log))
    && (s.mem.Committing? && s.mem.op.cur == Failed ==> ReceiveFailure(s.mem.op.rec, s.log))
  }

  lemma FailureAppend(rec: Record, log: seq<Entry>, more: seq<Entry>)
    requires ReceiveFailure(rec, log) || ServerEnded(more, rec.serverOpId)
    ensures ReceiveFailure(rec, log + more)
  {
    if ServerEnded(log, rec.serverOpId) {
      var i :| 0 <= i < |log| && log[i].SawLedger? && ServerOpState(log[i].ledger, rec.serverOpId).Some?
               && TerminalFailure(ServerOpState(log[i].ledger, rec.serverOpId).value);
      assert (log + more)[i] == log[i];
    } else if ServerEnded(more, rec.serverOpId) {
      var i :| 0 <= i < |more| && more[i].SawLedger? && ServerOpState(more[i].ledger, rec.serverOpId).Some?
               && TerminalFailure(ServerOpState(more[i].ledger, rec.serverOpId).value);
      assert (log + more)[|log| + i] == more[i];
    }
  }

  lemma ReceiveSteps(cfg: Config, op: Op, d: Daemon, c: Replies)
    requires Synced(op) && !Terminal(op.cur) && op.rec.id.kind == Receive
    ensures var r := Process(cfg, op, d, c);
            r.trans.Move? && r.trans.next == Failed ==> ReceiveFailure(r.trans.op.rec, r.entries)
  {
    if op.cur == AwaitingSettlement {
      assert SawIfRead(c) != [] ==> SawIfRead(c)[0] == SawLedger(c.list.ledger);
    }
  }

  lemma ReceiveTake(s: Sys, r: Driven, w: Write)
    requires ReceiveInv(s) && s.mem.Driving? && Climbs(s.mem.op, r.trans)
    requires r.trans.Move? && r.trans.next == Failed ==> ReceiveFailure(r.trans.op.rec, r.entries)
    ensures ReceiveInv(Take(s, s.mem.op, r, w))
  {
    InvTake(s, r, w);
    if r.trans.Move? && r.trans.next == Failed {
      FailureAppend(r.trans.op.rec, s.log, r.entries);
    }
  }

  lemma ReceiveOther(cfg: Config, s: Sys, e: Event)
    requires ReceiveInv(s) && Modern(s) && !e.Drive?
    ensures ReceiveInv(Next(cfg, s, e))
  {
    InvNext(cfg, s, e);
    if e.Commit? && s.mem.Committing? && s.mem.op.cur == Failed {
      FailureAppend(s.mem.op.rec, s.log, [Wrote(Persist(s.mem.op))]);
    }
  }

  /**
   * In every run a receive is durably failed only by the server: a create that ended or
   * carried no invoice, or a ledger that reports its operation failed, expired or
   * released. No poll count fails it.
   */
  lemma {:induction false} ReceiveFailsOnlyByServer(cfg: Config, s: Sys, es: seq<Event>)
    requires Admitted(s) && s.row.rec.id.kind == Receive
    ensures var t := Run(cfg, s, es);
            && ReceiveInv(t) && Modern(t)
            && (RowState(t.row) == Failed ==> ReceiveFailure(t.row.rec, t.log))
    decreases |es|
  {
    if es != [] {
      var mid := Run(cfg, s, es[..|es| - 1]);
      var e := es[|es| - 1];
      ReceiveFailsOnlyByServer(cfg, s, es[..|es| - 1]);
      ModernNext(cfg, mid, e);
      if !e.Drive? {
        ReceiveOther(cfg, mid, e);
      } else if mid.mem.Driving? {
        StepClimbs(cfg, mid.mem.op, mid.daemon, e.c);
        ReceiveSteps(cfg, mid.mem.op, mid.daemon, e.c);
        ReceiveTake(mid, Process(cfg, mid.mem.op, mid.daemon, e.c), e.w);
      }
    }
  }
}
