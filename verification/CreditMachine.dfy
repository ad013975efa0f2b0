/**
 * One credit operation as a transition system.
 *
 * `Process` is one state's ProcessEvent: it takes the in-memory operation and the
 * replies of the server and the daemon, and says where the FSM goes. `Next` adds
 * the durable row, Stage and Commit writes that may fail with or without having
 * landed, message redelivery, crashes, respawns and the boot repair.
 */
module CreditMachine {
  import opened Basics
  import opened CreditTypes

  /** maxPolls 0 means unlimited. */
  datatype Config = Config(maxPolls: Uint32, autoRedeem: bool, minRedeem: nat)

  /** The in-memory side of an operation: its record plus the resume fields. */
  datatype Op = Op(
    rec: Record,
    script: Bytes,
    memo: Bytes,
    creditOnly: bool,
    polls: Uint32,
    cur: State,
    corrupt: bool)

  // ---------------------------------------------------------------- environment

  datatype Code =
    | Canceled | Unknown | InvalidArgument | DeadlineExceeded | NotFound | AlreadyExists
    | PermissionDenied | ResourceExhausted | FailedPrecondition | Aborted | OutOfRange
    | Unimplemented | Internal | Unavailable | DataLoss | Unauthenticated

  predicate FundingAdmissionRejected(code: Code) { code.ResourceExhausted? || code.Aborted? || code.OutOfRange? }

  datatype CreateReply =
    | CreateRejected(text: string)
    | CreateFailed
    | CreateOk(opId: string, state: ServerState, invoice: string, hash: Bytes, dest: Bytes)

  /** An error that is not an admission rejection may come after the transfer was bound to a session. */
  datatype SendReply =
    | SendOk(session: string)
    | SendError(code: Code, text: string, bound: Option<string>)

  datatype ProbeReply = ProbeAnswered | ProbeError(code: Code)

  datatype StartReply = StartOk | StartRejected(text: string) | StartFailed

  datatype ListReply = ListFailed | ListOk(ledger: Option<Ledger>)

  datatype AllocReply = AllocFailed | AllocOk(pub: Bytes, script: Bytes)

  datatype RedeemReply =
    | RedeemRefused(text: string)
    | RedeemError
    | RedeemOk(opId: string, state: ServerState)

  datatype FindReply = FindFailed | FindOk(found: bool, amount: nat)

  datatype EarmarkReply = NoProvider | EarmarkFailed | Earmarked(sat: nat)

  /** Every reply one FSM step may need; each state reads the ones it asks for. */
  datatype Replies = Replies(
    acctOk: bool,
    create: CreateReply,
    send: SendReply,
    probe: ProbeReply,
    start: StartReply,
    list: ListReply,
    alloc: AllocReply,
    redeem: RedeemReply,
    find: FindReply,
    earmark: EarmarkReply,
    floor: Option<nat>)

  datatype Transfer = Transfer(dest: Bytes, amount: nat, session: string)

  /** The OOR transfers the daemon holds, by idempotency key. */
  type Daemon = map<string, Transfer>

  /** Binding a key is idempotent: the first transfer wins. */
  function Bind(d: Daemon, key: string, t: Transfer): Daemon {
    if key in d then d else d[key := t]
  }

  /** Calls issued and durable writes landed, in order. */
  datatype Entry =
    | CalledCreate(source: Source, key: string, amount: nat)
    | CalledSend(dest: Bytes, amount: nat, key: string, existingOnly: bool)
    | CalledStart(invoice: string, maxFee: nat, maxCredit: nat)
    | CalledRedeem(key: string, amount: nat, dest: Bytes)
    | SawLedger(ledger: Option<Ledger>)
    | Allocated(pub: Bytes, script: Bytes)
    | LookedFor(script: Bytes)
    | Wrote(row: Row)

  // ---------------------------------------------------------------- ledger reads

  function FirstById(ops: seq<ServerOp>, id: string): Option<ServerState> {
    if ops == [] then None
    else if ops[0].opId == id then Some(ops[0].state)
    else FirstById(ops[1..], id)
  }

  function ServerOpState(ledger: Option<Ledger>, id: string): Option<ServerState> {
    if ledger.None? || id == "" then None else FirstById(ledger.value.ops, id)
  }

  datatype PayEvidence = NoEvidence | Evidence(state: ServerState) | Contradiction(text: string)

  /** The states in which a pay must hold an amount. */
  predicate HoldsCredit(s: ServerState) { s.Debited? || s.Reserved? || s.PayingLightning? }

  function FirstPayEvidence(ops: seq<ServerOp>, hash: Bytes, cap: nat): PayEvidence {
    if ops == [] then NoEvidence
    else if ops[0].hash != hash then FirstPayEvidence(ops[1..], hash, cap)
    else if TerminalFailure(ops[0].state) then Evidence(ops[0].state)
    else if ops[0].amount == 0 && HoldsCredit(ops[0].state) then
      Contradiction("credit operation " + ops[0].opId + " missing amount")
    else if ops[0].amount > cap then
      Contradiction("credit operation " + ops[0].opId + " exceeds max_credit_sat")
    else Evidence(ops[0].state)
  }

  function AuthorizedPayState(ledger: Option<Ledger>, hash: Bytes, cap: nat): PayEvidence {
    if ledger.None? || hash == [] then NoEvidence
    else FirstPayEvidence(ledger.value.ops, hash, cap)
  }

  /** Operation i is the first under the hash; it is debited, within the cap. */
  predicate DebitAt(ops: seq<ServerOp>, i: nat, hash: Bytes, cap: nat) {
    && i < |ops| && ops[i].hash == hash && ops[i].state == Debited && 0 < ops[i].amount <= cap
    && forall j :: 0 <= j < i ==> ops[j].hash != hash
  }

  /** A ledger that proves the pay: the first operation under the hash is debited, within the cap. */
  ghost predicate ProvesDebit(ledger: Option<Ledger>, hash: Bytes, cap: nat) {
    ledger.Some? && exists i: nat :: DebitAt(ledger.value.ops, i, hash, cap)
  }

  /** authorizedPayState reports DEBITED exactly on such a ledger. */
  lemma {:induction false} DebitedMeansProven(ledger: Option<Ledger>, hash: Bytes, cap: nat)
    ensures AuthorizedPayState(ledger, hash, cap) == Evidence(Debited) <==> hash != [] && ProvesDebit(ledger, hash, cap)
  {
    if ledger.Some? && hash != [] {
      FirstDebit(ledger.value.ops, hash, cap);
    }
  }

  lemma {:induction false} FirstDebit(ops: seq<ServerOp>, hash: Bytes, cap: nat)
    ensures FirstPayEvidence(ops, hash, cap) == Evidence(Debited) <==> ProvesDebit(Some(Ledger(0, ops)), hash, cap)
  {
    if ops != [] {
      FirstDebit(ops[1..], hash, cap);
      if ops[0].hash != hash {
        forall i: nat ensures DebitAt(ops[1..], i, hash, cap) <==> DebitAt(ops, i + 1, hash, cap) {
          DebitShifts(ops, i, hash, cap);
        }
        if ProvesDebit(Some(Ledger(0, ops)), hash, cap) {
          var i: nat :| DebitAt(ops, i, hash, cap);
          assert i > 0;
          assert DebitAt(ops[1..], i - 1, hash, cap);
        }
      } else {
        assert DebitAt(ops, 0, hash, cap) <==> ops[0].state == Debited && 0 < ops[0].amount <= cap;
      }
    }
  }

  lemma DebitShifts(ops: seq<ServerOp>, i: nat, hash: Bytes, cap: nat)
    requires ops != [] && ops[0].hash != hash
    ensures DebitAt(ops[1..], i, hash, cap) <==> DebitAt(ops, i + 1, hash, cap)
  {
    if DebitAt(ops[1..], i, hash, cap) {
      forall j | 0 <= j < i + 1 ensures ops[j].hash != hash {
        if j > 0 { assert ops[j] == ops[1..][j - 1]; }
      }
    }
    if DebitAt(ops, i + 1, hash, cap) {
      forall j | 0 <= j < i ensures ops[1..][j].hash != hash { assert ops[1..][j] == ops[j + 1]; }
    }
  }

  // ---------------------------------------------------------------- one FSM step

  /** Fault is a returned error; Move is a transition with its outbox. */
  datatype Trans =
    | Fault
    | Move(op: Op, next: State, stage: bool, park: bool, counted: bool, redeem: Option<nat>)

  datatype Driven = Driven(trans: Trans, entries: seq<Entry>, daemon: Daemon)

  function Advance(op: Op, next: State): Trans { Move(op, next, false, false, false, None) }

  function Staged(op: Op, next: State): Trans { Move(op, next, true, false, false, None) }

  function Parked(op: Op): Trans { Move(op, op.cur, false, true, false, None) }

  function Fail(op: Op, reason: Reason): Trans {
    Advance(op.(rec := op.rec.(lastError := reason)), Failed)
  }

  /** awaitExhausted increments a 32-bit counter. */
  function Bump(polls: Uint32): Uint32 { if polls == TWO_32 - 1 then 0 else polls + 1 }

  predicate Exhausted(cfg: Config, polls: Uint32) { 0 < cfg.maxPolls < polls }

  /** The tail of a capped awaiting state: count the poll, then fail or park. */
  function CountPoll(cfg: Config, op: Op, reason: Reason): Trans {
    var counted := op.(polls := Bump(op.polls));
    if Exhausted(cfg, counted.polls) then Fail(counted, reason)
    else Parked(counted).(counted := true)
  }

  /** redeemWatermarkCleared: the balance to redeem, or None. */
  function Watermark(cfg: Config, ledger: Option<Ledger>, earmark: EarmarkReply, floor: Option<nat>): Option<nat> {
    if !cfg.autoRedeem || ledger.None? || earmark.EarmarkFailed? then None
    else
      var available := match earmark
        case Earmarked(sat) => if sat >= ledger.value.available then 0 else ledger.value.available - sat
        case _ => ledger.value.available;
      if available < cfg.minRedeem then None
      else if floor.None? || floor.value == 0 then None
      else if available < (if cfg.minRedeem > floor.value then cfg.minRedeem else floor.value) then None
      else Some(available)
  }

  /** A trigger never exceeds what is free of earmarks and always clears both the watermark and a live floor. */
  lemma TriggerIsSafe(cfg: Config, ledger: Option<Ledger>, earmark: EarmarkReply, floor: Option<nat>)
    ensures var t := Watermark(cfg, ledger, earmark, floor);
            var free := if ledger.None? then 0 else
                        if earmark.Earmarked? then ledger.value.available - earmark.sat else ledger.value.available;
            t.Some? <==> cfg.autoRedeem && ledger.Some? && !earmark.EarmarkFailed? && floor.Some?
                         && 0 < floor.value <= free && cfg.minRedeem <= free
    ensures var t := Watermark(cfg, ledger, earmark, floor);
            t.Some? ==>
              0 < t.value && t.value + (if earmark.Earmarked? then earmark.sat else 0) == ledger.value.available
  {
  }

  function TopupCreate(op: Op, d: Daemon, c: Replies): Driven {
    if !c.acctOk then Driven(Fault, [], d)
    else
      var log := [CalledCreate(ArkTopUp, op.rec.id.opKey, op.rec.terms.topup)];
      Driven(
        match c.create
        case CreateRejected(t) => Fail(op, TopupRejected(t))
        case CreateFailed => Fault
        case CreateOk(id, s, _, _, dest) =>
          if TerminalFailure(s) then Fail(op, TopupCreateEnded(s))
          else if dest == [] then Fail(op, TopupNoDestination)
          else Staged(op.(rec := op.rec.(serverOpId := id, destination := dest)), TopupFunding),
        log, d)
  }

  function TopupFund(op: Op, d: Daemon, c: Replies): Driven {
    var r := op.rec;
    var sent := CalledSend(r.destination, r.terms.topup, r.id.opKey, false);
    match c.send
    case SendOk(session) =>
      var d' := Bind(d, r.id.opKey, Transfer(r.destination, r.terms.topup, session));
      Driven(Staged(op.(rec := r.(oorSession := d'[r.id.opKey].session)), TopupAwaitingCredit), [sent], d')
    case SendError(code, text, bound) =>
      if !FundingAdmissionRejected(code) then
        Driven(Fault, [sent],
               if bound.Some? then Bind(d, r.id.opKey, Transfer(r.destination, r.terms.topup, bound.value)) else d)
      else
        // Refused before any input was selected: probe for an earlier accepted send.
        var log := [sent, CalledSend(r.destination, r.terms.topup, r.id.opKey, true)];
        if c.probe.ProbeError? && c.probe.code != NotFound then Driven(Fault, log, d)
        else if r.id.opKey !in d then Driven(Fail(op, FundRejected(text)), log, d)
        else Driven(Staged(op.(rec := r.(oorSession := d[r.id.opKey].session)), TopupAwaitingCredit), log, d)
  }

  function TopupAwait(cfg: Config, op: Op, c: Replies): Trans {
    if !c.acctOk || c.list.ListFailed? then Fault
    else
      var s := ServerOpState(c.list.ledger, op.rec.serverOpId);
      if s.Some? && TerminalFailure(s.value) then Fail(op, TopupFundingEnded(s.value))
      else if s == Some(Credited) then Advance(op, Paying)
      else CountPoll(cfg, op, TopupPollCap)
  }

  function StartPay(op: Op, c: Replies): Trans {
    match c.start
    case StartRejected(t) => Fail(op, PayRejected(t))
    case StartFailed => Fault
    case StartOk =>
      if op.creditOnly && op.rec.terms.hash != [] then Staged(op, PayAwaitingSettlement)
      else Advance(op, Completed)
  }

  function PayAwait(cfg: Config, op: Op, c: Replies): Trans {
    if !c.acctOk || c.list.ListFailed? then Fault
    else
      var ev := AuthorizedPayState(c.list.ledger, op.rec.terms.hash, op.rec.terms.maxCredit);
      if ev.Contradiction? then Parked(op.(rec := op.rec.(lastError := PayIntervention(ev.text))))
      else if ev.NoEvidence? && op.rec.lastError != NoError then Parked(op)
      else
        var clean := op.(rec := op.rec.(lastError := NoError));
        if ev == Evidence(Debited) then Advance(clean, Completed)
        else if ev.Evidence? && TerminalFailure(ev.state) then Fail(clean, PayEnded(ev.state))
        else CountPoll(cfg, clean, PayPollCap)
  }

  function ReceiveCreate(op: Op, c: Replies): Trans {
    match c.create
    case CreateRejected(_) => Fault
    case CreateFailed => Fault
    case CreateOk(id, s, invoice, hash, _) =>
      if TerminalFailure(s) then Fail(op, ReceiveCreateEnded(s))
      else if invoice == "" then Fail(op, ReceiveNoInvoice)
      else
        var terms := op.rec.terms.(invoice := invoice, hash := if hash != [] then hash else op.rec.terms.hash);
        Staged(op.(rec := op.rec.(serverOpId := id, terms := terms)), AwaitingSettlement)
  }

  function ReceiveAwait(cfg: Config, op: Op, c: Replies): Trans {
    if !c.acctOk || c.list.ListFailed? then Fault
    else
      var s := ServerOpState(c.list.ledger, op.rec.serverOpId);
      if s.Some? && TerminalFailure(s.value) then Fail(op, ReceiveFundingEnded(s.value))
      else if s == Some(Credited) then
        Advance(op, Completed).(redeem := Watermark(cfg, c.list.ledger, c.earmark, c.floor))
      else Parked(op)
  }

  function RedeemReserve(op: Op, d: Daemon, c: Replies): Driven {
    if op.rec.destination != [] && op.script != [] then Driven(Advance(op, RedeemSubmitting), [], d)
    else
      match c.alloc
      case AllocFailed => Driven(Fault, [], d)
      case AllocOk(pub, script) =>
        if pub == [] || script == [] then Driven(Fail(op, RedeemEmptyDestination), [], d)
        else
          Driven(
            Staged(op.(rec := op.rec.(destination := pub), script := script), RedeemSubmitting),
            [Allocated(pub, script)], d)
  }

  function RedeemSubmit(op: Op, d: Daemon, c: Replies): Driven {
    if !c.acctOk then Driven(Fault, [], d)
    else
      var log := [CalledRedeem(op.rec.id.opKey, op.rec.terms.amount, op.rec.destination)];
      Driven(
        match c.redeem
        case RedeemRefused(t) => Fail(op, RedeemRejected(t))
        case RedeemError => Fault
        case RedeemOk(id, s) =>
          if TerminalFailure(s) then Fail(op, RedeemEnded(s))
          else Staged(op.(rec := op.rec.(serverOpId := id)), AwaitingOOR),
        log, d)
  }

  function RedeemAwait(cfg: Config, op: Op, d: Daemon, c: Replies): Driven {
    if !c.acctOk || c.list.ListFailed? then Driven(Fault, [], d)
    else
      var s := ServerOpState(c.list.ledger, op.rec.serverOpId);
      var saw := SawLedger(c.list.ledger);
      if s.Some? && TerminalFailure(s.value) then Driven(Fail(op, RedeemEnded(s.value)), [saw], d)
      else
        var log := [saw, LookedFor(op.script)];
        match c.find
        case FindFailed => Driven(Fault, log, d)
        case FindOk(found, amount) =>
          if found && amount > 0 then
            Driven(Advance(op.(rec := op.rec.(terms := op.rec.terms.(amount := amount))), Completed), log, d)
          else Driven(CountPoll(cfg, op, RedeemPollCap), log, d)
  }

  function SawIfRead(c: Replies): seq<Entry> {
    if c.acctOk && c.list.ListOk? then [SawLedger(c.list.ledger)] else []
  }

  /** ProcessEvent of the operation's current state. */
  function Process(cfg: Config, op: Op, d: Daemon, c: Replies): Driven {
    match op.cur
    case Quoting => Driven(Advance(op, if op.rec.terms.topup == 0 then Paying else TopupCreating), [], d)
    case TopupCreating => TopupCreate(op, d, c)
    case TopupFunding => TopupFund(op, d, c)
    case TopupAwaitingCredit => Driven(TopupAwait(cfg, op, c), SawIfRead(c), d)
    case Paying =>
      Driven(StartPay(op, c), [CalledStart(op.rec.terms.invoice, op.rec.terms.maxFee, op.rec.terms.maxCredit)], d)
    case PayAwaitingSettlement => Driven(PayAwait(cfg, op, c), SawIfRead(c), d)
    case ReceiveCreating =>
      if !c.acctOk then Driven(Fault, [], d)
      else Driven(ReceiveCreate(op, c), [CalledCreate(LightningReceive, op.rec.id.opKey, op.rec.terms.amount)], d)
    case AwaitingSettlement => Driven(ReceiveAwait(cfg, op, c), SawIfRead(c), d)
    case RedeemReserving => RedeemReserve(op, d, c)
    case RedeemSubmitting => RedeemSubmit(op, d, c)
    case AwaitingOOR => RedeemAwait(cfg, op, d, c)
    case Completed => Driven(Advance(op, Completed), [], d)
    case Failed => Driven(Advance(op, Failed), [], d)
  }

  /** applyState: mirror the next state onto the record; a different state resets the poll count. */
  function ApplyState(op: Op, next: State): Op {
    op.(polls := if op.rec.state == Known(next) then op.polls else 0,
        rec := op.rec.(state := Known(next), status := StatusOf(next)),
        cur := next)
  }

  // ---------------------------------------------------------------- durable rows

  function Persist(op: Op): Row { Row(op.rec, Some(Snapshot(op.script, op.memo, op.creditOnly, op.polls))) }

  /** restore: None when the blob does not decode. */
  function Restore(row: Row): Option<Op> {
    if row.blob.None? then None
    else
      var s := row.blob.value;
      var known := row.rec.state.Known?;
      Some(Op(row.rec, s.script, s.memo, s.creditOnly, s.polls, if known then row.rec.state.state else Failed, !known))
  }

  /** What is persisted is what a later turn resumes with. */
  lemma PersistRestores(op: Op)
    requires op.rec.state == Known(op.cur) && !op.corrupt
    ensures Restore(Persist(op)) == Some(op)
  {
  }

  /** failCorrupt. */
  function FailCorrupt(op: Op): Op {
    ApplyState(op.(rec := op.rec.(lastError := CorruptState(ColumnText(op.rec.state)))), Failed).(corrupt := false)
  }

  // ---------------------------------------------------------------- boot repair

  predicate LegacyFailure(rec: Record) {
    && rec.id.kind == Receive
    && rec.state == Known(Failed)
    && rec.status == StatusFailed
    && rec.serverOpId != ""
    && rec.lastError == LegacyReceivePollCap
  }

  /** repairLegacyReceiveRecord: None when the row is left alone. */
  function Repaired(row: Row, server: ServerState): Option<Row> {
    match server
    case Created => Reopened(row)
    case AwaitingPayment => Reopened(row)
    case Credited =>
      Some(row.(rec := row.rec.(state := Known(Completed), status := StatusCompleted, lastError := NoError)))
    case Expired => Some(row.(rec := row.rec.(lastError := ReceiveFundingEnded(server))))
    case ServerFailed => Some(row.(rec := row.rec.(lastError := ReceiveFundingEnded(server))))
    case Released => Some(row.(rec := row.rec.(lastError := ReceiveFundingEnded(server))))
    case _ => None
  }

  function Reopened(row: Row): Option<Row> {
    if row.blob.None? then None
    else Some(Row(row.rec.(state := Known(AwaitingSettlement), status := StatusPending, lastError := NoError),
                  Some(row.blob.value.(polls := 0))))
  }

  // ---------------------------------------------------------------- runs

  datatype Mem =
    | Gone
    | Idle(op: Op, stale: bool)
    | Driving(op: Op)
    | Committing(op: Op, counted: bool)

  /** polls counts the committed polls of the row's current state; log is the history. */
  datatype Sys = Sys(row: Row, mem: Mem, daemon: Daemon, log: seq<Entry>, polls: nat)

  datatype Write = Landed | FailedLanded | FailedLost

  datatype Event =
    | Spawn
    | Deliver(reloadOk: bool)
    | Drive(c: Replies, w: Write)
    | Commit(w: Write)
    | Crash
    | Repair(server: ServerState, superseded: bool)

  function Store(s: Sys, op: Op, counted: bool): Sys {
    var row := Persist(op);
    s.(row := row, log := s.log + [Wrote(row)],
       polls := if row.rec.state != s.row.rec.state then 0 else if counted then s.polls + 1 else s.polls)
  }

  function Dispatch(s: Sys, op: Op): Sys {
    s.(mem := if op.corrupt then Committing(FailCorrupt(op), false)
              else if Terminal(op.cur) then Committing(op, false)
              else Driving(op))
  }

  /** One turn of the runFSM loop, given what ProcessEvent returned. */
  function Take(s: Sys, op: Op, r: Driven, w: Write): Sys {
    var s1 := s.(log := s.log + r.entries, daemon := r.daemon);
    match r.trans
    case Fault => s1.(mem := Idle(op, true))
    case Move(op1, next, stage, park, counted, _) =>
      var op2 := ApplyState(op1, next);
      var s2 := if stage && w != FailedLost then Store(s1, op2, false) else s1;
      s2.(mem := if stage && w != Landed then Idle(op2, true)
                 else if park || Terminal(next) then Committing(op2, counted)
                 else Driving(op2))
  }

  /** One event; an event that does not apply in this state changes nothing. */
  function Next(cfg: Config, s: Sys, e: Event): Sys {
    match e
    case Spawn =>
      if s.mem.Gone? && !TerminalStatus(s.row.rec.status) && Restore(s.row).Some?
      then s.(mem := Idle(Restore(s.row).value, false)) else s
    case Deliver(reloadOk) =>
      if !s.mem.Idle? then s
      else if !s.mem.stale then Dispatch(s, s.mem.op)
      else if reloadOk && Restore(s.row).Some? then Dispatch(s, Restore(s.row).value)
      else s
    case Drive(c, w) => if s.mem.Driving? then Take(s, s.mem.op, Process(cfg, s.mem.op, s.daemon, c), w) else s
    case Commit(w) =>
      if !s.mem.Committing? then s
      else
        var s1 := if w == FailedLost then s else Store(s, s.mem.op, s.mem.counted);
        s1.(mem := Idle(s.mem.op, w != Landed))
    case Crash => s.(mem := Gone)
    case Repair(server, superseded) =>
      if !s.mem.Gone? || !LegacyFailure(s.row.rec) || Repaired(s.row, server).None? then s
      else
        var fixed := Repaired(s.row, server).value;
        var row := if superseded && fixed.rec.status != StatusFailed
                   then s.row.(rec := s.row.rec.(lastError := Superseded(server))) else fixed;
        s.(row := row, log := s.log + [Wrote(row)], polls := 0)
  }

  function Run(cfg: Config, s: Sys, es: seq<Event>): Sys {
    if es == [] then s else Next(cfg, Run(cfg, s, es[..|es| - 1]), es[|es| - 1])
  }

  /** Runs compose. */
  lemma {:induction false} RunConcat(cfg: Config, s: Sys, es: seq<Event>, fs: seq<Event>)
    ensures Run(cfg, s, es + fs) == Run(cfg, Run(cfg, s, es), fs)
    decreases |fs|
  {
    if fs == [] {
      assert es + fs == es;
    } else {
      assert (es + fs)[..|es + fs| - 1] == es + fs[..|fs| - 1];
      RunConcat(cfg, s, es, fs[..|fs| - 1]);
    }
  }
}
