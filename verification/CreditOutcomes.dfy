/**
 * What each state does with what it is told: the call it makes and the row or the next
 * state one turn leaves behind, for every reply. Ledger readings are stated on the
 * server's operations themselves.
 */
module CreditOutcomes {
  import opened Basics
  import opened CreditTypes
  import opened CreditMachine
  import opened CreditRuns

  // ---------------------------------------------------------------- readings

  /** The operations a ledger read returned, if it returned; a missing snapshot lists none. */
  function OpsRead(c: Replies): Option<seq<ServerOp>> {
    if !c.acctOk || c.list.ListFailed? then None
    else if c.list.ledger.None? then Some([])
    else Some(c.list.ledger.value.ops)
  }

  /** Operation i is the first with the given id. */
  predicate FirstOp(ops: seq<ServerOp>, i: nat, id: string) {
    i < |ops| && ops[i].opId == id && forall j :: 0 <= j < i ==> ops[j].opId != id
  }

  /** Operation i is the first under the given payment hash. */
  predicate FirstUnder(ops: seq<ServerOp>, i: nat, hash: Bytes) {
    i < |ops| && ops[i].hash == hash && forall j :: 0 <= j < i ==> ops[j].hash != hash
  }

  predicate Ended(s: ServerState) { s.ServerFailed? || s.Expired? || s.Released? }

  lemma {:induction false} FirstByIdFinds(ops: seq<ServerOp>, i: nat, id: string)
    requires FirstOp(ops, i, id)
    ensures FirstById(ops, id) == Some(ops[i].state)
  {
    if i > 0 {
      assert forall j :: 0 <= j < i - 1 ==> ops[1..][j] == ops[j + 1];
      FirstByIdFinds(ops[1..], i - 1, id);
    }
  }

  lemma {:induction false} FirstByIdMisses(ops: seq<ServerOp>, id: string)
    requires forall j :: 0 <= j < |ops| ==> ops[j].opId != id
    ensures FirstById(ops, id).None?
  {
    if ops != [] {
      FirstByIdMisses(ops[1..], id);
    }
  }

  /** A pay reads the first operation under its hash; an amount it may not hold contradicts it. */
  predicate Contradicts(op: ServerOp, cap: nat) {
    && !Ended(op.state)
    && (op.amount > cap ||
        (op.amount == 0 && (op.state.Debited? || op.state.Reserved? || op.state.PayingLightning?)))
  }

  /** What is recorded of a contradiction. */
  function Objection(op: ServerOp): string {
    "credit operation " + op.opId + if op.amount == 0 then " missing amount" else " exceeds max_credit_sat"
  }

  lemma {:induction false} FirstEvidence(ops: seq<ServerOp>, i: nat, hash: Bytes, cap: nat)
    requires FirstUnder(ops, i, hash)
    ensures var ev := FirstPayEvidence(ops, hash, cap);
            if Contradicts(ops[i], cap) then ev == Contradiction(Objection(ops[i])) else ev == Evidence(ops[i].state)
  {
    if i > 0 {
      assert forall j :: 0 <= j < i - 1 ==> ops[1..][j] == ops[j + 1];
      FirstEvidence(ops[1..], i - 1, hash, cap);
    }
  }

  lemma {:induction false} NoEvidenceFound(ops: seq<ServerOp>, hash: Bytes, cap: nat)
    requires forall j :: 0 <= j < |ops| ==> ops[j].hash != hash
    ensures FirstPayEvidence(ops, hash, cap).NoEvidence?
  {
    if ops != [] {
      NoEvidenceFound(ops[1..], hash, cap);
    }
  }

  // ---------------------------------------------------------------- one turn

  /** A driven step whose writes land, and the commit of the turn if it is the last step. */
  function Turn(cfg: Config, s: Sys, c: Replies): Sys {
    Next(cfg, Next(cfg, s, Drive(c, Landed)), Commit(Landed))
  }

  /** The operation is being driven in the given state. */
  predicate At(s: Sys, cur: State) { Inv(s) && s.mem.Driving? && s.mem.op.cur == cur }

  /** The row of a driven operation: this record, with the operation's other resume fields and a poll count. */
  function RowWith(op: Op, rec: Record, polls: Uint32): Row {
    Row(rec, Some(Snapshot(op.script, op.memo, op.creditOnly, polls)))
  }

  /** The turn is over: the row is the given one, the calls are logged before it, and the message is consumed. */
  predicate Leaves(s: Sys, t: Sys, row: Row, calls: seq<Entry>) {
    t.row == row && t.log == s.log + calls + [Wrote(row)] && t.mem.Idle? && !t.mem.stale && t.daemon == s.daemon
  }

  /** The step staged the given row and the operation is driven on in its state. */
  predicate Stages(s: Sys, t: Sys, row: Row, calls: seq<Entry>) {
    && t.row == row && t.log == s.log + calls + [Wrote(row)]
    && t.mem.Driving? && Restore(row) == Some(t.mem.op)
  }

  /** The turn returned an error: nothing is written and the next one reloads the row. */
  predicate Faults(s: Sys, t: Sys, calls: seq<Entry>) {
    t.row == s.row && t.log == s.log + calls && t.mem.Idle? && t.mem.stale
  }

  function AsCompleted(rec: Record): Record { rec.(state := Known(Completed), status := StatusCompleted) }

  function AsFailed(rec: Record, why: Reason): Record {
    rec.(state := Known(Failed), status := StatusFailed, lastError := why)
  }

  function Pending(rec: Record, state: State): Record { rec.(state := Known(state), status := StatusPending) }

  /** A step that ends the turn, given what ProcessEvent returned. */
  lemma EndsTurn(cfg: Config, s: Sys, r: Driven)
    requires s.mem.Driving? && r.trans.Move? && !r.trans.stage && (r.trans.park || Terminal(r.trans.next))
    requires r.daemon == s.daemon
    ensures var op, t := ApplyState(r.trans.op, r.trans.next), Next(cfg, Take(s, s.mem.op, r, Landed), Commit(Landed));
            && Leaves(s, t, Persist(op), r.entries)
            && (op.rec.state == s.row.rec.state && !r.trans.counted ==> t.polls == s.polls)
  {
  }

  lemma StagesRow(cfg: Config, s: Sys, r: Driven)
    requires s.mem.Driving? && r.trans.Move? && r.trans.stage && !r.trans.park && !Terminal(r.trans.next)
    requires !r.trans.op.corrupt
    ensures var op, t := ApplyState(r.trans.op, r.trans.next), Next(cfg, Take(s, s.mem.op, r, Landed), Commit(Landed));
            Stages(s, t, Persist(op), r.entries) && t.daemon == r.daemon
  {
  }

  lemma FaultsTurn(cfg: Config, s: Sys, r: Driven)
    requires s.mem.Driving? && r.trans.Fault?
    ensures var t := Next(cfg, Take(s, s.mem.op, r, Landed), Commit(Landed));
            Faults(s, t, r.entries) && t.daemon == r.daemon
  {
  }

  // ---------------------------------------------------------------- pays

  /** A quote goes to the pay when no top-up is needed and to the top-up otherwise; no call, no write. */
  lemma QuoteDecides(cfg: Config, s: Sys, c: Replies)
    requires At(s, Quoting)
    ensures var t := Turn(cfg, s, c);
            && t.row == s.row && t.log == s.log && t.daemon == s.daemon && t.mem.Driving?
            && t.mem.op.cur == (if s.mem.op.rec.terms.topup == 0 then Paying else TopupCreating)
            && t.mem.op.rec.terms == s.mem.op.rec.terms
  {
  }

  /** A pay that is started is logged with its invoice, fee limit and credit limit, whatever the reply. */
  lemma StartDecides(cfg: Config, s: Sys, c: Replies)
    requires At(s, Paying)
    ensures var t, op := Turn(cfg, s, c), s.mem.op;
            var call := [CalledStart(op.rec.terms.invoice, op.rec.terms.maxFee, op.rec.terms.maxCredit)];
            match c.start
            case StartOk =>
              if op.creditOnly && op.rec.terms.hash != []
              then Stages(s, t, RowWith(op, Pending(op.rec, PayAwaitingSettlement), 0), call)
              else Leaves(s, t, RowWith(op, AsCompleted(op.rec), 0), call)
            case StartRejected(text) => Leaves(s, t, RowWith(op, AsFailed(op.rec, PayRejected(text)), 0), call)
            case StartFailed => Faults(s, t, call)
  {
    var r := Process(cfg, s.mem.op, s.daemon, c);
    match c.start
    case StartOk => if r.trans.stage { StagesRow(cfg, s, r); } else { EndsTurn(cfg, s, r); }
    case StartRejected(text) => EndsTurn(cfg, s, r);
    case StartFailed => FaultsTurn(cfg, s, r);
  }

  /** A settling pay reads the ledger; operation i is the first under its hash. */
  predicate Settling(s: Sys, c: Replies, i: nat) {
    && At(s, PayAwaitingSettlement) && s.mem.op.rec.terms.hash != []
    && OpsRead(c).Some? && FirstUnder(OpsRead(c).value, i, s.mem.op.rec.terms.hash)
  }

  lemma PayRead(s: Sys, c: Replies, i: nat)
    requires Settling(s, c, i)
    ensures var ev := AuthorizedPayState(c.list.ledger, s.mem.op.rec.terms.hash, s.mem.op.rec.terms.maxCredit);
            var x := OpsRead(c).value[i];
            if Contradicts(x, s.mem.op.rec.terms.maxCredit) then ev == Contradiction(Objection(x))
            else ev == Evidence(x.state)
  {
    FirstEvidence(OpsRead(c).value, i, s.mem.op.rec.terms.hash, s.mem.op.rec.terms.maxCredit);
  }

  /** A debit above zero and within the cap completes the pay and clears any error. */
  lemma DebitCompletes(cfg: Config, s: Sys, c: Replies, i: nat)
    requires Settling(s, c, i)
    requires OpsRead(c).value[i].state.Debited? && 0 < OpsRead(c).value[i].amount <= s.mem.op.rec.terms.maxCredit
    ensures var op := s.mem.op;
            Leaves(s, Turn(cfg, s, c), RowWith(op, AsCompleted(op.rec).(lastError := NoError), 0),
                   [SawLedger(c.list.ledger)])
  {
    PayRead(s, c, i);
    EndsTurn(cfg, s, Process(cfg, s.mem.op, s.daemon, c));
  }

  /** An operation the server ended fails the pay with that state, whatever its amount. */
  lemma EndedFailsPay(cfg: Config, s: Sys, c: Replies, i: nat)
    requires Settling(s, c, i) && Ended(OpsRead(c).value[i].state)
    ensures var op := s.mem.op;
            Leaves(s, Turn(cfg, s, c), RowWith(op, AsFailed(op.rec, PayEnded(OpsRead(c).value[i].state)), 0),
                   [SawLedger(c.list.ledger)])
  {
    PayRead(s, c, i);
    EndsTurn(cfg, s, Process(cfg, s.mem.op, s.daemon, c));
  }

  /** A contradiction is recorded and nothing else changes: the pay stays open and no poll is counted. */
  lemma ContradictionIsRecorded(cfg: Config, s: Sys, c: Replies, i: nat)
    requires Settling(s, c, i) && Contradicts(OpsRead(c).value[i], s.mem.op.rec.terms.maxCredit)
    ensures var t, op, why := Turn(cfg, s, c), s.mem.op, PayIntervention(Objection(OpsRead(c).value[i]));
            && t.polls == s.polls
            && Leaves(s, t, RowWith(op, op.rec.(lastError := why), op.polls), [SawLedger(c.list.ledger)])
  {
    PayRead(s, c, i);
    EndsTurn(cfg, s, Process(cfg, s.mem.op, s.daemon, c));
  }

  /** A reading that does not name the hash leaves a standing contradiction exactly as it is. */
  lemma UnseenKeepsContradiction(cfg: Config, s: Sys, c: Replies)
    requires At(s, PayAwaitingSettlement) && s.mem.op.rec.lastError != NoError && OpsRead(c).Some?
    requires forall j :: 0 <= j < |OpsRead(c).value| ==> OpsRead(c).value[j].hash != s.mem.op.rec.terms.hash
    ensures var op := s.mem.op;
            && Leaves(s, Turn(cfg, s, c), RowWith(op, op.rec, op.polls), [SawLedger(c.list.ledger)])
            && Turn(cfg, s, c).polls == s.polls
  {
    NoEvidenceFound(OpsRead(c).value, s.mem.op.rec.terms.hash, s.mem.op.rec.terms.maxCredit);
    EndsTurn(cfg, s, Process(cfg, s.mem.op, s.daemon, c));
  }

  // ---------------------------------------------------------------- commits that report failure

  /**
   * After a commit that reported failure the next delivery resumes from what is durable: the new
   * operation if the write landed after all, the one before the turn if it was lost.
   */
  lemma AmbiguousCommitResumes(cfg: Config, s: Sys, w: Write)
    requires Inv(s) && s.mem.Committing? && !w.Landed?
    requires s.mem.op.rec.state == Known(s.mem.op.cur) && !s.mem.op.corrupt
    requires s.row.rec.state.Known? && s.row.blob.Some?
    ensures var t := Next(cfg, Next(cfg, s, Commit(w)), Deliver(true));
            var op := if w.FailedLanded? then s.mem.op else Restore(s.row).value;
            && t.row == (if w.FailedLanded? then RowWith(op, op.rec, op.polls) else s.row)
            && t.mem == if Terminal(op.cur) then Committing(op, false) else Driving(op)
  {
    PersistRestores(s.mem.op);
  }

  // ---------------------------------------------------------------- top-ups

  /** What the server says of the operation this one waits for: operation i is the first with its id. */
  predicate Reading(s: Sys, cur: State, c: Replies, i: nat) {
    && At(s, cur) && s.mem.op.rec.serverOpId != ""
    && OpsRead(c).Some? && FirstOp(OpsRead(c).value, i, s.mem.op.rec.serverOpId)
  }

  /** The server lists no operation under the id. */
  predicate NotListed(s: Sys, cur: State, c: Replies) {
    && At(s, cur) && OpsRead(c).Some?
    && forall j :: 0 <= j < |OpsRead(c).value| ==> OpsRead(c).value[j].opId != s.mem.op.rec.serverOpId
  }

  lemma StateRead(s: Sys, cur: State, c: Replies, i: nat)
    requires Reading(s, cur, c, i)
    ensures ServerOpState(c.list.ledger, s.mem.op.rec.serverOpId) == Some(OpsRead(c).value[i].state)
  {
    FirstByIdFinds(OpsRead(c).value, i, s.mem.op.rec.serverOpId);
  }

  lemma StateMissing(s: Sys, cur: State, c: Replies)
    requires NotListed(s, cur, c)
    ensures ServerOpState(c.list.ledger, s.mem.op.rec.serverOpId).None?
  {
    FirstByIdMisses(OpsRead(c).value, s.mem.op.rec.serverOpId);
  }

  /** The top-up credit is created under the operation's key for the top-up amount; its reply decides. */
  lemma TopupCreateDecides(cfg: Config, s: Sys, c: Replies)
    requires At(s, TopupCreating)
    ensures var t, op := Turn(cfg, s, c), s.mem.op;
            var call := [CalledCreate(ArkTopUp, op.rec.id.opKey, op.rec.terms.topup)];
            if !c.acctOk then Faults(s, t, [])
            else match c.create
              case CreateRejected(text) => Leaves(s, t, RowWith(op, AsFailed(op.rec, TopupRejected(text)), 0), call)
              case CreateFailed => Faults(s, t, call)
              case CreateOk(id, st, _, _, dest) =>
                if Ended(st) then Leaves(s, t, RowWith(op, AsFailed(op.rec, TopupCreateEnded(st)), 0), call)
                else if dest == [] then Leaves(s, t, RowWith(op, AsFailed(op.rec, TopupNoDestination), 0), call)
                else Stages(s, t, RowWith(op, Pending(op.rec.(serverOpId := id, destination := dest),
                                                      TopupFunding), 0), call)
  {
    var r := Process(cfg, s.mem.op, s.daemon, c);
    if r.trans.Fault? { FaultsTurn(cfg, s, r); }
    else if r.trans.stage { StagesRow(cfg, s, r); }
    else { EndsTurn(cfg, s, r); }
  }

  /** A send the daemon accepts: the row carries the session its key is bound to, the first one if bound before. */
  lemma SendAccepted(cfg: Config, s: Sys, c: Replies)
    requires At(s, TopupFunding) && c.send.SendOk?
    ensures var t, op := Turn(cfg, s, c), s.mem.op;
            var sent := Transfer(op.rec.destination, op.rec.terms.topup, c.send.session);
            && t.daemon == (if op.rec.id.opKey in s.daemon then s.daemon else s.daemon[op.rec.id.opKey := sent])
            && Stages(s, t, RowWith(op, Pending(op.rec.(oorSession := t.daemon[op.rec.id.opKey].session),
                                                TopupAwaitingCredit), 0),
                      [CalledSend(op.rec.destination, op.rec.terms.topup, op.rec.id.opKey, false)])
  {
    StagesRow(cfg, s, Process(cfg, s.mem.op, s.daemon, c));
  }

  /** A send whose reply was lost may have bound its key: if it did, to this transfer, and never over an earlier one. */
  lemma LostSendMayBind(cfg: Config, s: Sys, c: Replies)
    requires At(s, TopupFunding) && c.send.SendError?
    requires !c.send.code.ResourceExhausted? && !c.send.code.Aborted? && !c.send.code.OutOfRange?
    ensures var op := s.mem.op;
            Turn(cfg, s, c).daemon ==
              if c.send.bound.Some? && op.rec.id.opKey !in s.daemon
              then s.daemon[op.rec.id.opKey := Transfer(op.rec.destination, op.rec.terms.topup, c.send.bound.value)]
              else s.daemon
  {
    FaultsTurn(cfg, s, Process(cfg, s.mem.op, s.daemon, c));
  }

  /**
   * A send that errors is retried unless it was refused at admission. A refused one is probed: a
   * transfer already bound to the key is taken over, none fails the pay, and an unanswered probe retries.
   */
  lemma SendRefused(cfg: Config, s: Sys, c: Replies)
    requires At(s, TopupFunding) && c.send.SendError?
    ensures var t, op := Turn(cfg, s, c), s.mem.op;
            var sent := CalledSend(op.rec.destination, op.rec.terms.topup, op.rec.id.opKey, false);
            var probe := CalledSend(op.rec.destination, op.rec.terms.topup, op.rec.id.opKey, true);
            var code := c.send.code;
            if !code.ResourceExhausted? && !code.Aborted? && !code.OutOfRange? then Faults(s, t, [sent])
            else if c.probe.ProbeError? && !c.probe.code.NotFound?
            then Faults(s, t, [sent, probe]) && t.daemon == s.daemon
            else if op.rec.id.opKey !in s.daemon
            then Leaves(s, t, RowWith(op, AsFailed(op.rec, FundRejected(c.send.text)), 0), [sent, probe])
            else && t.daemon == s.daemon
                 && Stages(s, t, RowWith(op, Pending(op.rec.(oorSession := s.daemon[op.rec.id.opKey].session),
                                                     TopupAwaitingCredit), 0), [sent, probe])
  {
    var r := Process(cfg, s.mem.op, s.daemon, c);
    if r.trans.Fault? { FaultsTurn(cfg, s, r); }
    else if r.trans.stage { StagesRow(cfg, s, r); }
    else { EndsTurn(cfg, s, r); }
  }

  /** A credited top-up goes on to the pay; one the server ended fails it. */
  lemma TopupReadingDecides(cfg: Config, s: Sys, c: Replies, i: nat)
    requires Reading(s, TopupAwaitingCredit, c, i)
    ensures var t, op, st := Turn(cfg, s, c), s.mem.op, OpsRead(c).value[i].state;
            && (Ended(st) ==>
                  Leaves(s, t, RowWith(op, AsFailed(op.rec, TopupFundingEnded(st)), 0), [SawLedger(c.list.ledger)]))
            && (st.Credited? ==>
                  && t.row == s.row && t.log == s.log + [SawLedger(c.list.ledger)] && t.mem.Driving?
                  && t.mem.op.cur == Paying && t.mem.op.rec == Pending(op.rec, Paying))
  {
    StateRead(s, TopupAwaitingCredit, c, i);
    var r := Process(cfg, s.mem.op, s.daemon, c);
    if Ended(OpsRead(c).value[i].state) { EndsTurn(cfg, s, r); }
  }

  // ---------------------------------------------------------------- receives

  /** A receive is created under its key for its amount; the invoice and hash of the reply become its terms. */
  lemma ReceiveCreateDecides(cfg: Config, s: Sys, c: Replies)
    requires At(s, ReceiveCreating)
    ensures var t, op := Turn(cfg, s, c), s.mem.op;
            var call := [CalledCreate(LightningReceive, op.rec.id.opKey, op.rec.terms.amount)];
            if !c.acctOk then Faults(s, t, [])
            else if !c.create.CreateOk? then Faults(s, t, call)
            else if Ended(c.create.state)
            then Leaves(s, t, RowWith(op, AsFailed(op.rec, ReceiveCreateEnded(c.create.state)), 0), call)
            else if c.create.invoice == "" then Leaves(s, t, RowWith(op, AsFailed(op.rec, ReceiveNoInvoice), 0), call)
            else && t.row.rec.serverOpId == c.create.opId && t.row.rec.terms.invoice == c.create.invoice
                 && t.row.rec.terms.hash == (if c.create.hash != [] then c.create.hash else op.rec.terms.hash)
                 && t.row.rec.terms.amount == op.rec.terms.amount
                 && Stages(s, t, RowWith(op, Pending(op.rec.(serverOpId := t.row.rec.serverOpId,
                                                             terms := t.row.rec.terms), AwaitingSettlement), 0), call)
  {
    var r := Process(cfg, s.mem.op, s.daemon, c);
    if r.trans.Fault? { FaultsTurn(cfg, s, r); }
    else if r.trans.stage { StagesRow(cfg, s, r); }
    else { EndsTurn(cfg, s, r); }
  }

  /** A receive completes on a credited reading, fails on an ended one, and waits unchanged on any other. */
  lemma ReceiveReadingDecides(cfg: Config, s: Sys, c: Replies, i: nat)
    requires Reading(s, AwaitingSettlement, c, i)
    ensures var op, st := s.mem.op, OpsRead(c).value[i].state;
            Leaves(s, Turn(cfg, s, c),
                   if Ended(st) then RowWith(op, AsFailed(op.rec, ReceiveFundingEnded(st)), 0)
                   else if st.Credited? then RowWith(op, AsCompleted(op.rec), 0)
                   else RowWith(op, op.rec, op.polls),
                   [SawLedger(c.list.ledger)])
  {
    StateRead(s, AwaitingSettlement, c, i);
    EndsTurn(cfg, s, Process(cfg, s.mem.op, s.daemon, c));
  }

  lemma ReceiveUnlistedWaits(cfg: Config, s: Sys, c: Replies)
    requires NotListed(s, AwaitingSettlement, c)
    ensures Leaves(s, Turn(cfg, s, c), RowWith(s.mem.op, s.mem.op.rec, s.mem.op.polls), [SawLedger(c.list.ledger)])
  {
    StateMissing(s, AwaitingSettlement, c);
    EndsTurn(cfg, s, Process(cfg, s.mem.op, s.daemon, c));
  }

  /** A settled receive, and nothing else, asks for an auto-redeem: of exactly the balance free of earmarks. */
  lemma SettledReceiveTriggers(cfg: Config, s: Sys, c: Replies, i: nat)
    requires Reading(s, AwaitingSettlement, c, i)
    ensures var asked := Process(cfg, s.mem.op, s.daemon, c).trans.redeem;
            var free := c.list.ledger.value.available - if c.earmark.Earmarked? then c.earmark.sat else 0;
            && Process(cfg, s.mem.op, s.daemon, c).trans.Move?
            && asked == (if && OpsRead(c).value[i].state.Credited? && cfg.autoRedeem && !c.earmark.EarmarkFailed?
                            && c.floor.Some? && 0 < c.floor.value <= free && cfg.minRedeem <= free
                         then Some(free) else None)
  {
    StateRead(s, AwaitingSettlement, c, i);
  }

  // ---------------------------------------------------------------- redemptions

  /** A redemption binds a fresh key and script once; what is bound already is used again. */
  lemma ReserveDecides(cfg: Config, s: Sys, c: Replies)
    requires At(s, RedeemReserving)
    ensures var t, op := Turn(cfg, s, c), s.mem.op;
            if op.rec.destination != [] && op.script != []
            then t.row == s.row && t.log == s.log && t.mem.Driving? && t.mem.op.cur == RedeemSubmitting
                 && t.mem.op.rec == Pending(op.rec, RedeemSubmitting) && t.mem.op.script == op.script
            else match c.alloc
              case AllocFailed => Faults(s, t, [])
              case AllocOk(pub, script) =>
                if pub == [] || script == []
                then Leaves(s, t, RowWith(op, AsFailed(op.rec, RedeemEmptyDestination), 0), [])
                else Stages(s, t, RowWith(op.(script := script),
                                          Pending(op.rec.(destination := pub), RedeemSubmitting), 0),
                            [Allocated(pub, script)])
  {
    var r := Process(cfg, s.mem.op, s.daemon, c);
    if r.trans.Fault? { FaultsTurn(cfg, s, r); }
    else if r.trans.stage { StagesRow(cfg, s, r); }
    else if Terminal(r.trans.next) { EndsTurn(cfg, s, r); }
  }

  /** The redemption is submitted for its amount to its destination; the reply decides. */
  lemma SubmitDecides(cfg: Config, s: Sys, c: Replies)
    requires At(s, RedeemSubmitting)
    ensures var t, op := Turn(cfg, s, c), s.mem.op;
            var call := [CalledRedeem(op.rec.id.opKey, op.rec.terms.amount, op.rec.destination)];
            if !c.acctOk then Faults(s, t, [])
            else match c.redeem
              case RedeemRefused(text) => Leaves(s, t, RowWith(op, AsFailed(op.rec, RedeemRejected(text)), 0), call)
              case RedeemError => Faults(s, t, call)
              case RedeemOk(id, st) =>
                if Ended(st) then Leaves(s, t, RowWith(op, AsFailed(op.rec, RedeemEnded(st)), 0), call)
                else Stages(s, t, RowWith(op, Pending(op.rec.(serverOpId := id), AwaitingOOR), 0), call)
  {
    var r := Process(cfg, s.mem.op, s.daemon, c);
    if r.trans.Fault? { FaultsTurn(cfg, s, r); }
    else if r.trans.stage { StagesRow(cfg, s, r); }
    else { EndsTurn(cfg, s, r); }
  }

  /** An ended redemption fails before its payout is looked for. */
  lemma EndedFailsRedeem(cfg: Config, s: Sys, c: Replies, i: nat)
    requires Reading(s, AwaitingOOR, c, i) && Ended(OpsRead(c).value[i].state)
    ensures var op := s.mem.op;
            Leaves(s, Turn(cfg, s, c), RowWith(op, AsFailed(op.rec, RedeemEnded(OpsRead(c).value[i].state)), 0),
                   [SawLedger(c.list.ledger)])
  {
    StateRead(s, AwaitingOOR, c, i);
    EndsTurn(cfg, s, Process(cfg, s.mem.op, s.daemon, c));
  }

  /** A payout found at the redemption's script completes it with the amount that arrived. */
  lemma PayoutCompletes(cfg: Config, s: Sys, c: Replies, i: nat)
    requires NotListed(s, AwaitingOOR, c) || (Reading(s, AwaitingOOR, c, i) && !Ended(OpsRead(c).value[i].state))
    requires c.find.FindOk? && c.find.found && c.find.amount > 0
    ensures var op := s.mem.op;
            Leaves(s, Turn(cfg, s, c),
                   RowWith(op, AsCompleted(op.rec.(terms := op.rec.terms.(amount := c.find.amount))), 0),
                   [SawLedger(c.list.ledger), LookedFor(op.script)])
  {
    if NotListed(s, AwaitingOOR, c) { StateMissing(s, AwaitingOOR, c); } else { StateRead(s, AwaitingOOR, c, i); }
    EndsTurn(cfg, s, Process(cfg, s.mem.op, s.daemon, c));
  }

  // ---------------------------------------------------------------- unreadable ledgers and repairs

  /** A ledger that cannot be read changes nothing in any awaiting state. */
  lemma UnreadFaults(cfg: Config, s: Sys, c: Replies)
    requires Inv(s) && s.mem.Driving? && Awaiting(s.mem.op.cur) && OpsRead(c).None?
    ensures Faults(s, Turn(cfg, s, c), [])
  {
    FaultsTurn(cfg, s, Process(cfg, s.mem.op, s.daemon, c));
  }

  /** The boot repair of a legacy failure, by what the server reports, on a row whose blob decodes. */
  lemma RepairDecides(cfg: Config, s: Sys, server: ServerState, superseded: bool)
    requires s.mem.Gone? && LegacyFailure(s.row.rec) && s.row.blob.Some?
    ensures var t := Next(cfg, s, Repair(server, superseded)).row;
            match server
            case Created => t == if superseded then Shadowed(s.row, server) else Waiting(s.row)
            case AwaitingPayment => t == if superseded then Shadowed(s.row, server) else Waiting(s.row)
            case Credited =>
              t == if superseded then Shadowed(s.row, server)
                   else s.row.(rec := AsCompleted(s.row.rec).(lastError := NoError))
            case Expired => t == s.row.(rec := s.row.rec.(lastError := ReceiveFundingEnded(server)))
            case ServerFailed => t == s.row.(rec := s.row.rec.(lastError := ReceiveFundingEnded(server)))
            case Released => t == s.row.(rec := s.row.rec.(lastError := ReceiveFundingEnded(server)))
            case _ => t == s.row
  {
  }

  function Shadowed(row: Row, server: ServerState): Row { row.(rec := row.rec.(lastError := Superseded(server))) }

  function Waiting(row: Row): Row
    requires row.blob.Some?
  {
    Row(Pending(row.rec, AwaitingSettlement).(lastError := NoError), Some(row.blob.value.(polls := 0)))
  }
}
