/**
 * The durable vocabulary of the credit subsystem: FSM states, the row of the
 * credit_operations table, the swap-server ledger and the failure reasons.
 *
 * Rows carry decoded values. The three text or blob columns they come from are
 * tied to those values here (state, last_error) and in SnapshotCodec
 * (snapshot_data).
 */
module CreditTypes {

  import opened Basics

  datatype Kind = Pay | Receive | Redeem

  datatype State =
    | Quoting
    | TopupCreating
    | TopupFunding
    | TopupAwaitingCredit
    | Paying
    | PayAwaitingSettlement
    | ReceiveCreating
    | AwaitingSettlement
    | RedeemReserving
    | RedeemSubmitting
    | AwaitingOOR
    | Completed
    | Failed

  datatype Status = StatusPending | StatusCompleted | StatusFailed

  predicate Terminal(s: State) { s == Completed || s == Failed }

  function StatusOf(s: State): Status {
    match s
    case Completed => StatusCompleted
    case Failed => StatusFailed
    case _ => StatusPending
  }

  function InitialState(kind: Kind): State {
    match kind
    case Pay => Quoting
    case Receive => ReceiveCreating
    case Redeem => RedeemReserving
  }

  /** How far along its flow a state is; each flow is a chain ending in a terminal state. */
  function Rank(s: State): nat {
    match s
    case Quoting => 0
    case TopupCreating => 1
    case TopupFunding => 2
    case TopupAwaitingCredit => 3
    case Paying => 4
    case PayAwaitingSettlement => 5
    case ReceiveCreating => 0
    case AwaitingSettlement => 1
    case RedeemReserving => 0
    case RedeemSubmitting => 1
    case AwaitingOOR => 2
    case Completed => 6
    case Failed => 6
  }

  /** The states an operation of one kind can be in. */
  predicate OnFlow(kind: Kind, s: State) {
    match kind
    case Pay =>
      || s.Quoting? || s.TopupCreating? || s.TopupFunding? || s.TopupAwaitingCredit?
      || s.Paying? || s.PayAwaitingSettlement? || s.Completed? || s.Failed?
    case Receive => s.ReceiveCreating? || s.AwaitingSettlement? || s.Completed? || s.Failed?
    case Redeem => s.RedeemReserving? || s.RedeemSubmitting? || s.AwaitingOOR? || s.Completed? || s.Failed?
  }

  // ---------------------------------------------------------------- state column

  /** The state column once decoded: a known FSM state, or text no version wrote. */
  datatype Column = Known(state: State) | Unrecognized(text: string)

  function StateText(s: State): string {
    match s
    case Quoting => "quoting"
    case TopupCreating => "topup_creating"
    case TopupFunding => "topup_funding"
    case TopupAwaitingCredit => "topup_awaiting_credit"
    case Paying => "paying"
    case PayAwaitingSettlement => "pay_awaiting_settlement"
    case ReceiveCreating => "receive_creating"
    case AwaitingSettlement => "awaiting_settlement"
    case RedeemReserving => "redeem_reserving"
    case RedeemSubmitting => "redeem_submitting"
    case AwaitingOOR => "awaiting_oor"
    case Completed => "completed"
    case Failed => "failed"
  }

  /** Decoding loses nothing: the column's text can be read back. */
  function DecodeColumn(text: string): (c: Column)
    ensures ColumnText(c) == text
  {
    if text == "quoting" then Known(Quoting)
    else if text == "topup_creating" then Known(TopupCreating)
    else if text == "topup_funding" then Known(TopupFunding)
    else if text == "topup_awaiting_credit" then Known(TopupAwaitingCredit)
    else if text == "paying" then Known(Paying)
    else if text == "pay_awaiting_settlement" then Known(PayAwaitingSettlement)
    else if text == "receive_creating" then Known(ReceiveCreating)
    else if text == "awaiting_settlement" then Known(AwaitingSettlement)
    else if text == "redeem_reserving" then Known(RedeemReserving)
    else if text == "redeem_submitting" then Known(RedeemSubmitting)
    else if text == "awaiting_oor" then Known(AwaitingOOR)
    else if text == "completed" then Known(Completed)
    else if text == "failed" then Known(Failed)
    else Unrecognized(text)
  }

  function ColumnText(c: Column): string {
    match c
    case Known(s) => StateText(s)
    case Unrecognized(text) => text
  }

  /** Every state the FSM persists is recognized again as itself. */
  lemma StateRoundTrip(s: State)
    ensures DecodeColumn(StateText(s)) == Known(s)
  {
    var t := StateText(s);
    match s
    case Quoting =>
    case TopupCreating => assert t[6] == 'c';
    case TopupFunding => assert t[6] == 'f';
    case TopupAwaitingCredit => assert t[6] == 'a';
    case Paying => assert t[3] == 'i';
    case PayAwaitingSettlement => assert t[3] == '_';
    case ReceiveCreating => assert t[2] == 'c';
    case AwaitingSettlement => assert t[9] == 's';
    case RedeemReserving => assert t[2] == 'd' && t[7] == 'r';
    case RedeemSubmitting => assert t[2] == 'd' && t[7] == 's';
    case AwaitingOOR => assert t[9] == 'o';
    case Completed =>
    case Failed =>
  }

  // ---------------------------------------------------------------- server ledger

  datatype ServerState =
    | Created | AwaitingPayment | Credited | Reserved | PayingLightning | Debited
    | SendingOOR | Redeemed | Released | Expired | ServerFailed | Unlisted(name: string)

  predicate TerminalFailure(s: ServerState) { s.ServerFailed? || s.Expired? || s.Released? }

  function ServerStateText(s: ServerState): string {
    match s
    case Created => "created"
    case AwaitingPayment => "awaiting_payment"
    case Credited => "credited"
    case Reserved => "reserved"
    case PayingLightning => "paying_lightning"
    case Debited => "debited"
    case SendingOOR => "sending_oor"
    case Redeemed => "redeemed"
    case Released => "released"
    case Expired => "expired"
    case ServerFailed => "failed"
    case Unlisted(name) => name
  }

  datatype ServerOp = ServerOp(amount: nat, opId: string, state: ServerState, hash: Bytes)

  datatype Ledger = Ledger(available: nat, ops: seq<ServerOp>)

  datatype Source = LightningReceive | ArkTopUp

  // ---------------------------------------------------------------- failure reasons

  const LEGACY_RECEIVE_POLL_CAP := "receive credit not settled within poll cap"

  /** The values the last_error column takes. */
  datatype Reason =
    | NoError
    | TopupRejected(text: string)
    | TopupCreateEnded(server: ServerState)
    | TopupNoDestination
    | FundRejected(text: string)
    | TopupFundingEnded(server: ServerState)
    | TopupPollCap
    | PayRejected(text: string)
    | PayIntervention(text: string)
    | PayEnded(server: ServerState)
    | PayPollCap
    | ReceiveCreateEnded(server: ServerState)
    | ReceiveNoInvoice
    | ReceiveFundingEnded(server: ServerState)
    | RedeemEmptyDestination
    | RedeemRejected(text: string)
    | RedeemEnded(server: ServerState)
    | RedeemPollCap
    | CorruptState(text: string)
    | LegacyReceivePollCap
    | Superseded(server: ServerState)

  function ReasonText(r: Reason): string {
    match r
    case NoError => ""
    case TopupRejected(t) => "top-up rejected: " + t
    case TopupCreateEnded(s) => "top-up credit ended in " + ServerStateText(s)
    case TopupNoDestination => "top-up credit missing destination pubkey"
    case FundRejected(t) => "fund top-up via OOR rejected: " + t
    case TopupFundingEnded(s) => "top-up funding ended in " + ServerStateText(s)
    case TopupPollCap => "top-up credit not finalized within poll cap"
    case PayRejected(t) => "start pay rejected: " + t
    case PayIntervention(t) => "credit pay requires intervention: " + t
    case PayEnded(s) => "credit pay ended in " + ServerStateText(s)
    case PayPollCap => "credit pay not settled within poll cap"
    case ReceiveCreateEnded(s) => "receive credit ended in " + ServerStateText(s)
    case ReceiveNoInvoice => "receive credit missing invoice"
    case ReceiveFundingEnded(s) => "receive funding ended in " + ServerStateText(s)
    case RedeemEmptyDestination => "redeem destination is empty"
    case RedeemRejected(t) => "redeem rejected: " + t
    case RedeemEnded(s) => "redemption ended in " + ServerStateText(s)
    case RedeemPollCap => "redeemed vtxo not seen within poll cap"
    case CorruptState(t) => "unrecognized persisted state \"" + t + "\""
    case LegacyReceivePollCap => LEGACY_RECEIVE_POLL_CAP
    case Superseded(s) => "legacy receive superseded " + "while server state is " + ServerStateText(s)
  }

  /**
   * Only the legacy reason renders as the text the boot repair matches, and only
   * the absent one as the empty text the settlement state tests for.
   */
  lemma ReasonTextExact(r: Reason)
    ensures ReasonText(r) == LEGACY_RECEIVE_POLL_CAP <==> r == LegacyReceivePollCap
    ensures ReasonText(r) == "" <==> r == NoError
  {
    if r.ReceiveCreateEnded? || r.ReceiveNoInvoice? || r.ReceiveFundingEnded? {
      ReceiveTexts(r);
    } else if r.RedeemEmptyDestination? || r.RedeemRejected? || r.RedeemEnded? || r.RedeemPollCap? {
      RedeemTexts(r);
    } else if !r.NoError? && !r.LegacyReceivePollCap? {
      OtherTexts(r);
    }
  }

  lemma ReceiveTexts(r: Reason)
    requires r.ReceiveCreateEnded? || r.ReceiveNoInvoice? || r.ReceiveFundingEnded?
    ensures ReasonText(r) != LEGACY_RECEIVE_POLL_CAP && ReasonText(r) != ""
  {
    var t := ReasonText(r);
    assert LEGACY_RECEIVE_POLL_CAP[8] == 'c' && LEGACY_RECEIVE_POLL_CAP[15] == 'n';
    match r
    case ReceiveCreateEnded(s) => assert t[15] == 'e';
    case ReceiveNoInvoice => assert t[15] == 'm';
    case ReceiveFundingEnded(s) => assert t[8] == 'f';
  }

  lemma RedeemTexts(r: Reason)
    requires r.RedeemEmptyDestination? || r.RedeemRejected? || r.RedeemEnded? || r.RedeemPollCap?
    ensures ReasonText(r) != LEGACY_RECEIVE_POLL_CAP && ReasonText(r) != ""
  {
    var t := ReasonText(r);
    assert LEGACY_RECEIVE_POLL_CAP[2] == 'c';
    match r
    case RedeemEmptyDestination => assert t[2] == 'd';
    case RedeemRejected(_) => assert t[2] == 'd';
    case RedeemEnded(_) => assert t[2] == 'd';
    case RedeemPollCap => assert t[2] == 'd';
  }

  lemma OtherTexts(r: Reason)
    requires !r.NoError? && !r.LegacyReceivePollCap?
    requires !r.ReceiveCreateEnded? && !r.ReceiveNoInvoice? && !r.ReceiveFundingEnded?
    requires !r.RedeemEmptyDestination? && !r.RedeemRejected? && !r.RedeemEnded? && !r.RedeemPollCap?
    ensures ReasonText(r) != LEGACY_RECEIVE_POLL_CAP && ReasonText(r) != ""
  {
    var t := ReasonText(r);
    assert LEGACY_RECEIVE_POLL_CAP[0] == 'r';
    match r
    case TopupRejected(_) => assert t[0] == 't';
    case TopupCreateEnded(_) => assert t[0] == 't';
    case TopupNoDestination => assert t[0] == 't';
    case TopupFundingEnded(_) => assert t[0] == 't';
    case TopupPollCap => assert t[0] == 't';
    case FundRejected(_) => assert t[0] == 'f';
    case PayRejected(_) => assert t[0] == 's';
    case PayIntervention(_) => assert t[0] == 'c';
    case PayEnded(_) => assert t[0] == 'c';
    case PayPollCap => assert t[0] == 'c';
    case CorruptState(_) => assert t[0] == 'u';
    case Superseded(_) => assert t[0] == 'l';
  }

  // ---------------------------------------------------------------- rows

  /** What the operation is about; for a pay, the authority its caller granted. */
  datatype Terms = Terms(
    invoice: string,
    hash: Bytes,
    amount: nat,
    topup: nat,
    maxCredit: nat,
    maxFee: nat)

  datatype Ident = Ident(opId: string, opKey: string, kind: Kind)

  datatype Record = Record(
    id: Ident,
    state: Column,
    status: Status,
    serverOpId: string,
    destination: Bytes,
    oorSession: string,
    terms: Terms,
    lastError: Reason)

  /** The resume material that lives in the snapshot blob rather than in columns. */
  datatype Snapshot = Snapshot(script: Bytes, memo: Bytes, creditOnly: bool, polls: Uint32)

  /** One durable row; None is a blob that does not decode. */
  datatype Row = Row(rec: Record, blob: Option<Snapshot>)

  predicate TerminalStatus(s: Status) { s != StatusPending }
}
