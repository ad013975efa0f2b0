/**
 * The credit registry: admission with dedup, boot repair, restore and the
 * auto-redeem interlock over the whole table of operations.
 */
module CreditRegistry {
  import opened Basics
  import opened CreditTypes
  import opened CreditMachine
  import opened CreditRuns

  /** The credit_operations table by op id. */
  type Table = map<string, Row>

  datatype Admission =
    | PayRequest(key: string, terms: Terms, payCreditOnly: bool)
    | ReceiveRequest(key: string, receiveAmount: nat, memo: Bytes)
    | RedeemRequest(key: string, redeemAmount: nat)

  const NO_TERMS := Terms("", [], 0, 0, 0, 0)

  /** buildRecord. */
  function BuildRow(opId: string, msg: Admission): (row: Row)
    ensures AdmittedRow(row) && row.rec.id.opId == opId && row.rec.id.opKey == msg.key
    ensures row.rec.status == StatusPending && RowState(row) == InitialState(row.rec.id.kind)
    ensures msg.PayRequest? ==> SameGrant(row, msg)
  {
    match msg
    case PayRequest(key, terms, only) => NewRow(Ident(opId, key, Pay), terms, [], only)
    case ReceiveRequest(key, amount, memo) =>
      NewRow(Ident(opId, key, Receive), NO_TERMS.(amount := amount), memo, false)
    case RedeemRequest(key, amount) => NewRow(Ident(opId, key, Redeem), NO_TERMS.(amount := amount), [], false)
  }

  function NewRow(id: Ident, terms: Terms, memo: Bytes, creditOnly: bool): Row {
    Row(Record(id, Known(InitialState(id.kind)), StatusPending, "", [], "", terms, NoError),
        Some(Snapshot([], memo, creditOnly, 0)))
  }

  /** createReceiveInvoice on a freshly built row: None is an error returned to the caller. */
  function WithInvoice(row: Row, acctOk: bool, create: CreateReply): (r: Option<Row>)
    ensures r.Some? && AdmittedRow(row) && row.rec.id.kind == Receive ==>
              AdmittedRow(r.value) && r.value.rec.id == row.rec.id && r.value.rec.status == StatusPending
  {
    if !acctOk || !create.CreateOk? || TerminalFailure(create.state) || create.invoice == "" then None
    else
      var hash := if create.hash != [] then create.hash else row.rec.terms.hash;
      Some(row.(rec := row.rec.(
                  serverOpId := create.opId,
                  terms := row.rec.terms.(invoice := create.invoice, hash := hash),
                  state := Known(AwaitingSettlement),
                  status := StatusPending)))
  }

  /** The row a request opens with: its own terms, and for a receive what the server's reply carried. */
  predicate OpensAs(newId: string, msg: Admission, create: CreateReply, row: Row) {
    match msg
    case PayRequest(key, terms, only) =>
      row == Row(Record(Ident(newId, key, Pay), Known(Quoting), StatusPending, "", [], "", terms, NoError),
                 Some(Snapshot([], [], only, 0)))
    case ReceiveRequest(key, amount, memo) =>
      && create.CreateOk?
      && row == Row(Record(Ident(newId, key, Receive), Known(AwaitingSettlement), StatusPending, create.opId, [], "",
                           Terms(create.invoice, create.hash, amount, 0, 0, 0), NoError),
                    Some(Snapshot([], memo, false, 0)))
    case RedeemRequest(key, amount) =>
      row == Row(Record(Ident(newId, key, Redeem), Known(RedeemReserving), StatusPending, "", [], "",
                        Terms("", [], amount, 0, 0, 0), NoError),
                 Some(Snapshot([], [], false, 0)))
  }

  /** The row grants exactly what the pay request asks for. */
  predicate SameGrant(row: Row, msg: Admission) {
    && msg.PayRequest? && row.rec.id.kind == Pay
    && row.blob.Some? && row.rec.terms == msg.terms && row.blob.value.creditOnly == msg.payCreditOnly
  }

  // ---------------------------------------------------------------- key ownership

  /** A pending or completed row answers for its key. */
  predicate Owns(t: Table, id: string, key: string) {
    id in t && t[id].rec.id.opKey == key && t[id].rec.status != StatusFailed
  }

  predicate Unowned(t: Table, key: string) { forall id :: id in t ==> !Owns(t, id, key) }

  predicate OwnedByNoOther(t: Table, id: string, key: string) {
    forall other :: other in t && other != id ==> !Owns(t, other, key)
  }

  /** At most one non-failed row per op key. */
  predicate UniqueKeys(t: Table) {
    forall a, b :: a in t && b in t && Owns(t, a, t[b].rec.id.opKey) && Owns(t, b, t[b].rec.id.opKey) ==> a == b
  }

  predicate PendingRow(row: Row) { row.rec.status == StatusPending }

  predicate NoneInFlight(t: Table) {
    forall id :: id in t && PendingRow(t[id]) ==> t[id].rec.id.kind == Receive
  }

  // ---------------------------------------------------------------- table events

  datatype Change =
    | Admit(id: string, row: Row)
    | Consider(id: string, row: Row)
    | ChildWrite(id: string, row: Row)
    | RepairRow(id: string, server: ServerState, superseded: bool)

  /** What a child may write over its own row; CreditRuns.Forward implies it. */
  predicate ChildMay(a: Row, b: Row) {
    && a.rec.id == b.rec.id
    && (TerminalStatus(a.rec.status) ==> b.rec.status == a.rec.status)
    && (a.rec.id.kind == Pay && a.blob.Some? ==>
          b.rec.terms == a.rec.terms && b.blob.Some? && b.blob.value.creditOnly == a.blob.value.creditOnly)
  }

  /** Every write of a running child is one of those, over a healthy row or a corrupt one. */
  lemma ChildWritesAllowed(cfg: Config, s: Sys, e: Event)
    requires (Inv(s) || CorruptInv(s)) && !e.Repair?
    ensures ChildMay(s.row, Next(cfg, s, e).row)
  {
    if Inv(s) {
      InvNext(cfg, s, e);
    } else {
      CorruptNext(cfg, s, e);
    }
  }

  function RepairedRow(row: Row, server: ServerState, superseded: bool): Row {
    var fixed := Repaired(row, server);
    if fixed.None? then row
    else if superseded && fixed.value.rec.status != StatusFailed
    then row.(rec := row.rec.(lastError := Superseded(server)))
    else fixed.value
  }

  /** The boot repair writes what CreditMachine's Repair event writes. */
  lemma RepairMatchesMachine(cfg: Config, s: Sys, server: ServerState, superseded: bool)
    requires s.mem.Gone? && LegacyFailure(s.row.rec)
    ensures Next(cfg, s, CreditMachine.Repair(server, superseded)).row == RepairedRow(s.row, server, superseded)
  {
  }

  predicate Allowed(t: Table, c: Change) {
    match c
    case Admit(id, row) =>
      id !in t && AdmittedRow(row) && row.rec.id.opId == id && Unowned(t, row.rec.id.opKey)
    case Consider(id, row) =>
      && id !in t && AdmittedRow(row) && row.rec.id.opId == id && row.rec.id.kind == Redeem
      && Unowned(t, row.rec.id.opKey) && NoneInFlight(t)
    case ChildWrite(id, row) => id in t && ChildMay(t[id], row)
    case RepairRow(id, server, superseded) =>
      && id in t && LegacyFailure(t[id].rec)
      && (superseded || RepairedRow(t[id], server, false).rec.status == StatusFailed || Unowned(t, t[id].rec.id.opKey))
  }

  function Change1(t: Table, c: Change): Table {
    match c
    case Admit(id, row) => t[id := row]
    case Consider(id, row) => t[id := row]
    case ChildWrite(id, row) => t[id := row]
    case RepairRow(id, server, superseded) => if id in t then t[id := RepairedRow(t[id], server, superseded)] else t
  }

  function ChangeAll(t: Table, cs: seq<Change>): Table {
    if cs == [] then t else Change1(ChangeAll(t, cs[..|cs| - 1]), cs[|cs| - 1])
  }

  predicate AllAllowed(t: Table, cs: seq<Change>) {
    cs == [] || (AllAllowed(t, cs[..|cs| - 1]) && Allowed(ChangeAll(t, cs[..|cs| - 1]), cs[|cs| - 1]))
  }

  lemma Snoc(t: Table, cs: seq<Change>, c: Change)
    requires AllAllowed(t, cs) && Allowed(ChangeAll(t, cs), c)
    ensures AllAllowed(t, cs + [c]) && ChangeAll(t, cs + [c]) == Change1(ChangeAll(t, cs), c)
  {
    assert (cs + [c])[..|cs + [c]| - 1] == cs;
  }

  // ---------------------------------------------------------------- invariants over all histories

  lemma UniqueStep(t: Table, c: Change)
    requires UniqueKeys(t) && Allowed(t, c)
    ensures UniqueKeys(Change1(t, c))
  {
    var t' := Change1(t, c);
    forall a, b | a in t' && b in t' && Owns(t', a, t'[b].rec.id.opKey) && Owns(t', b, t'[b].rec.id.opKey)
      ensures a == b
    {
      OwnerAfter(t, c, a, t'[b].rec.id.opKey);
      OwnerAfter(t, c, b, t'[b].rec.id.opKey);
    }
  }

  /** A row that owns a key after a change owned it before, or was written under a key no other row owned. */
  lemma OwnerAfter(t: Table, c: Change, id: string, key: string)
    requires Allowed(t, c) && Owns(Change1(t, c), id, key)
    ensures Owns(t, id, key) || (id == c.id && OwnedByNoOther(t, id, key))
  {
  }

  /**
   * Whatever admissions, child writes and boot repairs a registry makes, in any order, at
   * most one non-failed row exists per op key.
   */
  lemma {:induction false} KeysStayUnique(t: Table, cs: seq<Change>)
    requires UniqueKeys(t) && AllAllowed(t, cs)
    ensures UniqueKeys(ChangeAll(t, cs))
  {
    if cs != [] {
      KeysStayUnique(t, cs[..|cs| - 1]);
      UniqueStep(ChangeAll(t, cs[..|cs| - 1]), cs[|cs| - 1]);
    }
  }

  /** No history changes what a pay row was admitted with. */
  lemma {:induction false} AuthorityIsFixed(t: Table, cs: seq<Change>, id: string)
    requires AllAllowed(t, cs) && id in t && t[id].rec.id.kind == Pay && t[id].blob.Some?
    ensures var t' := ChangeAll(t, cs);
            && id in t' && t'[id].rec.id == t[id].rec.id && t'[id].rec.terms == t[id].rec.terms
            && t'[id].blob.Some? && t'[id].blob.value.creditOnly == t[id].blob.value.creditOnly
  {
    if cs != [] {
      AuthorityIsFixed(t, cs[..|cs| - 1], id);
    }
  }

  predicate PendingRedeem(row: Row) { PendingRow(row) && row.rec.id.kind == Redeem }

  predicate OneRedeem(t: Table) {
    forall a, b :: a in t && b in t && PendingRedeem(t[a]) && PendingRedeem(t[b]) ==> a == b
  }

  /** Redeems come only through the interlock. */
  predicate NoDirectRedeem(cs: seq<Change>) {
    forall i :: 0 <= i < |cs| ==> cs[i].Admit? ==> cs[i].row.rec.id.kind != Redeem
  }

  lemma OneRedeemStep(t: Table, c: Change)
    requires OneRedeem(t) && Allowed(t, c) && !(c.Admit? && c.row.rec.id.kind == Redeem)
    ensures OneRedeem(Change1(t, c))
  {
  }

  /** If redeems come only through ConsiderRedeem, at most one is pending at any point of any history. */
  lemma {:induction false} OneRedeemPending(t: Table, cs: seq<Change>)
    requires OneRedeem(t) && AllAllowed(t, cs) && NoDirectRedeem(cs)
    ensures OneRedeem(ChangeAll(t, cs))
  {
    if cs != [] {
      var front := cs[..|cs| - 1];
      assert forall k :: 0 <= k < |front| ==> front[k] == cs[k];
      OneRedeemPending(t, front);
      OneRedeemStep(ChangeAll(t, front), cs[|cs| - 1]);
    }
  }

  // ---------------------------------------------------------------- the registry actor

  datatype Response =
    | Refused
    | Existing(opId: string, invoice: string, hash: Bytes)
    | Fresh(opId: string, invoice: string, hash: Bytes)

  class Registry {
    var table: Table
    var active: set<string>

    constructor (table: Table)
      ensures this.table == table && active == {}
    {
      this.table := table;
      active := {};
    }

    /** LookupActiveOperationByKey: the empty key never matches. */
    method Lookup(key: string) returns (hit: Option<string>)
      ensures hit.Some? ==> key != "" && Owns(table, hit.value, key)
      ensures hit.None? && key != "" ==> Unowned(table, key)
    {
      hit := None;
      if key != "" && exists id :: id in table && Owns(table, id, key) {
        var id :| id in table && Owns(table, id, key);
        hit := Some(id);
      }
    }

    /** UpsertOperation under the partial unique index on op_key. */
    method Upsert(id: string, row: Row, ioOk: bool) returns (ok: bool)
      modifies this`table
      ensures ok <==> ioOk && (row.rec.status == StatusFailed || OwnedByNoOther(old(table), id, row.rec.id.opKey))
      ensures table == if ok then old(table)[id := row] else old(table)
    {
      ok := ioOk && (row.rec.status == StatusFailed || OwnedByNoOther(table, id, row.rec.id.opKey));
      if ok {
        table := table[id := row];
      }
    }

    /** ensureChild: a resident child, spawned from a pending row whose blob decodes. */
    method EnsureChild(opId: string, readOk: bool)
      modifies this`active
      ensures active == old(active) +
                        if readOk && opId in table && PendingRow(table[opId]) && table[opId].blob.Some?
                        then {opId} else {}
    {
      if opId !in active && readOk && opId in table {
        if !TerminalStatus(table[opId].rec.status) && Restore(table[opId]).Some? {
          active := active + {opId};
        }
      }
    }

    /** reap: drop a child, unless its row is known not to be terminal or cannot be read. */
    method Reap(opId: string, readOk: bool)
      modifies this`active
      ensures active == old(active) - if readOk && (opId in table ==> !PendingRow(table[opId])) then {opId} else {}
    {
      if readOk && (opId !in table || TerminalStatus(table[opId].rec.status)) {
        active := active - {opId};
      }
    }

    /** The first write of an admitted row, and its child. */
    method WriteFresh(newId: string, row: Row, writeOk: bool) returns (ok: bool, ghost cs: seq<Change>)
      requires UniqueKeys(table) && newId !in table
      requires AdmittedRow(row) && row.rec.id.opId == newId && row.rec.status == StatusPending
      modifies this
      ensures ok <==> writeOk && Unowned(old(table), row.rec.id.opKey)
      ensures cs == if ok then [Admit(newId, row)] else []
      ensures AllAllowed(old(table), cs) && table == ChangeAll(old(table), cs) && UniqueKeys(table)
      ensures table == if ok then old(table)[newId := row] else old(table)
      ensures active == old(active) + if ok then {newId} else {}
    {
      cs := [];
      ghost var before := table;
      ok := Upsert(newId, row, writeOk);
      if ok {
        Snoc(before, cs, Admit(newId, row));
        cs := [] + [Admit(newId, row)];
        UniqueStep(before, Admit(newId, row));
        EnsureChild(newId, true);
      }
    }

    /** A replay of an owned key: a pay must ask for exactly what the row grants. */
    method AnswerReplay(msg: Admission, id: string) returns (resp: Response)
      requires id in table
      modifies this`active
      ensures resp == if msg.PayRequest? && !SameGrant(table[id], msg) then Refused
                      else Existing(id, table[id].rec.terms.invoice, table[id].rec.terms.hash)
      ensures active == old(active) +
                        if resp.Existing? && PendingRow(table[id]) && table[id].blob.Some? then {id} else {}
    {
      var row := table[id];
      if msg.PayRequest? && !SameGrant(row, msg) {
        return Refused;
      }
      resp := Existing(id, row.rec.terms.invoice, row.rec.terms.hash);
      EnsureChild(id, true);
    }

    /**
     * admit. A replay is answered from the row that owns the key, and for a pay only when it
     * grants exactly the same; otherwise a fresh row is written for an unowned key. The index
     * can only reject a write for the empty key, which the lookup never matches.
     */
    method Admission(msg: Admission, newId: string, readOk: bool, acctOk: bool, create: CreateReply, writeOk: bool)
      returns (resp: Response, ghost cs: seq<Change>)
      requires UniqueKeys(table) && newId !in table
      modifies this
      ensures resp.Fresh? ==> newId in table
      ensures AllAllowed(old(table), cs) && table == ChangeAll(old(table), cs) && UniqueKeys(table)
      ensures cs == if resp.Fresh? then [Admit(newId, table[newId])] else []
      ensures resp.Existing? ==> Owns(table, resp.opId, msg.key)
      ensures active == old(active) + match resp
                                      case Refused => {}
                                      case Fresh(id, _, _) => {id}
                                      case Existing(id, _, _) =>
                                        if PendingRow(table[id]) && table[id].blob.Some? then {id} else {}
      ensures readOk ==> forall id :: id in old(table) && Owns(old(table), id, msg.key) && msg.key != "" ==>
                var row := table[id];
                resp == if && msg.PayRequest?
                           && !(&& row.rec.id.kind == Pay && row.rec.terms == msg.terms
                                && row.blob.Some? && row.blob.value.creditOnly == msg.payCreditOnly)
                        then Refused
                        else Existing(id, row.rec.terms.invoice, row.rec.terms.hash)
      ensures resp.Fresh? ==>
                && Unowned(old(table), msg.key) && OpensAs(newId, msg, create, table[newId])
                && resp == Fresh(newId, table[newId].rec.terms.invoice, table[newId].rec.terms.hash)
      ensures msg.key == "" && !Unowned(old(table), "") ==> resp == Refused
      ensures readOk && writeOk && msg.key != "" && Unowned(old(table), msg.key) ==>
                (resp.Fresh? <==> msg.ReceiveRequest? ==>
                   && acctOk && create.CreateOk? && create.invoice != ""
                   && !create.state.ServerFailed? && !create.state.Expired? && !create.state.Released?)
    {
      cs := [];
      if !readOk {
        return Refused, cs;
      }
      var hit := Lookup(msg.key);
      if hit.Some? {
        resp := AnswerReplay(msg, hit.value);
        return resp, cs;
      }

      var row := BuildRow(newId, msg);
      if msg.ReceiveRequest? {
        var invoiced := WithInvoice(row, acctOk, create);
        if invoiced.None? {
          return Refused, cs;
        }
        row := invoiced.value;
      }
      var ok;
      ok, cs := WriteFresh(newId, row, writeOk);
      if !ok {
        return Refused, cs;
      }
      return Fresh(newId, row.rec.terms.invoice, row.rec.terms.hash), cs;
    }

    /**
     * considerRedeem: admits a redeem of the available balance only when no pay and no redeem
     * is pending, and then only as the change the interlock allows.
     */
    method ConsiderRedeem(available: nat, newId: string, newKey: string, listOk: bool, readOk: bool, writeOk: bool)
      returns (ghost cs: seq<Change>)
      requires UniqueKeys(table) && newId !in table
      modifies this
      ensures AllAllowed(old(table), cs) && table == ChangeAll(old(table), cs) && UniqueKeys(table)
      ensures |cs| <= 1 && forall c :: c in cs ==>
                && c.Consider? && c.row.rec.terms.amount == available > 0
                && c.row.rec.id == Ident(newId, newKey, Redeem)
      ensures cs != [] ==> forall id :: id in old(table) && old(table)[id].rec.status == StatusPending ==>
                !old(table)[id].rec.id.kind.Pay? && !old(table)[id].rec.id.kind.Redeem?
      ensures cs != [] ==> active == old(active) + {newId}
      ensures available > 0 && listOk && readOk && writeOk && newKey != "" && Unowned(old(table), newKey) ==>
                cs == [] ==>
                  exists id :: id in old(table) && old(table)[id].rec.status == StatusPending &&
                               (old(table)[id].rec.id.kind.Pay? || old(table)[id].rec.id.kind.Redeem?)
    {
      cs := [];
      if available == 0 || !listOk || !NoneInFlight(table) {
        return;
      }
      assert NoneInFlight(table);
      ghost var before := table;
      var msg := RedeemRequest(newKey, available);
      var resp;
      ghost var admitted;
      resp, admitted := Admission(msg, newId, readOk, false, CreateFailed, writeOk);
      if admitted != [] {
        var row := table[newId];
        assert ChangeAll(before, admitted) == Change1(before, admitted[0]) && Allowed(before, admitted[0]) by {
          assert admitted[..0] == [];
        }
        Snoc(before, [], Consider(newId, row));
        cs := [] + [Consider(newId, row)];
      }
    }

    /** One candidate of the boot repair. */
    method RepairOne(id: string, server: ServerState, lookupOk: bool, writeOk: bool) returns (ghost cs: seq<Change>)
      requires UniqueKeys(table) && id in table && LegacyFailure(table[id].rec)
      modifies this`table
      ensures AllAllowed(old(table), cs) && table == ChangeAll(old(table), cs) && UniqueKeys(table)
      ensures id in table && table == old(table)[id := table[id]]
      ensures || table[id] == old(table[id])
              || table[id] == RepairedRow(old(table[id]), server, false)
              || table[id] == RepairedRow(old(table[id]), server, true)
      ensures lookupOk && writeOk && table[id].rec.id.opKey != "" ==>
                table[id] == RepairedRow(old(table[id]), server, !Unowned(old(table), table[id].rec.id.opKey))
      ensures writeOk && RepairedRow(old(table[id]), server, false).rec.status == StatusFailed ==>
                table[id] == RepairedRow(old(table[id]), server, false)
    {
      cs := [];
      ghost var before := table;
      var row := table[id];
      var fixed := Repaired(row, server);
      if fixed.None? {
        return;
      }
      var superseded := false;
      if fixed.value.rec.status != StatusFailed {
        if !lookupOk {
          return;
        }
        var hit := Lookup(fixed.value.rec.id.opKey);
        superseded := hit.Some?;
      }
      var updated := RepairedRow(row, server, superseded);
      var ok := Upsert(id, updated, writeOk);
      if ok {
        Snoc(before, cs, RepairRow(id, server, superseded));
        cs := cs + [RepairRow(id, server, superseded)];
        UniqueStep(before, RepairRow(id, server, superseded));
      }
    }

    /**
     * repairLegacyReceivePollCapFailures, candidates in any order. Only rows carrying the exact
     * legacy failure and named by the server snapshot change, each to what the server reports;
     * however many are reopened, and whichever lookups and writes fail, keys stay unique; a row
     * whose own lookup and write succeed stays failed against a live server state only if
     * another row owns its key.
     */
    method RepairLegacy(servers: map<string, ServerState>, lookupOk: string -> bool, writeOk: string -> bool)
      returns (ghost cs: seq<Change>)
      requires UniqueKeys(table)
      modifies this`table
      ensures AllAllowed(old(table), cs) && table == ChangeAll(old(table), cs) && UniqueKeys(table)
      ensures table.Keys == old(table).Keys
      ensures forall id :: id in table && table[id] != old(table)[id] ==>
                && LegacyFailure(old(table)[id].rec) && old(table)[id].rec.serverOpId in servers
                && RepairsTo(old(table)[id], table[id], servers[old(table)[id].rec.serverOpId])
      ensures forall id :: id in table && lookupOk(id) && writeOk(id) && LegacyFailure(old(table)[id].rec) ==>
                Stuck(old(table)[id], table[id], servers) ==> !Unowned(table, table[id].rec.id.opKey)
      ensures forall id :: id in table && lookupOk(id) && writeOk(id) && Candidate(old(table)[id], servers) ==>
                table[id].rec.id.opKey != "" ==>
                  RepairsTo(old(table)[id], table[id], servers[old(table)[id].rec.serverOpId])
    {
      ghost var ok := (id: string) => lookupOk(id) && writeOk(id);
      cs := [];
      ghost var t0 := table;
      var todo := set id | id in table && Candidate(table[id], servers);
      while todo != {}
        invariant AllAllowed(t0, cs) && table == ChangeAll(t0, cs) && UniqueKeys(table)
        invariant Progress(t0, table, todo, servers, ok)
      {
        var id :| id in todo;
        ghost var before := table;
        ghost var more;
        more := RepairOne(id, servers[table[id].rec.serverOpId], lookupOk(id), writeOk(id));
        ProgressStep(t0, before, table, todo, id, servers, ok);
        todo := todo - {id};
        ConcatChanges(t0, cs, more);
        cs := cs + more;
      }
    }

    /** restoreNonTerminal after the repair: every pending row that reads and decodes has a resident child. */
    method RestoreChildren(readOk: string -> bool)
      modifies this`active
      ensures forall id :: id in table && PendingRow(table[id]) && table[id].blob.Some? && readOk(id) ==> id in active
      ensures active <= old(active) + table.Keys
    {
      var todo := set id | id in table && PendingRow(table[id]);
      while todo != {}
        invariant todo <= table.Keys && active <= old(active) + table.Keys
        invariant forall id :: id in table && PendingRow(table[id]) && table[id].blob.Some? && readOk(id) ==>
                                 id in active || id in todo
      {
        var id :| id in todo;
        todo := todo - {id};
        EnsureChild(id, readOk(id));
      }
    }
  }

  predicate Candidate(row: Row, servers: map<string, ServerState>) {
    LegacyFailure(row.rec) && row.rec.serverOpId in servers
  }

  predicate RepairsTo(a: Row, b: Row, server: ServerState) {
    b == RepairedRow(a, server, false) || b == RepairedRow(a, server, true)
  }

  /** Left failed although the server reports a live or credited operation. */
  predicate Stuck(a: Row, b: Row, servers: map<string, ServerState>) {
    && a.rec.serverOpId in servers && a.rec.id.opKey != "" && b.rec.status == StatusFailed
    && RepairedRow(a, servers[a.rec.serverOpId], false).rec.status != StatusFailed
  }

  /** What each row may have become. */
  predicate RowsRepaired(t0: Table, t: Table, servers: map<string, ServerState>) {
    forall id :: id in t0 ==>
      && id in t && t[id].rec.id == t0[id].rec.id
      && (t[id] == t0[id] ||
          (Candidate(t0[id], servers) && RepairsTo(t0[id], t[id], servers[t0[id].rec.serverOpId])))
  }

  /** Who is still waiting. */
  predicate Waiting(t0: Table, t: Table, todo: set<string>, servers: map<string, ServerState>) {
    forall id :: id in todo ==> id in t0 && id in t && t[id] == t0[id] && Candidate(t0[id], servers)
  }

  /** A candidate that was handled without an error is stuck only behind another owner of its key. */
  predicate OnlyOwnedStuck(t0: Table, t: Table, todo: set<string>,
                           servers: map<string, ServerState>, ok: string -> bool)
    requires t.Keys == t0.Keys
  {
    forall id :: id in t0 && id !in todo && ok(id) && Candidate(t0[id], servers) ==>
      Stuck(t0[id], t[id], servers) ==> !Unowned(t, t[id].rec.id.opKey)
  }

  /** A candidate that was handled without an error carries its repair. */
  predicate HandledRepaired(t0: Table, t: Table, todo: set<string>,
                            servers: map<string, ServerState>, ok: string -> bool)
    requires t.Keys == t0.Keys
  {
    forall id :: id in t0 && id !in todo && ok(id) && Candidate(t0[id], servers) && t[id].rec.id.opKey != "" ==>
      RepairsTo(t0[id], t[id], servers[t0[id].rec.serverOpId])
  }

  /** Where the repair loop stands. */
  predicate Progress(t0: Table, t: Table, todo: set<string>, servers: map<string, ServerState>, ok: string -> bool) {
    && t.Keys == t0.Keys && RowsRepaired(t0, t, servers) && Waiting(t0, t, todo, servers)
    && OnlyOwnedStuck(t0, t, todo, servers, ok) && HandledRepaired(t0, t, todo, servers, ok)
  }

  lemma ProgressStep(t0: Table, t: Table, t': Table, todo: set<string>, id: string,
                     servers: map<string, ServerState>, ok: string -> bool)
    requires Progress(t0, t, todo, servers, ok) && id in todo
    requires id in t' && t' == t[id := t'[id]]
    requires var server := servers[t[id].rec.serverOpId];
             && (t'[id] == t[id] || RepairsTo(t[id], t'[id], server))
             && (ok(id) && t'[id].rec.id.opKey != "" ==>
                   t'[id] == RepairedRow(t[id], server, !Unowned(t, t'[id].rec.id.opKey)))
    ensures Progress(t0, t', todo - {id}, servers, ok)
  {
    assert t'[id].rec.id == t[id].rec.id;
    StuckStep(t0, t, t', todo, id, servers, ok);
    HandledStep(t0, t, t', todo, id, servers, ok);
  }

  lemma HandledStep(t0: Table, t: Table, t': Table, todo: set<string>, id: string,
                    servers: map<string, ServerState>, ok: string -> bool)
    requires t.Keys == t0.Keys && HandledRepaired(t0, t, todo, servers, ok) && id in t0 && t[id] == t0[id]
    requires Candidate(t0[id], servers) && id in t' && t' == t[id := t'[id]]
    requires ok(id) && t'[id].rec.id.opKey != "" ==> RepairsTo(t[id], t'[id], servers[t[id].rec.serverOpId])
    ensures t'.Keys == t0.Keys && HandledRepaired(t0, t', todo - {id}, servers, ok)
  {
  }

  lemma StuckStep(t0: Table, t: Table, t': Table, todo: set<string>, id: string,
                  servers: map<string, ServerState>, ok: string -> bool)
    requires t.Keys == t0.Keys && OnlyOwnedStuck(t0, t, todo, servers, ok) && id in t0 && t[id] == t0[id]
    requires Candidate(t0[id], servers) && id in t' && t' == t[id := t'[id]] && t'[id].rec.id == t[id].rec.id
    requires ok(id) && t'[id].rec.id.opKey != "" ==>
               t'[id] == RepairedRow(t[id], servers[t[id].rec.serverOpId], !Unowned(t, t'[id].rec.id.opKey))
    ensures t'.Keys == t0.Keys && OnlyOwnedStuck(t0, t', todo - {id}, servers, ok)
  {
    OwnersSurvive(t, t', id);
    forall k | k in t0 && k !in todo - {id} && ok(k) && Candidate(t0[k], servers) && Stuck(t0[k], t'[k], servers)
      ensures !Unowned(t', t'[k].rec.id.opKey)
    {
      if k != id {
        assert t'[k] == t[k];
      }
    }
  }

  lemma {:induction false} ConcatChanges(t: Table, cs: seq<Change>, ds: seq<Change>)
    requires AllAllowed(t, cs) && AllAllowed(ChangeAll(t, cs), ds)
    ensures AllAllowed(t, cs + ds) && ChangeAll(t, cs + ds) == ChangeAll(ChangeAll(t, cs), ds)
    decreases |ds|
  {
    if ds == [] {
      assert cs + ds == cs;
    } else {
      assert (cs + ds)[..|cs + ds| - 1] == cs + ds[..|ds| - 1];
      ConcatChanges(t, cs, ds[..|ds| - 1]);
    }
  }

  /** Rewriting a failed row in place takes no key away from anyone. */
  lemma OwnersSurvive(t: Table, t': Table, id: string)
    requires id in t && id in t' && t' == t[id := t'[id]] && t'[id].rec.id == t[id].rec.id
    requires t[id].rec.status == StatusFailed
    ensures forall key :: !Unowned(t, key) ==> !Unowned(t', key)
  {
    forall key | !Unowned(t, key) ensures !Unowned(t', key) {
      var owner :| owner in t && Owns(t, owner, key);
      assert Owns(t', owner, key);
    }
  }
}
