/** Runs of a pay's Ark top-up: what is sent, and what a funding failure means. */
module CreditFundRuns {
  import opened Basics
  import opened CreditTypes
  import opened CreditMachine
  import opened CreditRuns
  import opened CreditRedeemRuns

  predicate SendFits(log: seq<Entry>, i: int, row: Row)
    requires 0 <= i < |log|
  {
    log[i].CalledSend? ==>
      && row.rec.destination != []
      && log[i].dest == row.rec.destination
      && log[i].amount == row.rec.terms.topup
      && log[i].key == row.rec.id.opKey
      && BoundBefore(log, i, row.rec.destination)
  }

  predicate SendsFit(log: seq<Entry>, row: Row) {
    forall i :: 0 <= i < |log| ==> SendFits(log, i, row)
  }

  /** The transfer under the key, unless it was there before the run, pays the row's destination. */
  predicate TransferOk(row: Row, d0: Daemon, d: Daemon) {
    var key := row.rec.id.opKey;
    key in d && key !in d0 ==>
      row.rec.destination != [] && d[key].dest == row.rec.destination && d[key].amount == row.rec.terms.topup
  }

  predicate FundRow(row: Row, log: seq<Entry>, d0: Daemon, d: Daemon)
    requires RowOk(row)
  {
    && row.rec.id.kind == Pay
    && SendsFit(log, row)
    && TransferOk(row, d0, d)
    && (row.rec.destination != [] ==> BoundBefore(log, |log|, row.rec.destination))
    && (RowState(row) == Quoting || RowState(row) == TopupCreating ==> row.rec.destination == [])
    && (RowState(row) == TopupFunding ==> row.rec.destination != [])
    && (row.rec.lastError.FundRejected? ==> Terminal(RowState(row)) && row.rec.id.opKey !in d)
  }

  predicate FundMem(row: Row, mem: Mem, d: Daemon)
    requires RowOk(row)
  {
    mem.Driving? || mem.Committing? ==>
      && mem.op.rec.destination == row.rec.destination
      && (mem.op.cur == TopupCreating ==> mem.op.rec.destination == [])
      && (mem.op.cur == TopupFunding ==> RowState(row) == TopupFunding)
      && (mem.op.rec.lastError.FundRejected? ==> Terminal(mem.op.cur) && mem.op.rec.id.opKey !in d)
  }

  predicate FundInv(s: Sys, d0: Daemon) {
    Inv(s) && FundRow(s.row, s.log, d0, s.daemon) && FundMem(s.row, s.mem, s.daemon)
  }

  lemma SendsFitAppend(log: seq<Entry>, more: seq<Entry>, row: Row)
    requires SendsFit(log, row)
    requires forall i :: 0 <= i < |more| && more[i].CalledSend? ==>
               && row.rec.destination != [] && more[i].dest == row.rec.destination
               && more[i].amount == row.rec.terms.topup && more[i].key == row.rec.id.opKey
    requires row.rec.destination != [] ==> BoundBefore(log, |log|, row.rec.destination)
    ensures SendsFit(log + more, row)
    ensures row.rec.destination != [] ==> BoundBefore(log + more, |log + more|, row.rec.destination)
  {
    var all := log + more;
    if row.rec.destination != [] {
      var j :| 0 <= j < |log| && log[j].Wrote? && log[j].row.rec.destination == row.rec.destination;
      assert all[j] == log[j];
    }
    forall i | 0 <= i < |all| ensures SendFits(all, i, row) {
      if i < |log| {
        assert all[i] == log[i] && SendFits(log, i, row);
        if all[i].CalledSend? {
          var j :| 0 <= j < i && log[j].Wrote? && log[j].row.rec.destination == row.rec.destination;
          assert all[j] == log[j];
        }
      } else {
        assert all[i] == more[i - |log|];
      }
    }
  }

  /** What one step may send, bind and record. */
  predicate FundStep(op: Op, d: Daemon, r: Driven) {
    var key := op.rec.id.opKey;
    && (forall i :: 0 <= i < |r.entries| && r.entries[i].CalledSend? ==>
          && op.cur == TopupFunding
          && r.entries[i].dest == op.rec.destination
          && r.entries[i].amount == op.rec.terms.topup && r.entries[i].key == key)
    && (r.daemon == d
        || (op.cur == TopupFunding && key !in d && key in r.daemon
            && r.daemon[key].dest == op.rec.destination && r.daemon[key].amount == op.rec.terms.topup))
    && (r.trans.Move? ==>
          var t := r.trans;
          && (t.op.rec.destination == op.rec.destination || (op.cur == TopupCreating && t.next == TopupFunding))
          && (t.next == TopupFunding ==>
                && op.cur == TopupCreating && t.stage && t.op.rec.destination != []
                && |r.entries| == 1 && r.entries[0].CalledCreate?)
          && (t.next == TopupCreating ==> op.cur == Quoting)
          && (t.op.rec.lastError.FundRejected? ==>
                op.rec.lastError.FundRejected?
                || (op.cur == TopupFunding && t.next == Failed && key !in r.daemon)))
  }

  lemma TopupCreateFunds(op: Op, d: Daemon, c: Replies)
    requires op.cur == TopupCreating
    ensures FundStep(op, d, TopupCreate(op, d, c))
  {
  }

  lemma TopupFundFunds(op: Op, d: Daemon, c: Replies)
    requires op.cur == TopupFunding
    ensures FundStep(op, d, TopupFund(op, d, c))
  {
  }

  lemma OthersFund(cfg: Config, op: Op, d: Daemon, c: Replies)
    requires Synced(op) && op.rec.id.kind == Pay
    requires op.cur == Quoting || op.cur == TopupAwaitingCredit || op.cur == Paying || op.cur == PayAwaitingSettlement
    ensures FundStep(op, d, Process(cfg, op, d, c))
  {
  }

  lemma FundSteps(cfg: Config, op: Op, d: Daemon, c: Replies)
    requires Synced(op) && !Terminal(op.cur) && op.rec.id.kind == Pay
    ensures FundStep(op, d, Process(cfg, op, d, c))
  {
    if op.cur == TopupCreating {
      TopupCreateFunds(op, d, c);
    } else if op.cur == TopupFunding {
      TopupFundFunds(op, d, c);
    } else {
      OthersFund(cfg, op, d, c);
    }
  }

  /** The first destination: nothing was sent before it, and its write is the binding one. */
  lemma FirstDestination(log: seq<Entry>, e: Entry, before: Row, row: Row)
    requires SendsFit(log, before) && before.rec.destination == [] && e.CalledCreate?
    ensures var all := log + [e] + [Wrote(row)];
            SendsFit(all, row) && BoundBefore(all, |all|, row.rec.destination)
  {
    var all := log + [e] + [Wrote(row)];
    forall i | 0 <= i < |all| ensures SendFits(all, i, row) {
      if i < |log| { assert all[i] == log[i] && SendFits(log, i, before); }
    }
    assert all[|log| + 1] == Wrote(row);
  }

  lemma StageDestination(s: Sys, d0: Daemon, r: Driven, w: Write)
    requires FundInv(s, d0) && s.mem.Driving?
    requires Climbs(s.mem.op, r.trans) && FundStep(s.mem.op, s.daemon, r)
    requires r.trans.Move? && r.trans.next == TopupFunding
    ensures FundInv(Take(s, s.mem.op, r, w), d0)
  {
    InvTake(s, r, w);
    var s' := Take(s, s.mem.op, r, w);
    assert r.entries == [r.entries[0]];
    if w != FailedLost {
      FirstDestination(s.log, r.entries[0], s.row, s'.row);
    } else {
      SendsFitAppend(s.log, r.entries, s.row);
    }
  }

  lemma KeepDestination(s: Sys, d0: Daemon, r: Driven, w: Write)
    requires FundInv(s, d0) && s.mem.Driving?
    requires Climbs(s.mem.op, r.trans) && FundStep(s.mem.op, s.daemon, r)
    requires !(r.trans.Move? && r.trans.next == TopupFunding)
    ensures FundInv(Take(s, s.mem.op, r, w), d0)
  {
    InvTake(s, r, w);
    TakeLog(s, s.mem.op, r, w);
    var s' := Take(s, s.mem.op, r, w);
    var more := s'.log[|s.log|..];
    assert s'.log == s.log + more;
    SendsFitAppend(s.log, more, s.row);
    assert SendsFit(s'.log, s'.row) by {
      forall i | 0 <= i < |s'.log| ensures SendFits(s'.log, i, s'.row) {
        assert SendFits(s'.log, i, s.row);
      }
    }
  }

  lemma FundCommit(cfg: Config, s: Sys, w: Write, d0: Daemon)
    requires FundInv(s, d0) && s.mem.Committing?
    ensures FundInv(Next(cfg, s, Commit(w)), d0)
  {
    InvNext(cfg, s, Commit(w));
    var s' := Next(cfg, s, Commit(w));
    SendsFitAppend(s.log, [Wrote(Persist(s.mem.op))], s.row);
    assert SendsFit(s'.log, s'.row) by {
      forall i | 0 <= i < |s'.log| ensures SendFits(s'.log, i, s'.row) {
        assert SendFits(s'.log, i, s.row);
      }
    }
  }

  lemma FundOther(cfg: Config, s: Sys, e: Event, d0: Daemon)
    requires FundInv(s, d0) && !e.Drive? && !(e.Commit? && s.mem.Committing?)
    ensures FundInv(Next(cfg, s, e), d0)
  {
    InvNext(cfg, s, e);
    var s' := Next(cfg, s, e);
    assert s'.row == s.row && s'.log == s.log && s'.daemon == s.daemon;
    assert FundMem(s.row, s'.mem, s.daemon);
  }

  lemma FundNext(cfg: Config, s: Sys, e: Event, d0: Daemon)
    requires FundInv(s, d0)
    ensures FundInv(Next(cfg, s, e), d0)
  {
    if e.Drive? && s.mem.Driving? {
      var r := Process(cfg, s.mem.op, s.daemon, e.c);
      StepClimbs(cfg, s.mem.op, s.daemon, e.c);
      FundSteps(cfg, s.mem.op, s.daemon, e.c);
      if r.trans.Move? && r.trans.next == TopupFunding {
        StageDestination(s, d0, r, e.w);
      } else {
        KeepDestination(s, d0, r, e.w);
      }
    } else if e.Commit? && s.mem.Committing? {
      FundCommit(cfg, s, e.w, d0);
    } else if !e.Drive? {
      FundOther(cfg, s, e, d0);
    }
  }

  /**
   * In every run, including those where an earlier send was accepted and only its reply was
   * lost: a pay durably failed for a refused top-up has no OOR transfer under its key, every
   * send carries the destination a landed write had staged, and the transfer a run binds
   * pays exactly that destination the admitted top-up.
   */
  lemma {:induction false} FundingIsExact(cfg: Config, s: Sys, es: seq<Event>)
    requires Admitted(s) && s.row.rec.id.kind == Pay
    ensures var t := Run(cfg, s, es);
            && FundInv(t, s.daemon) && t.row.rec.id == s.row.rec.id && t.row.rec.terms == s.row.rec.terms
            && (t.row.rec.lastError.FundRejected? ==> s.row.rec.id.opKey !in t.daemon)
            && (forall i :: 0 <= i < |t.log| && t.log[i].CalledSend? ==>
                  t.log[i].dest == t.row.rec.destination && BoundBefore(t.log, i, t.log[i].dest))
            && (s.row.rec.id.opKey in t.daemon && s.row.rec.id.opKey !in s.daemon ==>
                  t.daemon[s.row.rec.id.opKey].dest == t.row.rec.destination
                  && t.daemon[s.row.rec.id.opKey].amount == s.row.rec.terms.topup)
    decreases |es|
  {
    if es != [] {
      var mid := Run(cfg, s, es[..|es| - 1]);
      FundingIsExact(cfg, s, es[..|es| - 1]);
      FundNext(cfg, mid, es[|es| - 1], s.daemon);
      InvNext(cfg, mid, es[|es| - 1]);
    }
    var t := Run(cfg, s, es);
    forall i | 0 <= i < |t.log| && t.log[i].CalledSend?
      ensures t.log[i].dest == t.row.rec.destination && BoundBefore(t.log, i, t.log[i].dest)
    {
      assert SendFits(t.log, i, t.row);
    }
  }
}
