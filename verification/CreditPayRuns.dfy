/** Runs of a pay: what completes it and what keeps it open. */
module CreditPayRuns {
  import opened Basics
  import opened CreditTypes
  import opened CreditMachine
  import opened CreditRuns

  // ---------------------------------------------------------------- settlement

  /** Some ledger read so far proves the pay debited within its cap. */
  ghost predicate Proven(log: seq<Entry>, hash: Bytes, cap: nat) {
    exists i :: 0 <= i < |log| && log[i].SawLedger? && ProvesDebit(log[i].ledger, hash, cap)
  }

  lemma ProvenAppend(log: seq<Entry>, more: seq<Entry>, hash: Bytes, cap: nat)
    requires Proven(log, hash, cap) || Proven(more, hash, cap)
    ensures Proven(log + more, hash, cap)
  {
    if Proven(log, hash, cap) {
      var i :| 0 <= i < |log| && log[i].SawLedger? && ProvesDebit(log[i].ledger, hash, cap);
      assert (log + more)[i] == log[i];
    } else {
      var i :| 0 <= i < |more| && more[i].SawLedger? && ProvesDebit(more[i].ledger, hash, cap);
      assert (log + more)[|log| + i] == more[i];
    }
  }

  predicate CreditOnlyPay(rec: Record, creditOnly: bool) {
    rec.id.kind == Pay && creditOnly && rec.terms.hash != []
  }

  ghost predicate SettleInv(s: Sys) {
    && Inv(s) && CreditOnlyPay(s.row.rec, s.row.blob.value.creditOnly)
    && (RowState(s.row) == Completed ==> Proven(s.log, s.row.rec.terms.hash, s.row.rec.terms.maxCredit))
    && (s.mem.Committing? && s.mem.op.cur == Completed ==>
          Proven(s.log, s.row.rec.terms.hash, s.row.rec.terms.maxCredit))
  }

  ghost predicate SettleStep(op: Op, r: Driven) {
    r.trans.Move? && r.trans.next == Completed ==> Proven(r.entries, op.rec.terms.hash, op.rec.terms.maxCredit)
  }

  lemma SettleSteps(cfg: Config, op: Op, d: Daemon, c: Replies)
    requires Synced(op) && !Terminal(op.cur) && CreditOnlyPay(op.rec, op.creditOnly)
    ensures SettleStep(op, Process(cfg, op, d, c))
  {
    if op.cur == PayAwaitingSettlement {
      PayAwaitSettles(cfg, op, c);
    }
  }

  lemma PayAwaitSettles(cfg: Config, op: Op, c: Replies)
    requires op.cur == PayAwaitingSettlement
    ensures SettleStep(op, Driven(PayAwait(cfg, op, c), SawIfRead(c), map[]))
  {
    var t := PayAwait(cfg, op, c);
    if t.Move? && t.next == Completed {
      DebitedMeansProven(c.list.ledger, op.rec.terms.hash, op.rec.terms.maxCredit);
      assert SawIfRead(c)[0] == SawLedger(c.list.ledger);
    }
  }

  lemma SettleTake(s: Sys, r: Driven, w: Write)
    requires SettleInv(s) && s.mem.Driving? && Climbs(s.mem.op, r.trans) && SettleStep(s.mem.op, r)
    ensures SettleInv(Take(s, s.mem.op, r, w))
  {
    InvTake(s, r, w);
    if r.trans.Move? && r.trans.next == Completed {
      ProvenAppend(s.log, r.entries, s.row.rec.terms.hash, s.row.rec.terms.maxCredit);
    }
  }

  lemma SettleOther(cfg: Config, s: Sys, e: Event)
    requires SettleInv(s) && !e.Drive?
    ensures SettleInv(Next(cfg, s, e))
  {
    InvNext(cfg, s, e);
    var hash, cap := s.row.rec.terms.hash, s.row.rec.terms.maxCredit;
    if e.Commit? && s.mem.Committing? && Proven(s.log, hash, cap) {
      ProvenAppend(s.log, [Wrote(Persist(s.mem.op))], hash, cap);
    }
  }

  lemma SettleNext(cfg: Config, s: Sys, e: Event)
    requires SettleInv(s)
    ensures SettleInv(Next(cfg, s, e))
  {
    if !e.Drive? {
      SettleOther(cfg, s, e);
    } else if s.mem.Driving? {
      StepClimbs(cfg, s.mem.op, s.daemon, e.c);
      SettleSteps(cfg, s.mem.op, s.daemon, e.c);
      SettleTake(s, Process(cfg, s.mem.op, s.daemon, e.c), e.w);
    }
  }

  /**
   * In every run a credit-only pay with a payment hash is durably completed only after a
   * ledger snapshot showed its hash DEBITED with an amount above zero and within the cap
   * it was admitted with.
   */
  lemma {:induction false} CompletesOnlyWhenDebited(cfg: Config, s: Sys, es: seq<Event>)
    requires Admitted(s) && CreditOnlyPay(s.row.rec, s.row.blob.value.creditOnly)
    ensures var t := Run(cfg, s, es);
            && SettleInv(t) && t.row.rec.terms == s.row.rec.terms
            && (RowState(t.row) == Completed ==> Proven(t.log, s.row.rec.terms.hash, s.row.rec.terms.maxCredit))
    decreases |es|
  {
    if es != [] {
      var mid := Run(cfg, s, es[..|es| - 1]);
      CompletesOnlyWhenDebited(cfg, s, es[..|es| - 1]);
      SettleNext(cfg, mid, es[|es| - 1]);
      InvNext(cfg, mid, es[|es| - 1]);
    }
  }

  // ---------------------------------------------------------------- intervention

  /** Contradictory evidence is on the durable row. */
  predicate Standing(row: Row) {
    RowOk(row) && row.rec.id.kind == Pay && RowState(row) == PayAwaitingSettlement && row.rec.lastError != NoError
  }

  /** A snapshot read at or after position from names the hash without contradicting the cap. */
  predicate ConsistentSince(log: seq<Entry>, from: nat, hash: Bytes, cap: nat) {
    exists i :: from <= i < |log| && log[i].SawLedger? && AuthorizedPayState(log[i].ledger, hash, cap).Evidence?
  }

  predicate HeldOpen(s: Sys) {
    && Standing(s.row)
    && (s.mem.Driving? || s.mem.Committing? ==>
          s.mem.op.cur == PayAwaitingSettlement && s.mem.op.rec.lastError != NoError)
  }

  lemma HeldStep(cfg: Config, op: Op, c: Replies)
    requires op.cur == PayAwaitingSettlement && op.rec.lastError != NoError
    ensures var t := PayAwait(cfg, op, c);
            || t.Fault?
            || (t.park && t.next == PayAwaitingSettlement && t.op.rec.lastError != NoError)
            || ConsistentSince(SawIfRead(c), 0, op.rec.terms.hash, op.rec.terms.maxCredit)
  {
    if c.acctOk && c.list.ListOk? {
      assert SawIfRead(c)[0] == SawLedger(c.list.ledger);
    }
  }

  lemma HeldTake(s: Sys, t: Trans, w: Write, entries: seq<Entry>)
    requires Inv(s) && HeldOpen(s) && s.mem.Driving? && Climbs(s.mem.op, t)
    requires t.Fault? || (t.park && t.next == PayAwaitingSettlement && t.op.rec.lastError != NoError)
    ensures HeldOpen(Take(s, s.mem.op, Driven(t, entries, s.daemon), w))
  {
  }

  lemma HeldOther(cfg: Config, s: Sys, e: Event)
    requires Inv(s) && HeldOpen(s) && !e.Drive?
    ensures HeldOpen(Next(cfg, s, e))
  {
  }

  lemma HeldNext(cfg: Config, s: Sys, e: Event)
    requires Inv(s) && HeldOpen(s)
    ensures var s' := Next(cfg, s, e);
            || HeldOpen(s')
            || (s.log <= s'.log && ConsistentSince(s'.log, |s.log|, s.row.rec.terms.hash, s.row.rec.terms.maxCredit))
  {
    if !e.Drive? {
      HeldOther(cfg, s, e);
    } else if s.mem.Driving? {
      var op := s.mem.op;
      var entries := SawIfRead(e.c);
      var t := PayAwait(cfg, op, e.c);
      PayAwaitClimbs(cfg, op, e.c);
      HeldStep(cfg, op, e.c);
      assert Process(cfg, op, s.daemon, e.c) == Driven(t, entries, s.daemon);
      if ConsistentSince(entries, 0, op.rec.terms.hash, op.rec.terms.maxCredit) {
        TakeLog(s, op, Driven(t, entries, s.daemon), e.w);
        assert Next(cfg, s, e).log[|s.log|] == entries[0];
      } else {
        HeldTake(s, t, e.w, entries);
      }
    }
  }

  /**
   * Once contradictory evidence is committed, nothing (missing evidence, the poll cap,
   * crashes, restarts) takes the pay out of settlement or clears the evidence until a
   * snapshot consistent with the cap names the hash.
   */
  lemma {:induction false} ContradictionHolds(cfg: Config, s: Sys, es: seq<Event>)
    requires Inv(s) && Standing(s.row) && (s.mem.Gone? || s.mem.Idle?)
    ensures var t := Run(cfg, s, es);
            && Inv(t) && s.log <= t.log
            && t.row.rec.terms == s.row.rec.terms && t.row.rec.id.kind == Pay
            && (HeldOpen(t) || ConsistentSince(t.log, |s.log|, s.row.rec.terms.hash, s.row.rec.terms.maxCredit))
    decreases |es|
  {
    if es != [] {
      var mid := Run(cfg, s, es[..|es| - 1]);
      var e := es[|es| - 1];
      var hash, cap := s.row.rec.terms.hash, s.row.rec.terms.maxCredit;
      ContradictionHolds(cfg, s, es[..|es| - 1]);
      InvNext(cfg, mid, e);
      if HeldOpen(mid) {
        HeldNext(cfg, mid, e);
      } else {
        var i :| && |s.log| <= i < |mid.log| && mid.log[i].SawLedger?
                 && AuthorizedPayState(mid.log[i].ledger, hash, cap).Evidence?;
        assert Next(cfg, mid, e).log[i] == mid.log[i];
      }
    }
  }
}
