/** Runs of a redemption: one destination, durable before it is used. */
module CreditRedeemRuns {
  import opened Basics
  import opened CreditTypes
  import opened CreditMachine
  import opened CreditRuns

  /** A write landed before position i that put dest in the durable row. */
  predicate BoundBefore(log: seq<Entry>, i: int, dest: Bytes) {
    exists j :: 0 <= j < i <= |log| && log[j].Wrote? && log[j].row.rec.destination == dest
  }

  predicate CallOk(log: seq<Entry>, i: int, key: string, amount: nat, dest: Bytes, script: Bytes)
    requires 0 <= i < |log|
  {
    && (log[i].CalledRedeem? ==> dest != [] && log[i] == CalledRedeem(key, amount, dest) && BoundBefore(log, i, dest))
    && (log[i].LookedFor? ==> dest != [] && log[i].script == script)
  }

  predicate CallsOk(log: seq<Entry>, key: string, amount: nat, dest: Bytes, script: Bytes) {
    forall i :: 0 <= i < |log| ==> CallOk(log, i, key, amount, dest, script)
  }

  predicate Bound(log: seq<Entry>, dest: Bytes, script: Bytes) {
    script != [] && Allocated(dest, script) in log && BoundBefore(log, |log|, dest)
  }

  predicate RedeemRow(row: Row, log: seq<Entry>, amount: nat)
    requires RowOk(row)
  {
    && row.rec.id.kind == Redeem
    && CallsOk(log, row.rec.id.opKey, amount, row.rec.destination, row.blob.value.script)
    && (row.rec.destination != [] ==> Bound(log, row.rec.destination, row.blob.value.script))
    && (RowState(row) == RedeemReserving ==> row.rec.destination == [] && row.blob.value.script == [])
    && (RowState(row) == RedeemSubmitting || RowState(row) == AwaitingOOR ==> row.rec.destination != [])
    && (!Terminal(RowState(row)) ==> row.rec.terms.amount == amount)
  }

  predicate RedeemMem(row: Row, mem: Mem, amount: nat)
    requires RowOk(row)
  {
    && (mem.Driving? && mem.op.cur != RedeemReserving ==> row.rec.destination != [])
    && (mem.Driving? || mem.Committing? ==>
          && (!Terminal(mem.op.cur) ==> mem.op.rec.terms.amount == amount)
          && mem.op.rec.destination == row.rec.destination && mem.op.script == row.blob.value.script)
  }

  predicate RedeemInv(s: Sys, amount: nat) {
    Inv(s) && RedeemRow(s.row, s.log, amount) && RedeemMem(s.row, s.mem, amount)
  }

  /** Appending entries that are fine on their own keeps every call fine. */
  lemma CallsOkAppend(log: seq<Entry>, more: seq<Entry>, key: string, amount: nat, dest: Bytes, script: Bytes)
    requires CallsOk(log, key, amount, dest, script)
    requires forall i :: |log| <= i < |log + more| ==> CallOk(log + more, i, key, amount, dest, script)
    ensures CallsOk(log + more, key, amount, dest, script)
    ensures dest != [] && Bound(log, dest, script) ==> Bound(log + more, dest, script)
  {
    var all := log + more;
    forall i | 0 <= i < |all| ensures CallOk(all, i, key, amount, dest, script) {
      if i < |log| {
        assert all[i] == log[i] && CallOk(log, i, key, amount, dest, script);
        if all[i].CalledRedeem? {
          var j :| 0 <= j < i && log[j].Wrote? && log[j].row.rec.destination == dest;
          assert all[j] == log[j];
        }
      }
    }
    if dest != [] && Bound(log, dest, script) {
      var j :| 0 <= j < |log| && log[j].Wrote? && log[j].row.rec.destination == dest;
      assert all[j] == log[j];
    }
  }

  /** With no destination yet nothing was called, so the first one may be bound. */
  lemma FirstBinding(log: seq<Entry>, key: string, amount: nat, row: Row)
    requires CallsOk(log, key, amount, [], [])
    requires row.blob.Some? && row.rec.destination != [] && row.blob.value.script != []
    ensures var dest := row.rec.destination;
            var script := row.blob.value.script;
            var all := log + [Allocated(dest, script), Wrote(row)];
            CallsOk(all, key, amount, dest, script) && Bound(all, dest, script)
  {
    var all := log + [Allocated(row.rec.destination, row.blob.value.script), Wrote(row)];
    forall i | 0 <= i < |all| ensures CallOk(all, i, key, amount, row.rec.destination, row.blob.value.script) {
      if i < |log| { assert all[i] == log[i] && CallOk(log, i, key, amount, [], []); }
    }
    assert all[|log|] == Allocated(row.rec.destination, row.blob.value.script);
    assert all[|log| + 1] == Wrote(row);
  }

  /** The same destination and script. */
  predicate SameTarget(a: Op, b: Op) { a.rec.destination == b.rec.destination && a.script == b.script }

  /** What one step may do to the destination, and which calls it may issue. */
  predicate RedeemStep(op: Op, r: Driven) {
    && (forall i :: 0 <= i < |r.entries| ==>
          && !r.entries[i].Wrote?
          && (r.entries[i].CalledRedeem? ==>
                && op.cur != RedeemReserving
                && r.entries[i] == CalledRedeem(op.rec.id.opKey, op.rec.terms.amount, op.rec.destination))
          && (r.entries[i].LookedFor? ==> op.cur != RedeemReserving && r.entries[i].script == op.script))
    && (r.trans.Move? ==>
          var t := r.trans;
          && (!Terminal(t.next) ==> t.op.rec.terms.amount == op.rec.terms.amount)
          && ((t.op.rec.destination == op.rec.destination && t.op.script == op.script)
              || (op.cur == RedeemReserving && t.stage && t.op.rec.destination != [] && t.op.script != []
                  && r.entries == [Allocated(t.op.rec.destination, t.op.script)]))
          && (op.cur == RedeemReserving && !Terminal(t.next) ==> t.op.rec.destination != [] && t.op.script != []))
  }

  lemma RedeemSteps(cfg: Config, op: Op, d: Daemon, c: Replies)
    requires Synced(op) && op.rec.id.kind == Redeem && !Terminal(op.cur)
    ensures RedeemStep(op, Process(cfg, op, d, c))
  {
    match op.cur
    case RedeemReserving => ReserveStep(op, d, c);
    case RedeemSubmitting => SubmitStep(op, d, c);
    case AwaitingOOR => AwaitStep(cfg, op, d, c);
  }

  lemma ReserveStep(op: Op, d: Daemon, c: Replies)
    requires op.cur == RedeemReserving
    ensures RedeemStep(op, RedeemReserve(op, d, c))
  {
  }

  lemma SubmitStep(op: Op, d: Daemon, c: Replies)
    requires op.cur == RedeemSubmitting
    ensures RedeemStep(op, RedeemSubmit(op, d, c))
  {
  }

  lemma AwaitStep(cfg: Config, op: Op, d: Daemon, c: Replies)
    requires op.cur == AwaitingOOR
    ensures RedeemStep(op, RedeemAwait(cfg, op, d, c))
  {
  }

  lemma BindTake(s: Sys, r: Driven, w: Write, amount: nat)
    requires RedeemInv(s, amount) && s.mem.Driving?
    requires Climbs(s.mem.op, r.trans) && RedeemStep(s.mem.op, r)
    requires r.trans.Move? && !SameTarget(r.trans.op, s.mem.op)
    ensures RedeemInv(Take(s, s.mem.op, r, w), amount)
  {
    InvTake(s, r, w);
    var s' := Take(s, s.mem.op, r, w);
    var key := s.row.rec.id.opKey;
    if w != FailedLost {
      assert s'.log == s.log + [Allocated(s'.row.rec.destination, s'.row.blob.value.script), Wrote(s'.row)];
      FirstBinding(s.log, key, amount, s'.row);
    } else {
      CallsOkAppend(s.log, r.entries, key, amount, s.row.rec.destination, s.row.blob.value.script);
    }
  }

  lemma KeepTake(s: Sys, r: Driven, w: Write, amount: nat)
    requires RedeemInv(s, amount) && s.mem.Driving?
    requires Climbs(s.mem.op, r.trans) && RedeemStep(s.mem.op, r)
    requires r.trans.Move? ==> SameTarget(r.trans.op, s.mem.op)
    ensures RedeemInv(Take(s, s.mem.op, r, w), amount)
  {
    InvTake(s, r, w);
    TakeLog(s, s.mem.op, r, w);
    var s' := Take(s, s.mem.op, r, w);
    var more := s'.log[|s.log|..];
    assert s'.log == s.log + more;
    NewCallsOk(s, r, more, amount);
    CallsOkAppend(s.log, more, s.row.rec.id.opKey, amount, s.row.rec.destination, s.row.blob.value.script);
  }

  lemma NewCallsOk(s: Sys, r: Driven, more: seq<Entry>, amount: nat)
    requires RedeemInv(s, amount) && s.mem.Driving? && RedeemStep(s.mem.op, r)
    requires more == r.entries || exists row :: more == r.entries + [Wrote(row)]
    ensures forall i :: |s.log| <= i < |s.log + more| ==>
              CallOk(s.log + more, i, s.row.rec.id.opKey, amount, s.row.rec.destination, s.row.blob.value.script)
  {
    var all := s.log + more;
    var dest := s.row.rec.destination;
    if dest != [] {
      var j :| 0 <= j < |s.log| && s.log[j].Wrote? && s.log[j].row.rec.destination == dest;
      assert all[j] == s.log[j];
    }
    forall i | |s.log| <= i < |all|
      ensures CallOk(all, i, s.row.rec.id.opKey, amount, dest, s.row.blob.value.script)
    {
      assert all[i] == more[i - |s.log|];
    }
  }

  lemma RedeemDrive(cfg: Config, s: Sys, c: Replies, w: Write, amount: nat)
    requires RedeemInv(s, amount) && s.mem.Driving?
    ensures RedeemInv(Take(s, s.mem.op, Process(cfg, s.mem.op, s.daemon, c), w), amount)
  {
    var r := Process(cfg, s.mem.op, s.daemon, c);
    StepClimbs(cfg, s.mem.op, s.daemon, c);
    RedeemSteps(cfg, s.mem.op, s.daemon, c);
    if r.trans.Move? && !SameTarget(r.trans.op, s.mem.op) {
      BindTake(s, r, w, amount);
    } else {
      KeepTake(s, r, w, amount);
    }
  }

  lemma RedeemCommit(cfg: Config, s: Sys, w: Write, amount: nat)
    requires RedeemInv(s, amount) && s.mem.Committing?
    ensures RedeemInv(Next(cfg, s, Commit(w)), amount)
  {
    InvNext(cfg, s, Commit(w));
    var op := s.mem.op;
    CallsOkAppend(s.log, [Wrote(Persist(op))], s.row.rec.id.opKey, amount, op.rec.destination, op.script);
  }

  lemma RedeemOther(cfg: Config, s: Sys, e: Event, amount: nat)
    requires RedeemInv(s, amount) && !e.Drive? && !(e.Commit? && s.mem.Committing?)
    ensures RedeemInv(Next(cfg, s, e), amount)
  {
    InvNext(cfg, s, e);
    var s' := Next(cfg, s, e);
    assert s'.row == s.row && s'.log == s.log;
    assert RedeemMem(s.row, s'.mem, amount);
  }

  lemma RedeemNext(cfg: Config, s: Sys, e: Event, amount: nat)
    requires RedeemInv(s, amount)
    ensures RedeemInv(Next(cfg, s, e), amount)
  {
    if e.Drive? && s.mem.Driving? {
      RedeemDrive(cfg, s, e.c, e.w, amount);
    } else if e.Commit? && s.mem.Committing? {
      RedeemCommit(cfg, s, e.w, amount);
    } else if !e.Drive? {
      RedeemOther(cfg, s, e, amount);
    }
  }

  lemma {:induction false} RedeemRun(cfg: Config, s: Sys, es: seq<Event>)
    requires Admitted(s) && s.row.rec.id.kind == Redeem
    ensures RedeemInv(Run(cfg, s, es), s.row.rec.terms.amount)
    ensures Run(cfg, s, es).row.rec.id == s.row.rec.id
    decreases |es|
  {
    if es != [] {
      var mid := Run(cfg, s, es[..|es| - 1]);
      RedeemRun(cfg, s, es[..|es| - 1]);
      RedeemNext(cfg, mid, es[|es| - 1], s.row.rec.terms.amount);
      InvNext(cfg, mid, es[|es| - 1]);
    }
  }

  /**
   * In every run of a redemption all RedeemCredit calls carry the admitted amount and one
   * destination, a write that put that destination in the durable row landed before each
   * of them, and every payout lookup uses the script allocated together with it.
   */
  lemma OneDestination(cfg: Config, s: Sys, es: seq<Event>, i: nat, k: nat)
    requires Admitted(s) && s.row.rec.id.kind == Redeem
    requires i < |Run(cfg, s, es).log| && k < |Run(cfg, s, es).log|
    ensures var log := Run(cfg, s, es).log;
            && (log[i].CalledRedeem? ==>
                  && log[i].key == s.row.rec.id.opKey
                  && log[i].amount == s.row.rec.terms.amount
                  && BoundBefore(log, i, log[i].dest))
            && (log[i].CalledRedeem? && log[k].CalledRedeem? ==> log[i].dest == log[k].dest)
            && (log[i].CalledRedeem? && log[k].LookedFor? ==> Allocated(log[i].dest, log[k].script) in log)
  {
    RedeemRun(cfg, s, es);
    var t := Run(cfg, s, es);
    assert CallOk(t.log, i, t.row.rec.id.opKey, s.row.rec.terms.amount, t.row.rec.destination, t.row.blob.value.script);
    assert CallOk(t.log, k, t.row.rec.id.opKey, s.row.rec.terms.amount, t.row.rec.destination, t.row.blob.value.script);
  }
}
