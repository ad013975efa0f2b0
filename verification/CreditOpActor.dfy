/**
 * The durable per-operation actor: opBehavior and the store it writes.
 *
 * A turn takes the replies its calls get and the outcome of each durable write as
 * functions of the step number. Every turn is proved to be a run of the transition
 * system in CreditMachine, so what CreditRuns and its companions prove of all runs
 * holds of this code.
 */
module CreditOpActor {
  import opened Basics
  import opened CreditTypes
  import opened CreditMachine
  import opened CreditRuns

  /** The operation's durable row and the daemon it funds through, with their history. */
  class World {
    var row: Row
    var daemon: Daemon
    ghost var log: seq<Entry>
    ghost var polls: nat

    ghost function With(mem: Mem): Sys
      reads this
    {
      Sys(row, mem, daemon, log, polls)
    }

    constructor (row: Row, daemon: Daemon)
      ensures this.row == row && this.daemon == daemon && log == [] && polls == 0
    {
      this.row := row;
      this.daemon := daemon;
      log := [];
      polls := 0;
    }

    /** One durable write; it may report failure whether or not it landed. */
    method Write(row: Row, w: Write, ghost counted: bool) returns (ok: bool)
      modifies this
      ensures ok <==> w == Landed
      ensures daemon == old(daemon)
      ensures w == FailedLost ==> this.row == old(this.row) && log == old(log) && polls == old(polls)
      ensures w != FailedLost ==>
                && this.row == row
                && log == old(log) + [Wrote(row)]
                && polls == if row.rec.state != old(this.row.rec.state) then 0
                            else if counted then old(polls) + 1 else old(polls)
    {
      if w != FailedLost {
        polls := if row.rec.state != this.row.rec.state then 0 else if counted then polls + 1 else polls;
        this.row := row;
        log := log + [Wrote(row)];
      }
      ok := w == Landed;
    }
  }

  /** A row holding a state text no version wrote. */
  predicate Corrupted(s: Sys) {
    && s.row.rec.state.Unrecognized? && s.row.blob.Some?
    && s.mem.Idle? && (!s.mem.stale ==> Restore(s.row) == Some(s.mem.op))
  }

  class OpBehavior {
    const cfg: Config
    const world: World

    var rec: Record
    var redeemPkScript: Bytes
    var receiveMemo: Bytes
    var creditOnly: bool
    var awaitPolls: Uint32
    var curState: State
    var corruptState: bool
    var commitFailed: bool
    var armRetry: bool
    var pendingRedeem: Option<nat>
    var terminalCommitted: bool

    function Memory(): Op
      reads this
    {
      Op(rec, redeemPkScript, receiveMemo, creditOnly, awaitPolls, curState, corruptState)
    }

    /** The system between turns. */
    ghost function System(): Sys
      reads this, world
    {
      world.With(Idle(Memory(), commitFailed))
    }

    /** NewOpActor: a child is built from the row it restores. */
    constructor (cfg: Config, world: World)
      requires Restore(world.row).Some?
      ensures this.cfg == cfg && this.world == world
      ensures Restore(world.row) == Some(Memory()) && !commitFailed
      ensures !TerminalStatus(world.row.rec.status) ==> System() == Next(cfg, world.With(Gone), Spawn)
    {
      this.cfg := cfg;
      this.world := world;
      var op := Restore(world.row).value;
      rec := op.rec;
      redeemPkScript := op.script;
      receiveMemo := op.memo;
      creditOnly := op.creditOnly;
      awaitPolls := op.polls;
      curState := op.cur;
      corruptState := op.corrupt;
      commitFailed, armRetry, terminalCommitted := false, false, false;
      pendingRedeem := None;
    }

    method Load(op: Op)
      modifies this
      ensures Memory() == op
      ensures commitFailed == old(commitFailed) && armRetry == old(armRetry)
      ensures pendingRedeem == old(pendingRedeem) && terminalCommitted == old(terminalCommitted)
    {
      rec := op.rec;
      redeemPkScript := op.script;
      receiveMemo := op.memo;
      creditOnly := op.creditOnly;
      awaitPolls := op.polls;
      curState := op.cur;
      corruptState := op.corrupt;
    }

    /** The reload at the top of Receive: after a failed turn, re-read the row or give up. */
    method Reload(reloadOk: bool) returns (ok: bool)
      modifies this
      ensures !ok ==> System() == old(System()) == Next(cfg, old(System()), Deliver(reloadOk)) && commitFailed
      ensures ok ==> !commitFailed && Next(cfg, old(System()), Deliver(reloadOk)) == Dispatch(System(), Memory())
      ensures ok ==> Memory() == old(Memory()) || Restore(world.row) == Some(Memory())
    {
      ok := true;
      if commitFailed {
        var op := Restore(world.row);
        ok := reloadOk && op.Some?;
        if ok {
          Load(op.value);
          commitFailed := false;
        }
      }
    }

    method ApplyStateTo(next: State)
      modifies this
      ensures Memory() == ApplyState(old(Memory()), next)
      ensures commitFailed == old(commitFailed) && armRetry == old(armRetry)
      ensures pendingRedeem == old(pendingRedeem) && terminalCommitted == old(terminalCommitted)
    {
      if rec.state != Known(next) {
        awaitPolls := 0;
      }
      rec := rec.(state := Known(next), status := StatusOf(next));
      curState := next;
    }

    /** Mirror a transition onto the record and flush the checkpoint it asks for. */
    method Mirror(step: Driven, w: Write) returns (landed: bool)
      requires step.trans.Move?
      modifies this, world
      ensures commitFailed == old(commitFailed) && armRetry == old(armRetry) && pendingRedeem == old(pendingRedeem)
      ensures Memory() == ApplyState(step.trans.op, step.trans.next)
      ensures landed == (step.trans.stage ==> w == Landed)
      ensures var s1 := old(world.With(Gone)).(log := old(world.log) + step.entries, daemon := step.daemon);
              world.With(Gone) == if step.trans.stage && w != FailedLost then Store(s1, Memory(), false) else s1
    {
      world.daemon := step.daemon;
      world.log := world.log + step.entries;
      Load(step.trans.op);
      ApplyStateTo(step.trans.next);
      landed := true;
      if step.trans.stage {
        landed := world.Write(Persist(Memory()), w, false);
      }
    }

    /** The body of the runFSM loop, given what ProcessEvent returned: apply, checkpoint, or park. */
    method Apply(step: Driven, w: Write) returns (ok: bool, parked: bool)
      modifies this, world
      ensures commitFailed == old(commitFailed)
      ensures pendingRedeem == if ok && step.trans.Move? && step.trans.redeem.Some? then step.trans.redeem
                               else old(pendingRedeem)
      ensures armRetry == (old(armRetry) || (ok && parked))
      ensures !ok ==>
                world.With(Idle(Memory(), true)) == Take(old(world.With(Driving(Memory()))), old(Memory()), step, w)
      ensures ok ==>
                && step.trans.Move? && parked == step.trans.park
                && curState == step.trans.next && rec.id == step.trans.op.rec.id
                && world.With(if parked || Terminal(curState) then Committing(Memory(), step.trans.counted)
                              else Driving(Memory()))
                   == Take(old(world.With(Driving(Memory()))), old(Memory()), step, w)
    {
      if step.trans.Fault? {
        world.daemon := step.daemon;
        world.log := world.log + step.entries;
        return false, false;
      }
      ok := Mirror(step, w);
      parked := step.trans.park;
      if ok {
        if step.trans.redeem.Some? {
          pendingRedeem := step.trans.redeem;
        }
        armRetry := armRetry || parked;
      }
    }

    /** What the turn asks the registry to redeem is what its last step asked for. */
    ghost predicate RedeemAskedBy(s0: Sys, es: seq<Event>)
      requires es != [] && es[|es| - 1].Drive?
      reads this
    {
      var s := Run(cfg, s0, es[..|es| - 1]);
      && s.mem.Driving?
      && Process(cfg, s.mem.op, s.daemon, es[|es| - 1].c).trans.Move?
      && pendingRedeem == Process(cfg, s.mem.op, s.daemon, es[|es| - 1].c).trans.redeem
    }

    /**
     * runFSM: step until the operation parks or is terminal. The loop ends because an
     * unparked step strictly raises the state's rank; the steps taken are a run.
     */
    method RunFSM(env: nat -> Replies, writes: nat -> Write)
      returns (ok: bool, counted: bool, ghost es: seq<Event>)
      requires Inv(world.With(Driving(Memory()))) && !armRetry && pendingRedeem.None?
      modifies this, world
      ensures ok ==> Run(cfg, old(world.With(Driving(Memory()))), es) == world.With(Committing(Memory(), counted))
      ensures !ok ==> Run(cfg, old(world.With(Driving(Memory()))), es) == world.With(Idle(Memory(), true))
      ensures ok ==> if armRetry then Awaiting(curState) else Terminal(curState)
      ensures ok && pendingRedeem.Some? ==> curState == Completed && rec.id.kind == Kind.Receive
      ensures ok ==> es != [] && es[|es| - 1].Drive? && RedeemAskedBy(old(world.With(Driving(Memory()))), es)
    {
      ghost var s0 := world.With(Driving(Memory()));
      es, counted := [], false;
      var k := 0;
      while true
        invariant Run(cfg, s0, es) == world.With(Driving(Memory()))
        invariant Inv(world.With(Driving(Memory())))
        invariant !armRetry && pendingRedeem.None?
        decreases 6 - Rank(curState)
      {
        ghost var op := Memory();
        var step := Process(cfg, Memory(), world.daemon, env(k));
        StepClimbs(cfg, op, world.daemon, env(k));
        InvTake(world.With(Driving(op)), step, writes(k));
        TriggerOnlyByReceive(cfg, op, world.daemon, env(k));
        RunSnoc(cfg, s0, es, Drive(env(k), writes(k)));
        assert (es + [Drive(env(k), writes(k))])[..|es|] == es;
        es := es + [Drive(env(k), writes(k))];

        var parked;
        ok, parked := Apply(step, writes(k));
        if !ok {
          return false, false, es;
        }
        if parked || Terminal(curState) {
          return true, step.trans.counted, es;
        }
        k := k + 1;
      }
    }

    /** failCorrupt: mirror a failure onto the record so that the turn's commit persists it. */
    method FailCorruptRow()
      modifies this
      ensures Memory() == FailCorrupt(old(Memory()))
      ensures commitFailed == old(commitFailed) && armRetry == old(armRetry) && pendingRedeem == old(pendingRedeem)
    {
      rec := rec.(lastError := CorruptState(ColumnText(rec.state)));
      ApplyStateTo(Failed);
      corruptState := false;
    }

    /** commitAck: the row write and the ack in one transaction. */
    method CommitAck(w: Write, counted: bool) returns (ok: bool)
      modifies this, world
      ensures System() == Next(cfg, old(world.With(Committing(Memory(), counted))), Commit(w))
      ensures Memory() == old(Memory()) && armRetry == old(armRetry) && pendingRedeem == old(pendingRedeem)
      ensures ok <==> !commitFailed
      ensures ok ==> world.row == Persist(Memory()) && (terminalCommitted <==> Terminal(curState))
    {
      ok := world.Write(Persist(Memory()), w, counted);
      commitFailed := !ok;
      if ok {
        terminalCommitted := Terminal(curState);
      }
    }

    /** dispatch: fail a corrupt row, leave a terminal one, drive any other. */
    method DispatchTurn(env: nat -> Replies, writes: nat -> Write)
      returns (ok: bool, counted: bool, ghost es: seq<Event>)
      requires !corruptState && !Terminal(curState) ==> Inv(world.With(Driving(Memory())))
      modifies this, world
      ensures ok ==> Run(cfg, old(Dispatch(System(), Memory())), es) == world.With(Committing(Memory(), counted))
      ensures !ok ==> Run(cfg, old(Dispatch(System(), Memory())), es) == world.With(Idle(Memory(), true))
      ensures ok && armRetry ==> Awaiting(curState)
      ensures ok && !armRetry ==> Terminal(curState)
      ensures ok && pendingRedeem.Some? ==> curState == Completed && rec.id.kind == Kind.Receive
    {
      armRetry := false;
      pendingRedeem := None;
      ok, counted, es := true, false, [];
      if corruptState {
        FailCorruptRow();
      } else if !Terminal(curState) {
        ok, counted, es := RunFSM(env, writes);
      }
    }

    /**
     * Receive: reload after a failed turn, drive, and consume the message with one commit.
     * Whatever fails on the way, the turn is a run of the system from its state before.
     */
    method Receive(reloadOk: bool, env: nat -> Replies, writes: nat -> Write, commit: Write)
      returns (ok: bool, ghost es: seq<Event>)
      requires Inv(System()) || Corrupted(System())
      modifies this, world
      ensures System() == Run(cfg, old(System()), es)
      ensures ok ==> !commitFailed && world.row == Persist(Memory())
      ensures ok ==> (terminalCommitted <==> Terminal(curState)) && (armRetry <==> !Terminal(curState))
      ensures ok && pendingRedeem.Some? ==> curState == Completed && rec.id.kind == Kind.Receive
      ensures !ok ==> commitFailed
    {
      ghost var s0 := System();
      RunSnoc(cfg, s0, [], Deliver(reloadOk));
      es := [Deliver(reloadOk)];
      assert [] + es == es;
      if Inv(s0) {
        InvNext(cfg, s0, Deliver(reloadOk));
      }
      ok := Reload(reloadOk);
      if !ok {
        return;
      }

      var counted;
      ghost var steps;
      ok, counted, steps := DispatchTurn(env, writes);
      RunConcat(cfg, s0, es, steps);
      es := es + steps;
      if !ok {
        commitFailed := true;
        return;
      }

      RunSnoc(cfg, s0, es, Commit(commit));
      es := es + [Commit(commit)];
      ok := CommitAck(commit, counted);
    }
  }

  lemma RunSnoc(cfg: Config, s: Sys, es: seq<Event>, e: Event)
    ensures Run(cfg, s, es + [e]) == Next(cfg, Run(cfg, s, es), e)
  {
    assert (es + [e])[..|es + [e]| - 1] == es;
  }

  /** Only a receive that settled asks for an auto-redeem. */
  lemma TriggerOnlyByReceive(cfg: Config, op: Op, d: Daemon, c: Replies)
    requires Synced(op)
    ensures var t := Process(cfg, op, d, c).trans;
            t.Move? && t.redeem.Some? ==>
              && op.rec.id.kind == Kind.Receive && t.next == Completed
              && ServerOpState(c.list.ledger, op.rec.serverOpId) == Some(Credited)
  {
  }
}
