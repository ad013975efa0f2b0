/**
 * The select loop of ConfActor and SpendActor as an object: the loop's variables, the
 * channels it selects on, its armers and the backend forwarder behind the channels. Each arm
 * and each step of the other goroutines is one event of the machine, so a watch driven by any
 * schedule is a run of it.
 */
module LifecycleActor {
  import opened Basics
  import opened LifecycleWatch
  import opened LifecycleRuns
  import opened LifecycleReports

  /** Keeps a Done from overtaking the positive it belongs to. */
  class PositiveDoneOrder {
    var positive: bool
    var pendingDone: bool

    constructor ()
      ensures !positive && !pendingDone
    {
      positive, pendingDone := false, false;
    }

    method ObservePositive() returns (release: bool)
      modifies this
      ensures positive && pendingDone == old(pendingDone) && release == pendingDone
    {
      positive := true;
      release := pendingDone;
    }

    method ObserveReorg()
      modifies this
      ensures !positive && !pendingDone
    {
      positive := false;
      pendingDone := false;
    }

    method ObserveDone() returns (deliver: bool)
      modifies this
      ensures positive == old(positive) && deliver == positive && pendingDone == (old(pendingDone) || !positive)
    {
      if positive {
        return true;
      }
      pendingDone := true;
      return false;
    }
  }

  /** One registration's forwarder: the single point that orders and stamps signals. */
  class SignalForwarder {
    const order: PositiveDoneOrder
    var live: bool
    var seqNo: nat
    var finishing: bool

    ghost function View(): Forwarder
      reads this, order
    {
      Forwarder(live, order.positive, order.pendingDone, finishing)
    }

    constructor ()
      ensures View() == INIT.f && seqNo == 0 && fresh(order)
    {
      order := new PositiveDoneOrder();
      live, seqNo, finishing := true, 0, false;
    }

    /** Stamps a confirmation or spend; a deferred Done may follow it. */
    method StampPositive(blockHeight: Uint32, buildable: bool, detail: nat) returns (p: Positive)
      modifies this, order
      ensures seqNo == old(seqNo) + 1 && p == Positive(seqNo, blockHeight, buildable, detail)
      ensures View() == old(View()).(positive := true, finishing := old(order.pendingDone))
    {
      seqNo := seqNo + 1;
      p := Positive(seqNo, blockHeight, buildable, detail);
      finishing := order.ObservePositive();
    }

    method StampReorg() returns (n: nat)
      modifies this, order
      ensures seqNo == old(seqNo) + 1 && n == seqNo
      ensures View() == old(View()).(positive := false, pendingDone := false)
    {
      seqNo := seqNo + 1;
      n := seqNo;
      order.ObserveReorg();
    }

    /** A Done is passed on after a positive and remembered before one. */
    method SeeDone()
      requires !finishing
      modifies this, order
      ensures seqNo == old(seqNo)
      ensures View() == if old(order.positive) then old(View()).(finishing := true)
                        else old(View()).(pendingDone := true)
    {
      finishing := order.ObserveDone();
    }

    method Stop()
      modifies this
      ensures View() == old(View()).(live := false) && seqNo == old(seqNo)
    {
      live := false;
    }
  }

  /** What the block stream has buffered, and whether it is closed behind that. */
  datatype BlockChannel = BlockChannel(queue: seq<Option<Int32>>, closed: bool)

  class Watch {
    const cfg: Config
    const order: PositiveDoneOrder
    const fwd: SignalForwarder

    // The loop's variables.
    var live: bool
    var lastSeq: nat
    var lastEvent: Option<Positive>
    var height: Int32
    var doneOpen: bool
    var arming: bool
    var blockReg: Option<nat>

    // The channels it selects on, and the goroutines it launches.
    var posQ: seq<Positive>
    var reorgQ: seq<nat>
    var doneQ: nat
    var blocks: BlockChannel
    var armers: seq<Armer>
    var ctxDone: bool

    // What the outside sees: registrations obtained and cancelled, and deliveries.
    var obtained: set<nat>
    var cancelled: set<nat>
    var out: seq<Delivery>

    ghost var sent: seq<Signal>
    ghost var consumed: set<nat>

    ghost predicate Valid()
      reads this, fwd
    {
      order != fwd.order && |sent| == fwd.seqNo
    }

    ghost function View(): Actor
      reads this, order
    {
      Actor(live, lastSeq, lastEvent, height, order.positive, order.pendingDone, doneOpen, arming, blockReg)
    }

    ghost function System(): Sys
      reads this, order, fwd, fwd.order
    {
      Sys(fwd.View(), sent, posQ, reorgQ, doneQ, View(), ctxDone, armers, blocks.queue, blocks.closed,
          obtained, cancelled, consumed, out)
    }

    constructor (cfg: Config)
      ensures this.cfg == cfg && Valid() && System() == INIT
      ensures fresh(order) && fresh(fwd) && fresh(fwd.order)
    {
      this.cfg := cfg;
      order := new PositiveDoneOrder();
      fwd := new SignalForwarder();
      live, lastSeq, lastEvent, height := true, 0, None, 0;
      doneOpen, arming, blockReg := true, false, None;
      posQ, reorgQ, doneQ, blocks := [], [], 0, BlockChannel([], true);
      armers, ctxDone := [], false;
      obtained, cancelled, out := {}, {}, [];
      sent, consumed := [], {};
    }

    // -------------------------------------------------------------- what the arms do

    /** The loop took exactly this turn. */
    twostate predicate Took(t: Turn)
      reads this, order
    {
      && View() == t.a
      && out == old(out) + t.out
      && cancelled == old(cancelled) + t.cancel
      && armers == (if t.arm then old(armers) + [Working] else old(armers))
      && ctxDone == (old(ctxDone) || !t.a.live)
    }

    /** Return from the loop: its deferred calls cancel the watch and a held block stream. */
    method Exit()
      modifies this`live, this`lastSeq, this`lastEvent, this`height, this`doneOpen, this`arming, this`blockReg
      modifies this`armers, this`ctxDone, this`cancelled, this`out
      ensures Took(Leave(old(View()), []))
    {
      live := false;
      ctxDone := true;
      if blockReg.Some? {
        cancelled := cancelled + {blockReg.value};
        blockReg := None;
      }
    }

    method FinishWith(why: Why)
      modifies this`live, this`lastSeq, this`lastEvent, this`height, this`doneOpen, this`arming, this`blockReg
      modifies this`armers, this`ctxDone, this`cancelled, this`out
      ensures Took(Finish(cfg, old(View()), why, []))
    {
      if cfg.wantDone {
        out := out + [Done(lastEvent, why)];
      }
      Exit();
    }

    method LaunchArmer()
      modifies this`arming, this`armers
      ensures arming && armers == old(armers) + [Working]
    {
      arming := true;
      armers := armers + [Working];
    }

    method HandlePositive(p: Positive)
      requires live
      modifies this`live, this`lastSeq, this`lastEvent, this`height, this`doneOpen, this`arming, this`blockReg
      modifies this`armers, this`ctxDone, this`cancelled, this`out
      modifies order
      ensures Took(OnPositive(cfg, old(View()), p))
    {
      if p.seqNo != 0 && p.seqNo <= lastSeq {
        return;
      }
      if p.seqNo > lastSeq {
        lastSeq := p.seqNo;
      }
      if !p.buildable {
        Exit();
        return;
      }
      lastEvent := Some(p);
      height := ToInt32(p.blockHeight);
      ConfirmPositive(p);
    }

    method ConfirmPositive(p: Positive)
      requires live
      modifies this`live, this`lastSeq, this`lastEvent, this`height, this`doneOpen, this`arming, this`blockReg
      modifies this`armers, this`ctxDone, this`cancelled, this`out
      modifies order
      ensures Took(Confirm(cfg, old(View()), p))
    {
      out := out + [Confirmed(p)];
      if !ReorgAware(cfg) || cfg.future {
        Exit();
        return;
      }
      var release := order.ObservePositive();
      if release {
        FinishWith(Backend);
        return;
      }
      if cfg.depth > 0 && blockReg.None? && !arming {
        LaunchArmer();
      }
    }

    method HandleReorg(seqNo: nat)
      requires live
      modifies this`live, this`lastSeq, this`lastEvent, this`height, this`doneOpen, this`arming, this`blockReg
      modifies this`armers, this`ctxDone, this`cancelled, this`out
      modifies order
      ensures Took(OnReorg(cfg, old(View()), seqNo))
    {
      if seqNo != 0 && seqNo <= lastSeq {
        return;
      }
      if seqNo > lastSeq {
        lastSeq := seqNo;
      }
      if cfg.wantReorg {
        out := out + [Reorged(seqNo)];
      }
      lastEvent := None;
      height := 0;
      order.ObserveReorg();
    }

    /** A Done before any positive is retained and its channel parked. */
    method HandleDone()
      requires live
      modifies this`live, this`lastSeq, this`lastEvent, this`height, this`doneOpen, this`arming, this`blockReg
      modifies this`armers, this`ctxDone, this`cancelled, this`out
      modifies order
      ensures Took(OnDone(cfg, old(View())))
    {
      var deliver := order.ObserveDone();
      if !deliver {
        doneOpen := false;
        return;
      }
      FinishWith(Backend);
    }

    method EvaluateTip(tip: Int32)
      requires live
      modifies this`live, this`lastSeq, this`lastEvent, this`height, this`doneOpen, this`arming, this`blockReg
      modifies this`armers, this`ctxDone, this`cancelled, this`out
      ensures Took(Evaluate(cfg, old(View()), tip))
    {
      if height == 0 || cfg.depth == 0 {
        return;
      }
      if ToInt32(tip - height + 1) < ToInt32(cfg.depth) {
        return;
      }
      FinishWith(Synthesized(tip, height));
    }

    method RearmAfterClose()
      requires live
      modifies this`live, this`lastSeq, this`lastEvent, this`height, this`doneOpen, this`arming, this`blockReg
      modifies this`armers, this`ctxDone, this`cancelled, this`out
      ensures Took(Rearm(cfg, old(View())))
    {
      if blockReg.Some? {
        cancelled := cancelled + {blockReg.value};
        blockReg := None;
      }
      if height == 0 || cfg.depth == 0 || arming {
        return;
      }
      LaunchArmer();
    }

    /** An armer delivers its registration, or nothing when it gave up. */
    method HandleArmed(reg: Option<nat>, tip: Int32)
      requires live
      modifies this`live, this`lastSeq, this`lastEvent, this`height, this`doneOpen, this`arming, this`blockReg
      modifies this`armers, this`ctxDone, this`cancelled, this`out
      ensures Took(OnArmed(cfg, old(View()), reg, tip))
    {
      arming := false;
      if reg.None? {
        return;
      }
      blockReg := reg;
      EvaluateTip(tip);
    }

    /** What the block channel held, and whether it is closed behind that. */
    method HandleEpochs(queue: seq<Option<Int32>>, closed: bool)
      requires live && (queue != [] || closed)
      modifies this`live, this`lastSeq, this`lastEvent, this`height, this`doneOpen, this`arming, this`blockReg
      modifies this`armers, this`ctxDone, this`cancelled, this`out
      ensures Took(OnEpochs(cfg, old(View()), queue, closed))
    {
      if queue == [] || queue[0].None? {
        RearmAfterClose();
        return;
      }
      var tip := DrainToLatest(queue[1..], queue[0].value);
      if closed {
        RearmAfterClose();
        return;
      }
      EvaluateTip(tip);
    }

    /** drainToLatestEpoch. */
    method DrainToLatest(queue: seq<Option<Int32>>, cur: Int32) returns (latest: Int32)
      ensures latest == Latest(queue, cur)
    {
      latest := cur;
      var i := 0;
      while i < |queue|
        invariant 0 <= i <= |queue|
        invariant Latest(queue[i..], latest) == Latest(queue, cur)
      {
        assert queue[i..][1..] == queue[i + 1..];
        if queue[i].Some? {
          latest := queue[i].value;
        }
        i := i + 1;
      }
    }

    // -------------------------------------------------------------- the arms of the select

    /** A turn that leaves the channels alone is folded into the system. */
    twostate lemma Folds(t: Turn)
      requires Took(t)
      requires unchanged(`posQ) && unchanged(`reorgQ) && unchanged(`doneQ) && unchanged(`blocks)
      requires unchanged(`obtained) && unchanged(`sent) && unchanged(`consumed)
      requires unchanged(fwd) && unchanged(fwd.order)
      ensures System() == Absorb(old(System()), t)
    {
    }

    method TakeQueued()
      requires Valid() && live && posQ != []
      modifies this, order
      ensures Valid()
      ensures var p := old(posQ)[0];
              System() == Absorb(old(System()).(posQ := old(posQ)[1..], consumed := old(consumed) + {p.seqNo}),
                                 OnPositive(cfg, old(View()), p))
    {
      var p := posQ[0];
      posQ := posQ[1..];
      consumed := consumed + {p.seqNo};
      ghost var t := OnPositive(cfg, View(), p);
      label Popped:
      HandlePositive(p);
      Folds@Popped(t);
    }

    method TakePositive()
      requires Valid()
      modifies this, order
      ensures Valid() && System() == Next(cfg, old(System()), Event.TakePositive)
    {
      if !live {
        return;
      }
      if posQ != [] {
        TakeQueued();
      } else if !fwd.live {
        ghost var t := Leave(View(), []);
        Exit();
        Folds(t);
      }
    }

    method TakeReorg()
      requires Valid()
      modifies this, order
      ensures Valid() && System() == Next(cfg, old(System()), Event.TakeReorg)
    {
      if !live || reorgQ == [] {
        return;
      }
      var n := reorgQ[0];
      reorgQ := reorgQ[1..];
      consumed := consumed + {n};
      ghost var t := OnReorg(cfg, View(), n);
      label Popped:
      HandleReorg(n);
      Folds@Popped(t);
    }

    method TakeDone()
      requires Valid()
      modifies this, order
      ensures Valid() && System() == Next(cfg, old(System()), Event.TakeDone)
    {
      if !live || !doneOpen || doneQ == 0 {
        return;
      }
      doneQ := doneQ - 1;
      ghost var t := OnDone(cfg, View());
      label Popped:
      HandleDone();
      Folds@Popped(t);
    }

    method TurnArmed(reg: Option<nat>, tip: Int32)
      requires Valid() && live
      modifies this`live, this`lastSeq, this`lastEvent, this`height, this`doneOpen, this`arming, this`blockReg
      modifies this`armers, this`ctxDone, this`cancelled, this`out
      ensures Valid() && System() == Absorb(old(System()), OnArmed(cfg, old(View()), reg, tip))
    {
      ghost var t := OnArmed(cfg, View(), reg, tip);
      HandleArmed(reg, tip);
      Folds(t);
    }

    /** An armer that gave up hands over nothing. */
    method TakeNothing()
      requires Valid() && live && |armers| > 0
      modifies this
      ensures Valid()
      ensures System() == Absorb(old(System()).(armers := old(armers)[1..]), OnArmed(cfg, old(View()), None, 0))
    {
      armers := armers[1..];
      TurnArmed(None, 0);
    }

    method TakeHeld(reg: nat, tip: Int32, queue: seq<Option<Int32>>, closed: bool)
      requires Valid() && live && |armers| > 0
      modifies this
      ensures Valid()
      ensures System() == Absorb(old(System()).(armers := old(armers)[1..], epochQ := queue, epochsClosed := closed),
                                 OnArmed(cfg, old(View()), Some(reg), tip))
    {
      armers, blocks := armers[1..], BlockChannel(queue, closed);
      TurnArmed(Some(reg), tip);
    }

    /** The hand-off arm; a registration comes with whatever its channel buffered so far. */
    method TakeArmed(queue: seq<Option<Int32>>, closed: bool)
      requires Valid()
      modifies this
      ensures Valid() && System() == Next(cfg, old(System()), Event.TakeArmed(queue, closed))
    {
      if !live || |armers| == 0 {
        return;
      }
      var armer := armers[0];
      if armer.Holding? {
        TakeHeld(armer.reg, armer.tip, queue, closed);
      } else if ctxDone {
        TakeNothing();
      }
    }

    /** Handles what the block channel holds; left is what stays in it. */
    method DrainEpochs(left: seq<Option<Int32>>)
      requires Valid() && live && (blocks.queue != [] || blocks.closed)
      modifies this
      ensures Valid()
      ensures System() == Absorb(old(System()).(epochQ := left),
                                 OnEpochs(cfg, old(View()), old(blocks.queue), old(blocks.closed)))
    {
      var queue := blocks.queue;
      blocks := blocks.(queue := left);
      ghost var t := OnEpochs(cfg, View(), queue, blocks.closed);
      label Received:
      HandleEpochs(queue, blocks.closed);
      Folds@Received(t);
    }

    method TakeEpochs()
      requires Valid()
      modifies this
      ensures Valid() && System() == Next(cfg, old(System()), Event.TakeEpochs)
    {
      if !live || blockReg.None? || (blocks.queue == [] && !blocks.closed) {
        return;
      }
      DrainEpochs(if blocks.queue != [] && blocks.queue[0].None? then blocks.queue[1..] else []);
    }

    method TakeCtx()
      requires Valid()
      modifies this
      ensures Valid() && System() == Next(cfg, old(System()), Event.TakeCtx)
    {
      if live && ctxDone {
        ghost var t := Leave(View(), []);
        Exit();
        Folds(t);
      }
    }

    // -------------------------------------------------------------- the forwarder

    method ForwardPositive(blockHeight: Uint32, buildable: bool, detail: nat)
      requires Valid()
      modifies this, fwd, fwd.order
      ensures Valid() && System() == Next(cfg, old(System()), FwdPositive(blockHeight, buildable, detail))
    {
      if fwd.live && !fwd.finishing {
        var p := fwd.StampPositive(blockHeight, buildable, detail);
        posQ := posQ + [p];
        sent := sent + [Pos(p)];
      }
    }

    method ForwardReorg()
      requires Valid()
      modifies this, fwd, fwd.order
      ensures Valid() && System() == Next(cfg, old(System()), FwdReorg)
    {
      if fwd.live && !fwd.finishing {
        var n := fwd.StampReorg();
        reorgQ := reorgQ + [n];
        sent := sent + [Reorg(n)];
      }
    }

    method ForwardDone()
      requires Valid()
      modifies fwd, fwd.order
      ensures Valid() && System() == Next(cfg, old(System()), FwdDone)
    {
      if fwd.live && !fwd.finishing {
        fwd.SeeDone();
      }
    }

    /** The deferred Done leaves and the forwarder returns. */
    method ForwardFinish()
      requires Valid()
      modifies this, fwd
      ensures Valid() && System() == Next(cfg, old(System()), FwdFinish)
    {
      if fwd.live && fwd.finishing {
        doneQ := doneQ + 1;
        fwd.Stop();
      }
    }

    method ForwardExit()
      requires Valid()
      modifies fwd
      ensures Valid() && System() == Next(cfg, old(System()), FwdExit)
    {
      fwd.Stop();
    }

    // -------------------------------------------------------------- armers and block streams

    method ArmerObtains(reg: nat, tip: Int32)
      requires Valid()
      modifies this`armers, this`obtained
      ensures Valid() && System() == Next(cfg, old(System()), Event.ArmerObtains(reg, tip))
    {
      if |armers| > 0 && armers[0] == Working && reg !in obtained {
        armers := [Holding(reg, tip)] + armers[1..];
        obtained := obtained + {reg};
      }
    }

    /** An armer whose hand-off lost to the end of the watch cancels what it got. */
    method ArmerQuits()
      requires Valid()
      modifies this`armers, this`cancelled
      ensures Valid() && System() == Next(cfg, old(System()), Event.ArmerQuits)
    {
      if ctxDone && |armers| > 0 {
        if armers[0].Holding? {
          cancelled := cancelled + {armers[0].reg};
        }
        armers := armers[1..];
      }
    }

    method EpochArrives(epoch: Option<Int32>)
      requires Valid()
      modifies this`blocks
      ensures Valid() && System() == Next(cfg, old(System()), EpochPush(epoch))
    {
      if !blocks.closed {
        blocks := blocks.(queue := blocks.queue + [epoch]);
      }
    }

    // -------------------------------------------------------------- the loop

    /** One step of the watch: an arm of the select, or a step of a goroutine around it. */
    method Step(e: Event)
      requires Valid()
      modifies this, order, fwd, fwd.order
      ensures Valid() && System() == Next(cfg, old(System()), e)
    {
      match e
      case FwdPositive(h, ok, detail) => ForwardPositive(h, ok, detail);
      case FwdReorg => ForwardReorg();
      case FwdDone => ForwardDone();
      case FwdFinish => ForwardFinish();
      case FwdExit => ForwardExit();
      case TakePositive => TakePositive();
      case TakeReorg => TakeReorg();
      case TakeDone => TakeDone();
      case ArmerObtains(reg, tip) => ArmerObtains(reg, tip);
      case TakeArmed(queue, closed) => TakeArmed(queue, closed);
      case EpochPush(epoch) => EpochArrives(epoch);
      case EpochClose => blocks := blocks.(closed := true);
      case TakeEpochs => TakeEpochs();
      case CancelCtx => ctxDone := true;
      case TakeCtx => TakeCtx();
      case ArmerQuits => ArmerQuits();
    }

    /** The loop under any schedule; an arm that is not ready when its turn comes is not taken. */
    method Select(schedule: seq<Event>)
      requires Valid()
      modifies this, order, fwd, fwd.order
      ensures Valid() && System() == Run(cfg, old(System()), schedule)
    {
      assert schedule[..|schedule|] == schedule;
      for i := 0 to |schedule|
        invariant Valid() && System() == Run(cfg, old(System()), schedule[..i])
      {
        assert schedule[..i + 1][..i] == schedule[..i];
        Step(schedule[i]);
      }
    }
  }

  /**
   * A watch from registration on, under any schedule: it is a run of the machine, so its view
   * is the newest signal taken, its deliveries are in order, and finality is owned.
   */
  method Monitor(cfg: Config, schedule: seq<Event>) returns (w: Watch)
    ensures fresh(w) && w.cfg == cfg && w.System() == Run(cfg, INIT, schedule)
    ensures w.live ==> w.lastSeq <= |w.sent| && w.lastEvent == ViewAt(w.sent, w.lastSeq)
    ensures w.live && w.posQ == [] && w.reorgQ == [] ==> w.lastEvent == ViewAt(w.sent, |w.sent|)
    ensures News(w.out) == Reported(cfg, Taken(cfg, schedule))
    ensures forall i :: 0 <= i < |w.out| && w.out[i].Done? ==> i == |w.out| - 1 && w.out[i].last.Some? && !w.live
    ensures |w.armers| <= 1 && (w.live ==> !(w.armers != [] && w.blockReg.Some?))
    ensures w.lastEvent.Some? && w.lastEvent.value.blockHeight != 0 ==> !Stranded(cfg, w.System())
    ensures !w.live && w.armers == [] ==> w.obtained == w.cancelled
  {
    w := new Watch(cfg);
    w.Select(schedule);
    ViewIsNewest(cfg, schedule);
    FinalityIsOwned(cfg, schedule);
    OutRun(cfg, schedule);
    DeliveriesAreComplete(cfg, schedule);
  }
}
