/**
 * A reorg-aware confirmation or spend watch: the backend forwarder that stamps a
 * sequence onto every signal, the channels they leave on, the actor's select loop
 * and the off-loop armers of height-based finality. ConfActor and SpendActor run
 * the same loop, so one machine stands for both.
 */
module LifecycleWatch {

  import opened Basics

  /** A positive observation (confirmation or spend); detail names its payload. */
  datatype Positive = Positive(seqNo: nat, blockHeight: Uint32, buildable: bool, detail: nat)

  datatype Signal = Pos(p: Positive) | Reorg(seqNo: nat)

  /** Why a Done was delivered: the backend's own signal, or an observed tip. */
  datatype Why = Backend | Synthesized(tip: Int32, base: Int32)

  datatype Delivery = Confirmed(p: Positive) | Reorged(upTo: nat) | Done(last: Option<Positive>, why: Why)

  /** wantReorg and wantDone: the notify refs; future: the caller awaits a promise instead. */
  datatype Config = Config(depth: Uint32, wantReorg: bool, wantDone: bool, future: bool)

  predicate ReorgAware(cfg: Config) { cfg.wantReorg || cfg.wantDone }

  // ---------------------------------------------------------------- 32-bit heights

  /** The loop's depth test: tip - base + 1 >= depth, in 32-bit arithmetic. */
  predicate DeepEnough(tip: Int32, base: Int32, depth: Uint32) {
    ToInt32(tip - base + 1) >= ToInt32(depth)
  }

  predicate Height(h: int) { 0 < h < 0x8000_0000 }

  /** On real heights the test is the intended one for every depth below 2^31. */
  lemma DepthTestMeans(tip: Int32, base: Int32, depth: Uint32)
    requires Height(base) && 0 <= tip && depth < TWO_31
    ensures DeepEnough(tip, base, depth) <==> tip >= base + depth - 1
  {
    assert ToInt32(tip - base + 1) == tip - base + 1;
  }

  /** Where the two casts and the subtraction cannot turn a shallow tip into a deep one. */
  predicate CastsFit(h: Uint32, depth: Uint32) { depth < TWO_31 && h < TWO_31 + 2 }

  /**
   * A tip that passes the test over any 32-bit height is really deep enough exactly when it
   * is non-negative and the height and the depth are in range.
   */
  lemma PassedMeansDeep(tip: Int32, h: Uint32, depth: Uint32)
    requires h > 0 && depth > 0 && DeepEnough(tip, ToInt32(h), depth)
    ensures tip >= h + depth - 1 <==> 0 <= tip && CastsFit(h, depth)
  {
    if 0 <= tip && CastsFit(h, depth) {
      if h < TWO_31 {
        DepthTestMeans(tip, h, depth);
      }
    }
  }

  /** A non-negative tip that passes too early, for a height or depth out of range. */
  function EarlyTip(h: Uint32): Int32 {
    if h < TWO_31 then h else if h < TWO_31 + 2 then TWO_31 - 1 else h - TWO_31 - 2
  }

  lemma EarlyTipPasses(h: Uint32, depth: Uint32)
    requires h > 0 && depth > 0 && !CastsFit(h, depth)
    ensures 0 <= EarlyTip(h) < h + depth - 1 && DeepEnough(EarlyTip(h), ToInt32(h), depth)
  {
    var n := EarlyTip(h) - ToInt32(h) + 1;
    if h < TWO_31 {
      assert n == 1;
    } else if h < TWO_31 + 2 {
      assert ToInt32(n) == 0 || ToInt32(n) == -1 by { assert n == TWO_32 || n == TWO_32 - 1; }
      assert ToInt32(depth) < 0;
    } else {
      assert n == TWO_31 - 1;
    }
  }

  /** Over every 32-bit height: no non-negative tip passes early exactly when both casts fit. */
  lemma DepthTestExact(h: Uint32, depth: Uint32)
    requires h > 0 && depth > 0
    ensures CastsFit(h, depth) <==>
              forall tip: Int32 :: 0 <= tip && DeepEnough(tip, ToInt32(h), depth) ==> tip >= h + depth - 1
  {
    if CastsFit(h, depth) {
      forall tip: Int32 | 0 <= tip && DeepEnough(tip, ToInt32(h), depth)
        ensures tip >= h + depth - 1
      {
        PassedMeansDeep(tip, h, depth);
      }
    } else {
      EarlyTipPasses(h, depth);
    }
  }

  // ---------------------------------------------------------------- the actor

  /** The select loop's variables. */
  datatype Actor = Actor(
    live: bool,
    lastSeq: nat,
    last: Option<Positive>,
    height: Int32,
    positive: bool,
    pendingDone: bool,
    doneOpen: bool,
    arming: bool,
    reg: Option<nat>)

  /** One arm of the select: the new variables, deliveries, registrations cancelled, an armer launched. */
  datatype Turn = Turn(a: Actor, out: seq<Delivery>, cancel: set<nat>, arm: bool)

  const START := Actor(true, 0, None, 0, false, false, true, false, None)

  function Stay(a: Actor): Turn { Turn(a, [], {}, false) }

  /** Return from the loop: its deferred cleanup cancels a held block registration. */
  function Leave(a: Actor, out: seq<Delivery>): Turn {
    Turn(a.(live := false, reg := None), out, if a.reg.Some? then {a.reg.value} else {}, false)
  }

  function Finish(cfg: Config, a: Actor, why: Why, out: seq<Delivery>): Turn {
    Leave(a, if cfg.wantDone then out + [Done(a.last, why)] else out)
  }

  function Max(a: nat, b: nat): nat { if a < b then b else a }

  function OnPositive(cfg: Config, a: Actor, p: Positive): Turn {
    if p.seqNo != 0 && p.seqNo <= a.lastSeq then Stay(a)
    else if !p.buildable then Leave(a.(lastSeq := Max(a.lastSeq, p.seqNo)), [])
    else Confirm(cfg, a.(lastSeq := Max(a.lastSeq, p.seqNo), last := Some(p), height := ToInt32(p.blockHeight)), p)
  }

  /** A fresh positive is delivered; it ends a plain watch, releases a pending Done, or arms finality. */
  function Confirm(cfg: Config, a: Actor, p: Positive): Turn {
    if !ReorgAware(cfg) || cfg.future then Leave(a, [Confirmed(p)])
    else
      var a1 := a.(positive := true);
      if a1.pendingDone then Finish(cfg, a1, Backend, [Confirmed(p)])
      else if cfg.depth > 0 && a1.reg.None? && !a1.arming
      then Turn(a1.(arming := true), [Confirmed(p)], {}, true)
      else Turn(a1, [Confirmed(p)], {}, false)
  }

  function OnReorg(cfg: Config, a: Actor, s: nat): Turn {
    if s != 0 && s <= a.lastSeq then Stay(a)
    else
      Turn(a.(lastSeq := Max(a.lastSeq, s), last := None, height := 0, positive := false, pendingDone := false),
           if cfg.wantReorg then [Reorged(s)] else [], {}, false)
  }

  function OnDone(cfg: Config, a: Actor): Turn {
    if a.positive then Finish(cfg, a, Backend, [])
    else Stay(a.(pendingDone := true, doneOpen := false))
  }

  /** Finalize if the tip is deep enough over a standing height. */
  function Evaluate(cfg: Config, a: Actor, tip: Int32): Turn {
    if a.height == 0 || cfg.depth == 0 || !DeepEnough(tip, a.height, cfg.depth) then Stay(a)
    else Finish(cfg, a, Synthesized(tip, a.height), [])
  }

  function OnArmed(cfg: Config, a: Actor, reg: Option<nat>, tip: Int32): Turn {
    if reg.None? then Stay(a.(arming := false))
    else Evaluate(cfg, a.(arming := false, reg := reg), tip)
  }

  /** rearmFinalityAfterClose: drop the dead stream; arm a replacement for a standing height. */
  function Rearm(cfg: Config, a: Actor): Turn {
    var cancel := if a.reg.Some? then {a.reg.value} else {};
    var a1 := a.(reg := None);
    if a.height == 0 || cfg.depth == 0 || a.arming then Turn(a1, [], cancel, false)
    else Turn(a1.(arming := true), [], cancel, true)
  }

  /** drainToLatestEpoch: the newest non-nil epoch at or after cur. */
  function Latest(queue: seq<Option<Int32>>, cur: Int32): Int32 {
    if queue == [] then cur else Latest(queue[1..], if queue[0].Some? then queue[0].value else cur)
  }

  /** The epoch arm: queue is what the block channel holds, closed whether it ends after that. */
  function OnEpochs(cfg: Config, a: Actor, queue: seq<Option<Int32>>, closed: bool): Turn {
    if queue == [] || queue[0].None? || closed then Rearm(cfg, a)
    else Evaluate(cfg, a, Latest(queue[1..], queue[0].value))
  }

  // ---------------------------------------------------------------- the system

  /** An armer goroutine: still registering, or holding a registration and the tip it read. */
  datatype Armer = Working | Holding(reg: nat, tip: Int32)

  /** The forwarder's own variables; finishing means it owes one last Done. */
  datatype Forwarder = Forwarder(live: bool, positive: bool, pendingDone: bool, finishing: bool)

  datatype Sys = Sys(
    f: Forwarder,
    sent: seq<Signal>,             // every signal stamped so far
    posQ: seq<Positive>,
    reorgQ: seq<nat>,
    doneQ: nat,
    a: Actor,
    ctxDone: bool,
    armers: seq<Armer>,
    epochQ: seq<Option<Int32>>,
    epochsClosed: bool,
    obtained: set<nat>,            // block registrations ever obtained
    cancelled: set<nat>,
    consumed: set<nat>,            // sequence numbers taken off the channels
    out: seq<Delivery>)

  datatype Event =
    | FwdPositive(blockHeight: Uint32, buildable: bool, detail: nat)
    | FwdReorg
    | FwdDone
    | FwdFinish
    | FwdExit
    | TakePositive
    | TakeReorg
    | TakeDone
    | ArmerObtains(reg: nat, tip: Int32)
    | TakeArmed(queue: seq<Option<Int32>>, closed: bool)
    | EpochPush(epoch: Option<Int32>)
    | EpochClose
    | TakeEpochs
    | CancelCtx
    | TakeCtx
    | ArmerQuits

  /** Fold one turn of the loop into the system. */
  function Absorb(s: Sys, t: Turn): Sys {
    s.(a := t.a, out := s.out + t.out, cancelled := s.cancelled + t.cancel,
       armers := if t.arm then s.armers + [Working] else s.armers,
       ctxDone := s.ctxDone || !t.a.live)
  }

  function Next(cfg: Config, s: Sys, e: Event): Sys {
    match e
    case FwdPositive(h, ok, detail) =>
      if !s.f.live || s.f.finishing then s
      else
        var p := Positive(|s.sent| + 1, h, ok, detail);
        s.(sent := s.sent + [Pos(p)], posQ := s.posQ + [p], f := s.f.(positive := true, finishing := s.f.pendingDone))
    case FwdReorg =>
      if !s.f.live || s.f.finishing then s
      else s.(sent := s.sent + [Reorg(|s.sent| + 1)], reorgQ := s.reorgQ + [|s.sent| + 1],
              f := s.f.(positive := false, pendingDone := false))
    case FwdDone =>
      if !s.f.live || s.f.finishing then s
      else if s.f.positive then s.(f := s.f.(finishing := true)) else s.(f := s.f.(pendingDone := true))
    case FwdFinish => if s.f.live && s.f.finishing then s.(doneQ := s.doneQ + 1, f := s.f.(live := false)) else s
    case FwdExit => s.(f := s.f.(live := false))
    case TakePositive =>
      if !s.a.live then s
      else if s.posQ != [] then
        Absorb(s.(posQ := s.posQ[1..], consumed := s.consumed + {s.posQ[0].seqNo}), OnPositive(cfg, s.a, s.posQ[0]))
      else if !s.f.live then Absorb(s, Leave(s.a, []))
      else s
    case TakeReorg =>
      if !s.a.live || s.reorgQ == [] then s
      else Absorb(s.(reorgQ := s.reorgQ[1..], consumed := s.consumed + {s.reorgQ[0]}), OnReorg(cfg, s.a, s.reorgQ[0]))
    case TakeDone =>
      if !s.a.live || !s.a.doneOpen || s.doneQ == 0 then s
      else Absorb(s.(doneQ := s.doneQ - 1), OnDone(cfg, s.a))
    case ArmerObtains(reg, tip) =>
      if |s.armers| > 0 && s.armers[0] == Working && reg !in s.obtained
      then s.(armers := [Holding(reg, tip)] + s.armers[1..], obtained := s.obtained + {reg}) else s
    case TakeArmed(queue, closed) =>
      // The registration comes with whatever its channel buffered so far.
      if !s.a.live || |s.armers| == 0 then s
      else if s.armers[0].Holding? then
        Absorb(s.(armers := s.armers[1..], epochQ := queue, epochsClosed := closed),
               OnArmed(cfg, s.a, Some(s.armers[0].reg), s.armers[0].tip))
      else if s.ctxDone then Absorb(s.(armers := s.armers[1..]), OnArmed(cfg, s.a, None, 0))
      else s
    case EpochPush(epoch) => if s.epochsClosed then s else s.(epochQ := s.epochQ + [epoch])
    case EpochClose => s.(epochsClosed := true)
    case TakeEpochs =>
      if !s.a.live || s.a.reg.None? || (s.epochQ == [] && !s.epochsClosed) then s
      else if s.epochQ != [] && s.epochQ[0].None?
      then Absorb(s.(epochQ := s.epochQ[1..]), OnEpochs(cfg, s.a, s.epochQ, s.epochsClosed))
      else Absorb(s.(epochQ := []), OnEpochs(cfg, s.a, s.epochQ, s.epochsClosed))
    case CancelCtx => s.(ctxDone := true)
    case TakeCtx => if s.a.live && s.ctxDone then Absorb(s, Leave(s.a, [])) else s
    case ArmerQuits =>
      if !s.ctxDone || |s.armers| == 0 then s
      else s.(cancelled := s.cancelled + (if s.armers[0].Holding? then {s.armers[0].reg} else {}),
              armers := s.armers[1..])
  }

  function Run(cfg: Config, s: Sys, es: seq<Event>): Sys {
    if es == [] then s else Next(cfg, Run(cfg, s, es[..|es| - 1]), es[|es| - 1])
  }

  /** A fresh registration. */
  const INIT := Sys(Forwarder(true, false, false, false), [], [], [], 0, START, false, [], [], true, {}, {}, {}, [])
}
