/** What every run of a watch keeps: event order, finality, and Done. */
module LifecycleRuns {
  import opened Basics
  import opened LifecycleWatch

  function SeqOf(g: Signal): nat {
    match g
    case Pos(p) => p.seqNo
    case Reorg(n) => n
  }

  // ---------------------------------------------------------------- event order

  /** What the signal with the given number says stands. */
  function ViewAt(sent: seq<Signal>, n: nat): Option<Positive>
    requires n <= |sent|
  {
    if n == 0 || sent[n - 1].Reorg? then None else Some(sent[n - 1].p)
  }

  predicate Stamped(sent: seq<Signal>) {
    forall i :: 0 <= i < |sent| ==> SeqOf(sent[i]) == i + 1
  }

  predicate Queued(sent: seq<Signal>, posQ: seq<Positive>, reorgQ: seq<nat>) {
    && (forall p :: p in posQ ==> 1 <= p.seqNo <= |sent| && sent[p.seqNo - 1] == Pos(p))
    && (forall n :: n in reorgQ ==> 1 <= n <= |sent| && sent[n - 1] == Reorg(n))
  }

  /** Every signal is still queued or was taken. */
  predicate Covered(sent: seq<Signal>, consumed: set<nat>, posQ: seq<Positive>, reorgQ: seq<nat>) {
    forall i :: 0 <= i < |sent| ==>
      i + 1 in consumed || (sent[i].Pos? && sent[i].p in posQ) || i + 1 in reorgQ
  }

  predicate IsMax(consumed: set<nat>, n: nat) {
    (n == 0 || n in consumed) && forall c :: c in consumed ==> c <= n
  }

  /** The loop's standing view is the one set by the highest sequence taken so far. */
  predicate ViewMatches(a: Actor, sent: seq<Signal>, consumed: set<nat>) {
    && a.lastSeq <= |sent|
    && IsMax(consumed, a.lastSeq)
    && (a.live ==>
          && a.last == ViewAt(sent, a.lastSeq)
          && a.positive == a.last.Some?
          && a.height == if a.last.Some? then ToInt32(a.last.value.blockHeight) else 0)
  }

  predicate OrderInv(s: Sys) {
    && Stamped(s.sent)
    && Queued(s.sent, s.posQ, s.reorgQ)
    && Covered(s.sent, s.consumed, s.posQ, s.reorgQ)
    && ViewMatches(s.a, s.sent, s.consumed)
  }

  lemma OrderForward(cfg: Config, s: Sys, e: Event)
    requires OrderInv(s) && (e.FwdPositive? || e.FwdReorg?)
    ensures OrderInv(Next(cfg, s, e))
  {
    var s' := Next(cfg, s, e);
    assert forall i :: 0 <= i < |s.sent| ==> s'.sent[i] == s.sent[i];
  }

  lemma HeadOrTail<T>(q: seq<T>, x: T)
    requires q != []
    ensures x in q <==> x == q[0] || x in q[1..]
  {
    if x in q {
      var k :| 0 <= k < |q| && q[k] == x;
      assert k > 0 ==> q[1..][k - 1] == x;
    }
  }

  /** Taking the head of a queue moves its number to the consumed ones and nothing else. */
  lemma CoverTakePositive(sent: seq<Signal>, consumed: set<nat>, posQ: seq<Positive>, reorgQ: seq<nat>)
    requires Stamped(sent) && Queued(sent, posQ, reorgQ) && Covered(sent, consumed, posQ, reorgQ) && posQ != []
    ensures Queued(sent, posQ[1..], reorgQ)
    ensures Covered(sent, consumed + {posQ[0].seqNo}, posQ[1..], reorgQ)
  {
    var rest, taken := posQ[1..], consumed + {posQ[0].seqNo};
    forall i | 0 <= i < |sent|
      ensures i + 1 in taken || (sent[i].Pos? && sent[i].p in rest) || i + 1 in reorgQ
    {
      if sent[i].Pos? { HeadOrTail(posQ, sent[i].p); }
    }
    forall p | p in rest ensures 1 <= p.seqNo <= |sent| && sent[p.seqNo - 1] == Pos(p) { HeadOrTail(posQ, p); }
  }

  lemma CoverTakeReorg(sent: seq<Signal>, consumed: set<nat>, posQ: seq<Positive>, reorgQ: seq<nat>)
    requires Stamped(sent) && Queued(sent, posQ, reorgQ) && Covered(sent, consumed, posQ, reorgQ) && reorgQ != []
    ensures Queued(sent, posQ, reorgQ[1..])
    ensures Covered(sent, consumed + {reorgQ[0]}, posQ, reorgQ[1..])
  {
    var rest, taken := reorgQ[1..], consumed + {reorgQ[0]};
    forall i | 0 <= i < |sent|
      ensures i + 1 in taken || (sent[i].Pos? && sent[i].p in posQ) || i + 1 in rest
    {
      HeadOrTail(reorgQ, i + 1);
    }
    forall n | n in rest ensures 1 <= n <= |sent| && sent[n - 1] == Reorg(n) { HeadOrTail(reorgQ, n); }
  }

  lemma ViewTakePositive(cfg: Config, a: Actor, p: Positive, sent: seq<Signal>, consumed: set<nat>)
    requires ViewMatches(a, sent, consumed) && a.live && 1 <= p.seqNo <= |sent| && sent[p.seqNo - 1] == Pos(p)
    ensures ViewMatches(OnPositive(cfg, a, p).a, sent, consumed + {p.seqNo})
  {
  }

  lemma ViewTakeReorg(cfg: Config, a: Actor, n: nat, sent: seq<Signal>, consumed: set<nat>)
    requires ViewMatches(a, sent, consumed) && a.live && 1 <= n <= |sent| && sent[n - 1] == Reorg(n)
    ensures ViewMatches(OnReorg(cfg, a, n).a, sent, consumed + {n})
  {
  }

  /** The other arms of the select leave the view alone. */
  predicate KeepsView(a: Actor, b: Actor) {
    && b.lastSeq == a.lastSeq && (b.live ==> a.live)
    && b.last == a.last && b.positive == a.positive && b.height == a.height
  }

  lemma EpochsKeepView(cfg: Config, a: Actor, queue: seq<Option<Int32>>, closed: bool)
    ensures KeepsView(a, OnEpochs(cfg, a, queue, closed).a)
  {
  }

  lemma ArmedKeepsView(cfg: Config, a: Actor, reg: Option<nat>, tip: Int32)
    ensures KeepsView(a, OnArmed(cfg, a, reg, tip).a)
  {
  }

  lemma OthersKeepView(cfg: Config, s: Sys, e: Event)
    requires !e.TakePositive? && !e.TakeReorg?
    ensures KeepsView(s.a, Next(cfg, s, e).a)
  {
    if e.TakeEpochs? {
      EpochsKeepView(cfg, s.a, s.epochQ, s.epochsClosed);
    } else if e.TakeArmed? && |s.armers| > 0 {
      ArmedKeepsView(cfg, s.a, None, 0);
      if s.armers[0].Holding? {
        ArmedKeepsView(cfg, s.a, Some(s.armers[0].reg), s.armers[0].tip);
      }
    }
  }

  lemma OrderNext(cfg: Config, s: Sys, e: Event)
    requires OrderInv(s)
    ensures OrderInv(Next(cfg, s, e))
  {
    if e.FwdPositive? || e.FwdReorg? {
      OrderForward(cfg, s, e);
    } else if e.TakePositive? {
      if s.a.live && s.posQ != [] {
        assert s.posQ[0] in s.posQ;
        CoverTakePositive(s.sent, s.consumed, s.posQ, s.reorgQ);
        ViewTakePositive(cfg, s.a, s.posQ[0], s.sent, s.consumed);
      }
    } else if e.TakeReorg? {
      if s.a.live && s.reorgQ != [] {
        assert s.reorgQ[0] in s.reorgQ;
        CoverTakeReorg(s.sent, s.consumed, s.posQ, s.reorgQ);
        ViewTakeReorg(cfg, s.a, s.reorgQ[0], s.sent, s.consumed);
      }
    } else {
      OthersKeepView(cfg, s, e);
      OthersKeepQueues(cfg, s, e);
    }
  }

  lemma OthersKeepQueues(cfg: Config, s: Sys, e: Event)
    requires !e.FwdPositive? && !e.FwdReorg? && !e.TakePositive? && !e.TakeReorg?
    ensures var s' := Next(cfg, s, e);
            s'.sent == s.sent && s'.posQ == s.posQ && s'.reorgQ == s.reorgQ && s'.consumed == s.consumed
  {
  }

  lemma {:induction false} OrderRun(cfg: Config, es: seq<Event>)
    ensures OrderInv(Run(cfg, INIT, es))
    decreases |es|
  {
    if es != [] {
      OrderRun(cfg, es[..|es| - 1]);
      OrderNext(cfg, Run(cfg, INIT, es[..|es| - 1]), es[|es| - 1]);
    }
  }

  lemma DrainedView(s: Sys)
    requires OrderInv(s) && s.a.live && s.posQ == [] && s.reorgQ == []
    ensures s.a.last == ViewAt(s.sent, |s.sent|)
  {
    if |s.sent| > 0 {
      assert SeqOf(s.sent[|s.sent| - 1]) in s.consumed;
    }
  }

  /**
   * Whatever order the loop takes its channels in: a live watch's view is the one set by the
   * highest sequence taken, and once both channels are drained it is the forwarder's last word.
   */
  lemma ViewIsNewest(cfg: Config, es: seq<Event>)
    ensures var s := Run(cfg, INIT, es);
            && s.a.lastSeq <= |s.sent| && IsMax(s.consumed, s.a.lastSeq)
            && (s.a.live ==> s.a.last == ViewAt(s.sent, s.a.lastSeq))
            && (s.a.live && s.posQ == [] && s.reorgQ == [] ==> s.a.last == ViewAt(s.sent, |s.sent|))
  {
    OrderRun(cfg, es);
    var s := Run(cfg, INIT, es);
    if s.a.live && s.posQ == [] && s.reorgQ == [] {
      DrainedView(s);
    }
  }

  // ---------------------------------------------------------------- deliveries and Done

  function DeliverySeq(d: Delivery): nat {
    match d
    case Confirmed(p) => p.seqNo
    case Reorged(n) => n
    case Done(_, _) => 0
  }

  predicate Reports(sent: seq<Signal>, d: Delivery) {
    match d
    case Confirmed(p) => 1 <= p.seqNo <= |sent| && sent[p.seqNo - 1] == Pos(p)
    case Reorged(n) => 1 <= n <= |sent| && sent[n - 1] == Reorg(n)
    case Done(_, _) => true
  }

  /** A Done is justified by the standing positive p and, when synthesized, by a deep enough tip over it. */
  predicate Justified(cfg: Config, d: Delivery, last: Option<Positive>) {
    d.Done? ==>
      && cfg.wantDone && d.last == last && last.Some?
      && (d.why.Synthesized? ==>
            && cfg.depth > 0 && d.why.base == ToInt32(last.value.blockHeight) != 0
            && DeepEnough(d.why.tip, d.why.base, cfg.depth))
  }

  /** What one turn may deliver: at most one newer signal, then at most one Done that ends the loop. */
  predicate TurnDelivers(cfg: Config, a: Actor, t: Turn) {
    && t.a.lastSeq >= a.lastSeq
    && (forall i :: 0 <= i < |t.out| ==>
          Justified(cfg, t.out[i], t.a.last) && (t.out[i].Done? ==> !t.a.live && i == |t.out| - 1))
    && (forall i :: 0 <= i < |t.out| && !t.out[i].Done? ==> i == 0 && a.lastSeq < DeliverySeq(t.out[0]) == t.a.lastSeq)
  }

  /** The fields the view invariant ties together, on a live actor. */
  predicate Sound(a: Actor) {
    && a.live && a.positive == a.last.Some?
    && a.height == if a.last.Some? then ToInt32(a.last.value.blockHeight) else 0
  }

  lemma PositiveDelivers(cfg: Config, a: Actor, p: Positive)
    requires Sound(a) && p.seqNo > 0
    ensures TurnDelivers(cfg, a, OnPositive(cfg, a, p))
  {
  }

  lemma ReorgDelivers(cfg: Config, a: Actor, n: nat)
    requires Sound(a) && n > 0
    ensures TurnDelivers(cfg, a, OnReorg(cfg, a, n))
  {
  }

  lemma DoneDelivers(cfg: Config, a: Actor)
    requires Sound(a)
    ensures TurnDelivers(cfg, a, OnDone(cfg, a))
  {
  }

  lemma EvaluateDelivers(cfg: Config, a: Actor, tip: Int32)
    requires Sound(a)
    ensures TurnDelivers(cfg, a, Evaluate(cfg, a, tip))
  {
  }

  lemma ArmedDelivers(cfg: Config, a: Actor, reg: Option<nat>, tip: Int32)
    requires Sound(a)
    ensures TurnDelivers(cfg, a, OnArmed(cfg, a, reg, tip))
  {
    EvaluateDelivers(cfg, a.(arming := false, reg := reg), tip);
  }

  lemma EpochsDeliver(cfg: Config, a: Actor, queue: seq<Option<Int32>>, closed: bool)
    requires Sound(a)
    ensures TurnDelivers(cfg, a, OnEpochs(cfg, a, queue, closed))
  {
    if queue != [] && queue[0].Some? {
      EvaluateDelivers(cfg, a, Latest(queue[1..], queue[0].value));
    }
  }

  predicate Delivered(cfg: Config, out: seq<Delivery>, sent: seq<Signal>, a: Actor) {
    && a.lastSeq <= |sent|
    && (forall i :: 0 <= i < |out| ==> Reports(sent, out[i]) && DeliverySeq(out[i]) <= a.lastSeq)
    && (forall i, j :: 0 <= i < j < |out| && !out[j].Done? ==> DeliverySeq(out[i]) < DeliverySeq(out[j]))
    && (forall i :: 0 <= i < |out| && out[i].Done? ==>
          i == |out| - 1 && !a.live && Justified(cfg, out[i], ViewAt(sent, a.lastSeq)))
  }

  predicate OutInv(cfg: Config, s: Sys) { OrderInv(s) && Delivered(cfg, s.out, s.sent, s.a) }

  /** A turn that delivers soundly keeps the whole history sound. */
  lemma DeliverTurn(cfg: Config, out: seq<Delivery>, sent: seq<Signal>, a: Actor, t: Turn)
    requires Delivered(cfg, out, sent, a) && a.live && TurnDelivers(cfg, a, t) && t.a.lastSeq <= |sent|
    requires forall i :: 0 <= i < |t.out| ==> Reports(sent, t.out[i])
    requires forall i :: 0 <= i < |t.out| && t.out[i].Done? ==> t.a.last == ViewAt(sent, t.a.lastSeq)
    ensures Delivered(cfg, out + t.out, sent, t.a)
  {
    var all := out + t.out;
    forall i | 0 <= i < |all| ensures Reports(sent, all[i]) && DeliverySeq(all[i]) <= t.a.lastSeq {
      assert all[i] == if i < |out| then out[i] else t.out[i - |out|];
    }
    forall i, j | 0 <= i < j < |all| && !all[j].Done? ensures DeliverySeq(all[i]) < DeliverySeq(all[j]) {
      if j < |out| {
        assert all[i] == out[i] && all[j] == out[j];
      } else {
        assert all[j] == t.out[j - |out|];
        assert j == |out| && all[i] == out[i];
      }
    }
    forall i | 0 <= i < |all| && all[i].Done?
      ensures i == |all| - 1 && !t.a.live && Justified(cfg, all[i], ViewAt(sent, t.a.lastSeq))
    {
      if i >= |out| { assert all[i] == t.out[i - |out|]; }
    }
  }

  lemma OutTakePositive(cfg: Config, s: Sys)
    requires OutInv(cfg, s) && s.a.live && s.posQ != []
    ensures Delivered(cfg, s.out + OnPositive(cfg, s.a, s.posQ[0]).out, s.sent, OnPositive(cfg, s.a, s.posQ[0]).a)
  {
    assert s.posQ[0] in s.posQ;
    OutPositive(cfg, s.out, s.sent, s.consumed, s.a, s.posQ[0]);
  }

  lemma OutPositive(cfg: Config, out: seq<Delivery>, sent: seq<Signal>, consumed: set<nat>, a: Actor, p: Positive)
    requires Delivered(cfg, out, sent, a) && ViewMatches(a, sent, consumed) && a.live
    requires 1 <= p.seqNo <= |sent| && sent[p.seqNo - 1] == Pos(p)
    ensures Delivered(cfg, out + OnPositive(cfg, a, p).out, sent, OnPositive(cfg, a, p).a)
  {
    PositiveDelivers(cfg, a, p);
    PositiveReports(cfg, a, p, sent);
    ViewTakePositive(cfg, a, p, sent, consumed);
    DeliverTurn(cfg, out, sent, a, OnPositive(cfg, a, p));
  }

  lemma PositiveReports(cfg: Config, a: Actor, p: Positive, sent: seq<Signal>)
    requires a.live && a.lastSeq <= |sent| && 1 <= p.seqNo <= |sent| && sent[p.seqNo - 1] == Pos(p)
    ensures var t := OnPositive(cfg, a, p);
            && (forall i :: 0 <= i < |t.out| ==> Reports(sent, t.out[i]))
            && (forall i :: 0 <= i < |t.out| && t.out[i].Done? ==> t.a.last == ViewAt(sent, t.a.lastSeq))
            && t.a.lastSeq <= |sent|
  {
  }

  lemma OutTakeReorg(cfg: Config, s: Sys)
    requires OutInv(cfg, s) && s.a.live && s.reorgQ != []
    ensures Delivered(cfg, s.out + OnReorg(cfg, s.a, s.reorgQ[0]).out, s.sent, OnReorg(cfg, s.a, s.reorgQ[0]).a)
  {
    var n := s.reorgQ[0];
    assert n in s.reorgQ;
    ReorgDelivers(cfg, s.a, n);
    ViewTakeReorg(cfg, s.a, n, s.sent, s.consumed);
    DeliverTurn(cfg, s.out, s.sent, s.a, OnReorg(cfg, s.a, n));
  }

  lemma OutQuiet(cfg: Config, out: seq<Delivery>, sent: seq<Signal>, more: seq<Signal>, a: Actor)
    requires Delivered(cfg, out, sent, a)
    ensures Delivered(cfg, out, sent + more, a)
  {
    assert forall i :: 0 <= i < |sent| ==> (sent + more)[i] == sent[i];
  }

  lemma OutKeep(cfg: Config, s: Sys, t: Turn)
    requires OutInv(cfg, s) && s.a.live && TurnDelivers(cfg, s.a, t) && KeepsView(s.a, t.a)
    requires forall i :: 0 <= i < |t.out| ==> t.out[i].Done?
    ensures Delivered(cfg, s.out + t.out, s.sent, t.a)
  {
    DeliverTurn(cfg, s.out, s.sent, s.a, t);
  }

  lemma OutForward(cfg: Config, s: Sys, e: Event)
    requires OutInv(cfg, s) && (e.FwdPositive? || e.FwdReorg?)
    ensures Delivered(cfg, Next(cfg, s, e).out, Next(cfg, s, e).sent, Next(cfg, s, e).a)
  {
    var s' := Next(cfg, s, e);
    assert s'.sent == s.sent + s'.sent[|s.sent|..];
    OutQuiet(cfg, s.out, s.sent, s'.sent[|s.sent|..], s.a);
  }

  lemma OutTake(cfg: Config, s: Sys, e: Event)
    requires OutInv(cfg, s) && (e.TakePositive? || e.TakeReorg?)
    ensures Delivered(cfg, Next(cfg, s, e).out, s.sent, Next(cfg, s, e).a)
  {
    if s.a.live {
      if e.TakeReorg? && s.reorgQ != [] {
        OutTakeReorg(cfg, s);
      } else if e.TakePositive? && s.posQ != [] {
        OutTakePositive(cfg, s);
      } else {
        OutKeep(cfg, s, Leave(s.a, []));
      }
    }
  }

  lemma OutEnd(cfg: Config, s: Sys, e: Event)
    requires OutInv(cfg, s) && (e.TakeDone? || e.TakeCtx?)
    ensures Delivered(cfg, Next(cfg, s, e).out, s.sent, Next(cfg, s, e).a)
  {
    if s.a.live {
      DoneDelivers(cfg, s.a);
      OutKeep(cfg, s, OnDone(cfg, s.a));
      OutKeep(cfg, s, Leave(s.a, []));
    }
  }

  lemma OutNext(cfg: Config, s: Sys, e: Event)
    requires OutInv(cfg, s)
    ensures OutInv(cfg, Next(cfg, s, e))
  {
    OrderNext(cfg, s, e);
    if e.FwdPositive? || e.FwdReorg? {
      OutForward(cfg, s, e);
    } else if e.TakePositive? || e.TakeReorg? {
      OutTake(cfg, s, e);
    } else if e.TakeDone? || e.TakeCtx? {
      OutEnd(cfg, s, e);
    } else if e.TakeArmed? {
      OutArmed(cfg, s, e);
    } else if e.TakeEpochs? {
      OutEpochs(cfg, s);
    }
  }

  lemma OutArmed(cfg: Config, s: Sys, e: Event)
    requires OutInv(cfg, s) && e.TakeArmed?
    ensures Delivered(cfg, Next(cfg, s, e).out, s.sent, Next(cfg, s, e).a)
  {
    if s.a.live && |s.armers| > 0 {
      var reg := if s.armers[0].Holding? then Some(s.armers[0].reg) else None;
      var tip := if s.armers[0].Holding? then s.armers[0].tip else 0;
      ArmedDelivers(cfg, s.a, reg, tip);
      ArmedKeepsView(cfg, s.a, reg, tip);
      OutKeep(cfg, s, OnArmed(cfg, s.a, reg, tip));
    }
  }

  lemma OutEpochs(cfg: Config, s: Sys)
    requires OutInv(cfg, s)
    ensures Delivered(cfg, Next(cfg, s, TakeEpochs).out, s.sent, Next(cfg, s, TakeEpochs).a)
  {
    if s.a.live {
      EpochsDeliver(cfg, s.a, s.epochQ, s.epochsClosed);
      EpochsKeepView(cfg, s.a, s.epochQ, s.epochsClosed);
      OutKeep(cfg, s, OnEpochs(cfg, s.a, s.epochQ, s.epochsClosed));
    }
  }

  lemma {:induction false} OutRun(cfg: Config, es: seq<Event>)
    ensures OutInv(cfg, Run(cfg, INIT, es))
    decreases |es|
  {
    if es != [] {
      OutRun(cfg, es[..|es| - 1]);
      OutNext(cfg, Run(cfg, INIT, es[..|es| - 1]), es[|es| - 1]);
    }
  }

  /**
   * In every run deliveries report stamped signals in forwarder order without repeats, and a
   * Done is delivered at most once, as the last delivery, after which the watch is over.
   */
  lemma DeliveriesInOrder(cfg: Config, es: seq<Event>, i: nat, j: nat)
    requires i < j < |Run(cfg, INIT, es).out|
    ensures var s := Run(cfg, INIT, es);
            && !s.out[i].Done? && Reports(s.sent, s.out[i]) && Reports(s.sent, s.out[j])
            && (!s.out[j].Done? ==> DeliverySeq(s.out[i]) < DeliverySeq(s.out[j]))
            && (s.out[j].Done? ==> j == |s.out| - 1 && !s.a.live)
  {
    OutRun(cfg, es);
  }

  lemma DoneAt(cfg: Config, s: Sys, i: nat)
    requires OutInv(cfg, s) && i < |s.out| && s.out[i].Done?
    ensures i == |s.out| - 1 && s.out[i].last.Some? && s.out[i].last == ViewAt(s.sent, s.a.lastSeq)
    ensures s.out[i].why.Synthesized? ==>
              var tip, h := s.out[i].why.tip, s.out[i].last.value.blockHeight;
              tip >= h + cfg.depth - 1 <==> 0 <= tip && CastsFit(h, cfg.depth)
  {
    var d := s.out[i];
    if d.why.Synthesized? {
      NonzeroHeight(d.last.value.blockHeight);
      PassedMeansDeep(d.why.tip, d.last.value.blockHeight, cfg.depth);
    }
  }

  /**
   * A delivered Done names a positive, and the newest signal the loop took is that very
   * positive, not reorged since. A synthesized one came from a tip at least depth - 1 above it
   * exactly when that tip is non-negative and height and depth survive their casts.
   */
  lemma DoneNamesStandingPositive(cfg: Config, es: seq<Event>, i: nat)
    requires i < |Run(cfg, INIT, es).out| && Run(cfg, INIT, es).out[i].Done?
    ensures var s := Run(cfg, INIT, es);
            && s.a.lastSeq <= |s.sent| && IsMax(s.consumed, s.a.lastSeq)
            && i == |s.out| - 1 && s.out[i].last.Some? && s.out[i].last == ViewAt(s.sent, s.a.lastSeq)
            && (s.out[i].why.Synthesized? ==>
                  var tip, h := s.out[i].why.tip, s.out[i].last.value.blockHeight;
                  tip >= h + cfg.depth - 1 <==> 0 <= tip && CastsFit(h, cfg.depth))
  {
    OutRun(cfg, es);
    DoneAt(cfg, Run(cfg, INIT, es), i);
  }

  /** The shortest history that finalizes a positive at height h on the tip its armer read. */
  function ArmedHistory(h: Uint32, tip: Int32): seq<Event> {
    [FwdPositive(h, true, 7), TakePositive, ArmerObtains(1, tip), TakeArmed([], false)]
  }

  lemma ConfirmAndArm(cfg: Config, h: Uint32)
    requires cfg.wantDone && !cfg.future && cfg.depth > 0
    ensures var s, p := Next(cfg, Next(cfg, INIT, FwdPositive(h, true, 7)), TakePositive), Positive(1, h, true, 7);
            && s.a.live && s.a.last == Some(p) && s.a.height == ToInt32(h)
            && s.armers == [Working] && s.obtained == {} && s.out == [Confirmed(p)]
  {
    assert Next(cfg, INIT, FwdPositive(h, true, 7)).posQ == [Positive(1, h, true, 7)];
  }

  lemma HandOver(cfg: Config, s: Sys, tip: Int32)
    requires cfg.wantDone && cfg.depth > 0 && s.a.live && s.a.height != 0 && DeepEnough(tip, s.a.height, cfg.depth)
    requires s.armers == [Working] && s.obtained == {}
    ensures Next(cfg, Next(cfg, s, ArmerObtains(1, tip)), TakeArmed([], false)).out
         == s.out + [Done(s.a.last, Synthesized(tip, s.a.height))]
  {
    assert Next(cfg, s, ArmerObtains(1, tip)).armers == [Holding(1, tip)];
  }

  lemma ArmedHistoryFinalizes(cfg: Config, h: Uint32, tip: Int32)
    requires cfg.wantDone && !cfg.future && cfg.depth > 0 && h > 0 && DeepEnough(tip, ToInt32(h), cfg.depth)
    ensures var p := Positive(1, h, true, 7);
            Run(cfg, INIT, ArmedHistory(h, tip)).out == [Confirmed(p), Done(Some(p), Synthesized(tip, ToInt32(h)))]
  {
    UnrollFour(cfg, ArmedHistory(h, tip));
    ConfirmAndArm(cfg, h);
    NonzeroHeight(h);
    HandOver(cfg, Next(cfg, Next(cfg, INIT, FwdPositive(h, true, 7)), TakePositive), tip);
  }

  lemma UnrollFour(cfg: Config, es: seq<Event>)
    requires |es| == 4
    ensures Run(cfg, INIT, es) == Next(cfg, Next(cfg, Next(cfg, Next(cfg, INIT, es[0]), es[1]), es[2]), es[3])
  {
    assert es[..3][..2] == es[..2] && es[..2][..1] == es[..1] && es[..1][..0] == [];
    assert Run(cfg, INIT, es[..1]) == Next(cfg, INIT, es[0]);
    assert Run(cfg, INIT, es[..2]) == Next(cfg, Run(cfg, INIT, es[..1]), es[1]);
    assert Run(cfg, INIT, es[..3]) == Next(cfg, Run(cfg, INIT, es[..2]), es[2]);
  }

  /**
   * Out of that range the promise does fail, at every such height and depth: a history in which
   * a non-negative tip below height + depth - 1 finalizes. (Height 2^32 - 1 at depth 6 is one.)
   */
  lemma EarlyDone(cfg: Config, h: Uint32)
    requires cfg.wantDone && !cfg.future && cfg.depth > 0 && h > 0 && !CastsFit(h, cfg.depth)
    ensures var out := Run(cfg, INIT, ArmedHistory(h, EarlyTip(h))).out;
            |out| == 2 && out[1].Done? && out[1].why.Synthesized?
            && out[1].last == Some(Positive(1, h, true, 7)) && 0 <= out[1].why.tip < h + cfg.depth - 1
  {
    EarlyTipPasses(h, cfg.depth);
    ArmedHistoryFinalizes(cfg, h, EarlyTip(h));
  }

  /** A negative tip can finalize a positive at a real height too. */
  lemma NegativeTipFinalizes(cfg: Config)
    requires cfg.wantDone && !cfg.future && cfg.depth == 6
    ensures var out := Run(cfg, INIT, ArmedHistory(2, -TWO_31)).out;
            |out| == 2 && out[1] == Done(Some(Positive(1, 2, true, 7)), Synthesized(-TWO_31, 2))
  {
    assert ToInt32(-TWO_31 - 2 + 1) == TWO_31 - 1;
    ArmedHistoryFinalizes(cfg, 2, -TWO_31);
  }

  /** The newest epoch of the queue, skipping nil ones. */
  predicate Newest(queue: seq<Option<Int32>>, tip: Int32) {
    exists i :: 0 <= i < |queue| && queue[i] == Some(tip) && forall k :: i < k < |queue| ==> queue[k].None?
  }

  lemma {:induction false} LatestIsNewest(queue: seq<Option<Int32>>, cur: Int32)
    ensures (Latest(queue, cur) == cur && forall k :: 0 <= k < |queue| ==> queue[k].None?)
            || Newest(queue, Latest(queue, cur))
  {
    if queue != [] {
      var next := if queue[0].Some? then queue[0].value else cur;
      LatestIsNewest(queue[1..], next);
      if Newest(queue[1..], Latest(queue, cur)) {
        var rest := queue[1..];
        var i :| 0 <= i < |rest| && rest[i] == Some(Latest(queue, cur)) && forall k :: i < k < |rest| ==> rest[k].None?;
        assert queue[i + 1] == Some(Latest(queue, cur));
        forall k | i + 1 < k < |queue| ensures queue[k].None? { assert queue[k] == queue[1..][k - 1]; }
      } else {
        forall k | 1 <= k < |queue| ensures queue[k].None? { assert queue[k] == queue[1..][k - 1]; }
        if queue[0].Some? { assert queue[0] == Some(Latest(queue, cur)); }
      }
    }
  }

  lemma EpochsTip(cfg: Config, a: Actor, queue: seq<Option<Int32>>, closed: bool)
    ensures var out := OnEpochs(cfg, a, queue, closed).out;
            out != [] ==>
              !closed && |out| == 1 && out[0].Done? && out[0].why.Synthesized? && Newest(queue, out[0].why.tip)
  {
    if queue != [] && queue[0].Some? {
      var rest := queue[1..];
      LatestIsNewest(rest, queue[0].value);
      assert forall k :: 1 <= k < |queue| ==> queue[k] == rest[k - 1];
    }
  }

  lemma ArmedTip(cfg: Config, a: Actor, reg: Option<nat>, tip: Int32)
    ensures var out := OnArmed(cfg, a, reg, tip).out;
            out != [] ==> reg.Some? && |out| == 1 && out[0].Done? && out[0].why.Synthesized? && out[0].why.tip == tip
  {
  }

  predicate Synthesizes(out: seq<Delivery>) {
    exists i :: 0 <= i < |out| && out[i].Done? && out[i].why.Synthesized?
  }

  lemma OthersDoNotSynthesize(cfg: Config, a: Actor, p: Positive, n: nat)
    ensures !Synthesizes(OnPositive(cfg, a, p).out) && !Synthesizes(OnReorg(cfg, a, n).out)
    ensures !Synthesizes(OnDone(cfg, a).out)
  {
  }

  /**
   * A tip that finalizes was read by the armer just taken, or is the newest epoch buffered on
   * a block stream that is still open: a closed stream's buffer never finalizes.
   */
  lemma FinalizingTip(cfg: Config, s: Sys, e: Event)
    requires s.out <= Next(cfg, s, e).out && Synthesizes(Next(cfg, s, e).out[|s.out|..])
    ensures var d := Next(cfg, s, e).out[|s.out|];
            && d.Done? && d.why.Synthesized?
            && ((e.TakeArmed? && |s.armers| > 0 && s.armers[0].Holding? && d.why.tip == s.armers[0].tip)
                || (e.TakeEpochs? && !s.epochsClosed && Newest(s.epochQ, d.why.tip)))
  {
    var more := Next(cfg, s, e).out[|s.out|..];
    if e.TakeEpochs? {
      EpochsTip(cfg, s.a, s.epochQ, s.epochsClosed);
      assert more == OnEpochs(cfg, s.a, s.epochQ, s.epochsClosed).out;
    } else if e.TakeArmed? {
      ArmedTip(cfg, s.a, None, 0);
      if |s.armers| > 0 && s.armers[0].Holding? {
        ArmedTip(cfg, s.a, Some(s.armers[0].reg), s.armers[0].tip);
      }
    } else if e.TakePositive? || e.TakeReorg? || e.TakeDone? {
      OthersDoNotSynthesize(cfg, s.a, if s.posQ != [] then s.posQ[0] else Positive(0, 0, false, 0),
                            if s.reorgQ != [] then s.reorgQ[0] else 0);
      assert false;
    }
  }

  // ---------------------------------------------------------------- finality is not stranded or leaked

  function HeldBy(armers: seq<Armer>): set<nat> {
    if armers == [] then {} else (if armers[0].Holding? then {armers[0].reg} else {}) + HeldBy(armers[1..])
  }

  function HeldReg(a: Actor): set<nat> { if a.reg.Some? then {a.reg.value} else {} }

  /** Every registration ever obtained is held by the loop or an armer, or was cancelled, and only one of these. */
  predicate Ledger(s: Sys) {
    && s.obtained == s.cancelled + HeldReg(s.a) + HeldBy(s.armers)
    && s.cancelled !! (HeldReg(s.a) + HeldBy(s.armers))
    && HeldReg(s.a) !! HeldBy(s.armers)
  }

  /** A standing positive the loop can count from. */
  predicate Counting(cfg: Config, a: Actor) { a.live && ReorgAware(cfg) && cfg.depth > 0 && a.height != 0 }

  predicate ArmInv(cfg: Config, s: Sys) {
    && |s.armers| <= 1
    && (s.a.live ==> (s.armers != [] ==> s.a.arming) && !(s.a.arming && s.a.reg.Some?))
    && (s.a.live && !s.ctxDone ==> (s.a.arming <==> |s.armers| == 1))
    && (!s.a.live ==> s.ctxDone && s.a.reg.None?)
    && (Counting(cfg, s.a) && !s.ctxDone ==> s.a.arming || s.a.reg.Some?)
  }

  predicate FinalityInv(cfg: Config, s: Sys) { Ledger(s) && ArmInv(cfg, s) }

  /** What a turn does to the registration bookkeeping. */
  predicate TurnArms(cfg: Config, a: Actor, t: Turn) {
    && t.cancel == HeldReg(a) - HeldReg(t.a)
    && HeldReg(t.a) <= HeldReg(a)
    && (t.arm ==> t.a.live && t.a.arming && !a.arming && t.a.reg.None?)
    && (t.a.live && !t.arm ==> t.a.arming == a.arming)
    && (!t.a.live ==> t.a.reg.None?)
    && (Counting(cfg, t.a) && (Counting(cfg, a) ==> a.arming || a.reg.Some?) ==> t.a.arming || t.a.reg.Some?)
  }

  lemma PositiveArms(cfg: Config, a: Actor, p: Positive)
    requires a.live
    ensures TurnArms(cfg, a, OnPositive(cfg, a, p))
  {
  }

  lemma ReorgArms(cfg: Config, a: Actor, n: nat)
    requires a.live
    ensures TurnArms(cfg, a, OnReorg(cfg, a, n))
  {
  }

  lemma EpochsArm(cfg: Config, a: Actor, queue: seq<Option<Int32>>, closed: bool)
    requires a.live
    ensures TurnArms(cfg, a, OnEpochs(cfg, a, queue, closed))
  {
  }

  lemma EndsArm(cfg: Config, a: Actor)
    requires a.live
    ensures TurnArms(cfg, a, OnDone(cfg, a)) && TurnArms(cfg, a, Leave(a, []))
  {
  }

  lemma {:induction false} HeldByAppend(armers: seq<Armer>)
    ensures HeldBy(armers + [Working]) == HeldBy(armers)
  {
    if armers != [] {
      assert (armers + [Working])[1..] == armers[1..] + [Working];
      HeldByAppend(armers[1..]);
    } else {
      assert armers + [Working] == [Working] && [Working][1..] == [];
    }
  }

  lemma AbsorbKeeps(cfg: Config, s: Sys, t: Turn)
    requires FinalityInv(cfg, s) && s.a.live && TurnArms(cfg, s.a, t)
    ensures FinalityInv(cfg, Absorb(s, t))
  {
    HeldByAppend(s.armers);
  }

  /** The loop takes over what the armer obtained: held before, held (or cancelled on a Done) after. */
  lemma FinalityArmed(cfg: Config, s: Sys, e: Event)
    requires FinalityInv(cfg, s) && e.TakeArmed?
    ensures FinalityInv(cfg, Next(cfg, s, e))
  {
    if s.a.live && |s.armers| > 0 {
      assert s.armers == [s.armers[0]] && s.armers[1..] == [];
      assert HeldBy(s.armers) == if s.armers[0].Holding? then {s.armers[0].reg} else {};
      if s.armers[0].Holding? {
        var taken := s.(armers := [], epochQ := e.queue, epochsClosed := e.closed,
                        a := s.a.(arming := false, reg := Some(s.armers[0].reg)));
        assert FinalityInv(cfg, taken);
        EvaluateArms(cfg, taken.a, s.armers[0].tip);
        AbsorbKeeps(cfg, taken, Evaluate(cfg, taken.a, s.armers[0].tip));
        assert Next(cfg, s, e) == Absorb(taken, Evaluate(cfg, taken.a, s.armers[0].tip));
      }
    }
  }

  lemma EvaluateArms(cfg: Config, a: Actor, tip: Int32)
    requires a.live
    ensures TurnArms(cfg, a, Evaluate(cfg, a, tip))
  {
  }

  lemma FinalityArmer(cfg: Config, s: Sys, e: Event)
    requires FinalityInv(cfg, s) && (e.ArmerObtains? || e.ArmerQuits?)
    ensures FinalityInv(cfg, Next(cfg, s, e))
  {
    if |s.armers| > 0 {
      assert s.armers == [s.armers[0]] && s.armers[1..] == [];
      if e.ArmerObtains? {
        assert [Holding(e.reg, e.tip)] + s.armers[1..] == [Holding(e.reg, e.tip)];
        assert [Holding(e.reg, e.tip)][1..] == [];
      }
    }
  }

  lemma FinalityTake(cfg: Config, s: Sys, e: Event)
    requires FinalityInv(cfg, s) && s.a.live
    requires e.TakePositive? || e.TakeReorg? || e.TakeDone? || e.TakeCtx?
    ensures FinalityInv(cfg, Next(cfg, s, e))
  {
    EndsArm(cfg, s.a);
    if e.TakePositive? && s.posQ != [] {
      PositiveArms(cfg, s.a, s.posQ[0]);
      AbsorbKeeps(cfg, s.(posQ := s.posQ[1..], consumed := s.consumed + {s.posQ[0].seqNo}),
                  OnPositive(cfg, s.a, s.posQ[0]));
    } else if e.TakeReorg? && s.reorgQ != [] {
      ReorgArms(cfg, s.a, s.reorgQ[0]);
      AbsorbKeeps(cfg, s.(reorgQ := s.reorgQ[1..], consumed := s.consumed + {s.reorgQ[0]}),
                  OnReorg(cfg, s.a, s.reorgQ[0]));
    } else if e.TakeDone? && s.doneQ > 0 {
      AbsorbKeeps(cfg, s.(doneQ := s.doneQ - 1), OnDone(cfg, s.a));
    } else {
      AbsorbKeeps(cfg, s, Leave(s.a, []));
    }
  }

  lemma FinalityEpochs(cfg: Config, s: Sys)
    requires FinalityInv(cfg, s) && s.a.live
    ensures FinalityInv(cfg, Next(cfg, s, TakeEpochs))
  {
    EpochsArm(cfg, s.a, s.epochQ, s.epochsClosed);
    var t := OnEpochs(cfg, s.a, s.epochQ, s.epochsClosed);
    AbsorbKeeps(cfg, s.(epochQ := []), t);
    if s.epochQ != [] {
      AbsorbKeeps(cfg, s.(epochQ := s.epochQ[1..]), t);
    }
  }

  predicate Forwards(e: Event) { e.FwdPositive? || e.FwdReorg? || e.FwdDone? || e.FwdFinish? || e.FwdExit? }

  lemma FinalityOther(cfg: Config, s: Sys, e: Event)
    requires FinalityInv(cfg, s)
    requires !s.a.live || e.CancelCtx? || e.EpochPush? || e.EpochClose? || Forwards(e)
    requires !e.ArmerObtains? && !e.ArmerQuits? && !e.TakeArmed?
    ensures FinalityInv(cfg, Next(cfg, s, e))
  {
  }

  lemma FinalityNext(cfg: Config, s: Sys, e: Event)
    requires FinalityInv(cfg, s)
    ensures FinalityInv(cfg, Next(cfg, s, e))
  {
    if e.TakeArmed? {
      FinalityArmed(cfg, s, e);
    } else if e.ArmerObtains? || e.ArmerQuits? {
      FinalityArmer(cfg, s, e);
    } else if !s.a.live {
      FinalityOther(cfg, s, e);
    } else if e.TakePositive? || e.TakeReorg? || e.TakeDone? || e.TakeCtx? {
      FinalityTake(cfg, s, e);
    } else if e.TakeEpochs? {
      FinalityEpochs(cfg, s);
    } else {
      FinalityOther(cfg, s, e);
    }
  }

  lemma {:induction false} FinalityRun(cfg: Config, es: seq<Event>)
    ensures FinalityInv(cfg, Run(cfg, INIT, es))
    decreases |es|
  {
    if es != [] {
      FinalityRun(cfg, es[..|es| - 1]);
      FinalityNext(cfg, Run(cfg, INIT, es[..|es| - 1]), es[|es| - 1]);
    }
  }

  /** A standing positive that nothing will ever finalize: no armer in flight, no block stream held. */
  predicate Stranded(cfg: Config, s: Sys) {
    && ReorgAware(cfg) && cfg.depth > 0 && s.a.live && !s.ctxDone && s.a.last.Some?
    && s.armers == [] && s.a.reg.None?
  }

  /**
   * Through any run of reorgs, re-confirmations and stream closes, a live watch never holds an
   * armer and a block stream at once, nor two armers, and a standing positive at a nonzero
   * height always has one of the two. No registration is lost: each is held once or cancelled,
   * and after exit, once armers are gone, all are cancelled.
   */
  lemma FinalityIsOwned(cfg: Config, es: seq<Event>)
    ensures var s := Run(cfg, INIT, es);
            && |s.armers| <= 1
            && (s.a.live ==> !(s.armers != [] && s.a.reg.Some?))
            && (s.a.last.Some? && s.a.last.value.blockHeight != 0 ==> !Stranded(cfg, s))
            && s.obtained == s.cancelled + HeldReg(s.a) + HeldBy(s.armers)
            && s.cancelled !! (HeldReg(s.a) + HeldBy(s.armers))
            && (!s.a.live && s.armers == [] ==> s.obtained == s.cancelled)
  {
    FinalityRun(cfg, es);
    OrderRun(cfg, es);
    var s := Run(cfg, INIT, es);
    if s.a.live && s.a.last.Some? && s.a.last.value.blockHeight != 0 {
      NonzeroHeight(s.a.last.value.blockHeight);
    }
  }

  lemma NonzeroHeight(h: Uint32)
    ensures ToInt32(h) == 0 <==> h == 0
  {
  }

  /** A watch counting from height zero with a block stream in hand. */
  predicate AtZero(s: Sys) {
    && s.a.live && !s.ctxDone && s.a.last.Some? && s.a.height == 0
    && s.armers == [] && s.a.reg.Some? && !s.a.arming
  }

  lemma ReachZero(cfg: Config)
    requires ReorgAware(cfg) && !cfg.future && cfg.depth > 0
    ensures var s2 := Next(cfg, Next(cfg, INIT, FwdPositive(0, true, 7)), TakePositive);
            && s2.a.live && !s2.ctxDone && s2.a.last.Some? && s2.a.height == 0
            && s2.armers == [Working] && s2.obtained == {}
  {
    var s1 := Next(cfg, INIT, FwdPositive(0, true, 7));
    assert s1.posQ == [Positive(1, 0, true, 7)];
  }

  lemma ArmZero(cfg: Config, s: Sys)
    requires s.a.live && !s.ctxDone && s.a.last.Some? && s.a.height == 0 && s.armers == [Working] && s.obtained == {}
    ensures AtZero(Next(cfg, Next(cfg, s, ArmerObtains(1, 100)), TakeArmed([], false)))
  {
    var s1 := Next(cfg, s, ArmerObtains(1, 100));
    assert s1.armers == [Holding(1, 100)];
  }

  /** However it got there: the next close strands it. */
  lemma CloseStrands(cfg: Config, s: Sys)
    requires ReorgAware(cfg) && cfg.depth > 0 && AtZero(s)
    ensures Stranded(cfg, Next(cfg, Next(cfg, s, EpochClose), TakeEpochs))
  {
  }

  /**
   * A positive at height zero does strand: the loop reads a zero height as "no positive" and
   * will not replace a block stream that closes.
   */
  lemma ZeroHeightStrands(cfg: Config)
    requires ReorgAware(cfg) && !cfg.future && cfg.depth > 0
    ensures Stranded(cfg, Run(cfg, INIT, ArmedHistory(0, 100) + [EpochClose, TakeEpochs]))
  {
    UnrollRun(cfg, ArmedHistory(0, 100) + [EpochClose, TakeEpochs]);
    ReachZero(cfg);
    var s2 := Next(cfg, Next(cfg, INIT, FwdPositive(0, true, 7)), TakePositive);
    ArmZero(cfg, s2);
    CloseStrands(cfg, Next(cfg, Next(cfg, s2, ArmerObtains(1, 100)), TakeArmed([], false)));
  }

  lemma UnrollRun(cfg: Config, es: seq<Event>)
    requires |es| == 6
    ensures var s4 := Next(cfg, Next(cfg, Next(cfg, Next(cfg, INIT, es[0]), es[1]), es[2]), es[3]);
            Run(cfg, INIT, es) == Next(cfg, Next(cfg, s4, es[4]), es[5])
  {
    assert es[..5][..4] == es[..4] && es[..4][..3] == es[..3] && es[..3][..2] == es[..2];
    assert es[..2][..1] == es[..1] && es[..1][..0] == [];
    assert Run(cfg, INIT, es[..1]) == Next(cfg, INIT, es[0]);
    assert Run(cfg, INIT, es[..2]) == Next(cfg, Run(cfg, INIT, es[..1]), es[1]);
    assert Run(cfg, INIT, es[..3]) == Next(cfg, Run(cfg, INIT, es[..2]), es[2]);
    assert Run(cfg, INIT, es[..4]) == Next(cfg, Run(cfg, INIT, es[..3]), es[3]);
    assert Run(cfg, INIT, es[..5]) == Next(cfg, Run(cfg, INIT, es[..4]), es[4]);
  }
}
