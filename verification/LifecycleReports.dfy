/**
 * What a watch must deliver: every signal that is news when it is taken, every Done that is
 * due, and a fresh block stream for one that closed.
 */
module LifecycleReports {
  import opened Basics
  import opened LifecycleWatch
  import opened LifecycleRuns

  // ---------------------------------------------------------------- nothing newsworthy is dropped

  /** The signal an event takes off its channel. */
  function TakenBy(s: Sys, e: Event): seq<Signal> {
    if e.TakePositive? && s.a.live && s.posQ != [] then [Pos(s.posQ[0])]
    else if e.TakeReorg? && s.a.live && s.reorgQ != [] then [Reorg(s.reorgQ[0])]
    else []
  }

  /** The signals a history takes, in the order it takes them. */
  function Taken(cfg: Config, es: seq<Event>): seq<Signal> {
    if es == [] then [] else Taken(cfg, es[..|es| - 1]) + TakenBy(Run(cfg, INIT, es[..|es| - 1]), es[|es| - 1])
  }

  function Highest(sigs: seq<Signal>): nat {
    if sigs == [] then 0 else Max(Highest(sigs[..|sigs| - 1]), SeqOf(sigs[|sigs| - 1]))
  }

  /** What a subscriber is to hear of a signal: an unbuildable positive is not delivered, a reorg only if wanted. */
  function Report(cfg: Config, x: Signal): seq<Delivery> {
    match x
    case Pos(p) => if p.buildable then [Confirmed(p)] else []
    case Reorg(n) => if cfg.wantReorg then [Reorged(n)] else []
  }

  /** The reports of the signals that were newer than all taken before them, in order. */
  function Reported(cfg: Config, sigs: seq<Signal>): seq<Delivery> {
    if sigs == [] then []
    else
      var before, x := sigs[..|sigs| - 1], sigs[|sigs| - 1];
      Reported(cfg, before) + if SeqOf(x) > Highest(before) then Report(cfg, x) else []
  }

  /** The deliveries other than Done. */
  function News(out: seq<Delivery>): seq<Delivery> {
    if out == [] then []
    else News(out[..|out| - 1]) + if out[|out| - 1].Done? then [] else [out[|out| - 1]]
  }

  lemma {:induction false} NewsConcat(a: seq<Delivery>, b: seq<Delivery>)
    ensures News(a + b) == News(a) + News(b)
  {
    if b == [] {
      assert a + b == a;
    } else {
      NewsConcat(a, b[..|b| - 1]);
      assert (a + b)[..|a + b| - 1] == a + b[..|b| - 1];
    }
  }

  lemma NewsOfOne(d: Delivery)
    ensures News([d]) == if d.Done? then [] else [d]
  {
    assert [d][..0] == [];
  }

  lemma NewsOfTwo(d: Delivery, e: Delivery)
    requires !d.Done? && e.Done?
    ensures News([d, e]) == [d]
  {
    NewsOfOne(d);
    assert [d, e][..1] == [d];
  }

  lemma PositiveNews(cfg: Config, a: Actor, p: Positive)
    requires p.seqNo > 0
    ensures var t := OnPositive(cfg, a, p);
            && News(t.out) == (if p.seqNo > a.lastSeq then Report(cfg, Pos(p)) else [])
            && t.a.lastSeq == Max(a.lastSeq, p.seqNo)
  {
    NewsOfOne(Confirmed(p));
    NewsOfTwo(Confirmed(p), Done(Some(p), Backend));
  }

  lemma ReorgNews(cfg: Config, a: Actor, n: nat)
    requires n > 0
    ensures var t := OnReorg(cfg, a, n);
            && News(t.out) == (if n > a.lastSeq then Report(cfg, Reorg(n)) else [])
            && t.a.lastSeq == Max(a.lastSeq, n)
  {
    NewsOfOne(Reorged(n));
  }

  /** A turn that delivers at most a Done and leaves the sequence alone. */
  predicate Quiet(a: Actor, t: Turn) {
    t.a.lastSeq == a.lastSeq && (t.out == [] || (|t.out| == 1 && t.out[0].Done?))
  }

  lemma QuietNews(s: Sys, t: Turn)
    requires Quiet(s.a, t)
    ensures Absorb(s, t).a.lastSeq == s.a.lastSeq && News(Absorb(s, t).out) == News(s.out)
  {
    NewsConcat(s.out, t.out);
    if t.out != [] {
      NewsOfOne(t.out[0]);
      assert t.out == [t.out[0]];
    }
  }

  lemma EvaluateQuiet(cfg: Config, a: Actor, tip: Int32)
    ensures Quiet(a, Evaluate(cfg, a, tip))
  {
  }

  lemma EpochsQuiet(cfg: Config, a: Actor, queue: seq<Option<Int32>>, closed: bool)
    ensures Quiet(a, OnEpochs(cfg, a, queue, closed))
  {
    if queue != [] && queue[0].Some? {
      EvaluateQuiet(cfg, a, Latest(queue[1..], queue[0].value));
    }
  }

  lemma ArmedQuiet(cfg: Config, a: Actor, reg: Option<nat>, tip: Int32)
    ensures Quiet(a, OnArmed(cfg, a, reg, tip))
  {
    EvaluateQuiet(cfg, a.(arming := false, reg := reg), tip);
  }

  lemma NoNewsEpochs(cfg: Config, s: Sys)
    ensures var t := Next(cfg, s, TakeEpochs);
            t.a.lastSeq == s.a.lastSeq && News(t.out) == News(s.out)
  {
    EpochsQuiet(cfg, s.a, s.epochQ, s.epochsClosed);
    QuietNews(s.(epochQ := []), OnEpochs(cfg, s.a, s.epochQ, s.epochsClosed));
    if s.epochQ != [] {
      QuietNews(s.(epochQ := s.epochQ[1..]), OnEpochs(cfg, s.a, s.epochQ, s.epochsClosed));
    }
  }

  lemma NoNewsEnds(cfg: Config, s: Sys)
    ensures News(Absorb(s, Leave(s.a, [])).out) == News(s.out)
    ensures News(Next(cfg, s, TakeDone).out) == News(s.out) && Next(cfg, s, TakeDone).a.lastSeq == s.a.lastSeq
  {
    QuietNews(s, Leave(s.a, []));
    if s.doneQ > 0 {
      QuietNews(s.(doneQ := s.doneQ - 1), OnDone(cfg, s.a));
    }
  }

  /** Every other arm delivers no news. */
  lemma NoNews(cfg: Config, s: Sys, e: Event)
    requires TakenBy(s, e) == []
    ensures Next(cfg, s, e).a.lastSeq == s.a.lastSeq && News(Next(cfg, s, e).out) == News(s.out)
  {
    if e.TakeArmed? {
      NoNewsArmed(cfg, s, e.queue, e.closed);
    } else if e.TakeEpochs? {
      NoNewsEpochs(cfg, s);
    } else if e.TakePositive? || e.TakeDone? || e.TakeCtx? {
      NoNewsEnds(cfg, s);
    }
  }

  lemma NoNewsArmed(cfg: Config, s: Sys, queue: seq<Option<Int32>>, closed: bool)
    ensures var t := Next(cfg, s, TakeArmed(queue, closed));
            t.a.lastSeq == s.a.lastSeq && News(t.out) == News(s.out)
  {
    if |s.armers| > 0 {
      var rest := s.(armers := s.armers[1..]);
      ArmedQuiet(cfg, s.a, None, 0);
      QuietNews(rest, OnArmed(cfg, s.a, None, 0));
      if s.armers[0].Holding? {
        ArmedQuiet(cfg, s.a, Some(s.armers[0].reg), s.armers[0].tip);
        QuietNews(rest.(epochQ := queue, epochsClosed := closed),
                  OnArmed(cfg, s.a, Some(s.armers[0].reg), s.armers[0].tip));
      }
    }
  }

  /** What every history keeps: the highest sequence taken, and the reports made. */
  predicate Reporting(cfg: Config, s: Sys, taken: seq<Signal>) {
    s.a.lastSeq == Highest(taken) && News(s.out) == Reported(cfg, taken)
  }

  lemma Snoc(cfg: Config, taken: seq<Signal>, x: Signal)
    ensures Highest(taken + [x]) == Max(Highest(taken), SeqOf(x))
    ensures Reported(cfg, taken + [x]) ==
              Reported(cfg, taken) + if SeqOf(x) > Highest(taken) then Report(cfg, x) else []
  {
    assert (taken + [x])[..|taken|] == taken;
  }

  lemma ReportPositive(cfg: Config, s: Sys, taken: seq<Signal>)
    requires OrderInv(s) && Reporting(cfg, s, taken) && s.a.live && s.posQ != []
    ensures Reporting(cfg, Next(cfg, s, TakePositive), taken + [Pos(s.posQ[0])])
  {
    var p := s.posQ[0];
    assert p in s.posQ;
    PositiveNews(cfg, s.a, p);
    NewsConcat(s.out, OnPositive(cfg, s.a, p).out);
    Snoc(cfg, taken, Pos(p));
  }

  lemma ReportReorg(cfg: Config, s: Sys, taken: seq<Signal>)
    requires OrderInv(s) && Reporting(cfg, s, taken) && s.a.live && s.reorgQ != []
    ensures Reporting(cfg, Next(cfg, s, TakeReorg), taken + [Reorg(s.reorgQ[0])])
  {
    var n := s.reorgQ[0];
    assert n in s.reorgQ;
    ReorgNews(cfg, s.a, n);
    NewsConcat(s.out, OnReorg(cfg, s.a, n).out);
    Snoc(cfg, taken, Reorg(n));
  }

  lemma ReportNext(cfg: Config, s: Sys, e: Event, taken: seq<Signal>)
    requires OrderInv(s) && Reporting(cfg, s, taken)
    ensures Reporting(cfg, Next(cfg, s, e), taken + TakenBy(s, e))
  {
    if TakenBy(s, e) == [] {
      NoNews(cfg, s, e);
      assert taken + [] == taken;
    } else if e.TakePositive? {
      ReportPositive(cfg, s, taken);
    } else {
      ReportReorg(cfg, s, taken);
    }
  }

  /**
   * In every history the deliveries other than Done are exactly the reports of the signals that
   * were newer than everything taken before them, in the order they were taken: none is dropped,
   * repeated or invented.
   */
  lemma {:induction false} DeliveriesAreComplete(cfg: Config, es: seq<Event>)
    ensures Reporting(cfg, Run(cfg, INIT, es), Taken(cfg, es))
    decreases |es|
  {
    if es != [] {
      DeliveriesAreComplete(cfg, es[..|es| - 1]);
      OrderRun(cfg, es[..|es| - 1]);
      ReportNext(cfg, Run(cfg, INIT, es[..|es| - 1]), es[|es| - 1], Taken(cfg, es[..|es| - 1]));
    }
  }

  // ---------------------------------------------------------------- a Done that is due is delivered

  function DoneIfWanted(cfg: Config, last: Option<Positive>, why: Why): seq<Delivery> {
    if cfg.wantDone then [Done(last, why)] else []
  }

  /** The backend's Done ends a watch whose positive stands and is kept for one whose positive is still to come. */
  lemma BackendDoneIsDelivered(cfg: Config, s: Sys)
    requires OrderInv(s) && s.a.live && s.a.doneOpen && s.doneQ > 0
    ensures var t := Next(cfg, s, TakeDone);
            if s.a.last.Some? then t.out == s.out + DoneIfWanted(cfg, s.a.last, Backend) && !t.a.live
            else t.out == s.out && t.a.live && t.a.pendingDone && t.a.last.None?
  {
  }

  /** A Done that was kept is delivered right behind the next fresh positive. */
  lemma KeptDoneIsReleased(cfg: Config, s: Sys)
    requires OrderInv(s) && s.a.live && s.a.pendingDone && ReorgAware(cfg) && !cfg.future
    requires s.posQ != [] && s.posQ[0].seqNo > s.a.lastSeq && s.posQ[0].buildable
    ensures var p, t := s.posQ[0], Next(cfg, s, TakePositive);
            t.out == s.out + ([Confirmed(p)] + DoneIfWanted(cfg, Some(p), Backend)) && !t.a.live
  {
  }

  /** A fresh reorg drops a Done that was kept, and the standing positive with it. */
  lemma ReorgDropsKeptDone(cfg: Config, s: Sys)
    requires OrderInv(s) && s.a.live && s.reorgQ != [] && s.reorgQ[0] > s.a.lastSeq
    ensures var a := Next(cfg, s, TakeReorg).a;
            !a.pendingDone && a.last.None? && a.height == 0 && a.live && a.reg == s.a.reg && a.arming == s.a.arming
  {
  }

  /** A watch with a standing height and a depth finalizes on a tip exactly when the depth test passes. */
  predicate Due(cfg: Config, s: Sys, tip: Int32) {
    s.a.height != 0 && cfg.depth > 0 && DeepEnough(tip, s.a.height, cfg.depth)
  }

  predicate Finalized(cfg: Config, s: Sys, t: Sys, tip: Int32) {
    if Due(cfg, s, tip) then t.out == s.out + DoneIfWanted(cfg, s.a.last, Synthesized(tip, s.a.height)) && !t.a.live
    else t.out == s.out && t.a.live
  }

  /** The tip an armer read decides at once; otherwise its registration is held. */
  lemma ArmedTipDecides(cfg: Config, s: Sys, queue: seq<Option<Int32>>, closed: bool)
    requires s.a.live && |s.armers| > 0 && s.armers[0].Holding?
    ensures var t := Next(cfg, s, TakeArmed(queue, closed));
            && Finalized(cfg, s, t, s.armers[0].tip)
            && (t.a.live ==>
                  && t.a.reg == Some(s.armers[0].reg) && !t.a.arming
                  && t.epochQ == queue && t.epochsClosed == closed)
            && (!t.a.live ==> s.armers[0].reg in t.cancelled)
  {
  }

  /** On an open stream the newest buffered epoch decides. */
  lemma NewestEpochDecides(cfg: Config, s: Sys, tip: Int32)
    requires s.a.live && s.a.reg.Some? && !s.epochsClosed
    requires s.epochQ != [] && s.epochQ[0].Some? && Newest(s.epochQ, tip)
    ensures var t := Next(cfg, s, TakeEpochs);
            Finalized(cfg, s, t, tip) && t.epochQ == [] && (t.a.live ==> t.a.reg == s.a.reg)
  {
    LatestIs(s.epochQ, tip);
  }

  lemma LatestIs(queue: seq<Option<Int32>>, tip: Int32)
    requires queue != [] && queue[0].Some? && Newest(queue, tip)
    ensures Latest(queue[1..], queue[0].value) == tip
  {
    var rest := queue[1..];
    LatestIsNewest(rest, queue[0].value);
    var i :| 0 <= i < |queue| && queue[i] == Some(tip) && forall k :: i < k < |queue| ==> queue[k].None?;
    assert forall k :: 0 <= k < |rest| ==> rest[k] == queue[k + 1];
    if i > 0 {
      assert rest[i - 1] == Some(tip);
    }
  }

  // ---------------------------------------------------------------- when a watch is over

  /** The positive at the head of its channel is newer than all taken so far. */
  predicate FreshHead(s: Sys) { s.posQ != [] && s.posQ[0].seqNo > s.a.lastSeq }

  /** What ends a live watch. */
  predicate Over(cfg: Config, s: Sys, e: Event) {
    match e
    case TakePositive =>
      || (s.posQ == [] && !s.f.live)
      || (FreshHead(s) && (!s.posQ[0].buildable || !ReorgAware(cfg) || cfg.future || s.a.pendingDone))
    case TakeDone => s.a.doneOpen && s.doneQ > 0 && s.a.last.Some?
    case TakeArmed(_, _) => |s.armers| > 0 && s.armers[0].Holding? && Due(cfg, s, s.armers[0].tip)
    case TakeEpochs =>
      && s.a.reg.Some? && !s.epochsClosed && s.epochQ != [] && s.epochQ[0].Some?
      && Due(cfg, s, Latest(s.epochQ[1..], s.epochQ[0].value))
    case TakeCtx => s.ctxDone
    case _ => false
  }

  lemma PositiveEnds(cfg: Config, s: Sys)
    requires OrderInv(s) && s.a.live
    ensures !Next(cfg, s, TakePositive).a.live <==> Over(cfg, s, TakePositive)
  {
    assert s.posQ != [] ==> s.posQ[0] in s.posQ;
  }

  lemma OthersEnd(cfg: Config, s: Sys, e: Event)
    requires OrderInv(s) && s.a.live && !e.TakePositive? && !e.TakeArmed? && !e.TakeEpochs?
    ensures !Next(cfg, s, e).a.live <==> Over(cfg, s, e)
  {
  }

  lemma ArmedEnds(cfg: Config, s: Sys, e: Event)
    requires s.a.live && e.TakeArmed?
    ensures !Next(cfg, s, e).a.live <==> Over(cfg, s, e)
  {
  }

  lemma EpochsEnd(cfg: Config, s: Sys)
    requires s.a.live
    ensures !Next(cfg, s, TakeEpochs).a.live <==> Over(cfg, s, TakeEpochs)
  {
  }

  /**
   * A live watch ends on an event if and only if: its signal channel closed, a fresh positive cannot be
   * built, is all the caller wanted or releases a kept Done, a Done finds the positive standing, a tip
   * is deep enough, or the watch was cancelled.
   */
  lemma EndsExactly(cfg: Config, es: seq<Event>, e: Event)
    requires Run(cfg, INIT, es).a.live
    ensures !Next(cfg, Run(cfg, INIT, es), e).a.live <==> Over(cfg, Run(cfg, INIT, es), e)
  {
    OrderRun(cfg, es);
    var s := Run(cfg, INIT, es);
    if e.TakePositive? { PositiveEnds(cfg, s); }
    else if e.TakeArmed? { ArmedEnds(cfg, s, e); }
    else if e.TakeEpochs? { EpochsEnd(cfg, s); }
    else { OthersEnd(cfg, s, e); }
  }

  /** A fresh positive that does not end the watch arms finality exactly if a depth is set and nothing is armed. */
  lemma FreshPositiveArms(cfg: Config, s: Sys)
    requires OrderInv(s) && s.a.live && FreshHead(s) && !Over(cfg, s, TakePositive)
    ensures var t := Next(cfg, s, TakePositive);
            t.armers == s.armers + if cfg.depth > 0 && s.a.reg.None? && !s.a.arming then [Working] else []
  {
  }

  // ---------------------------------------------------------------- a closed stream is replaced

  /**
   * A stream that closed, or yields nothing, is cancelled and let go; a standing height then has
   * an armer on its way to a new one, and nothing is delivered.
   */
  lemma ClosedStreamIsReplaced(cfg: Config, s: Sys)
    requires FinalityInv(cfg, s) && s.a.live && s.a.reg.Some?
    requires s.epochsClosed || (s.epochQ != [] && s.epochQ[0].None?)
    ensures var t := Next(cfg, s, TakeEpochs);
            && t.a.live && t.out == s.out && t.a.reg.None? && s.a.reg.value in t.cancelled
            && (s.a.height != 0 && cfg.depth > 0 ==> t.armers == s.armers + [Working] && t.a.arming)
  {
  }

  /** An armer that gave up frees its place: a positive taken next launches another, if it is fresh and stays. */
  lemma LostArmerIsReplaced(cfg: Config, s: Sys, queue: seq<Option<Int32>>, closed: bool)
    requires s.a.live && s.a.reg.None? && s.ctxDone && s.armers == [Working] && s.posQ != []
    requires cfg.depth > 0 && ReorgAware(cfg) && !cfg.future && !s.a.pendingDone
    requires s.posQ[0].buildable && s.posQ[0].seqNo > s.a.lastSeq
    ensures var t := Next(cfg, Next(cfg, s, TakeArmed(queue, closed)), TakePositive);
            t.a.live && t.a.arming && t.armers == [Working] && t.out == s.out + [Confirmed(s.posQ[0])]
  {
    var t := Next(cfg, s, TakeArmed(queue, closed));
    assert t.armers == [] && t.a == s.a.(arming := false) && t.posQ == s.posQ && t.out == s.out;
  }

  // ---------------------------------------------------------------- the forwarder

  /** The forwarder's flags say what it sent last, and a Done leaves only behind a positive. */
  predicate ForwarderInv(s: Sys) {
    && s.f.positive == (s.sent != [] && s.sent[|s.sent| - 1].Pos?)
    && (s.f.finishing ==> s.f.positive)
    && (s.doneQ > 0 ==> !s.f.live && s.f.positive)
  }

  lemma ForwarderNext(cfg: Config, s: Sys, e: Event)
    requires ForwarderInv(s)
    ensures ForwarderInv(Next(cfg, s, e))
  {
  }

  /** In every history a Done in the channel is the forwarder's last word, and the signal before it is a positive. */
  lemma {:induction false} DoneFollowsPositive(cfg: Config, es: seq<Event>)
    ensures ForwarderInv(Run(cfg, INIT, es))
    decreases |es|
  {
    if es != [] {
      DoneFollowsPositive(cfg, es[..|es| - 1]);
      ForwarderNext(cfg, Run(cfg, INIT, es[..|es| - 1]), es[|es| - 1]);
    }
  }

  /** A Done the backend reports after a positive leaves; one before it leaves behind the next positive. */
  lemma DoneIsForwarded(cfg: Config, s: Sys, h: Uint32, ok: bool, detail: nat)
    requires ForwarderInv(s) && s.f.live && !s.f.finishing
    ensures s.sent != [] && s.sent[|s.sent| - 1].Pos? ==>
              Next(cfg, Next(cfg, s, FwdDone), FwdFinish).doneQ == s.doneQ + 1
    ensures !(s.sent != [] && s.sent[|s.sent| - 1].Pos?) ==>
              var t := Next(cfg, s, FwdDone);
              t.doneQ == s.doneQ && Next(cfg, Next(cfg, t, FwdPositive(h, ok, detail)), FwdFinish).doneQ == s.doneQ + 1
  {
  }

  /** A reorg drops a Done the forwarder keeps: the next positive does not bring it back. */
  lemma ReorgDropsDeferredDone(cfg: Config, s: Sys, h: Uint32, ok: bool, detail: nat)
    requires ForwarderInv(s) && s.f.live && !s.f.finishing
    ensures var t := Next(cfg, Next(cfg, s, FwdReorg), FwdPositive(h, ok, detail));
            t.f.live && !t.f.finishing && Next(cfg, t, FwdFinish).doneQ == s.doneQ
  {
  }
}
