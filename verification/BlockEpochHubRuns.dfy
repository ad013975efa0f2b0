/**
 * What holds of the shared block-epoch hub in every interleaving: one upstream
 * at a time, channels closed once and never sent to again, queues that are
 * windows of the published history, and a stop that is final.
 */
module BlockEpochHubRuns {

  import opened Basics
  import opened BlockEpochHub

  // ---------------------------------------------------------------- windows

  function Last(es: seq<Epoch>): Option<Epoch> {
    if es == [] then None else Some(es[|es| - 1])
  }

  /** Where in the published history a registration starts: at the tip it joined on. */
  function Start(s: Sub): nat {
    if s.joinedAt == 0 then 0 else s.joinedAt - 1
  }

  predicate Stretch(published: seq<Epoch>, from: nat, queued: seq<Epoch>) {
    from + |queued| <= |published| && queued == published[from..from + |queued|]
  }

  /** Everything queued is the stretch of the history from the joining tip on; all of it while open. */
  predicate Window(published: seq<Epoch>, cap: nat, s: Sub) {
    && s.joinedAt <= |published|
    && Stretch(published, Start(s), s.queued)
    && (s.joinedAt > 0 ==> |s.queued| > 0)
    && s.taken <= |s.queued| <= s.taken + cap
    && (s.open ==> Start(s) + |s.queued| == |published|)
  }

  predicate Windows(cap: nat, gens: map<nat, Gen>, subs: map<nat, Sub>) {
    forall i :: i in subs ==> subs[i].gen in gens && Window(gens[subs[i].gen].published, cap, subs[i])
  }

  /** The tip is the newest epoch; so is the cursor, except between a publish and the reader's next step. */
  predicate Followed(g: Gen) {
    && g.tip == Last(g.published)
    && if g.pending.None? then g.cursor == g.tip
       else |g.published| > 0 && g.pending == g.tip && g.cursor == Last(g.published[..|g.published| - 1])
  }

  predicate TipsAreLast(gens: map<nat, Gen>) { forall g :: g in gens ==> Followed(gens[g]) }

  predicate ResumeOk(gens: map<nat, Gen>, r: Resume) {
    && r.gen in gens
    && r.after <= |gens[r.gen].published|
    && r.cursor == Last(gens[r.gen].published[..r.after])
  }

  predicate Resumed(gens: map<nat, Gen>, resumes: seq<Resume>) {
    forall k :: 0 <= k < |resumes| ==> ResumeOk(gens, resumes[k])
  }

  predicate History(h: Hub) {
    Windows(h.queueSize, h.gens, h.subs) && TipsAreLast(h.gens) && Resumed(h.gens, h.resumes)
  }

  predicate Inv(h: Hub) { h.queueSize > 0 && Structure(h) && History(h) }

  lemma SeedIsWindow(published: seq<Epoch>, cap: nat, s: Sub)
    requires cap > 0 && s.joinedAt == |published| && s.taken == 0
    requires s.queued == if published == [] then [] else [published[|published| - 1]]
    ensures Window(published, cap, s)
  {
  }

  lemma HistoryAdd(h: Hub, gen: nat, sub: nat)
    requires h.queueSize > 0 && History(h) && gen in h.gens && sub !in h.subs
    ensures History(AddSub(h, gen, sub))
  {
    var t := AddSub(h, gen, sub);
    SeedIsWindow(h.gens[gen].published, h.queueSize, t.subs[sub]);
    GenUpdated(h, gen, t.gens[gen]);
    WindowsAdd(h.queueSize, t.gens, h.subs, sub, t.subs[sub]);
  }

  /** Replacing a generation by one that has published the same and is followed keeps the history. */
  lemma GenUpdated(h: Hub, gen: nat, g: Gen)
    requires History(h) && gen in h.gens && g.published == h.gens[gen].published && Followed(g)
    ensures Windows(h.queueSize, h.gens[gen := g], h.subs)
    ensures TipsAreLast(h.gens[gen := g]) && Resumed(h.gens[gen := g], h.resumes)
  {
    var gens := h.gens[gen := g];
    ResumesSurvive(h.gens, gens, h.resumes);
    forall i | i in h.subs
      ensures h.subs[i].gen in gens && Window(gens[h.subs[i].gen].published, h.queueSize, h.subs[i])
    {
      assert gens[h.subs[i].gen].published == h.gens[h.subs[i].gen].published;
    }
  }

  lemma WindowsAdd(cap: nat, gens: map<nat, Gen>, subs: map<nat, Sub>, i: nat, s: Sub)
    requires Windows(cap, gens, subs) && s.gen in gens && Window(gens[s.gen].published, cap, s)
    ensures Windows(cap, gens, subs[i := s])
  {
  }

  lemma HistoryRegister(h: Hub, sub: nat, attempt: nat)
    requires Inv(h)
    ensures History(Register(h, sub, attempt))
  {
    if h.up.Some? && sub !in h.subs {
      HistoryAdd(h, h.up.value, sub);
    }
  }

  lemma HistoryResolve(h: Hub, attempt: nat, ok: bool, gen: nat, sub: nat)
    requires Inv(h)
    ensures History(ResolveOpen(h, attempt, ok, gen, sub))
  {
    if attempt in h.opens && gen !in h.gens && sub !in h.subs && !h.stopped && ok {
      var h1 := h.(opening := None, opens := h.opens - {attempt});
      var h2 := h1.(up := Some(gen), readers := h1.readers + {gen},
                    gens := h1.gens[gen := Gen(false, false, {}, None, None, None, [])]);
      assert forall k :: 0 <= k < |h2.resumes| ==> ResumeOk(h.gens, h2.resumes[k]);
      assert History(h2);
      HistoryAdd(h2, gen, sub);
    }
  }

  predicate SameHistory(g: Gen, t: Gen) {
    t.published == g.published && t.tip == g.tip && t.cursor == g.cursor && t.pending == g.pending
  }

  predicate GensKept(h: map<nat, Gen>, t: map<nat, Gen>) {
    t.Keys == h.Keys && forall g :: g in h ==> SameHistory(h[g], t[g])
  }

  predicate SubsKept(h: map<nat, Sub>, t: map<nat, Sub>) {
    forall i :: i in t ==> i in h && (t[i] == h[i] || t[i] == Close(h[i]))
  }

  /** A step that only closes registrations and keeps each generation's history keeps windows, tips and resumes. */
  lemma HistoryKept(h: Hub, t: Hub)
    requires History(h) && t.queueSize == h.queueSize && t.resumes == h.resumes
    requires GensKept(h.gens, t.gens) && SubsKept(h.subs, t.subs)
    ensures History(t)
  {
    ResumesSurvive(h.gens, t.gens, h.resumes);
    forall i | i in t.subs
      ensures t.subs[i].gen in t.gens && Window(t.gens[t.subs[i].gen].published, t.queueSize, t.subs[i])
    {
      assert SameHistory(h.gens[h.subs[i].gen], t.gens[h.subs[i].gen]);
    }
  }

  lemma GenUpdateKept(gens: map<nat, Gen>, gen: nat, g: Gen)
    requires gen in gens && SameHistory(gens[gen], g)
    ensures GensKept(gens, gens[gen := g])
  {
  }

  lemma ResumesSurvive(gens: map<nat, Gen>, after: map<nat, Gen>, resumes: seq<Resume>)
    requires Resumed(gens, resumes)
    requires forall g :: g in gens ==> g in after && gens[g].published <= after[g].published
    ensures Resumed(after, resumes)
  {
    forall k | 0 <= k < |resumes|
      ensures ResumeOk(after, resumes[k])
    {
      var r := resumes[k];
      assert ResumeOk(gens, r);
      assert gens[r.gen].published[..r.after] == after[r.gen].published[..r.after];
    }
  }

  lemma OfferKeepsWindow(published: seq<Epoch>, cap: nat, s: Sub, e: Epoch)
    requires Window(published, cap, s) && s.open
    ensures Window(published + [e], cap, Offer(cap, s, e))
  {
    var after := published + [e];
    if HasRoom(cap, s) {
      assert Send(s, e).queued == after[Start(s)..Start(s) + |s.queued| + 1];
    } else {
      assert s.queued == after[Start(s)..Start(s) + |s.queued|];
    }
  }

  lemma ClosedKeepsWindow(published: seq<Epoch>, cap: nat, s: Sub, e: Epoch)
    requires Window(published, cap, s) && !s.open
    ensures Window(published + [e], cap, s)
  {
    assert s.queued == (published + [e])[Start(s)..Start(s) + |s.queued|];
  }

  lemma PublishWindows(h: Hub, gen: nat, e: Epoch)
    requires Inv(h) && AtTop(h, gen)
    ensures Windows(h.queueSize, Publish(h, gen, e).gens, Publish(h, gen, e).subs)
  {
    var t := Publish(h, gen, e);
    forall i | i in t.subs
      ensures t.subs[i].gen in t.gens && Window(t.gens[t.subs[i].gen].published, h.queueSize, t.subs[i])
    {
      var s := h.subs[i];
      if s.gen == gen {
        if s.open {
          OfferKeepsWindow(h.gens[gen].published, h.queueSize, s, e);
        } else {
          ClosedKeepsWindow(h.gens[gen].published, h.queueSize, s, e);
        }
      }
    }
  }

  lemma PublishFollows(g: Gen, t: Gen, e: Epoch)
    requires Followed(g) && g.pending.None?
    requires t.published == g.published + [e] && t.tip == Some(e) && t.pending == Some(e) && t.cursor == g.cursor
    ensures Followed(t)
  {
    assert t.published[..|t.published| - 1] == g.published;
  }

  lemma HistoryAdvance(h: Hub, gen: nat)
    requires History(h)
    ensures History(Advance(h, gen))
  {
    if gen in h.gens && gen in h.readers && h.gens[gen].pending.Some? {
      GenUpdated(h, gen, Advance(h, gen).gens[gen]);
    }
  }

  lemma HistoryPublish(h: Hub, gen: nat, e: Epoch)
    requires Inv(h)
    ensures History(Publish(h, gen, e))
  {
    if AtTop(h, gen) {
      PublishWindows(h, gen, e);
      ResumesSurvive(h.gens, Publish(h, gen, e).gens, h.resumes);
      PublishFollows(h.gens[gen], Publish(h, gen, e).gens[gen], e);
    }
  }

  lemma HistoryReconnect(h: Hub, gen: nat)
    requires History(h)
    ensures History(Reconnect(h, gen))
  {
    if AtTop(h, gen) {
      var p := h.gens[gen].published;
      assert p[..|p|] == p;
    }
  }

  lemma HistoryCancel(h: Hub, sub: nat)
    requires History(h)
    ensures History(Remove(h, sub))
  {
    var t := Remove(h, sub);
    if sub in h.subs && h.subs[sub].gen in h.gens {
      GenUpdateKept(h.gens, h.subs[sub].gen, t.gens[h.subs[sub].gen]);
    }
    HistoryKept(h, t);
  }

  lemma HistoryEnd(h: Hub, gen: nat)
    requires History(h)
    ensures History(End(h, gen))
  {
    var t := End(h, gen);
    if gen in h.gens {
      GenUpdateKept(h.gens, gen, t.gens[gen]);
    }
    HistoryKept(h, t);
  }

  lemma HistoryDrain(h: Hub, sub: nat)
    requires History(h)
    ensures History(Drain(h, sub))
  {
    if sub in h.subs {
      var s := h.subs[sub];
      if s.taken < |s.queued| {
        TakeKeepsWindow(h.gens[s.gen].published, h.queueSize, s);
        WindowsAdd(h.queueSize, h.gens, h.subs, sub, s.(taken := s.taken + 1));
      }
    }
  }

  lemma TakeKeepsWindow(published: seq<Epoch>, cap: nat, s: Sub)
    requires Window(published, cap, s) && s.taken < |s.queued|
    ensures Window(published, cap, s.(taken := s.taken + 1))
  {
  }

  lemma HistoryNext(h: Hub, e: Event)
    requires Inv(h)
    ensures History(Next(h, e))
  {
    match e
    case DoRegister(sub, attempt) => HistoryRegister(h, sub, attempt);
    case DoResolve(attempt, ok, gen, sub) => HistoryResolve(h, attempt, ok, gen, sub);
    case DoCancel(sub) => HistoryCancel(h, sub);
    case DoPublish(gen, epoch) => HistoryPublish(h, gen, epoch);
    case DoAdvance(gen) => HistoryAdvance(h, gen);
    case DoReconnect(gen) => HistoryReconnect(h, gen);
    case DoEnd(gen) => HistoryEnd(h, gen);
    case DoDrain(sub) => HistoryDrain(h, sub);
    case MarkStopped =>
    case CancelRoot =>
  }

  lemma InvNext(h: Hub, e: Event)
    requires Inv(h)
    ensures Inv(Next(h, e)) && Next(h, e).queueSize == h.queueSize
  {
    StructureNext(h, e);
    HistoryNext(h, e);
  }

  lemma {:induction false} InvRun(h: Hub, es: seq<Event>)
    requires Inv(h)
    ensures Inv(Run(h, es)) && Run(h, es).queueSize == h.queueSize
  {
    if es != [] {
      InvRun(h, es[..|es| - 1]);
      InvNext(Run(h, es[..|es| - 1]), es[|es| - 1]);
    }
  }

  // ---------------------------------------------------------------- what only grows

  /** A registration keeps its place; its history only grows, and not at all once closed. */
  predicate SubLater(s: Sub, t: Sub) {
    && t.gen == s.gen && t.joinedAt == s.joinedAt
    && s.queued <= t.queued && s.taken <= t.taken
    && (!s.open ==> !t.open && t.queued == s.queued && t.closes == s.closes)
  }

  predicate GensLater(h: map<nat, Gen>, t: map<nat, Gen>) {
    forall g :: g in h ==> g in t && h[g].published <= t[g].published
  }

  predicate SubsLater(h: map<nat, Sub>, t: map<nat, Sub>) {
    forall i :: i in h ==> i in t && SubLater(h[i], t[i])
  }

  predicate Later(h: Hub, t: Hub) {
    GensLater(h.gens, t.gens) && SubsLater(h.subs, t.subs)
  }

  lemma LaterPublish(h: Hub, gen: nat, e: Epoch)
    requires Structure(h)
    ensures Later(h, Publish(h, gen, e))
  {
  }

  lemma LaterAdvance(h: Hub, gen: nat)
    requires Structure(h)
    ensures Later(h, Advance(h, gen))
  {
  }

  lemma LaterEnd(h: Hub, gen: nat)
    requires Structure(h)
    ensures Later(h, End(h, gen))
  {
  }

  lemma LaterCancel(h: Hub, sub: nat)
    requires Structure(h)
    ensures Later(h, Remove(h, sub))
  {
  }

  lemma LaterRegister(h: Hub, sub: nat, attempt: nat)
    requires Structure(h)
    ensures Later(h, Register(h, sub, attempt))
  {
  }

  lemma LaterResolve(h: Hub, attempt: nat, ok: bool, gen: nat, sub: nat)
    requires Structure(h)
    ensures Later(h, ResolveOpen(h, attempt, ok, gen, sub))
  {
  }

  lemma LaterDrain(h: Hub, sub: nat)
    requires Structure(h)
    ensures Later(h, Drain(h, sub))
  {
  }

  lemma LaterNext(h: Hub, e: Event)
    requires Structure(h)
    ensures Later(h, Next(h, e))
  {
    match e
    case DoRegister(sub, attempt) => LaterRegister(h, sub, attempt);
    case DoResolve(attempt, ok, gen, sub) => LaterResolve(h, attempt, ok, gen, sub);
    case DoCancel(sub) => LaterCancel(h, sub);
    case DoPublish(gen, epoch) => LaterPublish(h, gen, epoch);
    case DoAdvance(gen) => LaterAdvance(h, gen);
    case DoReconnect(gen) =>
    case DoEnd(gen) => LaterEnd(h, gen);
    case DoDrain(sub) => LaterDrain(h, sub);
    case MarkStopped =>
    case CancelRoot =>
  }

  lemma LaterTrans(h: Hub, m: Hub, t: Hub)
    requires Later(h, m) && Later(m, t)
    ensures Later(h, t)
  {
    forall i | i in h.subs
      ensures i in t.subs && SubLater(h.subs[i], t.subs[i])
    {
      assert SubLater(h.subs[i], m.subs[i]) && SubLater(m.subs[i], t.subs[i]);
    }
  }

  lemma {:induction false} LaterRun(h: Hub, es: seq<Event>)
    requires Inv(h)
    ensures Later(h, Run(h, es))
  {
    if es != [] {
      var m := Run(h, es[..|es| - 1]);
      LaterRun(h, es[..|es| - 1]);
      InvRun(h, es[..|es| - 1]);
      LaterNext(m, es[|es| - 1]);
      LaterTrans(h, m, Next(m, es[|es| - 1]));
    }
  }

  // ---------------------------------------------------------------- main results

  lemma InitInv(cap: nat)
    requires cap > 0
    ensures Inv(Init(cap))
  {
  }

  /**
   * In every interleaving at most one upstream exists, opening or installed;
   * no channel is closed twice or sent to after its close.
   */
  lemma OneSharedUpstream(cap: nat, es: seq<Event>)
    requires cap > 0
    ensures var h := Run(Init(cap), es);
            && |h.readers| + |h.opens| <= 1
            && |h.readers| == (if h.up.Some? then 1 else 0)
            && |h.opens| == (if h.opening.Some? then 1 else 0)
            && !h.panicked
            && forall i :: i in h.subs ==> h.subs[i].closes == if h.subs[i].open then 0 else 1
  {
    InitInv(cap);
    InvRun(Init(cap), es);
  }

  /** Whatever happens after a close, the channel stays closed, closed once, and receives nothing more. */
  lemma ClosedIsFinal(cap: nat, es: seq<Event>, more: seq<Event>, i: nat)
    requires cap > 0
    requires i in Run(Init(cap), es).subs && !Run(Init(cap), es).subs[i].open
    ensures var h, t := Run(Init(cap), es), Run(Run(Init(cap), es), more);
            i in t.subs && !t.subs[i].open && t.subs[i].closes == 1 && t.subs[i].queued == h.subs[i].queued
  {
    InitInv(cap);
    InvRun(Init(cap), es);
    LaterRun(Run(Init(cap), es), more);
    assert SubLater(Run(Init(cap), es).subs[i], Run(Run(Init(cap), es), more).subs[i]);
  }

  /** The step that admits a registration gives it the tip its generation has cached, and nothing else. */
  lemma JoinsAtTip(h: Hub, e: Event, i: nat)
    requires Inv(h) && i !in h.subs && i in Next(h, e).subs
    ensures !h.stopped
    ensures var s, g := Next(h, e).subs[i], Next(h, e).gens;
            && s.open && s.gen in g && Next(h, e).up == Some(s.gen) && s.joinedAt == |g[s.gen].published|
            && s.queued == if g[s.gen].tip.Some? then [g[s.gen].tip.value] else []
  {
  }

  /**
   * Everything queued to s, which joined its generation when that stood at
   * before, is one contiguous stretch of what it has published now, starting at
   * the tip cached at the join. While s is open the stretch reaches the newest
   * epoch, and what waits in the channel fits it.
   */
  predicate WindowSince(before: Gen, now: Gen, s: Sub, cap: nat) {
    var from := if before.published == [] then 0 else |before.published| - 1;
    && before.published <= now.published
    && from + |s.queued| <= |now.published|
    && s.queued == now.published[from..from + |s.queued|]
    && (s.open ==> s.queued == now.published[from..])
    && (before.tip.Some? ==> |s.queued| > 0 && s.queued[0] == before.tip.value)
    && s.taken <= |s.queued| <= s.taken + cap
  }

  /** For any steps before a registration joins and any after, its queue is a window since the join. */
  lemma QueueIsWindow(cap: nat, es: seq<Event>, e: Event, more: seq<Event>, i: nat)
    requires cap > 0
    requires i !in Run(Init(cap), es).subs && i in Next(Run(Init(cap), es), e).subs
    ensures var joined, t := Next(Run(Init(cap), es), e), Run(Next(Run(Init(cap), es), e), more);
            && joined.subs[i].gen in joined.gens && i in t.subs
            && joined.subs[i].gen in t.gens && t.subs[i].gen == joined.subs[i].gen
            && WindowSince(joined.gens[joined.subs[i].gen], t.gens[joined.subs[i].gen], t.subs[i], cap)
  {
    InitInv(cap);
    InvRun(Init(cap), es);
    var h := Run(Init(cap), es);
    JoinsAtTip(h, e, i);
    InvNext(h, e);
    var joined := Next(h, e);
    InvRun(joined, more);
    LaterRun(joined, more);
    WindowLater(joined, Run(joined, more), i);
  }

  lemma WindowLater(joined: Hub, t: Hub, i: nat)
    requires History(joined) && History(t) && Later(joined, t) && i in joined.subs
    requires joined.subs[i].gen in joined.gens && joined.subs[i].joinedAt == |joined.gens[joined.subs[i].gen].published|
    ensures i in t.subs && joined.subs[i].gen in t.gens && t.subs[i].gen == joined.subs[i].gen
    ensures WindowSince(joined.gens[joined.subs[i].gen], t.gens[joined.subs[i].gen], t.subs[i], t.queueSize)
  {
    var g := joined.subs[i].gen;
    assert SubLater(joined.subs[i], t.subs[i]);
    assert joined.gens[g].tip == Last(joined.gens[g].published);
    WindowFromJoin(joined.gens[g], t.gens[g], t.subs[i], t.queueSize);
  }

  lemma WindowFromJoin(before: Gen, now: Gen, s: Sub, cap: nat)
    requires Window(now.published, cap, s) && before.published <= now.published
    requires s.joinedAt == |before.published| && before.tip == Last(before.published)
    ensures WindowSince(before, now, s, cap)
  {
  }

  /**
   * A reconnect that happens, in any interleaving, asks for the stream from the newest epoch its
   * generation has published by then; so did every one before it.
   */
  lemma ReconnectResumesFromLast(cap: nat, es: seq<Event>, gen: nat)
    requires cap > 0
    ensures var h := Run(Init(cap), es);
            && Resumed(h.gens, h.resumes)
            && (Next(h, DoReconnect(gen)) != h ==>
                  && gen in h.gens
                  && Next(h, DoReconnect(gen)).resumes
                  == h.resumes + [Resume(gen, Last(h.gens[gen].published), |h.gens[gen].published|)])
  {
    InitInv(cap);
    InvRun(Init(cap), es);
  }

  predicate StopReturned(h: Hub) {
    h.stopped && h.root && h.readers == {} && h.opens == {}
  }

  lemma StoppedNext(h: Hub, e: Event)
    requires Structure(h) && StopReturned(h)
    ensures StopReturned(Next(h, e)) && Next(h, e).subs.Keys == h.subs.Keys
  {
  }

  lemma {:induction false} StoppedRun(h: Hub, es: seq<Event>)
    requires Inv(h) && StopReturned(h)
    ensures StopReturned(Run(h, es)) && Run(h, es).subs.Keys == h.subs.Keys
  {
    if es != [] {
      StoppedRun(h, es[..|es| - 1]);
      InvRun(h, es[..|es| - 1]);
      StoppedNext(Run(h, es[..|es| - 1]), es[|es| - 1]);
    }
  }

  /** Once stop has returned no registration is open, and no later step admits one. */
  lemma StopIsFinal(cap: nat, es: seq<Event>, more: seq<Event>)
    requires cap > 0 && StopReturned(Run(Init(cap), es))
    ensures var t := Run(Run(Init(cap), es), more);
            && t.subs.Keys == Run(Init(cap), es).subs.Keys
            && t.up.None? && t.opening.None?
            && forall i :: i in t.subs ==> !t.subs[i].open && t.subs[i].closes == 1
  {
    InitInv(cap);
    var h := Run(Init(cap), es);
    InvRun(Init(cap), es);
    InvRun(h, more);
    StoppedRun(h, more);
    NoneOpen(Run(h, more));
  }

  lemma NoneOpen(h: Hub)
    requires Structure(h) && h.readers == {}
    ensures h.up.None?
    ensures forall i :: i in h.subs ==> !h.subs[i].open
  {
    assert |h.readers| == if h.up.Some? then 1 else 0;
  }
}
