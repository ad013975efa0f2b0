/**
 * What each section of the hub does to every registration and to its generation, counted in
 * queued and received epochs, and the only ways a registration is closed.
 */
module BlockEpochHubSteps {

  import opened Basics
  import opened BlockEpochHub
  import opened BlockEpochHubRuns

  /** Epochs queued and not yet received. */
  function Unread(s: Sub): int { |s.queued| - s.taken }

  // ---------------------------------------------------------------- publish

  /**
   * A published epoch is queued for each registration of the generation with fewer unread epochs
   * than the queue holds, and closes and drops one whose queue is full, leaving what it has queued.
   */
  lemma PublishReaches(h: Hub, gen: nat, e: Epoch, i: nat)
    requires Inv(h) && AtTop(h, gen) && i in h.gens[gen].subs
    ensures i in h.subs && Unread(h.subs[i]) <= h.queueSize
    ensures var t, s := Next(h, DoPublish(gen, e)), h.subs[i];
            && i in t.subs
            && (Unread(s) < h.queueSize ==> t.subs[i] == s.(queued := s.queued + [e]) && i in t.gens[gen].subs)
            && (Unread(s) == h.queueSize ==>
                  && !t.subs[i].open && t.subs[i].closes == 1 && t.subs[i].queued == s.queued
                  && i !in t.gens[gen].subs)
  {
    assert Window(h.gens[gen].published, h.queueSize, h.subs[i]);
  }

  /** Registrations of other generations, and closed ones, are left alone. */
  lemma PublishSpares(h: Hub, gen: nat, e: Epoch, i: nat)
    requires Inv(h) && AtTop(h, gen) && i in h.subs && i !in h.gens[gen].subs
    ensures var t := Next(h, DoPublish(gen, e));
            i in t.subs && t.subs[i] == h.subs[i] && t.subs.Keys == h.subs.Keys
  {
  }

  /** A publish that finds every queue full cancels its generation; one registration with room keeps it. */
  lemma PublishCancels(h: Hub, gen: nat, e: Epoch)
    requires Inv(h) && AtTop(h, gen)
    ensures var t := Next(h, DoPublish(gen, e));
            t.gens[gen].cancelled <==>
              h.gens[gen].cancelled || forall i :: i in h.gens[gen].subs ==> Unread(h.subs[i]) >= h.queueSize
  {
    var t := Next(h, DoPublish(gen, e));
    forall i | i in h.gens[gen].subs ensures i in t.gens[gen].subs <==> Unread(h.subs[i]) < h.queueSize {
      PublishReaches(h, gen, e, i);
    }
    assert t.gens[gen].subs <= h.gens[gen].subs;
    if t.gens[gen].subs != {} {
      var i :| i in t.gens[gen].subs;
      assert i in h.gens[gen].subs;
    }
  }

  // ---------------------------------------------------------------- what closes a registration

  /** The three ways: its own cancel, the end of its generation, or a publish to its full queue. */
  predicate ClosedBy(h: Hub, e: Event, i: nat)
    requires i in h.subs
  {
    || e == DoCancel(i)
    || e == DoEnd(h.subs[i].gen)
    || (e.DoPublish? && e.gen == h.subs[i].gen && Unread(h.subs[i]) == h.queueSize)
  }

  lemma PublishCloses(h: Hub, gen: nat, e: Epoch, i: nat)
    requires Inv(h) && i in h.subs && h.subs[i].open && i in Publish(h, gen, e).subs && !Publish(h, gen, e).subs[i].open
    ensures ClosedBy(h, DoPublish(gen, e), i)
  {
    if i in h.gens[gen].subs {
      PublishReaches(h, gen, e, i);
    }
  }

  lemma JoiningCloses(h: Hub, e: Event, i: nat)
    requires Inv(h) && i in h.subs && h.subs[i].open && (e.DoRegister? || e.DoResolve?)
    ensures i in Next(h, e).subs && Next(h, e).subs[i].open
  {
  }

  lemma LeavingCloses(h: Hub, e: Event, i: nat)
    requires Inv(h) && i in h.subs && h.subs[i].open && (e.DoCancel? || e.DoEnd?)
    ensures i in Next(h, e).subs && (Next(h, e).subs[i].open || ClosedBy(h, e, i))
  {
  }

  lemma OthersClose(h: Hub, e: Event, i: nat)
    requires Inv(h) && i in h.subs && h.subs[i].open && !e.DoPublish?
    ensures i in Next(h, e).subs && (Next(h, e).subs[i].open || ClosedBy(h, e, i))
  {
    if e.DoRegister? || e.DoResolve? {
      JoiningCloses(h, e, i);
    } else if e.DoCancel? || e.DoEnd? {
      LeavingCloses(h, e, i);
    }
  }

  /** In every interleaving a registration that is closed was closed in one of the three ways. */
  lemma ClosedOnlyBy(cap: nat, es: seq<Event>, e: Event, i: nat)
    requires cap > 0 && i in Run(Init(cap), es).subs && Run(Init(cap), es).subs[i].open
    ensures var h := Run(Init(cap), es);
            i in Next(h, e).subs && (Next(h, e).subs[i].open || ClosedBy(h, e, i))
  {
    InitInv(cap);
    InvRun(Init(cap), es);
    var h := Run(Init(cap), es);
    LaterNext(h, e);
    if !e.DoPublish? {
      OthersClose(h, e, i);
    } else if !Next(h, e).subs[i].open {
      PublishCloses(h, e.gen, e.epoch, i);
    }
  }

  // ---------------------------------------------------------------- cancel, end, receive

  /** A cancel closes its registration and no other, and cancels the generation exactly if none is left. */
  lemma CancelDecides(h: Hub, i: nat)
    requires Inv(h) && i in h.subs
    ensures var t, gen := Next(h, DoCancel(i)), h.subs[i].gen;
            && gen in h.gens && t.gens.Keys == h.gens.Keys && t.subs.Keys == h.subs.Keys
            && t.subs[i] == (if h.subs[i].open then h.subs[i].(open := false, closes := 1) else h.subs[i])
            && t.gens[gen].subs == h.gens[gen].subs - {i}
            && (t.gens[gen].cancelled <==> h.gens[gen].cancelled || h.gens[gen].subs <= {i})
            && (forall j :: j in h.subs && j != i ==> t.subs[j] == h.subs[j])
            && t.up == h.up && t.readers == h.readers
  {
  }

  /** The end of a generation closes what is left of it, with what it has queued, and lets a new one open. */
  lemma EndDecides(h: Hub, gen: nat)
    requires Inv(h) && AtTop(h, gen)
    ensures var t := Next(h, DoEnd(gen));
            && t.up.None? && t.readers == {} && t.gens[gen].ended && t.gens[gen].cancelled && t.subs.Keys == h.subs.Keys
            && (forall i :: i in h.subs ==>
                  t.subs[i] == if h.subs[i].open then h.subs[i].(open := false, closes := 1) else h.subs[i])
  {
  }

  /** A receive takes exactly the oldest unread epoch and touches nothing else. */
  lemma DrainTakes(h: Hub, i: nat)
    requires i in h.subs
    ensures Next(h, DoDrain(i)) == if Unread(h.subs[i]) > 0
                                   then h.(subs := h.subs[i := h.subs[i].(taken := h.subs[i].taken + 1)]) else h
  {
  }

  /** After the locked half of stop no step admits a registration or installs an upstream. */
  lemma StopAdmitsNone(h: Hub, e: Event)
    ensures var t := Next(Next(h, MarkStopped), e);
            t.subs.Keys == h.subs.Keys && t.gens.Keys == h.gens.Keys && (t.up == h.up || t.up.None?)
  {
  }

  /** The other half sets every generation on its way out; only stop takes it. */
  lemma StopCancelsAll(h: Hub, gen: nat)
    requires gen in h.gens
    ensures var t := Next(Next(h, MarkStopped), CancelRoot);
            Exiting(t, gen) && t.gens == h.gens && t.subs == h.subs
    ensures !h.stopped ==> Next(h, CancelRoot) == h
  {
  }

  // ---------------------------------------------------------------- register and open

  /** A registration joins exactly an upstream that is not on its way out, and never a stopped hub. */
  lemma RegisterJoins(h: Hub, i: nat, attempt: nat)
    requires Inv(h) && i !in h.subs
    ensures var t := Next(h, DoRegister(i, attempt));
            && (i in t.subs <==> !h.stopped && !h.root && h.up.Some? && !h.gens[h.up.value].cancelled)
            && t.up == h.up && t.readers == h.readers
  {
  }

  /** It opens one exactly if there is none and none is being opened; otherwise it waits and changes nothing. */
  lemma RegisterOpens(h: Hub, i: nat, attempt: nat)
    requires Inv(h) && i !in h.subs
    ensures var t := Next(h, DoRegister(i, attempt));
            && (t.opening != h.opening ==> !h.stopped && h.up.None? && h.opening.None?)
            && (!h.stopped && h.up.None? && h.opening.None? ==> t == h.(opening := Some(attempt), opens := {attempt}))
            && (h.stopped || h.opening.Some? || (h.up.Some? && h.gens[h.up.value].cancelled) ==> t == h)
  {
    assert h.opens == {} ==> h.opens + {attempt} == {attempt};
  }

  /** An open that succeeds before a stop installs a fresh generation with the caller in it; any other leaves none. */
  lemma ResolveDecides(h: Hub, attempt: nat, ok: bool, gen: nat, i: nat)
    requires Inv(h) && attempt in h.opens && gen !in h.gens && i !in h.subs
    ensures var t := Next(h, DoResolve(attempt, ok, gen, i));
            && t.opening.None? && t.opens == {}
            && (if ok && !h.stopped
                then && t.up == Some(gen) && t.readers == {gen} && i in t.subs
                     && t.subs[i] == Sub(gen, 0, [], 0, true, 0) && t.gens[gen].subs == {i} && !t.gens[gen].cancelled
                else t.up.None? && t.readers == {} && t.subs == h.subs && t.gens == h.gens)
  {
  }
}
