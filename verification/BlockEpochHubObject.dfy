/**
 * The hub as the source has it: one object whose mutex-held sections update its
 * fields in place. Each section is proved to take exactly its step of the
 * machine, so what holds in every run of the machine holds of the object.
 */
module BlockEpochHubObject {

  import opened Basics
  import opened BlockEpochHub

  /** What one pass of register's loop tells its caller. */
  datatype Outcome = Refused | WaitForReader(gen: nat) | Joined | WaitForOpen(attempt: nat) | MustOpen

  predicate Visited(ids: set<nat>, done: set<nat>, rest: set<nat>) { done !! rest && done + rest == ids }

  /** One more visit: the registration is still open and untouched, and is offered the epoch. */
  lemma OfferOneMore(cap: nat, subs: map<nat, Sub>, ids: set<nat>, done: set<nat>, rest: set<nat>, i: nat, e: Epoch)
    requires AllOpen(subs, ids) && Visited(ids, done, rest) && i in rest
    ensures Visited(ids, done + {i}, rest - {i})
    ensures i in subs && subs[i].open && OfferAll(cap, subs, done, e)[i] == subs[i]
    ensures OfferAll(cap, subs, done, e)[i := Offer(cap, subs[i], e)] == OfferAll(cap, subs, done + {i}, e)
    ensures var left := rest + Fitting(cap, subs, done);
            rest - {i} + Fitting(cap, subs, done + {i}) == if HasRoom(cap, subs[i]) then left else left - {i}
  {
  }

  /**
   * The fan-out loop: each open registration gets the epoch or, its queue full,
   * is closed and dropped, in whatever order the map yields them.
   */
  method OfferEach(cap: nat, subs: map<nat, Sub>, ids: set<nat>, e: Epoch)
    returns (after: map<nat, Sub>, left: set<nat>)
    requires AllOpen(subs, ids)
    ensures after == OfferAll(cap, subs, ids, e)
    ensures left == Fitting(cap, subs, ids)
  {
    var rest := ids;
    ghost var done: set<nat> := {};
    after, left := subs, ids;
    assert OfferAll(cap, subs, done, e) == subs && rest + Fitting(cap, subs, done) == ids;
    while rest != {}
      invariant Visited(ids, done, rest)
      invariant left == rest + Fitting(cap, subs, done)
      invariant after == OfferAll(cap, subs, done, e)
      decreases rest
    {
      var i :| i in rest;
      OfferOneMore(cap, subs, ids, done, rest, i, e);
      rest, done := rest - {i}, done + {i};
      if HasRoom(cap, after[i]) {
        after := after[i := Send(after[i], e)];
      } else {
        left := left - {i};
        after := after[i := Close(after[i])];
      }
    }
    assert done == ids && rest + Fitting(cap, subs, done) == Fitting(cap, subs, done);
  }

  /** endUpstream's loop: every remaining registration is closed. */
  method CloseEach(subs: map<nat, Sub>, ids: set<nat>) returns (after: map<nat, Sub>)
    requires AllOpen(subs, ids)
    ensures after == CloseAll(subs, ids)
  {
    var rest := ids;
    after := subs;
    while rest != {}
      invariant rest <= ids && after == CloseAll(subs, ids - rest)
      decreases rest
    {
      var i :| i in rest;
      assert after[i] == subs[i] && after[i].open;
      rest := rest - {i};
      after := after[i := Close(after[i])];
    }
    assert ids - rest == ids;
  }

  class EpochHub {
    const queueSize: nat
    var stopped: bool
    var root: bool
    var up: Option<nat>
    var opening: Option<nat>
    var gens: map<nat, Gen>
    var subs: map<nat, Sub>
    var readers: set<nat>
    var opens: set<nat>
    var resumes: seq<Resume>

    function State(): Hub
      reads this
    {
      Hub(queueSize, stopped, root, up, opening, gens, subs, readers, opens, resumes, false)
    }

    ghost predicate Valid()
      reads this
    {
      Structure(State())
    }

    constructor (size: nat)
      ensures Valid() && State() == Init(size)
    {
      queueSize := size;
      stopped, root, up, opening := false, false, None, None;
      gens, subs, readers, opens, resumes := map[], map[], {}, {}, [];
    }

    method AddSub(gen: nat, sub: nat)
      requires gen in gens
      modifies this`subs, this`gens
      ensures State() == BlockEpochHub.AddSub(old(State()), gen, sub)
    {
      var queued: seq<Epoch> := [];
      var g := gens[gen];
      if g.tip.Some? {
        queued := [g.tip.value];
      }
      subs := subs[sub := Sub(gen, |g.published|, queued, 0, true, 0)];
      gens := gens[gen := g.(subs := g.subs + {sub})];
    }

    /** One pass of register's loop; sub and attempt are the objects it would allocate. */
    method RegisterPass(sub: nat, attempt: nat) returns (o: Outcome)
      requires Valid() && sub !in subs
      modifies this
      ensures Valid() && State() == Next(old(State()), DoRegister(sub, attempt))
      ensures o.Joined? <==> sub in subs
      ensures o.Refused? <==> old(stopped)
      ensures o.MustOpen? <==> !old(stopped) && old(up).None? && old(opening).None?
      ensures o.WaitForReader? ==> old(up) == Some(o.gen) && Exiting(old(State()), o.gen)
      ensures o.WaitForOpen? ==> old(opening) == Some(o.attempt)
    {
      StructureRegister(State(), sub, attempt);
      if stopped {
        return Refused;
      }
      if up.Some? {
        if gens[up.value].cancelled || root {
          return WaitForReader(up.value);
        }
        AddSub(up.value, sub);
        return Joined;
      }
      if opening.Some? {
        return WaitForOpen(opening.value);
      }
      opening := Some(attempt);
      opens := opens + {attempt};
      o := MustOpen;
    }

    /** The section that resolves an open; it returns whether the caller is registered. */
    method Resolve(attempt: nat, ok: bool, gen: nat, sub: nat) returns (registered: bool)
      requires Valid() && attempt in opens && gen !in gens && sub !in subs
      modifies this
      ensures Valid() && State() == Next(old(State()), DoResolve(attempt, ok, gen, sub))
      ensures registered == (ok && !old(stopped))
      ensures registered <==> sub in subs
      ensures opening.None? && up == if registered then Some(gen) else None
    {
      StructureResolve(State(), attempt, ok, gen, sub);
      opening := None;
      opens := opens - {attempt};
      if stopped || !ok {
        return false;
      }
      up := Some(gen);
      readers := readers + {gen};
      gens := gens[gen := Gen(false, false, {}, None, None, None, [])];
      AddSub(gen, sub);
      registered := true;
    }

    method RemoveSub(sub: nat) returns (last: bool)
      requires Valid() && sub in subs && subs[sub].gen in gens
      modifies this`subs, this`gens
      ensures Valid() && State() == Next(old(State()), DoCancel(sub))
      ensures !subs[sub].open
      ensures last <==> gens[subs[sub].gen].subs == {}
      ensures last ==> Exiting(State(), subs[sub].gen)
    {
      StructureCancel(State(), sub);
      var gen := subs[sub].gen;
      var g := gens[gen];
      if sub in g.subs {
        assert subs[sub].open;
        subs := subs[sub := Close(subs[sub])];
        g := g.(subs := g.subs - {sub});
      }
      assert g.subs == gens[gen].subs - {sub};
      last := g.subs == {};
      if last {
        g := g.(cancelled := true);
      }
      gens := gens[gen := g];
    }

    method PublishEpoch(gen: nat, e: Epoch)
      requires Valid() && AtTop(State(), gen)
      modifies this`subs, this`gens
      ensures Valid() && State() == Next(old(State()), DoPublish(gen, e))
    {
      StructurePublish(State(), gen, e);
      var g := gens[gen];
      var after, left := OfferEach(queueSize, subs, g.subs, e);
      subs := after;
      gens := gens[gen := g.(tip := Some(e), pending := Some(e), published := g.published + [e],
                             subs := left, cancelled := g.cancelled || left == {})];
    }

    /** After publish the reader moves its cursor. */
    method AdvanceCursor(gen: nat)
      requires Valid() && gen in gens && gen in readers && gens[gen].pending.Some?
      modifies this`gens
      ensures Valid() && State() == Next(old(State()), DoAdvance(gen))
      ensures AtTop(State(), gen) && gens[gen].cursor == old(gens)[gen].pending
    {
      StructureAdvance(State(), gen);
      var g := gens[gen];
      gens := gens[gen := g.(cursor := g.pending, pending := None)];
    }

    /** The reader's stream failed and is opened again from its cursor. */
    method Reopen(gen: nat) returns (from: Option<Epoch>)
      requires Valid() && AtTop(State(), gen)
      modifies this`resumes
      ensures Valid() && State() == Next(old(State()), DoReconnect(gen))
      ensures from == gens[gen].cursor && resumes == old(resumes) + [Resume(gen, from, |gens[gen].published|)]
    {
      from := gens[gen].cursor;
      resumes := resumes + [Resume(gen, from, |gens[gen].published|)];
    }

    /** A registration's owner receives the oldest epoch still queued, if there is one. */
    method Receive(sub: nat) returns (e: Option<Epoch>)
      requires Valid() && sub in subs
      modifies this`subs
      ensures Valid() && State() == Next(old(State()), DoDrain(sub))
      ensures var s := old(subs)[sub]; e == if s.taken < |s.queued| then Some(s.queued[s.taken]) else None
    {
      StructureDrain(State(), sub);
      var s := subs[sub];
      e := None;
      if s.taken < |s.queued| {
        e := Some(s.queued[s.taken]);
        subs := subs[sub := s.(taken := s.taken + 1)];
      }
    }

    method EndUpstream(gen: nat)
      requires Valid() && AtTop(State(), gen)
      modifies this
      ensures Valid() && State() == Next(old(State()), DoEnd(gen))
      ensures up != Some(gen) && forall i :: i in subs && subs[i].gen == gen ==> !subs[i].open
    {
      StructureEnd(State(), gen);
      var g := gens[gen];
      subs := CloseEach(subs, g.subs);
      gens := gens[gen := g.(subs := {}, cancelled := true, ended := true)];
      if up == Some(gen) {
        up := None;
      }
      readers := readers - {gen};
    }

    /** stop up to its wait: two steps, between which other sections may run. */
    method MarkStop()
      requires Valid()
      modifies this`stopped
      ensures Valid() && State() == Next(old(State()), MarkStopped)
    {
      stopped := true;
    }

    method CancelStreams()
      requires Valid() && stopped
      modifies this`root
      ensures Valid() && State() == Next(old(State()), CancelRoot)
      ensures forall g :: g in gens ==> Exiting(State(), g)
    {
      root := true;
    }
  }
}
