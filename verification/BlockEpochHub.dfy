/**
 * The shared block-epoch hub: one upstream stream multiplexed to many bounded
 * queues. Each step is one mutex-held section of the source, so any sequence of
 * steps is an interleaving of registrations, opens, cancels, publishes, reader
 * exits and stop. Registration channels carry their whole history.
 */
module BlockEpochHub {

  import opened Basics

  datatype Epoch = Epoch(height: nat, hash: nat)

  /** queued is everything ever sent to the channel; the first taken of it were received. */
  datatype Sub = Sub(gen: nat, joinedAt: nat, queued: seq<Epoch>, taken: nat, open: bool, closes: nat)

  /**
   * One upstream generation. published is its fan-out history; tip is what the hub caches of it and
   * cursor what the reader keeps. pending is an epoch the reader has published and not yet made its cursor.
   */
  datatype Gen = Gen(
    cancelled: bool,
    ended: bool,
    subs: set<nat>,
    tip: Option<Epoch>,
    cursor: Option<Epoch>,
    pending: Option<Epoch>,
    published: seq<Epoch>)

  /** A reconnect: the cursor it resumed from, after how many epochs of its generation. */
  datatype Resume = Resume(gen: nat, cursor: Option<Epoch>, after: nat)

  /** readers and opens are the goroutines the wait group counts. */
  datatype Hub = Hub(
    queueSize: nat,
    stopped: bool,
    root: bool,
    up: Option<nat>,
    opening: Option<nat>,
    gens: map<nat, Gen>,
    subs: map<nat, Sub>,
    readers: set<nat>,
    opens: set<nat>,
    resumes: seq<Resume>,
    panicked: bool)

  // ---------------------------------------------------------------- channel operations

  /** Closing a channel twice panics. */
  function Close(s: Sub): Sub { s.(open := false, closes := s.closes + 1) }

  function Send(s: Sub, e: Epoch): Sub { s.(queued := s.queued + [e]) }

  predicate HasRoom(cap: nat, s: Sub) { |s.queued| < s.taken + cap }

  /** publish's non-blocking send: queue the epoch, or close a full queue. */
  function Offer(cap: nat, s: Sub, e: Epoch): Sub { if HasRoom(cap, s) then Send(s, e) else Close(s) }

  predicate AllOpen(subs: map<nat, Sub>, ids: set<nat>) { forall i :: i in ids ==> i in subs && subs[i].open }

  function CloseAll(subs: map<nat, Sub>, ids: set<nat>): map<nat, Sub> {
    map i | i in subs :: if i in ids then Close(subs[i]) else subs[i]
  }

  function OfferAll(cap: nat, subs: map<nat, Sub>, ids: set<nat>, e: Epoch): map<nat, Sub> {
    map i | i in subs :: if i in ids then Offer(cap, subs[i], e) else subs[i]
  }

  function Fitting(cap: nat, subs: map<nat, Sub>, ids: set<nat>): set<nat> {
    set i | i in ids && i in subs && HasRoom(cap, subs[i])
  }

  // ---------------------------------------------------------------- sections

  /** addSubLocked: a registration seeded with the cached tip. */
  function AddSub(h: Hub, gen: nat, sub: nat): Hub
    requires gen in h.gens
  {
    var g := h.gens[gen];
    var seed := if g.tip.Some? then [g.tip.value] else [];
    h.(subs := h.subs[sub := Sub(gen, |g.published|, seed, 0, true, 0)],
       gens := h.gens[gen := g.(subs := g.subs + {sub})])
  }

  predicate Exiting(h: Hub, gen: nat) { gen in h.gens && (h.gens[gen].cancelled || h.root) }

  /** register's section: join, publish an opening, or leave the hub alone (stopped, or waiting). */
  function Register(h: Hub, sub: nat, attempt: nat): Hub {
    if h.stopped || sub in h.subs then h
    else if h.up.Some? then
      if h.up.value !in h.gens || Exiting(h, h.up.value) then h else AddSub(h, h.up.value, sub)
    else if h.opening.Some? then h
    else h.(opening := Some(attempt), opens := h.opens + {attempt})
  }

  /** openUpstream's section: a stop wins over whatever the open returned. */
  function ResolveOpen(h: Hub, attempt: nat, ok: bool, gen: nat, sub: nat): Hub {
    if attempt !in h.opens || gen in h.gens || sub in h.subs then h
    else
      var h1 := h.(opening := None, opens := h.opens - {attempt});
      if h.stopped || !ok then h1
      else AddSub(h1.(up := Some(gen), readers := h1.readers + {gen},
                      gens := h1.gens[gen := Gen(false, false, {}, None, None, None, [])]), gen, sub)
  }

  /** removeSub's section: the last cancel cancels the generation. */
  function Remove(h: Hub, sub: nat): Hub {
    if sub !in h.subs || h.subs[sub].gen !in h.gens then h
    else
      var gen := h.subs[sub].gen;
      var g := h.gens[gen];
      var member := sub in g.subs;
      var left := g.subs - {sub};
      h.(subs := if member then h.subs[sub := Close(h.subs[sub])] else h.subs,
         panicked := h.panicked || (member && !h.subs[sub].open),
         gens := h.gens[gen := g.(subs := left, cancelled := g.cancelled || left == {})])
  }

  /** The reader is at the top of its loop: what it published last is its cursor. */
  predicate AtTop(h: Hub, gen: nat) { gen in h.gens && gen in h.readers && h.gens[gen].pending.None? }

  /** publish. */
  function Publish(h: Hub, gen: nat, e: Epoch): Hub {
    if !AtTop(h, gen) then h
    else
      var g := h.gens[gen];
      var left := Fitting(h.queueSize, h.subs, g.subs);
      h.(subs := OfferAll(h.queueSize, h.subs, g.subs, e),
         panicked := h.panicked || !AllOpen(h.subs, g.subs),
         gens := h.gens[gen := g.(tip := Some(e), pending := Some(e), published := g.published + [e],
                                  subs := left, cancelled := g.cancelled || left == {})])
  }

  /** The reader's own step after publish: the epoch becomes its cursor. */
  function Advance(h: Hub, gen: nat): Hub {
    if gen !in h.gens || gen !in h.readers || h.gens[gen].pending.None? then h
    else h.(gens := h.gens[gen := h.gens[gen].(cursor := h.gens[gen].pending, pending := None)])
  }

  /** The reader reopens its stream from the cursor. */
  function Reconnect(h: Hub, gen: nat): Hub {
    if !AtTop(h, gen) then h
    else h.(resumes := h.resumes + [Resume(gen, h.gens[gen].cursor, |h.gens[gen].published|)])
  }

  /** endUpstream. */
  function End(h: Hub, gen: nat): Hub {
    if !AtTop(h, gen) then h
    else
      var g := h.gens[gen];
      h.(subs := CloseAll(h.subs, g.subs),
         panicked := h.panicked || !AllOpen(h.subs, g.subs),
         gens := h.gens[gen := g.(subs := {}, cancelled := true, ended := true)],
         up := if h.up == Some(gen) then None else h.up,
         readers := h.readers - {gen})
  }

  /** A receiver takes the oldest queued epoch. */
  function Drain(h: Hub, sub: nat): Hub {
    if sub in h.subs && h.subs[sub].taken < |h.subs[sub].queued|
    then h.(subs := h.subs[sub := h.subs[sub].(taken := h.subs[sub].taken + 1)]) else h
  }

  datatype Event =
    | DoRegister(sub: nat, attempt: nat)
    | DoResolve(attempt: nat, ok: bool, gen: nat, sub: nat)
    | DoCancel(sub: nat)
    | DoPublish(gen: nat, epoch: Epoch)
    | DoAdvance(gen: nat)
    | DoReconnect(gen: nat)
    | DoEnd(gen: nat)
    | DoDrain(sub: nat)
    | MarkStopped
    | CancelRoot

  function Next(h: Hub, e: Event): Hub {
    match e
    case DoRegister(sub, attempt) => Register(h, sub, attempt)
    case DoResolve(attempt, ok, gen, sub) => ResolveOpen(h, attempt, ok, gen, sub)
    case DoCancel(sub) => Remove(h, sub)
    case DoPublish(gen, epoch) => Publish(h, gen, epoch)
    case DoAdvance(gen) => Advance(h, gen)
    case DoReconnect(gen) => Reconnect(h, gen)
    case DoEnd(gen) => End(h, gen)
    case DoDrain(sub) => Drain(h, sub)
    case MarkStopped => h.(stopped := true)
    case CancelRoot => if h.stopped then h.(root := true) else h
  }

  function Run(h: Hub, es: seq<Event>): Hub {
    if es == [] then h else Next(Run(h, es[..|es| - 1]), es[|es| - 1])
  }

  function Init(queueSize: nat): Hub { Hub(queueSize, false, false, None, None, map[], map[], {}, {}, [], false) }

  // ---------------------------------------------------------------- one upstream, channels closed once

  /** At most one upstream exists, opening or installed, and it is the one the wait group counts. */
  predicate OneUpstream(h: Hub) {
    && h.readers == (if h.up.Some? then {h.up.value} else {})
    && h.opens == (if h.opening.Some? then {h.opening.value} else {})
    && !(h.up.Some? && h.opening.Some?)
    && (h.up.Some? ==> h.up.value in h.gens && !h.gens[h.up.value].ended)
    && (h.root ==> h.stopped)
  }

  predicate MembersMatch(gens: map<nat, Gen>, subs: map<nat, Sub>) {
    && (forall g, i :: g in gens && i in gens[g].subs ==> i in subs && subs[i].gen == g && subs[i].open)
    && (forall i :: i in subs && subs[i].open ==> subs[i].gen in gens && i in gens[subs[i].gen].subs)
  }

  predicate EndedEmpty(h: Hub) {
    forall g :: g in h.gens && h.up != Some(g) ==> h.gens[g].ended && h.gens[g].subs == {}
  }

  predicate ClosedOnce(subs: map<nat, Sub>) {
    forall i :: i in subs ==> subs[i].closes == if subs[i].open then 0 else 1
  }

  predicate Structure(h: Hub) {
    OneUpstream(h) && MembersMatch(h.gens, h.subs) && EndedEmpty(h) && ClosedOnce(h.subs) && !h.panicked
  }

  lemma StructureAdd(h: Hub, gen: nat, sub: nat)
    requires Structure(h) && h.up == Some(gen) && sub !in h.subs
    ensures Structure(AddSub(h, gen, sub))
  {
  }

  lemma StructureRegister(h: Hub, sub: nat, attempt: nat)
    requires Structure(h)
    ensures Structure(Register(h, sub, attempt))
  {
    if h.up.Some? && sub !in h.subs {
      StructureAdd(h, h.up.value, sub);
    }
  }

  lemma StructureResolve(h: Hub, attempt: nat, ok: bool, gen: nat, sub: nat)
    requires Structure(h)
    ensures Structure(ResolveOpen(h, attempt, ok, gen, sub))
  {
    if attempt in h.opens && gen !in h.gens && sub !in h.subs && !h.stopped && ok {
      var h1 := h.(opening := None, opens := h.opens - {attempt});
      var h2 := h1.(up := Some(gen), readers := h1.readers + {gen},
                    gens := h1.gens[gen := Gen(false, false, {}, None, None, None, [])]);
      assert Structure(h2);
      StructureAdd(h2, gen, sub);
    }
  }

  lemma StructureCancel(h: Hub, sub: nat)
    requires Structure(h)
    ensures Structure(Remove(h, sub))
  {
  }

  lemma StructurePublish(h: Hub, gen: nat, e: Epoch)
    requires Structure(h)
    ensures Structure(Publish(h, gen, e))
  {
  }

  lemma StructureAdvance(h: Hub, gen: nat)
    requires Structure(h)
    ensures Structure(Advance(h, gen))
  {
  }

  lemma StructureDrain(h: Hub, sub: nat)
    requires Structure(h)
    ensures Structure(Drain(h, sub))
  {
  }

  lemma StructureEnd(h: Hub, gen: nat)
    requires Structure(h)
    ensures Structure(End(h, gen))
  {
  }

  lemma StructureNext(h: Hub, e: Event)
    requires Structure(h)
    ensures Structure(Next(h, e))
  {
    match e
    case DoRegister(sub, attempt) => StructureRegister(h, sub, attempt);
    case DoResolve(attempt, ok, gen, sub) => StructureResolve(h, attempt, ok, gen, sub);
    case DoCancel(sub) => StructureCancel(h, sub);
    case DoPublish(gen, epoch) => StructurePublish(h, gen, epoch);
    case DoAdvance(gen) => StructureAdvance(h, gen);
    case DoReconnect(gen) =>
    case DoEnd(gen) => StructureEnd(h, gen);
    case DoDrain(sub) => StructureDrain(h, sub);
    case MarkStopped =>
    case CancelRoot =>
  }
}
