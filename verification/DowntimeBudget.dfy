/**
 * The failure budget of a block stream, as the block-epoch actor and the
 * shared hub's reader both keep it: downSince stamps the first loss, open
 * streams are credited back when they close, and a new block identity clears
 * the budget. An observer that only adds up the time spent without a stream
 * is the reference it is proved against.
 */
module DowntimeBudget {

  import opened Basics

  datatype Epoch = Epoch(height: int, hash: nat)

  /** The two loops differ only in when they grow and reset the delay between attempts. */
  datatype Loop = ActorLoop | HubReader

  datatype Config = Config(loop: Loop, hook: bool, timeout: int, minBackoff: int, maxBackoff: int)

  datatype Watch = Watch(
    open: bool,
    downSince: Option<int>,
    openedAt: int,
    last: Option<Epoch>,
    backoff: int,
    fatal: bool)

  /** Time passes, the stream closes, the budget is checked, an attempt opens or fails, an epoch arrives. */
  datatype Event = Tick(d: nat) | Closed | Check | Opened | OpenFailed | Received(epoch: Epoch)

  function Min(a: int, b: int): int { if a < b then a else b }

  /** The actor's doubling, in 64-bit durations. */
  function NextBackoff(backoff: int, maxBackoff: int): int {
    if backoff >= maxBackoff then maxBackoff
    else
      var next := Wrap64(backoff * 2);
      if next > maxBackoff then maxBackoff else next
  }

  // ---------------------------------------------------------------- the loop's variables

  function Close(w: Watch, now: int): Watch {
    w.(open := false,
       downSince := Some(if w.downSince.None? then now else w.downSince.value + (now - w.openedAt)))
  }

  predicate Exhausted(w: Watch, now: int, timeout: int) {
    w.downSince.Some? && now - w.downSince.value >= timeout
  }

  function Open(c: Config, w: Watch, now: int): Watch {
    w.(open := true, openedAt := now,
       backoff := if c.loop.ActorLoop? then c.minBackoff else Min(Wrap64(w.backoff * 2), c.maxBackoff))
  }

  function Fail(c: Config, w: Watch): Watch {
    w.(backoff := if c.loop.ActorLoop? then NextBackoff(w.backoff, c.maxBackoff)
                  else Min(Wrap64(w.backoff * 2), c.maxBackoff))
  }

  function Receive(c: Config, w: Watch, e: Epoch): Watch {
    w.(downSince := if w.last != Some(e) then None else w.downSince,
       last := Some(e),
       backoff := if c.loop.HubReader? then c.minBackoff else w.backoff)
  }

  datatype Sys = Sys(w: Watch, clock: int)

  function Next(c: Config, s: Sys, e: Event): Sys {
    if s.w.fatal then (if e.Tick? then s.(clock := s.clock + e.d) else s)
    else match e
      case Tick(d) => s.(clock := s.clock + d)
      case Closed => if s.w.open then s.(w := Close(s.w, s.clock)) else s
      case Check =>
        if !s.w.open && c.hook && Exhausted(s.w, s.clock, c.timeout) then s.(w := s.w.(fatal := true)) else s
      case Opened => if s.w.open then s else s.(w := Open(c, s.w, s.clock))
      case OpenFailed => if s.w.open then s else s.(w := Fail(c, s.w))
      case Received(epoch) => if s.w.open then s.(w := Receive(c, s.w, epoch)) else s
  }

  function Start(c: Config, clock: int): Sys {
    Sys(Watch(true, None, 0, None, c.minBackoff, false), clock)
  }

  function Run(c: Config, s: Sys, es: seq<Event>): Sys {
    if es == [] then s else Next(c, Run(c, s, es[..|es| - 1]), es[|es| - 1])
  }

  // ---------------------------------------------------------------- the observer

  /** What an onlooker sees of the stream: whether it is up, the last identity, and the down time since it changed. */
  datatype Seen = Seen(up: bool, last: Option<Epoch>, down: nat)

  function Observe(es: seq<Event>): Seen {
    if es == [] then Seen(true, None, 0)
    else
      var s := Observe(es[..|es| - 1]);
      match es[|es| - 1]
      case Tick(d) => if s.up then s else s.(down := s.down + d)
      case Closed => s.(up := false)
      case Check => s
      case Opened => s.(up := true)
      case OpenFailed => s
      case Received(epoch) =>
        if !s.up then s else s.(last := Some(epoch), down := if s.last == Some(epoch) then s.down else 0)
  }

  /** The stamp accounts for exactly the observed down time, whether the stream is down or open. */
  predicate Accounts(s: Sys, o: Seen) {
    && s.w.open == o.up && s.w.last == o.last
    && (!s.w.open ==> s.w.downSince.Some? && s.clock - s.w.downSince.value == o.down)
    && (s.w.open && s.w.downSince.Some? ==> s.w.openedAt - s.w.downSince.value == o.down)
    && (s.w.open && s.w.downSince.None? ==> o.down == 0)
  }

  /** In every run short of an escalation the stamp accounts for the observed down time. */
  lemma {:induction false} DownSinceAccounts(c: Config, clock: int, es: seq<Event>)
    requires !Run(c, Start(c, clock), es).w.fatal
    ensures Accounts(Run(c, Start(c, clock), es), Observe(es))
  {
    if es != [] {
      var s := Run(c, Start(c, clock), es[..|es| - 1]);
      assert !s.w.fatal;
      DownSinceAccounts(c, clock, es[..|es| - 1]);
    }
  }

  /**
   * The hook fires on a step exactly when that step is a check, a hook is
   * installed, the stream is down, and the down time observed since the last
   * new block identity has reached the budget.
   */
  lemma FatalExactlyOnBudget(c: Config, clock: int, es: seq<Event>, e: Event)
    requires !Run(c, Start(c, clock), es).w.fatal
    ensures Next(c, Run(c, Start(c, clock), es), e).w.fatal
            <==> e.Check? && c.hook && !Observe(es).up && Observe(es).down >= c.timeout
  {
    DownSinceAccounts(c, clock, es);
  }

  /** Fatal is reached only through such a step: some prefix had spent the whole budget. */
  lemma {:induction false} FatalSpentBudget(c: Config, clock: int, es: seq<Event>)
    requires Run(c, Start(c, clock), es).w.fatal
    ensures exists k :: 0 <= k < |es| && es[k] == Check && c.hook
                        && !Observe(es[..k]).up && Observe(es[..k]).down >= c.timeout
  {
    assert es != [];
    var k := |es| - 1;
    if Run(c, Start(c, clock), es[..k]).w.fatal {
      FatalSpentBudget(c, clock, es[..k]);
      var j :| 0 <= j < k && es[..k][j] == Check && c.hook
               && !Observe(es[..k][..j]).up && Observe(es[..k][..j]).down >= c.timeout;
      assert es[..k][..j] == es[..j];
    } else {
      FatalExactlyOnBudget(c, clock, es[..k], es[k]);
    }
  }

  /** While an open stream stays silent, or only replays the last tip, the budget neither grows nor resets. */
  predicate SpendsNothing(last: Option<Epoch>, es: seq<Event>) {
    forall k :: 0 <= k < |es| ==> es[k].Tick? || (es[k].Received? && last == Some(es[k].epoch))
  }

  lemma {:induction false} ReplaysAndSilenceSpendNothing(c: Config, clock: int, before: seq<Event>, es: seq<Event>)
    requires !Run(c, Start(c, clock), before).w.fatal && Run(c, Start(c, clock), before).w.open
    requires SpendsNothing(Run(c, Start(c, clock), before).w.last, es)
    ensures var w, w' := Run(c, Start(c, clock), before).w, Run(c, Start(c, clock), before + es).w;
            && w'.downSince == w.downSince && w'.openedAt == w.openedAt
            && w'.last == w.last && w'.open && !w'.fatal
  {
    if es == [] {
      assert before + es == before;
    } else {
      ReplaysAndSilenceSpendNothing(c, clock, before, es[..|es| - 1]);
      assert (before + es)[..|before + es| - 1] == before + es[..|es| - 1];
      assert (before + es)[|before + es| - 1] == es[|es| - 1];
    }
  }

  /** So when the stream is lost after that, the budget stands where it stood before it. */
  lemma SilenceIsNotCharged(c: Config, clock: int, before: seq<Event>, es: seq<Event>)
    requires !Run(c, Start(c, clock), before).w.fatal && Run(c, Start(c, clock), before).w.open
    requires SpendsNothing(Run(c, Start(c, clock), before).w.last, es)
    ensures var t := Next(c, Run(c, Start(c, clock), before + es), Closed);
            && !t.w.open && t.w.downSince.Some? && t.clock - t.w.downSince.value == Observe(before).down
            && (Next(c, t, Check).w.fatal <==> c.hook && Observe(before).down >= c.timeout)
  {
    ReplaysAndSilenceSpendNothing(c, clock, before, es);
    DownSinceAccounts(c, clock, before);
  }

  /** The doubling is the capped double exactly when it cannot leave 64 bits. */
  lemma BackoffDoubles(backoff: int, maxBackoff: int)
    requires 0 <= backoff < TWO_63 && 0 < maxBackoff < TWO_63
    ensures NextBackoff(backoff, maxBackoff) == Min(backoff * 2, maxBackoff)
            <==> backoff >= maxBackoff || backoff * 2 < TWO_63
  {
    if backoff * 2 >= TWO_63 {
      assert (backoff * 2 + TWO_63) % (2 * TWO_63) == backoff * 2 - TWO_63;
    } else {
      assert (backoff * 2 + TWO_63) % (2 * TWO_63) == backoff * 2 + TWO_63;
    }
  }

  /** b doubled k times. */
  function Doubled(b: int, k: nat): int { if k == 0 then b else 2 * Doubled(b, k - 1) }

  function Failures(k: nat): seq<Event> { if k == 0 then [] else Failures(k - 1) + [OpenFailed] }

  /** Delays that cannot leave 64 bits when doubled. */
  predicate Delays(c: Config) { 0 < c.minBackoff <= c.maxBackoff < TWO_63 / 2 }

  lemma CappedDouble(c: Config, b: int)
    requires Delays(c) && 0 < b <= c.maxBackoff
    ensures NextBackoff(b, c.maxBackoff) == Min(2 * b, c.maxBackoff) == Min(Wrap64(b * 2), c.maxBackoff)
  {
    BackoffDoubles(b, c.maxBackoff);
    assert (b * 2 + TWO_63) % (2 * TWO_63) == b * 2 + TWO_63;
  }

  /** After k failed attempts in a row the delay has doubled k times, up to the cap, in either loop. */
  lemma {:induction false} DelayAfterFailures(c: Config, s: Sys, k: nat)
    requires Delays(c) && !s.w.fatal && !s.w.open && s.w.backoff == c.minBackoff
    ensures Run(c, s, Failures(k)).w == s.w.(backoff := Min(Doubled(c.minBackoff, k), c.maxBackoff))
    ensures Doubled(c.minBackoff, k) > 0
  {
    if k > 0 {
      DelayAfterFailures(c, s, k - 1);
      assert Failures(k)[..|Failures(k)| - 1] == Failures(k - 1);
      CappedDouble(c, Min(Doubled(c.minBackoff, k - 1), c.maxBackoff));
    }
  }

  /**
   * The actor starts over with the shortest delay when a stream opens; the hub's reader doubles it even
   * then and starts over only when an epoch arrives.
   */
  lemma DelayStartsOver(c: Config, s: Sys, e: Epoch)
    requires Delays(c) && !s.w.fatal && 0 < s.w.backoff <= c.maxBackoff
    ensures !s.w.open ==>
              Next(c, s, Opened).w.backoff
              == if c.loop.ActorLoop? then c.minBackoff else Min(2 * s.w.backoff, c.maxBackoff)
    ensures s.w.open ==>
              Next(c, s, Received(e)).w.backoff == if c.loop.ActorLoop? then s.w.backoff else c.minBackoff
  {
    CappedDouble(c, s.w.backoff);
  }

  // ---------------------------------------------------------------- the loop

  lemma RunThree(c: Config, s: Sys, a: Event, b: Event, d: Event)
    ensures Run(c, s, [a, b, d]) == Next(c, Next(c, Next(c, s, a), b), d)
  {
    var es := [a, b, d];
    assert es[..2] == [a, b] && [a, b][..1] == [a] && [a][..0] == [];
    assert Run(c, s, [a]) == Next(c, s, a);
    assert Run(c, s, [a, b]) == Next(c, Run(c, s, [a]), b);
  }

  /** The variables monitorBlocks and runUpstream keep across iterations. */
  class StreamMonitor {
    const c: Config
    var registered: bool
    var downSince: Option<int>
    var openedAt: int
    var lastEpoch: Option<Epoch>
    var currentBackoff: int
    var escalated: bool

    function Value(): Watch
      reads this
    {
      Watch(registered, downSince, openedAt, lastEpoch, currentBackoff, escalated)
    }

    constructor (config: Config, clock: int)
      ensures c == config && Value() == Start(config, clock).w
    {
      c := config;
      registered, downSince, openedAt, lastEpoch := true, None, 0, None;
      currentBackoff, escalated := config.minBackoff, false;
    }

    method StreamLost(now: int)
      requires registered && !escalated
      modifies this`downSince, this`registered
      ensures Sys(Value(), now) == Next(c, Sys(old(Value()), now), Closed)
    {
      if downSince.None? {
        downSince := Some(now);
      } else {
        downSince := Some(downSince.value + (now - openedAt));
      }
      registered := false;
    }

    /** One pass of the reconnect branch: check the budget, then try to open; the clock moves in between. */
    method TryReconnect(checkedAt: int, ok: bool, triedAt: int)
      requires !registered && !escalated && checkedAt <= triedAt
      modifies this
      ensures Sys(Value(), triedAt) == Run(c, Sys(old(Value()), checkedAt),
                                           [Check, Tick(triedAt - checkedAt), if ok then Opened else OpenFailed])
    {
      RunThree(c, Sys(Value(), checkedAt), Check, Tick(triedAt - checkedAt), if ok then Opened else OpenFailed);
      if c.hook && downSince.Some? && checkedAt - downSince.value >= c.timeout {
        escalated := true;
        return;
      }
      if ok {
        registered, openedAt := true, triedAt;
      }
      match c.loop
      case ActorLoop =>
        currentBackoff := if ok then c.minBackoff else NextBackoff(currentBackoff, c.maxBackoff);
      case HubReader =>
        currentBackoff := Min(Wrap64(currentBackoff * 2), c.maxBackoff);
    }

    method EpochArrived(e: Epoch, now: int)
      requires registered && !escalated
      modifies this`downSince, this`lastEpoch, this`currentBackoff
      ensures Sys(Value(), now) == Next(c, Sys(old(Value()), now), Received(e))
    {
      if lastEpoch.None? || e.height != lastEpoch.value.height || e.hash != lastEpoch.value.hash {
        downSince := None;
      }
      lastEpoch := Some(e);
      if c.loop.HubReader? {
        currentBackoff := c.minBackoff;
      }
    }
  }
}
