/** The rate filter of the two state notifiers (the mirrored `_schedule_notify`,
    `_deferred_dispatch` and `_dispatch_notify`), on values. */
module RateFilter {

  /** An entry of the event loop: `live` until it has run or was cancelled. */
  datatype Timer = Timer(due: int, live: bool)

  /** The notifier's own fields, its entries in the event loop, and the times of its
      dispatches. */
  datatype Upstream = Upstream(minInterval: int, last: int, pending: bool, timers: seq<Timer>,
                               dispatched: seq<int>)

  function Fresh(minInterval: int): Upstream {
    Upstream(minInterval, 0, false, [], [])
  }

  function Dispatched(u: Upstream, now: int): Upstream {
    u.(last := now, dispatched := u.dispatched + [now])
  }

  /** Whether `_schedule_notify` dispatches at once. */
  predicate WindowPassed(u: Upstream, now: int) {
    u.minInterval - (now - u.last) <= 0
  }

  function Scheduled(u: Upstream, now: int): Upstream {
    if WindowPassed(u, now) then Dispatched(u, now)
    else if u.pending then u
    else u.(pending := true,
            timers := u.timers + [Timer(now + (u.minInterval - (now - u.last)), true)])
  }

  predicate CanFire(u: Upstream, t: nat, now: int) {
    t < |u.timers| && u.timers[t].live && u.timers[t].due <= now
  }

  function Deferred(u: Upstream, t: nat, now: int): Upstream
    requires t < |u.timers|
  {
    Dispatched(u.(timers := u.timers[t := u.timers[t].(live := false)], pending := false), now)
  }

  // ---------------------------------------------------------------- invariant

  /** The dispatch before the last one; the clock origin stands in for missing dispatches,
      which is what `_last_notify_mono = 0.0` amounts to. */
  function Nth(d: seq<int>, back: nat): int {
    if back < |d| then d[|d| - 1 - back] else 0
  }

  /** Any two dispatches with one between them are at least the interval apart. */
  ghost predicate SpacedByTwo(d: seq<int>, minInterval: int) {
    forall i :: 0 <= i && i + 2 < |d| ==> d[i + 2] - d[i] >= minInterval
  }

  ghost predicate SpacedByOne(d: seq<int>, minInterval: int) {
    forall i :: 0 <= i && i + 1 < |d| ==> d[i + 1] - d[i] >= minInterval
  }

  ghost predicate Monotone(d: seq<int>) {
    forall i :: 0 <= i && i + 1 < |d| ==> d[i] <= d[i + 1]
  }

  ghost predicate Outstanding(u: Upstream, t: int) {
    0 <= t < |u.timers| && u.timers[t].live
  }

  /** `_notify_pending` holds exactly when one deferred dispatch is outstanding. */
  ghost predicate PendingMeansOne(u: Upstream) {
    && (u.pending <==> exists t :: Outstanding(u, t))
    && (forall t, t' :: Outstanding(u, t) && Outstanding(u, t') ==> t == t')
  }

  ghost predicate UpstreamInv(u: Upstream, now: int) {
    && 0 <= u.last <= now
    && u.last == Nth(u.dispatched, 0)
    && PendingMeansOne(u)
    && Monotone(u.dispatched)
    && (u.dispatched != [] ==> 0 <= u.dispatched[0])
    && SpacedByTwo(u.dispatched, u.minInterval)
    // an outstanding timer is due one interval after the last dispatch, or that dispatch
    // overtook the timer, and then it was itself a whole interval late
    && (forall t :: Outstanding(u, t) ==>
          || u.timers[t].due == u.last + u.minInterval
          || u.last - Nth(u.dispatched, 1) >= u.minInterval)
    // with none outstanding or none overtaken, nothing is known of the last gap
  }

  lemma SchedulePreserves(u: Upstream, now: int, later: int)
    requires UpstreamInv(u, now) && now <= later
    ensures UpstreamInv(Scheduled(u, later), later)
  {
    var u' := Scheduled(u, later);
    if !WindowPassed(u, later) && !u.pending {
      assert Outstanding(u', |u.timers|);
      assert forall t :: Outstanding(u', t) && t < |u.timers| ==> Outstanding(u, t);
    } else {
      assert forall t :: Outstanding(u', t) <==> Outstanding(u, t);
      assert u.pending == u'.pending;
    }
  }

  lemma DeferredPreserves(u: Upstream, t: nat, now: int, later: int)
    requires UpstreamInv(u, now) && now <= later && CanFire(u, t, later)
    ensures UpstreamInv(Deferred(u, t, later), later)
  {
    assert Outstanding(u, t);
    var u' := Deferred(u, t, later);
    assert forall x :: Outstanding(u', x) ==> Outstanding(u, x) && x != t;
  }

  // ---------------------------------------------------------------- late timers

  /** Consecutive dispatches are crowded by nothing but a deferred dispatch that runs while the
      window is still closed, which takes a timer that ran late and was overtaken. */
  lemma OnlyOvertakenTimersCrowd(u: Upstream, t: nat, now: int)
    requires UpstreamInv(u, now) && SpacedByOne(u.dispatched, u.minInterval) && u.dispatched != []
    ensures SpacedByOne(Scheduled(u, now).dispatched, u.minInterval)
    ensures CanFire(u, t, now) ==>
      && (SpacedByOne(Deferred(u, t, now).dispatched, u.minInterval) <==> WindowPassed(u, now))
      && (u.timers[t].due == u.last + u.minInterval ==> WindowPassed(u, now))
  {
    if CanFire(u, t, now) {
      var n := |u.dispatched|;
      var d := Deferred(u, t, now).dispatched;
      assert d[n - 1] == u.last && d[n] == now;
    }
  }

  /** It does happen: with an interval of 10, a timer due at 110 that runs at 111, just after a
      state change, repeats the dispatch with no time between. */
  lemma LateTimerCrowds()
    ensures var u := Scheduled(Scheduled(Scheduled(Fresh(10), 100), 105), 111);
      && CanFire(u, 0, 111)
      && Deferred(u, 0, 111).dispatched == [100, 111, 111]
  {
  }

  /** A last-notify time of zero makes the first dispatch immediate only once the clock has
      come as far as the interval; on a younger clock the first change waits for a timer. */
  lemma FirstDispatchIsImmediate(minInterval: int, now: int)
    ensures Scheduled(Fresh(minInterval), now).dispatched == (if minInterval <= now then [now] else [])
    ensures now < minInterval ==> Scheduled(Fresh(minInterval), now).timers == [Timer(minInterval, true)]
  {
  }

  /** For one: an interval of 10 on a clock at 3. */
  lemma FirstDispatchWaits()
    ensures Scheduled(Fresh(10), 3).dispatched == []
    ensures Scheduled(Fresh(10), 3).pending && Scheduled(Fresh(10), 3).timers == [Timer(10, true)]
  {
    FirstDispatchIsImmediate(10, 3);
  }

  // ---------------------------------------------------------------- prompt timers

  ghost predicate PromptInv(u: Upstream, now: int) {
    && UpstreamInv(u, now)
    && SpacedByOne(u.dispatched, u.minInterval)
    && (forall t :: Outstanding(u, t) ==> u.timers[t].due == u.last + u.minInterval)
  }

  lemma PromptScheduled(u: Upstream, now: int, later: int)
    requires PromptInv(u, now) && now <= later
    requires forall x :: Outstanding(u, x) ==> later < u.timers[x].due
    ensures PromptInv(Scheduled(u, later), later)
  {
    SchedulePreserves(u, now, later);
    hide SpacedByTwo, Monotone;
    var u' := Scheduled(u, later);
    assert forall x :: Outstanding(u', x) && x < |u.timers| ==> Outstanding(u, x);
  }

  lemma PromptDeferred(u: Upstream, t: nat, now: int, later: int)
    requires PromptInv(u, now) && now <= later && CanFire(u, t, later)
    ensures PromptInv(Deferred(u, t, later), later)
  {
  }
}
