/** How late a state change can reach a subscriber: one interval of the package's own rate
    filter, and then one of the subscription's, each as much longer as its timer runs late. */
module Deadline {
  import opened Prelude
  import opened StateStore
  import opened RateFilter
  import opened SipModel
  import opened SipInvariant
  import opened Pipeline
  import opened PipelineTheorems

  /** When the versions of one package were written, the initial one at startup, and the last
      version that was dispatched. */
  datatype Account = Account(times: seq<int>, sent: nat)

  function Noted(s: System, s': System, pkg: Package, a: Account): Account {
    Account(
      if |s'.log.Of(pkg)| > |s.log.Of(pkg)| then a.times + [s'.now] else a.times,
      if |Up(s', pkg).dispatched| > |Up(s, pkg).dispatched| then |s'.log.Of(pkg)| - 1 else a.sent)
  }

  /** The account at the end of a run. */
  function AccountOf(s: System, evs: seq<Timed>, pkg: Package, a: Account): Account
    requires ValidRun(s, evs)
    decreases |evs|
  {
    if evs == [] then a
    else
      var s' := Step(s, evs[0].now, evs[0].event);
      AccountOf(s', evs[1..], pkg, Noted(s, s', pkg, a))
  }

  // ---------------------------------------------------------------- timers that run late

  /** No timer is left waiting for more than `late` after its deadline. */
  ghost predicate NotTooLate(s: System, now: int, late: nat) {
    && (forall pkg, t :: Outstanding(Up(s, pkg), t) ==> now <= Up(s, pkg).timers[t].due + late)
    && (forall i, t :: 0 <= i < |s.sip.subs| && Live(s.sip.subs[i], t) ==> now <= s.sip.subs[i].queue[t].due + late)
  }

  ghost predicate LateRun(s: System, evs: seq<Timed>, late: nat)
    requires ValidRun(s, evs)
    decreases |evs|
  {
    evs == [] || (NotTooLate(s, evs[0].now, late) && LateRun(Step(s, evs[0].now, evs[0].event), evs[1..], late))
  }

  // ---------------------------------------------------------------- invariant

  function NotNegative(n: int): int {
    if n < 0 then 0 else n
  }

  /** A version not dispatched yet was written after the last dispatch, and a dispatch is due. */
  ghost predicate UpstreamOnTime(u: Upstream, now: int, a: Account, late: nat) {
    && a.sent < |a.times|
    && (a.sent < |a.times| - 1 ==> u.pending)
    && (forall v :: a.sent < v < |a.times| ==> u.last <= a.times[v])
    && (forall v :: 0 <= v < |a.times| ==> a.times[v] <= now)
    && (forall t :: Outstanding(u, t) ==>
          now <= u.timers[t].due + late && u.timers[t].due <= u.last + NotNegative(u.minInterval))
  }

  /** The subscriber has seen version `v` or a later one, or has one queued. */
  ghost predicate Reaches(s: Sip, i: nat, v: nat)
    requires i < |s.subs|
  {
    var h := Only(s.trace, Object(i));
    || (h != [] && v <= h[|h| - 1].shown.version)
    || (s.subs[i].pending.Some? && v <= s.subs[i].pending.value.version)
  }

  /** A NOTIFY shows every version written more than `wait` before it. */
  ghost predicate ShownOnTime(n: Notify, wait: int, a: Account) {
    forall v :: 0 <= v < |a.times| && a.times[v] + wait < n.at ==> v <= n.shown.version
  }

  /** How long a version can wait for its dispatch. */
  function Wait(u: Upstream, late: nat): nat {
    NotNegative(u.minInterval) + late
  }

  ghost predicate AllReach(s: Sip, now: int, pkg: Package, v: nat) {
    forall i :: Current(s, i) && !Expired(s.subs[i], now) && s.subs[i].pkg == pkg ==> Reaches(s, i, v)
  }

  /** A rate-filtered subscription that can be served had its last NOTIFY recently. */
  ghost predicate AllHeard(s: Sip, now: int, late: nat) {
    forall i :: Current(s, i) && !Expired(s.subs[i], now) && s.subs[i].minInterval > 0
      ==> now <= s.subs[i].last + s.subs[i].minInterval + late
  }

  ghost predicate OnTime(s: System, pkg: Package, a: Account, late: nat) {
    && |a.times| == |s.log.Of(pkg)|
    && UpstreamOnTime(Up(s, pkg), s.now, a, late)
    && AllReach(s.sip, s.now, pkg, a.sent)
    && AllHeard(s.sip, s.now, late)
    && (forall n :: n in s.sip.trace && n.pkg == pkg ==> ShownOnTime(n, Wait(Up(s, pkg), late), a))
  }

  // ---------------------------------------------------------------- the upstream stage

  /** What a step does to one package: nothing, a write that schedules, or a deferred dispatch. */
  lemma UpstreamAndLog(s: System, now: int, e: Event, pkg: Package)
    requires Enabled(s, now, e)
    ensures var s' := Step(s, now, e);
      var u, u', log, log' := Up(s, pkg), Up(s', pkg), s.log.Of(pkg), s'.log.Of(pkg);
      || (u' == u && log' == log)
      || (!RunsTimer(e) && u' == Scheduled(u, now) && |log'| == |log| + 1)
      || (e.DeferredDispatch? && e.pkg == pkg && u' == Deferred(u, e.timer, now) && log' == log)
  {
    hide FanOut, Subscribe, TimerFired, Cleanup, ElementNotifyBody, ServiceNotifyBody;
  }

  lemma WriteStaysOnTime(u: Upstream, now: int, later: int, a: Account, late: nat)
    requires UpstreamInv(u, now) && UpstreamOnTime(u, now, a, late) && now <= later
    requires forall t :: Outstanding(u, t) ==> later <= u.timers[t].due + late
    ensures var u' := Scheduled(u, later);
      var sends := |u'.dispatched| > |u.dispatched|;
      UpstreamOnTime(u', later, Account(a.times + [later], if sends then |a.times| else a.sent), late)
  {
    hide SpacedByTwo, Monotone;
    var u' := Scheduled(u, later);
    assert forall t :: Outstanding(u', t) && t < |u.timers| ==> Outstanding(u, t);
  }

  lemma DispatchStaysOnTime(u: Upstream, t: nat, now: int, later: int, a: Account, late: nat)
    requires UpstreamInv(u, now) && UpstreamOnTime(u, now, a, late) && now <= later && CanFire(u, t, later)
    requires forall x :: Outstanding(u, x) ==> later <= u.timers[x].due + late
    ensures UpstreamOnTime(Deferred(u, t, later), later, a.(sent := |a.times| - 1), late)
  {
    hide SpacedByTwo, Monotone;
    var u' := Deferred(u, t, later);
    assert forall x :: Outstanding(u', x) ==> Outstanding(u, x);
  }

  lemma UpstreamStaysOnTime(s: System, now: int, e: Event, pkg: Package, a: Account, late: nat)
    requires UpstreamInv(Up(s, pkg), s.now) && Enabled(s, now, e) && NotTooLate(s, now, late)
    requires |a.times| == |s.log.Of(pkg)| && UpstreamOnTime(Up(s, pkg), s.now, a, late)
    ensures var s' := Step(s, now, e); var a' := Noted(s, s', pkg, a);
      && |a'.times| == |s'.log.Of(pkg)| && UpstreamOnTime(Up(s', pkg), now, a', late)
      && (|Up(s', pkg).dispatched| <= |Up(s, pkg).dispatched| ==> a'.sent == a.sent)
  {
    UpstreamAndLog(s, now, e, pkg);
    var s' := Step(s, now, e);
    assert s'.now == now;
    var u := Up(s, pkg);
    assert s.now <= now && forall t :: Outstanding(u, t) ==> now <= u.timers[t].due + late;
    if !RunsTimer(e) {
      WriteStaysOnTime(u, s.now, now, a, late);
    } else if e.DeferredDispatch? && e.pkg == pkg {
      DispatchStaysOnTime(u, e.timer, s.now, now, a, late);
    }
    hide Step, Enabled, NotTooLate, Scheduled, Deferred, UpstreamInv;
  }

  /** What has waited long enough has been dispatched. */
  lemma OldIsSent(u: Upstream, now: int, a: Account, v: nat, late: nat)
    requires UpstreamInv(u, now) && UpstreamOnTime(u, now, a, late)
    requires v < |a.times| && a.times[v] + Wait(u, late) < now
    ensures v <= a.sent
  {
  }

  // ---------------------------------------------------------------- the subscriptions

  /** The NOTIFYs that a step adds for a package show version `v` or a later one. */
  ghost predicate NewShow(before: Sip, after: Sip, pkg: Package, v: nat) {
    && before.trace <= after.trace
    && forall j :: |before.trace| <= j < |after.trace| && after.trace[j].pkg == pkg ==> v <= after.trace[j].shown.version
  }

  lemma {:induction false} FanOutKeysShow(s: Sip, keys: seq<string>, pkg: Package, b: Stamped, now: int)
    ensures var s' := FanOutKeys(s, keys, pkg, b, now);
      && s.trace <= s'.trace
      && forall j :: |s.trace| <= j < |s'.trace| ==> s'.trace[j].pkg == pkg && s'.trace[j].shown == b
    decreases |keys|
  {
    if keys != [] {
      FanOutKeysShow(FanOutKey(s, keys[0], pkg, b, now), keys[1..], pkg, b, now);
    }
  }

  /** What the other events do to the SIP notifier: nothing, or a fan-out of what is dispatched. */
  lemma FansOutExactly(s: System, now: int, e: Event)
    requires Enabled(s, now, e)
    requires !e.IncomingSubscribe? && !e.SubscriptionTimer? && !e.CleanupPass?
    ensures var s' := Step(s, now, e);
      s'.sip == s.sip
      || exists p: Package ::
           && s'.sip == FanOut(s.sip, p, Publishes(s').Of(p), now)
           && |Up(s', p).dispatched| > |Up(s, p).dispatched|
  {
    hide FanOut, ElementNotifyBody, ServiceNotifyBody;
    var s' := Step(s, now, e);
    if s'.sip != s.sip {
      var p := match e
        case SetElementState(_, _) => ElementPackage
        case DeferredDispatch(p, _) => p
        case _ => ServicePackage;
      assert s'.sip == FanOut(s.sip, p, Publishes(s').Of(p), now);
    }
  }

  lemma PublishedVersion(s: System, pkg: Package)
    ensures Publishes(s).Of(pkg).version == |s.log.Of(pkg)| - 1
  {
  }

  /** A queued body is no older than what has been dispatched. */
  lemma QueuedIsSent(s: System, pkg: Package, a: Account, i: nat, late: nat)
    requires Inv(s) && OnTime(s, pkg, a, late) && Current(s.sip, i) && !Expired(s.sip.subs[i], s.now)
    requires s.sip.subs[i].pkg == pkg && s.sip.subs[i].pending.Some?
    ensures a.sent <= s.sip.subs[i].pending.value.version
  {
    assert SubOk(s.sip, i, s.now, s.log) && Reaches(s.sip, i, a.sent);
    var h := Only(s.sip.trace, Object(i));
    assert h != [] && PendingOk(s.sip.subs[i], s.sip.trace, s.log);
    TraceBelongs(s);
    hide Inv, OnTime, SubOk, Only, UpstreamOnTime;
    OnlyMember(s.sip.trace, Object(i), |h| - 1);
  }

  lemma TimerShows(s: System, now: int, i: nat, t: nat, pkg: Package, a: Account, late: nat)
    requires Inv(s) && OnTime(s, pkg, a, late) && Enabled(s, now, Event.SubscriptionTimer(i, t))
    ensures NewShow(s.sip, TimerFired(s.sip, i, t, Publishes(s.(now := now)), now), pkg, a.sent)
  {
    var sub := s.sip.subs[i];
    if !Expired(sub, now) {
      LiveIsCurrent(s, now, i, t);
    }
    PublishedVersion(s.(now := now), pkg);
    assert a.sent < |s.log.Of(pkg)| && s.now <= now;
    if !Expired(sub, now) && sub.pkg == pkg && sub.pending.Some? {
      QueuedIsSent(s, pkg, a, i, late);
    }
    hide Inv, OnTime, Enabled, Publishes;
  }

  lemma LiveIsCurrent(s: System, now: int, i: nat, t: nat)
    requires Inv(s) && Enabled(s, now, Event.SubscriptionTimer(i, t)) && !Expired(s.sip.subs[i], now)
    ensures Current(s.sip, i)
  {
    ClockAdvances(s, now);
    TimerPreserves(s.sip, i, t, now, s.log);
    hide SipInv, TimerFired;
  }

  lemma StepShows(s: System, now: int, e: Event, pkg: Package, a: Account, late: nat)
    requires Inv(s) && OnTime(s, pkg, a, late) && Enabled(s, now, e)
    requires Noted(s, Step(s, now, e), pkg, a).sent < |Step(s, now, e).log.Of(pkg)|
    requires var s' := Step(s, now, e);
      |Up(s', pkg).dispatched| <= |Up(s, pkg).dispatched| ==> Noted(s, s', pkg, a).sent == a.sent
    ensures NewShow(s.sip, Step(s, now, e).sip, pkg, Noted(s, Step(s, now, e), pkg, a).sent)
  {
    var s' := Step(s, now, e);
    PublishedVersion(s', pkg);
    if e.IncomingSubscribe? {
      SubscribeShows(s, now, e.request, pkg);
    } else if e.SubscriptionTimer? {
      TimerShows(s, now, e.sub, e.timer, pkg, a, late);
    } else if !e.CleanupPass? {
      FansOutExactly(s, now, e);
      hide Inv, Step, OnTime, Noted, Enabled;
      if s'.sip != s.sip {
        var p: Package :| s'.sip == FanOut(s.sip, p, Publishes(s').Of(p), now);
        FanOutKeysShow(s.sip, s.sip.table.order, p, Publishes(s').Of(p), now);
      }
    }
  }

  lemma SubscribeShows(s: System, now: int, r: Request, pkg: Package)
    ensures NewShow(s.sip, Subscribe(s.sip, r, Publishes(s.(now := now)), now), pkg, |s.log.Of(pkg)| - 1)
  {
    PublishedVersion(s.(now := now), pkg);
  }

  /** A queued body changes only when its package is dispatched or the object is notified. */
  lemma QueueKept(s: System, now: int, e: Event, i: nat)
    requires Enabled(s, now, e) && i < |s.sip.subs|
    requires var p := s.sip.subs[i].pkg; |Up(Step(s, now, e), p).dispatched| <= |Up(s, p).dispatched|
    ensures var t := Step(s, now, e).sip;
      && i < |t.subs|
      && (t.subs[i].pending == s.sip.subs[i].pending || Only(t.trace, Object(i)) != Only(s.sip.trace, Object(i)))
  {
    var s' := Step(s, now, e);
    if e.IncomingSubscribe? {
      SubscribeQueue(s.sip, e.request, Publishes(s.(now := now)), now, i);
    } else if e.SubscriptionTimer? {
      TimerQueue(s.sip, e.sub, e.timer, Publishes(s.(now := now)), now, i);
    } else if !e.CleanupPass? {
      FansOutExactly(s, now, e);
      hide Step, Enabled;
      if s'.sip != s.sip {
        var p: Package :|
          s'.sip == FanOut(s.sip, p, Publishes(s').Of(p), now) && |Up(s', p).dispatched| > |Up(s, p).dispatched|;
        FanOutKeysOther(s.sip, s.sip.table.order, p, Publishes(s').Of(p), now, i);
      }
    }
  }

  lemma SubscribeQueue(s: Sip, r: Request, pub: Published, now: int, i: nat)
    requires i < |s.subs|
    ensures i < |Subscribe(s, r, pub, now).subs| && Subscribe(s, r, pub, now).subs[i].pending == s.subs[i].pending
  {
  }

  lemma TimerQueue(s: Sip, j: nat, t: nat, pub: Published, now: int, i: nat)
    requires j < |s.subs| && t < |s.subs[j].queue| && i < |s.subs|
    ensures var s' := TimerFired(s, j, t, pub, now);
      && i < |s'.subs|
      && (s'.subs[i].pending == s.subs[i].pending || Only(s'.trace, Object(i)) != Only(s.trace, Object(i)))
  {
    var sub := s.subs[j];
    if !Expired(sub, now) && i == j {
      var b := if sub.pending.Some? then sub.pending.value else pub.Of(sub.pkg);
      OnlyAppend(s.trace, NotifyOf(RanTimer(s, j, t).subs[j], j, b, now), Object(i));
    }
    hide Only;
  }

  /** The newest NOTIFY of an object is one that the step added, or nothing was added. */
  lemma NewestShows(s: Sip, s': Sip, pkg: Package, v: nat, i: nat, now: int)
    requires NewShow(s, s', pkg, v) && i < |s'.subs| && s'.subs[i].pkg == pkg
    requires forall n :: n in s'.trace ==> Belongs(n, s', now)
    ensures var h := Only(s'.trace, Object(i));
      h == Only(s.trace, Object(i)) || (h != [] && v <= h[|h| - 1].shown.version)
  {
    var ext := s'.trace[|s.trace|..];
    assert s'.trace == s.trace + ext;
    OnlyConcat(s.trace, ext, Object(i));
    var x := Only(ext, Object(i));
    if x != [] {
      OnlyMember(ext, Object(i), |x| - 1);
      var k :| 0 <= k < |ext| && ext[k] == x[|x| - 1];
      assert s'.trace[|s.trace| + k] == x[|x| - 1];
      assert Belongs(x[|x| - 1], s', now);
    } else {
      assert Only(s.trace, Object(i)) + x == Only(s.trace, Object(i));
    }
  }

  /** From before a step to after it, for one object. */
  lemma ReachAfter(s: Sip, s': Sip, v: nat, i: nat)
    requires i < |s'.subs| && Only(s'.trace, Object(i)) != []
    requires var h, h' := Only(s.trace, Object(i)), Only(s'.trace, Object(i));
      && (h' == h || v <= h'[|h'| - 1].shown.version)
      && (i >= |s.subs| ==> h == [])
      && (i < |s.subs| ==> Reaches(s, i, v) && (s'.subs[i].pending == s.subs[i].pending || h' != h))
    ensures Reaches(s', i, v)
  {
    hide Only;
  }

  lemma HasHistory(s: System, i: nat)
    requires Inv(s) && i < |s.sip.subs|
    ensures Only(s.sip.trace, Object(i)) != []
  {
    assert SubOk(s.sip, i, s.now, s.log);
    hide Only;
  }

  lemma NoHistoryYet(s: System, i: nat)
    requires Inv(s) && i >= |s.sip.subs|
    ensures Only(s.sip.trace, Object(i)) == []
  {
    assert forall n :: n in s.sip.trace ==> Belongs(n, s.sip, s.now);
    OnlyNone(s.sip.trace, Object(i));
  }

  lemma TraceBelongs(s: System)
    requires Inv(s)
    ensures forall n :: n in s.sip.trace ==> Belongs(n, s.sip, s.now)
  {
  }

  lemma StepTime(s: System, now: int, e: Event)
    requires Enabled(s, now, e)
    ensures Step(s, now, e).now == now && s.now <= now
  {
    hide FanOut, Subscribe, TimerFired, Cleanup, Scheduled, Deferred;
  }

  lemma ReachStays(s: System, now: int, e: Event, pkg: Package, v: nat, i: nat)
    requires Inv(s) && Enabled(s, now, e) && Inv(Step(s, now, e))
    requires AllReach(s.sip, s.now, pkg, v) && NewShow(s.sip, Step(s, now, e).sip, pkg, v)
    requires |Up(Step(s, now, e), pkg).dispatched| <= |Up(s, pkg).dispatched|
    requires var s' := Step(s, now, e).sip; Current(s', i) && !Expired(s'.subs[i], now) && s'.subs[i].pkg == pkg
    ensures Reaches(Step(s, now, e).sip, i, v)
  {
    hide Inv, Step, NewShow, Enabled, Belongs, Reaches, Only, Matches;
    StepTime(s, now, e);
    var s' := Step(s, now, e);
    TraceBelongs(s');
    HasHistory(s', i);
    NewestShows(s.sip, s'.sip, pkg, v, i, now);
    StepFrame(s, now, e);
    if i < |s.sip.subs| {
      PackageKept(s, now, e, i);
      QueueKept(s, now, e, i);
    } else {
      NoHistoryYet(s, i);
    }
    ReachAfter(s.sip, s'.sip, v, i);
  }

  lemma PackageKept(s: System, now: int, e: Event, i: nat)
    requires Enabled(s, now, e) && i < |s.sip.subs|
    ensures i < |Step(s, now, e).sip.subs| && Step(s, now, e).sip.subs[i].pkg == s.sip.subs[i].pkg
  {
    if !e.IncomingSubscribe? && !e.SubscriptionTimer? && !e.CleanupPass? {
      FansOutExactly(s, now, e);
      var s' := Step(s, now, e);
      hide Step;
      if s'.sip != s.sip {
        var p: Package :| s'.sip == FanOut(s.sip, p, Publishes(s').Of(p), now);
        FanOutKeysFrame(s.sip, s.sip.table.order, p, Publishes(s').Of(p), now);
      }
    }
  }

  // ---------------------------------------------------------------- steps and runs

  lemma LogsGrow(s: System, now: int, e: Event)
    requires Enabled(s, now, e)
    ensures forall pkg :: s.log.Of(pkg) <= Step(s, now, e).log.Of(pkg)
  {
    hide FanOut, Subscribe, TimerFired, Cleanup, ElementNotifyBody, ServiceNotifyBody;
  }

  /** A step that dispatches a package fans it out as it then stands. */
  lemma DispatchFansOut(s: System, now: int, e: Event, pkg: Package)
    requires Enabled(s, now, e) && |Up(Step(s, now, e), pkg).dispatched| > |Up(s, pkg).dispatched|
    ensures Step(s, now, e).sip == FanOut(s.sip, pkg, Publishes(Step(s, now, e)).Of(pkg), now)
  {
    hide FanOut, Subscribe, TimerFired, Cleanup, ElementNotifyBody, ServiceNotifyBody;
  }

  lemma DispatchReaches(s: System, now: int, e: Event, pkg: Package, v: nat)
    requires Inv(s) && Enabled(s, now, e) && Inv(Step(s, now, e)) && v < |Step(s, now, e).log.Of(pkg)|
    requires |Up(Step(s, now, e), pkg).dispatched| > |Up(s, pkg).dispatched|
    ensures AllReach(Step(s, now, e).sip, now, pkg, v)
  {
    var s' := Step(s, now, e);
    DispatchFansOut(s, now, e, pkg);
    LogsGrow(s, now, e);
    StepTime(s, now, e);
    hide Step, Enabled, SipInv, UpstreamInv, FanOut, NothingLost;
    assert Publishes(s').Of(pkg) == s'.log.Last(pkg);
    TimePasses(s.sip, s.now, now, s.log);
    NewVersion(s.sip, now, s.log, s'.log);
    FanOutPreserves(s.sip, pkg, now, s'.log);
    FreshReaches(s'.sip, now, pkg, s'.log, v);
  }

  lemma FreshReaches(s: Sip, now: int, pkg: Package, log: Logs, v: nat)
    requires AllUpToDate(s, now, pkg, log.Last(pkg)) && v < |log.Of(pkg)|
    ensures AllReach(s, now, pkg, v)
  {
    hide Only;
  }

  lemma ReachStep(s: System, now: int, e: Event, pkg: Package, a: Account, late: nat)
    requires Inv(s) && Enabled(s, now, e) && Inv(Step(s, now, e)) && OnTime(s, pkg, a, late)
    requires NewShow(s.sip, Step(s, now, e).sip, pkg, Noted(s, Step(s, now, e), pkg, a).sent)
    requires var s' := Step(s, now, e); var a' := Noted(s, s', pkg, a);
      && a'.sent < |s'.log.Of(pkg)|
      && (|Up(s', pkg).dispatched| <= |Up(s, pkg).dispatched| ==> a'.sent == a.sent)
    ensures AllReach(Step(s, now, e).sip, now, pkg, Noted(s, Step(s, now, e), pkg, a).sent)
  {
    var s' := Step(s, now, e);
    assert s'.now == now && AllReach(s.sip, s.now, pkg, a.sent);
    hide Inv, Step, OnTime, NewShow, Enabled, Noted;
    if |Up(s', pkg).dispatched| > |Up(s, pkg).dispatched| {
      DispatchReaches(s, now, e, pkg, Noted(s, s', pkg, a).sent);
    } else {
      forall i | Current(s'.sip, i) && !Expired(s'.sip.subs[i], now) && s'.sip.subs[i].pkg == pkg
        ensures Reaches(s'.sip, i, a.sent)
      {
        ReachStays(s, now, e, pkg, a.sent, i);
      }
    }
  }

  /** A served subscription's own timer is due one interval after its last NOTIFY. */
  lemma OwnTimer(s: System, now: int, i: nat, late: nat)
    requires Inv(s) && NotTooLate(s, now, late) && s.now <= now
    requires Current(s.sip, i) && !Expired(s.sip.subs[i], s.now) && s.sip.subs[i].minInterval > 0
    ensures now <= s.sip.subs[i].last + s.sip.subs[i].minInterval + late
  {
    assert SubOk(s.sip, i, s.now, s.log);
    assert Live(s.sip.subs[i], s.sip.subs[i].handle.value);
    hide SipInv, TraceOk, UpstreamInv, NothingLost;
  }

  lemma LastIsNewest(s: System, i: nat)
    requires Inv(s) && i < |s.sip.subs|
    ensures var h := Only(s.sip.trace, Object(i)); h != [] && h[|h| - 1].at == s.sip.subs[i].last
  {
    assert SubOk(s.sip, i, s.now, s.log);
    hide Only;
  }

  lemma HeardStep(s: System, now: int, e: Event, late: nat)
    requires Inv(s) && Enabled(s, now, e) && Inv(Step(s, now, e)) && NotTooLate(s, now, late)
    ensures AllHeard(Step(s, now, e).sip, now, late)
  {
    hide Inv, Step, Enabled, SendsOnlyToCurrent, SameObjects, NotTooLate;
    StepSends(s, now, e);
    StepFrame(s, now, e);
    StepTime(s, now, e);
    var s' := Step(s, now, e);
    forall i | Current(s'.sip, i) && !Expired(s'.sip.subs[i], now) && s'.sip.subs[i].minInterval > 0
      ensures now <= s'.sip.subs[i].last + s'.sip.subs[i].minInterval + late
    {
      HeardAfter(s, s', i, late);
    }
  }

  lemma HeardAfter(s: System, s': System, i: nat, late: nat)
    requires Inv(s) && Inv(s') && s.now <= s'.now && NotTooLate(s, s'.now, late)
    requires SendsOnlyToCurrent(s.sip, s'.sip, s'.now) && SameObjects(s.sip, s'.sip)
    requires Current(s'.sip, i) && !Expired(s'.sip.subs[i], s'.now) && s'.sip.subs[i].minInterval > 0
    ensures s'.now <= s'.sip.subs[i].last + s'.sip.subs[i].minInterval + late
  {
    hide Inv, SendsOnlyToCurrent, NotTooLate, Only;
    var x := NewNotifies(s.sip, s'.sip, s'.now, i);
    LastIsNewest(s', i);
    var h, h' := Only(s.sip.trace, Object(i)), Only(s'.sip.trace, Object(i));
    if x == [] {
      assert h + x == h;
      if i >= |s.sip.subs| {
        NoHistoryYet(s, i);
        assert false;
      }
      LastIsNewest(s, i);
      OwnTimer(s, s'.now, i, late);
    } else {
      assert h'[|h'| - 1] == x[|x| - 1];
    }
  }

  /** The NOTIFYs already sent do not depend on later writes; the new ones show all that has
      been dispatched, and with it all that has waited long enough. */
  lemma TraceStep(s: System, s': System, now: int, pkg: Package, a: Account, n: Notify, late: nat)
    requires Inv(s) && OnTime(s, pkg, a, late) && s'.now == now && s.now <= now && n in s'.sip.trace && n.pkg == pkg
    requires UpstreamInv(Up(s', pkg), now) && Up(s', pkg).minInterval == Up(s, pkg).minInterval
    requires var a' := Noted(s, s', pkg, a);
      UpstreamOnTime(Up(s', pkg), now, a', late) && NewShow(s.sip, s'.sip, pkg, a'.sent)
    requires forall m :: m in s'.sip.trace ==> m.at <= now
    ensures ShownOnTime(n, Wait(Up(s', pkg), late), Noted(s, s', pkg, a))
  {
    var a' := Noted(s, s', pkg, a);
    if n in s.sip.trace {
      assert ShownOnTime(n, Wait(Up(s, pkg), late), a);
      assert Belongs(n, s.sip, s.now);
    } else {
      var j :| 0 <= j < |s'.sip.trace| && s'.sip.trace[j] == n;
      assert forall k :: 0 <= k < |s.sip.trace| ==> s.sip.trace[k] == s'.sip.trace[k];
      assert a'.sent <= n.shown.version;
      hide Inv, OnTime, UpstreamInv, UpstreamOnTime, Noted;
      forall v | 0 <= v < |a'.times| && a'.times[v] + Wait(Up(s', pkg), late) < n.at
        ensures v <= n.shown.version
      {
        OldIsSent(Up(s', pkg), now, a', v, late);
      }
    }
  }

  lemma IntervalKept(s: System, now: int, e: Event, pkg: Package)
    requires Enabled(s, now, e)
    ensures Up(Step(s, now, e), pkg).minInterval == Up(s, pkg).minInterval
  {
    UpstreamAndLog(s, now, e, pkg);
    hide Step;
  }

  lemma InvParts(s: System, pkg: Package)
    requires Inv(s)
    ensures UpstreamInv(Up(s, pkg), s.now) && forall n :: n in s.sip.trace ==> n.at <= s.now
  {
    TraceBelongs(s);
    hide UpstreamInv, SipInv, NothingLost;
  }

  lemma OnTimeStep(s: System, now: int, e: Event, pkg: Package, a: Account, late: nat)
    requires Inv(s) && Enabled(s, now, e) && NotTooLate(s, now, late) && OnTime(s, pkg, a, late)
    ensures OnTime(Step(s, now, e), pkg, Noted(s, Step(s, now, e), pkg, a), late)
  {
    var s' := Step(s, now, e);
    var a' := Noted(s, s', pkg, a);
    assert UpstreamOnTime(Up(s, pkg), s.now, a, late);
    hide Inv, Step, Enabled, NotTooLate, UpstreamInv, NewShow, UpstreamOnTime, AllReach, AllHeard, ShownOnTime, Noted;
    StepTime(s, now, e);
    StepInv(s, now, e);
    InvParts(s, pkg);
    InvParts(s', pkg);
    UpstreamStaysOnTime(s, now, e, pkg, a, late);
    SentIsWritten(Up(s', pkg), now, a', late);
    IntervalKept(s, now, e, pkg);
    StepShows(s, now, e, pkg, a, late);
    ReachStep(s, now, e, pkg, a, late);
    HeardStep(s, now, e, late);
    forall n | n in s'.sip.trace && n.pkg == pkg ensures ShownOnTime(n, Wait(Up(s', pkg), late), a') {
      TraceStep(s, s', now, pkg, a, n, late);
    }
  }

  lemma SentIsWritten(u: Upstream, now: int, a: Account, late: nat)
    requires UpstreamOnTime(u, now, a, late)
    ensures a.sent < |a.times|
  {
  }

  lemma {:induction false} OnTimeRun(s: System, evs: seq<Timed>, pkg: Package, a: Account, late: nat)
    requires Inv(s) && ValidRun(s, evs) && LateRun(s, evs, late) && OnTime(s, pkg, a, late)
    ensures Inv(Run(s, evs)) && OnTime(Run(s, evs), pkg, AccountOf(s, evs, pkg, a), late)
    decreases |evs|
  {
    hide Inv, OnTime, Step, Noted, Enabled, NotTooLate;
    if evs != [] {
      StepInv(s, evs[0].now, evs[0].event);
      OnTimeStep(s, evs[0].now, evs[0].event, pkg, a, late);
      var s' := Step(s, evs[0].now, evs[0].event);
      OnTimeRun(s', evs[1..], pkg, Noted(s, s', pkg, a), late);
    }
  }

  lemma StartIsOnTime(s: System, pkg: Package, late: nat)
    requires IsStart(s)
    ensures Inv(s) && OnTime(s, pkg, Account([s.now], 0), late)
  {
    var cfg, el, v, ei, si, cap, now :| 0 <= now && s == Started(cfg, el, v, ei, si, cap, now);
    StartedInv(cfg, el, v, ei, si, cap, now);
  }

  /** A state change reaches every subscriber in time, through both coalescing stages, if no
      timer runs more than `late` after its deadline: whoever is current and unexpired more than
      the package's interval plus the subscription's own plus twice `late` after version `v` was
      written has been shown `v` or a later one. */
  lemma ShownByDeadline(s0: System, evs: seq<Timed>, late: nat, pkg: Package, i: nat, v: nat)
    requires IsStart(s0) && ValidRun(s0, evs) && LateRun(s0, evs, late)
    requires var s := Run(s0, evs);
      Current(s.sip, i) && !Expired(s.sip.subs[i], s.now) && s.sip.subs[i].pkg == pkg
    requires var s, a := Run(s0, evs), AccountOf(s0, evs, pkg, Account([s0.now], 0));
      && v < |a.times|
      && a.times[v] + NotNegative(Up(s, pkg).minInterval) + NotNegative(s.sip.subs[i].minInterval) + 2 * late < s.now
    ensures var s, a := Run(s0, evs), AccountOf(s0, evs, pkg, Account([s0.now], 0));
      var h := Only(s.sip.trace, Object(i));
      && |a.times| == |s.log.Of(pkg)|
      && h != [] && v <= h[|h| - 1].shown.version
  {
    StartIsOnTime(s0, pkg, late);
    OnTimeRun(s0, evs, pkg, Account([s0.now], 0), late);
    hide ValidRun, Run, LateRun, AccountOf, IsStart;
    var s, a := Run(s0, evs), AccountOf(s0, evs, pkg, Account([s0.now], 0));
    LastIsOnTime(s, pkg, a, i, v, late);
  }

  lemma LastIsOnTime(s: System, pkg: Package, a: Account, i: nat, v: nat, late: nat)
    requires Inv(s) && OnTime(s, pkg, a, late)
    requires Current(s.sip, i) && !Expired(s.sip.subs[i], s.now) && s.sip.subs[i].pkg == pkg
    requires v < |a.times|
    requires a.times[v] + NotNegative(Up(s, pkg).minInterval) + NotNegative(s.sip.subs[i].minInterval) + 2 * late < s.now
    ensures var h := Only(s.sip.trace, Object(i)); h != [] && v <= h[|h| - 1].shown.version
  {
    if s.sip.subs[i].minInterval > 0 {
      FilteredIsOnTime(s, pkg, a, i, v, late);
    } else {
      LastIsNewest(s, i);
      NothingQueued(s, i);
      assert Reaches(s.sip, i, a.sent);
      InvParts(s, pkg);
      hide Inv, Only, UpstreamInv, UpstreamOnTime, AllReach;
      OldIsSent(Up(s, pkg), s.now, a, v, late);
    }
  }

  lemma FilteredIsOnTime(s: System, pkg: Package, a: Account, i: nat, v: nat, late: nat)
    requires Inv(s) && OnTime(s, pkg, a, late)
    requires Current(s.sip, i) && !Expired(s.sip.subs[i], s.now) && s.sip.subs[i].pkg == pkg
    requires v < |a.times| && s.sip.subs[i].minInterval > 0
    requires a.times[v] + NotNegative(Up(s, pkg).minInterval) + s.sip.subs[i].minInterval + 2 * late < s.now
    ensures var h := Only(s.sip.trace, Object(i)); h != [] && v <= h[|h| - 1].shown.version
  {
    hide Inv, Only, UpstreamOnTime, AllReach;
    LastIsNewest(s, i);
    TraceBelongs(s);
    var h := Only(s.sip.trace, Object(i));
    OnlyMember(s.sip.trace, Object(i), |h| - 1);
    assert ShownOnTime(h[|h| - 1], Wait(Up(s, pkg), late), a);
  }

  lemma NothingQueued(s: System, i: nat)
    requires Inv(s) && Current(s.sip, i) && !Expired(s.sip.subs[i], s.now) && s.sip.subs[i].minInterval <= 0
    ensures s.sip.subs[i].pending.None?
  {
    assert SubOk(s.sip, i, s.now, s.log);
  }

  // ---------------------------------------------------------------- prompt timers

  lemma {:induction false} PromptIsNotLate(s: System, evs: seq<Timed>)
    requires ValidRun(s, evs) && PromptRun(s, evs)
    ensures LateRun(s, evs, 0)
    decreases |evs|
  {
    if evs != [] {
      hide Step, Enabled;
      PromptIsNotLate(Step(s, evs[0].now, evs[0].event), evs[1..]);
    }
  }

  /** With prompt timers the two intervals alone are enough. */
  lemma ShownByPromptDeadline(s0: System, evs: seq<Timed>, pkg: Package, i: nat, v: nat)
    requires IsStart(s0) && ValidRun(s0, evs) && PromptRun(s0, evs)
    requires var s := Run(s0, evs);
      Current(s.sip, i) && !Expired(s.sip.subs[i], s.now) && s.sip.subs[i].pkg == pkg
    requires var s, a := Run(s0, evs), AccountOf(s0, evs, pkg, Account([s0.now], 0));
      && v < |a.times|
      && a.times[v] + NotNegative(Up(s, pkg).minInterval) + NotNegative(s.sip.subs[i].minInterval) < s.now
    ensures var h := Only(Run(s0, evs).sip.trace, Object(i)); h != [] && v <= h[|h| - 1].shown.version
  {
    PromptIsNotLate(s0, evs);
    ShownByDeadline(s0, evs, 0, pkg, i, v);
  }
}
