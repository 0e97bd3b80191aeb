/** The whole publication pipeline as one state machine: store writes through the two
    notifiers, their deferred dispatches, SUBSCRIBEs, subscription timers and cleanup, in any
    order and at any times the clock allows. */
module Pipeline {
  import opened Prelude
  import opened StateStore
  import opened RateFilter
  import opened SipModel
  import opened SipInvariant

  datatype System = System(now: int, cfg: Config, element: ElementBundle, service: ServiceBundle,
                           elementUp: Upstream, serviceUp: Upstream, sip: Sip, log: Logs)

  datatype Event =
    | SetElementState(es: ElementState, reason: string)
    | SetServiceState(ss: ServiceState, reason: string)
    | SetSecurityPosture(posture: Posture, reason: string)
    | DeferredDispatch(pkg: Package, timer: nat)
    | IncomingSubscribe(request: Request)
    | SubscriptionTimer(sub: nat, timer: nat)
    | CleanupPass
    | Tick

  function Up(s: System, pkg: Package): Upstream {
    if pkg.ElementPackage? then s.elementUp else s.serviceUp
  }

  function WithUp(s: System, pkg: Package, u: Upstream): System {
    if pkg.ElementPackage? then s.(elementUp := u) else s.(serviceUp := u)
  }

  function CurrentBody(s: System, pkg: Package): Body {
    if pkg.ElementPackage? then ElementNotifyBody(s.cfg, s.element)
    else ServiceNotifyBody(s.cfg, s.service)
  }

  function Publishes(s: System): Published {
    Published(Stamped(CurrentBody(s, ElementPackage), |s.log.element| - 1),
              Stamped(CurrentBody(s, ServicePackage), |s.log.service| - 1))
  }

  /** `_dispatch_notify` with the SIP notifier as the registered callback. */
  function FanOutNow(s: System, pkg: Package): System {
    s.(sip := FanOut(s.sip, pkg, Publishes(s).Of(pkg), s.now))
  }

  /** `_schedule_notify` */
  function ScheduleNotify(s: System, pkg: Package): System {
    var t := WithUp(s, pkg, Scheduled(Up(s, pkg), s.now));
    if WindowPassed(Up(s, pkg), s.now) then FanOutNow(t, pkg) else t
  }

  /** A store write; the log remembers what a subscriber would now be shown. */
  function WriteElement(s: System, b: ElementBundle): System {
    s.(element := b, log := s.log.(element := s.log.element + [ElementNotifyBody(s.cfg, b)]))
  }

  function WriteService(s: System, b: ServiceBundle): System {
    s.(service := b, log := s.log.(service := s.log.service + [ServiceNotifyBody(s.cfg, b)]))
  }

  function SetElement(s: System, st: ElementState, reason: string): System {
    if s.element == ElementBundle(st, reason) then s
    else ScheduleNotify(WriteElement(s, ElementBundle(st, reason)), ElementPackage)
  }

  function SetService(s: System, st: ServiceState, reason: string): System {
    if s.service.state == st && s.service.reason == reason then s
    else ScheduleNotify(WriteService(s, s.service.(state := st, reason := reason)), ServicePackage)
  }

  function SetPosture(s: System, p: Posture, reason: string): System {
    if s.service.posture == Some(PostureBundle(p, reason)) then s
    else ScheduleNotify(WriteService(s, s.service.(posture := Some(PostureBundle(p, reason)))),
                        ServicePackage)
  }

  function RunDeferred(s: System, pkg: Package, t: nat): System
    requires t < |Up(s, pkg).timers|
  {
    FanOutNow(WithUp(s, pkg, Deferred(Up(s, pkg), t, s.now)), pkg)
  }

  /** Timers never run early and only while uncancelled; they may run late. */
  predicate Enabled(s: System, now: int, e: Event) {
    && s.now <= now
    && match e
       case DeferredDispatch(pkg, t) => CanFire(Up(s, pkg), t, now)
       case SubscriptionTimer(i, t) => CanFireSub(s.sip, i, t, now)
       case _ => true
  }

  function Step(s0: System, now: int, e: Event): System
    requires Enabled(s0, now, e)
  {
    var s := s0.(now := now);
    match e
    case SetElementState(st, reason) => SetElement(s, st, reason)
    case SetServiceState(st, reason) => SetService(s, st, reason)
    case SetSecurityPosture(p, reason) => SetPosture(s, p, reason)
    case DeferredDispatch(pkg, t) => RunDeferred(s, pkg, t)
    case IncomingSubscribe(r) => s.(sip := Subscribe(s.sip, r, Publishes(s), now))
    case SubscriptionTimer(i, t) => s.(sip := TimerFired(s.sip, i, t, Publishes(s), now))
    case CleanupPass => s.(sip := Cleanup(s.sip, now))
    case Tick => s
  }

  /** After startup: no subscription yet, whatever the stores hold. The clock is a monotonic
      one, so not negative. */
  function Started(cfg: Config, element: ElementBundle, service: ServiceBundle,
                   elementInterval: int, serviceInterval: int, capacity: int, now: int): System {
    System(now, cfg, element, service, Fresh(elementInterval), Fresh(serviceInterval),
           Sip([], Dict([], map[]), capacity, []),
           Logs([ElementNotifyBody(cfg, element)], [ServiceNotifyBody(cfg, service)]))
  }

  // ---------------------------------------------------------------- invariant

  /** What the last store write is, a dispatch is on its way, or every subscriber has it. */
  ghost predicate NothingLost(s: System, pkg: Package) {
    Up(s, pkg).pending || AllUpToDate(s.sip, s.now, pkg, Publishes(s).Of(pkg))
  }

  ghost predicate Inv(s: System) {
    && UpstreamInv(s.elementUp, s.now)
    && UpstreamInv(s.serviceUp, s.now)
    && Publishes(s) == LatestOf(s.log)
    && SipInv(s.sip, s.now, s.log)
    && NothingLost(s, ElementPackage)
    && NothingLost(s, ServicePackage)
  }

  lemma StartedInv(cfg: Config, element: ElementBundle, service: ServiceBundle,
                   elementInterval: int, serviceInterval: int, capacity: int, now: int)
    requires 0 <= now
    ensures Inv(Started(cfg, element, service, elementInterval, serviceInterval, capacity, now))
  {
    var s := Started(cfg, element, service, elementInterval, serviceInterval, capacity, now);
    assert forall t :: !Outstanding(s.elementUp, t) && !Outstanding(s.serviceUp, t);
  }

  lemma ClockAdvances(s: System, now: int)
    requires Inv(s) && s.now <= now
    ensures Inv(s.(now := now))
  {
    TimePasses(s.sip, s.now, now, s.log);
    assert Publishes(s.(now := now)) == Publishes(s);
  }

  /** Fanning a package out leaves the other package's subscriptions as they were. */
  lemma {:induction false} FanOutKeysOther(s: Sip, keys: seq<string>, pkg: Package, b: Stamped, now: int, i: nat)
    requires i < |s.subs| && s.subs[i].pkg != pkg
    ensures var s' := FanOutKeys(s, keys, pkg, b, now);
      && i < |s'.subs| && s'.subs[i] == s.subs[i]
      && Only(s'.trace, Object(i)) == Only(s.trace, Object(i))
    decreases |keys|
  {
    if keys != [] {
      FanOutKeyOther(s, keys[0], pkg, b, now, i);
      FanOutKeysOther(FanOutKey(s, keys[0], pkg, b, now), keys[1..], pkg, b, now, i);
    }
  }

  lemma FanOutKeyOther(s: Sip, k: string, pkg: Package, b: Stamped, now: int, i: nat)
    requires i < |s.subs| && s.subs[i].pkg != pkg
    ensures var s' := FanOutKey(s, k, pkg, b, now);
      && i < |s'.subs| && s'.subs[i] == s.subs[i]
      && Only(s'.trace, Object(i)) == Only(s.trace, Object(i))
  {
    if HasEntry(s, k) {
      var j := s.table.at[k];
      OnlyAppend(s.trace, NotifyOf(s.subs[j], j, b, now), Object(i));
    }
  }

  lemma FanOutOther(s: Sip, pkg: Package, other: Package, b: Stamped, st: Stamped, now: int)
    requires other != pkg && AllUpToDate(s, now, other, st)
    ensures AllUpToDate(FanOut(s, pkg, b, now), now, other, st)
  {
    var s' := FanOut(s, pkg, b, now);
    FanOutKeysFrame(s, s.table.order, pkg, b, now);
    forall i | Current(s', i) && !Expired(s'.subs[i], now) && s'.subs[i].pkg == other
      ensures UpToDate(s', i, st)
    {
      FanOutKeysOther(s, s.table.order, pkg, b, now, i);
      assert Current(s, i);
    }
  }

  lemma FanOutNowInv(s: System, pkg: Package, other: Package)
    requires other != pkg
    requires UpstreamInv(s.elementUp, s.now) && UpstreamInv(s.serviceUp, s.now)
    requires Publishes(s) == LatestOf(s.log)
    requires SipInv(s.sip, s.now, s.log) && NothingLost(s, other)
    ensures Inv(FanOutNow(s, pkg))
  {
    FanOutPreserves(s.sip, pkg, s.now, s.log);
    if !Up(s, other).pending {
      FanOutOther(s.sip, pkg, other, Publishes(s).Of(pkg), Publishes(s).Of(other), s.now);
    }
    assert Publishes(FanOutNow(s, pkg)) == Publishes(s);
  }

  /** A store write followed by `_schedule_notify`. `s` is the state after the write. */
  lemma WriteInv(before: System, s: System, pkg: Package, other: Package)
    requires Inv(before) && other != pkg
    requires s.sip == before.sip && s.now == before.now
    requires s.elementUp == before.elementUp && s.serviceUp == before.serviceUp
    requires Publishes(s) == LatestOf(s.log)
    requires before.log.Of(pkg) <= s.log.Of(pkg) && s.log.Of(other) == before.log.Of(other)
    ensures Inv(ScheduleNotify(s, pkg))
  {
    NewVersion(s.sip, s.now, before.log, s.log);
    SchedulePreserves(Up(s, pkg), s.now, s.now);
    var t := WithUp(s, pkg, Scheduled(Up(s, pkg), s.now));
    hide Scheduled, SipInv, UpstreamInv, TraceOk;
    assert Publishes(t) == Publishes(s);
    assert NothingLost(t, other) by {
      assert NothingLost(before, other);
      assert Publishes(t).Of(other) == Publishes(before).Of(other);
    }
    if WindowPassed(Up(s, pkg), s.now) {
      FanOutNowInv(t, pkg, other);
    } else {
      assert Up(t, pkg).pending;
    }
  }

  lemma DeferredInv(s: System, pkg: Package, t: nat)
    requires Inv(s) && CanFire(Up(s, pkg), t, s.now)
    ensures Inv(RunDeferred(s, pkg, t))
  {
    var other := if pkg.ElementPackage? then ServicePackage else ElementPackage;
    DeferredPreserves(Up(s, pkg), t, s.now, s.now);
    var w := WithUp(s, pkg, Deferred(Up(s, pkg), t, s.now));
    assert Publishes(w) == Publishes(s);
    FanOutNowInv(w, pkg, other);
  }

  ghost predicate Untouched(s: Sip, s': Sip, i: int) {
    && 0 <= i < |s.subs| && i < |s'.subs| && Current(s, i) && s'.subs[i] == s.subs[i]
    && Only(s'.trace, Object(i)) == Only(s.trace, Object(i))
  }

  /** A step that touches the SIP notifier alone. */
  lemma SipStepInv(s: System, sip': Sip)
    requires Inv(s) && SipInv(sip', s.now, s.log)
    requires forall i :: (Current(sip', i) && !Expired(sip'.subs[i], s.now)) ==> (|| Untouched(s.sip, sip', i)
           || UpToDate(sip', i, Publishes(s).Of(sip'.subs[i].pkg))
           || Up(s, sip'.subs[i].pkg).pending)
    ensures Inv(s.(sip := sip'))
  {
    var s' := s.(sip := sip');
    assert Publishes(s') == Publishes(s);
    assert Up(s', ElementPackage) == Up(s, ElementPackage);
    assert Up(s', ServicePackage) == Up(s, ServicePackage);
    forall pkg: Package ensures NothingLost(s', pkg) {
      if !Up(s, pkg).pending {
        assert NothingLost(s, pkg);
        forall i | Current(sip', i) && !Expired(sip'.subs[i], s.now) && sip'.subs[i].pkg == pkg
          ensures UpToDate(sip', i, Publishes(s).Of(pkg)) {
          if Untouched(s.sip, sip', i) {
            assert UpToDate(s.sip, i, Publishes(s).Of(pkg));
          }
        }
      }
    }
  }

  lemma AcceptedEffect(s: System, r: Request)
    requires Inv(s) && Accepts(s.sip, r)
    ensures var sip' := Subscribe(s.sip, r, Publishes(s), s.now);
      && |sip'.subs| == |s.sip.subs| + 1
      && sip'.subs[|s.sip.subs|].pkg == r.event.pkg
      && UpToDate(sip', |s.sip.subs|, Publishes(s).Of(r.event.pkg))
      && forall i :: Current(sip', i) && i != |s.sip.subs| ==> Untouched(s.sip, sip', i)
  {
    var sip' := Subscribe(s.sip, r, Publishes(s), s.now);
    var e := Enter(s.sip, r, s.now);
    var n := NotifyOf(e.subs[|s.sip.subs|], |s.sip.subs|, Publishes(s).Of(r.event.pkg), s.now);
    forall i | Current(sip', i) && i != |s.sip.subs| ensures Untouched(s.sip, sip', i) {
      OnlyAppend(s.sip.trace, n, Object(i));
    }
    OnlyAppend(s.sip.trace, n, Object(|s.sip.subs|));
  }

  lemma SubscribeInv(s: System, r: Request)
    requires Inv(s)
    ensures Inv(s.(sip := Subscribe(s.sip, r, Publishes(s), s.now)))
  {
    var sip' := Subscribe(s.sip, r, Publishes(s), s.now);
    SubscribePreserves(s.sip, r, s.now, s.log);
    if Accepts(s.sip, r) {
      AcceptedEffect(s, r);
    } else {
      RemoveKeepsOthers(s.sip.table.order, r.callId);
      assert forall i :: Current(sip', i) ==> Untouched(s.sip, sip', i);
    }
    hide Subscribe, SipInv, UpToDate;
    SipStepInv(s, sip');
  }

  lemma TimerEffect(s: System, i: nat, t: nat)
    requires Inv(s) && CanFireSub(s.sip, i, t, s.now)
    ensures var sip' := TimerFired(s.sip, i, t, Publishes(s), s.now);
      && |sip'.subs| == |s.sip.subs|
      && (forall j :: Current(sip', j) && j != i ==> Untouched(s.sip, sip', j))
  {
    var sip' := TimerFired(s.sip, i, t, Publishes(s), s.now);
    var sub := s.sip.subs[i];
    if !Expired(sub, s.now) {
      var b := if sub.pending.Some? then sub.pending.value else Publishes(s).Of(sub.pkg);
      var n := NotifyOf(RanTimer(s.sip, i, t).subs[i], i, b, s.now);
      forall j | 0 <= j < |s.sip.subs| && j != i
        ensures Only(sip'.trace, Object(j)) == Only(s.sip.trace, Object(j)) {
        OnlyAppend(s.sip.trace, n, Object(j));
      }
    }
  }

  /** The queued body a timer sends is the current one unless a dispatch is still to come. */
  lemma QueuedIsCurrent(s: System, i: nat)
    requires Inv(s) && Current(s.sip, i) && !Expired(s.sip.subs[i], s.now)
    requires !Up(s, s.sip.subs[i].pkg).pending && s.sip.subs[i].pending.Some?
    ensures s.sip.subs[i].pending.value == Publishes(s).Of(s.sip.subs[i].pkg)
  {
    var sub := s.sip.subs[i];
    var st := Publishes(s).Of(sub.pkg);
    assert SubOk(s.sip, i, s.now, s.log);
    assert NothingLost(s, sub.pkg);
    assert UpToDate(s.sip, i, st);
    var h := Only(s.sip.trace, Object(i));
    var n := h[|h| - 1];
    OnlyMember(s.sip.trace, Object(i), |h| - 1);
    assert Belongs(n, s.sip, s.now);
  }

  lemma TimerServes(s: System, i: nat, t: nat)
    requires Inv(s) && CanFireSub(s.sip, i, t, s.now) && !Expired(s.sip.subs[i], s.now)
    requires !Up(s, s.sip.subs[i].pkg).pending
    ensures UpToDate(TimerFired(s.sip, i, t, Publishes(s), s.now), i, Publishes(s).Of(s.sip.subs[i].pkg))
  {
    var sub := s.sip.subs[i];
    TimerPreserves(s.sip, i, t, s.now, s.log);
    if sub.pending.Some? {
      QueuedIsCurrent(s, i);
    }
    var n := NotifyOf(RanTimer(s.sip, i, t).subs[i], i, Publishes(s).Of(sub.pkg), s.now);
    OnlyAppend(s.sip.trace, n, Object(i));
  }

  lemma TimerInv(s: System, i: nat, t: nat)
    requires Inv(s) && CanFireSub(s.sip, i, t, s.now)
    ensures Inv(s.(sip := TimerFired(s.sip, i, t, Publishes(s), s.now)))
  {
    TimerPreserves(s.sip, i, t, s.now, s.log);
    TimerEffect(s, i, t);
    if !Expired(s.sip.subs[i], s.now) && !Up(s, s.sip.subs[i].pkg).pending {
      TimerServes(s, i, t);
    }
    SipStepInv(s, TimerFired(s.sip, i, t, Publishes(s), s.now));
  }

  lemma StepInv(s0: System, now: int, e: Event)
    requires Inv(s0) && Enabled(s0, now, e)
    ensures Inv(Step(s0, now, e))
  {
    var s := s0.(now := now);
    ClockAdvances(s0, now);
    match e
    case SetElementState(st, reason) =>
      if s.element != ElementBundle(st, reason) {
        WriteInv(s, WriteElement(s, ElementBundle(st, reason)), ElementPackage, ServicePackage);
      }
    case SetServiceState(st, reason) =>
      if !(s.service.state == st && s.service.reason == reason) {
        WriteInv(s, WriteService(s, s.service.(state := st, reason := reason)), ServicePackage, ElementPackage);
      }
    case SetSecurityPosture(p, reason) =>
      if s.service.posture != Some(PostureBundle(p, reason)) {
        WriteInv(s, WriteService(s, s.service.(posture := Some(PostureBundle(p, reason)))), ServicePackage, ElementPackage);
      }
    case DeferredDispatch(pkg, t) => DeferredInv(s, pkg, t);
    case IncomingSubscribe(r) => SubscribeInv(s, r);
    case SubscriptionTimer(i, t) => TimerInv(s, i, t);
    case CleanupPass =>
      CleanupPreserves(s.sip, now, s.log);
      SipStepInv(s, Cleanup(s.sip, now));
    case Tick =>
  }
}
