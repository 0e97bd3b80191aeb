/** What holds over every run of the pipeline from startup. */
module PipelineTheorems {
  import opened Prelude
  import opened StateStore
  import opened RateFilter
  import opened SipModel
  import opened SipInvariant
  import opened Pipeline

  datatype Timed = At(now: int, event: Event)

  predicate ValidRun(s: System, evs: seq<Timed>)
    decreases |evs|
  {
    evs == [] || (Enabled(s, evs[0].now, evs[0].event)
                  && ValidRun(Step(s, evs[0].now, evs[0].event), evs[1..]))
  }

  function Run(s: System, evs: seq<Timed>): System
    requires ValidRun(s, evs)
    decreases |evs|
  {
    if evs == [] then s else Run(Step(s, evs[0].now, evs[0].event), evs[1..])
  }

  ghost predicate IsStart(s: System) {
    exists cfg, e, v, ei, si, cap, now :: 0 <= now && s == Started(cfg, e, v, ei, si, cap, now)
  }

  lemma {:induction false} RunInv(s: System, evs: seq<Timed>)
    requires Inv(s) && ValidRun(s, evs)
    ensures Inv(Run(s, evs))
    decreases |evs|
  {
    if evs != [] {
      StepInv(s, evs[0].now, evs[0].event);
      RunInv(Step(s, evs[0].now, evs[0].event), evs[1..]);
    }
  }

  lemma ReachableInv(s: System, evs: seq<Timed>)
    requires IsStart(s) && ValidRun(s, evs)
    ensures Inv(Run(s, evs))
  {
    var cfg, e, v, ei, si, cap, now :| 0 <= now && s == Started(cfg, e, v, ei, si, cap, now);
    StartedInv(cfg, e, v, ei, si, cap, now);
    RunInv(s, evs);
  }

  lemma {:induction false} RunPrefix(s: System, evs: seq<Timed>, k: nat)
    requires ValidRun(s, evs) && k < |evs|
    ensures ValidRun(s, evs[..k])
    ensures Enabled(Run(s, evs[..k]), evs[k].now, evs[k].event)
    ensures ValidRun(s, evs[..k + 1])
    ensures Run(s, evs[..k + 1]) == Step(Run(s, evs[..k]), evs[k].now, evs[k].event)
    decreases k
  {
    assert evs[..k + 1][1..] == evs[1..][..k];
    if k > 0 {
      assert evs[..k][1..] == evs[1..][..k - 1];
      RunPrefix(Step(s, evs[0].now, evs[0].event), evs[1..], k - 1);
    } else {
      assert evs[..1] == [evs[0]];
    }
  }

  /** Views that follow one another by steps make up a run: what each method of the wired
      components promises of its one step, the theorems below promise of any sequence of calls. */
  lemma {:induction false} ViewsMakeUpRun(views: seq<System>, evs: seq<Timed>)
    requires |views| == |evs| + 1
    requires forall k :: 0 <= k < |evs| ==>
               Enabled(views[k], evs[k].now, evs[k].event) && views[k + 1] == Step(views[k], evs[k].now, evs[k].event)
    ensures ValidRun(views[0], evs) && Run(views[0], evs) == views[|evs|]
    decreases |evs|
  {
    hide Step, Enabled;
    if evs != [] {
      forall k | 0 <= k < |evs[1..]|
        ensures Enabled(views[1..][k], evs[1..][k].now, evs[1..][k].event)
        ensures views[1..][k + 1] == Step(views[1..][k], evs[1..][k].now, evs[1..][k].event)
      {
        assert views[1..][k] == views[k + 1] && views[1..][k + 1] == views[k + 2] && evs[1..][k] == evs[k + 1];
      }
      ViewsMakeUpRun(views[1..], evs[1..]);
    }
  }

  // ---------------------------------------------------------------- nothing is lost

  ghost predicate LastShows(s: System, i: nat, b: Body) {
    var h := Only(s.sip.trace, Object(i));
    h != [] && h[|h| - 1].shown.body == b
  }

  /** No update is lost through the two coalescing stages. */
  lemma NoUpdateIsLost(s0: System, evs: seq<Timed>)
    requires IsStart(s0) && ValidRun(s0, evs)
    ensures var s := Run(s0, evs);
      forall i :: Current(s.sip, i) && !Expired(s.sip.subs[i], s.now) ==>
        var sub := s.sip.subs[i];
        var body := CurrentBody(s, sub.pkg);
        || LastShows(s, i, body)
        || (exists t :: Outstanding(Up(s, sub.pkg), t))
        || (Armed(sub) && sub.pending.Some? && sub.pending.value.body == body)
  {
    ReachableInv(s0, evs);
    var s := Run(s0, evs);
    forall i | Current(s.sip, i) && !Expired(s.sip.subs[i], s.now)
      ensures var sub := s.sip.subs[i];
        var body := CurrentBody(s, sub.pkg);
        || LastShows(s, i, body)
        || (exists t :: Outstanding(Up(s, sub.pkg), t))
        || (Armed(sub) && sub.pending.Some? && sub.pending.value.body == body)
    {
      var pkg := s.sip.subs[i].pkg;
      assert NothingLost(s, pkg);
      if !Up(s, pkg).pending {
        assert UpToDate(s.sip, i, Publishes(s).Of(pkg));
      }
    }
  }

  /** Once the event loop has drained, every current subscriber has seen the current state. */
  lemma QuiescentMeansDelivered(s0: System, evs: seq<Timed>)
    requires IsStart(s0) && ValidRun(s0, evs)
    requires var s := Run(s0, evs);
      && (forall pkg, t :: !Outstanding(Up(s, pkg), t))
      && (forall i :: 0 <= i < |s.sip.subs| ==> s.sip.subs[i].pending.None?)
    ensures var s := Run(s0, evs);
      forall i :: Current(s.sip, i) && !Expired(s.sip.subs[i], s.now)
        ==> LastShows(s, i, CurrentBody(s, s.sip.subs[i].pkg))
  {
    NoUpdateIsLost(s0, evs);
  }

  // ---------------------------------------------------------------- order

  /** One Call-ID never sees a package go back in time, and every body it sees is the one the
      store held after the numbered write. */
  lemma NeverReordered(s0: System, evs: seq<Timed>)
    requires IsStart(s0) && ValidRun(s0, evs)
    ensures var s := Run(s0, evs);
      && Ordered(s.sip.trace)
      && (forall n :: n in s.sip.trace ==> Genuine(n.shown, s.log.Of(n.pkg)))
      && s.log.Last(ElementPackage).body == ElementNotifyBody(s.cfg, s.element)
      && s.log.Last(ServicePackage).body == ServiceNotifyBody(s.cfg, s.service)
  {
    ReachableInv(s0, evs);
  }

  /** The body names the element or service it is about, and has a posture if and only if one is
      supported. */
  predicate Names(cfg: Config, pkg: Package, b: Body) {
    if pkg.ElementPackage? then b.ElementBody? && b.elementId == cfg.elementId
    else
      && b.ServiceBody? && b.service == cfg.service && b.name == cfg.name && b.serviceId == cfg.serviceId
      && b.domain == cfg.domain && (b.securityPosture.Some? <==> cfg.supportsPosture)
  }

  ghost predicate LogsName(s: System) {
    forall pkg, j :: 0 <= j < |s.log.Of(pkg)| ==> Names(s.cfg, pkg, s.log.Of(pkg)[j])
  }

  lemma StepNames(s: System, now: int, e: Event)
    requires Enabled(s, now, e) && LogsName(s)
    ensures LogsName(Step(s, now, e)) && Step(s, now, e).cfg == s.cfg
  {
    hide FanOut, Subscribe, TimerFired, Cleanup, Scheduled, Deferred;
    var t := Step(s, now, e);
    forall pkg ensures t.log.Of(pkg) == s.log.Of(pkg)
      || (|t.log.Of(pkg)| == |s.log.Of(pkg)| + 1 && t.log.Of(pkg)[..|s.log.Of(pkg)|] == s.log.Of(pkg)
          && Names(s.cfg, pkg, t.log.Of(pkg)[|s.log.Of(pkg)|])) {
    }
    forall pkg, j | 0 <= j < |t.log.Of(pkg)| ensures Names(s.cfg, pkg, t.log.Of(pkg)[j]) {
      if j < |s.log.Of(pkg)| {
        assert t.log.Of(pkg)[j] == s.log.Of(pkg)[j];
      }
    }
  }

  lemma {:induction false} RunNames(s: System, evs: seq<Timed>)
    requires ValidRun(s, evs) && LogsName(s)
    ensures LogsName(Run(s, evs)) && Run(s, evs).cfg == s.cfg
    decreases |evs|
  {
    if evs != [] {
      StepNames(s, evs[0].now, evs[0].event);
      RunNames(Step(s, evs[0].now, evs[0].event), evs[1..]);
    }
  }

  /** Every NOTIFY of every run is about the element, or the service with its own service name,
      name, id and domain, that the notifier was made for. */
  lemma EveryNotifyNamesItsSource(s0: System, evs: seq<Timed>, k: nat)
    requires IsStart(s0) && ValidRun(s0, evs) && k < |Run(s0, evs).sip.trace|
    ensures var n := Run(s0, evs).sip.trace[k]; Names(s0.cfg, n.pkg, n.shown.body)
  {
    var s := Run(s0, evs);
    ReachableInv(s0, evs);
    assert LogsName(s0);
    RunNames(s0, evs);
    var n := s.sip.trace[k];
    assert n in s.sip.trace && Genuine(n.shown, s.log.Of(n.pkg));
  }

  // ---------------------------------------------------------------- who is notified

  /** The NOTIFYs a step adds are all made at that step, for unexpired objects that are the
      table's entry for their Call-ID, and nothing already sent is touched. */
  ghost predicate SendsOnlyToCurrent(before: Sip, after: Sip, now: int) {
    && before.trace <= after.trace
    && forall j :: |before.trace| <= j < |after.trace| ==>
         var n := after.trace[j];
         && n.at == now && Current(after, n.sub) && now < after.subs[n.sub].expiresAt
         && n.callId == after.subs[n.sub].callId
  }

  ghost predicate Entry(s: Sip, n: Notify, now: int) {
    && n.at == now && Current(s, n.sub) && !Expired(s.subs[n.sub], now)
    && s.subs[n.sub].callId == n.callId
  }

  lemma {:induction false} FanOutKeysSends(s: Sip, keys: seq<string>, pkg: Package, b: Stamped, now: int)
    requires TableOk(s)
    ensures var s' := FanOutKeys(s, keys, pkg, b, now);
      && s.trace <= s'.trace
      && forall j :: |s.trace| <= j < |s'.trace| ==> Entry(s, s'.trace[j], now)
    decreases |keys|
  {
    if keys != [] {
      var m := FanOutKey(s, keys[0], pkg, b, now);
      FanOutKeysSends(m, keys[1..], pkg, b, now);
      var s' := FanOutKeys(m, keys[1..], pkg, b, now);
      forall j | |s.trace| <= j < |s'.trace| ensures Entry(s, s'.trace[j], now) {
        if j >= |m.trace| {
          assert Entry(m, s'.trace[j], now);
        } else {
          assert s'.trace[j] == m.trace[j];
        }
      }
    }
  }

  lemma FanOutSends(s: Sip, pkg: Package, b: Stamped, now: int)
    requires TableOk(s)
    ensures SendsOnlyToCurrent(s, FanOut(s, pkg, b, now), now)
  {
    var s' := FanOut(s, pkg, b, now);
    FanOutKeysSends(s, s.table.order, pkg, b, now);
    FanOutKeysFrame(s, s.table.order, pkg, b, now);
    forall j | |s.trace| <= j < |s'.trace|
      ensures Current(s', s'.trace[j].sub) && now < s'.subs[s'.trace[j].sub].expiresAt
      ensures s'.trace[j].at == now && s'.trace[j].callId == s'.subs[s'.trace[j].sub].callId
    {
      assert Entry(s, s'.trace[j], now);
    }
  }

  lemma CleanupSends(s: Sip, now: int)
    ensures SendsOnlyToCurrent(s, Cleanup(s, now), now)
  {
  }

  lemma SubscribeSends(s: Sip, r: Request, pub: Published, now: int)
    ensures SendsOnlyToCurrent(s, Subscribe(s, r, pub, now), now)
  {
  }

  lemma TimerSends(s: Sip, i: nat, t: nat, pub: Published, now: int, log: Logs)
    requires SipInv(s, now, log) && CanFireSub(s, i, t, now)
    ensures SendsOnlyToCurrent(s, TimerFired(s, i, t, pub, now), now)
  {
    assert SubOk(s, i, now, log) && Live(s.subs[i], t);
  }

  lemma StepSends(s: System, now: int, e: Event)
    requires Inv(s) && Enabled(s, now, e)
    ensures SendsOnlyToCurrent(s.sip, Step(s, now, e).sip, now)
  {
    ClockAdvances(s, now);
    forall pkg: Package, b ensures SendsOnlyToCurrent(s.sip, FanOut(s.sip, pkg, b, now), now) {
      FanOutSends(s.sip, pkg, b, now);
    }
    match e
    case IncomingSubscribe(r) => SubscribeSends(s.sip, r, Publishes(s.(now := now)), now);
    case SubscriptionTimer(i, t) => TimerSends(s.sip, i, t, Publishes(s.(now := now)), now, s.log);
    case CleanupPass => CleanupSends(s.sip, now);
    case _ => StepFansOut(s, now, e);
  }

  /** The other events change the SIP notifier by at most a fan-out. */
  lemma StepFansOut(s: System, now: int, e: Event)
    requires Enabled(s, now, e)
    requires !e.IncomingSubscribe? && !e.SubscriptionTimer? && !e.CleanupPass?
    ensures Step(s, now, e).sip == s.sip
      || exists pkg, b :: Step(s, now, e).sip == FanOut(s.sip, pkg, b, now)
  {
    hide FanOut;
    var s' := Step(s, now, e);
    if s'.sip != s.sip {
      var pkg := match e
        case SetElementState(_, _) => ElementPackage
        case DeferredDispatch(p, _) => p
        case _ => ServicePackage;
      assert s'.sip == FanOut(s.sip, pkg, Publishes(s').Of(pkg), now);
    }
  }

  /** Every NOTIFY of every run is for the current, unexpired subscription of its Call-ID;
      what makes this so is that an uncancelled timer belongs to such a subscription or to an
      object that has expired. */
  lemma OnlyCurrentSubscribersAreNotified(s0: System, evs: seq<Timed>, k: nat)
    requires IsStart(s0) && ValidRun(s0, evs) && k < |evs|
    ensures ValidRun(s0, evs[..k]) && ValidRun(s0, evs[..k + 1])
    ensures SendsOnlyToCurrent(Run(s0, evs[..k]).sip, Run(s0, evs[..k + 1]).sip, evs[k].now)
    ensures var s := Run(s0, evs[..k]);
      forall i, t :: 0 <= i < |s.sip.subs| && Live(s.sip.subs[i], t)
        ==> Current(s.sip, i) || Expired(s.sip.subs[i], s.now)
  {
    RunPrefix(s0, evs, k);
    ReachableInv(s0, evs[..k]);
    var s := Run(s0, evs[..k]);
    StepSends(s, evs[k].now, evs[k].event);
    forall i, t | 0 <= i < |s.sip.subs| && Live(s.sip.subs[i], t)
      ensures Current(s.sip, i) || Expired(s.sip.subs[i], s.now)
    {
      assert SubOk(s.sip, i, s.now, s.log);
    }
  }

  // ---------------------------------------------------------------- spacing

  /** However late timers run: a pending flag means exactly one deferred dispatch, dispatches
      with one between them are an interval apart, and so are consecutive NOTIFYs of one
      subscription object, which owns at most one timer that can still run. */
  lemma SpacingWithLateTimers(s0: System, evs: seq<Timed>)
    requires IsStart(s0) && ValidRun(s0, evs)
    ensures var s := Run(s0, evs);
      && (forall pkg :: PendingMeansOne(Up(s, pkg))
                        && Monotone(Up(s, pkg).dispatched)
                        && SpacedByTwo(Up(s, pkg).dispatched, Up(s, pkg).minInterval))
      && (forall i :: 0 <= i < |s.sip.subs| ==>
            && Spaced(Only(s.sip.trace, Object(i)), s.sip.subs[i].minInterval)
            && forall t, t' :: Live(s.sip.subs[i], t) && Live(s.sip.subs[i], t') ==> t == t')
  {
    ReachableInv(s0, evs);
    var s := Run(s0, evs);
    forall i | 0 <= i < |s.sip.subs|
      ensures Spaced(Only(s.sip.trace, Object(i)), s.sip.subs[i].minInterval)
      ensures forall t, t' :: Live(s.sip.subs[i], t) && Live(s.sip.subs[i], t') ==> t == t'
    {
      assert SubOk(s.sip, i, s.now, s.log);
    }
  }

  // ---------------------------------------------------------------- prompt timers

  predicate RunsTimer(e: Event) {
    e.DeferredDispatch? || e.SubscriptionTimer?
  }

  /** The clock never passes an outstanding deadline, and a due timer runs before anything
      else does. */
  ghost predicate Prompt(s: System, now: int, e: Event) {
    && (forall pkg, t :: Outstanding(Up(s, pkg), t) ==>
          now <= Up(s, pkg).timers[t].due && (RunsTimer(e) || now < Up(s, pkg).timers[t].due))
    && (forall i, t :: 0 <= i < |s.sip.subs| && Live(s.sip.subs[i], t) ==>
          now <= s.sip.subs[i].queue[t].due && (RunsTimer(e) || now < s.sip.subs[i].queue[t].due))
  }

  ghost predicate PromptRun(s: System, evs: seq<Timed>)
    requires ValidRun(s, evs)
    decreases |evs|
  {
    evs == [] || (Prompt(s, evs[0].now, evs[0].event)
                  && PromptRun(Step(s, evs[0].now, evs[0].event), evs[1..]))
  }

  /** Consecutive NOTIFYs exactly one interval apart. */
  ghost predicate Periodic(h: seq<Notify>, minInterval: int) {
    forall j :: 0 <= j && j + 1 < |h| ==> h[j + 1].at - h[j].at == minInterval
  }

  /** What prompt timers give each object: NOTIFYs at the exact interval, and while it can be
      served, never more than an interval since the last one. */
  ghost predicate Watched(s: Sip, i: nat, now: int)
    requires i < |s.subs|
  {
    s.subs[i].minInterval > 0 ==>
      && Periodic(Only(s.trace, Object(i)), s.subs[i].minInterval)
      && (Current(s, i) && !Expired(s.subs[i], now) ==> now - s.subs[i].last <= s.subs[i].minInterval)
  }

  ghost predicate PromptState(s: System) {
    && Inv(s)
    && PromptInv(s.elementUp, s.now)
    && PromptInv(s.serviceUp, s.now)
    && (forall i :: 0 <= i < |s.sip.subs| ==> Watched(s.sip, i, s.now))
  }

  lemma {:induction false} OnlyConcat(a: seq<Notify>, b: seq<Notify>, key: Key)
    ensures Only(a + b, key) == Only(a, key) + Only(b, key)
    decreases |b|
  {
    if b == [] {
      assert a + b == a;
    } else {
      assert (a + b)[..|a + b| - 1] == a + b[..|b| - 1];
      OnlyConcat(a, b[..|b| - 1], key);
    }
  }

  /** What a step can do to the upstream of one package. */
  lemma UpstreamChoices(s: System, now: int, e: Event, pkg: Package)
    requires Enabled(s, now, e)
    ensures var u, u' := Up(s, pkg), Up(Step(s, now, e), pkg);
      || u' == u
      || (!RunsTimer(e) && u' == Scheduled(u, now))
      || (e.DeferredDispatch? && e.pkg == pkg && u' == Deferred(u, e.timer, now))
  {
  }

  lemma UpstreamStep(s: System, now: int, e: Event, pkg: Package)
    requires Inv(s) && Enabled(s, now, e) && Prompt(s, now, e) && PromptInv(Up(s, pkg), s.now)
    ensures PromptInv(Up(Step(s, now, e), pkg), now)
  {
    UpstreamChoices(s, now, e, pkg);
    var u := Up(s, pkg);
    if !RunsTimer(e) {
      PromptScheduled(u, s.now, now);
    } else if e.DeferredDispatch? && e.pkg == pkg {
      PromptDeferred(u, e.timer, s.now, now);
    }
  }

  /** Objects are only ever added, and what identifies them never changes. */
  ghost predicate SameObjects(s: Sip, s': Sip) {
    && |s.subs| <= |s'.subs|
    && forall i :: 0 <= i < |s.subs| ==>
         && s'.subs[i].minInterval == s.subs[i].minInterval
         && s'.subs[i].expiresAt == s.subs[i].expiresAt
         && s'.subs[i].callId == s.subs[i].callId && s'.subs[i].uri == s.subs[i].uri
         && s'.subs[i].pkg == s.subs[i].pkg
         && (Current(s', i) ==> Current(s, i))
  }

  lemma SubscribeFrame(s: Sip, r: Request, pub: Published, now: int)
    ensures SameObjects(s, Subscribe(s, r, pub, now))
  {
  }

  lemma FanOutFrame(s: Sip, pkg: Package, b: Stamped, now: int)
    ensures SameObjects(s, FanOut(s, pkg, b, now))
  {
    FanOutKeysFrame(s, s.table.order, pkg, b, now);
  }

  lemma CleanupFrame(s: Sip, now: int)
    ensures SameObjects(s, Cleanup(s, now))
  {
  }

  lemma TimerFrame(s: Sip, i: nat, t: nat, pub: Published, now: int)
    requires i < |s.subs| && t < |s.subs[i].queue|
    ensures SameObjects(s, TimerFired(s, i, t, pub, now))
  {
  }

  lemma StepFrame(s: System, now: int, e: Event)
    requires Enabled(s, now, e)
    ensures SameObjects(s.sip, Step(s, now, e).sip)
  {
    forall pkg: Package, b ensures SameObjects(s.sip, FanOut(s.sip, pkg, b, now)) {
      FanOutFrame(s.sip, pkg, b, now);
    }
    match e
    case IncomingSubscribe(r) => SubscribeFrame(s.sip, r, Publishes(s.(now := now)), now);
    case SubscriptionTimer(i, t) => TimerFrame(s.sip, i, t, Publishes(s.(now := now)), now);
    case CleanupPass => CleanupFrame(s.sip, now);
    case _ => StepFansOut(s, now, e);
  }

  /** The NOTIFYs one step adds to one object's history. */
  lemma NewNotifies(s: Sip, s': Sip, now: int, i: nat) returns (x: seq<Notify>)
    requires SendsOnlyToCurrent(s, s', now) && SameObjects(s, s')
    ensures Only(s'.trace, Object(i)) == Only(s.trace, Object(i)) + x
    ensures forall j :: 0 <= j < |x| ==> x[j].at == now
    ensures x != [] && i < |s.subs| ==> Current(s, i) && !Expired(s.subs[i], now)
  {
    var ext := s'.trace[|s.trace|..];
    assert s'.trace == s.trace + ext;
    OnlyConcat(s.trace, ext, Object(i));
    x := Only(ext, Object(i));
    forall j | 0 <= j < |x|
      ensures x[j].at == now && (i < |s.subs| ==> Current(s, i) && !Expired(s.subs[i], now))
    {
      OnlyMember(ext, Object(i), j);
      var k :| 0 <= k < |ext| && ext[k] == x[j];
      assert s'.trace[|s.trace| + k] == x[j];
    }
    assert x != [] ==> x[0].at == now;
  }

  lemma Gap(g: seq<Notify>, j: nat, minInterval: int)
    requires Spaced(g, minInterval) && j + 1 < |g|
    ensures g[j + 1].at - g[j].at >= minInterval
  {
  }

  lemma PeriodicGrows(h: seq<Notify>, x: seq<Notify>, minInterval: int, now: int)
    requires minInterval > 0 && Spaced(h + x, minInterval) && Periodic(h, minInterval)
    requires forall j :: 0 <= j < |x| ==> x[j].at == now
    requires h != [] && x != [] ==> now - h[|h| - 1].at <= minInterval
    ensures Periodic(h + x, minInterval)
  {
    var g := h + x;
    if |x| > 1 {
      Gap(g, |h|, minInterval);
    }
    forall j | 0 <= j && j + 1 < |g| ensures g[j + 1].at - g[j].at == minInterval {
      if j + 1 < |h| {
        assert g[j] == h[j] && g[j + 1] == h[j + 1];
      }
    }
  }

  /** Its running timer keeps a servable object within an interval of its last NOTIFY. */
  lemma DueSoon(s: System, now: int, e: Event, i: nat)
    requires Inv(s) && Enabled(s, now, e) && Prompt(s, now, e) && Current(s.sip, i)
    requires !Expired(s.sip.subs[i], now) && s.sip.subs[i].minInterval > 0
    ensures now - s.sip.subs[i].last <= s.sip.subs[i].minInterval
    ensures var h := Only(s.sip.trace, Object(i)); h != [] && h[|h| - 1].at == s.sip.subs[i].last
  {
    assert SubOk(s.sip, i, s.now, s.log);
    assert Live(s.sip.subs[i], s.sip.subs[i].handle.value);
  }

  lemma WatchedStep(s: System, now: int, e: Event, i: nat)
    requires PromptState(s) && Enabled(s, now, e) && Prompt(s, now, e)
    requires i < |Step(s, now, e).sip.subs|
    ensures Watched(Step(s, now, e).sip, i, now)
  {
    var s' := Step(s, now, e);
    StepInv(s, now, e);
    StepSends(s, now, e);
    StepFrame(s, now, e);
    WatchedAfter(s, s', now, e, i);
  }

  lemma WatchedAfter(s: System, s': System, now: int, e: Event, i: nat)
    requires PromptState(s) && Enabled(s, now, e) && Prompt(s, now, e)
    requires SendsOnlyToCurrent(s.sip, s'.sip, now) && SameObjects(s.sip, s'.sip)
    requires Inv(s') && s'.now == now && i < |s'.sip.subs|
    ensures Watched(s'.sip, i, now)
  {
    var h := Only(s.sip.trace, Object(i));
    var x := NewNotifies(s.sip, s'.sip, now, i);
    assert SubOk(s'.sip, i, now, s'.log);
    hide Inv, PromptState, Prompt, Enabled, SendsOnlyToCurrent, TimersOk, PendingOk, Only;
    if s'.sip.subs[i].minInterval > 0 {
      HistoryBefore(s, now, e, i, x);
      PeriodicGrows(h, x, s'.sip.subs[i].minInterval, now);
      assert (h + x)[|h + x| - 1].at == s'.sip.subs[i].last;
      if x == [] && i < |s.sip.subs| && Current(s.sip, i) && !Expired(s.sip.subs[i], now) {
        DueSoon(s, now, e, i);
      }
    }
  }

  lemma HistoryBefore(s: System, now: int, e: Event, i: nat, x: seq<Notify>)
    requires PromptState(s) && Enabled(s, now, e) && Prompt(s, now, e)
    requires i < |s.sip.subs| ==> s.sip.subs[i].minInterval > 0
    requires x != [] && i < |s.sip.subs| ==> Current(s.sip, i) && !Expired(s.sip.subs[i], now)
    ensures var h := Only(s.sip.trace, Object(i));
      && (i < |s.sip.subs| ==> Periodic(h, s.sip.subs[i].minInterval))
      && (i >= |s.sip.subs| ==> h == [])
      && (h != [] && x != [] ==>
            i < |s.sip.subs| && now - h[|h| - 1].at <= s.sip.subs[i].minInterval)
  {
    if i < |s.sip.subs| {
      assert Watched(s.sip, i, s.now);
      if x != [] {
        DueSoon(s, now, e, i);
      }
    } else {
      assert forall n :: n in s.sip.trace ==> Belongs(n, s.sip, s.now);
      OnlyNone(s.sip.trace, Object(i));
    }
  }

  lemma {:induction false} PromptRunState(s: System, evs: seq<Timed>)
    requires PromptState(s) && ValidRun(s, evs) && PromptRun(s, evs)
    ensures PromptState(Run(s, evs))
    decreases |evs|
  {
    if evs != [] {
      PromptStep(s, evs[0].now, evs[0].event);
      PromptRunState(Step(s, evs[0].now, evs[0].event), evs[1..]);
    }
  }

  lemma PromptStep(s: System, now: int, e: Event)
    requires PromptState(s) && Enabled(s, now, e) && Prompt(s, now, e)
    ensures PromptState(Step(s, now, e))
  {
    var s' := Step(s, now, e);
    assert s'.now == now;
    StepInv(s, now, e);
    UpstreamStep(s, now, e, ElementPackage);
    UpstreamStep(s, now, e, ServicePackage);
    hide Step, Inv, PromptInv, Watched, Prompt;
    forall i | 0 <= i < |s'.sip.subs| ensures Watched(s'.sip, i, now) {
      WatchedStep(s, now, e, i);
    }
  }

  lemma StartIsPrompt(s: System)
    requires IsStart(s)
    ensures PromptState(s)
  {
    var cfg, el, v, ei, si, cap, now :| 0 <= now && s == Started(cfg, el, v, ei, si, cap, now);
    StartedInv(cfg, el, v, ei, si, cap, now);
  }

  /** A subscription that can be served had its last NOTIFY no longer ago than its interval. */
  ghost predicate HeardRecently(s: System, i: nat)
    requires i < |s.sip.subs|
  {
    var h := Only(s.sip.trace, Object(i));
    h != [] && s.now - h[|h| - 1].at <= s.sip.subs[i].minInterval
  }

  /** With prompt timers: all dispatches are an interval apart; a rate-filtered subscription is
      sent a NOTIFY exactly every interval, and never goes longer without one while it is
      current and unexpired. */
  lemma SpacingWithPromptTimers(s0: System, evs: seq<Timed>)
    requires IsStart(s0) && ValidRun(s0, evs) && PromptRun(s0, evs)
    ensures var s := Run(s0, evs);
      && (forall pkg :: SpacedByOne(Up(s, pkg).dispatched, Up(s, pkg).minInterval))
      && (forall i :: 0 <= i < |s.sip.subs| && s.sip.subs[i].minInterval > 0 ==>
            && Periodic(Only(s.sip.trace, Object(i)), s.sip.subs[i].minInterval)
            && (Current(s.sip, i) && !Expired(s.sip.subs[i], s.now) ==> HeardRecently(s, i)))
  {
    StartIsPrompt(s0);
    PromptRunState(s0, evs);
    var s := Run(s0, evs);
    forall i | 0 <= i < |s.sip.subs| && s.sip.subs[i].minInterval > 0
      ensures Periodic(Only(s.sip.trace, Object(i)), s.sip.subs[i].minInterval)
      ensures Current(s.sip, i) && !Expired(s.sip.subs[i], s.now) ==> HeardRecently(s, i)
    {
      assert SubOk(s.sip, i, s.now, s.log) && Watched(s.sip, i, s.now);
      hide Spaced, TimersOk, TraceOk, UpstreamInv, NothingLost;
    }
  }
}
