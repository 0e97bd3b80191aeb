/** The notifiers as the objects they are: fields updated in place, a table of subscription
    objects, loops over it. Every method is proved to do to the view of the objects what the
    state machine of `SipModel` and `Pipeline` does, so the run theorems are theorems about
    these objects. */
module Notifiers {
  import opened Prelude
  import opened StateStore
  import opened RateFilter
  import opened SipModel
  import opened SipInvariant
  import opened Pipeline
  import opened SubscribeTheorems

  /** What a fan-out never changes. */
  ghost predicate SameTable(s: Sip, s': Sip) {
    && s'.table == s.table && |s'.subs| == |s.subs|
    && forall i :: 0 <= i < |s.subs| ==> s'.subs[i].expiresAt == s.subs[i].expiresAt
  }

  /** The first and the last state of a loop over `keys`. */
  lemma FanOutEnds(s: Sip, keys: seq<string>, pkg: Package, b: Stamped, now: int)
    ensures keys[0..] == keys
    ensures FanOutKeys(s, keys[|keys|..], pkg, b, now) == s
    ensures ExpiredKeys(s, keys[|keys|..], now) == []
  {
  }

  /** One round of that loop. */
  lemma Unroll(s: Sip, start: Sip, keys: seq<string>, n: nat, pkg: Package, b: Stamped, now: int)
    requires n < |keys|
    ensures FanOutKeys(s, keys[n..], pkg, b, now)
         == FanOutKeys(FanOutKey(s, keys[n], pkg, b, now), keys[n + 1..], pkg, b, now)
    ensures ExpiredKeys(start, keys[n..], now) ==
      (if HasEntry(start, keys[n]) && Expired(start.subs[start.table.at[keys[n]]], now) then [keys[n]] else [])
      + ExpiredKeys(start, keys[n + 1..], now)
  {
    assert keys[n..][1..] == keys[n + 1..];
  }

  class SipSubscription {
    const uri: string
    const pkg: Package
    const callId: string
    const expiresAt: int
    const minInterval: int
    var lastNotifyMono: int
    var notifyCseq: nat
    var pendingBody: Option<Body>
    var timerHandle: Option<nat>
    /** The event-loop entries made for this object; a handle is a place in it. */
    var loopEntries: seq<Timer>
    ghost const id: nat
    ghost var pendingVersion: nat

    constructor (ghost id: nat, uri: string, pkg: Package, callId: string, expiresAt: int, minInterval: int)
      ensures this.id == id
      ensures View() == Sub(uri, pkg, callId, expiresAt, minInterval, 0, 0, None, None, [])
    {
      this.id, this.uri, this.pkg, this.callId := id, uri, pkg, callId;
      this.expiresAt, this.minInterval := expiresAt, minInterval;
      lastNotifyMono, notifyCseq, pendingBody, timerHandle, loopEntries := 0, 0, None, None, [];
      pendingVersion := 0;
    }

    ghost function View(): Sub
      reads this
    {
      Sub(uri, pkg, callId, expiresAt, minInterval, lastNotifyMono, notifyCseq,
          if pendingBody.Some? then Some(Stamped(pendingBody.value, pendingVersion)) else None,
          timerHandle, loopEntries)
    }

    predicate IsExpired(now: int) {
      now >= expiresAt
    }

    /** `handle.cancel()` on the object's handle, which keeps its value. */
    method CancelTimer()
      requires timerHandle.Some?
      modifies this
      ensures View() == CancelHandle(old(View()))
    {
      var h := timerHandle.value;
      if h < |loopEntries| {
        loopEntries := loopEntries[h := loopEntries[h].(live := false)];
      }
    }

    /** `_schedule_notify_timer` */
    method ScheduleTimer(now: int)
      modifies this
      ensures View() == Arm(old(View()), now)
    {
      if timerHandle.Some? {
        return;
      }
      timerHandle := Some(|loopEntries|);
      loopEntries := loopEntries + [Timer(now + minInterval, true)];
    }
  }

  class ElementStateNotifier {
    const cfg: Config
    const store: InProcessStateStore
    const minInterval: int
    var lastNotifyMono: int
    var notifyPending: bool
    var loopEntries: seq<Timer>
    var callback: SipNotifier?
    ghost var dispatched: seq<int>
    ghost var log: History

    constructor (cfg: Config, store: InProcessStateStore, minInterval: int)
      ensures this.cfg == cfg && this.store == store && callback == null
      ensures UpView() == Fresh(minInterval) && log == [GetNotifyBody()]
    {
      this.cfg, this.store, this.minInterval := cfg, store, minInterval;
      lastNotifyMono, notifyPending, loopEntries, callback := 0, false, [], null;
      dispatched, log := [], [ElementNotifyBody(cfg, store.element)];
    }

    ghost function UpView(): Upstream
      reads this
    {
      Upstream(minInterval, lastNotifyMono, notifyPending, loopEntries, dispatched)
    }

    function GetNotifyBody(): Body
      reads this, store
    {
      ElementNotifyBody(cfg, store.element)
    }

    ghost function Shows(): Stamped
      reads this, store
    {
      Stamped(GetNotifyBody(), |log| - 1)
    }

    ghost predicate Wired()
      reads this, callback, if callback == null then [] else callback.created
    {
      callback != null && callback.Valid() && callback.elementNotifier == this
    }

    method SetState(st: ElementState, reason: string, now: int)
      requires Wired()
      modifies this, store`element, callback, callback.created
      ensures Wired() && callback == old(callback) && callback.created == old(callback.created)
      ensures var changed := old(store.element) != ElementBundle(st, reason);
        && store.element == ElementBundle(st, reason)
        && (!changed ==> UpView() == old(UpView()) && log == old(log) && callback.View() == old(callback.View()))
        && (changed ==>
              && log == old(log) + [GetNotifyBody()]
              && UpView() == Scheduled(old(UpView()), now)
              && callback.View() == if WindowPassed(old(UpView()), now)
                   then FanOut(old(callback.View()), ElementPackage, Shows(), now)
                   else old(callback.View()))
    {
      hide FanOut, SipNotifier.Valid, SipNotifier.View;
      var current := store.element;
      if current.state == st && current.reason == reason {
        return;
      }
      ghost var sip := callback.View();
      Write(ElementBundle(st, reason));
      assert callback.View() == sip;
      ScheduleNotify(now);
    }

    method Write(b: ElementBundle)
      requires Wired()
      modifies this`log, store`element
      ensures store.element == b && log == old(log) + [GetNotifyBody()]
      ensures Wired() && callback.View() == old(callback.View())
    {
      store.SetElementState(b);
      log := log + [GetNotifyBody()];
    }

    method ScheduleNotify(now: int)
      requires Wired()
      modifies this, callback, callback.created
      ensures Wired() && callback == old(callback) && callback.created == old(callback.created)
      ensures log == old(log) && UpView() == Scheduled(old(UpView()), now)
      ensures callback.View() == if WindowPassed(old(UpView()), now)
        then FanOut(old(callback.View()), ElementPackage, old(Shows()), now) else old(callback.View())
    {
      var elapsed := now - lastNotifyMono;
      var remaining := minInterval - elapsed;
      if remaining <= 0 {
        DispatchNotify(now);
        return;
      }
      if notifyPending {
        return;
      }
      notifyPending := true;
      loopEntries := loopEntries + [Timer(now + remaining, true)];
    }

    /** `_deferred_dispatch`, run by the event loop for one of its entries. */
    method DeferredDispatch(t: nat, now: int)
      requires Wired() && t < |loopEntries|
      modifies this, callback, callback.created
      ensures Wired() && callback == old(callback) && callback.created == old(callback.created)
      ensures log == old(log) && UpView() == Deferred(old(UpView()), t, now)
      ensures callback.View() == FanOut(old(callback.View()), ElementPackage, old(Shows()), now)
    {
      hide FanOut, SipNotifier.Valid, SipNotifier.View;
      loopEntries := loopEntries[t := loopEntries[t].(live := false)];
      notifyPending := false;
      DispatchNotify(now);
    }

    method DispatchNotify(now: int)
      requires Wired()
      modifies this`lastNotifyMono, this`dispatched, callback, callback.created
      ensures Wired() && callback.created == old(callback.created)
      ensures UpView() == Dispatched(old(UpView()), now)
      ensures callback.View() == FanOut(old(callback.View()), ElementPackage, old(Shows()), now)
    {
      hide FanOut, SipNotifier.Valid, SipNotifier.View;
      lastNotifyMono := now;
      dispatched := dispatched + [now];
      var body := GetNotifyBody();
      callback.DoFanOut(ElementPackage, body, |log| - 1, now);
    }
  }

  class ServiceStateNotifier {
    const cfg: Config
    const store: InProcessStateStore
    const minInterval: int
    var lastNotifyMono: int
    var notifyPending: bool
    var loopEntries: seq<Timer>
    var callback: SipNotifier?
    ghost var dispatched: seq<int>
    ghost var log: History

    /** Seeds the posture when it is supported and the store has none. */
    constructor (cfg: Config, store: InProcessStateStore, minInterval: int, initial: Posture)
      modifies store`service
      ensures this.cfg == cfg && this.store == store && callback == null
      ensures UpView() == Fresh(minInterval) && log == [GetNotifyBody()]
      ensures store.service.state == old(store.service.state) && store.service.reason == old(store.service.reason)
      ensures store.service.posture ==
        if cfg.supportsPosture && old(store.service.posture).None? then Some(PostureBundle(initial, ""))
        else old(store.service.posture)
    {
      this.cfg, this.store, this.minInterval := cfg, store, minInterval;
      lastNotifyMono, notifyPending, loopEntries, callback := 0, false, [], null;
      dispatched := [];
      log := [ServiceNotifyBody(cfg, store.service)];
      new;
      if cfg.supportsPosture {
        var current := store.service;
        if current.posture.None? {
          store.SetServiceState(ServiceBundle(current.state, current.reason, Some(PostureBundle(initial, ""))));
        }
      }
      log := [GetNotifyBody()];
    }

    ghost function UpView(): Upstream
      reads this
    {
      Upstream(minInterval, lastNotifyMono, notifyPending, loopEntries, dispatched)
    }

    function GetNotifyBody(): Body
      reads this, store
    {
      ServiceNotifyBody(cfg, store.service)
    }

    ghost function Shows(): Stamped
      reads this, store
    {
      Stamped(GetNotifyBody(), |log| - 1)
    }

    ghost predicate Wired()
      reads this, callback, if callback == null then [] else callback.created
    {
      callback != null && callback.Valid() && callback.serviceNotifier == this
    }

    method Write(b: ServiceBundle)
      requires Wired()
      modifies this`log, store`service
      ensures store.service == b && log == old(log) + [GetNotifyBody()]
      ensures Wired() && callback.View() == old(callback.View())
    {
      store.SetServiceState(b);
      log := log + [GetNotifyBody()];
    }

    /** What a write followed by `_schedule_notify` does. */
    twostate predicate Published(bundle: ServiceBundle, now: int)
      requires old(Wired()) && Wired()
      reads this, store, callback, callback.created
    {
      && store.service == bundle
      && log == old(log) + [GetNotifyBody()]
      && UpView() == Scheduled(old(UpView()), now)
      && callback == old(callback)
      && callback.View() == if WindowPassed(old(UpView()), now)
           then FanOut(old(callback.View()), ServicePackage, Shows(), now)
           else old(callback.View())
    }

    method SetState(st: ServiceState, reason: string, now: int)
      requires Wired()
      modifies this, store`service, callback, callback.created
      ensures Wired() && callback == old(callback) && callback.created == old(callback.created)
      ensures if old(store.service.state) == st && old(store.service.reason) == reason
        then store.service == old(store.service) && UpView() == old(UpView()) && log == old(log)
             && callback.View() == old(callback.View())
        else Published(old(store.service).(state := st, reason := reason), now)
    {
      hide FanOut, SipNotifier.Valid, SipNotifier.View;
      var current := store.service;
      if current.state == st && current.reason == reason {
        return;
      }
      Write(ServiceBundle(st, reason, current.posture));
      ScheduleNotify(now);
    }

    method SetSecurityPosture(p: Posture, reason: string, now: int)
      requires Wired()
      modifies this, store`service, callback, callback.created
      ensures Wired() && callback == old(callback) && callback.created == old(callback.created)
      ensures if old(store.service.posture) == Some(PostureBundle(p, reason))
        then store.service == old(store.service) && UpView() == old(UpView()) && log == old(log)
             && callback.View() == old(callback.View())
        else Published(old(store.service).(posture := Some(PostureBundle(p, reason))), now)
    {
      hide FanOut, SipNotifier.Valid, SipNotifier.View;
      var current := store.service;
      var sp := current.posture;
      if sp.Some? && sp.value.posture == p && sp.value.reason == reason {
        return;
      }
      Write(ServiceBundle(current.state, current.reason, Some(PostureBundle(p, reason))));
      ScheduleNotify(now);
    }

    method ScheduleNotify(now: int)
      requires Wired()
      modifies this, callback, callback.created
      ensures Wired() && callback == old(callback) && callback.created == old(callback.created)
      ensures log == old(log) && UpView() == Scheduled(old(UpView()), now)
      ensures callback.View() == if WindowPassed(old(UpView()), now)
        then FanOut(old(callback.View()), ServicePackage, old(Shows()), now) else old(callback.View())
    {
      var elapsed := now - lastNotifyMono;
      var remaining := minInterval - elapsed;
      if remaining <= 0 {
        DispatchNotify(now);
        return;
      }
      if notifyPending {
        return;
      }
      notifyPending := true;
      loopEntries := loopEntries + [Timer(now + remaining, true)];
    }

    method DeferredDispatch(t: nat, now: int)
      requires Wired() && t < |loopEntries|
      modifies this, callback, callback.created
      ensures Wired() && callback == old(callback) && callback.created == old(callback.created)
      ensures log == old(log) && UpView() == Deferred(old(UpView()), t, now)
      ensures callback.View() == FanOut(old(callback.View()), ServicePackage, old(Shows()), now)
    {
      hide FanOut, SipNotifier.Valid, SipNotifier.View;
      loopEntries := loopEntries[t := loopEntries[t].(live := false)];
      notifyPending := false;
      DispatchNotify(now);
    }

    method DispatchNotify(now: int)
      requires Wired()
      modifies this`lastNotifyMono, this`dispatched, callback, callback.created
      ensures Wired() && callback.created == old(callback.created)
      ensures UpView() == Dispatched(old(UpView()), now)
      ensures callback.View() == FanOut(old(callback.View()), ServicePackage, old(Shows()), now)
    {
      hide FanOut, SipNotifier.Valid, SipNotifier.View;
      lastNotifyMono := now;
      dispatched := dispatched + [now];
      var body := GetNotifyBody();
      callback.DoFanOut(ServicePackage, body, |log| - 1, now);
    }
  }

  /** The table with objects named by their place. */
  ghost function Ids(d: Dict<string, SipSubscription>): Dict<string, nat> {
    Dict(d.order, map k | k in d.at :: d.at[k].id)
  }

  lemma IdsPop(d: Dict<string, SipSubscription>, k: string)
    ensures Ids(d.Pop(k)) == Ids(d).Pop(k)
  {
    assert Ids(d.Pop(k)).at == Ids(d).Pop(k).at;
  }

  lemma IdsPut(d: Dict<string, SipSubscription>, k: string, sub: SipSubscription)
    ensures Ids(d.Put(k, sub)) == Ids(d).Put(k, sub.id)
  {
    assert Ids(d.Put(k, sub)).at == Ids(d).Put(k, sub.id).at;
  }

  lemma {:induction false} IdsPopAll(d: Dict<string, SipSubscription>, ks: seq<string>)
    ensures Ids(d.PopAll(ks)) == Ids(d).PopAll(ks)
    decreases |ks|
  {
    if ks != [] {
      IdsPop(d, ks[0]);
      IdsPopAll(d.Pop(ks[0]), ks[1..]);
    }
  }

  class SipNotifier {
    const elementNotifier: ElementStateNotifier
    const serviceNotifier: ServiceStateNotifier
    const maxSubscriptions: int
    var subscriptions: Dict<string, SipSubscription>
    /** Every subscription object ever made, in order; `id` is the place. */
    ghost var created: seq<SipSubscription>
    ghost var trace: seq<Notify>

    ghost predicate Valid()
      reads this, created
    {
      && (forall i :: 0 <= i < |created| ==> created[i].id == i)
      && subscriptions.Valid()
      && (forall k :: k in subscriptions.at ==>
            && subscriptions.at[k].id < |created|
            && created[subscriptions.at[k].id] == subscriptions.at[k]
            && subscriptions.at[k].callId == k)
    }

    ghost function Views(): (v: seq<Sub>)
      reads this, created
      ensures |v| == |created| && forall i :: 0 <= i < |v| ==> v[i] == created[i].View()
    {
      seq(|created|, i requires 0 <= i < |created| reads this, created => created[i].View())
    }

    ghost function View(): Sip
      reads this, created
    {
      Sip(Views(), Ids(subscriptions), maxSubscriptions, trace)
    }

    ghost function PublishedNow(): Published
      reads elementNotifier, elementNotifier.store, serviceNotifier, serviceNotifier.store
    {
      SipModel.Published(elementNotifier.Shows(), serviceNotifier.Shows())
    }

    /** Registers itself with both notifiers. */
    constructor (elementNotifier: ElementStateNotifier, serviceNotifier: ServiceStateNotifier, maxSubscriptions: int)
      modifies elementNotifier`callback, serviceNotifier`callback
      ensures Valid() && created == []
      ensures View() == Sip([], Dict([], map[]), maxSubscriptions, [])
      ensures this.elementNotifier == elementNotifier && this.serviceNotifier == serviceNotifier
      ensures elementNotifier.callback == this && serviceNotifier.callback == this
    {
      this.elementNotifier, this.serviceNotifier := elementNotifier, serviceNotifier;
      this.maxSubscriptions := maxSubscriptions;
      subscriptions := Dict([], map[]);
      created, trace := [], [];
      new;
      elementNotifier.callback := this;
      serviceNotifier.callback := this;
      assert View() == Sip([], Dict([], map[]), maxSubscriptions, []);
    }

    ghost predicate Owns(sub: SipSubscription)
      reads this
    {
      sub.id < |created| && created[sub.id] == sub
    }

    /** `_deliver_notify`; the send is an attempt, so it is recorded whatever becomes of it. */
    method DeliverNotify(sub: SipSubscription, body: Body, ghost version: nat, now: int)
      requires Valid() && Owns(sub)
      modifies this`trace, sub
      ensures Valid() && View() == Deliver(old(View()), sub.id, Stamped(body, version), now)
    {
      ghost var n := NotifyOf(sub.View(), sub.id, Stamped(body, version), now);
      if sub.timerHandle.Some? {
        sub.CancelTimer();
        sub.timerHandle := None;
      }
      sub.pendingBody := None;
      sub.lastNotifyMono := now;
      sub.notifyCseq := sub.notifyCseq + 1;
      trace := trace + [n];
      if sub.minInterval > 0 {
        sub.ScheduleTimer(now);
      }
      assert sub.View() == Delivered(old(sub.View()), now);
      assert View().subs == old(View()).subs[sub.id := sub.View()];
    }

    /** `_rate_filtered_deliver` */
    method RateFiltered(sub: SipSubscription, body: Body, ghost version: nat, now: int)
      requires Valid() && Owns(sub)
      modifies this`trace, sub
      ensures Valid() && View() == RateFilteredDeliver(old(View()), sub.id, Stamped(body, version), now)
    {
      var elapsed := now - sub.lastNotifyMono;
      if sub.minInterval == 0 || elapsed >= sub.minInterval {
        DeliverNotify(sub, body, version, now);
        return;
      }
      sub.pendingBody := Some(body);
      sub.pendingVersion := version;
      if sub.timerHandle.None? {
        sub.ScheduleTimer(now);
      }
      assert View().subs == old(View()).subs[sub.id := sub.View()];
    }

    /** One round of the loop in `_fan_out`. */
    method Visit(callId: string, pkg: Package, body: Body, ghost version: nat, now: int) returns (isExpired: bool)
      requires Valid() && callId in subscriptions.at
      modifies this`trace, created
      ensures Valid() && View() == FanOutKey(old(View()), callId, pkg, Stamped(body, version), now)
      ensures SameTable(old(View()), View())
      ensures HasEntry(old(View()), callId)
      ensures isExpired == Expired(old(View()).subs[old(View()).table.at[callId]], now)
    {
      var sub := subscriptions.at[callId];
      isExpired := sub.IsExpired(now);
      if isExpired {
        return;
      }
      if sub.pkg != pkg {
        return;
      }
      RateFiltered(sub, body, version, now);
    }

    lemma TableKeys()
      requires Valid()
      ensures View().table.order == subscriptions.order
      ensures forall k :: k in subscriptions.order ==> k in subscriptions.at
    {
    }

    /** The loop of `_fan_out`; the expired keys are collected, not yet removed. */
    method VisitAll(keys: seq<string>, pkg: Package, body: Body, ghost version: nat, now: int) returns (expired: seq<string>)
      requires Valid() && forall k :: k in keys ==> k in subscriptions.at
      modifies this`trace, created
      ensures Valid() && SameTable(old(View()), View())
      ensures View() == FanOutKeys(old(View()), keys, pkg, Stamped(body, version), now)
      ensures expired == ExpiredKeys(old(View()), keys, now)
    {
      hide SipNotifier.Valid, SipNotifier.View, FanOutKey, FanOutKeys, ExpiredKeys;
      ghost var start := View();
      ghost var b := Stamped(body, version);
      expired := [];
      FanOutEnds(start, keys, pkg, b, now);
      var n := 0;
      while n < |keys|
        invariant 0 <= n <= |keys| && Valid() && SameTable(start, View())
        invariant FanOutKeys(View(), keys[n..], pkg, b, now) == FanOutKeys(start, keys, pkg, b, now)
        invariant expired + ExpiredKeys(start, keys[n..], now) == ExpiredKeys(start, keys, now)
      {
        Unroll(View(), start, keys, n, pkg, b, now);
        var isExpired := Visit(keys[n], pkg, body, version, now);
        if isExpired {
          expired := expired + [keys[n]];
        }
        n := n + 1;
      }
      FanOutEnds(View(), keys, pkg, b, now);
      FanOutEnds(start, keys, pkg, b, now);
    }

    /** `_fan_out`: one pass over the table, then the expired keys leave. */
    method DoFanOut(pkg: Package, body: Body, ghost version: nat, now: int)
      requires Valid()
      modifies this`trace, this`subscriptions, created
      ensures Valid() && View() == FanOut(old(View()), pkg, Stamped(body, version), now)
    {
      TableKeys();
      hide SipNotifier.Valid, SipNotifier.View, FanOutKeys, ExpiredKeys;
      var expired := VisitAll(subscriptions.order, pkg, body, version, now);
      PruneExpired(expired);
    }

    /** The keys found expired leave the table; their objects are not touched. */
    method PruneExpired(expired: seq<string>)
      requires Valid()
      modifies this`subscriptions
      ensures Valid() && View() == old(View()).(table := old(View()).table.PopAll(expired))
    {
      var n := 0;
      assert expired[n..] == expired;
      while n < |expired|
        invariant 0 <= n <= |expired|
        invariant subscriptions.PopAll(expired[n..]) == old(subscriptions).PopAll(expired)
      {
        assert expired[n..][1..] == expired[n + 1..];
        subscriptions := subscriptions.Pop(expired[n]);
        n := n + 1;
      }
      assert subscriptions == old(subscriptions).PopAll(expired);
      IdsPopAll(old(subscriptions), expired);
    }

    /** `_timer_fired`, run by the event loop for entry `t` of the object. */
    method DoTimerFired(sub: SipSubscription, t: nat, now: int)
      requires Valid() && Owns(sub) && t < |sub.loopEntries|
      modifies this`trace, sub
      ensures Valid() && View() == TimerFired(old(View()), sub.id, t, old(PublishedNow()), now)
    {
      sub.loopEntries := sub.loopEntries[t := sub.loopEntries[t].(live := false)];
      sub.timerHandle := None;
      assert View() == RanTimer(old(View()), sub.id, t);
      if sub.IsExpired(now) {
        return;
      }
      var body;
      ghost var version;
      if sub.pendingBody.Some? {
        body, version := sub.pendingBody.value, sub.pendingVersion;
      } else if sub.pkg == ElementPackage {
        body, version := elementNotifier.GetNotifyBody(), |elementNotifier.log| - 1;
      } else {
        body, version := serviceNotifier.GetNotifyBody(), |serviceNotifier.log| - 1;
      }
      DeliverNotify(sub, body, version, now);
    }

    /** `handle_subscribe` */
    method HandleSubscribe(r: Request, now: int) returns (resp: Response)
      requires Valid()
      modifies this, created
      ensures Valid() && old(created) <= created && fresh(created[|old(created)|..])
      ensures View() == Subscribe(old(View()), r, old(PublishedNow()), now)
      ensures resp == Verdict(old(View()), r)
      ensures Handled(old(View()), View(), resp, r, old(PublishedNow()), now)
    {
      hide SipNotifier.Valid, SipNotifier.View, Enter, Deliver, Unsubscribe, Handled;
      ViewTableKeys();
      AnyOutcomeIsHandled(r, now);
      if r.event.Unknown? {
        return Response(489, None, None);
      }
      if !r.authorized || !r.targetOk {
        return Response(403, None, None);
      }
      if r.expires == Some(0) {
        Remove(r.callId);
        return Response(200, Some(0), None);
      }
      var requested := if r.expires.Some? then r.expires.value else DEFAULT_SUBSCRIPTION_SECONDS;
      if requested < MIN_SUBSCRIPTION_SECONDS {
        return Response(423, None, Some(MIN_SUBSCRIPTION_SECONDS));
      }
      var negotiated := if requested <= MAX_SUBSCRIPTION_SECONDS then requested else MAX_SUBSCRIPTION_SECONDS;
      if r.callId !in subscriptions.at && |subscriptions.at| >= maxSubscriptions {
        return Response(503, None, None);
      }
      var sub := Insert(r, negotiated, now);
      SendCurrentState(sub, now);
      resp := Response(200, Some(negotiated), None);
    }

    /** `_send_current_state_notify` */
    method SendCurrentState(sub: SipSubscription, now: int)
      requires Valid() && Owns(sub)
      modifies this`trace, sub
      ensures Valid() && View() == Deliver(old(View()), sub.id, old(PublishedNow()).Of(sub.pkg), now)
    {
      if sub.pkg == ElementPackage {
        DeliverNotify(sub, elementNotifier.GetNotifyBody(), |elementNotifier.log| - 1, now);
      } else {
        DeliverNotify(sub, serviceNotifier.GetNotifyBody(), |serviceNotifier.log| - 1, now);
      }
    }

    lemma AnyOutcomeIsHandled(r: Request, now: int)
      requires Valid()
      ensures Handled(View(), Subscribe(View(), r, PublishedNow(), now), Verdict(View(), r), r, PublishedNow(), now)
    {
      assert TableOk(View());
      hide TableOk, SipNotifier.Valid, SipNotifier.View;
      SubscribeIsHandled(View(), r, PublishedNow(), now);
    }

    lemma ViewTableKeys()
      ensures forall k :: k in View().table.at <==> k in subscriptions.at
      ensures |View().table.at| == |subscriptions.at| && View().capacity == maxSubscriptions
      ensures |View().subs| == |created|
    {
      assert Ids(subscriptions).at.Keys == subscriptions.at.Keys;
      assert |Ids(subscriptions).at| == |subscriptions.at|;
    }

    /** Cancels the object's timer if it has a handle. */
    method CancelTimerOf(sub: SipSubscription)
      requires Valid() && Owns(sub)
      modifies sub
      ensures Valid()
      ensures View() == old(View()).(subs := old(View()).subs[sub.id := CancelHandle(old(View()).subs[sub.id])])
    {
      if sub.timerHandle.Some? {
        sub.CancelTimer();
      }
      assert sub.View() == CancelHandle(old(sub.View()));
      assert View().subs == old(View()).subs[sub.id := sub.View()];
    }

    /** A new object enters the table under its Call-ID. */
    method Add(r: Request, negotiated: int, now: int) returns (sub: SipSubscription)
      requires Valid() && r.event.Known? && negotiated == Negotiated(r.expires)
      modifies this`subscriptions, this`created
      ensures Valid() && fresh(sub) && created == old(created) + [sub] && Owns(sub)
      ensures sub.id == |old(created)| && sub.pkg == r.event.pkg
      ensures View() == old(View()).(subs := old(View()).subs + [NewSub(r, now)],
                                     table := old(View()).table.Put(r.callId, |old(created)|))
    {
      ghost var start := View();
      sub := new SipSubscription(|created|, r.uri, r.event.pkg, r.callId, now + negotiated, r.minInterval);
      IdsPut(subscriptions, r.callId, sub);
      subscriptions := subscriptions.Put(r.callId, sub);
      created := created + [sub];
      assert View().subs == start.subs + [NewSub(r, now)];
    }

    /** The new object takes its Call-ID's place; a replaced object's timer is cancelled. */
    method Insert(r: Request, negotiated: int, now: int) returns (sub: SipSubscription)
      requires Valid() && r.event.Known? && negotiated == Negotiated(r.expires)
      modifies this`subscriptions, this`created, created
      ensures Valid() && fresh(sub) && created == old(created) + [sub] && Owns(sub)
      ensures sub.id == |old(created)| && sub.pkg == r.event.pkg
      ensures View() == Enter(old(View()), r, now)
    {
      if r.callId in subscriptions.at {
        CancelTimerOf(subscriptions.at[r.callId]);
      }
      sub := Add(r, negotiated, now);
    }

    method Remove(k: string)
      requires Valid()
      modifies this`subscriptions, created
      ensures Valid() && View() == Unsubscribe(old(View()), k)
    {
      assert k in View().table.at <==> k in subscriptions.at;
      if k in subscriptions.at {
        var removed := subscriptions.at[k];
        assert HasEntry(View(), k) && View().table.at[k] == removed.id;
        hide SipNotifier.Valid, SipNotifier.View, CancelHandle;
        PopEntry(k);
        CancelTimerOf(removed);
      } else {
        PopEntry(k);
      }
    }

    /** One key leaves the table, if it is there. */
    method PopEntry(k: string)
      requires Valid()
      modifies this`subscriptions
      ensures Valid() && View() == old(View()).(table := old(View()).table.Pop(k))
    {
      IdsPop(subscriptions, k);
      subscriptions := subscriptions.Pop(k);
    }

    lemma {:induction false} ExpiredOfKeys(keys: seq<string>, now: int)
      requires Valid()
      ensures ExpiredOf(subscriptions, keys, now) == ExpiredKeys(View(), keys, now)
      decreases |keys|
    {
      if keys != [] {
        ExpiredOfKeys(keys[1..], now);
      }
    }

    /** One pass of `_subscription_cleanup_loop`. */
    method DoCleanup(now: int)
      requires Valid()
      modifies this`subscriptions, created
      ensures Valid() && View() == Cleanup(old(View()), now)
    {
      CleanupIsRemoval(View(), now);
      ExpiredOfKeys(subscriptions.order, now);
      TableKeys();
      hide SipNotifier.Valid, SipNotifier.View, Unsubscribe, Cleanup, ExpiredKeys, ExpiredOf;
      RemoveAll(ExpiredOf(subscriptions, subscriptions.order, now));
    }

    method RemoveAll(expired: seq<string>)
      requires Valid()
      modifies this`subscriptions, created
      ensures Valid() && View() == UnsubscribeAll(old(View()), expired)
    {
      hide SipNotifier.Valid, SipNotifier.View, Unsubscribe;
      ghost var start := View();
      var n := 0;
      assert expired[n..] == expired;
      while n < |expired|
        invariant 0 <= n <= |expired| && Valid()
        invariant UnsubscribeAll(View(), expired[n..]) == UnsubscribeAll(start, expired)
      {
        assert expired[n..][1..] == expired[n + 1..];
        Remove(expired[n]);
        n := n + 1;
      }
    }
  }

  /** The comprehension at the start of a cleanup pass. */
  function ExpiredOf(d: Dict<string, SipSubscription>, keys: seq<string>, now: int): seq<string> {
    if keys == [] then []
    else
      (if keys[0] in d.at && d.at[keys[0]].IsExpired(now) then [keys[0]] else [])
      + ExpiredOf(d, keys[1..], now)
  }

  ghost function UnsubscribeAll(s: Sip, ks: seq<string>): Sip
    decreases |ks|
  {
    if ks == [] then s else UnsubscribeAll(Unsubscribe(s, ks[0]), ks[1..])
  }

  lemma UnsubscribeEffect(s: Sip, k: string)
    requires TableOk(s)
    ensures var u := Unsubscribe(s, k);
      && TableOk(u) && u.table == s.table.Pop(k) && u.trace == s.trace && u.capacity == s.capacity
      && |u.subs| == |s.subs|
      && forall i :: 0 <= i < |s.subs| ==>
           && u.subs[i].callId == s.subs[i].callId
           && u.subs[i] == (if Current(s, i) && s.subs[i].callId == k then CancelHandle(s.subs[i]) else s.subs[i])
           && (Current(u, i) <==> Current(s, i) && s.subs[i].callId != k)
  {
    RemoveKeepsOthers(s.table.order, k);
    hide Remove;
  }

  lemma {:induction false} UnsubscribeAllEffect(s: Sip, ks: seq<string>)
    requires TableOk(s)
    ensures var s' := UnsubscribeAll(s, ks);
      && s'.table == s.table.PopAll(ks) && s'.trace == s.trace && s'.capacity == s.capacity
      && |s'.subs| == |s.subs|
      && forall i :: 0 <= i < |s.subs| ==>
           s'.subs[i] == if Current(s, i) && s.subs[i].callId in ks then CancelHandle(s.subs[i]) else s.subs[i]
    decreases |ks|
  {
    if ks != [] {
      UnsubscribeEffect(s, ks[0]);
      UnsubscribeAllEffect(Unsubscribe(s, ks[0]), ks[1..]);
      hide Unsubscribe, CancelHandle, Current, TableOk;
      assert forall k :: k in ks <==> k == ks[0] || k in ks[1..];
    }
  }

  /** A cleanup pass is an unsubscribe of every expired key. */
  lemma CleanupIsRemoval(s: Sip, now: int)
    requires TableOk(s)
    ensures Cleanup(s, now) == UnsubscribeAll(s, ExpiredKeys(s, s.table.order, now))
  {
    var ks := ExpiredKeys(s, s.table.order, now);
    UnsubscribeAllEffect(s, ks);
    assert Cleanup(s, now).subs == UnsubscribeAll(s, ks).subs;
  }

  /** The singletons of one process, wired together. Each method is what the event loop or an
      application call does; each is one step of the state machine. */
  class StateComponents {
    const elementStore: InProcessStateStore
    const serviceStore: InProcessStateStore
    const element: ElementStateNotifier
    const service: ServiceStateNotifier
    const sip: SipNotifier

    ghost predicate Valid()
      reads this, element, service, sip, sip.created
    {
      && element.store == elementStore && service.store == serviceStore
      && element.cfg == service.cfg
      && element.callback == sip && service.callback == sip
      && sip.elementNotifier == element && sip.serviceNotifier == service && sip.Valid()
    }

    ghost function View(now: int): System
      reads this, elementStore, serviceStore, element, service, sip, sip.created
    {
      System(now, element.cfg, elementStore.element, serviceStore.service,
             element.UpView(), service.UpView(), sip.View(), Logs(element.log, service.log))
    }

    constructor (cfg: Config, elementInterval: int, serviceInterval: int, initial: Posture,
                 maxSubscriptions: int, ghost now: int)
      ensures Valid() && fresh({elementStore, serviceStore, element, service, sip})
      ensures View(now) == Started(cfg, ElementBundle(Normal, ""),
        ServiceBundle(SNormal, "", if cfg.supportsPosture then Some(PostureBundle(initial, "")) else None),
        elementInterval, serviceInterval, maxSubscriptions, now)
    {
      var es := new InProcessStateStore();
      var ss := new InProcessStateStore();
      elementStore, serviceStore := es, ss;
      var el := new ElementStateNotifier(cfg, es, elementInterval);
      var sv := new ServiceStateNotifier(cfg, ss, serviceInterval, initial);
      element, service := el, sv;
      sip := new SipNotifier(el, sv, maxSubscriptions);
    }

    /** The start of the lifespan: clean defaults go straight into the stores, past the
        notifiers and over the posture that the service notifier seeded. */
    method Startup(ghost now: int)
      requires Valid() && element.UpView() == Fresh(element.minInterval) && service.UpView() == Fresh(service.minInterval)
      requires sip.View() == Sip([], Dict([], map[]), sip.maxSubscriptions, [])
      modifies elementStore`element, serviceStore`service, element`log, service`log
      ensures Valid()
      ensures View(now) == Started(element.cfg, ElementBundle(Normal, ""), ServiceBundle(SNormal, "", None),
                                   element.minInterval, service.minInterval, sip.maxSubscriptions, now)
    {
      elementStore.SetElementState(ElementBundle(Normal, ""));
      serviceStore.SetServiceState(ServiceBundle(SNormal, "", None));
      element.log := [element.GetNotifyBody()];
      service.log := [service.GetNotifyBody()];
    }

    method SetElementState(st: ElementState, reason: string, ghost before: int, now: int)
      requires Valid() && before <= now
      modifies element, elementStore, sip, sip.created
      ensures Valid() && View(now) == Step(old(View(before)), now, Event.SetElementState(st, reason))
    {
      hide FanOut, SipNotifier.Valid, SipNotifier.View;
      element.SetState(st, reason, now);
    }

    method SetServiceState(st: ServiceState, reason: string, ghost before: int, now: int)
      requires Valid() && before <= now
      modifies service, serviceStore, sip, sip.created
      ensures Valid() && View(now) == Step(old(View(before)), now, Event.SetServiceState(st, reason))
    {
      hide FanOut, SipNotifier.Valid, SipNotifier.View;
      service.SetState(st, reason, now);
    }

    method SetSecurityPosture(p: Posture, reason: string, ghost before: int, now: int)
      requires Valid() && before <= now
      modifies service, serviceStore, sip, sip.created
      ensures Valid() && View(now) == Step(old(View(before)), now, Event.SetSecurityPosture(p, reason))
    {
      hide FanOut, SipNotifier.Valid, SipNotifier.View;
      service.SetSecurityPosture(p, reason, now);
    }

    method ElementDeferred(t: nat, ghost before: int, now: int)
      requires Valid() && Enabled(View(before), now, Event.DeferredDispatch(ElementPackage, t))
      modifies element, sip, sip.created
      ensures Valid() && View(now) == Step(old(View(before)), now, Event.DeferredDispatch(ElementPackage, t))
    {
      hide FanOut, SipNotifier.Valid, SipNotifier.View;
      element.DeferredDispatch(t, now);
    }

    method ServiceDeferred(t: nat, ghost before: int, now: int)
      requires Valid() && Enabled(View(before), now, Event.DeferredDispatch(ServicePackage, t))
      modifies service, sip, sip.created
      ensures Valid() && View(now) == Step(old(View(before)), now, Event.DeferredDispatch(ServicePackage, t))
    {
      hide FanOut, SipNotifier.Valid, SipNotifier.View;
      service.DeferredDispatch(t, now);
    }

    method IncomingSubscribe(r: Request, ghost before: int, now: int) returns (resp: Response)
      requires Valid() && before <= now
      modifies sip, sip.created
      ensures Valid() && View(now) == Step(old(View(before)), now, Event.IncomingSubscribe(r))
      ensures resp == Verdict(old(sip.View()), r)
      ensures Handled(old(sip.View()), sip.View(), resp, r, old(sip.PublishedNow()), now)
    {
      hide Subscribe, Verdict, Handled, SipNotifier.Valid, SipNotifier.View;
      resp := sip.HandleSubscribe(r, now);
    }

    method SubscriptionTimer(sub: SipSubscription, t: nat, ghost before: int, now: int)
      requires Valid() && sip.Owns(sub)
      requires Enabled(View(before), now, Event.SubscriptionTimer(sub.id, t))
      modifies sip, sub
      ensures Valid() && View(now) == Step(old(View(before)), now, Event.SubscriptionTimer(sub.id, t))
    {
      sip.DoTimerFired(sub, t, now);
    }

    method CleanupPass(ghost before: int, now: int)
      requires Valid() && before <= now
      modifies sip, sip.created
      ensures Valid() && View(now) == Step(old(View(before)), now, Event.CleanupPass)
    {
      hide Cleanup, SipNotifier.Valid, SipNotifier.View;
      sip.DoCleanup(now);
    }
  }

  /** Construction followed by startup. Afterwards the service body shows the configured
      initial posture if and only if posture is unsupported or that posture is Green. */
  method Boot(cfg: Config, elementInterval: int, serviceInterval: int, initial: Posture,
              maxSubscriptions: int, ghost now: int)
    returns (components: StateComponents)
    ensures fresh(components) && components.Valid()
    ensures components.View(now) == Started(cfg, ElementBundle(Normal, ""), ServiceBundle(SNormal, "", None),
                                            elementInterval, serviceInterval, maxSubscriptions, now)
    ensures var seeded := ServiceBundle(SNormal, "", Some(PostureBundle(initial, "")));
      components.service.GetNotifyBody() == ServiceNotifyBody(cfg, seeded) <==> !cfg.supportsPosture || initial == Green
  {
    components := new StateComponents(cfg, elementInterval, serviceInterval, initial, maxSubscriptions, now);
    components.Startup(now);
    SeedSurvivesStartup(cfg, initial);
  }
}
