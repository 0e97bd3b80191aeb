/** What a SUBSCRIBE does, written out from the request: at once, and over the rest of a run. */
module SubscribeTheorems {
  import opened Prelude
  import opened StateStore
  import opened RateFilter
  import opened SipModel
  import opened SipInvariant
  import opened Pipeline
  import opened PipelineTheorems

  // ---------------------------------------------------------------- one request

  /** The event-loop entry that the handle refers to can no longer run; all else is as it was. */
  ghost predicate Silenced(before: Sub, after: Sub) {
    && after == before.(queue := after.queue) && |after.queue| == |before.queue|
    && forall t: nat :: t < |before.queue| ==>
         after.queue[t] == Timer(before.queue[t].due, before.queue[t].live && before.handle != Some(t))
  }

  /** The object that `callId` named has its timer cancelled; every other object is as before. */
  ghost predicate OthersKept(s: Sip, s': Sip, callId: string) {
    && |s.subs| <= |s'.subs| && s'.capacity == s.capacity
    && forall i :: 0 <= i < |s.subs| ==>
         if callId in s.table.at && s.table.at[callId] == i then Silenced(s.subs[i], s'.subs[i])
         else s'.subs[i] == s.subs[i]
  }

  /** The Call-ID has left the table, and nothing is sent. */
  ghost predicate Ended(s: Sip, s': Sip, callId: string) {
    && s'.table.at == s.table.at - {callId} && s'.table.order == Remove(s.table.order, callId)
    && |s'.subs| == |s.subs| && OthersKept(s, s', callId)
    && s'.trace == s.trace
  }

  /** A new object for the Call-ID, made from the request, with its initial NOTIFY sent and,
      if it is rate-filtered, one timer running. */
  ghost predicate Began(s: Sip, s': Sip, r: Request, granted: int, shown: Stamped, now: int)
    requires r.event.Known?
  {
    var n := |s.subs|;
    && s'.table.at == s.table.at[r.callId := n]
    && s'.table.order == (if r.callId in s.table.at then s.table.order else s.table.order + [r.callId])
    && |s'.subs| == n + 1 && OthersKept(s, s', r.callId)
    && s'.trace == s.trace + [Notify(now, n, r.callId, r.uri, r.event.pkg, 1, shown)]
    && var sub := s'.subs[n];
       && sub.uri == r.uri && sub.pkg == r.event.pkg && sub.callId == r.callId
       && sub.expiresAt == now + granted && sub.minInterval == r.minInterval
       && sub.last == now && sub.cseq == 1 && sub.pending == None
       && sub.queue == (if r.minInterval > 0 then [Timer(now + r.minInterval, true)] else [])
       && sub.handle == (if r.minInterval > 0 then Some(0) else None)
  }

  /** The whole decision, from the request and the table. */
  ghost predicate Handled(s: Sip, s': Sip, resp: Response, r: Request, pub: Published, now: int) {
    var requested := if r.expires.Some? then r.expires.value else 3_600;
    var granted := if requested <= 86_400 then requested else 86_400;
    if r.event.Unknown? then s' == s && resp == Response(489, None, None)
    else if !(r.authorized && r.targetOk) then s' == s && resp == Response(403, None, None)
    else if r.expires == Some(0) then Ended(s, s', r.callId) && resp == Response(200, Some(0), None)
    else if requested < 60 then s' == s && resp == Response(423, None, Some(60))
    else if r.callId !in s.table.at && |s.table.at| >= s.capacity then s' == s && resp == Response(503, None, None)
    else Began(s, s', r, granted, if r.event.pkg.ElementPackage? then pub.element else pub.service, now)
         && resp == Response(200, Some(granted), None)
  }

  lemma CancelSilences(sub: Sub)
    ensures Silenced(sub, CancelHandle(sub))
  {
  }

  lemma UnsubscribeEnds(s: Sip, k: string)
    requires TableOk(s)
    ensures Ended(s, Unsubscribe(s, k), k)
  {
    if k in s.table.at {
      CancelSilences(s.subs[s.table.at[k]]);
    }
    hide CancelHandle, Silenced;
  }

  lemma AcceptBegins(s: Sip, r: Request, b: Stamped, now: int)
    requires TableOk(s) && r.event.Known?
    ensures Began(s, Deliver(Enter(s, r, now), |s.subs|, b, now), r, Negotiated(r.expires), b, now)
  {
    if r.callId in s.table.at {
      CancelSilences(s.subs[s.table.at[r.callId]]);
    }
    NewObject(r, now);
    hide CancelHandle, Silenced, Delivered, NewSub, Negotiated;
  }

  lemma NewObject(r: Request, now: int)
    requires r.event.Known?
    ensures var sub := Delivered(NewSub(r, now), now);
      && sub.uri == r.uri && sub.pkg == r.event.pkg && sub.callId == r.callId
      && sub.expiresAt == now + Negotiated(r.expires) && sub.minInterval == r.minInterval
      && sub.last == now && sub.cseq == 1 && sub.pending == None
      && sub.queue == (if r.minInterval > 0 then [Timer(now + r.minInterval, true)] else [])
      && sub.handle == (if r.minInterval > 0 then Some(0) else None)
    ensures var n := NewSub(r, now);
      n.cseq == 0 && n.uri == r.uri && n.pkg == r.event.pkg && n.callId == r.callId
  {
  }

  /** Every SUBSCRIBE, accepted, refused or ending a subscription. */
  lemma SubscribeIsHandled(s: Sip, r: Request, pub: Published, now: int)
    requires TableOk(s)
    ensures Handled(s, Subscribe(s, r, pub, now), Verdict(s, r), r, pub, now)
  {
    hide Ended, Began, Enter, Deliver, Unsubscribe, TableOk;
    if Accepts(s, r) {
      AcceptBegins(s, r, pub.Of(r.event.pkg), now);
    } else if r.event.Known? {
      UnsubscribeEnds(s, r.callId);
    }
  }

  // ---------------------------------------------------------------- in a reachable state

  /** Ending a subscription leaves nothing that could still send for it: its Call-ID names no
      object, and no entry of the event loop made for the object it named can run. */
  lemma EndedIsIdle(s: System, now: int, r: Request)
    requires Inv(s) && s.now <= now
    requires r.event.Known? && r.authorized && r.targetOk && r.expires == Some(0)
    ensures var s' := Step(s, now, IncomingSubscribe(r));
      && Ended(s.sip, s'.sip, r.callId)
      && s' == s.(now := now, sip := s'.sip)
      && r.callId !in s'.sip.table.at && r.callId !in s'.sip.table.order
      && (forall i :: Current(s.sip, i) && s.sip.subs[i].callId == r.callId ==> Idle(s'.sip.subs[i]))
      && (forall i :: Current(s'.sip, i) <==> Current(s.sip, i) && s.sip.subs[i].callId != r.callId)
  {
    var pub := Publishes(s.(now := now));
    SubscribeIsHandled(s.sip, r, pub, now);
    var s' := Step(s, now, IncomingSubscribe(r));
    SubscribePreserves(s.sip, r, now, s.log) by {
      ClockAdvances(s, now);
    }
    ReplacedIsIdle(s, s'.sip, r.callId);
  }

  /** A SUBSCRIBE that opens or refreshes a subscription. */
  ghost predicate Admitted(s: Sip, r: Request) {
    && r.event.Known? && r.authorized && r.targetOk && r.expires != Some(0)
    && (r.expires.Some? ==> 60 <= r.expires.value)
    && (r.callId in s.table.at || |s.table.at| < s.capacity)
  }

  /** An accepted SUBSCRIBE: the object, its initial NOTIFY with what the store of its package
      holds, and nothing else. */
  lemma AdmittedBegins(s: System, now: int, r: Request)
    requires Inv(s) && s.now <= now && Admitted(s.sip, r)
    ensures var s' := Step(s, now, IncomingSubscribe(r));
      var requested := if r.expires.Some? then r.expires.value else 3_600;
      && Began(s.sip, s'.sip, r, if requested <= 86_400 then requested else 86_400,
               if r.event.pkg.ElementPackage? then Stamped(ElementNotifyBody(s.cfg, s.element), |s.log.element| - 1)
               else Stamped(ServiceNotifyBody(s.cfg, s.service), |s.log.service| - 1), now)
      && s' == s.(now := now, sip := s'.sip)
      && Current(s'.sip, |s.sip.subs|)
      && (forall i :: Current(s.sip, i) && s.sip.subs[i].callId == r.callId ==> Idle(s'.sip.subs[i]))
  {
    var pub := Publishes(s.(now := now));
    SubscribeStep(s, now, r);
    SubscribeIsHandled(s.sip, r, pub, now);
    AdmittedCase(s.sip, Subscribe(s.sip, r, pub, now), Verdict(s.sip, r), r, pub, now);
    ReplacedIsIdle(s, Subscribe(s.sip, r, pub, now), r.callId);
    hide *;
  }

  /** The step in terms of what the two stores hold. */
  lemma SubscribeStep(s: System, now: int, r: Request)
    requires s.now <= now
    ensures var pub := Publishes(s.(now := now));
      && Step(s, now, IncomingSubscribe(r)) == s.(now := now, sip := Subscribe(s.sip, r, pub, now))
      && pub.element == Stamped(ElementNotifyBody(s.cfg, s.element), |s.log.element| - 1)
      && pub.service == Stamped(ServiceNotifyBody(s.cfg, s.service), |s.log.service| - 1)
  {
    hide Subscribe;
  }

  lemma AdmittedCase(s: Sip, s': Sip, resp: Response, r: Request, pub: Published, now: int)
    requires Handled(s, s', resp, r, pub, now) && Admitted(s, r)
    ensures var requested := if r.expires.Some? then r.expires.value else 3_600;
      Began(s, s', r, if requested <= 86_400 then requested else 86_400,
            if r.event.pkg.ElementPackage? then pub.element else pub.service, now)
    ensures OthersKept(s, s', r.callId) && Current(s', |s.subs|)
  {
    hide OthersKept;
  }

  lemma ReplacedIsIdle(s: System, sip': Sip, callId: string)
    requires Inv(s) && OthersKept(s.sip, sip', callId)
    ensures forall i :: Current(s.sip, i) && s.sip.subs[i].callId == callId ==> Idle(sip'.subs[i])
  {
    forall i | Current(s.sip, i) && s.sip.subs[i].callId == callId ensures Idle(sip'.subs[i]) {
      assert SubOk(s.sip, i, s.now, s.log);
      assert Silenced(s.sip.subs[i], sip'.subs[i]);
    }
  }

  // ---------------------------------------------------------------- over the rest of a run

  /** What an expired entry's removal leaves: exactly the unexpired ones, whoever prunes. */
  lemma PruningIsExact(s: Sip, pkg: Package, b: Stamped, now: int)
    requires TableOk(s)
    ensures forall i :: Current(FanOut(s, pkg, b, now), i) <==> Current(s, i) && now < s.subs[i].expiresAt
    ensures forall i :: Current(Cleanup(s, now), i) <==> Current(s, i) && now < s.subs[i].expiresAt
    ensures Cleanup(s, now).trace == s.trace && |Cleanup(s, now).subs| == |s.subs|
    ensures forall i :: 0 <= i < |s.subs| ==>
      if Current(s, i) && now >= s.subs[i].expiresAt then Silenced(s.subs[i], Cleanup(s, now).subs[i])
      else Cleanup(s, now).subs[i] == s.subs[i]
  {
    FanOutKeysFrame(s, s.table.order, pkg, b, now);
    forall sub {
      CancelSilences(sub);
    }
    hide FanOutKeys, CancelHandle, Silenced;
  }

  /** A step adds no Call-ID to the table but that of an admitted SUBSCRIBE. */
  lemma TableGrowsOnlyByAdmission(s: System, now: int, e: Event, k: string)
    requires Inv(s) && Enabled(s, now, e) && k !in s.sip.table.at
    requires !(e.IncomingSubscribe? && e.request.callId == k && Admitted(s.sip, e.request))
    ensures k !in Step(s, now, e).sip.table.at
  {
    match e
    case IncomingSubscribe(r) => SubscribeIsHandled(s.sip, r, Publishes(s.(now := now)), now);
    case SubscriptionTimer(i, t) =>
    case CleanupPass =>
    case _ =>
      forall pkg, b ensures k !in FanOut(s.sip, pkg, b, now).table.at {
        FanOutKeysFrame(s.sip, s.sip.table.order, pkg, b, now);
      }
      StepFansOut(s, now, e);
  }

  /** No SUBSCRIBE of the run is admitted for the Call-ID. */
  ghost predicate NeverAdmitted(s: System, evs: seq<Timed>, callId: string)
    requires ValidRun(s, evs)
    decreases |evs|
  {
    evs == [] ||
    (var e := evs[0].event;
     && !(e.IncomingSubscribe? && e.request.callId == callId && Admitted(s.sip, e.request))
     && NeverAdmitted(Step(s, evs[0].now, e), evs[1..], callId))
  }

  /** Nothing after place `from` of the trace is for the Call-ID. */
  ghost predicate SilentSince(trace: seq<Notify>, from: nat, callId: string) {
    forall m :: from <= m < |trace| ==> trace[m].callId != callId
  }

  lemma {:induction false} OutsideHearsNothing(s: System, evs: seq<Timed>, callId: string)
    requires Inv(s) && ValidRun(s, evs) && NeverAdmitted(s, evs, callId) && callId !in s.sip.table.at
    ensures var v := Run(s, evs);
      && callId !in v.sip.table.at && s.sip.trace <= v.sip.trace
      && SilentSince(v.sip.trace, |s.sip.trace|, callId)
    decreases |evs|
  {
    if evs != [] {
      var now, e := evs[0].now, evs[0].event;
      var m := Step(s, now, e);
      StepInv(s, now, e);
      TableGrowsOnlyByAdmission(s, now, e, callId);
      StepSends(s, now, e);
      OutsideHearsNothing(m, evs[1..], callId);
      hide Step, Inv, ValidRun, Run, NeverAdmitted;
      var v := Run(m, evs[1..]);
      assert Run(s, evs) == v by {
        RunNext(s, evs);
      }
      forall j | |s.sip.trace| <= j < |v.sip.trace| ensures v.sip.trace[j].callId != callId {
        if j < |m.sip.trace| {
          assert v.sip.trace[j] == m.sip.trace[j];
        }
      }
    }
  }

  lemma RunNext(s: System, evs: seq<Timed>)
    requires ValidRun(s, evs) && evs != []
    ensures Run(s, evs) == Run(Step(s, evs[0].now, evs[0].event), evs[1..])
  {
  }

  /** After an unsubscribe, at any point of any run, its Call-ID is sent nothing until a later
      SUBSCRIBE for it is admitted. */
  lemma UnsubscribedHearsNothing(s0: System, before: seq<Timed>, now: int, r: Request, after: seq<Timed>)
    requires IsStart(s0) && ValidRun(s0, before) && Run(s0, before).now <= now
    requires r.event.Known? && r.authorized && r.targetOk && r.expires == Some(0)
    requires var s := Step(Run(s0, before), now, IncomingSubscribe(r));
      ValidRun(s, after) && NeverAdmitted(s, after, r.callId)
    ensures var s := Run(s0, before);
      var v := Run(Step(s, now, IncomingSubscribe(r)), after);
      && s.sip.trace <= v.sip.trace && SilentSince(v.sip.trace, |s.sip.trace|, r.callId)
      && r.callId !in v.sip.table.at
  {
    var s := Run(s0, before);
    ReachableInv(s0, before);
    EndedIsIdle(s, now, r);
    StepInv(s, now, IncomingSubscribe(r));
    OutsideHearsNothing(Step(s, now, IncomingSubscribe(r)), after, r.callId);
  }

  /** A SUBSCRIBE for the Call-ID that ends, opens or refreshes its subscription. */
  ghost predicate Concerns(s: Sip, e: Event, callId: string) {
    && e.IncomingSubscribe? && e.request.callId == callId
    && e.request.event.Known? && e.request.authorized && e.request.targetOk
    && (e.request.expires == Some(0) || Admitted(s, e.request))
  }

  ghost predicate LeftAlone(s: System, evs: seq<Timed>, callId: string)
    requires ValidRun(s, evs)
    decreases |evs|
  {
    evs == [] ||
    (!Concerns(s.sip, evs[0].event, callId)
     && LeftAlone(Step(s, evs[0].now, evs[0].event), evs[1..], callId))
  }

  lemma StepKeepsEntry(s: System, now: int, e: Event, i: nat)
    requires Inv(s) && Enabled(s, now, e) && Current(s.sip, i) && now < s.sip.subs[i].expiresAt
    requires !Concerns(s.sip, e, s.sip.subs[i].callId)
    ensures Current(Step(s, now, e).sip, i)
  {
    match e
    case IncomingSubscribe(r) => UnconcernedKeeps(s.sip, r, Publishes(s.(now := now)), now, i);
    case SubscriptionTimer(_, _) =>
    case CleanupPass =>
    case _ =>
      forall pkg, b ensures Current(FanOut(s.sip, pkg, b, now), i) {
        PruningIsExact(s.sip, pkg, b, now);
      }
      StepFansOut(s, now, e);
      hide Step, FanOut, Inv;
  }

  lemma UnconcernedKeeps(s: Sip, r: Request, pub: Published, now: int, i: nat)
    requires TableOk(s) && Current(s, i) && !Concerns(s, IncomingSubscribe(r), s.subs[i].callId)
    ensures Current(Subscribe(s, r, pub, now), i)
  {
    SubscribeIsHandled(s, r, pub, now);
    hide Subscribe, Verdict, TableOk;
  }

  lemma {:induction false} EntryLasts(s: System, evs: seq<Timed>, i: nat)
    requires Inv(s) && ValidRun(s, evs) && Current(s.sip, i)
    requires LeftAlone(s, evs, s.sip.subs[i].callId) && Run(s, evs).now < s.sip.subs[i].expiresAt
    ensures var v := Run(s, evs);
      && Current(v.sip, i) && SameObjects(s.sip, v.sip)
      && Only(s.sip.trace, Object(i)) <= Only(v.sip.trace, Object(i))
    decreases |evs|
  {
    if evs == [] {
    } else {
      var m := Step(s, evs[0].now, evs[0].event);
      FirstStep(s, evs, s.sip.subs[i].callId);
      TimeGoesOn(m, evs[1..]);
      hide *;
      EntryKept(s, evs[0].now, evs[0].event, i);
      EntryStays(s.sip, m.sip, i);
      EntryLasts(m, evs[1..], i);
      StillSame(s.sip, m.sip, Run(m, evs[1..]).sip);
    }
  }

  lemma FirstStep(s: System, evs: seq<Timed>, callId: string)
    requires ValidRun(s, evs) && evs != [] && LeftAlone(s, evs, callId)
    ensures var e, m := evs[0], Step(s, evs[0].now, evs[0].event);
      && Enabled(s, e.now, e.event) && !Concerns(s.sip, e.event, callId) && m.now == e.now
      && ValidRun(m, evs[1..]) && LeftAlone(m, evs[1..], callId) && Run(s, evs) == Run(m, evs[1..])
  {
  }

  lemma EntryStays(a: Sip, b: Sip, i: nat)
    requires SameObjects(a, b) && i < |a.subs|
    ensures i < |b.subs| && b.subs[i].callId == a.subs[i].callId && b.subs[i].expiresAt == a.subs[i].expiresAt
  {
  }

  lemma StillSame(a: Sip, b: Sip, c: Sip)
    requires SameObjects(a, b) && SameObjects(b, c)
    ensures SameObjects(a, c)
  {
    hide Current;
  }

  /** One step of it. */
  lemma EntryKept(s: System, now: int, e: Event, i: nat)
    requires Inv(s) && Enabled(s, now, e) && Current(s.sip, i) && now < s.sip.subs[i].expiresAt
    requires !Concerns(s.sip, e, s.sip.subs[i].callId)
    ensures var m := Step(s, now, e);
      && Inv(m) && Current(m.sip, i) && SameObjects(s.sip, m.sip)
      && Only(s.sip.trace, Object(i)) <= Only(m.sip.trace, Object(i))
  {
    StepInv(s, now, e);
    StepKeepsEntry(s, now, e, i);
    StepFrame(s, now, e);
    StepSends(s, now, e);
    hide Step, Inv, Enabled, Only, Concerns;
    var x := NewNotifies(s.sip, Step(s, now, e).sip, now, i);
  }

  lemma {:induction false} TimeGoesOn(s: System, evs: seq<Timed>)
    requires ValidRun(s, evs)
    ensures s.now <= Run(s, evs).now
    decreases |evs|
  {
    if evs != [] {
      TimeGoesOn(Step(s, evs[0].now, evs[0].event), evs[1..]);
      assert Step(s, evs[0].now, evs[0].event).now == evs[0].now;
    }
  }

  /** After an accepted SUBSCRIBE, at any point of any run: until the granted time is over, or
      another SUBSCRIBE for its Call-ID ends or refreshes it, the new object stays the current
      one, with the Contact, package and interval asked for; and the first thing it was sent is
      what the store of its package held when it was made. */
  lemma AcceptedLasts(s0: System, before: seq<Timed>, now: int, r: Request, after: seq<Timed>)
    requires IsStart(s0) && ValidRun(s0, before) && Run(s0, before).now <= now
    requires Admitted(Run(s0, before).sip, r)
    requires var s := Step(Run(s0, before), now, IncomingSubscribe(r));
      ValidRun(s, after) && LeftAlone(s, after, r.callId)
    requires var s := Step(Run(s0, before), now, IncomingSubscribe(r));
      var requested := if r.expires.Some? then r.expires.value else 3_600;
      Run(s, after).now < now + (if requested <= 86_400 then requested else 86_400)
    ensures var s := Run(s0, before);
      var v, n := Run(Step(s, now, IncomingSubscribe(r)), after), |s.sip.subs|;
      && n < |v.sip.subs| && r.callId in v.sip.table.at && v.sip.table.at[r.callId] == n
      && v.sip.subs[n].uri == r.uri && v.sip.subs[n].pkg == r.event.pkg
      && v.sip.subs[n].callId == r.callId && v.sip.subs[n].minInterval == r.minInterval
      && var h := Only(v.sip.trace, Object(n));
         && h != [] && h[0].at == now && h[0].uri == r.uri
         && h[0].shown.body == if r.event.pkg.ElementPackage? then ElementNotifyBody(s.cfg, s.element)
                               else ServiceNotifyBody(s.cfg, s.service)
  {
    var s, n := Run(s0, before), |Run(s0, before).sip.subs|;
    var m := Step(s, now, IncomingSubscribe(r));
    ReachableInv(s0, before);
    AdmittedBegins(s, now, r);
    StepInv(s, now, IncomingSubscribe(r));
    NothingSentYet(s.sip, s.now, s.log);
    OnlyAppend(s.sip.trace, m.sip.trace[|s.sip.trace|], Object(n));
    hide Step, Inv, ValidRun, Run, LeftAlone, IsStart, Admitted, Only;
    EntryLasts(m, after, n);
  }
}
