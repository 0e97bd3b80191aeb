/** `SipNotifier` on values: the subscription objects ever made, the table of current ones,
    and the NOTIFYs attempted. An object is named by its place in `subs`, so a replaced or
    pruned object stays visible together with the event-loop entries scheduled for it. */
module SipModel {
  import opened Prelude
  import opened StateStore
  import opened RateFilter

  const MIN_SUBSCRIPTION_SECONDS := 60
  const MAX_SUBSCRIPTION_SECONDS := 86_400
  const DEFAULT_SUBSCRIPTION_SECONDS := 3_600

  datatype Package = ElementPackage | ServicePackage

  /** The Event header of a SUBSCRIBE. */
  datatype EventHeader = Known(pkg: Package) | Unknown(name: string)

  /** A body together with the number of the store write it shows. */
  datatype Stamped = Stamped(body: Body, version: nat)

  /** What the two notifiers would publish now. */
  datatype Published = Published(element: Stamped, service: Stamped) {
    function Of(pkg: Package): Stamped {
      if pkg.ElementPackage? then element else service
    }
  }

  /** `authorized` and `targetOk` are the decisions of the two optional hooks. */
  datatype Request = Request(event: EventHeader, uri: string, callId: string,
                             expires: Option<int>, minInterval: int,
                             authorized: bool, targetOk: bool)

  datatype Response = Response(status: int, expires: Option<int>, minExpires: Option<int>)

  /** `handle` is `_timer_handle`: None, or the entry of `queue` it refers to. `queue` holds
      every entry the event loop was ever given for this object. */
  datatype Sub = Sub(uri: string, pkg: Package, callId: string, expiresAt: int, minInterval: int,
                     last: int, cseq: nat, pending: Option<Stamped>,
                     handle: Option<nat>, queue: seq<Timer>)

  datatype Notify = Notify(at: int, sub: nat, callId: string, uri: string, pkg: Package,
                           cseq: nat, shown: Stamped)

  datatype Sip = Sip(subs: seq<Sub>, table: Dict<string, nat>, capacity: int, trace: seq<Notify>)

  // ---------------------------------------------------------------- one subscription

  predicate Expired(sub: Sub, now: int) {
    now >= sub.expiresAt
  }

  /** `handle.cancel()`; the handle field itself keeps its value. */
  function CancelHandle(sub: Sub): Sub {
    if sub.handle.Some? && sub.handle.value < |sub.queue| then
      sub.(queue := sub.queue[sub.handle.value := sub.queue[sub.handle.value].(live := false)])
    else sub
  }

  /** `_schedule_notify_timer` */
  function Arm(sub: Sub, now: int): Sub {
    if sub.handle.Some? then sub
    else sub.(handle := Some(|sub.queue|),
              queue := sub.queue + [Timer(now + sub.minInterval, true)])
  }

  /** The effect of `_deliver_notify` on the object. */
  function Delivered(sub: Sub, now: int): Sub {
    var s := CancelHandle(sub).(handle := None, pending := None, last := now, cseq := sub.cseq + 1);
    if sub.minInterval > 0 then Arm(s, now) else s
  }

  function Queued(sub: Sub, b: Stamped, now: int): Sub {
    Arm(sub.(pending := Some(b)), now)
  }

  /** `_rate_filtered_deliver` sends at once. */
  predicate SendsNow(sub: Sub, now: int) {
    sub.minInterval == 0 || now - sub.last >= sub.minInterval
  }

  function Filtered(sub: Sub, b: Stamped, now: int): Sub {
    if SendsNow(sub, now) then Delivered(sub, now) else Queued(sub, b, now)
  }

  function NotifyOf(sub: Sub, i: nat, b: Stamped, now: int): Notify {
    Notify(now, i, sub.callId, sub.uri, sub.pkg, sub.cseq + 1, b)
  }

  // ---------------------------------------------------------------- the notifier

  function Deliver(s: Sip, i: nat, b: Stamped, now: int): Sip
    requires i < |s.subs|
  {
    s.(subs := s.subs[i := Delivered(s.subs[i], now)],
       trace := s.trace + [NotifyOf(s.subs[i], i, b, now)])
  }

  function RateFilteredDeliver(s: Sip, i: nat, b: Stamped, now: int): Sip
    requires i < |s.subs|
  {
    if SendsNow(s.subs[i], now) then Deliver(s, i, b, now)
    else s.(subs := s.subs[i := Queued(s.subs[i], b, now)])
  }

  /** Every table entry names an object made for its Call-ID. */
  ghost predicate TableOk(s: Sip) {
    && s.table.Valid()
    && forall k :: k in s.table.at ==>
         s.table.at[k] < |s.subs| && s.subs[s.table.at[k]].callId == k
  }

  predicate HasEntry(s: Sip, k: string) {
    k in s.table.at && s.table.at[k] < |s.subs|
  }

  /** The first loop of `_fan_out`, over the keys not yet visited. */
  function FanOutKeys(s: Sip, keys: seq<string>, pkg: Package, b: Stamped, now: int): Sip
    decreases |keys|
  {
    if keys == [] then s
    else FanOutKeys(FanOutKey(s, keys[0], pkg, b, now), keys[1..], pkg, b, now)
  }

  function FanOutKey(s: Sip, k: string, pkg: Package, b: Stamped, now: int): Sip {
    if !HasEntry(s, k) then s
    else
      var i := s.table.at[k];
      if Expired(s.subs[i], now) || s.subs[i].pkg != pkg then s
      else RateFilteredDeliver(s, i, b, now)
  }

  function ExpiredKeys(s: Sip, keys: seq<string>, now: int): (ks: seq<string>)
    ensures forall k :: k in ks <==> k in keys && HasEntry(s, k) && Expired(s.subs[s.table.at[k]], now)
  {
    if keys == [] then []
    else
      (if HasEntry(s, keys[0]) && Expired(s.subs[s.table.at[keys[0]]], now) then [keys[0]] else [])
      + ExpiredKeys(s, keys[1..], now)
  }

  /** `_fan_out`: expired entries leave the table, their timers are not cancelled. */
  function FanOut(s: Sip, pkg: Package, b: Stamped, now: int): Sip {
    var t := FanOutKeys(s, s.table.order, pkg, b, now);
    t.(table := s.table.PopAll(ExpiredKeys(s, s.table.order, now)))
  }

  /** One pass of `_subscription_cleanup_loop`: expired entries leave, timers cancelled. */
  function Cleanup(s: Sip, now: int): Sip {
    s.(subs := seq(|s.subs|, i requires 0 <= i < |s.subs| =>
                 if Current(s, i) && Expired(s.subs[i], now) then CancelHandle(s.subs[i])
                 else s.subs[i]),
       table := s.table.PopAll(ExpiredKeys(s, s.table.order, now)))
  }

  predicate Current(s: Sip, i: int)
  {
    0 <= i < |s.subs| && s.subs[i].callId in s.table.at && s.table.at[s.subs[i].callId] == i
  }

  function Unsubscribe(s: Sip, k: string): Sip {
    if HasEntry(s, k) then
      var i := s.table.at[k];
      s.(subs := s.subs[i := CancelHandle(s.subs[i])], table := s.table.Pop(k))
    else s.(table := s.table.Pop(k))
  }

  function Negotiated(expires: Option<int>): int {
    var r := if expires.Some? then expires.value else DEFAULT_SUBSCRIPTION_SECONDS;
    if r <= MAX_SUBSCRIPTION_SECONDS then r else MAX_SUBSCRIPTION_SECONDS
  }

  predicate AtCapacity(s: Sip, k: string) {
    k !in s.table.at && |s.table.at| >= s.capacity
  }

  /** The branch `handle_subscribe` takes, in the order of its tests. */
  function Verdict(s: Sip, r: Request): Response {
    if r.event.Unknown? then Response(489, None, None)
    else if !r.authorized || !r.targetOk then Response(403, None, None)
    else if r.expires == Some(0) then Response(200, Some(0), None)
    else if Negotiated(r.expires) < MIN_SUBSCRIPTION_SECONDS then
      Response(423, None, Some(MIN_SUBSCRIPTION_SECONDS))
    else if AtCapacity(s, r.callId) then Response(503, None, None)
    else Response(200, Some(Negotiated(r.expires)), None)
  }

  predicate Accepts(s: Sip, r: Request) {
    Verdict(s, r).status == 200 && r.expires != Some(0)
  }

  function NewSub(r: Request, now: int): Sub
    requires r.event.Known?
  {
    Sub(r.uri, r.event.pkg, r.callId, now + Negotiated(r.expires), r.minInterval,
        0, 0, None, None, [])
  }

  /** A new or refreshed subscription before its initial NOTIFY. */
  function Enter(s: Sip, r: Request, now: int): Sip
    requires r.event.Known?
  {
    var before := if HasEntry(s, r.callId)
      then s.subs[s.table.at[r.callId] := CancelHandle(s.subs[s.table.at[r.callId]])]
      else s.subs;
    s.(subs := before + [NewSub(r, now)], table := s.table.Put(r.callId, |s.subs|))
  }

  function Subscribe(s: Sip, r: Request, pub: Published, now: int): Sip {
    if Accepts(s, r) then
      Deliver(Enter(s, r, now), |s.subs|, pub.Of(r.event.pkg), now)
    else if Verdict(s, r).status == 200 then Unsubscribe(s, r.callId)
    else s
  }

  predicate CanFireSub(s: Sip, i: nat, t: nat, now: int) {
    i < |s.subs| && t < |s.subs[i].queue| && s.subs[i].queue[t].live && s.subs[i].queue[t].due <= now
  }

  function RanTimer(s: Sip, i: nat, t: nat): Sip
    requires i < |s.subs| && t < |s.subs[i].queue|
  {
    var sub := s.subs[i];
    s.(subs := s.subs[i := sub.(queue := sub.queue[t := sub.queue[t].(live := false)],
                                handle := None)])
  }

  /** `_timer_fired`, run by entry `t` of the object's queue. */
  function TimerFired(s: Sip, i: nat, t: nat, pub: Published, now: int): Sip
    requires i < |s.subs| && t < |s.subs[i].queue|
  {
    var sub := s.subs[i];
    if Expired(sub, now) then RanTimer(s, i, t)
    else Deliver(RanTimer(s, i, t), i,
                 if sub.pending.Some? then sub.pending.value else pub.Of(sub.pkg), now)
  }
}
