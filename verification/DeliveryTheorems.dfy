/** What one fan-out and one timer do to every subscription, written out. */
module DeliveryTheorems {
  import opened Prelude
  import opened RateFilter
  import opened SipModel
  import opened SipInvariant
  import opened LazyPruning

  /** The Call-ID's table entry, unexpired and of this package. */
  predicate Addressed(s: Sip, i: int, pkg: Package, now: int) {
    && 0 <= i < |s.subs| && s.subs[i].callId in s.table.at && s.table.at[s.subs[i].callId] == i
    && now < s.subs[i].expiresAt && s.subs[i].pkg == pkg
  }

  /** Its interval has passed since its last NOTIFY. */
  predicate MayBeSent(sub: Sub, now: int) {
    sub.minInterval == 0 || sub.minInterval <= now - sub.last
  }

  /** Sent to: nothing queued, counted, and if it is rate-filtered one timer for the next time. */
  ghost predicate SentNow(before: Sub, after: Sub, now: int) {
    && after == before.(last := now, cseq := before.cseq + 1, pending := None, handle := after.handle, queue := after.queue)
    && if before.minInterval > 0 then
         && after.handle.Some? && Live(after, after.handle.value)
         && after.queue[after.handle.value].due == now + before.minInterval
         && forall t :: Live(after, t) ==> Some(t) == after.handle
       else forall t :: !Live(after, t)
  }

  lemma DeliveredIsSentNow(sub: Sub, now: int)
    requires TimersOk(sub, now)
    ensures SentNow(sub, Delivered(sub, now), now)
  {
    DeliveredTimers(sub, now);
  }

  /** One fan-out, subscription by subscription: whoever is addressed is sent the body at once
      if its interval has passed; otherwise the body replaces the queued one and the running
      timer stays. All other objects are left as they were. */
  lemma FanOutSendsOrQueues(s: Sip, pkg: Package, now: int, log: Logs, i: nat)
    requires SipInv(s, now, log) && i < |s.subs|
    ensures var b := log.Last(pkg);
      var s' := FanOut(s, pkg, b, now);
      && |s'.subs| == |s.subs|
      && if !Addressed(s, i, pkg, now) then s'.subs[i] == s.subs[i]
         else if MayBeSent(s.subs[i], now) then SentNow(s.subs[i], s'.subs[i], now)
         else s'.subs[i] == s.subs[i].(pending := Some(b)) && Armed(s.subs[i])
  {
    var b := log.Last(pkg);
    KeysPointwise(s, s.table.order, pkg, b, now);
    assert SubOk(s, i, now, log);
    if Addressed(s, i, pkg, now) {
      DeliveredIsSentNow(s.subs[i], now);
      if !MayBeSent(s.subs[i], now) {
        QueuePreserves(s, i, b, now, log);
      }
    }
    hide Delivered, Queued, Only, Shown, FanOutKeys, ExpiredKeys, SentNow, TraceOk, HistoryOk, PendingOk;
  }

  /** And Call-ID by Call-ID: one NOTIFY with that body for an addressed subscription whose
      interval has passed, and none for any other. */
  lemma FanOutNotifies(s: Sip, pkg: Package, b: Stamped, now: int, callId: string)
    requires TableOk(s)
    ensures var s' := FanOut(s, pkg, b, now);
      Only(s'.trace, Call(callId)) == Only(s.trace, Call(callId))
        + if callId in s.table.at && Addressed(s, s.table.at[callId], pkg, now)
             && MayBeSent(s.subs[s.table.at[callId]], now)
          then var i := s.table.at[callId];
               [Notify(now, i, callId, s.subs[i].uri, pkg, s.subs[i].cseq + 1, b)]
          else []
  {
    KeysPointwise(s, s.table.order, pkg, b, now);
    hide Only, FanOutKeys, ExpiredKeys, Filtered;
  }

  lemma AfterTimer(s: Sip, i: nat, t: nat, now: int, log: Logs)
    requires SipInv(s, now, log) && CanFireSub(s, i, t, now)
    ensures var sub := RanTimer(s, i, t).subs[i];
      && sub == s.subs[i].(handle := None, queue := sub.queue)
      && Idle(sub) && TimersOk(sub, now)
  {
    assert SubOk(s, i, now, log);
    RanTimerKeeps(s, i, t, now, log);
    hide SipInv, SubOk, TraceOk, TableOk;
  }

  /** One timer: its object is sent the queued body, else what its store holds now, unless it has
      expired; then nothing is sent and no timer of it is left. Nothing else is touched. */
  lemma TimerSendsOnce(s: Sip, i: nat, t: nat, pub: Published, now: int, log: Logs)
    requires SipInv(s, now, log) && CanFireSub(s, i, t, now)
    ensures var s', sub := TimerFired(s, i, t, pub, now), s.subs[i];
      && |s'.subs| == |s.subs| && s'.table == s.table && s'.capacity == s.capacity
      && (forall j :: 0 <= j < |s.subs| && j != i ==> s'.subs[j] == s.subs[j])
      && if now >= sub.expiresAt then s'.trace == s.trace && Idle(s'.subs[i])
         else
           && SentNow(sub, s'.subs[i], now)
           && s'.trace == s.trace + [Notify(now, i, sub.callId, sub.uri, sub.pkg, sub.cseq + 1,
                if sub.pending.Some? then sub.pending.value
                else if sub.pkg.ElementPackage? then pub.element else pub.service)]
  {
    AfterTimer(s, i, t, now, log);
    var ran := RanTimer(s, i, t).subs[i];
    DeliveredIsSentNow(ran, now);
    hide Delivered, SipInv, TimersOk;
  }
}
