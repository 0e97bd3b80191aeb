/** What every operation of the notifier keeps, whatever the order and lateness of timers. */
module SipInvariant {
  import opened Prelude
  import opened StateStore
  import opened RateFilter
  import opened SipModel

  /** The NOTIFYs of one object, or of one Call-ID over all its objects. */
  datatype Key = Object(i: nat) | Call(callId: string)

  predicate Matches(key: Key, n: Notify) {
    match key
    case Object(i) => n.sub == i
    case Call(c) => n.callId == c
  }

  function Only(trace: seq<Notify>, key: Key): seq<Notify> {
    if trace == [] then []
    else Only(trace[..|trace| - 1], key)
         + (if Matches(key, trace[|trace| - 1]) then [trace[|trace| - 1]] else [])
  }

  lemma OnlyAppend(trace: seq<Notify>, n: Notify, key: Key)
    ensures Only(trace + [n], key) == Only(trace, key) + (if Matches(key, n) then [n] else [])
  {
    assert (trace + [n])[..|trace|] == trace;
  }

  lemma {:induction false} OnlyNone(trace: seq<Notify>, key: Key)
    requires forall n :: n in trace ==> !Matches(key, n)
    ensures Only(trace, key) == []
  {
    if trace != [] {
      assert trace[|trace| - 1] in trace;
      OnlyNone(trace[..|trace| - 1], key);
    }
  }

  lemma {:induction false} OnlyMember(trace: seq<Notify>, key: Key, j: nat)
    requires j < |Only(trace, key)|
    ensures Only(trace, key)[j] in trace && Matches(key, Only(trace, key)[j])
  {
    var front := trace[..|trace| - 1];
    if j < |Only(front, key)| {
      OnlyMember(front, key, j);
    } else {
      assert Only(trace, key)[j] == trace[|trace| - 1];
    }
  }

  predicate Live(sub: Sub, t: int) {
    0 <= t < |sub.queue| && sub.queue[t].live
  }

  predicate Armed(sub: Sub) {
    sub.handle.Some? && Live(sub, sub.handle.value)
  }

  ghost predicate Idle(sub: Sub) {
    forall t :: !Live(sub, t)
  }

  /** The only entry of the event loop that can still run is the one the handle refers to,
      and it is due one interval after the last NOTIFY. */
  ghost predicate TimersOk(sub: Sub, now: int) {
    && (sub.handle.Some? ==> sub.handle.value < |sub.queue|)
    && sub.last <= now
    && (forall t :: Live(sub, t) ==>
          && sub.handle == Some(t)
          && sub.minInterval > 0
          && sub.queue[t].due == sub.last + sub.minInterval)
  }

  /** Consecutive NOTIFYs are at least the subscription's interval apart; CSeq counts them. */
  ghost predicate Spaced(h: seq<Notify>, minInterval: int) {
    && (forall j :: 0 <= j && j + 1 < |h| ==> h[j + 1].at - h[j].at >= minInterval)
    && (forall j :: 0 <= j < |h| ==> h[j].cseq == j + 1)
  }

  ghost predicate HistoryOk(h: seq<Notify>, sub: Sub) {
    h != [] && h[|h| - 1].at == sub.last && |h| == sub.cseq && Spaced(h, sub.minInterval)
  }

  /** A rate-filtered subscription that can still be served always has its timer running. */
  ghost predicate CurrentOk(sub: Sub, now: int) {
    !Expired(sub, now) ==>
      && (sub.minInterval > 0 ==> Armed(sub))
      && (sub.pending.Some? ==> sub.minInterval > 0)
  }

  predicate SameStream(n: Notify, sub: Sub) {
    n.callId == sub.callId && n.pkg == sub.pkg
  }

  type History = h: seq<Body> | |h| > 0 witness [ElementBody("", Normal, None)]

  /** The bodies of each package in the order the stores held them, the initial one first. */
  datatype Logs = Logs(element: History, service: History) {
    function Of(pkg: Package): History {
      if pkg.ElementPackage? then element else service
    }

    function Last(pkg: Package): Stamped {
      Stamped(Of(pkg)[|Of(pkg)| - 1], |Of(pkg)| - 1)
    }
  }

  function LatestOf(log: Logs): Published {
    Published(log.Last(ElementPackage), log.Last(ServicePackage))
  }

  /** `st` is what the store held after that very write. */
  predicate Genuine(st: Stamped, h: History) {
    st.version < |h| && h[st.version] == st.body
  }

  /** A queued body is no older than anything already shown to the same Call-ID. */
  ghost predicate PendingOk(sub: Sub, trace: seq<Notify>, log: Logs) {
    sub.pending.Some? ==>
      && Genuine(sub.pending.value, log.Of(sub.pkg))
      && forall n :: n in trace && SameStream(n, sub) ==> n.shown.version <= sub.pending.value.version
  }

  ghost predicate SubOk(s: Sip, i: nat, now: int, log: Logs)
    requires i < |s.subs|
  {
    && TimersOk(s.subs[i], now)
    && HistoryOk(Only(s.trace, Object(i)), s.subs[i])
    && (if Current(s, i) then CurrentOk(s.subs[i], now) && PendingOk(s.subs[i], s.trace, log)
        else Idle(s.subs[i]) || Expired(s.subs[i], now))
  }

  /** Every NOTIFY carries its object's own Call-ID, Contact and package, and was attempted
      before that object's expiry. */
  ghost predicate Belongs(n: Notify, s: Sip, now: int) {
    && n.sub < |s.subs| && n.at <= now
    && n.callId == s.subs[n.sub].callId && n.uri == s.subs[n.sub].uri
    && n.pkg == s.subs[n.sub].pkg && !Expired(s.subs[n.sub], n.at)
  }

  /** No Call-ID is ever shown an older version of a package after a newer one. */
  ghost predicate Ordered(trace: seq<Notify>) {
    forall j, k :: 0 <= j < k < |trace| && trace[j].callId == trace[k].callId
                   && trace[j].pkg == trace[k].pkg
      ==> trace[j].shown.version <= trace[k].shown.version
  }

  ghost predicate TraceOk(s: Sip, now: int, log: Logs) {
    && Ordered(s.trace)
    && (forall n :: n in s.trace ==> Belongs(n, s, now) && Genuine(n.shown, log.Of(n.pkg)))
  }

  ghost predicate SipInv(s: Sip, now: int, log: Logs) {
    && TableOk(s)
    && TraceOk(s, now, log)
    && forall i :: 0 <= i < |s.subs| ==> SubOk(s, i, now, log)
  }

  // ---------------------------------------------------------------- freshness

  /** The subscriber has seen, or is about to be sent, what is published now. */
  ghost predicate UpToDate(s: Sip, i: nat, st: Stamped)
    requires i < |s.subs|
  {
    var h := Only(s.trace, Object(i));
    || (h != [] && h[|h| - 1].shown == st)
    || (Armed(s.subs[i]) && s.subs[i].pending == Some(st))
  }

  ghost predicate AllUpToDate(s: Sip, now: int, pkg: Package, st: Stamped) {
    forall i :: Current(s, i) && !Expired(s.subs[i], now) && s.subs[i].pkg == pkg
      ==> UpToDate(s, i, st)
  }

  // ---------------------------------------------------------------- the clock and the stores

  lemma TimePasses(s: Sip, now: int, later: int, log: Logs)
    requires SipInv(s, now, log) && now <= later
    ensures SipInv(s, later, log)
  {
    forall i | 0 <= i < |s.subs| ensures SubOk(s, i, later, log) {
      assert SubOk(s, i, now, log);
    }
  }

  /** A store write publishes a new version of one package. */
  lemma NewVersion(s: Sip, now: int, log: Logs, log': Logs)
    requires SipInv(s, now, log)
    requires forall pkg :: log.Of(pkg) <= log'.Of(pkg)
    ensures SipInv(s, now, log')
  {
    forall i | 0 <= i < |s.subs| ensures SubOk(s, i, now, log') {
      assert SubOk(s, i, now, log);
    }
  }

  // ---------------------------------------------------------------- one delivery

  /** An object that may be sent to: everything about it is in order except that it may not
      have had its initial NOTIFY, or that its timer may just have run. */
  ghost predicate Ready(s: Sip, i: nat, now: int)
    requires i < |s.subs|
  {
    var sub := s.subs[i];
    var h := Only(s.trace, Object(i));
    && Current(s, i) && !Expired(sub, now)
    && (sub.handle.Some? ==> sub.handle.value < |sub.queue|)
    && (forall t :: Live(sub, t) ==> sub.handle == Some(t))
    && |h| == sub.cseq && Spaced(h, sub.minInterval)
    && (h != [] ==> now - h[|h| - 1].at >= sub.minInterval)
  }

  lemma DeliverKeepsOther(s: Sip, i: nat, j: nat, b: Stamped, now: int, log: Logs)
    requires TableOk(s) && i < |s.subs| && Current(s, i) && j < |s.subs| && j != i
    requires SubOk(s, j, now, log)
    ensures SubOk(Deliver(s, i, b, now), j, now, log)
  {
    var s' := Deliver(s, i, b, now);
    OnlyAppend(s.trace, NotifyOf(s.subs[i], i, b, now), Object(j));
    assert Current(s', j) == Current(s, j);
  }

  lemma DeliveredTimers(sub: Sub, now: int)
    requires sub.handle.Some? ==> sub.handle.value < |sub.queue|
    requires forall t :: Live(sub, t) ==> sub.handle == Some(t)
    ensures var d := Delivered(sub, now);
      && TimersOk(d, now) && (sub.minInterval > 0 ==> Armed(d))
      && d.last == now && d.cseq == sub.cseq + 1 && d.pending == None
      && d.minInterval == sub.minInterval && d.callId == sub.callId
  {
    var c := CancelHandle(sub);
    assert forall t :: Live(c, t) ==> Live(sub, t);
    var d := Delivered(sub, now);
    assert forall t :: Live(d, t) && t < |sub.queue| ==> Live(c, t);
  }

  lemma HistoryGrows(h: seq<Notify>, n: Notify, minInterval: int)
    requires Spaced(h, minInterval) && n.cseq == |h| + 1
    requires h != [] ==> n.at - h[|h| - 1].at >= minInterval
    ensures Spaced(h + [n], minInterval)
  {
  }

  /** The object and its history after a delivery, apart from the rest of the state. */
  lemma DeliveredOk(sub: Sub, h: seq<Notify>, n: Notify, now: int, trace: seq<Notify>, log: Logs)
    requires sub.handle.Some? ==> sub.handle.value < |sub.queue|
    requires forall t :: Live(sub, t) ==> sub.handle == Some(t)
    requires |h| == sub.cseq && Spaced(h, sub.minInterval) && n.at == now && n.cseq == sub.cseq + 1
    requires h != [] ==> now - h[|h| - 1].at >= sub.minInterval
    ensures var d := Delivered(sub, now);
      && TimersOk(d, now) && HistoryOk(h + [n], d) && CurrentOk(d, now) && PendingOk(d, trace, log)
      && d.callId == sub.callId
  {
    DeliveredTimers(sub, now);
    HistoryGrows(h, n, sub.minInterval);
  }

  lemma DeliverServes(s: Sip, i: nat, b: Stamped, now: int, log: Logs)
    requires i < |s.subs| && Ready(s, i, now)
    ensures SubOk(Deliver(s, i, b, now), i, now, log)
  {
    var n := NotifyOf(s.subs[i], i, b, now);
    OnlyAppend(s.trace, n, Object(i));
    var h := Only(s.trace, Object(i));
    DeliveredOk(s.subs[i], h, n, now, s.trace + [n], log);
    var s' := Deliver(s, i, b, now);
    hide *;
    assert s'.subs[i] == Delivered(s.subs[i], now) && s'.trace == s.trace + [n];
    assert Only(s'.trace, Object(i)) == h + [n];
  }

  lemma DeliverPreserves(s: Sip, i: nat, b: Stamped, now: int, log: Logs)
    requires TableOk(s) && TraceOk(s, now, log) && i < |s.subs| && Ready(s, i, now)
    requires forall j :: 0 <= j < |s.subs| && j != i ==> SubOk(s, j, now, log)
    requires Genuine(b, log.Of(s.subs[i].pkg))
    requires forall n :: n in s.trace && SameStream(n, s.subs[i]) ==> n.shown.version <= b.version
    ensures SipInv(Deliver(s, i, b, now), now, log)
  {
    var s' := Deliver(s, i, b, now);
    forall j | 0 <= j < |s.subs| ensures SubOk(s', j, now, log) {
      if j != i {
        DeliverKeepsOther(s, i, j, b, now, log);
      } else {
        DeliverServes(s, i, b, now, log);
      }
    }
    DeliverTrace(s, i, b, now, log);
  }

  lemma DeliverTrace(s: Sip, i: nat, b: Stamped, now: int, log: Logs)
    requires TraceOk(s, now, log) && i < |s.subs| && !Expired(s.subs[i], now)
    requires Genuine(b, log.Of(s.subs[i].pkg))
    requires forall n :: n in s.trace && SameStream(n, s.subs[i]) ==> n.shown.version <= b.version
    ensures TraceOk(Deliver(s, i, b, now), now, log)
  {
    var s' := Deliver(s, i, b, now);
    forall m | m in s'.trace ensures Belongs(m, s', now) && Genuine(m.shown, log.Of(m.pkg)) {
      if m in s.trace {
        assert Belongs(m, s, now);
      }
    }
  }

  // ---------------------------------------------------------------- fan-out

  lemma FanOutKeyPreserves(s: Sip, k: string, pkg: Package, now: int, log: Logs)
    requires SipInv(s, now, log)
    ensures SipInv(FanOutKey(s, k, pkg, log.Last(pkg), now), now, log)
  {
    if HasEntry(s, k) && !Expired(s.subs[s.table.at[k]], now) && s.subs[s.table.at[k]].pkg == pkg {
      var i := s.table.at[k];
      var b := log.Last(pkg);
      assert Current(s, i) && SubOk(s, i, now, log);
      if SendsNow(s.subs[i], now) {
        DeliverPreserves(s, i, b, now, log);
      } else {
        QueuePreserves(s, i, b, now, log);
      }
    }
  }

  lemma QueuePreserves(s: Sip, i: nat, b: Stamped, now: int, log: Logs)
    requires SipInv(s, now, log) && i < |s.subs| && Current(s, i) && !Expired(s.subs[i], now)
    requires !SendsNow(s.subs[i], now) && b == log.Last(s.subs[i].pkg)
    ensures SipInv(RateFilteredDeliver(s, i, b, now), now, log)
    // the branch of `_rate_filtered_deliver` that starts a timer is never taken
    ensures Queued(s.subs[i], b, now) == s.subs[i].(pending := Some(b))
  {
    assert SubOk(s, i, now, log);
    var s' := RateFilteredDeliver(s, i, b, now);
    forall j | 0 <= j < |s.subs| ensures SubOk(s', j, now, log) {
      assert SubOk(s, j, now, log);
      assert Current(s', j) == Current(s, j);
    }
    forall n | n in s'.trace ensures Belongs(n, s', now) {
      assert Belongs(n, s, now);
    }
  }

  lemma {:induction false} FanOutKeysPreserves(s: Sip, keys: seq<string>, pkg: Package, now: int, log: Logs)
    requires SipInv(s, now, log)
    ensures SipInv(FanOutKeys(s, keys, pkg, log.Last(pkg), now), now, log)
    decreases |keys|
  {
    if keys != [] {
      FanOutKeyPreserves(s, keys[0], pkg, now, log);
      FanOutKeysPreserves(FanOutKey(s, keys[0], pkg, log.Last(pkg), now), keys[1..], pkg, now, log);
    }
  }

  /** What the key loop leaves alone. */
  lemma {:induction false} FanOutKeysFrame(s: Sip, keys: seq<string>, pkg: Package, b: Stamped, now: int)
    ensures var s' := FanOutKeys(s, keys, pkg, b, now);
      && s'.table == s.table && s'.capacity == s.capacity && |s'.subs| == |s.subs|
      && s.trace <= s'.trace
      && forall i :: 0 <= i < |s.subs| ==>
           && s'.subs[i].callId == s.subs[i].callId && s'.subs[i].pkg == s.subs[i].pkg
           && s'.subs[i].expiresAt == s.subs[i].expiresAt && s'.subs[i].uri == s.subs[i].uri
           && s'.subs[i].minInterval == s.subs[i].minInterval
    decreases |keys|
  {
    if keys != [] {
      FanOutKeysFrame(FanOutKey(s, keys[0], pkg, b, now), keys[1..], pkg, b, now);
    }
  }

  /** Taking expired entries off the table without touching their timers is safe. */
  lemma DropExpiredPreserves(s: Sip, ks: seq<string>, now: int, log: Logs)
    requires SipInv(s, now, log)
    requires forall k :: k in ks ==> HasEntry(s, k) && Expired(s.subs[s.table.at[k]], now)
    ensures SipInv(s.(table := s.table.PopAll(ks)), now, log)
  {
    var s' := s.(table := s.table.PopAll(ks));
    forall j | 0 <= j < |s.subs| ensures SubOk(s', j, now, log) {
      assert SubOk(s, j, now, log);
    }
    forall n | n in s'.trace ensures Belongs(n, s', now) {
      assert Belongs(n, s, now);
    }
  }

  lemma FanOutPreserves(s: Sip, pkg: Package, now: int, log: Logs)
    requires SipInv(s, now, log)
    ensures SipInv(FanOut(s, pkg, log.Last(pkg), now), now, log)
    ensures AllUpToDate(FanOut(s, pkg, log.Last(pkg), now), now, pkg, log.Last(pkg))
  {
    FanOutKeysPreserves(s, s.table.order, pkg, now, log);
    FanOutKeysFrame(s, s.table.order, pkg, log.Last(pkg), now);
    FanOutServesAll(s, pkg, now, log);
    hide FanOutKeys, ExpiredKeys, TraceOk, SubOk, AllUpToDate;
    var t := FanOutKeys(s, s.table.order, pkg, log.Last(pkg), now);
    DropExpiredPreserves(t, ExpiredKeys(s, s.table.order, now), now, log);
  }

  lemma FanOutServesAll(s: Sip, pkg: Package, now: int, log: Logs)
    requires SipInv(s, now, log)
    ensures AllUpToDate(FanOut(s, pkg, log.Last(pkg), now), now, pkg, log.Last(pkg))
  {
    var b := log.Last(pkg);
    FanOutKeysFrame(s, s.table.order, pkg, b, now);
    FanOutKeysServe(s, s.table.order, pkg, now, log);
    hide FanOutKeys, ExpiredKeys, TraceOk, SubOk, UpToDate;
    var s' := FanOut(s, pkg, b, now);
    forall i | Current(s', i) && !Expired(s'.subs[i], now) && s'.subs[i].pkg == pkg ensures UpToDate(s', i, b) {
      assert Current(s, i);
      TableAside(FanOutKeys(s, s.table.order, pkg, b, now), s', i, b);
    }
  }

  lemma TableAside(s: Sip, s': Sip, i: nat, b: Stamped)
    requires i < |s.subs| && s'.subs == s.subs && s'.trace == s.trace
    ensures UpToDate(s, i, b) == UpToDate(s', i, b)
  {
    hide Only;
  }

  /** The key loop serves every key it visits and does not undo what it has done. */
  lemma {:induction false} FanOutKeysServe(s: Sip, keys: seq<string>, pkg: Package, now: int, log: Logs)
    requires SipInv(s, now, log)
    ensures var s' := FanOutKeys(s, keys, pkg, log.Last(pkg), now);
      && |s'.subs| == |s.subs|
      && forall i :: Current(s, i) && !Expired(s.subs[i], now) && s.subs[i].pkg == pkg
                     && (s.subs[i].callId in keys || UpToDate(s, i, log.Last(pkg)))
           ==> UpToDate(s', i, log.Last(pkg))
    decreases |keys|
  {
    if keys != [] {
      var b := log.Last(pkg);
      var m := FanOutKey(s, keys[0], pkg, b, now);
      FanOutKeyPreserves(s, keys[0], pkg, now, log);
      FanOutKeysServe(m, keys[1..], pkg, now, log);
      var s' := FanOutKeys(m, keys[1..], pkg, b, now);
      forall i | Current(s, i) && !Expired(s.subs[i], now) && s.subs[i].pkg == pkg
                 && (s.subs[i].callId in keys || UpToDate(s, i, b))
        ensures UpToDate(s', i, b)
      {
        FanOutKeyServes(s, keys[0], i, pkg, now, log);
      }
    }
  }

  lemma OthersKept(s: Sip, j: nat, i: nat, b: Stamped, now: int)
    requires i < |s.subs| && j < |s.subs| && i != j
    ensures var m := RateFilteredDeliver(s, j, b, now);
      && |m.subs| == |s.subs| && m.table == s.table && m.subs[i] == s.subs[i]
      && Only(m.trace, Object(i)) == Only(s.trace, Object(i))
  {
    hide Only, Delivered, Queued;
    if SendsNow(s.subs[j], now) {
      OnlyAppend(s.trace, NotifyOf(s.subs[j], j, b, now), Object(i));
    }
  }

  lemma FanOutKeyServes(s: Sip, k: string, i: nat, pkg: Package, now: int, log: Logs)
    requires SipInv(s, now, log) && Current(s, i) && !Expired(s.subs[i], now) && s.subs[i].pkg == pkg
    ensures var m := FanOutKey(s, k, pkg, log.Last(pkg), now);
      && |m.subs| == |s.subs| && Current(m, i) && !Expired(m.subs[i], now) && m.subs[i].pkg == pkg
      && m.subs[i].callId == s.subs[i].callId
      && (s.subs[i].callId == k || UpToDate(s, i, log.Last(pkg)) ==> UpToDate(m, i, log.Last(pkg)))
  {
    if HasEntry(s, k) {
      var j := s.table.at[k];
      if j == i {
        ServedNow(s, i, now, log);
      } else {
        OthersKept(s, j, i, log.Last(pkg), now);
      }
    }
    hide SipInv, RateFilteredDeliver, Only;
  }

  lemma ServedNow(s: Sip, i: nat, now: int, log: Logs)
    requires SipInv(s, now, log) && Current(s, i) && !Expired(s.subs[i], now)
    ensures var b := log.Last(s.subs[i].pkg);
      var m := RateFilteredDeliver(s, i, b, now);
      && |m.subs| == |s.subs| && Current(m, i) && UpToDate(m, i, b)
  {
    var b := log.Last(s.subs[i].pkg);
    assert SubOk(s, i, now, log);
    if SendsNow(s.subs[i], now) {
      OnlyAppend(s.trace, NotifyOf(s.subs[i], i, b, now), Object(i));
    } else {
      QueuePreserves(s, i, b, now, log);
      assert CurrentOk(s.subs[i], now);
    }
    hide SipInv, SubOk, TraceOk, Only, CancelHandle;
  }

  // ---------------------------------------------------------------- cleanup and unsubscribe

  /** Cancelling the timers of objects that leave the table. */
  lemma CancelledIsIdle(sub: Sub, now: int)
    requires TimersOk(sub, now)
    ensures Idle(CancelHandle(sub)) && TimersOk(CancelHandle(sub), now)
  {
  }

  /** Objects may leave the table when their timer is cancelled or they have expired. */
  lemma LeavePreserves(s: Sip, s': Sip, now: int, log: Logs)
    requires SipInv(s, now, log)
    requires s'.trace == s.trace && |s'.subs| == |s.subs| && s'.table.Valid()
    requires forall k :: k in s'.table.at ==> k in s.table.at && s'.table.at[k] == s.table.at[k]
    requires forall i :: 0 <= i < |s.subs| ==>
      || (s'.subs[i] == s.subs[i] && (Current(s, i) ==> Current(s', i)))
      || (s'.subs[i] == CancelHandle(s.subs[i]) && !Current(s', i))
    ensures SipInv(s', now, log)
  {
    forall j | 0 <= j < |s.subs| ensures SubOk(s', j, now, log) {
      assert SubOk(s, j, now, log);
      CancelledIsIdle(s.subs[j], now);
    }
    forall n | n in s'.trace ensures Belongs(n, s', now) {
      assert Belongs(n, s, now);
    }
  }

  lemma CleanupPreserves(s: Sip, now: int, log: Logs)
    requires SipInv(s, now, log)
    ensures SipInv(Cleanup(s, now), now, log)
  {
    LeavePreserves(s, Cleanup(s, now), now, log);
  }

  lemma UnsubscribePreserves(s: Sip, k: string, now: int, log: Logs)
    requires SipInv(s, now, log)
    ensures SipInv(Unsubscribe(s, k), now, log)
  {
    RemoveKeepsOthers(s.table.order, k);
    LeavePreserves(s, Unsubscribe(s, k), now, log);
  }

  // ---------------------------------------------------------------- subscribe

  lemma SubscribePreserves(s: Sip, r: Request, now: int, log: Logs)
    requires SipInv(s, now, log)
    ensures SipInv(Subscribe(s, r, LatestOf(log), now), now, log)
  {
    if Accepts(s, r) {
      EnterReady(s, r, now, log);
      DeliverPreserves(Enter(s, r, now), |s.subs|, log.Last(r.event.pkg), now, log);
    } else {
      UnsubscribePreserves(s, r.callId, now, log);
    }
  }

  lemma EnterKeeps(s: Sip, r: Request, j: nat, now: int, log: Logs)
    requires SipInv(s, now, log) && r.event.Known? && j < |s.subs|
    ensures SubOk(Enter(s, r, now), j, now, log)
  {
    var e := Enter(s, r, now);
    assert SubOk(s, j, now, log);
    CancelledIsIdle(s.subs[j], now);
    assert Current(e, j) <==> Current(s, j) && s.subs[j].callId != r.callId;
  }

  lemma NothingSentYet(s: Sip, now: int, log: Logs)
    requires TraceOk(s, now, log)
    ensures Only(s.trace, Object(|s.subs|)) == []
  {
    assert forall n :: n in s.trace ==> Belongs(n, s, now);
    OnlyNone(s.trace, Object(|s.subs|));
  }

  lemma EnterReady(s: Sip, r: Request, now: int, log: Logs)
    requires SipInv(s, now, log) && Accepts(s, r)
    ensures var e := Enter(s, r, now);
      && TableOk(e) && TraceOk(e, now, log) && |e.subs| == |s.subs| + 1 && Ready(e, |s.subs|, now)
      && forall j :: 0 <= j < |e.subs| && j != |s.subs| ==> SubOk(e, j, now, log)
  {
    var e := Enter(s, r, now);
    forall j | 0 <= j < |s.subs| ensures SubOk(e, j, now, log) {
      EnterKeeps(s, r, j, now, log);
    }
    forall n | n in s.trace ensures Belongs(n, e, now) {
      assert Belongs(n, s, now);
    }
    NothingSentYet(s, now, log);
  }

  // ---------------------------------------------------------------- timer

  lemma RanTimerKeeps(s: Sip, i: nat, t: nat, now: int, log: Logs)
    requires SipInv(s, now, log) && CanFireSub(s, i, t, now)
    ensures var f := RanTimer(s, i, t);
      && TableOk(f) && TraceOk(f, now, log) && Idle(f.subs[i])
      && forall j :: 0 <= j < |s.subs| && (j != i || Expired(s.subs[i], now)) ==> SubOk(f, j, now, log)
  {
    var f := RanTimer(s, i, t);
    assert SubOk(s, i, now, log) && Live(s.subs[i], t);
    var before, after := s.subs[i], f.subs[i];
    assert forall x :: Live(after, x) ==> Live(before, x);
    forall j | 0 <= j < |s.subs| && (j != i || Expired(s.subs[i], now)) ensures SubOk(f, j, now, log) {
      assert SubOk(s, j, now, log);
      assert Current(f, j) == Current(s, j);
    }
    forall n | n in f.trace ensures Belongs(n, f, now) {
      assert Belongs(n, s, now);
    }
  }

  lemma TimerPreserves(s: Sip, i: nat, t: nat, now: int, log: Logs)
    requires SipInv(s, now, log) && CanFireSub(s, i, t, now)
    ensures SipInv(TimerFired(s, i, t, LatestOf(log), now), now, log)
    // only an object that is still current and unexpired is sent to
    ensures !Expired(s.subs[i], now) ==> Current(s, i)
  {
    var sub := s.subs[i];
    assert SubOk(s, i, now, log) && Live(sub, t);
    RanTimerKeeps(s, i, t, now, log);
    if !Expired(sub, now) {
      DeliverPreserves(RanTimer(s, i, t), i,
        if sub.pending.Some? then sub.pending.value else log.Last(sub.pkg), now, log);
    }
  }
}
