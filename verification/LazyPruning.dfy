/** Expired subscriptions are pruned late, by the next fan-out or cleanup pass. Seen from any
    one Call-ID this makes no difference, as long as the capacity gate never rejects. */
module LazyPruning {
  import opened Prelude
  import opened StateStore
  import opened RateFilter
  import opened SipModel
  import opened SipInvariant
  import opened Pipeline
  import opened PipelineTheorems

  /** The ideal notifier: a subscription leaves exactly at its expiry, its timer cancelled.
      Nothing can be observed between events, so it is enough to prune before each one. */
  function Pruned(s: System, now: int): System {
    s.(now := now, sip := Cleanup(s.sip, now))
  }

  /** A timer that the ideal notifier has cancelled does not run. */
  function IdealStep(s: System, now: int, e: Event): System
    requires s.now <= now
  {
    if Enabled(Pruned(s, now), now, e) then Step(Pruned(s, now), now, e) else Pruned(s, now)
  }

  function IdealRun(s: System, evs: seq<Timed>): System
    requires Increasing(s.now, evs)
    decreases |evs|
  {
    if evs == [] then s
    else
      StepNow(Pruned(s, evs[0].now), evs[0].now, evs[0].event);
      IdealRun(IdealStep(s, evs[0].now, evs[0].event), evs[1..])
  }

  predicate Increasing(from: int, evs: seq<Timed>)
    decreases |evs|
  {
    evs == [] || (from <= evs[0].now && Increasing(evs[0].now, evs[1..]))
  }

  lemma StepNow(s: System, now: int, e: Event)
    ensures Enabled(s, now, e) ==> Step(s, now, e).now == now
  {
  }

  lemma {:induction false} RunsIncrease(s: System, evs: seq<Timed>)
    requires ValidRun(s, evs)
    ensures Increasing(s.now, evs)
    decreases |evs|
  {
    if evs != [] {
      StepNow(s, evs[0].now, evs[0].event);
      RunsIncrease(Step(s, evs[0].now, evs[0].event), evs[1..]);
    }
  }

  predicate NeverFull(s: System, evs: seq<Timed>)
    requires ValidRun(s, evs)
    decreases |evs|
  {
    evs == [] ||
    (&& (evs[0].event.IncomingSubscribe? ==> Verdict(s.sip, evs[0].event.request).status != 503)
     && NeverFull(Step(s, evs[0].now, evs[0].event), evs[1..]))
  }

  // ---------------------------------------------------------------- fan-out, object by object

  predicate Served(s: Sip, i: int, pkg: Package, now: int) {
    Current(s, i) && !Expired(s.subs[i], now) && s.subs[i].pkg == pkg
  }

  /** What a fan-out shows one Call-ID. */
  function Shown(s: Sip, cid: string, pkg: Package, b: Stamped, now: int): seq<Notify> {
    if HasEntry(s, cid) && Served(s, s.table.at[cid], pkg, now)
       && SendsNow(s.subs[s.table.at[cid]], now)
    then [NotifyOf(s.subs[s.table.at[cid]], s.table.at[cid], b, now)]
    else []
  }

  ghost predicate Pointwise(s: Sip, s': Sip, keys: seq<string>, pkg: Package, b: Stamped, now: int) {
    && |s'.subs| == |s.subs| && s'.table == s.table
    && (forall i :: 0 <= i < |s.subs| ==>
          s'.subs[i] == if s.subs[i].callId in keys && Served(s, i, pkg, now)
                        then Filtered(s.subs[i], b, now) else s.subs[i])
    && (forall cid :: Only(s'.trace, Call(cid)) ==
          Only(s.trace, Call(cid)) + (if cid in keys then Shown(s, cid, pkg, b, now) else []))
  }

  lemma KeyObject(s: Sip, k: string, pkg: Package, b: Stamped, now: int, i: nat)
    requires TableOk(s) && i < |s.subs|
    ensures var s' := FanOutKey(s, k, pkg, b, now);
      && |s'.subs| == |s.subs|
      && s'.subs[i] == if s.subs[i].callId == k && Served(s, i, pkg, now)
                       then Filtered(s.subs[i], b, now) else s.subs[i]
  {
    hide Delivered, Queued;
  }

  lemma KeyTrace(s: Sip, k: string, pkg: Package, b: Stamped, now: int, cid: string)
    requires TableOk(s)
    ensures Only(FanOutKey(s, k, pkg, b, now).trace, Call(cid)) ==
      Only(s.trace, Call(cid)) + (if cid == k then Shown(s, cid, pkg, b, now) else [])
  {
    if HasEntry(s, k) {
      OnlyAppend(s.trace, NotifyOf(s.subs[s.table.at[k]], s.table.at[k], b, now), Call(cid));
    }
    hide Only, Delivered, Queued;
  }

  lemma KeyPointwise(s: Sip, k: string, pkg: Package, b: Stamped, now: int)
    requires TableOk(s)
    ensures Pointwise(s, FanOutKey(s, k, pkg, b, now), [k], pkg, b, now)
  {
    forall cid {
      KeyTrace(s, k, pkg, b, now, cid);
    }
    forall i | 0 <= i < |s.subs| {
      KeyObject(s, k, pkg, b, now, i);
    }
    hide Only, Delivered, Queued, Filtered;
  }

  lemma ComposeObject(s: Sip, m: Sip, s': Sip, k: string, keys: seq<string>, pkg: Package, b: Stamped, now: int, i: nat)
    requires k !in keys && i < |s.subs|
    requires Pointwise(s, m, [k], pkg, b, now) && Pointwise(m, s', keys, pkg, b, now)
    ensures s'.subs[i] == if s.subs[i].callId in [k] + keys && Served(s, i, pkg, now)
                          then Filtered(s.subs[i], b, now) else s.subs[i]
  {
    hide Only, Shown;
  }

  lemma ComposeShown(s: Sip, m: Sip, s': Sip, k: string, keys: seq<string>, pkg: Package, b: Stamped, now: int, cid: string)
    requires TableOk(s) && k !in keys
    requires Pointwise(s, m, [k], pkg, b, now) && Pointwise(m, s', keys, pkg, b, now)
    ensures Only(s'.trace, Call(cid)) ==
      Only(s.trace, Call(cid)) + (if cid in [k] + keys then Shown(s, cid, pkg, b, now) else [])
  {
    hide Only, Filtered;
    if cid in keys {
      assert cid != k;
      assert Shown(m, cid, pkg, b, now) == Shown(s, cid, pkg, b, now);
    }
  }

  lemma Compose(s: Sip, m: Sip, s': Sip, k: string, keys: seq<string>, pkg: Package, b: Stamped, now: int)
    requires TableOk(s) && k !in keys
    requires Pointwise(s, m, [k], pkg, b, now) && Pointwise(m, s', keys, pkg, b, now)
    ensures Pointwise(s, s', [k] + keys, pkg, b, now)
  {
    forall i | 0 <= i < |s.subs| {
      ComposeObject(s, m, s', k, keys, pkg, b, now, i);
    }
    forall cid {
      ComposeShown(s, m, s', k, keys, pkg, b, now, cid);
    }
    hide Only, Shown, Served, Filtered, TableOk;
  }

  lemma {:induction false} KeysPointwise(s: Sip, keys: seq<string>, pkg: Package, b: Stamped, now: int)
    requires TableOk(s) && NoDup(keys)
    ensures Pointwise(s, FanOutKeys(s, keys, pkg, b, now), keys, pkg, b, now)
    decreases |keys|
  {
    if keys != [] {
      var m := FanOutKey(s, keys[0], pkg, b, now);
      KeyPointwise(s, keys[0], pkg, b, now);
      assert TableOk(m);
      hide Pointwise, TableOk, FanOutKey;
      KeysPointwise(m, keys[1..], pkg, b, now);
      Compose(s, m, FanOutKeys(m, keys[1..], pkg, b, now), keys[0], keys[1..], pkg, b, now);
      assert [keys[0]] + keys[1..] == keys;
    }
  }

  // ---------------------------------------------------------------- the simulation

  predicate Alive(s: Sip, i: int, now: int) {
    Current(s, i) && !Expired(s.subs[i], now)
  }

  /** The two notifiers hold the same unexpired current objects, in the same state, and have
      shown every Call-ID the same NOTIFYs. Their tables may be ordered differently. */
  ghost predicate SameSip(l: Sip, m: Sip, now: int) {
    && TableOk(l) && TableOk(m) && |l.subs| == |m.subs| && l.capacity == m.capacity
    && (forall i :: Alive(l, i, now) <==> Alive(m, i, now))
    && (forall i :: Alive(l, i, now) ==> l.subs[i] == m.subs[i])
    && (forall cid :: Only(l.trace, Call(cid)) == Only(m.trace, Call(cid)))
  }

  ghost predicate SameSystem(l: System, m: System) {
    && l.now == m.now && l.cfg == m.cfg && l.element == m.element && l.service == m.service
    && l.elementUp == m.elementUp && l.serviceUp == m.serviceUp && l.log == m.log
    && SameSip(l.sip, m.sip, l.now)
    && Bounded(l.sip)
  }

  ghost predicate Bounded(s: Sip) {
    |s.table.at| <= (if s.capacity < 0 then 0 else s.capacity)
  }

  lemma CleanupAlive(s: Sip, now: int)
    requires TableOk(s)
    ensures var c := Cleanup(s, now);
      && TableOk(c) && |c.subs| == |s.subs| && c.trace == s.trace && c.capacity == s.capacity
      && (forall i :: Current(c, i) <==> Alive(s, i, now))
      && (forall i :: Alive(c, i, now) <==> Alive(s, i, now))
      && (forall i :: Alive(c, i, now) ==> c.subs[i] == s.subs[i])
  {
  }

  lemma PruneKeepsSame(l: Sip, m: Sip, now: int, later: int)
    requires SameSip(l, m, now) && now <= later
    ensures SameSip(l, Cleanup(m, later), later)
    ensures forall i :: Current(Cleanup(m, later), i) ==> Alive(l, i, later)
  {
    CleanupAlive(m, later);
    hide Cleanup, Only, TableOk;
    forall i ensures Alive(l, i, later) <==> Alive(m, i, later)
             ensures Alive(l, i, later) ==> l.subs[i] == m.subs[i]
    {
      assert Alive(l, i, now) <==> Alive(m, i, now);
      assert Alive(l, i, later) ==> Alive(l, i, now);
    }
  }

  lemma FanOutSame(l: Sip, m: Sip, pkg: Package, b: Stamped, now: int)
    requires SameSip(l, m, now)
    ensures SameSip(FanOut(l, pkg, b, now), FanOut(m, pkg, b, now), now)
  {
    FanOutAlive(l, pkg, b, now);
    FanOutAlive(m, pkg, b, now);
    hide FanOut, Only, TableOk;
    var l', m' := FanOut(l, pkg, b, now), FanOut(m, pkg, b, now);
    forall i ensures Alive(l', i, now) <==> Alive(m', i, now)
             ensures Alive(l', i, now) ==> l'.subs[i] == m'.subs[i]
    {
      assert Alive(l, i, now) <==> Alive(m, i, now);
      if Alive(l, i, now) {
        ObjectSame(l, m, i, pkg, b, now);
      }
    }
    forall cid ensures Only(l'.trace, Call(cid)) == Only(m'.trace, Call(cid)) {
      TraceSame(l, m, cid, pkg, b, now);
    }
  }

  /** A fan-out does the same to an object that is served on both sides. */
  lemma ObjectSame(l: Sip, m: Sip, i: nat, pkg: Package, b: Stamped, now: int)
    requires SameSip(l, m, now) && Alive(l, i, now)
    ensures i < |FanOut(l, pkg, b, now).subs| == |FanOut(m, pkg, b, now).subs|
    ensures FanOut(l, pkg, b, now).subs[i] == FanOut(m, pkg, b, now).subs[i]
  {
    KeysPointwise(l, l.table.order, pkg, b, now);
    KeysPointwise(m, m.table.order, pkg, b, now);
    assert Alive(m, i, now);
    hide Only, Shown, Filtered, FanOutKeys, ExpiredKeys;
  }

  lemma TraceSame(l: Sip, m: Sip, cid: string, pkg: Package, b: Stamped, now: int)
    requires SameSip(l, m, now)
    ensures Only(FanOut(l, pkg, b, now).trace, Call(cid)) == Only(FanOut(m, pkg, b, now).trace, Call(cid))
  {
    KeysPointwise(l, l.table.order, pkg, b, now);
    KeysPointwise(m, m.table.order, pkg, b, now);
    ShownSame(l, m, cid, pkg, b, now);
    hide Only, Shown, Filtered, FanOutKeys, ExpiredKeys, Alive, Served;
  }

  lemma ShownSame(l: Sip, m: Sip, cid: string, pkg: Package, b: Stamped, now: int)
    requires SameSip(l, m, now)
    ensures (if cid in l.table.order then Shown(l, cid, pkg, b, now) else [])
         == (if cid in m.table.order then Shown(m, cid, pkg, b, now) else [])
  {
    if HasEntry(l, cid) {
      assert Alive(l, l.table.at[cid], now) ==> Alive(m, l.table.at[cid], now);
    }
    if HasEntry(m, cid) {
      assert Alive(m, m.table.at[cid], now) ==> Alive(l, m.table.at[cid], now);
    }
  }

  lemma FanOutAlive(s: Sip, pkg: Package, b: Stamped, now: int)
    requires TableOk(s)
    ensures var s' := FanOut(s, pkg, b, now);
      && TableOk(s') && |s'.subs| == |s.subs| && s'.capacity == s.capacity
      && s'.table.at.Keys <= s.table.at.Keys
      && forall i :: Alive(s', i, now) <==> Alive(s, i, now)
  {
    FanOutKeysFrame(s, s.table.order, pkg, b, now);
  }

  lemma CancelKeepsIdentity(sub: Sub)
    ensures CancelHandle(sub).callId == sub.callId && CancelHandle(sub).expiresAt == sub.expiresAt
  {
  }

  lemma UnsubscribeAlive(s: Sip, k: string, now: int)
    requires TableOk(s)
    ensures var u := Unsubscribe(s, k);
      && TableOk(u) && |u.subs| == |s.subs| && u.trace == s.trace && u.capacity == s.capacity
      && (forall i :: Alive(u, i, now) <==> Alive(s, i, now) && s.subs[i].callId != k)
      && (forall i :: Alive(u, i, now) ==> u.subs[i] == s.subs[i])
  {
    RemoveKeepsOthers(s.table.order, k);
    if HasEntry(s, k) {
      CancelKeepsIdentity(s.subs[s.table.at[k]]);
    }
    hide CancelHandle, Remove;
  }

  lemma UnsubscribeSame(l: Sip, m: Sip, k: string, now: int)
    requires SameSip(l, m, now)
    ensures SameSip(Unsubscribe(l, k), Unsubscribe(m, k), now)
  {
    UnsubscribeAlive(l, k, now);
    UnsubscribeAlive(m, k, now);
    hide Unsubscribe, Only, TableOk;
    var l', m' := Unsubscribe(l, k), Unsubscribe(m, k);
    forall i ensures Alive(l', i, now) <==> Alive(m', i, now) {
      assert Alive(l, i, now) <==> Alive(m, i, now);
      assert Alive(l, i, now) ==> l.subs[i] == m.subs[i];
    }
    forall i | Alive(l', i, now) ensures l'.subs[i] == m'.subs[i] {
      assert Alive(l, i, now) && Alive(m, i, now);
    }
  }

  lemma EnterObject(s: Sip, r: Request, now: int, i: nat)
    requires TableOk(s) && Accepts(s, r) && i < |s.subs|
    ensures var e := Enter(s, r, now);
      && |e.subs| == |s.subs| + 1
      && e.subs[i].callId == s.subs[i].callId && e.subs[i].expiresAt == s.subs[i].expiresAt
      && (Current(e, i) <==> Current(s, i) && s.subs[i].callId != r.callId)
      && (Current(e, i) ==> e.subs[i] == s.subs[i])
  {
  }

  lemma EnterTable(s: Sip, r: Request, now: int)
    requires TableOk(s) && Accepts(s, r)
    ensures var e := Enter(s, r, now);
      && TableOk(e) && |e.subs| == |s.subs| + 1
      && e.subs[|s.subs|] == NewSub(r, now) && Alive(e, |s.subs|, now)
  {
    var e := Enter(s, r, now);
    assert e.table == s.table.Put(r.callId, |s.subs|);
    forall k | k in e.table.at && k != r.callId ensures e.subs[e.table.at[k]].callId == k {
      EnterObject(s, r, now, s.table.at[k]);
    }
  }

  lemma EnterAlive(s: Sip, r: Request, now: int)
    requires TableOk(s) && Accepts(s, r)
    ensures var e := Enter(s, r, now);
      && TableOk(e) && |e.subs| == |s.subs| + 1
      && e.subs[|s.subs|] == NewSub(r, now)
      && (forall i :: Alive(e, i, now) <==>
            i == |s.subs| || (Alive(s, i, now) && s.subs[i].callId != r.callId))
      && (forall i :: Alive(e, i, now) && i != |s.subs| ==> e.subs[i] == s.subs[i])
  {
    EnterTable(s, r, now);
    var e := Enter(s, r, now);
    hide Enter, TableOk, Verdict;
    forall i | 0 <= i < |s.subs|
      ensures Alive(e, i, now) <==> Alive(s, i, now) && s.subs[i].callId != r.callId
      ensures Alive(e, i, now) ==> e.subs[i] == s.subs[i]
    {
      EnterObject(s, r, now, i);
    }
  }

  lemma DeliverSame(l: Sip, m: Sip, i: nat, b: Stamped, now: int)
    requires SameSip(l, m, now) && i < |l.subs| && Alive(l, i, now)
    ensures SameSip(Deliver(l, i, b, now), Deliver(m, i, b, now), now)
  {
    var l', m' := Deliver(l, i, b, now), Deliver(m, i, b, now);
    forall j ensures Alive(l', j, now) == Alive(l, j, now) && Alive(m', j, now) == Alive(m, j, now) {
    }
    forall cid ensures Only(l'.trace, Call(cid)) == Only(m'.trace, Call(cid)) {
      OnlyAppend(l.trace, NotifyOf(l.subs[i], i, b, now), Call(cid));
      OnlyAppend(m.trace, NotifyOf(m.subs[i], i, b, now), Call(cid));
    }
  }

  /** The smaller table is not full when the larger one is not. */
  lemma SameVerdict(l: Sip, m: Sip, r: Request, now: int)
    requires SameSip(l, m, now) && Bounded(l) && Verdict(l, r).status != 503
    requires forall i :: Current(m, i) ==> Alive(l, i, now)
    ensures Verdict(m, r) == Verdict(l, r)
  {
    forall k | k in m.table.at ensures k in l.table.at {
      assert Current(m, m.table.at[k]);
      assert Alive(m, m.table.at[k], now);
      assert l.subs[m.table.at[k]] == m.subs[m.table.at[k]];
    }
    SubMapSmaller(m.table.at, l.table.at);
    if r.callId in l.table.at && r.callId !in m.table.at {
      SubMapSmaller(m.table.at[r.callId := 0], l.table.at);
    }
  }

  lemma SubMapSmaller(a: map<string, nat>, b: map<string, nat>)
    requires a.Keys <= b.Keys
    ensures |a| <= |b|
  {
    SubsetSmaller(a.Keys, b.Keys);
  }

  lemma SubsetSmaller<T>(a: set<T>, b: set<T>)
    requires a <= b
    ensures |a| <= |b|
  {
    assert b == a + (b - a);
  }

  lemma SubscribeSame(l: Sip, m: Sip, r: Request, pub: Published, now: int)
    requires SameSip(l, m, now) && Bounded(l) && Verdict(l, r).status != 503
    requires forall i :: Current(m, i) ==> Alive(l, i, now)
    ensures SameSip(Subscribe(l, r, pub, now), Subscribe(m, r, pub, now), now)
    ensures Bounded(Subscribe(l, r, pub, now))
  {
    SameVerdict(l, m, r, now);
    if Accepts(l, r) {
      EnterSame(l, m, r, now);
      DeliverSame(Enter(l, r, now), Enter(m, r, now), |l.subs|, pub.Of(r.event.pkg), now);
      PutBounded(l, r.callId, |l.subs|);
    } else {
      UnsubscribeSame(l, m, r.callId, now);
      SubMapSmaller(l.table.Pop(r.callId).at, l.table.at);
    }
  }

  lemma PutBounded(l: Sip, k: string, i: nat)
    requires Bounded(l) && !AtCapacity(l, k)
    ensures |l.table.Put(k, i).at| <= (if l.capacity < 0 then 0 else l.capacity)
  {
    assert l.table.at[k := i].Keys == l.table.at.Keys + {k};
  }

  lemma EnterSame(l: Sip, m: Sip, r: Request, now: int)
    requires SameSip(l, m, now) && Accepts(l, r) && Accepts(m, r)
    ensures SameSip(Enter(l, r, now), Enter(m, r, now), now)
    ensures Alive(Enter(l, r, now), |l.subs|, now)
  {
    EnterAlive(l, r, now);
    EnterAlive(m, r, now);
    var l', m' := Enter(l, r, now), Enter(m, r, now);
    forall i ensures Alive(l', i, now) <==> Alive(m', i, now) {
      assert Alive(l, i, now) <==> Alive(m, i, now);
      assert Alive(l, i, now) ==> l.subs[i] == m.subs[i];
    }
    forall i | Alive(l', i, now) ensures l'.subs[i] == m'.subs[i] {
      assert i == |l.subs| || Alive(l, i, now);
    }
  }

  /** A timer of an object that is gone or expired shows nobody anything. */
  lemma DeadTimer(s: Sip, i: nat, t: nat, pub: Published, now: int, log: Logs)
    requires SipInv(s, now, log) && CanFireSub(s, i, t, now) && !Alive(s, i, now)
    ensures TimerFired(s, i, t, pub, now) == RanTimer(s, i, t)
    ensures TableOk(RanTimer(s, i, t)) && RanTimer(s, i, t).trace == s.trace
    ensures forall j :: Alive(RanTimer(s, i, t), j, now) <==> Alive(s, j, now)
    ensures forall j :: Alive(s, j, now) ==> RanTimer(s, i, t).subs[j] == s.subs[j]
  {
    assert SubOk(s, i, now, log) && Live(s.subs[i], t);
  }

  lemma LiveTimerSame(l: Sip, m: Sip, i: nat, t: nat, pub: Published, now: int)
    requires SameSip(l, m, now) && CanFireSub(l, i, t, now) && Alive(l, i, now)
    ensures CanFireSub(m, i, t, now)
    ensures SameSip(TimerFired(l, i, t, pub, now), TimerFired(m, i, t, pub, now), now)
  {
    assert Alive(m, i, now);
    var l', m' := RanTimer(l, i, t), RanTimer(m, i, t);
    forall j ensures Alive(l', j, now) == Alive(l, j, now) && Alive(m', j, now) == Alive(m, j, now) {
    }
    var sub := l.subs[i];
    DeliverSame(l', m', i, if sub.pending.Some? then sub.pending.value else pub.Of(sub.pkg), now);
  }

  lemma TimerSame(l: Sip, m: Sip, i: nat, t: nat, pub: Published, now: int, log: Logs)
    requires SameSip(l, m, now) && SipInv(l, now, log) && SipInv(m, now, log)
    requires CanFireSub(l, i, t, now)
    ensures SameSip(TimerFired(l, i, t, pub, now),
                    if CanFireSub(m, i, t, now) then TimerFired(m, i, t, pub, now) else m, now)
  {
    if Alive(l, i, now) {
      LiveTimerSame(l, m, i, t, pub, now);
    } else {
      DeadTimer(l, i, t, pub, now, log);
      if CanFireSub(m, i, t, now) {
        DeadTimer(m, i, t, pub, now, log);
      }
      var l' := TimerFired(l, i, t, pub, now);
      var m' := if CanFireSub(m, i, t, now) then TimerFired(m, i, t, pub, now) else m;
      forall j ensures Alive(l', j, now) <==> Alive(m', j, now) {
        assert Alive(l, j, now) <==> Alive(m, j, now);
      }
      forall j | Alive(l', j, now) ensures l'.subs[j] == m'.subs[j] {
        assert Alive(l, j, now) && Alive(m, j, now);
      }
    }
  }

  lemma CleanupSame(l: Sip, m: Sip, now: int)
    requires SameSip(l, m, now)
    ensures SameSip(Cleanup(l, now), m, now)
  {
    var c := Cleanup(l, now);
    forall i ensures Alive(c, i, now) <==> Alive(m, i, now) {
      assert Alive(l, i, now) <==> Alive(m, i, now);
    }
    forall i | Alive(c, i, now) ensures c.subs[i] == m.subs[i] {
      assert Alive(l, i, now);
    }
  }

  lemma DispatchSame(l: System, m: System, pkg: Package)
    requires SameSystem(l, m)
    ensures SameSystem(FanOutNow(l, pkg), FanOutNow(m, pkg))
  {
    var b := Publishes(l).Of(pkg);
    assert Publishes(m) == Publishes(l);
    FanOutSame(l.sip, m.sip, pkg, b, l.now);
    FanOutAlive(l.sip, pkg, b, l.now);
    SubMapSmaller(FanOut(l.sip, pkg, b, l.now).table.at, l.sip.table.at);
  }

  lemma ScheduleSame(l: System, m: System, pkg: Package)
    requires SameSystem(l, m)
    ensures SameSystem(ScheduleNotify(l, pkg), ScheduleNotify(m, pkg))
  {
    var u := Scheduled(Up(l, pkg), l.now);
    DispatchSame(WithUp(l, pkg, u), WithUp(m, pkg, u), pkg);
  }

  /** The two notifiers at the time of an event, the ideal one already pruned. */
  ghost predicate Aligned(l: System, m: System) {
    && SameSystem(l, m) && Inv(l) && Inv(m)
    && forall i :: Current(m.sip, i) ==> Alive(l.sip, i, l.now)
  }

  lemma PruneAligns(l: System, m: System, now: int)
    requires SameSystem(l, m) && Inv(l) && Inv(m) && l.now <= now
    ensures Aligned(l.(now := now), Pruned(m, now))
  {
    PruneKeepsSame(l.sip, m.sip, l.now, now);
    ClockAdvances(l, now);
    StepInv(m, now, CleanupPass);
    assert Step(m, now, CleanupPass) == Pruned(m, now);
  }

  lemma SetSame(l: System, m: System, e: Event)
    requires Aligned(l, m) && !RunsTimer(e) && !e.IncomingSubscribe? && !e.CleanupPass?
    ensures SameSystem(Step(l, l.now, e), Step(m, l.now, e))
  {
    match e
    case SetElementState(st, reason) =>
      var b := ElementBundle(st, reason);
      ScheduleSame(WriteElement(l, b), WriteElement(m, b), ElementPackage);
    case SetServiceState(st, reason) =>
      var b := l.service.(state := st, reason := reason);
      ScheduleSame(WriteService(l, b), WriteService(m, b), ServicePackage);
    case SetSecurityPosture(p, reason) =>
      var b := l.service.(posture := Some(PostureBundle(p, reason)));
      ScheduleSame(WriteService(l, b), WriteService(m, b), ServicePackage);
    case Tick =>
  }

  lemma SipEventSame(l: System, m: System, e: Event)
    requires Aligned(l, m) && Enabled(l, l.now, e)
    requires e.IncomingSubscribe? || e.SubscriptionTimer? || e.CleanupPass?
    requires e.IncomingSubscribe? ==> Verdict(l.sip, e.request).status != 503
    ensures SameSystem(Step(l, l.now, e), if Enabled(m, l.now, e) then Step(m, l.now, e) else m)
  {
    assert Publishes(l) == Publishes(m);
    match e
    case IncomingSubscribe(r) => SubscribeSame(l.sip, m.sip, r, Publishes(l), l.now);
    case SubscriptionTimer(i, t) => TimerSame(l.sip, m.sip, i, t, Publishes(l), l.now, l.log);
    case CleanupPass =>
      CleanupSame(l.sip, m.sip, l.now);
      PruneKeepsSame(Cleanup(l.sip, l.now), m.sip, l.now, l.now);
      SubMapSmaller(Cleanup(l.sip, l.now).table.at, l.sip.table.at);
  }

  lemma StepSame(l: System, m: System, now: int, e: Event)
    requires SameSystem(l, m) && Inv(l) && Inv(m) && Enabled(l, now, e)
    requires e.IncomingSubscribe? ==> Verdict(l.sip, e.request).status != 503
    ensures SameSystem(Step(l, now, e), IdealStep(m, now, e))
  {
    var l1, m1 := l.(now := now), Pruned(m, now);
    PruneAligns(l, m, now);
    assert Step(l, now, e) == Step(l1, now, e);
    hide Inv, Cleanup, Only, TableOk, UpstreamInv, FanOut;
    if e.DeferredDispatch? {
      var u := Deferred(Up(l1, e.pkg), e.timer, now);
      DispatchSame(WithUp(l1, e.pkg, u), WithUp(m1, e.pkg, u), e.pkg);
    } else if e.IncomingSubscribe? || e.SubscriptionTimer? || e.CleanupPass? {
      SipEventSame(l1, m1, e);
    } else {
      SetSame(l1, m1, e);
    }
  }

  lemma IdealStepInv(m: System, now: int, e: Event)
    requires Inv(m) && m.now <= now
    ensures Inv(IdealStep(m, now, e))
  {
    StepInv(m, now, CleanupPass);
    assert Step(m, now, CleanupPass) == Pruned(m, now);
    if Enabled(Pruned(m, now), now, e) {
      StepInv(Pruned(m, now), now, e);
    }
  }

  lemma {:induction false} RunsSame(l: System, m: System, evs: seq<Timed>)
    requires SameSystem(l, m) && Inv(l) && Inv(m) && ValidRun(l, evs) && NeverFull(l, evs)
    ensures Increasing(m.now, evs) && SameSystem(Run(l, evs), IdealRun(m, evs))
    decreases |evs|
  {
    RunsIncrease(l, evs);
    if evs != [] {
      var now, e := evs[0].now, evs[0].event;
      StepSame(l, m, now, e);
      StepInv(l, now, e);
      IdealStepInv(m, now, e);
      StepNow(Pruned(m, now), now, e);
      RunsSame(Step(l, now, e), IdealStep(m, now, e), evs[1..]);
    }
  }

  /** Whenever fan-out and cleanup prune, each Call-ID is sent the same NOTIFYs, at the same
      times, as by the notifier that removes subscriptions exactly at their expiry. */
  lemma PruningIsInvisible(s0: System, evs: seq<Timed>, callId: string)
    requires IsStart(s0) && ValidRun(s0, evs) && NeverFull(s0, evs)
    ensures Increasing(s0.now, evs)
    ensures Only(Run(s0, evs).sip.trace, Call(callId)) == Only(IdealRun(s0, evs).sip.trace, Call(callId))
  {
    ReachableInv(s0, []);
    assert Run(s0, []) == s0;
    RunsSame(s0, s0, evs);
  }
}
