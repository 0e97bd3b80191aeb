/** Several Discrepancy Reporting components over a network that may lose, delay, reorder and
    repeat what is sent. Each step is what one coroutine does between two awaits. */
module DrNetwork {
  import opened Discrepancy
  import opened DrModels
  import opened Json
  import opened Prelude

  /** One `submit` that got as far as posting `body` to `url`. */
  datatype Call = Call(sender: nat, report: Report, uri: string, now: int, url: string, body: Wire)

  datatype Message =
    | ReportPost(call: nat)
    | ReportAnswer(call: nat, status: nat, reply: Option<Wire>)
    | ResolutionPost(url: string, body: Wire)

  /** What happened to a received report, at which component. */
  datatype Entry =
    | Accepted(at: nat, key: Key, report: Report)
    | Settled(at: nat, key: Key, report: Report, resolution: Resolution)

  /** `sent` only grows: whether and when a message arrives is up to the run. `log` is history
      that no component reads. */
  datatype World = World(
    configs: seq<Config>,
    routes: map<string, nat>,
    states: seq<State>,
    calls: seq<Call>,
    open: set<nat>,
    sent: set<Message>,
    log: seq<Entry>)

  datatype Event =
    | SubmitCalled(i: nat, report: Report, uri: string, force: bool, now: int, stamp: string)
    | ReportArrives(call: nat, authorized: bool, estimate: string)
    | AnswerArrives(call: nat, status: nat, reply: Option<Wire>)
    | SubmitFails(call: nat, failure: Option<nat>)
    | ResolveCalled(i: nat, agency: string, id: string, token: string, comments: Value, time: string)
    | ResolutionArrives(url: string, body: Wire, authorized: bool)

  /** No transport failure and no answer from elsewhere looks like a 201. */
  predicate Enabled(w: World, e: Event) {
    match e
    case SubmitCalled(i, _, _, _, _, _) => i < |w.states|
    case ReportArrives(c, _, _) => ReportPost(c) in w.sent && c < |w.calls| && w.calls[c].url in w.routes
    case AnswerArrives(c, status, reply) => ReportAnswer(c, status, reply) in w.sent && c in w.open
    case SubmitFails(c, failure) => c in w.open && failure != Some(201)
    case ResolveCalled(i, _, _, _, _, _) => i < |w.states|
    case ResolutionArrives(url, body, _) => ResolutionPost(url, body) in w.sent && url in w.routes
  }

  ghost predicate Shaped(w: World) {
    && |w.configs| == |w.states|
    && (forall i :: 0 <= i < |w.configs| ==> w.configs[i].jcard != Null)
    && (forall url :: url in w.routes ==> w.routes[url] < |w.states|)
    && (forall c :: c in w.open ==> c < |w.calls|)
    && (forall c :: 0 <= c < |w.calls| ==> w.calls[c].sender < |w.states|)
  }

  function Initial(configs: seq<Config>, routes: map<string, nat>): World {
    World(configs, routes, seq(|configs|, _ => State(map[], map[], map[])), [], {}, {}, [])
  }

  function Submitting(w: World, e: Event): World
    requires e.SubmitCalled? && Shaped(w) && Enabled(w, e)
  {
    match SubmitBegin(w.configs[e.i], w.states[e.i], e.report, e.uri, e.force, e.now, e.stamp)
    case Posting(stamped, url, body) =>
      w.(calls := w.calls + [Call(e.i, stamped, e.uri, e.now, url, body)],
         open := w.open + {|w.calls|},
         sent := w.sent + {ReportPost(|w.calls|)})
    case _ => w
  }

  function Receiving(w: World, e: Event): World
    requires e.ReportArrives? && Shaped(w) && Enabled(w, e)
  {
    var j := w.routes[w.calls[e.call].url];
    var body := w.calls[e.call].body;
    var (s, reply) := OnReport(w.configs[j], w.states[j], body, e.authorized, e.estimate);
    match reply
    case Raised => w
    case Answer(status, answer) =>
      w.(states := w.states[j := s],
         sent := w.sent + {ReportAnswer(e.call, status, answer)},
         log := if status != 201 then w.log
                else w.log + [Accepted(j, KeyOf(FromDict(body).value), FromDict(body).value)])
  }

  function Answering(w: World, call: nat, status: Option<nat>, reply: Option<Wire>): World
    requires Shaped(w) && call in w.open
  {
    var c := w.calls[call];
    w.(open := w.open - {call},
       states := if status.None? then w.states
                 else w.states[c.sender := SubmitEnd(w.states[c.sender], c.report, c.uri, c.now, status.value, reply)])
  }

  function Resolving(w: World, e: Event): World
    requires e.ResolveCalled? && Shaped(w) && Enabled(w, e)
  {
    var key := (Str(e.agency), Str(e.id));
    var (s, outcome) := OnResolve(w.configs[e.i], w.states[e.i], e.agency, e.id, e.token, e.comments, e.time);
    match outcome
    case UnknownReport => w
    case Recorded(x, callback) =>
      w.(states := w.states[e.i := s],
         sent := if callback.None? then w.sent
                 else w.sent + {ResolutionPost(callback.value, ResolutionToDict(x))},
         log := w.log + [Settled(e.i, key, w.states[e.i].received[key].report, x)])
  }

  function Step(w: World, e: Event): World
    requires Shaped(w) && Enabled(w, e)
  {
    match e
    case SubmitCalled(_, _, _, _, _, _) => Submitting(w, e)
    case ReportArrives(_, _, _) => Receiving(w, e)
    case AnswerArrives(c, status, reply) => Answering(w, c, Some(status), reply)
    case SubmitFails(c, failure) => Answering(w, c, failure, None)
    case ResolveCalled(_, _, _, _, _, _) => Resolving(w, e)
    case ResolutionArrives(url, body, authorized) =>
      var i := w.routes[url];
      w.(states := w.states[i := OnResolution(w.configs[i], w.states[i], body, authorized).0])
  }

  // ---------------------------------------------------------------- invariant

  /** The last thing that happened to `key` at component `at`. */
  function Latest(log: seq<Entry>, at: nat, key: Key): Option<Entry> {
    if log == [] then None
    else
      var last := log[|log| - 1];
      if last.at == at && last.key == key then Some(last) else Latest(log[..|log| - 1], at, key)
  }

  /** What component `at` holds for `key` is what the history says. */
  ghost predicate Agrees(w: World, at: nat, key: Key)
    requires at < |w.states|
  {
    match Latest(w.log, at, key)
    case None => key !in w.states[at].received
    case Some(Accepted(_, _, r)) =>
      && key in w.states[at].received
      && w.states[at].received[key].report == r && w.states[at].received[key].resolution == None
    case Some(Settled(_, _, r, x)) =>
      && key in w.states[at].received
      && w.states[at].received[key].report == r && w.states[at].received[key].resolution == Some(x)
  }

  /** The report of call `c` is held where it was posted to. */
  ghost predicate Delivered(w: World, c: nat)
    requires Shaped(w)
  {
    && c < |w.calls| && w.calls[c].url in w.routes
    && FromDict(w.calls[c].body).Some?
    && KeyOf(FromDict(w.calls[c].body).value) in w.states[w.routes[w.calls[c].url]].received
  }

  /** Call `c` filed what component `i` has on record under `id`. */
  ghost predicate Filed(w: World, i: nat, id: Value, c: nat)
    requires Shaped(w) && i < |w.states| && id in w.states[i].submitted
  {
    var entry := w.states[i].submitted[id];
    && c < |w.calls| && Delivered(w, c)
    && w.calls[c].sender == i && w.calls[c].report == entry.report && w.calls[c].uri == entry.responderUri
    && entry.report.reportId == id
  }

  /** Entry `k` of the history records `x` as the resolution of exactly this report key. */
  ghost predicate Settles(w: World, k: nat, key: Key, x: Resolution) {
    k < |w.log| && w.log[k].Settled? && w.log[k].resolution == x && w.log[k].key == key
  }

  /** The report came from call `c`, posted to component `at`. */
  ghost predicate CameFrom(w: World, c: nat, at: nat, key: Key, r: Report) {
    && c < |w.calls| && w.calls[c].url in w.routes && w.routes[w.calls[c].url] == at
    && FromDict(w.calls[c].body) == Some(r) && KeyOf(r) == key
  }

  ghost predicate CallOk(w: World, c: nat)
    requires c < |w.calls|
  {
    var call := w.calls[c];
    call.url == StripSlashes(call.uri) + "/Reports" && ToDict(call.report) == Some(call.body)
  }

  ghost predicate EntryOk(w: World, k: nat)
    requires k < |w.log|
  {
    var e := w.log[k];
    && (exists c: nat :: CameFrom(w, c, e.at, e.key, e.report))
    && (e.Settled? ==>
          && ResolutionComplete(e.resolution) && e.resolution.reportId.Str?
          && e.key == (e.resolution.reportingAgency, e.resolution.reportId))
  }

  ghost predicate SubmissionOk(w: World, i: nat, id: Value)
    requires Shaped(w) && i < |w.states| && id in w.states[i].submitted
  {
    var x := w.states[i].submitted[id].resolution;
    && (exists c: nat :: Filed(w, i, id, c))
    && (x.Some? ==> exists k: nat :: Settles(w, k, (Str(w.configs[i].agencyId), id), x.value))
  }

  ghost predicate MessageOk(w: World, m: Message)
    requires Shaped(w)
  {
    match m
    case ReportPost(_) => true
    case ReportAnswer(c, status, _) => status == 201 ==> Delivered(w, c)
    case ResolutionPost(_, body) =>
      exists k :: 0 <= k < |w.log| && w.log[k].Settled? && body == ResolutionToDict(w.log[k].resolution)
  }

  ghost predicate Inv(w: World) {
    && Shaped(w)
    && (forall c :: 0 <= c < |w.calls| ==> CallOk(w, c))
    && (forall m :: m in w.sent ==> MessageOk(w, m))
    && (forall k :: 0 <= k < |w.log| ==> EntryOk(w, k))
    && (forall i, id :: 0 <= i < |w.states| && id in w.states[i].submitted ==> SubmissionOk(w, i, id))
    && (forall i, key :: 0 <= i < |w.states| ==> Agrees(w, i, key))
  }

  // ---------------------------------------------------------------- what later steps keep

  ghost predicate Grows(w: World, v: World) {
    && v.configs == w.configs && v.routes == w.routes && |v.states| == |w.states|
    && w.calls <= v.calls && w.sent <= v.sent && w.log <= v.log
    && forall i :: 0 <= i < |w.states| ==> w.states[i].received.Keys <= v.states[i].received.Keys
  }

  lemma DeliveredStays(w: World, v: World, c: nat)
    requires Shaped(w) && Shaped(v) && Grows(w, v) && Delivered(w, c)
    ensures Delivered(v, c)
  {
    hide FromDict;
    assert v.calls[c] == w.calls[c];
    var j := w.routes[w.calls[c].url];
    assert w.states[j].received.Keys <= v.states[j].received.Keys;
  }

  lemma EntryStays(w: World, v: World, k: nat)
    requires Grows(w, v) && k < |w.log| && EntryOk(w, k)
    ensures EntryOk(v, k)
  {
    hide FromDict, ResolutionComplete;
    var e := w.log[k];
    var c: nat :| CameFrom(w, c, e.at, e.key, e.report);
    assert v.log[k] == e && v.calls[c] == w.calls[c];
    assert CameFrom(v, c, e.at, e.key, e.report);
  }

  lemma MessageStays(w: World, v: World, m: Message)
    requires Shaped(w) && Shaped(v) && Grows(w, v) && MessageOk(w, m)
    ensures MessageOk(v, m)
  {
    hide ResolutionToDict, Delivered;
    match m
    case ReportPost(_) =>
    case ReportAnswer(c, status, _) =>
      if status == 201 {
        DeliveredStays(w, v, c);
      }
    case ResolutionPost(_, body) =>
      var k :| 0 <= k < |w.log| && w.log[k].Settled? && body == ResolutionToDict(w.log[k].resolution);
      assert v.log[k] == w.log[k];
  }

  lemma SubmissionStays(w: World, v: World, i: nat, id: Value)
    requires Shaped(w) && Shaped(v) && Grows(w, v) && i < |w.states|
    requires id in w.states[i].submitted && id in v.states[i].submitted
    requires v.states[i].submitted[id] == w.states[i].submitted[id]
    requires SubmissionOk(w, i, id)
    ensures SubmissionOk(v, i, id)
  {
    hide Delivered;
    var c: nat :| Filed(w, i, id, c);
    DeliveredStays(w, v, c);
    assert v.calls[c] == w.calls[c];
    assert Filed(v, i, id, c);
    var entry := w.states[i].submitted[id];
    if entry.resolution.Some? {
      var key := (Str(w.configs[i].agencyId), id);
      var k: nat :| Settles(w, k, key, entry.resolution.value);
      assert v.log[k] == w.log[k];
      assert Settles(v, k, key, entry.resolution.value);
    }
  }

  /** Everything already there stays in order while the world grows. */
  lemma OldStays(w: World, v: World)
    requires Inv(w) && Shaped(v) && Grows(w, v)
    ensures forall c :: 0 <= c < |w.calls| ==> CallOk(v, c)
    ensures forall m :: m in w.sent ==> MessageOk(v, m)
    ensures forall k :: 0 <= k < |w.log| ==> EntryOk(v, k)
    ensures forall i, id ::
              0 <= i < |w.states| && id in w.states[i].submitted && id in v.states[i].submitted
              && v.states[i].submitted[id] == w.states[i].submitted[id]
              ==> SubmissionOk(v, i, id)
  {
    hide MessageOk, EntryOk, SubmissionOk, ToDict, StripSlashes;
    forall c | 0 <= c < |w.calls| ensures CallOk(v, c) {
      assert CallOk(w, c) && v.calls[c] == w.calls[c];
    }
    forall m | m in w.sent ensures MessageOk(v, m) {
      MessageStays(w, v, m);
    }
    forall k | 0 <= k < |w.log| ensures EntryOk(v, k) {
      EntryStays(w, v, k);
    }
    forall i, id | 0 <= i < |w.states| && id in w.states[i].submitted && id in v.states[i].submitted
      && v.states[i].submitted[id] == w.states[i].submitted[id]
      ensures SubmissionOk(v, i, id)
    {
      SubmissionStays(w, v, i, id);
    }
  }

  /** Nothing happened to any other key, or to any component when the history is the same. */
  lemma LatestSnoc(log: seq<Entry>, e: Entry, at: nat, key: Key)
    ensures Latest(log + [e], at, key) == if e.at == at && e.key == key then Some(e) else Latest(log, at, key)
  {
    assert (log + [e])[..|log|] == log;
  }

  // ---------------------------------------------------------------- each step keeps the invariant

  lemma SubmittingInv(w: World, e: Event)
    requires Inv(w) && Enabled(w, e) && e.SubmitCalled?
    ensures Inv(Submitting(w, e))
  {
    hide Agrees, SubmissionOk, EntryOk, ToDict, StripSlashes;
    var v := Submitting(w, e);
    if v != w {
      OldStays(w, v);
      assert CallOk(v, |w.calls|);
      forall i, key | 0 <= i < |v.states| ensures Agrees(v, i, key) {
        assert Agrees(w, i, key);
        SameHistory(w, v, i, key);
      }
    }
  }

  lemma SameHistory(w: World, v: World, i: nat, key: Key)
    requires i < |w.states| && i < |v.states| && v.log == w.log
    requires v.states[i].received == w.states[i].received
    ensures Agrees(w, i, key) ==> Agrees(v, i, key)
  {
  }

  lemma ReceivingInv(w: World, e: Event)
    requires Inv(w) && Enabled(w, e) && e.ReportArrives?
    ensures Inv(Receiving(w, e))
  {
    hide SubmissionOk, CallOk, EntryOk, ToDict, StripSlashes, FromDict, MessageOk, ResponseBody;
    var v := Receiving(w, e);
    var c := e.call;
    var j := w.routes[w.calls[c].url];
    var body := w.calls[c].body;
    if Refusal(w.configs[j], body, e.authorized).Some? {
      OldStays(w, v);
      RefusalIsNotCreated(w, v, e);
      forall i, key | 0 <= i < |v.states| ensures Agrees(v, i, key) {
        assert Agrees(w, i, key);
        SameHistory(w, v, i, key);
      }
    } else {
      var r := FromDict(body).value;
      var entry := Accepted(j, KeyOf(r), r);
      assert v.log == w.log + [entry];
      assert v.states[j].received == w.states[j].received[KeyOf(r) := ReceivedReport(r, e.estimate, None)];
      OldStays(w, v);
      AcceptedIsGenuine(w, v, e, r);
      forall i, key | 0 <= i < |v.states| ensures Agrees(v, i, key) {
        assert Agrees(w, i, key);
        LatestSnoc(w.log, entry, i, key);
      }
    }
  }

  lemma RefusalIsNotCreated(w: World, v: World, e: Event)
    requires Shaped(w) && Shaped(v) && e.ReportArrives? && Enabled(w, e) && v == Receiving(w, e)
    requires Refusal(w.configs[w.routes[w.calls[e.call].url]], w.calls[e.call].body, e.authorized).Some?
    ensures forall m :: m in v.sent && m !in w.sent ==> MessageOk(v, m)
    ensures v.log == w.log && v.states == w.states
  {
    hide Delivered, FromDict;
  }

  lemma AcceptedIsGenuine(w: World, v: World, e: Event, r: Report)
    requires Shaped(w) && Shaped(v) && e.ReportArrives? && Enabled(w, e) && v == Receiving(w, e)
    requires Refusal(w.configs[w.routes[w.calls[e.call].url]], w.calls[e.call].body, e.authorized).None?
    requires FromDict(w.calls[e.call].body) == Some(r)
    ensures |v.log| == |w.log| + 1 && EntryOk(v, |w.log|)
    ensures forall m :: m in v.sent && m !in w.sent ==> MessageOk(v, m)
  {
    hide FromDict, ResponseBody;
    assert CameFrom(v, e.call, w.routes[w.calls[e.call].url], KeyOf(r), r);
    assert Delivered(v, e.call);
  }

  lemma AnsweringInv(w: World, call: nat, status: Option<nat>, reply: Option<Wire>)
    requires Inv(w) && call in w.open
    requires status == Some(201) ==> ReportAnswer(call, 201, reply) in w.sent
    ensures Inv(Answering(w, call, status, reply))
  {
    hide Agrees, SubmissionOk, EntryOk, CallOk, MessageOk, ParsedResponse, HasAll;
    var v := Answering(w, call, status, reply);
    OldStays(w, v);
    var c := w.calls[call];
    forall i, key | 0 <= i < |v.states| ensures Agrees(v, i, key) {
      assert Agrees(w, i, key);
      SameHistory(w, v, i, key);
    }
    forall i, id | 0 <= i < |v.states| && id in v.states[i].submitted ensures SubmissionOk(v, i, id) {
      if id in w.states[i].submitted && v.states[i].submitted[id] == w.states[i].submitted[id] {
        assert SubmissionOk(w, i, id);
      } else {
        assert i == c.sender && id == c.report.reportId && status == Some(201);
        assert MessageOk(w, ReportAnswer(call, 201, reply));
        NewSubmission(w, v, call, reply);
      }
    }
  }

  lemma NewSubmission(w: World, v: World, call: nat, reply: Option<Wire>)
    requires Shaped(w) && Shaped(v) && call in w.open && v == Answering(w, call, Some(201), reply)
    requires MessageOk(w, ReportAnswer(call, 201, reply)) && Hashable(w.calls[call].report.reportId)
    ensures w.calls[call].report.reportId in v.states[w.calls[call].sender].submitted
    ensures SubmissionOk(v, w.calls[call].sender, w.calls[call].report.reportId)
  {
    DeliveredStays(w, v, call);
    hide Delivered, ParsedResponse;
    assert Filed(v, w.calls[call].sender, w.calls[call].report.reportId, call);
  }

  lemma ResolvingInv(w: World, e: Event)
    requires Inv(w) && Enabled(w, e) && e.ResolveCalled?
    ensures Inv(Resolving(w, e))
  {
    hide SubmissionOk, CallOk, EntryOk, MessageOk, ToDict, StripSlashes, FromDict, ResolutionToDict, Discrepancy.Resolving;
    var v := Resolving(w, e);
    var key := (Str(e.agency), Str(e.id));
    if key in w.states[e.i].received {
      var r := w.states[e.i].received[key].report;
      var x := Discrepancy.Resolving(w.configs[e.i], r, e.agency, e.id, e.token, e.comments, e.time);
      var entry := Settled(e.i, key, r, x);
      assert v.log == w.log + [entry];
      OldStays(w, v);
      assert Agrees(w, e.i, key);
      SettledIsGenuine(w, v, e, r, x);
      forall i, k | 0 <= i < |v.states| ensures Agrees(v, i, k) {
        assert Agrees(w, i, k);
        LatestSnoc(w.log, entry, i, k);
      }
    }
  }

  lemma LatestIsThere(log: seq<Entry>, at: nat, key: Key)
    ensures var e := Latest(log, at, key);
      e.Some? ==> e.value.at == at && e.value.key == key && exists k :: 0 <= k < |log| && log[k] == e.value
  {
  }

  lemma SettledIsGenuine(w: World, v: World, e: Event, r: Report, x: Resolution)
    requires Shaped(w) && Shaped(v) && e.ResolveCalled? && Enabled(w, e) && v == Resolving(w, e)
    requires forall k :: 0 <= k < |w.log| ==> EntryOk(w, k)
    requires (Str(e.agency), Str(e.id)) in w.states[e.i].received
    requires r == w.states[e.i].received[(Str(e.agency), Str(e.id))].report
    requires x == Discrepancy.Resolving(w.configs[e.i], r, e.agency, e.id, e.token, e.comments, e.time)
    requires Agrees(w, e.i, (Str(e.agency), Str(e.id)))
    ensures |v.log| == |w.log| + 1 && EntryOk(v, |w.log|)
    ensures forall m :: m in v.sent && m !in w.sent ==> MessageOk(v, m)
  {
    var key := (Str(e.agency), Str(e.id));
    LatestIsThere(w.log, e.i, key);
    var k :| 0 <= k < |w.log| && w.log[k].at == e.i && w.log[k].key == key && w.log[k].report == r;
    assert EntryOk(w, k);
    hide FromDict, ResolutionToDict, Delivered;
    var c: nat :| CameFrom(w, c, e.i, key, r);
    assert CameFrom(v, c, e.i, key, r);
    ResolvingIsComplete(w.configs[e.i], r, e.agency, e.id, e.token, e.comments, e.time);
    hide ResolutionComplete;
    assert v.log[|w.log|] == Settled(e.i, key, r, x);
  }

  /** Whatever `resolve` records has its mandatory attributes set. */
  lemma ResolvingIsComplete(cfg: Config, r: Report, agency: string, id: string,
                            token: string, comments: Value, time: string)
    requires cfg.jcard != Null
    ensures ResolutionComplete(Discrepancy.Resolving(cfg, r, agency, id, token, comments, time))
  {
    ResolutionFieldsAt(Discrepancy.Resolving(cfg, r, agency, id, token, comments, time));
    hide ResolutionFields;
  }

  lemma ResolutionArrivesInv(w: World, e: Event)
    requires Inv(w) && Enabled(w, e) && e.ResolutionArrives?
    ensures Inv(Step(w, e))
  {
    hide Agrees, SubmissionOk, EntryOk, CallOk, MessageOk, ResolutionFromDict, ResolutionToDict, ResolutionComplete;
    var v := Step(w, e);
    OldStays(w, v);
    var i := w.routes[e.url];
    forall j, key | 0 <= j < |v.states| ensures Agrees(v, j, key) {
      assert Agrees(w, j, key);
      SameHistory(w, v, j, key);
    }
    forall j, id | 0 <= j < |v.states| && id in v.states[j].submitted ensures SubmissionOk(v, j, id) {
      assert SubmissionOk(w, j, id);
      if v.states[j].submitted[id] != w.states[j].submitted[id] {
        assert MessageOk(w, ResolutionPost(e.url, e.body));
        StoredWasRecorded(w, v, i, e.url, e.body, ResolutionFromDict(e.body).value);
      }
    }
  }

  /** A resolution that comes out of a message is the one that was recorded: it reads back as
      itself, and its key is the key it was recorded under. */
  lemma StoredWasRecorded(w: World, v: World, i: nat, url: string, body: Wire, x: Resolution)
    requires Shaped(w) && Shaped(v) && Grows(w, v) && i < |w.states|
    requires forall k :: 0 <= k < |w.log| ==> EntryOk(w, k)
    requires MessageOk(w, ResolutionPost(url, body))
    requires ResolutionFromDict(body) == Some(x) && x.reportingAgency == Str(w.configs[i].agencyId)
    requires x.reportId in w.states[i].submitted && x.reportId in v.states[i].submitted
    requires v.states[i].submitted[x.reportId] == w.states[i].submitted[x.reportId].(resolution := Some(x))
    requires SubmissionOk(w, i, x.reportId)
    ensures SubmissionOk(v, i, x.reportId)
  {
    hide Delivered, CameFrom, ResolutionComplete, ResolutionToDict, ResolutionFromDict;
    var k :| 0 <= k < |w.log| && w.log[k].Settled? && body == ResolutionToDict(w.log[k].resolution);
    assert EntryOk(w, k);
    ResolutionRoundTrip(w.log[k].resolution);
    assert v.log[k] == w.log[k];
    assert Settles(v, k, (Str(v.configs[i].agencyId), x.reportId), x);
    var c: nat :| Filed(w, i, x.reportId, c);
    DeliveredStays(w, v, c);
    assert v.calls[c] == w.calls[c];
    assert Filed(v, i, x.reportId, c);
  }

  lemma StepInv(w: World, e: Event)
    requires Inv(w) && Enabled(w, e)
    ensures Inv(Step(w, e))
  {
    match e
    case SubmitCalled(_, _, _, _, _, _) => SubmittingInv(w, e);
    case ReportArrives(_, _, _) => ReceivingInv(w, e);
    case AnswerArrives(c, status, reply) => AnsweringInv(w, c, Some(status), reply);
    case SubmitFails(c, failure) => AnsweringInv(w, c, failure, None);
    case ResolveCalled(_, _, _, _, _, _) => ResolvingInv(w, e);
    case ResolutionArrives(_, _, _) => ResolutionArrivesInv(w, e);
  }

  // ---------------------------------------------------------------- runs

  ghost predicate Network(configs: seq<Config>, routes: map<string, nat>) {
    && (forall i :: 0 <= i < |configs| ==> configs[i].jcard != Null)
    && (forall url :: url in routes ==> routes[url] < |configs|)
  }

  /** The world after the given steps, None when one of them cannot happen. */
  ghost function Run(configs: seq<Config>, routes: map<string, nat>, events: seq<Event>): (w: Option<World>)
    requires Network(configs, routes)
    ensures w.Some? ==> Inv(w.value) && w.value.configs == configs && w.value.routes == routes
  {
    if events == [] then
      InitialInv(configs, routes);
      Some(Initial(configs, routes))
    else
      var n := |events| - 1;
      var before := Run(configs, routes, events[..n]);
      if before.None? || !Enabled(before.value, events[n]) then None
      else
        StepInv(before.value, events[n]);
        StepKeepsNetwork(before.value, events[n]);
        Some(Step(before.value, events[n]))
  }

  lemma InitialInv(configs: seq<Config>, routes: map<string, nat>)
    requires Network(configs, routes)
    ensures Inv(Initial(configs, routes))
  {
  }

  lemma StepKeepsNetwork(w: World, e: Event)
    requires Shaped(w) && Enabled(w, e)
    ensures Step(w, e).configs == w.configs && Step(w, e).routes == w.routes
  {
    hide OnReport, OnResolve, OnResolution, SubmitBegin, SubmitEnd;
  }

  /** Resolution provenance: in every run, a resolution that a component has stored for one of
      its reports was recorded before by some component's `resolve` for exactly that pair of
      agency and report id, and answers a report that was posted there under that pair. */
  lemma ResolutionProvenance(configs: seq<Config>, routes: map<string, nat>, events: seq<Event>, i: nat, id: Value)
    requires Network(configs, routes) && i < |configs|
    requires Run(configs, routes, events).Some?
    requires var s := Run(configs, routes, events).value.states[i].submitted;
      id in s && s[id].resolution.Some?
    ensures var w := Run(configs, routes, events).value;
      var key := (Str(configs[i].agencyId), id);
      exists k: nat, c: nat ::
        && Settles(w, k, key, w.states[i].submitted[id].resolution.value)
        && CameFrom(w, c, w.log[k].at, key, w.log[k].report)
  {
    var w := Run(configs, routes, events).value;
    var key := (Str(configs[i].agencyId), id);
    assert SubmissionOk(w, i, id);
    var k: nat :| Settles(w, k, key, w.states[i].submitted[id].resolution.value);
    assert EntryOk(w, k);
    hide CameFrom;
    var c: nat :| CameFrom(w, c, w.log[k].at, key, w.log[k].report);
  }

  // ---------------------------------------------------------------- reports from build_report

  /** Filled in by the sender's `build_report`. */
  predicate Built(cfg: Config, r: Report) {
    r.agencyName == Str(cfg.agencyId) && r.reportId.Str?
  }

  ghost predicate Honest(configs: seq<Config>, e: Event) {
    e.SubmitCalled? && e.i < |configs| ==> e.report.specific.Valid() && Built(configs[e.i], e.report)
  }

  /** Agency and id survive the wire: they are set, so no type-specific key can replace them. */
  lemma KeyTravels(r: Report, q: Report)
    requires r.specific.Valid() && r.agencyName != Null && r.reportId != Null
    requires ToDict(r).Some? && FromDict(ToDict(r).value) == Some(q)
    ensures KeyOf(q) == KeyOf(r)
  {
    var d := Merged(r);
    assert q == Read(d);
    FieldsAt(r);
    FieldsAt(q);
    var p := Prolog();
    assert p[3] in p && p[4] in p;
    hide Fields, Read, FromDict, Merged, Prolog;
    SetAttributeTravels(r, "reportingAgencyName");
    SetAttributeTravels(r, "discrepancyReportId");
  }

  lemma SetAttributeTravels(r: Report, k: string)
    requires r.specific.Valid() && !Collides(r) && k in Prolog()
    requires k in Fields(r) && Fields(r)[k] != Null
    ensures k in Fields(Read(Merged(r))) && Fields(Read(Merged(r)))[k] == Fields(r)[k]
  {
    hide Prolog, Fields, Read, Merged;
    assert k !in r.specific.order;
    MergedAt(r, k);
    ReadAt(Merged(r), k);
  }

  lemma NewCallIsBuilt(w: World, e: Event, c: nat)
    requires Shaped(w) && Enabled(w, e) && Honest(w.configs, e)
    requires |w.calls| <= c < |Step(w, e).calls|
    ensures var call := Step(w, e).calls[c];
      call.sender < |w.configs| && call.report.specific.Valid() && Built(w.configs[call.sender], call.report)
  {
    hide OnReport, OnResolve, OnResolution, SubmitEnd, ToDict, SimilarityOf;
  }

  lemma OldCallStays(w: World, e: Event, c: nat)
    requires Shaped(w) && Enabled(w, e) && c < |w.calls|
    ensures c < |Step(w, e).calls| && Step(w, e).calls[c] == w.calls[c]
  {
    hide OnReport, OnResolve, OnResolution, SubmitBegin, SubmitEnd;
  }

  lemma CallsAreBuilt(configs: seq<Config>, routes: map<string, nat>, events: seq<Event>, c: nat)
    requires Network(configs, routes) && Run(configs, routes, events).Some?
    requires forall e :: e in events ==> Honest(configs, e)
    requires c < |Run(configs, routes, events).value.calls|
    ensures var call := Run(configs, routes, events).value.calls[c];
      call.sender < |configs| && call.report.specific.Valid() && Built(configs[call.sender], call.report)
  {
    if events != [] {
      var n := |events| - 1;
      var u := Run(configs, routes, events[..n]).value;
      assert Honest(configs, events[n]);
      hide Step, Honest, Built;
      if c < |u.calls| {
        CallsAreBuilt(configs, routes, events[..n], c);
        OldCallStays(u, events[n], c);
      } else {
        NewCallIsBuilt(u, events[n], c);
      }
    }
  }

  /** Submission agreement: with reports from `build_report`, whatever a component has on
      record as submitted is held where it was posted to, so a poll for it never gets 473. */
  lemma SubmissionAgreement(configs: seq<Config>, routes: map<string, nat>, events: seq<Event>, i: nat, id: Value)
    requires Network(configs, routes) && i < |configs|
    requires Run(configs, routes, events).Some?
    requires forall e :: e in events ==> Honest(configs, e)
    requires id in Run(configs, routes, events).value.states[i].submitted
    ensures var w := Run(configs, routes, events).value;
      var url := StripSlashes(w.states[i].submitted[id].responderUri) + "/Reports";
      var key := (Str(configs[i].agencyId), id);
      && url in routes
      && key in w.states[routes[url]].received
      && forall authorized ::
           && StatusUpdate(configs[routes[url]], w.states[routes[url]], key, authorized) != Answer(473, None)
           && PollResolution(w.states[routes[url]], key, authorized) != Answer(473, None)
  {
    var w := Run(configs, routes, events).value;
    assert SubmissionOk(w, i, id);
    var c: nat :| Filed(w, i, id, c);
    assert CallOk(w, c);
    CallsAreBuilt(configs, routes, events, c);
    var call := w.calls[c];
    hide Inv, Run, ToDict, FromDict, StatusUpdate, PollResolution;
    KeyTravels(call.report, FromDict(call.body).value);
    HeldIsKnown(configs[w.routes[call.url]], w.states[w.routes[call.url]], (Str(configs[i].agencyId), id));
  }

  lemma HeldIsKnown(cfg: Config, s: State, key: Key)
    requires key in s.received
    ensures forall authorized ::
              && StatusUpdate(cfg, s, key, authorized) != Answer(473, None)
              && PollResolution(s, key, authorized) != Answer(473, None)
  {
  }

  /** With one component per agency, a stored resolution answers a report that this very
      component posted under that id. */
  lemma ResolutionIsForOwnReport(configs: seq<Config>, routes: map<string, nat>, events: seq<Event>, i: nat, id: Value)
    requires Network(configs, routes) && i < |configs|
    requires forall a, b :: 0 <= a < b < |configs| ==> configs[a].agencyId != configs[b].agencyId
    requires Run(configs, routes, events).Some?
    requires forall e :: e in events ==> Honest(configs, e)
    requires var s := Run(configs, routes, events).value.states[i].submitted;
      id in s && s[id].resolution.Some?
    ensures var w := Run(configs, routes, events).value;
      var key := (Str(configs[i].agencyId), id);
      exists k: nat, c: nat ::
        && Settles(w, k, key, w.states[i].submitted[id].resolution.value)
        && CameFrom(w, c, w.log[k].at, key, w.log[k].report)
        && w.calls[c].sender == i && w.calls[c].report.reportId == id
  {
    ResolutionProvenance(configs, routes, events, i, id);
    var w := Run(configs, routes, events).value;
    var key := (Str(configs[i].agencyId), id);
    var x := w.states[i].submitted[id].resolution.value;
    var k: nat, c: nat :| Settles(w, k, key, x) && CameFrom(w, c, w.log[k].at, key, w.log[k].report);
    CallsAreBuilt(configs, routes, events, c);
    assert CallOk(w, c);
    hide Inv, Run, ToDict, FromDict;
    KeyTravels(w.calls[c].report, w.log[k].report);
    var sender := w.calls[c].sender;
    assert configs[sender].agencyId == configs[i].agencyId;
    assert sender == i;
  }

  /** Polls answer exactly what the history says: 473 for a pair that was never accepted; 475
      and no 474 when the last thing to happen was that the report came in, again or for the
      first time; and after a resolution that resolution, in a form that reads back as it. */
  lemma PollsTellTheHistory(configs: seq<Config>, routes: map<string, nat>, events: seq<Event>, i: nat, key: Key)
    requires Network(configs, routes) && i < |configs|
    requires Run(configs, routes, events).Some?
    ensures var w := Run(configs, routes, events).value;
      var poll := PollResolution(w.states[i], key, true);
      var status := StatusUpdate(configs[i], w.states[i], key, true);
      match Latest(w.log, i, key)
      case None => poll == status == Answer(473, None)
      case Some(Accepted(_, _, _)) => poll == Answer(475, None) && status.Answer? && status.status == 200
      case Some(Settled(_, _, _, x)) =>
        && status == Answer(474, None)
        && poll.Answer? && poll.status == 200 && poll.body.Some?
        && ResolutionFromDict(poll.body.value) == Some(x)
    ensures var w := Run(configs, routes, events).value;
      PollResolution(w.states[i], key, false) == StatusUpdate(configs[i], w.states[i], key, false) == Answer(471, None)
  {
    var w := Run(configs, routes, events).value;
    assert Agrees(w, i, key);
    LatestIsThere(w.log, i, key);
    var last := Latest(w.log, i, key);
    if last.Some? && last.value.Settled? {
      var k :| 0 <= k < |w.log| && w.log[k] == last.value;
      assert EntryOk(w, k);
      hide Run, Inv, ResolutionToDict, ResolutionFromDict, ResolutionComplete, ResponseBody;
      ResolutionRoundTrip(last.value.resolution);
    }
  }

  // ---------------------------------------------------------------- the round of messages

  ghost predicate Leads(w: World, e: Event, v: World) {
    Inv(w) && Enabled(w, e) && v == Step(w, e) && Inv(v) && v.configs == w.configs && v.routes == w.routes
  }

  lemma StepLeads(w: World, e: Event)
    requires Inv(w) && Enabled(w, e)
    ensures Leads(w, e, Step(w, e)) && Shaped(Step(w, e))
  {
    StepInv(w, e);
    StepKeepsNetwork(w, e);
    hide Step, Inv;
  }

  lemma PostStep(w: World, e: Event, r: Report, url: string, body: Wire)
    requires Shaped(w) && Enabled(w, e) && e.SubmitCalled?
    requires SubmitBegin(w.configs[e.i], w.states[e.i], e.report, e.uri, e.force, e.now, e.stamp) == Posting(r, url, body)
    ensures var v, c := Step(w, e), |w.calls|;
      && v.states == w.states && v.calls == w.calls + [Call(e.i, r, e.uri, e.now, url, body)]
      && ReportPost(c) in v.sent && c in v.open
  {
    hide SubmitBegin;
  }

  lemma TakeStep(w: World, c: nat, q: Report, estimate: string)
    requires Shaped(w) && ReportPost(c) in w.sent && c < |w.calls| && w.calls[c].url in w.routes
    requires FromDict(w.calls[c].body) == Some(q)
    requires Refusal(w.configs[w.routes[w.calls[c].url]], w.calls[c].body, true).None?
    ensures var e, j := ReportArrives(c, true, estimate), w.routes[w.calls[c].url];
      var v := Step(w, e);
      && Enabled(w, e) && v.calls == w.calls && v.open == w.open
      && ReportAnswer(c, 201, Some(ResponseBody(w.configs[j], estimate))) in v.sent
      && |v.states| == |w.states|
      && (forall k :: 0 <= k < |w.states| ==> v.states[k].submitted == w.states[k].submitted)
      && KeyOf(q) in v.states[j].received && v.states[j].received[KeyOf(q)].report == q
  {
    hide Refusal, FromDict, ResponseBody;
  }

  lemma AnswerStep(w: World, c: nat, answer: Option<Wire>)
    requires Shaped(w) && c in w.open && ReportAnswer(c, 201, answer) in w.sent
    requires Hashable(w.calls[c].report.reportId)
    ensures var e, call := AnswerArrives(c, 201, answer), w.calls[c];
      var v := Step(w, e);
      && Enabled(w, e) && |v.states| == |w.states|
      && (forall j :: 0 <= j < |w.states| ==> v.states[j].received == w.states[j].received)
      && call.report.reportId in v.states[call.sender].submitted
      && v.states[call.sender].submitted[call.report.reportId].report == call.report
      && v.states[call.sender].submitted[call.report.reportId].resolution == None
  {
    hide ParsedResponse;
  }

  lemma ResolveStep(w: World, e: Event, q: Report)
    requires Shaped(w) && Enabled(w, e) && e.ResolveCalled? && q.resolutionUri.Str?
    requires (Str(e.agency), Str(e.id)) in w.states[e.i].received
    requires w.states[e.i].received[(Str(e.agency), Str(e.id))].report == q
    ensures var v := Step(w, e);
      var x := Discrepancy.Resolving(w.configs[e.i], q, e.agency, e.id, e.token, e.comments, e.time);
      && |v.states| == |w.states| && v.calls == w.calls && v.open == w.open && w.sent <= v.sent
      && (forall j :: 0 <= j < |w.states| ==> v.states[j].submitted == w.states[j].submitted)
      && (Str(e.agency), Str(e.id)) in v.states[e.i].received
      && v.states[e.i].received[(Str(e.agency), Str(e.id))].resolution == Some(x)
      && ResolutionPost(StripSlashes(q.resolutionUri.s) + "/Resolutions", ResolutionToDict(x)) in v.sent
  {
    hide ResolutionToDict, StripSlashes, Discrepancy.Resolving;
  }

  lemma StoredAt(cfg: Config, s: State, body: Wire, authorized: bool, x: Resolution)
    requires ResolutionFromDict(body) == Some(x) && x.reportId.Str?
    ensures OnResolution(cfg, s, body, authorized).0
            == if authorized && x.reportingAgency == Str(cfg.agencyId) && x.reportId in s.submitted
               then s.(submitted := s.submitted[x.reportId := s.submitted[x.reportId].(resolution := Some(x))])
               else s
  {
    hide ResolutionFromDict;
  }

  /** What a posted call-back says is what some component recorded. */
  lemma PostedResolution(w: World, url: string, body: Wire) returns (x: Resolution)
    requires Inv(w) && ResolutionPost(url, body) in w.sent
    ensures body == ResolutionToDict(x) && ResolutionFromDict(body) == Some(x) && x.reportId.Str?
    ensures exists k :: 0 <= k < |w.log| && w.log[k].Settled? && w.log[k].resolution == x
  {
    assert MessageOk(w, ResolutionPost(url, body));
    hide Delivered, CameFrom, CallOk, SubmissionOk, Agrees, ResolutionComplete, ResolutionToDict, ResolutionFromDict;
    var k :| 0 <= k < |w.log| && w.log[k].Settled? && body == ResolutionToDict(w.log[k].resolution);
    assert EntryOk(w, k);
    x := w.log[k].resolution;
    ResolutionRoundTrip(x);
  }

  lemma CallbackStep(w: World, e: Event, x: Resolution)
    requires Shaped(w) && e.ResolutionArrives? && Enabled(w, e)
    requires ResolutionFromDict(e.body) == Some(x) && x.reportId.Str?
    ensures var i, id := w.routes[e.url], x.reportId;
      && |Step(w, e).states| == |w.states|
      && if e.authorized && x.reportingAgency == Str(w.configs[i].agencyId) && id in w.states[i].submitted then
           && id in Step(w, e).states[i].submitted
           && Step(w, e).states[i].submitted[id] == w.states[i].submitted[id].(resolution := Some(x))
         else Step(w, e) == w
  {
    var i := w.routes[e.url];
    StoredAt(w.configs[i], w.states[i], e.body, e.authorized, x);
    hide ResolutionFromDict, OnResolution, OnReport, OnResolve, SubmitBegin, SubmitEnd;
    assert w.states[i := w.states[i]] == w.states;
  }

  lemma CallbackHome(w: World, i: nat, url: string, body: Wire, x: Resolution)
    requires Shaped(w) && ResolutionPost(url, body) in w.sent && url in w.routes && w.routes[url] == i && i < |w.states|
    requires ResolutionFromDict(body) == Some(x) && x.reportId.Str?
    requires x.reportingAgency == Str(w.configs[i].agencyId) && x.reportId in w.states[i].submitted
    ensures var e := ResolutionArrives(url, body, true);
      && Enabled(w, e) && |Step(w, e).states| == |w.states|
      && x.reportId in Step(w, e).states[i].submitted
      && Step(w, e).states[i].submitted[x.reportId] == w.states[i].submitted[x.reportId].(resolution := Some(x))
  {
    CallbackStep(w, ResolutionArrives(url, body, true), x);
    hide ResolutionFromDict, Step;
  }

  lemma CallbackLost(w: World, i: nat, url: string, body: Wire, x: Resolution)
    requires Shaped(w) && ResolutionPost(url, body) in w.sent && url in w.routes && w.routes[url] == i && i < |w.states|
    requires ResolutionFromDict(body) == Some(x) && x.reportId.Str? && x.reportId !in w.states[i].submitted
    ensures var e := ResolutionArrives(url, body, true);
      Enabled(w, e) && Step(w, e) == w
  {
    CallbackStep(w, ResolutionArrives(url, body, true), x);
    hide ResolutionFromDict, Step;
  }

  /** A call-back that arrives, at whatever component and time, is stored if and only if the
      responder is authorised, it is for this component's agency, and the report is on record
      by then. Any other changes nothing and is lost. */
  lemma CallbackIsStored(w: World, e: Event) returns (x: Resolution)
    requires Inv(w) && e.ResolutionArrives? && Enabled(w, e)
    ensures e.body == ResolutionToDict(x)
    ensures exists k :: 0 <= k < |w.log| && w.log[k].Settled? && w.log[k].resolution == x
    ensures var i, id := w.routes[e.url], x.reportId;
      && |Step(w, e).states| == |w.states|
      && if e.authorized && x.reportingAgency == Str(w.configs[i].agencyId) && id in w.states[i].submitted then
           && id in Step(w, e).states[i].submitted
           && Step(w, e).states[i].submitted[id] == w.states[i].submitted[id].(resolution := Some(x))
         else Step(w, e) == w
  {
    x := PostedResolution(w, e.url, e.body);
    CallbackStep(w, e, x);
    hide *;
  }

  /** Call `c` has been accepted at `j` and its sender `i` does not know yet. */
  ghost predicate InFlight(w: World, v: World, c: nat, r: Report, q: Report, j: nat, i: nat, answer: Option<Wire>) {
    && |v.states| == |w.states| && j < |v.states| && i < |v.states|
    && (forall k :: 0 <= k < |w.states| ==> v.states[k].submitted == w.states[k].submitted)
    && c < |v.calls| && v.calls[c].sender == i && v.calls[c].report == r
    && c in v.open && ReportAnswer(c, 201, answer) in v.sent
    && KeyOf(r) in v.states[j].received && v.states[j].received[KeyOf(r)].report == q
  }

  lemma SubmissionIsTaken(w: World, e: Event, r: Report, q: Report, body: Wire, estimate: string)
    returns (posted: World, taken: World)
    requires Inv(w) && e.SubmitCalled? && Enabled(w, e)
    requires Built(w.configs[e.i], r) && r.specific.Valid() && ToDict(r) == Some(body) && FromDict(body) == Some(q)
    requires var url := StripSlashes(e.uri) + "/Reports";
      && SubmitBegin(w.configs[e.i], w.states[e.i], e.report, e.uri, e.force, e.now, e.stamp) == Posting(r, url, body)
      && url in w.routes && Refusal(w.configs[w.routes[url]], body, true).None?
    ensures var c, j := |w.calls|, w.routes[StripSlashes(e.uri) + "/Reports"];
      && Leads(w, e, posted)
      && Leads(posted, ReportArrives(c, true, estimate), taken) && Shaped(taken)
      && InFlight(w, taken, c, r, q, j, e.i, Some(ResponseBody(w.configs[j], estimate)))
  {
    var url := StripSlashes(e.uri) + "/Reports";
    var c := |w.calls|;
    hide Inv, Step, SubmitBegin, StripSlashes, ToDict, FromDict, Refusal, ResponseBody, Enabled;
    KeyTravels(r, q);
    PostStep(w, e, r, url, body);
    StepLeads(w, e);
    posted := Step(w, e);
    TakeStep(posted, c, q, estimate);
    StepLeads(posted, ReportArrives(c, true, estimate));
    taken := Step(posted, ReportArrives(c, true, estimate));
  }

  /** A submission of which nothing is lost: posted, accepted, answered. */
  lemma SubmissionArrives(w: World, e: Event, r: Report, q: Report, body: Wire, estimate: string)
    returns (posted: World, taken: World, answered: World)
    requires Inv(w) && e.SubmitCalled? && Enabled(w, e)
    requires Built(w.configs[e.i], r) && r.specific.Valid() && ToDict(r) == Some(body) && FromDict(body) == Some(q)
    requires var url := StripSlashes(e.uri) + "/Reports";
      && SubmitBegin(w.configs[e.i], w.states[e.i], e.report, e.uri, e.force, e.now, e.stamp) == Posting(r, url, body)
      && url in w.routes && Refusal(w.configs[w.routes[url]], body, true).None?
    ensures var c, j := |w.calls|, w.routes[StripSlashes(e.uri) + "/Reports"];
      && Leads(w, e, posted)
      && Leads(posted, ReportArrives(c, true, estimate), taken)
      && Leads(taken, AnswerArrives(c, 201, Some(ResponseBody(w.configs[j], estimate))), answered)
      && |answered.states| == |w.states|
      && r.reportId in answered.states[e.i].submitted && answered.states[e.i].submitted[r.reportId].report == r
      && KeyOf(r) in answered.states[j].received && answered.states[j].received[KeyOf(r)].report == q
  {
    var c, j := |w.calls|, w.routes[StripSlashes(e.uri) + "/Reports"];
    assert Hashable(r.reportId);
    hide Inv, Step, SubmitBegin, StripSlashes, ToDict, FromDict, Refusal, ResponseBody, Enabled, Built, KeyOf;
    posted, taken := SubmissionIsTaken(w, e, r, q, body, estimate);
    var answer := Some(ResponseBody(w.configs[j], estimate));
    AnswerStep(taken, c, answer);
    StepLeads(taken, AnswerArrives(c, 201, answer));
    answered := Step(taken, AnswerArrives(c, 201, answer));
  }

  /** The protocol gets a resolution home: a report on record at its sender and held by a
      responder that resolves it ends, if the call-back is not lost, with that resolution
      stored where the report came from. */
  lemma ResolutionComesHome(w: World, i: nat, e: Event, q: Report)
    returns (resolved: World, home: World, x: Resolution)
    requires Inv(w) && e.ResolveCalled? && Enabled(w, e) && i < |w.states|
    requires e.agency == w.configs[i].agencyId && Str(e.id) in w.states[i].submitted
    requires (Str(e.agency), Str(e.id)) in w.states[e.i].received
    requires q == w.states[e.i].received[(Str(e.agency), Str(e.id))].report && q.resolutionUri.Str?
    requires var callback := StripSlashes(q.resolutionUri.s) + "/Resolutions";
      callback in w.routes && w.routes[callback] == i
    ensures var callback := StripSlashes(q.resolutionUri.s) + "/Resolutions";
      && Leads(w, e, resolved)
      && Leads(resolved, ResolutionArrives(callback, ResolutionToDict(x), true), home)
      && |home.states| == |w.states|
      && x.resolution == Str(e.token) && x.respondingAgency == Str(w.configs[e.i].agencyId)
      && Str(e.id) in home.states[i].submitted
      && home.states[i].submitted[Str(e.id)] == w.states[i].submitted[Str(e.id)].(resolution := Some(x))
  {
    var callback := StripSlashes(q.resolutionUri.s) + "/Resolutions";
    x := Discrepancy.Resolving(w.configs[e.i], q, e.agency, e.id, e.token, e.comments, e.time);
    ResolvingIsComplete(w.configs[e.i], q, e.agency, e.id, e.token, e.comments, e.time);
    ResolutionRoundTrip(x);
    var body := ResolutionToDict(x);
    hide Inv, Step, StripSlashes, ResolutionToDict, ResolutionFromDict, ResolutionComplete;
    ResolveStep(w, e, q);
    StepLeads(w, e);
    resolved := Step(w, e);
    CallbackHome(resolved, i, callback, body, x);
    StepLeads(resolved, ResolutionArrives(callback, body, true));
    home := Step(resolved, ResolutionArrives(callback, body, true));
  }

  /** A call-back can overtake the answer to the submission. From any state of the network in
      which the id is not on record: the report is posted and accepted; the responder resolves
      it; the call-back arrives, is refused and changes nothing; then the answer arrives. The
      report ends on record without its resolution, which only a poll still gives. */
  lemma CallbackCanOvertake(w: World, e: Event, r: Report, q: Report, body: Wire, estimate: string, resolve: Event)
    returns (posted: World, taken: World, resolved: World, answered: World, x: Resolution)
    requires Inv(w) && e.SubmitCalled? && Enabled(w, e) && resolve.ResolveCalled? && resolve.i < |w.states|
    requires Built(w.configs[e.i], r) && r.specific.Valid() && ToDict(r) == Some(body) && FromDict(body) == Some(q)
    requires r.reportId !in w.states[e.i].submitted
    requires var url := StripSlashes(e.uri) + "/Reports";
      && SubmitBegin(w.configs[e.i], w.states[e.i], e.report, e.uri, e.force, e.now, e.stamp) == Posting(r, url, body)
      && url in w.routes && w.routes[url] == resolve.i && Refusal(w.configs[resolve.i], body, true).None?
    requires Str(resolve.agency) == r.agencyName && Str(resolve.id) == r.reportId && q.resolutionUri.Str?
    requires var callback := StripSlashes(q.resolutionUri.s) + "/Resolutions";
      callback in w.routes && w.routes[callback] == e.i
    ensures var callback := StripSlashes(q.resolutionUri.s) + "/Resolutions";
      var c, answer := |w.calls|, Some(ResponseBody(w.configs[resolve.i], estimate));
      && Leads(w, e, posted)
      && Leads(posted, ReportArrives(c, true, estimate), taken)
      && Leads(taken, resolve, resolved)
      && Leads(resolved, ResolutionArrives(callback, ResolutionToDict(x), true), resolved)
      && Leads(resolved, AnswerArrives(c, 201, answer), answered)
      && |answered.states| == |w.states|
      && r.reportId in answered.states[e.i].submitted
      && answered.states[e.i].submitted[r.reportId].resolution == None
      && PollResolution(answered.states[resolve.i], KeyOf(r), true) == Answer(200, Some(ResolutionToDict(x)))
  {
    var answer := Some(ResponseBody(w.configs[resolve.i], estimate));
    posted, taken := SubmissionIsTaken(w, e, r, q, body, estimate);
    hide Inv, Step, SubmitBegin, StripSlashes, ToDict, FromDict, Refusal, ResponseBody, ResolutionToDict;
    resolved, answered, x := OvertakenAnswer(w, taken, |w.calls|, r, q, e.i, resolve, answer);
  }

  lemma OvertakenAnswer(w: World, taken: World, c: nat, r: Report, q: Report, i: nat, resolve: Event, answer: Option<Wire>)
    returns (resolved: World, answered: World, x: Resolution)
    requires Inv(taken) && resolve.ResolveCalled? && resolve.i < |taken.states|
    requires InFlight(w, taken, c, r, q, resolve.i, i, answer) && r.reportId !in w.states[i].submitted
    requires Str(resolve.agency) == r.agencyName && Str(resolve.id) == r.reportId && q.resolutionUri.Str?
    requires var callback := StripSlashes(q.resolutionUri.s) + "/Resolutions";
      callback in taken.routes && taken.routes[callback] == i
    ensures var callback := StripSlashes(q.resolutionUri.s) + "/Resolutions";
      && Leads(taken, resolve, resolved)
      && Leads(resolved, ResolutionArrives(callback, ResolutionToDict(x), true), resolved)
      && Leads(resolved, AnswerArrives(c, 201, answer), answered)
      && |answered.states| == |taken.states|
      && r.reportId in answered.states[i].submitted
      && answered.states[i].submitted[r.reportId].resolution == None
      && PollResolution(answered.states[resolve.i], KeyOf(r), true) == Answer(200, Some(ResolutionToDict(x)))
  {
    var callback := StripSlashes(q.resolutionUri.s) + "/Resolutions";
    assert Shaped(taken) && Enabled(taken, resolve);
    x := Discrepancy.Resolving(taken.configs[resolve.i], q, resolve.agency, resolve.id, resolve.token, resolve.comments, resolve.time);
    assert x.reportId == r.reportId && x.reportId.Str?;
    ResolvingIsComplete(taken.configs[resolve.i], q, resolve.agency, resolve.id, resolve.token, resolve.comments, resolve.time);
    ResolutionRoundTrip(x);
    var body := ResolutionToDict(x);
    hide Inv, Step, StripSlashes, ResolutionToDict, ResolutionFromDict, ResolutionComplete, Discrepancy.Resolving;
    ResolveStep(taken, resolve, q);
    StepLeads(taken, resolve);
    resolved := Step(taken, resolve);
    CallbackLost(resolved, i, callback, body, x);
    StepLeads(resolved, ResolutionArrives(callback, body, true));
    answered := LateAnswer(resolved, c, i, resolve.i, KeyOf(r), answer, x);
    hide Leads, Shaped, InFlight;
  }

  lemma LateAnswer(w: World, c: nat, i: nat, j: nat, key: Key, answer: Option<Wire>, x: Resolution) returns (v: World)
    requires Inv(w) && Shaped(w) && c in w.open && ReportAnswer(c, 201, answer) in w.sent
    requires w.calls[c].sender == i && w.calls[c].report.reportId.Str? && j < |w.states|
    requires key in w.states[j].received && w.states[j].received[key].resolution == Some(x)
    ensures Leads(w, AnswerArrives(c, 201, answer), v) && |v.states| == |w.states| && i < |w.states|
    ensures w.calls[c].report.reportId in v.states[i].submitted
    ensures v.states[i].submitted[w.calls[c].report.reportId].resolution == None
    ensures PollResolution(v.states[j], key, true) == Answer(200, Some(ResolutionToDict(x)))
  {
    hide Inv, Step, ResolutionToDict, Enabled;
    AnswerStep(w, c, answer);
    StepLeads(w, AnswerArrives(c, 201, answer));
    v := Step(w, AnswerArrives(c, 201, answer));
  }
}
