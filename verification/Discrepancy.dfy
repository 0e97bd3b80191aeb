/** One Discrepancy Reporting component: the responding and the reporting role of one element
    (section 3.7 of NENA-STA-010.3f-2021). A coroutine is split where it awaits. */
module Discrepancy {
  import opened DrModels
  import opened Json
  import opened Prelude

  /** `serviceName` and `agentId` are strings or null. */
  datatype Config = Config(
    agencyId: string,
    elementId: string,
    serviceName: Value,
    jcard: Value,
    agentId: Value,
    knownServices: set<string>,
    minSimilarInterval: int)

  /** (reportingAgencyName, discrepancyReportId): an id is unique per agency only. */
  type Key = (Value, Value)

  datatype ReceivedReport = ReceivedReport(report: Report, estimate: string, resolution: Option<Resolution>)

  datatype SubmittedReport = SubmittedReport(report: Report, responderUri: string,
                                             response: Option<Wire>, resolution: Option<Resolution>)

  datatype Similarity = Similarity(reportType: Value, problemService: Value, problem: Value)

  datatype State = State(
    received: map<Key, ReceivedReport>,
    submitted: map<Value, SubmittedReport>,
    lastSend: map<Similarity, int>)

  /** An HTTP answer, or an exception that leaves the handler. The text of a 454 is not kept. */
  datatype Reply = Answer(status: nat, body: Option<Wire>) | Raised

  /** Can be a dict key. */
  predicate Hashable(v: Value) {
    !v.Arr? && !v.Obj?
  }

  function KeyOf(r: Report): Key {
    (r.agencyName, r.reportId)
  }

  // ---------------------------------------------------------------- responding role

  /** What POST .../Reports answers when it does not keep the report. */
  function Refusal(cfg: Config, body: Wire, authorized: bool): Option<Reply> {
    var parsed := FromDict(body);
    if parsed.None? then Some(Answer(454, None))
    else if !authorized then Some(Answer(471, None))
    else
      var r := parsed.value;
      if r.problemService != Null && cfg.knownServices != {} && !Hashable(r.problemService) then Some(Raised)
      else if r.problemService != Null && cfg.knownServices != {}
              && !(r.problemService.Str? && r.problemService.s in cfg.knownServices) then Some(Answer(470, None))
      else if !Hashable(r.agencyName) || !Hashable(r.reportId) then Some(Raised)
      else None
  }

  function ResponseBody(cfg: Config, estimate: string): Wire {
    Present(
      ["respondingAgencyName", "respondingContactJcard", "respondingAgentId", "responseEstimatedReturnTime"],
      map["respondingAgencyName" := Str(cfg.agencyId), "respondingContactJcard" := cfg.jcard,
          "respondingAgentId" := cfg.agentId, "responseEstimatedReturnTime" := Str(estimate)])
  }

  /** `receive_report`; an accepted report replaces an earlier one with the same key, and its
      resolution with it. */
  function OnReport(cfg: Config, s: State, body: Wire, authorized: bool, estimate: string): (State, Reply) {
    var refusal := Refusal(cfg, body, authorized);
    if refusal.Some? then (s, refusal.value)
    else
      var r := FromDict(body).value;
      (s.(received := s.received[KeyOf(r) := ReceivedReport(r, estimate, None)]),
       Answer(201, Some(ResponseBody(cfg, estimate))))
  }

  /** `get_status_update` */
  function StatusUpdate(cfg: Config, s: State, key: Key, authorized: bool): Reply {
    if !authorized then Answer(471, None)
    else if key !in s.received then Answer(473, None)
    else if s.received[key].resolution.Some? then Answer(474, None)
    else Answer(200, Some(ResponseBody(cfg, s.received[key].estimate)))
  }

  /** `get_resolution` */
  function PollResolution(s: State, key: Key, authorized: bool): Reply {
    if !authorized then Answer(471, None)
    else if key !in s.received then Answer(473, None)
    else if s.received[key].resolution.None? then Answer(475, None)
    else Answer(200, Some(ResolutionToDict(s.received[key].resolution.value)))
  }

  /** Python's `a or b` */
  function Or(a: Value, b: Value): Value {
    if Truthy(a) then a else b
  }

  /** The resolution that `resolve` builds for a report it holds. */
  function Resolving(cfg: Config, r: Report, agency: string, id: string,
                     token: string, comments: Value, time: string): Resolution {
    Resolution(Str(cfg.agencyId), cfg.jcard, cfg.agentId, Str(id), Str(agency),
               Or(r.problemService, Or(cfg.serviceName, Str(cfg.elementId))),
               Str(time), comments, Str(token))
  }

  function StripSlashes(s: string): string {
    if s != "" && s[|s| - 1] == '/' then StripSlashes(s[..|s| - 1]) else s
  }

  /** What `resolve` has done when it first awaits: KeyError, or the resolution recorded and
      the call-back on its way, unless the report's resolutionUri is not a string. */
  datatype Resolved = UnknownReport | Recorded(resolution: Resolution, callback: Option<string>)

  function OnResolve(cfg: Config, s: State, agency: string, id: string,
                   token: string, comments: Value, time: string): (State, Resolved) {
    var key := (Str(agency), Str(id));
    if key !in s.received then (s, UnknownReport)
    else
      var entry := s.received[key];
      var x := Resolving(cfg, entry.report, agency, id, token, comments, time);
      var uri := entry.report.resolutionUri;
      (s.(received := s.received[key := entry.(resolution := Some(x))]),
       Recorded(x, if uri.Str? then Some(StripSlashes(uri.s) + "/Resolutions") else None))
  }

  // ---------------------------------------------------------------- reporting role

  function SimilarityOf(r: Report): Similarity {
    Similarity(r.reportType, r.problemService, Get(r.specific, "problem", Null))
  }

  predicate HashableKey(k: Similarity) {
    Hashable(k.reportType) && Hashable(k.problemService) && Hashable(k.problem)
  }

  /** What `submit` has done when it first awaits. */
  datatype Begun = Suppressed | Failed | Posting(stamped: Report, url: string, body: Wire)

  predicate TooSoon(cfg: Config, s: State, k: Similarity, now: int) {
    k in s.lastSend && now - s.lastSend[k] < cfg.minSimilarInterval
  }

  function SubmitBegin(cfg: Config, s: State, r: Report, uri: string, force: bool, now: int, stamp: string): Begun {
    if !HashableKey(SimilarityOf(r)) then Failed
    else if !force && TooSoon(cfg, s, SimilarityOf(r), now) then Suppressed
    else
      var stamped := r.(timeStamp := Str(stamp));
      var body := ToDict(stamped);
      if body.None? then Failed else Posting(stamped, StripSlashes(uri) + "/Reports", body.value)
  }

  /** A usable DiscrepancyReportResponse. */
  function ParsedResponse(reply: Option<Wire>): Option<Wire> {
    if reply.Some? && HasAll(reply.value, ["respondingAgencyName", "respondingContactJcard"]) then reply else None
  }

  /** The rest of `submit` once an HTTP response is there; `now` is when the call started. */
  function SubmitEnd(s: State, stamped: Report, uri: string, now: int, status: nat, reply: Option<Wire>): State {
    var sent := s.(lastSend := s.lastSend[SimilarityOf(stamped) := now]);
    if status == 201 && Hashable(stamped.reportId) then
      sent.(submitted := s.submitted[stamped.reportId := SubmittedReport(stamped, uri, ParsedResponse(reply), None)])
    else sent
  }

  /** `receive_resolution` */
  function OnResolution(cfg: Config, s: State, body: Wire, authorized: bool): (State, Reply) {
    var parsed := ResolutionFromDict(body);
    if parsed.None? then (s, Answer(454, None))
    else if !authorized then (s, Answer(472, None))
    else
      var x := parsed.value;
      if !Hashable(x.reportId) then (s, Raised)
      else if x.reportId !in s.submitted || x.reportingAgency != Str(cfg.agencyId) then (s, Answer(473, None))
      else
        (s.(submitted := s.submitted[x.reportId := s.submitted[x.reportId].(resolution := Some(x))]),
         Answer(201, None))
  }

  // ---------------------------------------------------------------- what the answers mean

  /** The answer to POST .../Reports, status by status, and what it leaves behind. */
  predicate ReportAnswered(cfg: Config, s: State, t: State, reply: Reply, body: Wire, authorized: bool, estimate: string) {
    var parsed := FromDict(body);
    && (reply == Answer(454, None) <==> parsed.None?)
    && (reply == Answer(471, None) <==> parsed.Some? && !authorized)
    && (reply == Answer(470, None) <==>
          && parsed.Some? && authorized && cfg.knownServices != {}
          && parsed.value.problemService != Null && Hashable(parsed.value.problemService)
          && forall known :: known in cfg.knownServices ==> parsed.value.problemService != Str(known))
    && (reply == Raised <==>
          && parsed.Some? && authorized
          && ((cfg.knownServices != {} && !Hashable(parsed.value.problemService))
              || (reply != Answer(470, None)
                  && !(Hashable(parsed.value.agencyName) && Hashable(parsed.value.reportId)))))
    && (if reply in {Answer(454, None), Answer(471, None), Answer(470, None), Raised} then t == s
        else
          var r := parsed.value;
          && reply == Answer(201, Some(ResponseBody(cfg, estimate)))
          && t == s.(received := s.received[(r.agencyName, r.reportId) := ReceivedReport(r, estimate, None)]))
  }

  lemma OnReportAnswers(cfg: Config, s: State, body: Wire, authorized: bool, estimate: string)
    ensures var (t, reply) := OnReport(cfg, s, body, authorized, estimate);
      ReportAnswered(cfg, s, t, reply, body, authorized, estimate)
  {
    hide FromDict, ResponseBody;
  }

  /** The response names this agency, its contact and the estimated time of return. */
  lemma ResponseBodyAt(cfg: Config, estimate: string)
    ensures var d := ResponseBody(cfg, estimate);
      && Get(d, "respondingAgencyName", Null) == Str(cfg.agencyId)
      && Get(d, "respondingContactJcard", Null) == cfg.jcard
      && Get(d, "respondingAgentId", Null) == cfg.agentId
      && Get(d, "responseEstimatedReturnTime", Null) == Str(estimate)
  {
  }

  /** What `resolve` leaves behind and posts, part by part: the service named in the report,
      else this service, else this element. */
  predicate ResolvedAs(cfg: Config, s: State, t: State, outcome: Resolved, agency: string, id: string,
                       token: string, comments: Value, time: string) {
    var key := (Str(agency), Str(id));
    if key !in s.received then t == s && outcome == UnknownReport
    else
      var entry := s.received[key];
      && outcome.Recorded?
      && var x := outcome.resolution;
         && x.respondingAgency == Str(cfg.agencyId) && x.respondingJcard == cfg.jcard && x.respondingAgent == cfg.agentId
         && x.reportId == Str(id) && x.reportingAgency == Str(agency)
         && x.problemService == (if Truthy(entry.report.problemService) then entry.report.problemService
                                 else if Truthy(cfg.serviceName) then cfg.serviceName else Str(cfg.elementId))
         && x.responseTime == Str(time) && x.comments == comments && x.resolution == Str(token)
         && t == s.(received := s.received[key := ReceivedReport(entry.report, entry.estimate, Some(x))])
         && outcome.callback == (if entry.report.resolutionUri.Str?
                                 then Some(StripSlashes(entry.report.resolutionUri.s) + "/Resolutions") else None)
  }

  lemma OnResolveBuilds(cfg: Config, s: State, agency: string, id: string, token: string, comments: Value, time: string)
    ensures var (t, outcome) := OnResolve(cfg, s, agency, id, token, comments, time);
      ResolvedAs(cfg, s, t, outcome, agency, id, token, comments, time)
  {
    hide StripSlashes;
  }

  /** `rstrip("/")` takes away slashes at the end and nothing else. */
  lemma {:induction false} StripSlashesCuts(s: string)
    ensures var t := StripSlashes(s);
      && t <= s && (t == "" || t[|t| - 1] != '/')
      && forall i :: |t| <= i < |s| ==> s[i] == '/'
  {
    if s != "" && s[|s| - 1] == '/' {
      StripSlashesCuts(s[..|s| - 1]);
    }
  }

  /** The "problem" among the type-specific parameters, null when there is none. */
  function ProblemOf(r: Report): Value {
    if "problem" in r.specific.at then r.specific.at["problem"] else Null
  }

  /** Two reports are similar if and only if type, problem service and problem are equal. */
  lemma SimilarIff(a: Report, b: Report)
    ensures SimilarityOf(a) == SimilarityOf(b) <==>
      a.reportType == b.reportType && a.problemService == b.problemService && ProblemOf(a) == ProblemOf(b)
    ensures SimilarityOf(a) == Similarity(a.reportType, a.problemService, ProblemOf(a))
  {
  }

  /** The two members that a response must have. */
  predicate NamesResponder(d: Wire) {
    Get(d, "respondingAgencyName", Null) != Null && Get(d, "respondingContactJcard", Null) != Null
  }

  lemma NamesResponderIff()
    ensures forall d :: HasAll(d, ["respondingAgencyName", "respondingContactJcard"]) <==> NamesResponder(d)
  {
    var keys := ["respondingAgencyName", "respondingContactJcard"];
    assert keys[0] in keys && keys[1] in keys;
  }

  /** What `submit` comes to before its first await: suppressed, failed or posted, and what is
      posted where. */
  predicate BegunAs(cfg: Config, s: State, begun: Begun, r: Report, uri: string, force: bool, now: int, stamp: string) {
    var key := Similarity(r.reportType, r.problemService, ProblemOf(r));
    var hashable := Hashable(r.reportType) && Hashable(r.problemService) && Hashable(ProblemOf(r));
    && (begun == Suppressed <==>
          hashable && !force && key in s.lastSend && now - s.lastSend[key] < cfg.minSimilarInterval)
    && (begun == Failed <==> !hashable || (begun != Suppressed && Collides(r.(timeStamp := Str(stamp)))))
    && (begun.Posting? ==>
          && begun.stamped == r.(timeStamp := Str(stamp)) && begun.url == StripSlashes(uri) + "/Reports"
          && ToDict(begun.stamped) == Some(begun.body))
  }

  lemma SubmitBegins(cfg: Config, s: State, r: Report, uri: string, force: bool, now: int, stamp: string)
    ensures BegunAs(cfg, s, SubmitBegin(cfg, s, r, uri, force, now, stamp), r, uri, force, now, stamp)
  {
    SimilarIff(r, r);
    hide StripSlashes, Merged, Collides;
  }

  /** The answer to POST .../Resolutions, status by status, and what it leaves behind. */
  predicate ResolutionAnswered(cfg: Config, s: State, t: State, reply: Reply, body: Wire, authorized: bool) {
    var parsed := ResolutionFromDict(body);
    && (reply == Answer(454, None) <==> parsed.None?)
    && (reply == Answer(472, None) <==> parsed.Some? && !authorized)
    && (reply == Raised <==> parsed.Some? && authorized && !Hashable(parsed.value.reportId))
    && (reply == Answer(473, None) <==>
          && parsed.Some? && authorized && Hashable(parsed.value.reportId)
          && !(parsed.value.reportId in s.submitted && parsed.value.reportingAgency == Str(cfg.agencyId)))
    && (if reply in {Answer(454, None), Answer(472, None), Answer(473, None), Raised} then t == s
        else
          var id := parsed.value.reportId;
          && reply == Answer(201, None) && id in s.submitted
          && t == s.(submitted := s.submitted[id := s.submitted[id].(resolution := parsed)]))
  }

  lemma OnResolutionAnswers(cfg: Config, s: State, body: Wire, authorized: bool)
    ensures var (t, reply) := OnResolution(cfg, s, body, authorized);
      ResolutionAnswered(cfg, s, t, reply, body, authorized)
  {
    hide ResolutionFromDict;
  }

  // ---------------------------------------------------------------- the component

  class DiscrepancyReporting {
    const cfg: Config
    var received: map<Key, ReceivedReport>
    var submitted: map<Value, SubmittedReport>
    var lastSimilarSend: map<Similarity, int>

    ghost function View(): State
      reads this
    {
      State(received, submitted, lastSimilarSend)
    }

    constructor (cfg: Config)
      ensures this.cfg == cfg && View() == State(map[], map[], map[])
    {
      this.cfg := cfg;
      received, submitted, lastSimilarSend := map[], map[], map[];
    }

    method ReceiveReport(body: Wire, authorized: bool, estimate: string) returns (reply: Reply)
      modifies this`received
      ensures (View(), reply) == OnReport(cfg, old(View()), body, authorized, estimate)
      ensures ReportAnswered(cfg, old(View()), View(), reply, body, authorized, estimate)
    {
      OnReportAnswers(cfg, View(), body, authorized, estimate);
      hide ReportAnswered, FromDict, ResponseBody;
      var parsed := FromDict(body);
      if parsed.None? {
        return Answer(454, None);
      }
      if !authorized {
        return Answer(471, None);
      }
      var r := parsed.value;
      if r.problemService != Null && cfg.knownServices != {} {
        if !Hashable(r.problemService) {
          return Raised;
        }
        if !(r.problemService.Str? && r.problemService.s in cfg.knownServices) {
          return Answer(470, None);
        }
      }
      if !Hashable(r.agencyName) || !Hashable(r.reportId) {
        return Raised;
      }
      received := received[(r.agencyName, r.reportId) := ReceivedReport(r, estimate, None)];
      return Answer(201, Some(ResponseBody(cfg, estimate)));
    }

    method GetStatusUpdate(agency: Value, id: Value, authorized: bool) returns (reply: Reply)
      ensures reply == StatusUpdate(cfg, View(), (agency, id), authorized)
      ensures reply == Answer(471, None) <==> !authorized
      ensures reply == Answer(473, None) <==> authorized && (agency, id) !in received
      ensures reply == Answer(474, None) <==>
        authorized && (agency, id) in received && received[(agency, id)].resolution.Some?
      ensures reply == Answer(471, None) || reply == Answer(473, None) || reply == Answer(474, None)
        || ((agency, id) in received && reply == Answer(200, Some(ResponseBody(cfg, received[(agency, id)].estimate))))
    {
      hide ResponseBody;
      if !authorized {
        return Answer(471, None);
      }
      if (agency, id) !in received {
        return Answer(473, None);
      }
      var entry := received[(agency, id)];
      if entry.resolution != None {
        return Answer(474, None);
      }
      return Answer(200, Some(ResponseBody(cfg, entry.estimate)));
    }

    method GetResolution(agency: Value, id: Value, authorized: bool) returns (reply: Reply)
      ensures reply == PollResolution(View(), (agency, id), authorized)
      ensures reply == Answer(471, None) <==> !authorized
      ensures reply == Answer(473, None) <==> authorized && (agency, id) !in received
      ensures reply == Answer(475, None) <==>
        authorized && (agency, id) in received && received[(agency, id)].resolution.None?
      ensures reply == Answer(471, None) || reply == Answer(473, None) || reply == Answer(475, None)
        || ((agency, id) in received && received[(agency, id)].resolution.Some?
            && reply == Answer(200, Some(ResolutionToDict(received[(agency, id)].resolution.value))))
    {
      hide ResolutionToDict;
      if !authorized {
        return Answer(471, None);
      }
      if (agency, id) !in received {
        return Answer(473, None);
      }
      var entry := received[(agency, id)];
      if entry.resolution == None {
        return Answer(475, None);
      }
      return Answer(200, Some(ResolutionToDict(entry.resolution.value)));
    }

    method Resolve(agency: string, id: string, token: string, comments: Value, time: string)
      returns (outcome: Resolved)
      modifies this`received
      ensures (View(), outcome) == OnResolve(cfg, old(View()), agency, id, token, comments, time)
      ensures ResolvedAs(cfg, old(View()), View(), outcome, agency, id, token, comments, time)
    {
      OnResolveBuilds(cfg, View(), agency, id, token, comments, time);
      hide ResolvedAs, StripSlashes;
      var key := (Str(agency), Str(id));
      if key !in received {
        return UnknownReport;
      }
      var entry := received[key];
      var service := entry.report.problemService;
      if !Truthy(service) {
        service := if Truthy(cfg.serviceName) then cfg.serviceName else Str(cfg.elementId);
      }
      var x := Resolution(Str(cfg.agencyId), cfg.jcard, cfg.agentId, Str(id), Str(agency), service,
                          Str(time), comments, Str(token));
      received := received[key := entry.(resolution := Some(x))];
      match entry.report.resolutionUri
      case Str(uri) => return Recorded(x, Some(StripSlashes(uri) + "/Resolutions"));
      case _ => return Recorded(x, None);
    }

    method BeginSubmit(r: Report, uri: string, force: bool, now: int, stamp: string) returns (begun: Begun)
      requires r.specific.Valid()
      ensures begun == SubmitBegin(cfg, View(), r, uri, force, now, stamp)
      ensures BegunAs(cfg, View(), begun, r, uri, force, now, stamp)
    {
      SubmitBegins(cfg, View(), r, uri, force, now, stamp);
      hide BegunAs, StripSlashes, Merged, Collides;
      var k := SimilarityOf(r);
      if !HashableKey(k) {
        return Failed;
      }
      if !force && k in lastSimilarSend && now - lastSimilarSend[k] < cfg.minSimilarInterval {
        return Suppressed;
      }
      var stamped := r.(timeStamp := Str(stamp));
      var body := FillDict(stamped);
      if body.None? {
        return Failed;
      }
      return Posting(stamped, StripSlashes(uri) + "/Reports", body.value);
    }

    method EndSubmit(stamped: Report, uri: string, now: int, status: nat, reply: Option<Wire>)
      modifies this`submitted, this`lastSimilarSend
      ensures View() == SubmitEnd(old(View()), stamped, uri, now, status, reply)
      ensures var key := Similarity(stamped.reportType, stamped.problemService, ProblemOf(stamped));
        lastSimilarSend == old(lastSimilarSend)[key := now]
      ensures status != 201 ==> submitted == old(submitted)
      ensures status == 201 && Hashable(stamped.reportId) ==>
        && submitted.Keys == old(submitted).Keys + {stamped.reportId}
        && (forall id :: id in submitted && id != stamped.reportId ==> submitted[id] == old(submitted)[id])
        && var entry := submitted[stamped.reportId];
           && entry.report == stamped && entry.responderUri == uri && entry.resolution == None
           && entry.response == if reply.Some? && NamesResponder(reply.value) then reply else None
    {
      SimilarIff(stamped, stamped);
      NamesResponderIff();
      hide HasAll, NamesResponder, SimilarityOf, ProblemOf;
      lastSimilarSend := lastSimilarSend[SimilarityOf(stamped) := now];
      if status == 201 {
        var parsed := None;
        if reply.Some? && HasAll(reply.value, ["respondingAgencyName", "respondingContactJcard"]) {
          parsed := reply;
        }
        if Hashable(stamped.reportId) {
          submitted := submitted[stamped.reportId := SubmittedReport(stamped, uri, parsed, None)];
        }
      }
    }

    method ReceiveResolution(body: Wire, authorized: bool) returns (reply: Reply)
      modifies this`submitted
      ensures (View(), reply) == OnResolution(cfg, old(View()), body, authorized)
      ensures ResolutionAnswered(cfg, old(View()), View(), reply, body, authorized)
    {
      OnResolutionAnswers(cfg, View(), body, authorized);
      hide ResolutionAnswered, ResolutionFromDict;
      var parsed := ResolutionFromDict(body);
      if parsed.None? {
        return Answer(454, None);
      }
      var x := parsed.value;
      if !authorized {
        return Answer(472, None);
      }
      if !Hashable(x.reportId) {
        return Raised;
      }
      if x.reportId !in submitted || x.reportingAgency != Str(cfg.agencyId) {
        return Answer(473, None);
      }
      submitted := submitted[x.reportId := submitted[x.reportId].(resolution := Some(x))];
      return Answer(201, None);
    }
  }
}
