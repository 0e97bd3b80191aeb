/** Discrepancy Reporting wire objects (sections 3.7.1 and 3.7.2 of NENA-STA-010.3f-2021).

    A field holds any JSON value, with `Null` for Python's None: `from_dict` checks the presence
    of the mandatory fields and the three tokens, but no other types. */
module DrModels {
  import opened Json
  import opened Prelude
  import Timestamps

  const REPORT_TYPES: set<string> := {
    "PolicyStoreDiscrepancyReport", "LoSTDiscrepancyReport", "BCFDiscrepancyReport",
    "LoggingDiscrepancyReport", "CallTakerDiscrepancyReport", "SIPDiscrepancyReport",
    "PermissionsDiscrepancyReport", "GISDiscrepancyReport", "LISDiscrepancyReport",
    "PolicyDiscrepancyReport", "OriginatingServiceDiscrepancyReport", "CallTransferDiscrepancyReport",
    "MCSDiscrepancyReport", "ESRPDiscrepancyReport", "AdrDiscrepancyReport",
    "NetworkDiscrepancyReport", "IMRDiscrepancyReport", "TestCallDiscrepancyReport",
    "LogSignDiscrepancyReport"
  }

  const PROBLEM_SEVERITIES: set<string> :=
    {"Minor", "Moderate", "Degraded", "Impaired", "Severe", "Critical"}

  /** A JSON object. */
  type Wire = Dict<string, Value>

  /** The non-null ones of the given fields, in the order of `keys`. */
  function Present(keys: seq<string>, fields: map<string, Value>): Wire
    requires forall k :: k in keys ==> k in fields
  {
    Dict(PresentKeys(keys, fields), map k | k in keys && fields[k] != Null :: fields[k])
  }

  function PresentKeys(keys: seq<string>, fields: map<string, Value>): (ks: seq<string>)
    requires forall k :: k in keys ==> k in fields
  {
    if keys == [] then []
    else (if fields[keys[0]] != Null then [keys[0]] else []) + PresentKeys(keys[1..], fields)
  }

  /** `_require` */
  predicate HasAll(d: Wire, keys: seq<string>) {
    forall k :: k in keys ==> k in d.at && d.at[k] != Null
  }

  // ---------------------------------------------------------------- DiscrepancyReport

  datatype Report = Report(
    resolutionUri: Value,
    reportType: Value,
    timeStamp: Value,
    reportId: Value,
    agencyName: Value,
    agentId: Value,
    jcard: Value,
    problemService: Value,
    severity: Value,
    comments: Value,
    specific: Wire)

  /** `_KEYS`, in its order. */
  function Prolog(): seq<string> {
    [
    "resolutionUri", "reportType", "discrepancyReportSubmittalTimeStamp", "discrepancyReportId",
    "reportingAgencyName", "reportingAgentId", "reportingContactJcard", "problemService",
    "problemSeverity", "problemComments"
  ]
  }

  function Optional(): seq<string> {
    ["reportingAgentId", "problemService", "problemComments"]
  }

  function Mandatory(): seq<string> {
    [
    "resolutionUri", "reportType", "discrepancyReportSubmittalTimeStamp", "discrepancyReportId",
    "reportingAgencyName", "reportingContactJcard", "problemSeverity"
  ]
  }

  /** `getattr(self, attr)` by the JSON key of the attribute. */
  function Fields(r: Report): map<string, Value> {
    map[
      "resolutionUri" := r.resolutionUri,
      "reportType" := r.reportType,
      "discrepancyReportSubmittalTimeStamp" := r.timeStamp,
      "discrepancyReportId" := r.reportId,
      "reportingAgencyName" := r.agencyName,
      "reportingAgentId" := r.agentId,
      "reportingContactJcard" := r.jcard,
      "problemService" := r.problemService,
      "problemSeverity" := r.severity,
      "problemComments" := r.comments
    ]
  }

  /** What `__post_init__` lets through; whatever else is given raises. */
  predicate Constructible(r: Report) {
    && r.reportType.Str? && r.reportType.s in REPORT_TYPES
    && r.severity.Str? && r.severity.s in PROBLEM_SEVERITIES
    && (r.timeStamp.Null? || (r.timeStamp.Str? && Timestamps.MatchesGrammar(r.timeStamp.s)))
  }

  /** A type-specific key hides a prolog field that is set. */
  predicate Collides(r: Report) {
    exists k :: k in r.specific.order && k in Prolog() && Fields(r)[k] != Null
  }

  /** The JSON object of a report: prolog fields that are set, then the type-specific ones. */
  function Merged(r: Report): Wire {
    var prolog := Present(Prolog(), Fields(r));
    Dict(prolog.order + r.specific.order, prolog.at + r.specific.at)
  }

  /** What `to_dict` answers, None standing for ValueError. */
  function ToDict(r: Report): Option<Wire> {
    if r.timeStamp.Null? || Collides(r) then None else Some(Merged(r))
  }

  /** `DiscrepancyReport.to_dict` */
  method FillDict(r: Report) returns (d: Option<Wire>)
    requires r.specific.Valid()
    ensures d == ToDict(r)
  {
    if r.timeStamp.Null? {
      return None;
    }
    PrologHasNoDup();
    FieldsAt(r);
    hide Prolog, Fields, Present, MergedUpTo, Collides, Merged;
    var prolog := FillProlog(Prolog(), Fields(r));
    d := MergeSpecific(prolog, r.specific);
    FilledIsMerged(r, prolog);
  }

  lemma FilledIsMerged(r: Report, prolog: Wire)
    requires r.specific.Valid()
    requires forall k :: k in Prolog() ==> k in Fields(r)
    requires prolog == Present(Prolog(), Fields(r))
    ensures Collides(r) <==> exists k :: k in r.specific.order && k in prolog.at
    ensures MergedUpTo(prolog, r.specific, |r.specific.order|) == Merged(r)
  {
    hide Prolog, Fields;
    MergedEnds(prolog, r.specific);
  }

  /** Its first loop. */
  method FillProlog(keys: seq<string>, fields: map<string, Value>) returns (dict: Wire)
    requires NoDup(keys)
    requires forall k :: k in keys ==> k in fields
    ensures dict == Present(keys, fields)
  {
    hide Present;
    dict := Dict([], map[]);
    PresentNothing(fields);
    for i := 0 to |keys|
      invariant dict == Present(keys[..i], fields)
    {
      PresentSnoc(keys, i, fields);
      if fields[keys[i]] != Null {
        dict := dict.Put(keys[i], fields[keys[i]]);
      }
    }
    assert keys[..|keys|] == keys;
  }

  /** Its second loop. */
  method MergeSpecific(prolog: Wire, specific: Wire) returns (d: Option<Wire>)
    requires specific.Valid()
    ensures d == if exists k :: k in specific.order && k in prolog.at then None
                 else Some(MergedUpTo(prolog, specific, |specific.order|))
  {
    hide MergedUpTo;
    var dict := prolog;
    MergedEnds(prolog, specific);
    for i := 0 to |specific.order|
      invariant dict == MergedUpTo(prolog, specific, i)
      invariant forall j :: 0 <= j < i ==> specific.order[j] !in prolog.at
    {
      var key := specific.order[i];
      MergedNext(prolog, specific, i);
      if key in dict.at {
        return None;
      }
      dict := dict.Put(key, specific.at[key]);
    }
    d := Some(dict);
  }

  lemma PresentNothing(fields: map<string, Value>)
    ensures Present([], fields) == Dict([], map[])
  {
  }

  lemma PresentAt(keys: seq<string>, fields: map<string, Value>, k: string)
    requires forall k :: k in keys ==> k in fields
    ensures k in Present(keys, fields).at <==> k in keys && fields[k] != Null
    ensures k in Present(keys, fields).at ==> Present(keys, fields).at[k] == fields[k]
  {
  }

  lemma PresentSnoc(keys: seq<string>, i: nat, fields: map<string, Value>)
    requires i < |keys| && NoDup(keys)
    requires forall k :: k in keys ==> k in fields
    ensures Present(keys[..i + 1], fields)
            == if fields[keys[i]] != Null then Present(keys[..i], fields).Put(keys[i], fields[keys[i]])
               else Present(keys[..i], fields)
  {
    PresentKeysSnoc(keys[..i], keys[i], fields);
    assert keys[..i + 1] == keys[..i] + [keys[i]];
    assert keys[i] !in keys[..i];
    hide PresentKeys;
    PresentMapSnoc(keys[..i], keys[i], fields);
  }

  lemma PresentMapSnoc(keys: seq<string>, key: string, fields: map<string, Value>)
    requires forall k :: k in keys + [key] ==> k in fields
    ensures (map k | k in keys + [key] && fields[k] != Null :: fields[k])
            == var m := map k | k in keys && fields[k] != Null :: fields[k];
               if fields[key] != Null then m[key := fields[key]] else m
  {
  }

  function MergedUpTo(prolog: Wire, specific: Wire, i: nat): Wire
    requires i <= |specific.order|
  {
    Dict(prolog.order + specific.order[..i],
         prolog.at + map k | k in specific.at && k in specific.order[..i] :: specific.at[k])
  }

  lemma MergedEnds(prolog: Wire, specific: Wire)
    requires specific.Valid()
    ensures MergedUpTo(prolog, specific, 0) == prolog
    ensures MergedUpTo(prolog, specific, |specific.order|)
            == Dict(prolog.order + specific.order, prolog.at + specific.at)
  {
    assert specific.order[..|specific.order|] == specific.order;
    assert (map k | k in specific.at && k in specific.order :: specific.at[k]) == specific.at;
  }

  lemma MergedNext(prolog: Wire, specific: Wire, i: nat)
    requires specific.Valid() && i < |specific.order|
    ensures var m, key := MergedUpTo(prolog, specific, i), specific.order[i];
      && key in specific.at
      && (key in m.at <==> key in prolog.at)
      && (key !in prolog.at ==> m.Put(key, specific.at[key]) == MergedUpTo(prolog, specific, i + 1))
  {
    var key := specific.order[i];
    var seen := specific.order[..i];
    assert specific.order[..i + 1] == seen + [key];
    assert key !in seen;
    assert key in specific.at;
    if key !in prolog.at {
      var m := MergedUpTo(prolog, specific, i);
      AddOne(prolog.at, specific.at, seen, key);
      assert m.order + [key] == prolog.order + (seen + [key]);
    }
  }

  lemma AddOne(base: map<string, Value>, extra: map<string, Value>, seen: seq<string>, key: string)
    requires key in extra
    ensures (base + map k | k in extra && k in seen :: extra[k])[key := extra[key]]
            == base + map k | k in extra && k in seen + [key] :: extra[k]
  {
  }

  lemma PresentKeysSnoc(keys: seq<string>, key: string, fields: map<string, Value>)
    requires forall k :: k in keys + [key] ==> k in fields
    ensures PresentKeys(keys + [key], fields)
            == PresentKeys(keys, fields) + if fields[key] != Null then [key] else []
  {
    if keys == [] {
    } else {
      assert (keys + [key])[1..] == keys[1..] + [key];
      PresentKeysSnoc(keys[1..], key, fields);
    }
  }

  /** The attributes that `from_dict` passes on. */
  function Read(d: Wire): Report {
    Report(
      Get(d, "resolutionUri", Null), Get(d, "reportType", Null),
      Get(d, "discrepancyReportSubmittalTimeStamp", Null), Get(d, "discrepancyReportId", Null),
      Get(d, "reportingAgencyName", Null), Get(d, "reportingAgentId", Null),
      Get(d, "reportingContactJcard", Null), Get(d, "problemService", Null),
      Get(d, "problemSeverity", Null), Get(d, "problemComments", Null), Without(d, Prolog()))
  }

  /** `DiscrepancyReport.from_dict`, None standing for ValueError or TypeError. */
  function FromDict(d: Wire): Option<Report> {
    if HasAll(d, Mandatory()) && Constructible(Read(d)) then Some(Read(d)) else None
  }

  function Without(d: Wire, keys: seq<string>): Wire {
    Dict(Others(d.order, keys), map k | k in d.at && k !in keys :: d.at[k])
  }

  function Others(order: seq<string>, keys: seq<string>): seq<string> {
    if order == [] then []
    else (if order[0] in keys then [] else [order[0]]) + Others(order[1..], keys)
  }

  lemma PrologHasNoDup()
    ensures NoDup(Prolog())
    ensures forall k :: k in Prolog() <==> k in Mandatory() || k in Optional()
  {
  }

  /** The keys are pairwise different strings, so each names its own attribute. */
  lemma FieldsAt(r: Report)
    ensures forall k :: k in Fields(r) <==> k in Prolog()
    ensures var f := Fields(r);
      && f["resolutionUri"] == r.resolutionUri
      && f["reportType"] == r.reportType
      && f["discrepancyReportSubmittalTimeStamp"] == r.timeStamp
      && f["discrepancyReportId"] == r.reportId
      && f["reportingAgencyName"] == r.agencyName
      && f["reportingAgentId"] == r.agentId
      && f["reportingContactJcard"] == r.jcard
      && f["problemService"] == r.problemService
      && f["problemSeverity"] == r.severity
      && f["problemComments"] == r.comments
  {
  }

  lemma FieldKeys(r: Report)
    ensures forall k :: k in Fields(r) <==> k in Prolog()
  {
    FieldsAt(r);
  }

  lemma PresentKeysMember(keys: seq<string>, fields: map<string, Value>)
    requires forall k :: k in keys ==> k in fields
    ensures forall k :: k in PresentKeys(keys, fields) <==> k in keys && fields[k] != Null
    ensures NoDup(keys) ==> NoDup(PresentKeys(keys, fields))
  {
    if keys != [] {
      PresentKeysMember(keys[1..], fields);
      if NoDup(keys) {
        assert forall j :: 0 <= j < |keys[1..]| ==> keys[1..][j] == keys[j + 1] != keys[0];
        assert NoDup(keys[1..]);
        assert keys[0] !in PresentKeys(keys[1..], fields);
      }
    }
  }

  lemma OthersMember(order: seq<string>, keys: seq<string>)
    ensures forall k :: k in Others(order, keys) <==> k in order && k !in keys
    ensures (forall k :: k in order ==> k in keys) ==> Others(order, keys) == []
    ensures (forall k :: k in order ==> k !in keys) ==> Others(order, keys) == order
  {
    if order != [] {
      OthersMember(order[1..], keys);
    }
  }

  lemma OthersAppend(a: seq<string>, b: seq<string>, keys: seq<string>)
    ensures Others(a + b, keys) == Others(a, keys) + Others(b, keys)
  {
    if a == [] {
      assert a + b == b;
    } else {
      assert (a + b)[1..] == a[1..] + b;
      OthersAppend(a[1..], b, keys);
    }
  }

  // ---------------------------------------------------------------- report round trips

  predicate Avoids(specific: Wire, keys: seq<string>) {
    forall k :: k in specific.order ==> k !in keys
  }

  /** Every mandatory attribute is set. */
  predicate Complete(r: Report) {
    AllSet(Fields(r), Mandatory())
  }

  predicate AllSet(fields: map<string, Value>, keys: seq<string>) {
    forall k :: k in keys ==> k in fields && fields[k] != Null
  }

  lemma MergedAt(r: Report, k: string)
    requires r.specific.Valid() && !Collides(r)
    ensures k in Merged(r).at <==> (k in Prolog() && Fields(r)[k] != Null) || k in r.specific.at
    ensures k in r.specific.at ==> Merged(r).at[k] == r.specific.at[k]
    ensures k in Prolog() && k !in r.specific.at ==> Get(Merged(r), k, Null) == Fields(r)[k]
  {
    FieldsAt(r);
    hide Prolog, Fields;
    PresentAt(Prolog(), Fields(r), k);
  }

  /** The type-specific part can be told apart again, in its order. */
  lemma RestIsSpecific(keys: seq<string>, prolog: Wire, specific: Wire)
    requires specific.Valid() && Avoids(specific, keys)
    requires forall k :: k in prolog.order ==> k in keys
    requires forall k :: k in prolog.at ==> k in keys
    ensures Without(Dict(prolog.order + specific.order, prolog.at + specific.at), keys) == specific
  {
    OthersMember(prolog.order, keys);
    OthersMember(specific.order, keys);
    OthersAppend(prolog.order, specific.order, keys);
    hide Others;
    assert (map k | k in prolog.at + specific.at && k !in keys :: (prolog.at + specific.at)[k]) == specific.at;
  }

  lemma AttributesDetermine(r: Report, q: Report)
    requires r.specific == q.specific
    requires Fields(r) == Fields(q)
    ensures r == q
  {
    FieldsAt(r);
    FieldsAt(q);
    hide Fields;
  }

  lemma ReadAt(d: Wire, k: string)
    requires k in Prolog()
    ensures k in Fields(Read(d)) && Fields(Read(d))[k] == Get(d, k, Null)
  {
    FieldsAt(Read(d));
    hide Fields, Get, Without;
  }

  lemma FromDictReads(d: Wire)
    ensures FromDict(d) == if Complete(Read(d)) && Constructible(Read(d)) then Some(Read(d)) else None
  {
    PrologHasNoDup();
    forall k | k in Mandatory() ensures k in Fields(Read(d)) && Fields(Read(d))[k] == Get(d, k, Null) {
      ReadAt(d, k);
    }
    hide Prolog, Mandatory, Fields, Read, Constructible;
    assert HasAll(d, Mandatory()) <==> forall k :: k in Mandatory() ==> Get(d, k, Null) != Null;
  }

  lemma MandatoryKeys(d: Wire)
    ensures HasAll(d, Mandatory()) <==>
      && Get(d, "resolutionUri", Null) != Null && Get(d, "reportType", Null) != Null
      && Get(d, "discrepancyReportSubmittalTimeStamp", Null) != Null && Get(d, "discrepancyReportId", Null) != Null
      && Get(d, "reportingAgencyName", Null) != Null && Get(d, "reportingContactJcard", Null) != Null
      && Get(d, "problemSeverity", Null) != Null
  {
    var keys := Mandatory();
    assert forall i :: 0 <= i < 7 ==> keys[i] in keys;
    if HasAll(d, keys) {
      assert keys[0] in d.at && keys[1] in d.at && keys[2] in d.at && keys[3] in d.at && keys[4] in d.at
        && keys[5] in d.at && keys[6] in d.at;
    }
  }

  /** The same with the names written out: which objects are accepted, and what becomes of them. */
  lemma AcceptedReports(d: Wire)
    ensures FromDict(d).Some? <==>
      && Get(d, "resolutionUri", Null) != Null && Get(d, "discrepancyReportId", Null) != Null
      && Get(d, "reportingAgencyName", Null) != Null && Get(d, "reportingContactJcard", Null) != Null
      && (exists kind :: kind in REPORT_TYPES && Get(d, "reportType", Null) == Str(kind))
      && (exists level :: level in {"Minor", "Moderate", "Degraded", "Impaired", "Severe", "Critical"}
                          && Get(d, "problemSeverity", Null) == Str(level))
      && (exists stamp :: Timestamps.MatchesGrammar(stamp)
                          && Get(d, "discrepancyReportSubmittalTimeStamp", Null) == Str(stamp))
    ensures FromDict(d).Some? ==>
      var r := FromDict(d).value;
      && r.resolutionUri == Get(d, "resolutionUri", Null) && r.reportType == Get(d, "reportType", Null)
      && r.timeStamp == Get(d, "discrepancyReportSubmittalTimeStamp", Null)
      && r.reportId == Get(d, "discrepancyReportId", Null) && r.agencyName == Get(d, "reportingAgencyName", Null)
      && r.agentId == Get(d, "reportingAgentId", Null) && r.jcard == Get(d, "reportingContactJcard", Null)
      && r.problemService == Get(d, "problemService", Null) && r.severity == Get(d, "problemSeverity", Null)
      && r.comments == Get(d, "problemComments", Null) && r.specific == Without(d, Prolog())
  {
    MandatoryKeys(d);
    hide HasAll, Mandatory, Prolog, Without, Get, Timestamps.MatchesGrammar;
  }

  lemma FieldOnWire(r: Report, k: string)
    requires r.specific.Valid() && ToDict(r).Some? && k in Prolog() && k in Fields(r)
    ensures Fields(r)[k] != Null ==> Get(ToDict(r).value, k, Null) == Fields(r)[k]
    ensures Fields(r)[k] == Null && k !in r.specific.at ==> k !in ToDict(r).value.at
  {
    hide Prolog, Fields, Merged;
    MergedAt(r, k);
  }

  /** Every attribute that is set goes under its own name, beside the type-specific parameters. */
  lemma SerialisedSays(r: Report)
    requires r.specific.Valid() && ToDict(r).Some?
    ensures var d := ToDict(r).value;
      && (r.resolutionUri != Null ==> Get(d, "resolutionUri", Null) == r.resolutionUri)
      && (r.reportType != Null ==> Get(d, "reportType", Null) == r.reportType)
      && Get(d, "discrepancyReportSubmittalTimeStamp", Null) == r.timeStamp != Null
      && (r.reportId != Null ==> Get(d, "discrepancyReportId", Null) == r.reportId)
      && (r.agencyName != Null ==> Get(d, "reportingAgencyName", Null) == r.agencyName)
      && (r.agentId != Null ==> Get(d, "reportingAgentId", Null) == r.agentId)
      && (r.jcard != Null ==> Get(d, "reportingContactJcard", Null) == r.jcard)
      && (r.problemService != Null ==> Get(d, "problemService", Null) == r.problemService)
      && (r.severity != Null ==> Get(d, "problemSeverity", Null) == r.severity)
      && (r.comments != Null ==> Get(d, "problemComments", Null) == r.comments)
      && forall k :: k in r.specific.at ==> k in d.at && d.at[k] == r.specific.at[k]
  {
    FieldsAt(r);
    PrologKeys();
    forall k | k in r.specific.at ensures k in ToDict(r).value.at && ToDict(r).value.at[k] == r.specific.at[k] {
      MergedAt(r, k);
    }
    hide Prolog, Fields, Merged, Get, Collides;
    forall k | k in Prolog() && k in Fields(r) {
      FieldOnWire(r, k);
    }
  }

  lemma PrologKeys()
    ensures "resolutionUri" in Prolog() && "reportType" in Prolog() && "discrepancyReportSubmittalTimeStamp" in Prolog()
    ensures "discrepancyReportId" in Prolog() && "reportingAgencyName" in Prolog() && "reportingAgentId" in Prolog()
    ensures "reportingContactJcard" in Prolog() && "problemService" in Prolog() && "problemSeverity" in Prolog()
    ensures "problemComments" in Prolog()
  {
    assert forall i :: 0 <= i < 10 ==> Prolog()[i] in Prolog();
    var p := Prolog();
    assert p[0] in p && p[1] in p && p[2] in p && p[3] in p && p[4] in p;
    assert p[5] in p && p[6] in p && p[7] in p && p[8] in p && p[9] in p;
  }

  lemma MergedReads(r: Report, k: string)
    requires r.specific.Valid() && Avoids(r.specific, Prolog()) && k in Prolog()
    ensures k in Fields(r) && k in Fields(Read(Merged(r))) && Fields(Read(Merged(r)))[k] == Fields(r)[k]
  {
    FieldsAt(r);
    ReadAt(Merged(r), k);
    hide Prolog, Fields, Read, Merged;
    MergedAt(r, k);
  }

  lemma ReadKeepsSpecific(r: Report)
    requires r.specific.Valid() && Avoids(r.specific, Prolog())
    ensures Read(Merged(r)).specific == r.specific
  {
    FieldKeys(r);
    hide Prolog, Fields, Get;
    PresentKeysMember(Prolog(), Fields(r));
    RestIsSpecific(Prolog(), Present(Prolog(), Fields(r)), r.specific);
  }

  lemma ReadMerged(r: Report)
    requires r.specific.Valid() && Avoids(r.specific, Prolog())
    ensures Read(Merged(r)) == r
  {
    FieldKeys(r);
    FieldKeys(Read(Merged(r)));
    ReadKeepsSpecific(r);
    hide Prolog, Fields, Read, Merged, Avoids;
    forall k | k in Prolog() {
      MergedReads(r, k);
    }
    assert Fields(Read(Merged(r))) == Fields(r);
    AttributesDetermine(Read(Merged(r)), r);
  }

  /** `from_dict(to_dict(r)) == r`, for a report that `to_dict` serialises, exactly when its
      mandatory attributes are set and its type-specific keys avoid all ten prolog keys: an
      unset optional attribute does not make its key free to use. */
  lemma ReportRoundTrip(r: Report)
    requires r.specific.Valid() && Constructible(r) && ToDict(r).Some?
    ensures FromDict(ToDict(r).value) == Some(r) <==> Complete(r) && Avoids(r.specific, Prolog())
  {
    hide Prolog, Fields, Mandatory;
    var d := ToDict(r).value;
    FromDictReads(d);
    if Avoids(r.specific, Prolog()) {
      ReadMerged(r);
    } else {
      OthersMember(d.order, Prolog());
      assert Avoids(Read(d).specific, Prolog());
    }
  }

  /** For one: problemService is unset, and a type-specific parameter has its name. */
  function ClaimingReport(stamp: string): Report {
    Report(Str("https://dr"), Str("GISDiscrepancyReport"), Str(stamp), Str("1"), Str("agency"),
           Null, Arr([]), Null, Str("Minor"), Null, Dict(["problemService"], map["problemService" := Str("LVF")]))
  }

  lemma ClaimedKeyComesBackAsField(stamp: string)
    requires Timestamps.MatchesGrammar(stamp)
    ensures var r := ClaimingReport(stamp);
      && r.specific.Valid() && Constructible(r) && ToDict(r).Some?
      && FromDict(ToDict(r).value) != Some(r)
  {
    ClaimingReportSerialises(stamp);
    hide ClaimingReport, Constructible, ToDict, FromDict, Complete, Avoids;
    ReportRoundTrip(ClaimingReport(stamp));
  }

  lemma ClaimingReportSerialises(stamp: string)
    requires Timestamps.MatchesGrammar(stamp)
    ensures var r := ClaimingReport(stamp);
      r.specific.Valid() && Constructible(r) && ToDict(r).Some? && !Avoids(r.specific, Prolog())
  {
    var r := ClaimingReport(stamp);
    ClaimingReportConstructs(stamp);
    ClaimedKey();
    hide Constructible, Prolog, Merged;
    ClaimedIsUnset(r);
    hide Fields;
  }

  lemma ClaimedKey()
    ensures "problemService" in Prolog()
    ensures var d: Wire := Dict(["problemService"], map["problemService" := Str("LVF")]);
      d.Valid() && forall k :: k in d.order <==> k == "problemService"
  {
    assert Prolog()[7] == "problemService";
  }

  lemma ClaimedIsUnset(r: Report)
    requires r.problemService == Null && forall k :: k in r.specific.order ==> k == "problemService"
    ensures !Collides(r)
  {
    FieldsAt(r);
    hide Fields, Prolog;
  }

  lemma ClaimingReportConstructs(stamp: string)
    requires Timestamps.MatchesGrammar(stamp)
    ensures Constructible(ClaimingReport(stamp))
  {
    hide Timestamps.MatchesGrammar;
  }

  /** Every object that `from_dict` accepts serialises again, to itself without the optional
      prolog keys that were null. */
  lemma WireRoundTrip(d: Wire)
    requires d.Valid() && FromDict(d).Some?
    ensures var again := ToDict(FromDict(d).value);
      && again.Some?
      && again.value.at == map k | k in d.at && !(k in Optional() && d.at[k] == Null) :: d.at[k]
  {
    hide Prolog, Optional, Mandatory, Fields, Merged, Read;
    ReadSerialises(d);
    forall k {
      SurvivesRoundTrip(d, k);
    }
  }

  lemma ReadSerialises(d: Wire)
    requires d.Valid() && HasAll(d, Mandatory())
    ensures ToDict(Read(d)) == Some(Merged(Read(d)))
  {
    WithoutKeys(d, Prolog());
    ReadAt(d, "discrepancyReportSubmittalTimeStamp");
    assert d.at["discrepancyReportSubmittalTimeStamp"] != Null;
    hide Prolog, Mandatory, Fields, Without, Merged;
  }

  lemma SurvivesRoundTrip(d: Wire, k: string)
    requires d.Valid() && HasAll(d, Mandatory())
    ensures k in Merged(Read(d)).at <==> k in d.at && !(k in Optional() && d.at[k] == Null)
    ensures k in Merged(Read(d)).at ==> Merged(Read(d)).at[k] == d.at[k]
  {
    var r := Read(d);
    PrologHasNoDup();
    WithoutKeys(d, Prolog());
    FieldsAt(r);
    hide Prolog, Mandatory, Optional, Fields, Without, Merged;
    MergedAt(r, k);
    if k in Prolog() {
      ReadAt(d, k);
    }
  }

  lemma WithoutKeys(d: Wire, keys: seq<string>)
    requires d.Valid()
    ensures Without(d, keys).Valid() && Avoids(Without(d, keys), keys)
    ensures forall k :: k in Without(d, keys).at <==> k in d.at && k !in keys
    ensures forall k :: k in Without(d, keys).at ==> Without(d, keys).at[k] == d.at[k]
  {
    OthersMember(d.order, keys);
    OthersNoDup(d.order, keys);
  }

  lemma OthersNoDup(order: seq<string>, keys: seq<string>)
    requires NoDup(order)
    ensures NoDup(Others(order, keys))
  {
    if order != [] {
      assert forall j :: 0 <= j < |order[1..]| ==> order[1..][j] == order[j + 1] != order[0];
      assert NoDup(order[1..]);
      OthersNoDup(order[1..], keys);
      OthersMember(order[1..], keys);
    }
  }

  // ---------------------------------------------------------------- DiscrepancyResolution

  datatype Resolution = Resolution(
    respondingAgency: Value,
    respondingJcard: Value,
    respondingAgent: Value,
    reportId: Value,
    reportingAgency: Value,
    problemService: Value,
    responseTime: Value,
    comments: Value,
    resolution: Value)

  function ResolutionKeys(): seq<string> {
    ["respondingAgencyName", "respondingContactJcard", "respondingAgentId", "discrepancyReportId",
     "reportingAgencyName", "problemService", "responseTime", "responseComments", "resolution"]
  }

  function ResolutionMandatory(): seq<string> {
    ["respondingAgencyName", "respondingContactJcard", "discrepancyReportId", "reportingAgencyName",
     "problemService", "responseTime", "resolution"]
  }

  function ResolutionFields(x: Resolution): map<string, Value> {
    map[
      "respondingAgencyName" := x.respondingAgency,
      "respondingContactJcard" := x.respondingJcard,
      "respondingAgentId" := x.respondingAgent,
      "discrepancyReportId" := x.reportId,
      "reportingAgencyName" := x.reportingAgency,
      "problemService" := x.problemService,
      "responseTime" := x.responseTime,
      "responseComments" := x.comments,
      "resolution" := x.resolution
    ]
  }

  /** `DiscrepancyResolution.to_dict` */
  function ResolutionToDict(x: Resolution): Wire {
    ResolutionFieldsAt(x);
    Present(ResolutionKeys(), ResolutionFields(x))
  }

  function ReadResolution(d: Wire): Resolution {
    Resolution(
      Get(d, "respondingAgencyName", Null), Get(d, "respondingContactJcard", Null),
      Get(d, "respondingAgentId", Null), Get(d, "discrepancyReportId", Null),
      Get(d, "reportingAgencyName", Null), Get(d, "problemService", Null),
      Get(d, "responseTime", Null), Get(d, "responseComments", Null), Get(d, "resolution", Null))
  }

  /** `DiscrepancyResolution.from_dict`, None standing for ValueError. */
  function ResolutionFromDict(d: Wire): Option<Resolution> {
    if HasAll(d, ResolutionMandatory()) then Some(ReadResolution(d)) else None
  }

  predicate ResolutionComplete(x: Resolution) {
    AllSet(ResolutionFields(x), ResolutionMandatory())
  }

  lemma ResolutionFieldsAt(x: Resolution)
    ensures forall k :: k in ResolutionFields(x) <==> k in ResolutionKeys()
    ensures forall k :: k in ResolutionMandatory() ==> k in ResolutionKeys()
    ensures var f := ResolutionFields(x);
      && f["respondingAgencyName"] == x.respondingAgency
      && f["respondingContactJcard"] == x.respondingJcard
      && f["respondingAgentId"] == x.respondingAgent
      && f["discrepancyReportId"] == x.reportId
      && f["reportingAgencyName"] == x.reportingAgency
      && f["problemService"] == x.problemService
      && f["responseTime"] == x.responseTime
      && f["responseComments"] == x.comments
      && f["resolution"] == x.resolution
  {
  }

  lemma ResolutionFieldKeys(x: Resolution)
    ensures forall k :: k in ResolutionFields(x) <==> k in ResolutionKeys()
    ensures forall k :: k in ResolutionMandatory() ==> k in ResolutionKeys()
  {
    ResolutionFieldsAt(x);
  }

  lemma ReadResolutionAt(d: Wire, k: string)
    requires k in ResolutionKeys()
    ensures k in ResolutionFields(ReadResolution(d)) && ResolutionFields(ReadResolution(d))[k] == Get(d, k, Null)
  {
    ResolutionFieldsAt(ReadResolution(d));
    hide ResolutionFields, Get;
  }

  lemma ResolutionFromDictReads(d: Wire)
    ensures ResolutionFromDict(d)
            == if ResolutionComplete(ReadResolution(d)) then Some(ReadResolution(d)) else None
  {
    var x := ReadResolution(d);
    ResolutionFieldKeys(x);
    hide ResolutionKeys, ResolutionMandatory, ResolutionFields, ReadResolution;
    forall k | k in ResolutionMandatory() ensures ResolutionFields(x)[k] == Get(d, k, Null) {
      ReadResolutionAt(d, k);
    }
    assert HasAll(d, ResolutionMandatory())
      <==> forall k :: k in ResolutionMandatory() ==> Get(d, k, Null) != Null;
  }

  /** Which objects are read as resolutions, with the names written out. */
  lemma AcceptedResolutions(d: Wire)
    ensures ResolutionFromDict(d).Some? <==>
      && Get(d, "respondingAgencyName", Null) != Null && Get(d, "respondingContactJcard", Null) != Null
      && Get(d, "discrepancyReportId", Null) != Null && Get(d, "reportingAgencyName", Null) != Null
      && Get(d, "problemService", Null) != Null && Get(d, "responseTime", Null) != Null
      && Get(d, "resolution", Null) != Null
  {
    var keys := ResolutionMandatory();
    assert forall i :: 0 <= i < 7 ==> keys[i] in keys;
    if HasAll(d, keys) {
      assert keys[0] in d.at && keys[1] in d.at && keys[2] in d.at && keys[3] in d.at && keys[4] in d.at
        && keys[5] in d.at && keys[6] in d.at;
    }
  }

  /** A resolution reads back as itself, or, with a mandatory attribute unset, not at all. */
  lemma ResolutionRoundTrip(x: Resolution)
    ensures ResolutionFromDict(ResolutionToDict(x)) == if ResolutionComplete(x) then Some(x) else None
  {
    var d := ResolutionToDict(x);
    var y := ReadResolution(d);
    ResolutionFromDictReads(d);
    ResolutionFieldKeys(x);
    ResolutionFieldKeys(y);
    hide ResolutionKeys, ResolutionMandatory, ResolutionFields, ReadResolution;
    forall k | k in ResolutionKeys() ensures ResolutionFields(y)[k] == ResolutionFields(x)[k] {
      ReadResolutionAt(d, k);
      PresentAt(ResolutionKeys(), ResolutionFields(x), k);
    }
    assert ResolutionFields(y) == ResolutionFields(x);
    ResolutionAttributesDetermine(x, y);
  }

  lemma ResolutionAttributesDetermine(x: Resolution, y: Resolution)
    requires ResolutionFields(x) == ResolutionFields(y)
    ensures x == y
  {
    ResolutionFieldsAt(x);
    ResolutionFieldsAt(y);
    hide ResolutionFields;
  }

  /** Every object that is read as a resolution serialises to its known keys that were not
      null; unknown keys are dropped, unlike those of a report. */
  lemma ResolutionWireRoundTrip(d: Wire)
    requires ResolutionFromDict(d).Some?
    ensures ResolutionToDict(ResolutionFromDict(d).value).at
            == map k | k in d.at && k in ResolutionKeys() && d.at[k] != Null :: d.at[k]
  {
    var x := ReadResolution(d);
    ResolutionFieldKeys(x);
    hide ResolutionKeys, ResolutionMandatory, ResolutionFields, ReadResolution;
    forall k | k in ResolutionKeys() ensures ResolutionFields(x)[k] == Get(d, k, Null) {
      ReadResolutionAt(d, k);
    }
  }
}
