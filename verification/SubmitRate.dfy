/** The rate limit on similar reports, over runs of `submit` calls that do not overlap. */
module SubmitRate {
  import opened Discrepancy
  import opened DrModels
  import opened Json
  import opened Prelude

  /** `response` is what comes back over HTTP, None for a transport failure. */
  datatype Call = Call(report: Report, uri: string, force: bool, now: int, stamp: string,
                       response: Option<(nat, Option<Wire>)>)

  datatype Outcome = RateLimited | Raises | TransportError | Responded(status: nat)

  /** One whole call. */
  function Submit(cfg: Config, s: State, c: Call): (State, Outcome) {
    match SubmitBegin(cfg, s, c.report, c.uri, c.force, c.now, c.stamp)
    case Failed => (s, Raises)
    case Suppressed => (s, RateLimited)
    case Posting(stamped, _, _) =>
      if c.response.None? then (s, TransportError)
      else (SubmitEnd(s, stamped, c.uri, c.now, c.response.value.0, c.response.value.1), Responded(c.response.value.0))
  }

  function After(cfg: Config, s: State, calls: seq<Call>): State {
    if calls == [] then s else Submit(cfg, After(cfg, s, calls[..|calls| - 1]), calls[|calls| - 1]).0
  }

  /** What call `k` of the run comes to. */
  function OutcomeOf(cfg: Config, s: State, calls: seq<Call>, k: nat): Outcome
    requires k < |calls|
  {
    Submit(cfg, After(cfg, s, calls[..k]), calls[k]).1
  }

  ghost predicate Monotone(calls: seq<Call>) {
    forall i, j :: 0 <= i < j < |calls| ==> calls[i].now <= calls[j].now
  }

  /** Call `j` was answered, and was similar to `key`. */
  ghost predicate Sent(cfg: Config, s: State, calls: seq<Call>, j: nat, key: Similarity)
    requires j < |calls|
  {
    && OutcomeOf(cfg, s, calls, j).Responded?
    && key == Similarity(calls[j].report.reportType, calls[j].report.problemService, ProblemOf(calls[j].report))
  }

  /** `sent` holds for `key` the time of the latest answered call similar to it. */
  ghost predicate Tracks(cfg: Config, s: State, calls: seq<Call>, key: Similarity, sent: map<Similarity, int>) {
    && (key in sent ==> exists j :: 0 <= j < |calls| && Sent(cfg, s, calls, j, key) && sent[key] == calls[j].now)
    && (forall j :: 0 <= j < |calls| && Sent(cfg, s, calls, j, key) ==> key in sent && calls[j].now <= sent[key])
  }

  lemma LastSendIsLatest(cfg: Config, s: State, calls: seq<Call>, key: Similarity)
    requires s.lastSend == map[] && Monotone(calls)
    ensures Tracks(cfg, s, calls, key, After(cfg, s, calls).lastSend)
  {
    if calls != [] {
      var n := |calls| - 1;
      var front := calls[..n];
      LastSendIsLatest(cfg, s, front, key);
      var was := After(cfg, s, front);
      LastSendAfter(cfg, was, calls[n], key);
      assert Sent(cfg, s, calls, n, key)
        <==> Submit(cfg, was, calls[n]).1.Responded? && SimilarityOf(calls[n].report) == key by {
        SimilarIff(calls[n].report, calls[n].report);
      }
      hide SubmitBegin, Submit, Sent;
      forall j | 0 <= j < n ensures Sent(cfg, s, calls, j, key) == Sent(cfg, s, front, j, key) {
        PrefixKeepsSent(cfg, s, calls, n, j, key);
      }
      TracksNext(cfg, s, calls, key, was.lastSend, After(cfg, s, calls).lastSend);
    }
  }

  lemma PrefixKeepsSent(cfg: Config, s: State, calls: seq<Call>, n: nat, j: nat, key: Similarity)
    requires j < n <= |calls|
    ensures Sent(cfg, s, calls, j, key) == Sent(cfg, s, calls[..n], j, key)
  {
    assert calls[..n][..j] == calls[..j];
    hide Submit;
  }

  lemma TracksNext(cfg: Config, s: State, calls: seq<Call>, key: Similarity,
                   was: map<Similarity, int>, sent: map<Similarity, int>)
    requires calls != [] && Monotone(calls)
    requires Tracks(cfg, s, calls[..|calls| - 1], key, was)
    requires forall j :: 0 <= j < |calls| - 1
               ==> Sent(cfg, s, calls, j, key) == Sent(cfg, s, calls[..|calls| - 1], j, key)
    requires var n := |calls| - 1;
      if Sent(cfg, s, calls, n, key) then key in sent && sent[key] == calls[n].now
      else (key in sent <==> key in was) && (key in was ==> sent[key] == was[key])
    ensures Tracks(cfg, s, calls, key, sent)
  {
    hide Sent;
    var n := |calls| - 1;
    if !Sent(cfg, s, calls, n, key) && key in was {
      var j :| 0 <= j < n && Sent(cfg, s, calls[..n], j, key) && was[key] == calls[..n][j].now;
      assert Sent(cfg, s, calls, j, key);
    }
    forall j | 0 <= j < |calls| && Sent(cfg, s, calls, j, key) ensures key in sent && calls[j].now <= sent[key] {
      if j < n {
        assert Sent(cfg, s, calls[..n], j, key);
      }
    }
  }

  lemma LastSendAfter(cfg: Config, s: State, c: Call, key: Similarity)
    ensures var (t, outcome) := Submit(cfg, s, c);
      t.lastSend == if outcome.Responded? then s.lastSend[SimilarityOf(c.report) := c.now] else s.lastSend
  {
  }

  /** Call `j` got an HTTP response, started less than the interval before call `k`, and
      reported the same problem of the same service in a report of the same type. */
  ghost predicate Precludes(cfg: Config, s: State, calls: seq<Call>, j: nat, k: nat)
    requires j < k < |calls|
  {
    var q, r := calls[j].report, calls[k].report;
    && OutcomeOf(cfg, s, calls, j).Responded?
    && calls[k].now - calls[j].now < cfg.minSimilarInterval
    && q.reportType == r.reportType && q.problemService == r.problemService && ProblemOf(q) == ProblemOf(r)
  }

  lemma PrecludesIff(cfg: Config, s: State, calls: seq<Call>, j: nat, k: nat)
    requires j < k < |calls|
    ensures Precludes(cfg, s, calls, j, k) <==>
      Sent(cfg, s, calls, j, SimilarityOf(calls[k].report)) && calls[k].now - calls[j].now < cfg.minSimilarInterval
    ensures Precludes(cfg, s, calls, j, k) ==> HashableKey(SimilarityOf(calls[k].report))
  {
    SimilarIff(calls[j].report, calls[k].report);
    SimilarIff(calls[k].report, calls[k].report);
    SuppressedByKey(cfg, After(cfg, s, calls[..j]), calls[j], SimilarityOf(calls[j].report));
    hide Submit, After, ProblemOf, HashableKey, SimilarityOf;
  }

  /** The limit is exact: a call is suppressed if and only if it is not forced and some earlier
      call, forced or not, precludes it. Transport failures and other reports never matter. */
  lemma SuppressedExactly(cfg: Config, s: State, calls: seq<Call>, k: nat)
    requires s.lastSend == map[] && Monotone(calls) && k < |calls|
    ensures OutcomeOf(cfg, s, calls, k) == RateLimited
      <==> !calls[k].force && exists j :: 0 <= j < k && Precludes(cfg, s, calls, j, k)
  {
    var key := SimilarityOf(calls[k].report);
    var front := calls[..k];
    LastSendIsLatest(cfg, s, front, key);
    SuppressedByKey(cfg, After(cfg, s, front), calls[k], key);
    hide Submit, After, Precludes, Sent, HashableKey, SimilarityOf;
    forall j | 0 <= j < k
      ensures Sent(cfg, s, calls, j, key) == Sent(cfg, s, front, j, key)
      ensures Precludes(cfg, s, calls, j, k) <==>
        Sent(cfg, s, front, j, key) && calls[k].now - front[j].now < cfg.minSimilarInterval
      ensures Precludes(cfg, s, calls, j, k) ==> HashableKey(key)
    {
      PrefixKeepsSent(cfg, s, calls, k, j, key);
      PrecludesIff(cfg, s, calls, j, k);
    }
  }

  /** What a call does, going by the state it starts in. */
  lemma SuppressedByKey(cfg: Config, s: State, c: Call, key: Similarity)
    requires key == SimilarityOf(c.report)
    ensures Submit(cfg, s, c).1 == RateLimited
      ==> !c.force && key in s.lastSend && c.now - s.lastSend[key] < cfg.minSimilarInterval
    ensures HashableKey(key) && !c.force && key in s.lastSend && c.now - s.lastSend[key] < cfg.minSimilarInterval
      ==> Submit(cfg, s, c).1 == RateLimited
    ensures Submit(cfg, s, c).1.Responded? ==> HashableKey(key)
  {
  }
}
