/** The periodic NTP health check that owns an ElementState disruption. */
module NtpHealth {
  import opened Prelude
  import opened StateStore

  const DISRUPTED := ElementBundle(ServiceDisruption, "NTP drift exceeds \U{A7}2.2 ESInet threshold")
  const RECOVERED := ElementBundle(Normal, "")

  /** Check `u` was the last unhealthy one. */
  ghost predicate LastUnhealthy(checks: seq<bool>, u: int) {
    0 <= u < |checks| && !checks[u] && forall j :: u < j < |checks| ==> checks[j]
  }

  /** A debounce below one acts like one: the count is tested after it is raised. */
  function Needed(debounce: int): int {
    if debounce < 1 then 1 else debounce
  }

  /** The closed form of `ntp_owns_disruption` after the given checks. */
  ghost predicate Owns(checks: seq<bool>, autoRecover: bool, debounce: int) {
    exists u :: LastUnhealthy(checks, u) && (autoRecover ==> |checks| - 1 - u < Needed(debounce))
  }

  /** The closed form of what the last of the given checks writes. */
  ghost function Written(checks: seq<bool>, autoRecover: bool, debounce: int): Option<ElementBundle>
    requires checks != []
  {
    if !checks[|checks| - 1] then Some(DISRUPTED)
    else if autoRecover && exists u :: LastUnhealthy(checks, u) && |checks| - 1 - u == Needed(debounce)
    then Some(RECOVERED)
    else None
  }

  /** `_ntp_health_loop` over a finite history of checks; `writes[k]` is the state set at
      check `k`. The loop itself never ends, so what it does at every point of time is what
      this does for every history. */
  method HealthLoop(checks: seq<bool>, autoRecover: bool, debounce: int)
    returns (ownsDisruption: bool, writes: seq<Option<ElementBundle>>)
    ensures ownsDisruption == Owns(checks, autoRecover, debounce)
    ensures |writes| == |checks|
    ensures forall k :: 0 <= k < |checks| ==> writes[k] == Written(checks[..k + 1], autoRecover, debounce)
  {
    ownsDisruption, writes := false, [];
    var consecutiveHealthy := 0;
    ghost var last := -1;
    for i := 0 to |checks|
      invariant |writes| == i
      invariant forall k :: 0 <= k < i ==> writes[k] == Written(checks[..k + 1], autoRecover, debounce)
      invariant last == -1 ==> forall j :: 0 <= j < i ==> checks[j]
      invariant last != -1 ==> LastUnhealthy(checks[..i], last)
      invariant ownsDisruption == (last != -1 && (autoRecover ==> i - 1 - last < Needed(debounce)))
      invariant consecutiveHealthy == if autoRecover && ownsDisruption then i - 1 - last else 0
    {
      ghost var seen := checks[..i + 1];
      assert forall j :: 0 <= j < i ==> seen[j] == checks[..i][j];
      if !checks[i] {
        consecutiveHealthy := 0;
        writes := writes + [Some(DISRUPTED)];
        ownsDisruption := true;
        last := i;
      } else {
        assert last != -1 ==> LastUnhealthy(seen, last);
        OneLast(seen, last);
        if autoRecover && ownsDisruption {
          consecutiveHealthy := consecutiveHealthy + 1;
          if consecutiveHealthy >= debounce {
            writes := writes + [Some(RECOVERED)];
            ownsDisruption := false;
            consecutiveHealthy := 0;
          } else {
            writes := writes + [None];
          }
        } else {
          writes := writes + [None];
        }
      }
    }
    assert checks[..|checks|] == checks;
    OneLast(checks, last);
  }

  lemma OneLast(checks: seq<bool>, last: int)
    ensures LastUnhealthy(checks, last) ==> forall u :: LastUnhealthy(checks, u) ==> u == last
    ensures (forall j :: 0 <= j < |checks| ==> checks[j]) ==> forall u :: !LastUnhealthy(checks, u)
  {
  }

  /** Normal is written only by a loop that may recover and has itself seen an unhealthy
      check, and then after exactly the debounced number of healthy ones in a row. */
  lemma RecoveryIsEarned(checks: seq<bool>, autoRecover: bool, debounce: int)
    requires checks != [] && Written(checks, autoRecover, debounce) == Some(ElementBundle(Normal, ""))
    ensures autoRecover
    ensures var needed := if debounce < 1 then 1 else debounce;
      && |checks| > needed && !checks[|checks| - 1 - needed]
      && forall j :: |checks| - needed <= j < |checks| ==> checks[j]
    ensures !Owns(checks, autoRecover, debounce)
    ensures Owns(checks[..|checks| - 1], autoRecover, debounce)
  {
    var u :| LastUnhealthy(checks, u) && |checks| - 1 - u == Needed(debounce);
    OneLast(checks, u);
    assert LastUnhealthy(checks[..|checks| - 1], u);
  }

  /** The element state after the given checks, when nothing else writes it meanwhile. */
  ghost function StateAfter(before: ElementBundle, checks: seq<bool>, autoRecover: bool, debounce: int): ElementBundle {
    if checks == [] then before
    else
      match Written(checks, autoRecover, debounce)
      case Some(b) => b
      case None => StateAfter(before, checks[..|checks| - 1], autoRecover, debounce)
  }

  /** Whatever the state was before, so also a disruption that something else had set: it stays
      exactly as long as every check is healthy. From the first unhealthy one on the state is
      the loop's own disruption, with its reason, until the loop may recover and the debounced
      number of healthy checks have followed the last unhealthy one; then it is Normal. */
  lemma {:induction false} AnyStateIsTakenOver(before: ElementBundle, checks: seq<bool>, autoRecover: bool, debounce: int)
    ensures StateAfter(before, checks, autoRecover, debounce)
      == if forall j :: 0 <= j < |checks| ==> checks[j] then before
         else if exists u :: LastUnhealthy(checks, u)
                             && (autoRecover ==> |checks| - 1 - u < if debounce < 1 then 1 else debounce)
         then ElementBundle(ServiceDisruption, "NTP drift exceeds \U{A7}2.2 ESInet threshold")
         else ElementBundle(Normal, "")
  {
    if checks != [] {
      var n := |checks| - 1;
      var front := checks[..n];
      AnyStateIsTakenOver(before, front, autoRecover, debounce);
      if !checks[n] {
        assert LastUnhealthy(checks, n);
      } else if exists u :: LastUnhealthy(front, u) {
        var u :| LastUnhealthy(front, u);
        assert LastUnhealthy(checks, u);
        OneLast(front, u);
        OneLast(checks, u);
      } else {
        SomeLast(front);
        OneLast(checks, -1);
      }
    }
  }

  lemma {:induction false} SomeLast(checks: seq<bool>)
    ensures (exists u :: LastUnhealthy(checks, u)) <==> exists j :: 0 <= j < |checks| && !checks[j]
  {
    if checks != [] {
      var n := |checks| - 1;
      SomeLast(checks[..n]);
      if !checks[n] {
        assert LastUnhealthy(checks, n);
      } else if exists u :: LastUnhealthy(checks[..n], u) {
        var u :| LastUnhealthy(checks[..n], u);
        assert LastUnhealthy(checks, u);
      }
    }
  }

  /** For one: a disruption set by others, one unhealthy check and one healthy one. */
  lemma ForeignDisruptionIsCleared(reason: string)
    ensures StateAfter(ElementBundle(ServiceDisruption, reason), [false, true], true, 1) == ElementBundle(Normal, "")
  {
    AnyStateIsTakenOver(ElementBundle(ServiceDisruption, reason), [false, true], true, 1);
    assert ![false, true][0];
    assert LastUnhealthy([false, true], 0);
    OneLast([false, true], 0);
  }
}
