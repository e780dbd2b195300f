/**
 * A sweep over a list of urls (`check_urls`, `scheduled_url_check`) as
 * values: the ordered results, the records it logs, and the summary
 * `check_urls` derives from the results.
 */
module Report {
  import opened Probe
  import opened History

  /** The results of probing urls[i] with ins[i], in url order. */
  function SweepResults(urls: seq<string>, ins: seq<ProbeInput>): (rs: seq<CheckResult>)
    requires |urls| == |ins|
    ensures |rs| == |urls|
    decreases |urls|
  {
    if urls == [] then []
    else
      var n := |urls| - 1;
      SweepResults(urls[..n], ins[..n]) + [Classify(urls[n], ins[n].outcome, ins[n].elapsed, ins[n].checkedAt)]
  }

  /** The history records a sweep logs, one per url, in url order. */
  function SweepEntries(urls: seq<string>, ins: seq<ProbeInput>): (es: seq<HistoryEntry>)
    requires |urls| == |ins|
    ensures |es| == |urls|
    decreases |urls|
  {
    if urls == [] then []
    else
      var n := |urls| - 1;
      SweepEntries(urls[..n], ins[..n])
        + [ToEntry(Classify(urls[n], ins[n].outcome, ins[n].elapsed, ins[n].checkedAt), ins[n].loggedAt)]
  }

  /**
   * A sweep yields one result per url, in url order: result i is the
   * classification of url i's probe, and record i is what that result logs.
   */
  lemma {:induction false} SweepAt(urls: seq<string>, ins: seq<ProbeInput>, i: nat)
    requires |urls| == |ins| && i < |urls|
    ensures var r := Classify(urls[i], ins[i].outcome, ins[i].elapsed, ins[i].checkedAt);
      && SweepResults(urls, ins)[i] == r
      && SweepEntries(urls, ins)[i] == ToEntry(r, ins[i].loggedAt)
    decreases |urls|
  {
    var n := |urls| - 1;
    if i < n {
      SweepAt(urls[..n], ins[..n], i);
    }
  }

  /** Probing one more url adds its result and its record at the end. */
  lemma SweepStep(urls: seq<string>, ins: seq<ProbeInput>, i: nat)
    requires |urls| == |ins| && i < |urls|
    ensures var r := Classify(urls[i], ins[i].outcome, ins[i].elapsed, ins[i].checkedAt);
      && SweepResults(urls[..i + 1], ins[..i + 1]) == SweepResults(urls[..i], ins[..i]) + [r]
      && SweepEntries(urls[..i + 1], ins[..i + 1]) == SweepEntries(urls[..i], ins[..i]) + [ToEntry(r, ins[i].loggedAt)]
  {
    assert urls[..i + 1][..i] == urls[..i] && ins[..i + 1][..i] == ins[..i];
  }

  /** The number of results with `success` true. */
  function CountSuccesses(rs: seq<CheckResult>): (k: nat)
    ensures k <= |rs|
    decreases |rs|
  {
    if rs == [] then 0
    else CountSuccesses(rs[..|rs| - 1]) + (if rs[|rs| - 1].success then 1 else 0)
  }

  /** One more result adds one to the count exactly when it succeeded. */
  lemma CountSuccessesAppend(rs: seq<CheckResult>, r: CheckResult)
    ensures CountSuccesses(rs + [r]) == CountSuccesses(rs) + (if r.success then 1 else 0)
  {
    assert (rs + [r])[..|rs|] == rs;
  }

  /** Every result succeeded exactly when all of them count. */
  lemma {:induction false} CountSuccessesAll(rs: seq<CheckResult>)
    ensures CountSuccesses(rs) == |rs| <==> forall i :: 0 <= i < |rs| ==> rs[i].success
    decreases |rs|
  {
    if rs != [] {
      var n := |rs| - 1;
      CountSuccessesAll(rs[..n]);
      assert forall i :: 0 <= i < n ==> rs[..n][i] == rs[i];
    }
  }

  /** No result succeeded exactly when none of them count. */
  lemma {:induction false} CountSuccessesNone(rs: seq<CheckResult>)
    ensures CountSuccesses(rs) == 0 <==> forall i :: 0 <= i < |rs| ==> !rs[i].success
    decreases |rs|
  {
    if rs != [] {
      var n := |rs| - 1;
      CountSuccessesNone(rs[..n]);
      assert forall i :: 0 <= i < n ==> rs[..n][i] == rs[i];
    }
  }

  /** The `summary` object of `/api/check`, with the uptime as an exact rational. */
  datatype Summary = Summary(totalUrlsChecked: nat, successful: nat, failed: int, uptimePercentage: real)

  /** The response of `/api/check`: its timestamp, summary and ordered results. */
  datatype SweepReport = SweepReport(timestamp: string, summary: Summary, results: seq<CheckResult>)

  /** The uptime percentage: successful * 100 / total, or 0 when nothing was checked. */
  function Uptime(successful: nat, total: nat): (u: real)
    ensures total == 0 || successful == 0 ==> u == 0.0
  {
    if total > 0 then (successful as real / total as real) * 100.0 else 0.0
  }

  /**
   * A percentage of at most all: between 0 and 100, successful * 100 / total
   * exactly, 100 only when all succeeded and 0 only when none did.
   */
  lemma UptimeBounds(successful: nat, total: nat)
    requires successful <= total
    ensures var u := Uptime(successful, total);
      && 0.0 <= u <= 100.0
      && (total > 0 ==> u * total as real == successful as real * 100.0)
      && (total == 0 ==> u == 0.0)
      && (u == 100.0 <==> total > 0 && successful == total)
      && (u == 0.0 <==> successful == 0)
  {
    if total > 0 {
      var q := successful as real / total as real;
      assert q * total as real == successful as real;
    }
  }

  /** The summary of a sweep's results. */
  function Summarize(rs: seq<CheckResult>): (s: Summary)
    ensures s.totalUrlsChecked == |rs|
    ensures s.failed >= 0 && s.successful + s.failed == s.totalUrlsChecked
  {
    var total := |rs|;
    var successful := CountSuccesses(rs);
    Summary(total, successful, total - successful, Uptime(successful, total))
  }

  /** The summary of results whose success count is already known. */
  lemma SummarizeWithCount(rs: seq<CheckResult>, successful: nat)
    requires successful == CountSuccesses(rs)
    ensures Summarize(rs) == Summary(|rs|, successful, |rs| - successful, Uptime(successful, |rs|))
  {
  }

  /**
   * The summary counts every result once, as successful or failed, and its
   * uptime is the percentage of successes (see UptimeBounds), so between 0
   * and 100.
   */
  lemma SummarizeConsistent(rs: seq<CheckResult>)
    ensures var s := Summarize(rs);
      && s.totalUrlsChecked == |rs|
      && s.successful == CountSuccesses(rs) <= s.totalUrlsChecked
      && s.failed >= 0 && s.successful + s.failed == s.totalUrlsChecked
      && s.uptimePercentage == Uptime(s.successful, s.totalUrlsChecked)
      && 0.0 <= s.uptimePercentage <= 100.0
  {
    UptimeBounds(CountSuccesses(rs), |rs|);
  }

  /** The uptime is 100 exactly when something was checked and every check succeeded. */
  lemma UptimeFull(rs: seq<CheckResult>)
    ensures Summarize(rs).uptimePercentage == 100.0 <==>
      |rs| > 0 && forall i :: 0 <= i < |rs| ==> rs[i].success
  {
    CountSuccessesAll(rs);
    SummarizeConsistent(rs);
    UptimeBounds(CountSuccesses(rs), |rs|);
  }

  /** The uptime is 0 exactly when nothing succeeded (or nothing was checked). */
  lemma UptimeZero(rs: seq<CheckResult>)
    ensures Summarize(rs).uptimePercentage == 0.0 <==> forall i :: 0 <= i < |rs| ==> !rs[i].success
  {
    CountSuccessesNone(rs);
    SummarizeConsistent(rs);
    UptimeBounds(CountSuccesses(rs), |rs|);
  }

  /**
   * Three targets where the first answers 200, the second 500 and the third
   * times out: one up, two down, uptime 100/3, results in the given order.
   */
  lemma ThreeTargetSweep(a: string, b: string, c: string, t: real, when: string)
    ensures var ins := [
        ProbeInput(Response(200), t, when, when),
        ProbeInput(Response(500), t, when, when),
        ProbeInput(RequestFailure("Timeout", "timed out"), t, when, when)];
      var rs := SweepResults([a, b, c], ins);
      && Summarize(rs) == Summary(3, 1, 2, 100.0 / 3.0)
      && rs[0].url == a && rs[0].statusCode == 200 && rs[0].success && rs[0].message == "UP"
      && rs[1].url == b && rs[1].statusCode == 500 && !rs[1].success && rs[1].message == "DOWN"
      && rs[2].url == c && rs[2].statusCode == 0 && !rs[2].success && rs[2].message == "Error: Timeout"
  {
    var ins := [
      ProbeInput(Response(200), t, when, when),
      ProbeInput(Response(500), t, when, when),
      ProbeInput(RequestFailure("Timeout", "timed out"), t, when, when)];
    var rs := SweepResults([a, b, c], ins);
    SweepAt([a, b, c], ins, 0);
    SweepAt([a, b, c], ins, 1);
    SweepAt([a, b, c], ins, 2);
    assert rs[0].success && !rs[1].success && !rs[2].success;
    assert CountSuccesses(rs[..1]) == 1 by {
      assert rs[..1][..0] == [];
    }
    assert CountSuccesses(rs[..2]) == 1 by {
      assert rs[..2][..1] == rs[..1];
    }
    assert CountSuccesses(rs) == 1;
  }
}
