/**
 * The process-wide state of the checker and the operations that change it.
 * The module globals of app.py (the four metric objects, left as None until
 * `initialize_metrics` creates them, and the `recent_checks` list) become the
 * fields of one UrlMonitor object.
 */
module Monitor {
  import opened Probe
  import opened History
  import opened Metrics
  import opened Report
  import Decimal
  import Registry

  /**
   * One iteration of a sweep: probing url i after urls[..i] extends the
   * metrics, the log and the success count by that one probe.
   */
  lemma SweepAdvance(m0: Snapshot, h0: seq<HistoryEntry>, urls: seq<string>, ins: seq<ProbeInput>, i: nat,
                     m: Snapshot, h: seq<HistoryEntry>, result: CheckResult)
    requires |urls| == |ins| && i < |urls|
    requires result == Classify(urls[i], ins[i].outcome, ins[i].elapsed, ins[i].checkedAt)
    requires m == Record(RecordAll(m0, urls[..i], ins[..i]), urls[i], ins[i].outcome, ins[i].elapsed)
    requires h == h0 + SweepEntries(urls[..i], ins[..i]) + [ToEntry(result, ins[i].loggedAt)]
    ensures m == RecordAll(m0, urls[..i + 1], ins[..i + 1])
    ensures h == h0 + SweepEntries(urls[..i + 1], ins[..i + 1])
    ensures CountSuccesses(SweepResults(urls[..i + 1], ins[..i + 1]))
         == CountSuccesses(SweepResults(urls[..i], ins[..i])) + (if result.success then 1 else 0)
  {
    RecordAllStep(m0, urls, ins, i);
    SweepStep(urls, ins, i);
    AppendAssociative(h0, SweepEntries(urls[..i], ins[..i]), [ToEntry(result, ins[i].loggedAt)]);
    CountSuccessesAppend(SweepResults(urls[..i], ins[..i]), result);
  }

  class UrlMonitor {
    /** `URLS_TO_MONITOR`, the urls every sweep probes, in order. */
    const urlsToMonitor: seq<string>
    /** False while `URL_CHECK_COUNTER` (and with it the other three metrics) is None. */
    var initialized: bool
    var counter: map<CounterKey, nat>
    var responseTimes: map<string, seq<real>>
    var statusGauge: map<string, int>
    var upGauge: map<string, int>
    /** `recent_checks`, oldest first. */
    var recentChecks: seq<HistoryEntry>
    /** Every record ever logged, oldest first; the buffer is its last `Capacity` entries. */
    ghost var allChecks: seq<HistoryEntry>

    ghost predicate Valid()
      reads this
    {
      && (!initialized ==> MetricsView() == Empty)
      && recentChecks == LastN(allChecks, Capacity)
    }

    /** The four metrics as one value. */
    function MetricsView(): Snapshot
      reads this`counter, this`responseTimes, this`statusGauge, this`upGauge
    {
      Snapshot(counter, responseTimes, statusGauge, upGauge)
    }

    /** The state when app.py has been loaded: metrics None, no history. */
    constructor ()
      ensures Valid() && !initialized && urlsToMonitor == Registry.UrlsToMonitor
      ensures MetricsView() == Empty && recentChecks == [] && allChecks == []
    {
      urlsToMonitor := Registry.UrlsToMonitor;
      initialized := false;
      counter, responseTimes, statusGauge, upGauge := map[], map[], map[], map[];
      recentChecks, allChecks := [], [];
    }

    /**
     * `initialize_metrics`: creates the metrics only while they do not exist,
     * so a second call changes nothing.
     */
    method InitializeMetrics()
      requires Valid()
      modifies this`initialized, this`counter, this`responseTimes, this`statusGauge, this`upGauge
      ensures Valid() && initialized
      ensures MetricsView() == old(MetricsView())
      ensures old(initialized) ==> unchanged(this)
    {
      if !initialized {
        counter, responseTimes, statusGauge, upGauge := map[], map[], map[], map[];
        initialized := true;
      }
    }

    /**
     * `add_to_recent_checks`: logs the result's record, stamped `loggedAt`,
     * and keeps only the newest `Capacity` records.
     */
    method AddToRecentChecks(result: CheckResult, loggedAt: string)
      requires Valid()
      modifies this`recentChecks, this`allChecks
      ensures Valid()
      ensures allChecks == old(allChecks) + [ToEntry(result, loggedAt)]
      ensures recentChecks == LastN(old(recentChecks) + [ToEntry(result, loggedAt)], Capacity)
      ensures |recentChecks| <= Capacity && recentChecks[|recentChecks| - 1] == ToEntry(result, loggedAt)
    {
      var entry := HistoryEntry(loggedAt, result.url, result.statusCode, result.responseTime,
                                result.success, result.message);
      var buffer := recentChecks + [entry];
      if |buffer| > Capacity {
        buffer := buffer[|buffer| - Capacity..];
      }
      assert buffer == LastN(recentChecks + [entry], Capacity);
      LastNAppend(allChecks, [entry], Capacity);
      LastNKeepsNewest(recentChecks, entry, Capacity);
      recentChecks := buffer;
      allChecks := allChecks + [entry];
    }

    /**
     * `check_single_url`: one probe of `url`, whose request outcome and clock
     * readings are `input`. Updates the four metrics and the history and
     * returns the result.
     */
    method CheckSingleUrl(url: string, input: ProbeInput) returns (result: CheckResult)
      requires Valid()
      modifies this
      ensures Valid() && initialized
      ensures result == Classify(url, input.outcome, input.elapsed, input.checkedAt)
      ensures MetricsView() == Record(old(MetricsView()), url, input.outcome, input.elapsed)
      ensures allChecks == old(allChecks) + [ToEntry(result, input.loggedAt)]
    {
      InitializeMetrics();
      var elapsed := input.elapsed;
      match input.outcome {
        case Response(code) =>
          counter := Increment(counter, CounterKey(url, Decimal.IntToString(code)));
          responseTimes := Observe(responseTimes, url, elapsed);
          statusGauge := statusGauge[url := code];
          var isUp := if 200 <= code < 400 then 1 else 0;
          upGauge := upGauge[url := isUp];
          result := CheckResult(url, code, elapsed, input.checkedAt, isUp == 1,
                                if isUp == 1 then "UP" else "DOWN", None);
        case RequestFailure(kind, detail) =>
          counter := Increment(counter, CounterKey(url, "error"));
          responseTimes := Observe(responseTimes, url, elapsed);
          statusGauge := statusGauge[url := 0];
          upGauge := upGauge[url := 0];
          result := CheckResult(url, 0, elapsed, input.checkedAt, false, "Error: " + kind, Some(detail));
      }
      AddToRecentChecks(result, input.loggedAt);
    }

    /**
     * `check_urls` (`/api/check`): probes every monitored url in registry
     * order, url i with ins[i], and reports the ordered results with their
     * summary, stamped `now`.
     */
    method CheckUrls(ins: seq<ProbeInput>, now: string) returns (report: SweepReport)
      requires Valid() && |ins| == |urlsToMonitor|
      modifies this
      ensures Valid()
      ensures report.timestamp == now
      ensures report.results == SweepResults(urlsToMonitor, ins)
      ensures report.summary == Summarize(report.results)
      ensures MetricsView() == RecordAll(old(MetricsView()), urlsToMonitor, ins)
      ensures allChecks == old(allChecks) + SweepEntries(urlsToMonitor, ins)
      ensures initialized == (old(initialized) || |urlsToMonitor| > 0)
    {
      var urls := urlsToMonitor;
      ghost var m0, h0, wasInitialized := MetricsView(), allChecks, initialized;
      var results: seq<CheckResult> := [];
      var total := |urls|;
      var successful := 0;
      for i := 0 to |urls|
        invariant initialized == (wasInitialized || i > 0)
        invariant Valid()
        invariant results == SweepResults(urls[..i], ins[..i])
        invariant successful == CountSuccesses(results)
        invariant MetricsView() == RecordAll(m0, urls[..i], ins[..i])
        invariant allChecks == h0 + SweepEntries(urls[..i], ins[..i])
      {
        var result := CheckSingleUrl(urls[i], ins[i]);
        SweepAdvance(m0, h0, urls, ins, i, MetricsView(), allChecks, result);
        SweepStep(urls, ins, i);
        results := results + [result];
        if result.success {
          successful := successful + 1;
        }
      }
      TakeAll(urls);
      TakeAll(ins);
      var uptime := Uptime(successful, total);
      SummarizeWithCount(results, successful);
      report := SweepReport(now, Summary(total, successful, total - successful, uptime), results);
    }

    /**
     * The body of `scheduled_url_check`, run by the scheduler every two
     * minutes: the same sweep, which counts the successes but keeps no results.
     */
    method ScheduledUrlCheck(ins: seq<ProbeInput>) returns (successful: nat)
      requires Valid() && |ins| == |urlsToMonitor|
      modifies this
      ensures Valid()
      ensures successful == CountSuccesses(SweepResults(urlsToMonitor, ins))
      ensures MetricsView() == RecordAll(old(MetricsView()), urlsToMonitor, ins)
      ensures allChecks == old(allChecks) + SweepEntries(urlsToMonitor, ins)
      ensures initialized == (old(initialized) || |urlsToMonitor| > 0)
    {
      var urls := urlsToMonitor;
      ghost var m0, h0, wasInitialized := MetricsView(), allChecks, initialized;
      var count := 0;
      for i := 0 to |urls|
        invariant initialized == (wasInitialized || i > 0)
        invariant Valid()
        invariant count == CountSuccesses(SweepResults(urls[..i], ins[..i]))
        invariant MetricsView() == RecordAll(m0, urls[..i], ins[..i])
        invariant allChecks == h0 + SweepEntries(urls[..i], ins[..i])
      {
        var result := CheckSingleUrl(urls[i], ins[i]);
        SweepAdvance(m0, h0, urls, ins, i, MetricsView(), allChecks, result);
        if result.success {
          count := count + 1;
        }
      }
      TakeAll(urls);
      TakeAll(ins);
      successful := count;
    }

    /**
     * `get_history` (`/api/history`): the newest `Window` records and
     * `total_checks`, the length of the buffer, which is the number of
     * records ever logged while at most `Capacity` have been logged.
     */
    method GetHistory() returns (recent: seq<HistoryEntry>, totalChecks: nat)
      requires Valid()
      ensures recent == LastN(allChecks, Window)
      ensures |recent| == Min(Window, |allChecks|)
      ensures totalChecks == Min(Capacity, |allChecks|)
    {
      var start := if |recentChecks| > Window then |recentChecks| - Window else 0;
      recent := recentChecks[start..];
      totalChecks := |recentChecks|;
      LastNOfLastN(allChecks, Capacity, Window);
    }
  }
}
