/**
 * The four labelled metrics every probe updates, as values:
 *   url_check_total{url, status_code}   a counter (CounterKey -> count)
 *   url_response_time_seconds{url}      a histogram, kept as its samples
 *   url_status_code{url}                a gauge
 *   url_up{url}                         a gauge, 1 or 0
 * A labelled child that was never touched is absent from its map.
 */
module Metrics {
  import opened Probe
  import Registry

  datatype CounterKey = CounterKey(url: string, statusCode: string)

  datatype Snapshot = Snapshot(
    counter: map<CounterKey, nat>,
    responseTimes: map<string, seq<real>>,
    statusGauge: map<string, int>,
    upGauge: map<string, int>)

  /** The metrics right after `initialize_metrics` creates them: no labelled children. */
  const Empty := Snapshot(map[], map[], map[], map[])

  /** The counter entry a probe of `url` with this outcome increments. */
  function KeyOf(url: string, outcome: Outcome): CounterKey {
    CounterKey(url, StatusLabel(outcome))
  }

  /** The value of a counter child; one never incremented reads 0. */
  function CountOf(counter: map<CounterKey, nat>, k: CounterKey): nat {
    if k in counter then counter[k] else 0
  }

  /** The samples a url's histogram child has observed; none if it was never touched. */
  function SamplesOf(responseTimes: map<string, seq<real>>, url: string): seq<real> {
    if url in responseTimes then responseTimes[url] else []
  }

  /** `.labels(...).inc()`: exactly one entry goes up by one. */
  function Increment(counter: map<CounterKey, nat>, k: CounterKey): (c: map<CounterKey, nat>)
    ensures c.Keys == counter.Keys + {k}
    ensures CountOf(c, k) == CountOf(counter, k) + 1
  {
    counter[k := CountOf(counter, k) + 1]
  }

  /** `.labels(url=url).observe(t)`: the url's samples grow by t, no other url's change. */
  function Observe(responseTimes: map<string, seq<real>>, url: string, t: real): (h: map<string, seq<real>>)
    ensures h.Keys == responseTimes.Keys + {url}
    ensures SamplesOf(h, url) == SamplesOf(responseTimes, url) + [t]
  {
    responseTimes[url := SamplesOf(responseTimes, url) + [t]]
  }

  /** The metric updates of one probe (app.py lines 100-106, or 127-130 on an exception). */
  function Record(m: Snapshot, url: string, outcome: Outcome, elapsed: real): (n: Snapshot)
    ensures CountOf(n.counter, KeyOf(url, outcome)) == CountOf(m.counter, KeyOf(url, outcome)) + 1
    ensures SamplesOf(n.responseTimes, url) == SamplesOf(m.responseTimes, url) + [elapsed]
    ensures url in n.upGauge && n.upGauge[url] == (if outcome.Response? && 200 <= outcome.statusCode < 400 then 1 else 0)
  {
    var counter := Increment(m.counter, KeyOf(url, outcome));
    var responseTimes := Observe(m.responseTimes, url, elapsed);
    match outcome
    case Response(code) =>
      Snapshot(counter, responseTimes, m.statusGauge[url := code], m.upGauge[url := UpFlag(code)])
    case RequestFailure(_, _) =>
      Snapshot(counter, responseTimes, m.statusGauge[url := 0], m.upGauge[url := 0])
  }

  /** Incrementing k adds one to k's count and leaves every other count as it was. */
  lemma IncrementEffect(counter: map<CounterKey, nat>, k: CounterKey)
    ensures var c := Increment(counter, k);
      && c.Keys == counter.Keys + {k}
      && forall k' :: CountOf(c, k') == CountOf(counter, k') + (if k' == k then 1 else 0)
  {
  }

  /** Observing t appends t to the url's samples and leaves every other url's samples as they were. */
  lemma ObserveEffect(responseTimes: map<string, seq<real>>, url: string, t: real)
    ensures var h := Observe(responseTimes, url, t);
      && h.Keys == responseTimes.Keys + {url}
      && forall u :: SamplesOf(h, u) == SamplesOf(responseTimes, u) + (if u == url then [t] else [])
  {
  }

  /**
   * One probe increments exactly the counter entry of its url and label,
   * appends one sample to its url's histogram, and sets that url's gauges;
   * no other url's gauges change.
   */
  lemma RecordEffect(m: Snapshot, url: string, outcome: Outcome, elapsed: real)
    ensures var n := Record(m, url, outcome, elapsed);
      && (forall k :: CountOf(n.counter, k) == CountOf(m.counter, k) + (if k == KeyOf(url, outcome) then 1 else 0))
      && (forall u :: SamplesOf(n.responseTimes, u) == SamplesOf(m.responseTimes, u) + (if u == url then [elapsed] else []))
      && n.statusGauge.Keys == m.statusGauge.Keys + {url}
      && n.upGauge.Keys == m.upGauge.Keys + {url}
      && (forall u :: u in m.statusGauge && u != url ==> n.statusGauge[u] == m.statusGauge[u])
      && (forall u :: u in m.upGauge && u != url ==> n.upGauge[u] == m.upGauge[u])
  {
    IncrementEffect(m.counter, KeyOf(url, outcome));
    ObserveEffect(m.responseTimes, url, elapsed);
  }

  /**
   * After a probe, the url's gauges agree with the result the probe returns:
   * the status gauge holds its status code and the up gauge is 1 exactly
   * when it succeeded.
   */
  lemma GaugesMatchResult(m: Snapshot, url: string, outcome: Outcome, elapsed: real, timestamp: string)
    ensures var n := Record(m, url, outcome, elapsed);
      var r := Classify(url, outcome, elapsed, timestamp);
      && n.statusGauge[url] == r.statusCode
      && n.upGauge[url] == (if r.success then 1 else 0)
  {
  }

  /** The metrics after probing urls[i] with ins[i] for each i in turn. */
  function RecordAll(m: Snapshot, urls: seq<string>, ins: seq<ProbeInput>): (n: Snapshot)
    requires |urls| == |ins|
    ensures m.counter.Keys <= n.counter.Keys && m.responseTimes.Keys <= n.responseTimes.Keys
    ensures m.statusGauge.Keys <= n.statusGauge.Keys && m.upGauge.Keys <= n.upGauge.Keys
    decreases |urls|
  {
    if urls == [] then m
    else
      var n := |urls| - 1;
      Record(RecordAll(m, urls[..n], ins[..n]), urls[n], ins[n].outcome, ins[n].elapsed)
  }

  /** Probing one more url extends the sequence of probes by one Record step. */
  lemma RecordAllStep(m: Snapshot, urls: seq<string>, ins: seq<ProbeInput>, i: nat)
    requires |urls| == |ins| && i < |urls|
    ensures RecordAll(m, urls[..i + 1], ins[..i + 1])
         == Record(RecordAll(m, urls[..i], ins[..i]), urls[i], ins[i].outcome, ins[i].elapsed)
  {
    assert urls[..i + 1][..i] == urls[..i] && ins[..i + 1][..i] == ins[..i];
  }

  /** The counter entries a sequence of probes increments, one per probe, in order. */
  function KeysOf(urls: seq<string>, ins: seq<ProbeInput>): (ks: seq<CounterKey>)
    requires |urls| == |ins|
    ensures |ks| == |urls|
    ensures forall i :: 0 <= i < |urls| ==> ks[i] == KeyOf(urls[i], ins[i].outcome)
    decreases |urls|
  {
    if urls == [] then []
    else
      var n := |urls| - 1;
      KeysOf(urls[..n], ins[..n]) + [KeyOf(urls[n], ins[n].outcome)]
  }

  /**
   * No increment is lost: after any sequence of probes, every counter entry
   * has grown by exactly the number of probes whose (url, label) it is.
   */
  lemma {:induction false} RecordAllCounts(m: Snapshot, urls: seq<string>, ins: seq<ProbeInput>, k: CounterKey)
    requires |urls| == |ins|
    ensures CountOf(RecordAll(m, urls, ins).counter, k) == CountOf(m.counter, k) + multiset(KeysOf(urls, ins))[k]
    decreases |urls|
  {
    if urls != [] {
      var n := |urls| - 1;
      var before := RecordAll(m, urls[..n], ins[..n]);
      var key := KeyOf(urls[n], ins[n].outcome);
      RecordAllCounts(m, urls[..n], ins[..n], k);
      assert RecordAll(m, urls, ins).counter == Increment(before.counter, key);
      assert multiset(KeysOf(urls, ins))[k] == multiset(KeysOf(urls[..n], ins[..n]))[k] + (if k == key then 1 else 0);
    }
  }

  /** A probe sequence that never names u leaves u's samples and gauges as they were. */
  lemma {:induction false} RecordAllUntouched(m: Snapshot, urls: seq<string>, ins: seq<ProbeInput>, u: string)
    requires |urls| == |ins| && u !in urls
    ensures var n := RecordAll(m, urls, ins);
      && SamplesOf(n.responseTimes, u) == SamplesOf(m.responseTimes, u)
      && (u in n.statusGauge <==> u in m.statusGauge)
      && (u in n.statusGauge ==> n.statusGauge[u] == m.statusGauge[u])
      && (u in n.upGauge <==> u in m.upGauge)
      && (u in n.upGauge ==> n.upGauge[u] == m.upGauge[u])
    decreases |urls|
  {
    if urls != [] {
      var k := |urls| - 1;
      assert urls == urls[..k] + [urls[k]];
      RecordAllUntouched(m, urls[..k], ins[..k], u);
    }
  }

  /**
   * A sweep over distinct urls leaves each swept url with exactly one new
   * sample, and with its gauges set from its own probe's result.
   */
  lemma {:induction false} RecordAllSwept(m: Snapshot, urls: seq<string>, ins: seq<ProbeInput>, i: nat)
    requires |urls| == |ins| && Registry.Distinct(urls) && i < |urls|
    ensures var n := RecordAll(m, urls, ins);
      var r := Classify(urls[i], ins[i].outcome, ins[i].elapsed, ins[i].checkedAt);
      && SamplesOf(n.responseTimes, urls[i]) == SamplesOf(m.responseTimes, urls[i]) + [ins[i].elapsed]
      && urls[i] in n.statusGauge && n.statusGauge[urls[i]] == r.statusCode
      && urls[i] in n.upGauge && n.upGauge[urls[i]] == (if r.success then 1 else 0)
    decreases |urls|
  {
    var k := |urls| - 1;
    var prefix, prefixIns := urls[..k], ins[..k];
    var before := RecordAll(m, prefix, prefixIns);
    var input := ins[k];
    var n := Record(before, urls[k], input.outcome, input.elapsed);
    assert RecordAll(m, urls, ins) == n;
    var u := urls[i];
    if i == k {
      assert u !in prefix by {
        forall j | 0 <= j < k ensures prefix[j] != u {
          assert prefix[j] == urls[j];
        }
      }
      RecordAllUntouched(m, prefix, prefixIns, u);
      GaugesMatchResult(before, u, input.outcome, input.elapsed, input.checkedAt);
      assert SamplesOf(n.responseTimes, u) == SamplesOf(before.responseTimes, u) + [input.elapsed];
    } else {
      assert Registry.Distinct(prefix) by {
        forall a, b | 0 <= a < b < |prefix| ensures prefix[a] != prefix[b] {
          assert prefix[a] == urls[a] && prefix[b] == urls[b];
        }
      }
      RecordAllSwept(m, prefix, prefixIns, i);
      assert prefix[i] == u && prefixIns[i] == ins[i];
      assert u != urls[k];
      assert SamplesOf(n.responseTimes, u) == SamplesOf(before.responseTimes, u);
    }
  }
}
