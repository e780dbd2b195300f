# url-status-checker: the check-and-record pipeline

A Dafny model of the core of `app/app.py`, the Flask service that probes a
fixed list of urls, keeps Prometheus metrics about them, and keeps a short
history of recent checks. The model covers:

- the registry `URLS_CATEGORIES` and the sweep order `URLS_TO_MONITOR`
  (module `Registry`). The dict literal is modelled as entries inserted left
  to right into an insertion-ordered dict.
- the classification inside `check_single_url` (module `Probe`). The HTTP
  request becomes an input `Outcome`. It is either `Response(statusCode)` or
  `RequestFailure(kind, detail)`, where `kind` is the exception's class name
  and `detail` its text.
- `str(status_code)` as the counter label (module `Decimal`), with its
  inverse.
- the four labelled metrics as one value, `Snapshot` (module `Metrics`):
  - the counter `url_check_total{url, status_code}`;
  - the histogram `url_response_time_seconds{url}`, kept as its samples;
  - the gauges `url_status_code{url}` and `url_up{url}`.
- the record `add_to_recent_checks` logs, and the "last n" slices `[-50:]`
  and `[-20:]` (module `History`).
- the results and summary of a sweep over the registry (module `Report`).
- the module globals as the fields of one object, `Monitor.UrlMonitor`. Its
  methods follow `initialize_metrics`, `add_to_recent_checks`,
  `check_single_url`, `check_urls`, the body of `scheduled_url_check` and
  `get_history`. They update the metric maps and the history buffer in place.

Clock readings come in as inputs in `ProbeInput`:
- `elapsed`, the response time;
- `checkedAt`, the result's timestamp;
- `loggedAt`, the second `datetime.now()` taken by `add_to_recent_checks`.

A sweep takes one `ProbeInput` per monitored url, in registry order. The
ghost field `allChecks` holds every record ever logged. The invariant
`Valid()` ties the 50-entry buffer to it.

## Model

| member | source | states |
|---|---|---|
| Probe.UpFlag | app/app.py:105 | `is_up` is always 0 or 1 |
| Probe.Classify | app/app.py:108-140 | a result keeps the probed url, the response time and the timestamp |
| Probe.StatusLabel | app/app.py:100-127 | the counter's `status_code` label is "error" exactly when the request raised; for a completed request it is a well-formed decimal literal, `str(status_code)` (IntToStringRoundTrip reads the code back) |
| Probe.ResponseClassification | app/app.py:97-115 | a completed request is up exactly when 200 <= code < 400; the code is kept unchanged; the message is "UP" or "DOWN" to match; there is no error field |
| Probe.FailureClassification | app/app.py:121-140 | a request exception gives status 0, not up, message "Error: " + kind and the exception text as `error` |
| Probe.MessageMatchesSuccess | app/app.py:108-140 | for every outcome, the message is "UP" exactly when the check succeeded, and an `error` field is present exactly when the request raised |
| Probe.StatusLabelsSeparateOutcomes | app/app.py:100-127 | two probes share a counter label exactly when both raised, or both completed with the same code |
| Probe.NotErrorLabel | app/app.py:100-127 | no status code's label is "error" |
| Decimal.DigitChar | app/app.py:100 | a digit value maps to the character of that digit |
| Decimal.NatToString | app/app.py:100 | the decimal form of a natural is a non-empty digit string with no leading zero |
| Decimal.IntToString | app/app.py:100 | `str(code)` is a well-formed integer literal, with a leading '-' exactly for negative codes |
| Decimal.NatToStringRoundTrip | app/app.py:100 | reading the digits back gives the number |
| Decimal.IntToStringRoundTrip | app/app.py:100 | parsing `str(code)` gives the code back |
| Decimal.IntToStringInjective | app/app.py:100 | two codes have the same label exactly when they are equal |
| Metrics.IncrementEffect | app/app.py:100-127 | `.inc()` adds one to exactly one counter entry; every other entry keeps its count |
| Metrics.ObserveEffect | app/app.py:101-128 | `.observe(t)` appends t to the url's samples; no other url's samples change |
| Metrics.Increment | app/app.py:100-127 | `.labels(...).inc()` creates the child if it is missing and adds one to its count (IncrementEffect: no other child changes) |
| Metrics.Observe | app/app.py:101-128 | `.labels(url=url).observe(t)` creates the url's child if it is missing and appends t to its samples (ObserveEffect: no other url changes) |
| Metrics.Record | app/app.py:99-130 | one probe adds one to its (url, label) count, appends its response time to the url's samples, and sets `url_up` to 1 exactly for a completed request with 200 <= code < 400, else 0 (RecordEffect and GaugesMatchResult: nothing else changes, and the status gauge holds the result's code) |
| Metrics.RecordEffect | app/app.py:99-130 | one probe increments exactly the (url, label) entry, appends one sample for its url, and sets only that url's two gauges; other urls' gauges are untouched |
| Metrics.GaugesMatchResult | app/app.py:102-130 | after a probe, the status gauge holds the result's status code and the up gauge is 1 exactly when the result succeeded |
| Metrics.RecordAll | app/app.py:182-183 | the metrics after a sequence of probes, each applied in order; a labelled child, once created, is never removed (RecordAllCounts, RecordAllUntouched and RecordAllSwept state the rest) |
| Metrics.RecordAllStep | app/app.py:182-183 | a sweep's metrics grow by one probe's updates per url |
| Metrics.KeysOf | app/app.py:182-183 | the counter entries of a sequence of probes are one per probe, in order |
| Metrics.RecordAllCounts | app/app.py:182-183 | after any sequence of probes, every counter entry has grown by the number of probes with its (url, label), so no increment is lost |
| Metrics.RecordAllUntouched | app/app.py:182-183 | probes of other urls leave a url's samples and gauges as they were |
| Metrics.RecordAllSwept | app/app.py:182-183 | in a sweep over distinct urls, each url gets exactly one new sample and gauges set from its own result |
| History.ToEntry | app/app.py:70-77 | the logged record copies url, status code, response time, success and message, stamped with the logging time |
| History.ToEntryDropsErrorDetail | app/app.py:70-77 | the record ignores the `error` detail and the result's own timestamp |
| History.LastN | app/app.py:79-80 | `s[-n:]` has min(n, len s) entries, and they are the last ones of s, in order |
| History.LastNAppend | app/app.py:69-80 | trimming the buffer after each append keeps the last 50 of everything ever appended |
| History.LastNOfLastN | app/app.py:236 | the last 20 of the last 50 are the last 20 |
| History.LastNKeepsNewest | app/app.py:69-80 | after an append and a trim, the new record is the last entry |
| Monitor.UrlMonitor.constructor | app/app.py:46-55 | at load time the metrics do not exist, the history is empty, and the url list is the registry's keys |
| Monitor.UrlMonitor.InitializeMetrics | app/app.py:57-65 | afterwards the metrics exist; a call when they already exist changes nothing |
| Monitor.UrlMonitor.AddToRecentChecks | app/app.py:67-80 | the buffer becomes the last 50 of old ++ [record]; it holds at most 50 entries; the new record is last; the buffer stays the last 50 of all records ever logged |
| Monitor.UrlMonitor.CheckSingleUrl | app/app.py:82-144 | initialises the metrics if needed, returns the classification of the outcome, applies exactly one probe's metric updates, and logs exactly one record |
| Monitor.UrlMonitor.CheckUrls | app/app.py:170-204 | results are one per registry url, in registry order; the summary is that of the results; the metrics are those of the probes in order; one record is logged per url; the metrics exist afterwards exactly when they existed before or some url was probed |
| Monitor.UrlMonitor.ScheduledUrlCheck | app/app.py:249-262 | the same sweep; the count is the number of successful results; the metrics exist afterwards exactly when they existed before or some url was probed |
| Monitor.UrlMonitor.GetHistory | app/app.py:232-238 | returns the last min(20, n) records logged; `total_checks` is min(50, n), never more than 50 |
| Report.SweepResults | app/app.py:182-184 | a sweep yields one result per url |
| Report.SweepEntries | app/app.py:182-183 | a sweep logs one record per url |
| Report.SweepAt | app/app.py:182-184 | result i is the classification of url i's probe, and record i is what it logs |
| Report.SweepStep | app/app.py:182-184 | probing one more url appends its result and its record |
| Monitor.SweepAdvance | app/app.py:182-187 | one loop iteration extends the metrics by one Record step, the log by one record and the success count by one exactly when the probe succeeded |
| Report.CountSuccesses | app/app.py:186-187 | the count is at most the number of results |
| Report.CountSuccessesAppend | app/app.py:186-187 | one more result adds one to the count exactly when it succeeded |
| Report.CountSuccessesAll | app/app.py:186-187 | the count equals the number of results exactly when every result succeeded |
| Report.CountSuccessesNone | app/app.py:186-187 | the count is 0 exactly when no result succeeded |
| Report.Uptime | app/app.py:193 | the uptime is 0 when nothing was checked or nothing succeeded (UptimeBounds states the exact value and the range) |
| Report.UptimeBounds | app/app.py:193 | uptime is in [0, 100], equals successful * 100 / total exactly, is 0 when total is 0, is 100 exactly when all succeeded, and is 0 exactly when none did |
| Report.SummarizeWithCount | app/app.py:193-201 | given the loop's success count, the summary is total, that count, total minus that count, and the uptime of the two |
| Report.Summarize | app/app.py:193-201 | the summary counts every result once: `total_urls_checked` is the number of results and `successful` + `failed` equals it, with `failed` >= 0 (SummarizeConsistent adds the uptime) |
| Report.SummarizeConsistent | app/app.py:176-201 | total is the number of results; successful is their success count; failed = total - successful >= 0; uptime is computed from these and lies in [0, 100] |
| Report.UptimeFull | app/app.py:193 | uptime is 100 exactly when something was checked and every check succeeded |
| Report.UptimeZero | app/app.py:193 | uptime is 0 exactly when no check succeeded |
| Report.ThreeTargetSweep | app/app.py:176-201 | for urls answering 200 and 500 and then timing out: results in order, one up and two down, uptime 100/3 |
| Registry.Insert | app/app.py:11-43 | `d[k] = v` keeps the dict well formed; a new key goes last and an existing key keeps its place |
| Registry.FromEntries | app/app.py:11-43 | the literal builds a well-formed dict whose keys are exactly the keys written |
| Registry.Firsts | app/app.py:46 | the keys of a literal, one per entry, in order |
| Registry.DistinctPrefix | app/app.py:11-43 | dropping the last entry keeps the keys distinct, and the dropped key is not among the rest |
| Registry.FromDistinctKeys | app/app.py:11-46 | with distinct keys, `list(d.keys())` is the keys in the order written |
| Registry.FromDistinctValues | app/app.py:11-43 | with distinct keys, each key maps to the value written beside it |
| Registry.EntriesKeys | app/app.py:11-43 | the keys of the literal are the 22 urls as written, top to bottom |
| Registry.KeysAsWrittenDistinct | app/app.py:11-43 | no url is written twice in the literal |
| Registry.UrlsToMonitorAsWritten | app/app.py:46 | `URLS_TO_MONITOR` (the constant `Registry.UrlsToMonitor`, `list(URLS_CATEGORIES.keys())`) is the literal's 22 urls, each once, in the order written |

## Left out

- The HTTP request (`requests.get`, app/app.py:93-95) is replaced by the `Outcome` input. The exception hierarchy is reduced to its class name and text.
- `time.time()` and `datetime.now().strftime(...)` are replaced by the `elapsed`, `checkedAt`, `loggedAt` and `now` inputs. Timestamps are opaque strings.
- `round(response_time, 3)` and `round(uptime_percentage, 2)` are floating-point rounding and are not modelled. The response time is kept as given, and the uptime is the exact rational successful * 100 / total.
- Prometheus internals are not modelled: `generate_latest`, label registration and the histogram's buckets, sum and count. The histogram is its sequence of samples. A labelled child that was never touched is absent from its map.
- The Flask routes, `render_template`, `jsonify`, and the static `/`, `/api`, `/api/health` and `/api/urls` payloads are I/O glue. `check_urls` and `get_history` are modelled as the values their responses carry.
- APScheduler, the two-minute trigger, `atexit` and `start_application`'s environment and port handling are library timing and configuration. Only the body of `scheduled_url_check` is modelled.
- Concurrency between the scheduler thread and request handlers is not modelled. The source has no synchronisation, and every operation is taken as sequential.
- `print` logging inside the sweep loops is not modelled.
- The `''` default for a missing `message` (app/app.py:76) is never taken: every result carries a message, so the record copies it.
- Monitor.UrlMonitor.GetHistory: `total_checks` is the length of the buffer, as the source computes it. It is the number of records ever logged while at most 50 records have been logged; the contract states this as min(50, n).
- app/test_app.py goes through the Flask client and live urls. It asserts only key presence and HTTP status codes, so it is not modelled.
