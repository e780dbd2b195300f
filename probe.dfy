/**
 * One probe of one url (`check_single_url`), with the HTTP GET and the clock
 * replaced by inputs: the request either completed with a status code or
 * raised a `RequestException`, whose class name and text are given.
 */
module Probe {
  import Decimal

  datatype Option<T> = None | Some(value: T)

  /** What `requests.get(url, timeout=10, ...)` produced. */
  datatype Outcome =
    | Response(statusCode: int)
    | RequestFailure(kind: string, detail: string)  // type(e).__name__ and str(e)

  /**
   * Everything a probe takes from outside: the outcome of the request, the
   * elapsed seconds, the timestamp written into the result, and the second
   * timestamp `add_to_recent_checks` takes when it logs the result.
   */
  datatype ProbeInput = ProbeInput(outcome: Outcome, elapsed: real, checkedAt: string, loggedAt: string)

  /** The dict `check_single_url` returns. */
  datatype CheckResult = CheckResult(
    url: string,
    statusCode: int,
    responseTime: real,
    timestamp: string,
    success: bool,
    message: string,
    error: Option<string>)

  /** `is_up`: 1 for a status code in [200, 400), else 0. */
  function UpFlag(statusCode: int): (flag: int)
    ensures flag == 0 || flag == 1
  {
    if 200 <= statusCode < 400 then 1 else 0
  }

  /** The result of one probe. */
  function Classify(url: string, outcome: Outcome, elapsed: real, timestamp: string): (r: CheckResult)
    ensures r.url == url && r.responseTime == elapsed && r.timestamp == timestamp
  {
    match outcome
    case Response(code) =>
      var isUp := UpFlag(code);
      CheckResult(url, code, elapsed, timestamp, isUp == 1, if isUp == 1 then "UP" else "DOWN", None)
    case RequestFailure(kind, detail) =>
      CheckResult(url, 0, elapsed, timestamp, false, "Error: " + kind, Some(detail))
  }

  /** The `status_code` label of the probe counter: `str(status_code)`, or "error". */
  function StatusLabel(outcome: Outcome): (tag: string)
    ensures outcome.Response? ==> Decimal.IsIntLiteral(tag)
    ensures tag == "error" <==> outcome.RequestFailure?
  {
    match outcome
    case Response(code) => NotErrorLabel(code); Decimal.IntToString(code)
    case RequestFailure(_, _) => "error"
  }

  /**
   * A completed request is up exactly when its status code is in [200, 400);
   * the code is recorded unchanged and the message is "UP" or "DOWN" to match.
   */
  lemma ResponseClassification(url: string, code: int, elapsed: real, timestamp: string)
    ensures var r := Classify(url, Response(code), elapsed, timestamp);
      && r.statusCode == code
      && (r.success <==> 200 <= code < 400)
      && r.message == (if 200 <= code < 400 then "UP" else "DOWN")
      && r.error == None
  {
  }

  /** A request exception gives status 0, down, "Error: <kind>" and the exception text. */
  lemma FailureClassification(url: string, kind: string, detail: string, elapsed: real, timestamp: string)
    ensures var r := Classify(url, RequestFailure(kind, detail), elapsed, timestamp);
      && r.statusCode == 0
      && !r.success
      && r.message == "Error: " + kind
      && r.error == Some(detail)
  {
  }

  /** Whatever the outcome, the message is "UP" exactly when the probe succeeded. */
  lemma MessageMatchesSuccess(url: string, outcome: Outcome, elapsed: real, timestamp: string)
    ensures var r := Classify(url, outcome, elapsed, timestamp);
      (r.message == "UP" <==> r.success) && (r.error.Some? <==> outcome.RequestFailure?)
  {
    var r := Classify(url, outcome, elapsed, timestamp);
    if outcome.RequestFailure? {
      assert r.message[0] == 'E';
    }
  }

  /** Two outcomes share a counter label exactly when both failed, or both completed with one code. */
  lemma StatusLabelsSeparateOutcomes(a: Outcome, b: Outcome)
    ensures StatusLabel(a) == StatusLabel(b) <==>
      (a.RequestFailure? && b.RequestFailure?) ||
      (a.Response? && b.Response? && a.statusCode == b.statusCode)
  {
    if a.Response? && b.Response? {
      Decimal.IntToStringInjective(a.statusCode, b.statusCode);
    } else if a.Response? {
      NotErrorLabel(a.statusCode);
    } else if b.Response? {
      NotErrorLabel(b.statusCode);
    }
  }

  lemma NotErrorLabel(code: int)
    ensures Decimal.IntToString(code) != "error"
  {
  }
}
