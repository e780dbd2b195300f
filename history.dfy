/**
 * The bounded history of recent checks (`recent_checks`): the record logged
 * per probe, and the "keep the last n" slices that bound it.
 */
module History {
  import opened Probe

  /** `add_to_recent_checks` keeps the last 50 entries. */
  const Capacity: nat := 50

  /** `get_history` shows the last 20 entries. */
  const Window: nat := 20

  /** The dict `add_to_recent_checks` appends: a result without its `error` detail. */
  datatype HistoryEntry = HistoryEntry(
    timestamp: string,
    url: string,
    statusCode: int,
    responseTime: real,
    success: bool,
    message: string)

  /** The record logged for a result, stamped with the time it was logged. */
  function ToEntry(r: CheckResult, loggedAt: string): (e: HistoryEntry)
    ensures e.timestamp == loggedAt
    ensures e.url == r.url && e.statusCode == r.statusCode && e.responseTime == r.responseTime
    ensures e.success == r.success && e.message == r.message
  {
    HistoryEntry(loggedAt, r.url, r.statusCode, r.responseTime, r.success, r.message)
  }

  /** The logged record ignores the error detail and the result's own timestamp. */
  lemma ToEntryDropsErrorDetail(r: CheckResult, loggedAt: string, error: Option<string>, timestamp: string)
    ensures ToEntry(r, loggedAt) == ToEntry(r.(error := error, timestamp := timestamp), loggedAt)
  {
  }

  lemma AppendAssociative<T>(a: seq<T>, b: seq<T>, c: seq<T>)
    ensures (a + b) + c == a + (b + c)
  {
  }

  lemma TakeAll<T>(s: seq<T>)
    ensures s[..|s|] == s
  {
  }

  function Min(a: nat, b: nat): nat {
    if a <= b then a else b
  }

  /** `s[-n:]` for n > 0: the last min(n, |s|) elements of s, in order. */
  function LastN<T>(s: seq<T>, n: nat): (r: seq<T>)
    ensures |r| == Min(n, |s|)
    ensures r == s[|s| - |r|..]
  {
    if |s| <= n then s else s[|s| - n..]
  }

  /** A suffix of w at least as long as the last n entries has the same last n entries. */
  lemma LastNOfSuffix<T>(w: seq<T>, j: nat, n: nat)
    requires j <= |w| && |w| - j >= Min(n, |w|)
    ensures LastN(w[j..], n) == LastN(w, n)
  {
    var m := Min(n, |w|);
    var v := w[j..];
    assert |LastN(v, n)| == m;
    assert v[|v| - m..] == w[|w| - m..];
  }

  /**
   * Trimming after every append is the same as trimming once at the end:
   * a buffer kept to its last n entries, extended by t and trimmed again,
   * holds the last n entries of everything ever appended.
   */
  lemma LastNAppend<T>(s: seq<T>, t: seq<T>, n: nat)
    ensures LastN(LastN(s, n) + t, n) == LastN(s + t, n)
  {
    var k := LastN(s, n);
    var j := |s| - |k|;
    assert k + t == (s + t)[j..] by {
      assert k == s[j..];
      forall i | 0 <= i < |k| + |t|
        ensures (k + t)[i] == (s + t)[j..][i]
      {
        if i < |k| {
          assert (k + t)[i] == s[j + i];
        } else {
          assert (k + t)[i] == t[i - |k|];
        }
      }
    }
    LastNOfSuffix(s + t, j, n);
  }

  /** The last m entries of the last n entries, m <= n, are the last m entries. */
  lemma LastNOfLastN<T>(s: seq<T>, n: nat, m: nat)
    requires m <= n
    ensures LastN(LastN(s, n), m) == LastN(s, m)
  {
  }

  /** After appending x to a bounded buffer of capacity n > 0, x is its newest (last) entry. */
  lemma LastNKeepsNewest<T>(s: seq<T>, x: T, n: nat)
    requires n > 0
    ensures var r := LastN(s + [x], n); |r| > 0 && r[|r| - 1] == x
  {
  }
}
