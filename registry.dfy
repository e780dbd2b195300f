/**
 * The target registry: the dict literal `URLS_CATEGORIES` (url -> category)
 * and `URLS_TO_MONITOR`, the list of its keys in insertion order.
 */
module Registry {

  predicate Distinct<T(==)>(s: seq<T>) {
    forall i, j :: 0 <= i < j < |s| ==> s[i] != s[j]
  }

  /** A Python dict: its keys in insertion order and the value of each key. */
  datatype OrderedDict<K, V> = OrderedDict(keys: seq<K>, values: map<K, V>)

  /** Every key is listed once, and exactly the keys that have a value are listed. */
  ghost predicate WellFormed<K(!new), V>(d: OrderedDict<K, V>) {
    && Distinct(d.keys)
    && (forall k :: k in d.values <==> k in d.keys)
  }

  const EmptyDict: OrderedDict<string, string> := OrderedDict([], map[])

  /** `d[k] = v`: a new key goes to the end; an existing key keeps its place. */
  function Insert<K(!new), V>(d: OrderedDict<K, V>, k: K, v: V): (e: OrderedDict<K, V>)
    requires WellFormed(d)
    ensures WellFormed(e)
    ensures e.values == d.values[k := v]
    ensures k in d.values ==> e.keys == d.keys
    ensures k !in d.values ==> e.keys == d.keys + [k]
  {
    if k in d.values then OrderedDict(d.keys, d.values[k := v])
    else OrderedDict(d.keys + [k], d.values[k := v])
  }

  /** The dict a literal `{k0: v0, k1: v1, ...}` builds: its entries inserted left to right. */
  function FromEntries(entries: seq<(string, string)>): (d: OrderedDict<string, string>)
    ensures WellFormed(d)
    ensures forall k :: k in d.values <==> k in Firsts(entries)
    decreases |entries|
  {
    if entries == [] then EmptyDict
    else
      var prefix := entries[..|entries| - 1];
      assert Firsts(entries) == Firsts(prefix) + [entries[|entries| - 1].0];
      Insert(FromEntries(prefix), entries[|entries| - 1].0, entries[|entries| - 1].1)
  }

  function Firsts(entries: seq<(string, string)>): (ks: seq<string>)
    ensures |ks| == |entries|
    ensures forall i :: 0 <= i < |entries| ==> ks[i] == entries[i].0
    decreases |entries|
  {
    if entries == [] then [] else Firsts(entries[..|entries| - 1]) + [entries[|entries| - 1].0]
  }

  /** Dropping the last entry of a literal keeps its keys distinct. */
  lemma DistinctPrefix(entries: seq<(string, string)>)
    requires entries != [] && Distinct(Firsts(entries))
    ensures var n := |entries| - 1;
      && Distinct(Firsts(entries[..n]))
      && entries[n].0 !in Firsts(entries[..n])
  {
    var n := |entries| - 1;
    var prefix := entries[..n];
    var ks, pks := Firsts(entries), Firsts(prefix);
    forall a, b | 0 <= a < b < n
      ensures pks[a] != pks[b]
    {
      assert pks[a] == prefix[a].0 == ks[a];
      assert pks[b] == prefix[b].0 == ks[b];
    }
    forall j | 0 <= j < n
      ensures pks[j] != entries[n].0
    {
      assert pks[j] == prefix[j].0 == ks[j];
      assert ks[n] == entries[n].0;
    }
  }

  /** A literal whose keys are all different keeps its keys in the order they are written. */
  lemma {:induction false} FromDistinctKeys(entries: seq<(string, string)>)
    requires Distinct(Firsts(entries))
    ensures FromEntries(entries).keys == Firsts(entries)
    decreases |entries|
  {
    if entries != [] {
      var n := |entries| - 1;
      var prefix := entries[..n];
      DistinctPrefix(entries);
      FromDistinctKeys(prefix);
      assert Firsts(entries) == Firsts(prefix) + [entries[n].0];
    }
  }

  /** A literal whose keys are all different gives every key the value written beside it. */
  lemma {:induction false} FromDistinctValues(entries: seq<(string, string)>, i: nat)
    requires Distinct(Firsts(entries)) && i < |entries|
    ensures entries[i].0 in FromEntries(entries).values
    ensures FromEntries(entries).values[entries[i].0] == entries[i].1
    decreases |entries|
  {
    var n := |entries| - 1;
    var prefix := entries[..n];
    if i < n {
      DistinctPrefix(entries);
      FromDistinctValues(prefix, i);
      assert prefix[i] == entries[i];
      assert Firsts(entries)[i] != Firsts(entries)[n];
    }
  }

  /** `URLS_CATEGORIES`, entry by entry as written. */
  const UrlCategoryEntries: seq<(string, string)> := [
    ("https://www.google.com", "Global"),
    ("https://www.github.com", "Global"),
    ("https://www.stackoverflow.com", "Global"),
    ("https://www.wikipedia.org", "Global"),
    ("https://www.nytimes.com", "News"),
    ("https://www.bbc.com", "News"),
    ("https://www.netflix.com", "Entertainment"),
    ("https://www.cloudflare.com", "Cloud"),
    ("https://www.digitalocean.com", "Cloud"),
    ("https://api.github.com", "API"),
    ("https://api.openweathermap.org", "API"),
    ("https://dog.ceo/api/breeds/image/random", "API"),
    ("https://catfact.ninja/fact", "API"),
    ("https://jsonplaceholder.typicode.com/posts", "API"),
    ("https://www.kaggle.com", "Education"),
    ("https://www.coursera.org", "Education"),
    ("https://huggingface.co", "AI"),
    ("https://www.tensorflow.org", "AI"),
    ("https://pytorch.org", "AI"),
    ("https://news.ycombinator.com", "News"),
    ("https://developer.mozilla.org", "Documentation"),
    ("https://www.python.org", "Programming")
  ]

  const UrlsCategories: OrderedDict<string, string> := FromEntries(UrlCategoryEntries)

  /** `list(URLS_CATEGORIES.keys())`: the sweep order. */
  const UrlsToMonitor: seq<string> := UrlsCategories.keys

  /** The urls of `URLS_CATEGORIES`, read off the literal top to bottom. */
  const KeysAsWritten: seq<string> := [
    "https://www.google.com",
    "https://www.github.com",
    "https://www.stackoverflow.com",
    "https://www.wikipedia.org",
    "https://www.nytimes.com",
    "https://www.bbc.com",
    "https://www.netflix.com",
    "https://www.cloudflare.com",
    "https://www.digitalocean.com",
    "https://api.github.com",
    "https://api.openweathermap.org",
    "https://dog.ceo/api/breeds/image/random",
    "https://catfact.ninja/fact",
    "https://jsonplaceholder.typicode.com/posts",
    "https://www.kaggle.com",
    "https://www.coursera.org",
    "https://huggingface.co",
    "https://www.tensorflow.org",
    "https://pytorch.org",
    "https://news.ycombinator.com",
    "https://developer.mozilla.org",
    "https://www.python.org"
  ]

  /** The keys of the literal's entries are the urls as written, in that order. */
  lemma EntriesKeys()
    ensures Firsts(UrlCategoryEntries) == KeysAsWritten
  {
  }

  /** No url is written twice in the literal. */
  lemma KeysAsWrittenDistinct()
    ensures Distinct(KeysAsWritten)
  {
    // Comparing the pairs half by half keeps each case analysis small.
    forall i, j | 0 <= i < j < |KeysAsWritten|
      ensures KeysAsWritten[i] != KeysAsWritten[j]
    {
      if j < 11 {
      } else if i < 11 {
      } else {
      }
    }
  }

  /**
   * `URLS_TO_MONITOR` is the literal's urls, each once, in the order they are
   * written.
   */
  lemma UrlsToMonitorAsWritten()
    ensures Distinct(UrlsToMonitor)
    ensures forall u :: u in UrlsToMonitor <==> u in Firsts(UrlCategoryEntries)
    ensures UrlsToMonitor == Firsts(UrlCategoryEntries) == KeysAsWritten
  {
    EntriesKeys();
    KeysAsWrittenDistinct();
    FromDistinctKeys(UrlCategoryEntries);
  }
}
