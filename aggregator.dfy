/** Result aggregation: results are deduplicated by exact URL, keeping for each
    URL the result with the strictly higher score (the first one seen on a tie),
    and the survivors are sorted by score, highest first. */
module Aggregator {
  import opened Models

  /** The URLs occurring in a list of results. */
  ghost function Urls(rs: seq<SearchResult>): set<string> {
    set r | r in rs :: r.url
  }

  ghost predicate DistinctUrls(rs: seq<SearchResult>) {
    forall i, j :: 0 <= i < j < |rs| ==> rs[i].url != rs[j].url
  }

  ghost predicate SortedByScoreDesc(rs: seq<SearchResult>) {
    forall i, j :: 0 <= i < j < |rs| ==> rs[i].score >= rs[j].score
  }

  /** One step of the deduplication loop: a new URL is inserted, a known URL is
      overwritten only by a strictly higher score. */
  function Keep(m: map<string, SearchResult>, r: SearchResult): map<string, SearchResult> {
    if r.url in m && !(r.score > m[r.url].score) then m else m[r.url := r]
  }

  /** The map of unique results after the deduplication loop has seen `rs`. */
  function Dedup(rs: seq<SearchResult>): map<string, SearchResult>
    decreases |rs|
  {
    if rs == [] then map[] else Keep(Dedup(rs[..|rs| - 1]), rs[|rs| - 1])
  }

  /** `rs[k]` is the first result of maximal score among those sharing its URL:
      the one the aggregation should keep for that URL. */
  ghost predicate FirstBest(rs: seq<SearchResult>, k: int) {
    && 0 <= k < |rs|
    && (forall i :: 0 <= i < |rs| && rs[i].url == rs[k].url ==> rs[i].score <= rs[k].score)
    && (forall i :: 0 <= i < k && rs[i].url == rs[k].url ==> rs[i].score < rs[k].score)
  }

  /** Every result in `out` is the first-best input for its URL. */
  ghost predicate EachFirstBest(results: seq<SearchResult>, out: seq<SearchResult>) {
    forall i :: 0 <= i < |out| ==> exists k :: FirstBest(results, k) && out[i] == results[k]
  }

  /** For each URL there is at most one first-best result. */
  lemma FirstBestUnique(rs: seq<SearchResult>, k: int, l: int)
    requires FirstBest(rs, k) && FirstBest(rs, l) && rs[k].url == rs[l].url
    ensures k == l
  {
  }

  /** The deduplication map is keyed by exactly the input URLs and maps each URL
      to a result carrying that URL. */
  lemma {:induction false} DedupKeys(rs: seq<SearchResult>)
    ensures Dedup(rs).Keys == Urls(rs)
    ensures forall u :: u in Dedup(rs) ==> Dedup(rs)[u].url == u
    decreases |rs|
  {
    if rs != [] {
      var n := |rs| - 1;
      assert rs == rs[..n] + [rs[n]];
      DedupKeys(rs[..n]);
      assert Urls(rs) == Urls(rs[..n]) + {rs[n].url};
    }
  }

  /** The result kept for each URL is the input's first-best one for that URL. */
  lemma {:induction false} DedupSelectsFirstBest(rs: seq<SearchResult>)
    ensures forall u :: u in Dedup(rs) ==> exists k :: FirstBest(rs, k) && rs[k] == Dedup(rs)[u]
    decreases |rs|
  {
    if rs != [] {
      var n := |rs| - 1;
      var prefix := rs[..n];
      DedupSelectsFirstBest(prefix);
      DedupKeys(prefix);
      assert rs == prefix + [rs[n]];
      assert Dedup(rs) == Keep(Dedup(prefix), rs[n]);
      forall u | u in Dedup(rs)
        ensures exists k :: FirstBest(rs, k) && rs[k] == Dedup(rs)[u]
      {
        KeepStep(prefix, Dedup(prefix), rs[n], u);
      }
    }
  }

  /** One step of the induction above: the map `m` kept for `prefix`, updated by `x`. */
  lemma KeepStep(prefix: seq<SearchResult>, m: map<string, SearchResult>, x: SearchResult, u: string)
    requires m.Keys == Urls(prefix)
    requires forall v :: v in m ==> m[v].url == v
    requires forall v :: v in m ==> exists k :: FirstBest(prefix, k) && prefix[k] == m[v]
    requires u in Keep(m, x)
    ensures exists k :: FirstBest(prefix + [x], k) && (prefix + [x])[k] == Keep(m, x)[u]
  {
    if u in m && (u != x.url || !(x.score > m[u].score)) {
      var k :| FirstBest(prefix, k) && prefix[k] == m[u];
      FirstBestSurvives(prefix, x, k);
    } else {
      if u in m {
        var k :| FirstBest(prefix, k) && prefix[k] == m[u];
      } else {
        assert forall i :: 0 <= i < |prefix| ==> prefix[i].url in Urls(prefix);
      }
      NewFirstBest(prefix, x);
    }
  }

  /** A first-best result stays first-best when a result is appended that has
      another URL or does not score strictly higher. */
  lemma FirstBestSurvives(prefix: seq<SearchResult>, x: SearchResult, k: int)
    requires FirstBest(prefix, k)
    requires x.url != prefix[k].url || x.score <= prefix[k].score
    ensures FirstBest(prefix + [x], k) && (prefix + [x])[k] == prefix[k]
  {
  }

  /** An appended result scoring strictly above every earlier result with its URL
      is first-best. */
  lemma NewFirstBest(prefix: seq<SearchResult>, x: SearchResult)
    requires forall i :: 0 <= i < |prefix| && prefix[i].url == x.url ==> prefix[i].score < x.score
    ensures FirstBest(prefix + [x], |prefix|)
  {
  }

  /** The kept result for a URL scores at least as high as every input with that URL. */
  lemma DedupKeepsMaximum(rs: seq<SearchResult>, i: int)
    requires 0 <= i < |rs|
    ensures rs[i].url in Dedup(rs)
    ensures rs[i].score <= Dedup(rs)[rs[i].url].score
  {
    DedupKeys(rs);
    DedupSelectsFirstBest(rs);
    assert rs[i].url in Urls(rs);
  }

  /** Each URL of a list without repeated URLs accounts for one element. */
  lemma {:induction false} DistinctUrlsCount(rs: seq<SearchResult>)
    requires DistinctUrls(rs)
    ensures |Urls(rs)| == |rs|
    decreases |rs|
  {
    if rs != [] {
      var n := |rs| - 1;
      assert rs == rs[..n] + [rs[n]];
      DistinctUrlsCount(rs[..n]);
      assert Urls(rs) == Urls(rs[..n]) + {rs[n].url};
      assert rs[n].url !in Urls(rs[..n]);
    }
  }

  /** There are never more URLs than results. */
  lemma {:induction false} UrlsCount(rs: seq<SearchResult>)
    ensures |Urls(rs)| <= |rs|
    decreases |rs|
  {
    if rs != [] {
      var n := |rs| - 1;
      assert rs == rs[..n] + [rs[n]];
      UrlsCount(rs[..n]);
      assert Urls(rs) == Urls(rs[..n]) + {rs[n].url};
    }
  }

  /** A result occurring twice in a list occurs at least twice in its multiset. */
  lemma RepeatedInMultiset(rs: seq<SearchResult>, i: int, j: int)
    requires 0 <= i < j < |rs| && rs[i] == rs[j]
    ensures multiset(rs)[rs[i]] >= 2
  {
    assert rs == rs[..j] + [rs[j]] + rs[j + 1..];
    assert rs[i] in multiset(rs[..j]);
  }

  /** In a list without repeated URLs, no result occurs twice. */
  lemma {:induction false} DistinctUrlsSingle(rs: seq<SearchResult>, x: SearchResult)
    requires DistinctUrls(rs)
    ensures multiset(rs)[x] <= 1
    decreases |rs|
  {
    if rs != [] {
      var n := |rs| - 1;
      assert rs == rs[..n] + [rs[n]];
      DistinctUrlsSingle(rs[..n], x);
      if x == rs[n] {
        assert x !in rs[..n];
      }
    }
  }

  /** Reordering a list of results, each the kept one for its URL, keeps the URLs distinct. */
  lemma PermutationKeepsDistinctUrls(a: seq<SearchResult>, b: seq<SearchResult>, m: map<string, SearchResult>)
    requires multiset(a) == multiset(b) && DistinctUrls(b)
    requires forall r :: r in b ==> r.url in m && m[r.url] == r
    ensures DistinctUrls(a)
  {
    forall i, j | 0 <= i < j < |a|
      ensures a[i].url != a[j].url
    {
      assert a[i] in multiset(b) && a[j] in multiset(b);
      if a[i].url == a[j].url {
        RepeatedInMultiset(a, i, j);
        DistinctUrlsSingle(b, a[i]);
        assert false;
      }
    }
  }

  /** `aggregate`: what comes out is the kept result of every input URL, one per
      URL, unchanged from an input, in non-increasing score order. */
  method Aggregate(results: seq<SearchResult>) returns (out: seq<SearchResult>)
    ensures SortedByScoreDesc(out)
    ensures DistinctUrls(out)
    ensures Urls(out) == Urls(results)
    ensures forall r :: r in out <==> r in Dedup(results).Values
    ensures EachFirstBest(results, out)
    ensures |out| <= |results|
  {
    var unique := UniqueByUrl(results);
    DedupKeys(results);
    var values := IntoValues(unique);
    var a := new SearchResult[|values|](i requires 0 <= i < |values| => values[i]);
    assert a[..] == values;
    SortByScoreDesc(a);
    out := a[..];
    SortedPermutationFacts(results, values, out);
  }

  /** The deduplication loop over the input, updating the map of unique results. */
  method UniqueByUrl(results: seq<SearchResult>) returns (unique: map<string, SearchResult>)
    ensures unique == Dedup(results)
  {
    unique := map[];
    for i := 0 to |results|
      invariant unique == Dedup(results[..i])
    {
      var res := results[i];
      assert results[..i + 1] == results[..i] + [res];
      if res.url in unique {
        if res.score > unique[res.url].score {
          unique := unique[res.url := res];
        }
      } else {
        unique := unique[res.url := res];
      }
    }
    assert results[..|results|] == results;
  }

  /** `into_values().collect()`: every value of the map once, in the map's
      unspecified iteration order. */
  method IntoValues(unique: map<string, SearchResult>) returns (values: seq<SearchResult>)
    requires forall u :: u in unique ==> unique[u].url == u
    ensures forall r :: r in values <==> r in unique.Values
    ensures forall r :: r in values ==> r.url in unique && unique[r.url] == r
    ensures DistinctUrls(values)
  {
    values := [];
    var rest := unique.Keys;
    while rest != {}
      invariant rest <= unique.Keys
      invariant forall r :: r in values ==> r.url in unique && unique[r.url] == r
      invariant Urls(values) == unique.Keys - rest
      invariant DistinctUrls(values)
      decreases rest
    {
      var u :| u in rest;
      assert Urls(values + [unique[u]]) == Urls(values) + {u};
      values := values + [unique[u]];
      rest := rest - {u};
    }
    forall r | r in unique.Values
      ensures r in values
    {
      var u :| u in unique && unique[u] == r;
      assert u in Urls(values);
    }
  }

  /** What sorting the collected values establishes about the aggregation. */
  lemma SortedPermutationFacts(results: seq<SearchResult>, values: seq<SearchResult>, out: seq<SearchResult>)
    requires forall r :: r in values <==> r in Dedup(results).Values
    requires forall r :: r in values ==> r.url in Dedup(results) && Dedup(results)[r.url] == r
    requires DistinctUrls(values)
    requires multiset(out) == multiset(values)
    ensures DistinctUrls(out)
    ensures Urls(out) == Urls(results)
    ensures forall r :: r in out <==> r in Dedup(results).Values
    ensures EachFirstBest(results, out)
    ensures |out| <= |results|
  {
    var unique := Dedup(results);
    DedupKeys(results);
    DedupSelectsFirstBest(results);
    SameMembers(out, values);
    PermutationKeepsDistinctUrls(out, values, unique);
    UrlsOfValues(out, unique);
    forall i | 0 <= i < |out|
      ensures exists k :: FirstBest(results, k) && out[i] == results[k]
    {
      assert out[i] in values;
    }
    DistinctUrlsCount(out);
    UrlsCount(results);
  }

  /** Lists with the same multiset have the same members. */
  lemma SameMembers(a: seq<SearchResult>, b: seq<SearchResult>)
    requires multiset(a) == multiset(b)
    ensures forall r :: r in a <==> r in b
  {
    forall r | r in a
      ensures r in b
    {
      assert r in multiset(b);
    }
    forall r | r in b
      ensures r in a
    {
      assert r in multiset(a);
    }
  }

  /** A list holding exactly the values of a map keyed by URL has the map's keys as URLs. */
  lemma UrlsOfValues(values: seq<SearchResult>, m: map<string, SearchResult>)
    requires forall r :: r in values <==> r in m.Values
    requires forall u :: u in m ==> m[u].url == u
    ensures Urls(values) == m.Keys
  {
    forall u | u in m.Keys
      ensures u in Urls(values)
    {
      assert m[u] in m.Values;
    }
  }

  /** `sort_by` with the comparison reversed: sorts in place, highest score first. */
  method SortByScoreDesc(a: array<SearchResult>)
    modifies a
    ensures SortedByScoreDesc(a[..])
    ensures multiset(a[..]) == multiset(old(a[..]))
  {
    if a.Length == 0 {
      return;
    }
    var i := 1;
    while i < a.Length
      invariant 1 <= i <= a.Length
      invariant forall p, q :: 0 <= p < q < i ==> a[p].score >= a[q].score
      invariant multiset(a[..]) == multiset(old(a[..]))
    {
      var j := i;
      while j > 0 && a[j - 1].score < a[j].score
        invariant 0 <= j <= i
        invariant forall p, q :: 0 <= p < q <= i && p != j && q != j ==> a[p].score >= a[q].score
        invariant forall q :: j < q <= i ==> a[j].score > a[q].score
        invariant multiset(a[..]) == multiset(old(a[..]))
      {
        SwapAdjacent(a, j);
        j := j - 1;
      }
      i := i + 1;
    }
  }

  /** One exchange of neighbours `a[j - 1]` and `a[j]`. */
  method SwapAdjacent(a: array<SearchResult>, j: int)
    requires 0 < j < a.Length
    modifies a
    ensures a[j - 1] == old(a[j]) && a[j] == old(a[j - 1])
    ensures forall k :: 0 <= k < a.Length && k != j - 1 && k != j ==> a[k] == old(a[k])
    ensures multiset(a[..]) == multiset(old(a[..]))
  {
    a[j - 1], a[j] := a[j], a[j - 1];
  }
}
