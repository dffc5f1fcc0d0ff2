/** What the engines share when they turn a response into results: the view of
    one scraped HTML result element, and the "skip or emit one result per item,
    in order" loop shape, stated once as `FilterMap`. */
module Shaping {
  import opened Wrappers
  import opened Models

  /** One result element of a scraped page, as the selectors see it: the title
      text (absent when the title element is missing), the link target (absent
      when the anchor or its `href` is missing) and the snippet text. */
  datatype ScrapedElement = ScrapedElement(title: Option<string>, href: Option<string>, snippet: Option<string>)

  /** A missing snippet becomes empty text. */
  function SnippetContent(snippet: Option<string>): ResultContent {
    Text(snippet.GetOr(""))
  }

  /** The items `f` keeps, mapped by `f`, in their original order. */
  function FilterMap<T, U>(xs: seq<T>, f: T -> Option<U>): seq<U>
    decreases |xs|
  {
    if xs == [] then []
    else
      var last := f(xs[|xs| - 1]);
      FilterMap(xs[..|xs| - 1], f) + (if last.Some? then [last.value] else [])
  }

  /** Extending the input by one item extends the output by that item's image, if any. */
  lemma FilterMapSnoc<T, U>(xs: seq<T>, x: T, f: T -> Option<U>)
    ensures FilterMap(xs + [x], f) == FilterMap(xs, f) + (if f(x).Some? then [f(x).value] else [])
  {
    assert (xs + [x])[..|xs|] == xs;
  }

  /** Shaping two pieces of a document one after the other gives the results of
      the first piece, then those of the second: document order is kept. */
  lemma {:induction false} FilterMapAppend<T, U>(xs: seq<T>, ys: seq<T>, f: T -> Option<U>)
    ensures FilterMap(xs + ys, f) == FilterMap(xs, f) + FilterMap(ys, f)
    decreases |ys|
  {
    if ys == [] {
      assert xs + ys == xs;
    } else {
      var n := |ys| - 1;
      var init, last := ys[..n], ys[n];
      assert ys == init + [last];
      assert xs + ys == (xs + init) + [last];
      FilterMapAppend(xs, init, f);
      FilterMapSnoc(xs + init, last, f);
      FilterMapSnoc(init, last, f);
    }
  }

  /** Every output comes from some input item, and every item `f` keeps shows up. */
  lemma {:induction false} FilterMapMembers<T, U>(xs: seq<T>, f: T -> Option<U>, y: U)
    ensures y in FilterMap(xs, f) <==> exists i :: 0 <= i < |xs| && f(xs[i]) == Some(y)
    decreases |xs|
  {
    if xs != [] {
      var n := |xs| - 1;
      FilterMapMembers(xs[..n], f, y);
      if y in FilterMap(xs, f) && y !in FilterMap(xs[..n], f) {
        assert f(xs[n]) == Some(y);
      }
      if exists i :: 0 <= i < |xs| && f(xs[i]) == Some(y) {
        var i :| 0 <= i < |xs| && f(xs[i]) == Some(y);
        if i < n {
          assert xs[..n][i] == xs[i];
        }
      }
    }
  }

  /** Never more results than items; exactly as many when no item is skipped. */
  lemma {:induction false} FilterMapLength<T, U>(xs: seq<T>, f: T -> Option<U>)
    ensures |FilterMap(xs, f)| <= |xs|
    ensures (forall i :: 0 <= i < |xs| ==> f(xs[i]).Some?) ==> |FilterMap(xs, f)| == |xs|
    decreases |xs|
  {
    if xs != [] {
      var n := |xs| - 1;
      FilterMapLength(xs[..n], f);
    }
  }
}
