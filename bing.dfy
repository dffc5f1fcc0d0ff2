/** The Bing engine: `first` and `adlt` request parameters, and the results
    read off the scraped `li.b_algo` elements. */
module Bing {
  import opened Wrappers
  import opened Models
  import opened Text
  import opened Paging
  import opened Shaping

  const Id := "bing"
  const SearchUrl := "https://www.bing.com/search"

  /** The 1-based index of the page's first result, ten results per page. */
  function First(page: u32): nat {
    PageOffset(page, 10, 1)
  }

  /** The adult-content filter level. */
  function AdultValue(safesearch: u8): string {
    if safesearch > 0 then (if safesearch == 1 then "moderate" else "strict") else "off"
  }

  function Request(query: SearchQuery): HttpRequest {
    HttpRequest(Get, SearchUrl, [
      ("q", query.q),
      ("first", DecimalString(First(query.page))),
      ("adlt", AdultValue(query.safesearch))])
  }

  /** What a server reads from the request: `first` = (page - 1) * 10 + 1, and
      `adlt` off, moderate or strict for safe-search 0, 1 and anything higher. */
  lemma RequestParams(query: SearchQuery)
    ensures Request(query).verb == Get && Request(query).url == SearchUrl
    ensures Param(Request(query), "q") == Some(query.q)
    ensures Param(Request(query), "first").Some?
    ensures ParseDecimal(Param(Request(query), "first").value) == Some(First(query.page))
    ensures query.page >= 1 ==> First(query.page) == (query.page - 1) * 10 + 1
    ensures Param(Request(query), "adlt") == Some("off") <==> query.safesearch == 0
    ensures Param(Request(query), "adlt") == Some("moderate") <==> query.safesearch == 1
    ensures Param(Request(query), "adlt") == Some("strict") <==> query.safesearch >= 2
  {
    var ps := Request(query).params;
    LookupAt(ps, 0, "q");
    LookupAt(ps, 1, "first");
    LookupAt(ps, 2, "adlt");
    DecimalRoundTrip(First(query.page));
  }

  /** Bing's `first` is always one past the offset Google would send for the same page. */
  lemma FirstIsOffsetPlusOne(page: u32)
    ensures First(page) == PageOffset(page, 10, 0) + 1
  {
  }

  /** The result for one element, or `None` when it is skipped. `title` and
      `href` come from the element's `h2 > a` anchor. */
  function Shape(el: ScrapedElement): Option<SearchResult> {
    if el.title.None? || el.href.None? then None
    else Some(EngineResult(Id, el.href.value, el.title.value, SnippetContent(el.snippet)))
  }

  /** An element without a title anchor or whose anchor has no `href` is skipped;
      any other gives a Text result linking to the `href` verbatim, with the
      snippet or "" as content, engines ["bing"] and score 1.0. */
  lemma ShapeRule(el: ScrapedElement)
    ensures Shape(el).None? <==> el.title.None? || el.href.None?
    ensures Shape(el).Some? ==>
      var r := Shape(el).value;
      && r.url == el.href.value && r.title == el.title.value
      && r.content == Text(el.snippet.GetOr(""))
      && r.engines == [Id] && r.score == 1.0
  {
  }

  /** `search` once the response is in: an error for a non-success status,
      otherwise the shaped results in document order. */
  method Search(resp: HttpResponse<seq<ScrapedElement>>) returns (r: Result<seq<SearchResult>, EngineError>)
    ensures r.Err? <==> !IsSuccess(resp.status)
    ensures r.Ok? ==> r.value == FilterMap(resp.body, Shape)
    ensures r.Ok? ==> forall k :: 0 <= k < |r.value| ==>
      r.value[k].engines == [Id] && r.value[k].score == 1.0 && r.value[k].content.Text?
  {
    if !IsSuccess(resp.status) {
      return Err(Unexpected("Bing returned " + DecimalString(resp.status)));
    }
    var elements := resp.body;
    var results: seq<SearchResult> := [];
    for i := 0 to |elements|
      invariant results == FilterMap(elements[..i], Shape)
      invariant forall k :: 0 <= k < |results| ==>
        results[k].engines == [Id] && results[k].score == 1.0 && results[k].content.Text?
    {
      var element := elements[i];
      assert elements[..i + 1] == elements[..i] + [element];
      FilterMapSnoc(elements[..i], element, Shape);
      if element.title.None? {
        continue;
      }
      var title := element.title.value;
      if element.href.None? {
        continue;
      }
      var url := element.href.value;
      var content := SnippetContent(element.snippet);
      results := results + [EngineResult(Id, url, title, content)];
    }
    assert elements[..|elements|] == elements;
    return Ok(results);
  }
}
