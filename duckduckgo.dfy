/** The DuckDuckGo engine (HTML endpoint): the form it posts, and the results
    read off the scraped `div.web-result` elements. */
module DuckDuckGo {
  import opened Wrappers
  import opened Models
  import opened Text
  import opened Shaping

  const Id := "duckduckgo"
  const SearchUrl := "https://html.duckduckgo.com/html/"

  /** The region parameter `kl`: "wt-wt" (no region) when the query has no language. */
  function Region(language: string): string {
    if language == [] then "wt-wt" else language
  }

  /** The form posted: the query text, an empty `b`, and `kl`. DuckDuckGo's HTML
      endpoint has no paging or safe-search parameter here. */
  function Request(query: SearchQuery): HttpRequest {
    HttpRequest(Post, SearchUrl, [("q", query.q), ("b", ""), ("kl", Region(query.language))])
  }

  /** What a server reads from the form: `q`, an empty `b`, and `kl` defaulting to "wt-wt". */
  lemma RequestParams(query: SearchQuery)
    ensures Request(query).verb == Post && Request(query).url == SearchUrl
    ensures Param(Request(query), "q") == Some(query.q)
    ensures Param(Request(query), "b") == Some("")
    ensures query.language == [] ==> Param(Request(query), "kl") == Some("wt-wt")
    ensures query.language != [] ==> Param(Request(query), "kl") == Some(query.language)
  {
    var ps := Request(query).params;
    LookupAt(ps, 0, "q");
    LookupAt(ps, 1, "b");
    LookupAt(ps, 2, "kl");
  }

  /** The result for one element, or `None` when it is skipped. `title` and
      `href` come from the element's `h2 > a` anchor. */
  function Shape(el: ScrapedElement): Option<SearchResult> {
    if el.title.None? || el.href.None? then None
    else Some(EngineResult(Id, el.href.value, el.title.value, SnippetContent(el.snippet)))
  }

  /** An element without a title anchor or whose anchor has no `href` is skipped;
      any other gives a Text result with the snippet or "" as content,
      engines ["duckduckgo"] and score 1.0. */
  lemma ShapeRule(el: ScrapedElement)
    ensures Shape(el).None? <==> el.title.None? || el.href.None?
    ensures Shape(el).Some? ==>
      var r := Shape(el).value;
      && r.url == el.href.value && r.title == el.title.value
      && r.content == Text(el.snippet.GetOr(""))
      && r.engines == [Id] && r.score == 1.0
  {
  }

  /** `search` once the response is in: an error for a non-success status,
      otherwise the shaped results in document order. */
  method Search(resp: HttpResponse<seq<ScrapedElement>>) returns (r: Result<seq<SearchResult>, EngineError>)
    ensures r.Err? <==> !IsSuccess(resp.status)
    ensures r.Ok? ==> r.value == FilterMap(resp.body, Shape)
    ensures r.Ok? ==> forall k :: 0 <= k < |r.value| ==>
      r.value[k].engines == [Id] && r.value[k].score == 1.0 && r.value[k].content.Text?
  {
    if !IsSuccess(resp.status) {
      return Err(Unexpected("DuckDuckGo returned status: " + DecimalString(resp.status)));
    }
    var elements := resp.body;
    var results: seq<SearchResult> := [];
    for i := 0 to |elements|
      invariant results == FilterMap(elements[..i], Shape)
      invariant forall k :: 0 <= k < |results| ==>
        results[k].engines == [Id] && results[k].score == 1.0 && results[k].content.Text?
    {
      var element := elements[i];
      assert elements[..i + 1] == elements[..i] + [element];
      FilterMapSnoc(elements[..i], element, Shape);
      if element.title.None? {
        continue;
      }
      var title := element.title.value;
      if element.href.None? {
        continue;
      }
      var url := element.href.value;
      var content := SnippetContent(element.snippet);
      results := results + [EngineResult(Id, url, title, content)];
    }
    assert elements[..|elements|] == elements;
    return Ok(results);
  }
}
