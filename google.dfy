/** The Google engine: request parameters from the query, and the results read
    off the scraped `div.g` elements, unwrapping Google's `/url?q=` redirects. */
module Google {
  import opened Wrappers
  import opened Models
  import opened Text
  import opened Paging
  import opened Shaping

  const Id := "google"
  const SearchUrl := "https://www.google.com/search"
  const RedirectPrefix := "/url?q="

  /** The `start` parameter: ten results per page. */
  function Start(page: u32): nat {
    PageOffset(page, 10, 0)
  }

  /** The `safe` parameter. */
  function SafeValue(safesearch: u8): string {
    if safesearch > 0 then "active" else "off"
  }

  function Request(query: SearchQuery): HttpRequest {
    HttpRequest(Get, SearchUrl, [
      ("q", query.q),
      ("start", DecimalString(Start(query.page))),
      ("safe", SafeValue(query.safesearch))])
  }

  /** What a server reads from the request: the query text, `start` = (page - 1) * 10,
      and `safe` "active" exactly when safe search is on, "off" otherwise. */
  lemma RequestParams(query: SearchQuery)
    ensures Request(query).verb == Get && Request(query).url == SearchUrl
    ensures Param(Request(query), "q") == Some(query.q)
    ensures Param(Request(query), "start").Some?
    ensures ParseDecimal(Param(Request(query), "start").value) == Some(Start(query.page))
    ensures query.page >= 1 ==> Start(query.page) == (query.page - 1) * 10
    ensures Param(Request(query), "safe") == Some("active") <==> query.safesearch > 0
    ensures Param(Request(query), "safe") == Some("off") <==> query.safesearch == 0
  {
    var ps := Request(query).params;
    LookupAt(ps, 0, "q");
    LookupAt(ps, 1, "start");
    LookupAt(ps, 2, "safe");
    DecimalRoundTrip(Start(query.page));
  }

  /** The link behind an `href`: for a redirect `/url?q=<target>...`, the target up
      to the first `&` or the next `/url?q=`, whichever comes first; any other
      `href` as it is. */
  function UnwrapHref(href: string): (url: string)
    ensures !StartsWith(href, RedirectPrefix) ==> url == href
    ensures StartsWith(href, RedirectPrefix) ==>
      var target := href[|RedirectPrefix|..];
      && |url| <= |target| && url == target[..|url|]
      && '&' !in url
      && (forall i :: 0 <= i < |url| ==> !StartsWith(target[i..], RedirectPrefix))
      && (|url| < |target| ==> target[|url|] == '&' || StartsWith(target[|url|..], RedirectPrefix))
  {
    if StartsWith(href, RedirectPrefix) then
      var target := href[|RedirectPrefix|..];
      var piece := PrefixBefore(target, RedirectPrefix);
      var url := PrefixBefore(piece, "&");
      assert forall i :: 0 <= i < |url| ==> url[i] == piece[i] && !StartsWith(piece[i..], "&");
      assert |url| < |piece| ==> StartsWith(piece[|url|..], "&") && piece[|url|] == '&';
      url
    else href
  }

  /** A redirect whose target has neither `&` nor another redirect marker unwraps to the whole target. */
  lemma UnwrapPlainRedirect(target: string)
    requires '&' !in target
    requires forall i :: 0 <= i <= |target| ==> !StartsWith(target[i..], RedirectPrefix)
    ensures UnwrapHref(RedirectPrefix + target) == target
  {
    var href := RedirectPrefix + target;
    assert StartsWith(href, RedirectPrefix);
    assert href[|RedirectPrefix|..] == target;
  }

  /** The result for one `div.g` element, or `None` when it is skipped. */
  function Shape(el: ScrapedElement): Option<SearchResult> {
    if el.title.None? || el.href.None? then None
    else Some(EngineResult(Id, UnwrapHref(el.href.value), el.title.value, SnippetContent(el.snippet)))
  }

  /** An element without a title (`h3`) or whose first anchor has no `href` is
      skipped; any other gives a Text result with the unwrapped link, the
      snippet or "" as content, engines ["google"] and score 1.0. */
  lemma ShapeRule(el: ScrapedElement)
    ensures Shape(el).None? <==> el.title.None? || el.href.None?
    ensures Shape(el).Some? ==>
      var r := Shape(el).value;
      && r.url == UnwrapHref(el.href.value) && r.title == el.title.value
      && r.content == Text(el.snippet.GetOr(""))
      && r.engines == [Id] && r.score == 1.0
  {
  }

  /** `search` once the response is in: an error for a non-success status,
      otherwise the shaped results in document order. */
  method Search(resp: HttpResponse<seq<ScrapedElement>>) returns (r: Result<seq<SearchResult>, EngineError>)
    ensures r.Err? <==> !IsSuccess(resp.status)
    ensures r.Ok? ==> r.value == FilterMap(resp.body, Shape)
    ensures r.Ok? ==> forall k :: 0 <= k < |r.value| ==>
      r.value[k].engines == [Id] && r.value[k].score == 1.0 && r.value[k].content.Text?
  {
    if !IsSuccess(resp.status) {
      return Err(Unexpected("Google returned " + DecimalString(resp.status)));
    }
    var elements := resp.body;
    var results: seq<SearchResult> := [];
    for i := 0 to |elements|
      invariant results == FilterMap(elements[..i], Shape)
      invariant forall k :: 0 <= k < |results| ==>
        results[k].engines == [Id] && results[k].score == 1.0 && results[k].content.Text?
    {
      var element := elements[i];
      assert elements[..i + 1] == elements[..i] + [element];
      FilterMapSnoc(elements[..i], element, Shape);
      if element.title.None? {
        continue;
      }
      var title := element.title.value;
      if element.href.None? {
        continue;
      }
      var url := UnwrapHref(element.href.value);
      var content := SnippetContent(element.snippet);
      results := results + [EngineResult(Id, url, title, content)];
    }
    assert elements[..|elements|] == elements;
    return Ok(results);
  }
}
