/** The Wikipedia engine: the MediaWiki API request for the query's language
    edition, and one result per page object of the JSON answer. */
module Wikipedia {
  import opened Wrappers
  import opened Models
  import opened Text
  import opened Paging

  const Id := "wikipedia"
  const Limit: nat := 20

  /** The language edition: "en" for an empty language, otherwise the language
      tag up to its first '-' (so "de-CH" gives "de"). */
  function Edition(language: string): (lang: string)
    ensures language == [] ==> lang == "en"
    ensures language != [] ==>
      && |lang| <= |language| && lang == language[..|lang|]
      && '-' !in lang
      && (|lang| < |language| ==> language[|lang|] == '-')
  {
    if language == [] then "en"
    else
      var lang := PrefixBefore(language, "-");
      assert forall i :: 0 <= i < |lang| ==> !StartsWith(language[i..], "-") && language[i..][0] == lang[i];
      lang
  }

  function ApiUrl(lang: string): string {
    "https://" + lang + ".wikipedia.org/w/api.php"
  }

  /** `gsroffset`: twenty results per page. */
  function Offset(page: u32): nat {
    PageOffset(page, Limit, 0)
  }

  function Request(query: SearchQuery): HttpRequest {
    HttpRequest(Get, ApiUrl(Edition(query.language)), [
      ("action", "query"),
      ("format", "json"),
      ("generator", "search"),
      ("gsrsearch", query.q),
      ("gsrlimit", DecimalString(Limit)),
      ("gsroffset", DecimalString(Offset(query.page))),
      ("prop", "pageimages|extracts"),
      ("piprop", "thumbnail"),
      ("pithumbsize", "300"),
      ("exintro", "1"),
      ("explaintext", "1"),
      ("exsentences", "2")])
  }

  /** The API endpoint is the language edition's and the search text is `gsrsearch`. */
  lemma RequestTarget(query: SearchQuery)
    ensures Request(query).verb == Get
    ensures Request(query).url == "https://" + Edition(query.language) + ".wikipedia.org/w/api.php"
    ensures Param(Request(query), "gsrsearch") == Some(query.q)
  {
    LookupAt(Request(query).params, 3, "gsrsearch");
  }

  /** `gsrlimit` = 20 and `gsroffset` = (page - 1) * 20. */
  lemma RequestPaging(query: SearchQuery)
    ensures Param(Request(query), "gsrlimit").Some?
    ensures ParseDecimal(Param(Request(query), "gsrlimit").value) == Some(20)
    ensures Param(Request(query), "gsroffset").Some?
    ensures ParseDecimal(Param(Request(query), "gsroffset").value) == Some(Offset(query.page))
    ensures query.page >= 1 ==> Offset(query.page) == (query.page - 1) * 20
  {
    var ps := Request(query).params;
    LookupAt(ps, 4, "gsrlimit");
    LookupAt(ps, 5, "gsroffset");
    DecimalRoundTrip(Limit);
    DecimalRoundTrip(Offset(query.page));
  }

  /** A page object of the answer; absent strings stand for missing or non-string JSON values. */
  datatype WikiPage = WikiPage(title: Option<string>, extract: Option<string>, thumbnail: Option<string>)

  /** The answer: `query.pages`, absent when it is missing or not an object. The
      pages are listed in the order the JSON object is iterated. */
  datatype WikiBody = WikiBody(pages: Option<seq<WikiPage>>)

  /** The article URL: the edition's `/wiki/` path with spaces in the title turned into '_'. */
  function PageUrl(lang: string, title: string): string {
    "https://" + lang + ".wikipedia.org/wiki/" + ReplaceChar(title, ' ', '_')
  }

  /** The page's thumbnail as an Image when there is one, otherwise its extract as Text. */
  function PageContent(page: WikiPage): ResultContent {
    if page.thumbnail.Some? then Image(page.thumbnail.value, Some(page.thumbnail.value))
    else Text(page.extract.GetOr(""))
  }

  function PageResult(lang: string, page: WikiPage): SearchResult {
    EngineResult(Id, PageUrl(lang, page.title.GetOr("")), page.title.GetOr(""), PageContent(page))
  }

  /** A page's result links to the edition's `/wiki/` path followed by the
      title with every space turned into '_' (so no space is left after the
      path), its title is the page title or "", and its content is the thumbnail image exactly when a thumbnail is
      present (source and thumbnail both that image), else the extract or "". */
  lemma PageResultRule(lang: string, page: WikiPage)
    ensures PageResult(lang, page).url ==
      "https://" + lang + ".wikipedia.org/wiki/" + ReplaceChar(page.title.GetOr(""), ' ', '_')
    ensures PageResult(lang, page).title == page.title.GetOr("")
    ensures var prefix := "https://" + lang + ".wikipedia.org/wiki/";
      && StartsWith(PageResult(lang, page).url, prefix)
      && ' ' !in PageResult(lang, page).url[|prefix|..]
    ensures PageResult(lang, page).content.Image? <==> page.thumbnail.Some?
    ensures page.thumbnail.Some? ==>
      PageResult(lang, page).content == Image(page.thumbnail.value, Some(page.thumbnail.value))
    ensures page.thumbnail.None? ==> PageResult(lang, page).content == Text(page.extract.GetOr(""))
    ensures PageResult(lang, page).engines == [Id] && PageResult(lang, page).score == 1.0
  {
    var prefix := "https://" + lang + ".wikipedia.org/wiki/";
    var url := PageResult(lang, page).url;
    assert url == prefix + ReplaceChar(page.title.GetOr(""), ' ', '_');
    assert url[..|prefix|] == prefix;
    assert url[|prefix|..] == ReplaceChar(page.title.GetOr(""), ' ', '_');
    ReplaceCharRemoves(page.title.GetOr(""), ' ', '_');
  }

  /** `search` once the response is in: an error for a non-success status,
      otherwise exactly one result per page object, in order. */
  method Search(query: SearchQuery, resp: HttpResponse<WikiBody>) returns (r: Result<seq<SearchResult>, EngineError>)
    ensures r.Err? <==> !IsSuccess(resp.status)
    ensures r.Ok? && resp.body.pages.None? ==> r.value == []
    ensures r.Ok? && resp.body.pages.Some? ==>
      && |r.value| == |resp.body.pages.value|
      && forall k :: 0 <= k < |r.value| ==>
           r.value[k] == PageResult(Edition(query.language), resp.body.pages.value[k])
  {
    if !IsSuccess(resp.status) {
      return Err(Unexpected("Wikipedia returned " + DecimalString(resp.status)));
    }
    var language := Edition(query.language);
    var results: seq<SearchResult> := [];
    if resp.body.pages.Some? {
      var pages := resp.body.pages.value;
      for i := 0 to |pages|
        invariant |results| == i
        invariant forall k :: 0 <= k < i ==> results[k] == PageResult(language, pages[k])
      {
        var page := pages[i];
        var title := page.title.GetOr("");
        var extract := page.extract.GetOr("");
        var pageUrl := PageUrl(language, title);
        var content := if page.thumbnail.Some? then Image(page.thumbnail.value, Some(page.thumbnail.value))
                       else Text(extract);
        results := results + [EngineResult(Id, pageUrl, title, content)];
      }
    }
    return Ok(results);
  }
}
