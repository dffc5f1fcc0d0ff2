/** The Qwant engine: the JSON API request, the API-level status check, and the
    results from the `web` and `videos` rows of the answer's mainline. */
module Qwant {
  import opened Wrappers
  import opened Models
  import opened Text
  import opened Paging

  const Id := "qwant"
  const SearchUrl := "https://api.qwant.com/v3/search/web"
  const Count: nat := 10

  function Offset(page: u32): nat {
    PageOffset(page, Count, 0)
  }

  /** The `locale` parameter: "en_US" when the query has no language. */
  function Locale(language: string): string {
    if language == [] then "en_US" else language
  }

  function Request(query: SearchQuery): HttpRequest {
    HttpRequest(Get, SearchUrl, [
      ("q", query.q),
      ("count", DecimalString(Count)),
      ("offset", DecimalString(Offset(query.page))),
      ("locale", Locale(query.language)),
      ("safesearch", DecimalString(query.safesearch))])
  }

  /** `count` = 10, `offset` = (page - 1) * 10, the safe-search level as given. */
  lemma RequestPaging(query: SearchQuery)
    ensures Param(Request(query), "count").Some?
    ensures ParseDecimal(Param(Request(query), "count").value) == Some(10)
    ensures Param(Request(query), "offset").Some?
    ensures ParseDecimal(Param(Request(query), "offset").value) == Some(Offset(query.page))
    ensures query.page >= 1 ==> Offset(query.page) == (query.page - 1) * 10
    ensures Param(Request(query), "safesearch").Some?
    ensures ParseDecimal(Param(Request(query), "safesearch").value) == Some(query.safesearch)
  {
    var ps := Request(query).params;
    LookupAt(ps, 1, "count");
    LookupAt(ps, 2, "offset");
    LookupAt(ps, 4, "safesearch");
    DecimalRoundTrip(Count);
    DecimalRoundTrip(Offset(query.page));
    DecimalRoundTrip(query.safesearch);
  }

  /** `q` is the query text and `locale` defaults to "en_US". */
  lemma RequestLocale(query: SearchQuery)
    ensures Request(query).verb == Get && Request(query).url == SearchUrl
    ensures Param(Request(query), "q") == Some(query.q)
    ensures query.language == [] ==> Param(Request(query), "locale") == Some("en_US")
    ensures query.language != [] ==> Param(Request(query), "locale") == Some(query.language)
  {
    var ps := Request(query).params;
    LookupAt(ps, 0, "q");
    LookupAt(ps, 3, "locale");
  }

  /** One item of a row; absent fields stand for missing JSON values (or, for
      the duration, a value that is not an unsigned integer), in milliseconds. */
  datatype QwantItem = QwantItem(
    title: Option<string>,
    url: Option<string>,
    desc: Option<string>,
    thumbnail: Option<string>,
    duration: Option<u64>)

  datatype QwantRow = QwantRow(rowType: Option<string>, items: Option<seq<QwantItem>>)

  /** The answer: its `status` and `data.result.items.mainline`. */
  datatype QwantBody = QwantBody(status: Option<string>, mainline: Option<seq<QwantRow>>)

  /** A duration in milliseconds shown as whole seconds, e.g. 61500 as "61s". */
  function DurationText(ms: u64): string {
    DecimalString(ms / 1000) + "s"
  }

  /** The text reads back as the number of whole seconds followed by 's'. */
  lemma DurationTextRoundTrip(ms: u64)
    ensures |DurationText(ms)| >= 2 && DurationText(ms)[|DurationText(ms)| - 1] == 's'
    ensures ParseDecimal(DurationText(ms)[..|DurationText(ms)| - 1]) == Some(ms / 1000)
  {
    var t := DurationText(ms);
    assert t[..|t| - 1] == DecimalString(ms / 1000);
    DecimalRoundTrip(ms / 1000);
  }

  /** Whether a mainline row contributes: only `web` and `videos` rows do. */
  predicate Wanted(rowType: string) {
    rowType == "web" || rowType == "videos"
  }

  function ItemContent(rowType: string, item: QwantItem): ResultContent {
    if rowType == "videos" then
      Video(item.url.GetOr(""), item.thumbnail,
            if item.duration.Some? then Some(DurationText(item.duration.value)) else None)
    else Text(item.desc.GetOr(""))
  }

  function ItemResult(rowType: string, item: QwantItem): SearchResult {
    EngineResult(Id, item.url.GetOr(""), item.title.GetOr(""), ItemContent(rowType, item))
  }

  /** The results of one item list of a row of the given type, in order. */
  function ItemsResults(rowType: string, items: seq<QwantItem>): (rs: seq<SearchResult>)
    ensures |rs| == |items|
    ensures forall j :: 0 <= j < |items| ==> rs[j] == ItemResult(rowType, items[j])
    decreases |items|
  {
    if items == [] then []
    else ItemsResults(rowType, items[..|items| - 1]) + [ItemResult(rowType, items[|items| - 1])]
  }

  /** The results of one mainline row. */
  function RowResults(row: QwantRow): seq<SearchResult> {
    var rowType := row.rowType.GetOr("");
    if !Wanted(rowType) || row.items.None? then [] else ItemsResults(rowType, row.items.value)
  }

  /** The results of the mainline rows, row after row. */
  function MainlineResults(rows: seq<QwantRow>): seq<SearchResult>
    decreases |rows|
  {
    if rows == [] then [] else MainlineResults(rows[..|rows| - 1]) + RowResults(rows[|rows| - 1])
  }

  /** Rows of any type other than `web` and `videos` add nothing. */
  lemma {:induction false} UnwantedRowsIgnored(rows: seq<QwantRow>, row: QwantRow)
    requires !Wanted(row.rowType.GetOr(""))
    ensures MainlineResults(rows + [row]) == MainlineResults(rows)
  {
    assert (rows + [row])[..|rows|] == rows;
  }

  /** An item of a `videos` row is a Video of its own URL, with its thumbnail and
      its duration in whole seconds; an item of a `web` row is its description as Text. */
  lemma ItemContentRule(rowType: string, item: QwantItem)
    requires Wanted(rowType)
    ensures rowType == "videos" ==>
      && ItemResult(rowType, item).content.Video?
      && ItemResult(rowType, item).content.src == ItemResult(rowType, item).url
      && ItemResult(rowType, item).content.thumbnail == item.thumbnail
      && (ItemResult(rowType, item).content.duration.Some? <==> item.duration.Some?)
      && (item.duration.Some? ==>
            ItemResult(rowType, item).content.duration == Some(DurationText(item.duration.value)))
    ensures rowType == "web" ==> ItemResult(rowType, item).content == Text(item.desc.GetOr(""))
    ensures ItemResult(rowType, item).url == item.url.GetOr("")
    ensures ItemResult(rowType, item).title == item.title.GetOr("")
    ensures ItemResult(rowType, item).engines == [Id] && ItemResult(rowType, item).score == 1.0
  {
  }

  /** Every result comes from an item of a `web` or `videos` row: there are no
      results of other kinds, and every one is tagged "qwant" with score 1.0. */
  lemma {:induction false} MainlineResultsFromWantedRows(rows: seq<QwantRow>)
    ensures forall r :: r in MainlineResults(rows) ==>
      r.engines == [Id] && r.score == 1.0 && (r.content.Video? || r.content.Text?)
    decreases |rows|
  {
    if rows != [] {
      MainlineResultsFromWantedRows(rows[..|rows| - 1]);
    }
  }

  /** The inner loop of `search`: the items of one wanted row, in order. */
  method RowItems(rowType: string, items: seq<QwantItem>) returns (results: seq<SearchResult>)
    ensures results == ItemsResults(rowType, items)
  {
    results := [];
    for j := 0 to |items|
      invariant results == ItemsResults(rowType, items[..j])
    {
      var item := items[j];
      assert items[..j + 1][..j] == items[..j];
      var title := item.title.GetOr("");
      var url := item.url.GetOr("");
      var desc := item.desc.GetOr("");
      var content := if rowType == "videos" then
          Video(url, item.thumbnail,
                if item.duration.Some? then Some(DurationText(item.duration.value)) else None)
        else Text(desc);
      results := results + [EngineResult(Id, url, title, content)];
    }
    assert items[..|items|] == items;
  }

  /** `search` once the response is in: an error for a non-success HTTP status or
      an API status other than "success"; otherwise the items of the `web` and
      `videos` rows, row by row and item by item. */
  method Search(resp: HttpResponse<QwantBody>) returns (r: Result<seq<SearchResult>, EngineError>)
    ensures r.Err? <==> !IsSuccess(resp.status) || resp.body.status != Some("success")
    ensures r.Ok? && resp.body.mainline.None? ==> r.value == []
    ensures r.Ok? && resp.body.mainline.Some? ==> r.value == MainlineResults(resp.body.mainline.value)
    ensures r.Ok? ==> forall k :: 0 <= k < |r.value| ==> r.value[k].engines == [Id] && r.value[k].score == 1.0
  {
    if !IsSuccess(resp.status) {
      return Err(Unexpected("Qwant returned " + DecimalString(resp.status)));
    }
    if resp.body.status != Some("success") {
      return Err(Unexpected("Qwant API error"));
    }
    var results: seq<SearchResult> := [];
    if resp.body.mainline.Some? {
      var mainline := resp.body.mainline.value;
      for i := 0 to |mainline|
        invariant results == MainlineResults(mainline[..i])
      {
        var row := mainline[i];
        assert mainline[..i + 1] == mainline[..i] + [row];
        assert mainline[..i + 1][..i] == mainline[..i];
        var rowType := row.rowType.GetOr("");
        if rowType != "web" && rowType != "videos" {
          continue;
        }
        if row.items.Some? {
          var shaped := RowItems(rowType, row.items.value);
          results := results + shaped;
        }
      }
      assert mainline[..|mainline|] == mainline;
      MainlineResultsFromWantedRows(mainline);
    }
    return Ok(results);
  }
}
