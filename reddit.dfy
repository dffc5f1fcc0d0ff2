/** The Reddit engine: the `search.json` request and one result per post listed
    under `data.children`. */
module Reddit {
  import opened Wrappers
  import opened Models
  import opened Text

  const Id := "reddit"
  const SearchUrl := "https://www.reddit.com/search.json"
  const SiteUrl := "https://www.reddit.com"
  const Limit: nat := 20

  /** The page is not sent: Reddit pages by cursor and only the first page is fetched. */
  function Request(query: SearchQuery): HttpRequest {
    var base := [("q", query.q), ("limit", DecimalString(Limit))];
    HttpRequest(Get, SearchUrl,
      if query.safesearch == 0 then base + [("include_over_18", "on")] else base)
  }

  /** The query text, `limit` = 20 whatever the page, and `include_over_18=on`
      exactly when safe search is off. */
  lemma RequestParams(query: SearchQuery)
    ensures Request(query).verb == Get && Request(query).url == SearchUrl
    ensures Param(Request(query), "q") == Some(query.q)
    ensures Param(Request(query), "limit").Some?
    ensures ParseDecimal(Param(Request(query), "limit").value) == Some(20)
    ensures Param(Request(query), "include_over_18") == Some("on") <==> query.safesearch == 0
    ensures Param(Request(query), "include_over_18").Some? <==> query.safesearch == 0
  {
    var ps := Request(query).params;
    LookupAt(ps, 0, "q");
    LookupAt(ps, 1, "limit");
    if query.safesearch == 0 {
      LookupAt(ps, 2, "include_over_18");
    } else {
      assert forall i :: 0 <= i < |ps| ==> ps[i].0 != "include_over_18";
    }
    DecimalRoundTrip(Limit);
  }

  /** Every page asks for the same first 20 posts. */
  lemma PageIgnored(query: SearchQuery, page: u32)
    ensures Request(query.(page := page)) == Request(query)
  {
  }

  /** The `data` of one child; absent fields stand for missing JSON values or
      values of another JSON type. */
  datatype RedditPost = RedditPost(
    title: Option<string>,
    permalink: Option<string>,
    selftext: Option<string>,
    thumbnail: Option<string>,
    url: Option<string>,
    isVideo: Option<bool>)

  /** The answer: `data.children`, when it is an array. */
  datatype RedditBody = RedditBody(children: Option<seq<RedditPost>>)

  /** Reddit puts markers such as "self" or "default" where a post has no
      picture; only a thumbnail starting with "http" is kept. */
  function KeptThumbnail(thumbnail: Option<string>): (t: Option<string>)
    ensures t.Some? <==> thumbnail.Some? && StartsWith(thumbnail.value, "http")
    ensures t.Some? ==> t == thumbnail
  {
    if thumbnail.Some? && StartsWith(thumbnail.value, "http") then thumbnail else None
  }

  function PostContent(post: RedditPost): ResultContent {
    var thumbnail := KeptThumbnail(post.thumbnail);
    if post.isVideo.GetOr(false) then Video(post.url.GetOr(""), thumbnail, None)
    else if thumbnail.Some? then Image(post.url.GetOr(""), thumbnail)
    else Text(post.selftext.GetOr(""))
  }

  function PostResult(post: RedditPost): SearchResult {
    EngineResult(Id, SiteUrl + post.permalink.GetOr(""), post.title.GetOr(""), PostContent(post))
  }

  /** The result of one post: the permalink on www.reddit.com; a Video of the
      post's link when it is a video, otherwise an Image when it has a real
      thumbnail, otherwise its self text; engines ["reddit"], score 1.0. */
  lemma PostResultRule(post: RedditPost)
    ensures PostResult(post).url == SiteUrl + post.permalink.GetOr("")
    ensures StartsWith(PostResult(post).url, SiteUrl)
    ensures PostResult(post).title == post.title.GetOr("")
    ensures PostResult(post).content.Video? <==> post.isVideo == Some(true)
    ensures PostResult(post).content.Image? <==>
      post.isVideo != Some(true) && post.thumbnail.Some? && StartsWith(post.thumbnail.value, "http")
    ensures PostResult(post).content.Text? ==> PostResult(post).content.text == post.selftext.GetOr("")
    ensures !PostResult(post).content.Text? ==> PostResult(post).content.src == post.url.GetOr("")
    ensures PostResult(post).content.Video? ==> PostResult(post).content.duration.None?
    ensures PostResult(post).content.Image? ==> PostResult(post).content.thumbnail == post.thumbnail
    ensures PostResult(post).content.Video? ==> PostResult(post).content.thumbnail == KeptThumbnail(post.thumbnail)
    ensures PostResult(post).engines == [Id] && PostResult(post).score == 1.0
  {
    assert (SiteUrl + post.permalink.GetOr(""))[..|SiteUrl|] == SiteUrl;
  }

  /** `search` once the response is in: an error for a non-success status,
      otherwise one result per child post, in order (none when `data.children`
      is missing). */
  method Search(resp: HttpResponse<RedditBody>) returns (r: Result<seq<SearchResult>, EngineError>)
    ensures r.Err? <==> !IsSuccess(resp.status)
    ensures r.Ok? && resp.body.children.None? ==> r.value == []
    ensures r.Ok? && resp.body.children.Some? ==>
      |r.value| == |resp.body.children.value|
      && forall k :: 0 <= k < |r.value| ==> r.value[k] == PostResult(resp.body.children.value[k])
  {
    if !IsSuccess(resp.status) {
      return Err(Unexpected("Reddit returned " + DecimalString(resp.status)));
    }
    var results: seq<SearchResult> := [];
    if resp.body.children.Some? {
      var children := resp.body.children.value;
      for i := 0 to |children|
        invariant |results| == i
        invariant forall k :: 0 <= k < i ==> results[k] == PostResult(children[k])
      {
        var data := children[i];
        var title := data.title.GetOr("");
        var permalink := data.permalink.GetOr("");
        var url := SiteUrl + permalink;
        var selftext := data.selftext.GetOr("");
        var thumbnail := KeptThumbnail(data.thumbnail);
        var isVideo := data.isVideo.GetOr(false);
        var content;
        if isVideo {
          content := Video(data.url.GetOr(""), thumbnail, None);
        } else if thumbnail.Some? {
          content := Image(data.url.GetOr(""), Some(thumbnail.value));
        } else {
          content := Text(selftext);
        }
        results := results + [EngineResult(Id, url, title, content)];
      }
    }
    return Ok(results);
  }
}
