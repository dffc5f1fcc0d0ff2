/** The records the engines exchange: the query, the result with its content
    variants, the engine error kinds, and the HTTP request and response as the
    engines see them. The result record follows what the engine files construct
    (url, title, content, engines, score, metadata). */
module Models {
  import opened Wrappers

  const U8_MAX: int := 0xFF
  const U32_MAX: int := 0xFFFF_FFFF
  const U64_MAX: int := 0xFFFF_FFFF_FFFF_FFFF

  type u8 = x: int | 0 <= x <= U8_MAX
  type u32 = x: int | 0 <= x <= U32_MAX
  type u64 = x: int | 0 <= x <= U64_MAX

  /** A user query: free text, language tag, 1-based page, safe-search level. */
  datatype SearchQuery = SearchQuery(q: string, language: string, page: u32, safesearch: u8)

  datatype ResultContent =
    | Text(text: string)
    | Image(src: string, thumbnail: Option<string>)
    | Video(src: string, thumbnail: Option<string>, duration: Option<string>)

  /** One search result. `score` stands for the source's f64 score. */
  datatype SearchResult = SearchResult(
    url: string,
    title: string,
    content: ResultContent,
    engines: seq<string>,
    score: real,
    metadata: map<string, string>)

  datatype EngineError =
    | Network
    | Parsing(message: string)
    | Timeout
    | RateLimited
    | Unexpected(message: string)

  /** A result as every engine emits it: tagged with the engine's id, score 1.0, no metadata. */
  function EngineResult(id: string, url: string, title: string, content: ResultContent): SearchResult {
    SearchResult(url, title, content, [id], 1.0, map[])
  }

  datatype HttpMethod = Get | Post

  /** The request an engine sends: method, URL and query (or form) parameters in order. */
  datatype HttpRequest = HttpRequest(verb: HttpMethod, url: string, params: seq<(string, string)>)

  /** An HTTP response after the body has been read and parsed into `B`. */
  datatype HttpResponse<B> = HttpResponse(status: nat, body: B)

  /** `StatusCode::is_success`: a status in 200..=299. */
  predicate IsSuccess(status: nat) {
    200 <= status <= 299
  }

  /** The value of the first parameter named `key`, as a server reading the request sees it. */
  function Param(req: HttpRequest, key: string): Option<string> {
    LookupFirst(req.params, key)
  }

  function LookupFirst(params: seq<(string, string)>, key: string): (r: Option<string>)
    ensures r.Some? <==> exists i :: 0 <= i < |params| && params[i].0 == key
    decreases |params|
  {
    if params == [] then None
    else if params[0].0 == key then Some(params[0].1)
    else
      var r := LookupFirst(params[1..], key);
      assert forall i :: 1 <= i < |params| ==> params[i] == params[1..][i - 1];
      r
  }

  /** The first parameter named `key` sits at index `i`. */
  lemma {:induction false} LookupAt(params: seq<(string, string)>, i: nat, key: string)
    requires i < |params| && params[i].0 == key
    requires forall j :: 0 <= j < i ==> params[j].0 != key
    ensures LookupFirst(params, key) == Some(params[i].1)
    decreases i
  {
    if i > 0 {
      LookupAt(params[1..], i - 1, key);
    }
  }
}
