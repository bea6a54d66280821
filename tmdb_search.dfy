/**
 * The movie-metadata proxy route (`GET /api/tmdb/search`): it validates
 * the `query` and `type` parameters, picks the upstream search endpoint,
 * and shapes at most five upstream items into search hits. The upstream
 * call is an input (`Upstream`): either what `fetch` / `response.json()`
 * threw, or the reply's `ok` flag and JSON body.
 */
module TmdbSearch {
  import opened Optional
  import opened JsStrings

  const ImageBase: string := "https://image.tmdb.org/t/p/w500"
  const MaxResults: nat := 5
  const OverviewLength: nat := 150

  /** One item of the upstream `results` array. */
  datatype TmdbItem = TmdbItem(
    id: int,
    title: Option<string>,
    name: Option<string>,
    releaseDate: Option<string>,
    firstAirDate: Option<string>,
    posterPath: Option<string>,
    overview: Option<string>)

  /** One element of the route's own `results`. */
  datatype Hit = Hit(
    id: int,
    title: Option<string>,
    year: string,
    posterUrl: Option<string>,
    overview: string)

  datatype Upstream =
    | Threw(message: string)
    | Reply(ok: bool, statusMessage: Option<string>, results: Option<seq<TmdbItem>>)

  datatype Body = ErrorBody(error: string) | ResultsBody(results: seq<Hit>)

  datatype Response = Response(status: int, body: Body)

  /** The message V8 gives the TypeError of `data.results.slice` when the
      upstream body has no `results`. */
  const MissingResultsMessage: string := "Cannot read properties of undefined (reading 'slice')"

  /** `searchParams.get('type') || 'movie'` */
  function SearchType(typeParam: Option<string>): (r: string)
    ensures r == "tv" <==> typeParam == Some("tv")
  {
    OrElse(typeParam, "movie")
  }

  /** The endpoint: TV search for type 'tv', movie search for anything else. */
  function Endpoint(searchType: string): (r: string)
    ensures r == "search/tv" <==> searchType == "tv"
    ensures r == "search/tv" || r == "search/movie"
  {
    if searchType == "tv" then "search/tv" else "search/movie"
  }

  /** `item.overview?.substring(0, 150) + '...'`; a missing overview
      yields the text "undefined..." as JavaScript concatenation does. */
  function Overview(overview: Option<string>): (r: string)
    ensures overview.Some? ==>
              && |r| == Min(|overview.value|, OverviewLength) + 3
              && r[..|r| - 3] <= overview.value
              && r[|r| - 3..] == "..."
    ensures overview.None? ==> r == "undefined..."
  {
    match overview
    case None => "undefined..."
    case Some(o) => (if |o| <= OverviewLength then o else o[..OverviewLength]) + "..."
  }

  function Min(a: nat, b: nat): nat
  {
    if a <= b then a else b
  }

  /** The shaping of one upstream item. */
  function ShapeItem(item: TmdbItem, searchType: string): (r: Hit)
    ensures r.id == item.id
    ensures r.title == (if searchType == "tv" then item.name else item.title)
    ensures var date := if searchType == "tv" then item.firstAirDate else item.releaseDate;
      && (date.None? ==> r.year == "")
      && (date.Some? ==>
            && r.year <= date.value && '-' !in r.year
            && (|r.year| < |date.value| ==> date.value[|r.year|] == '-'))
    ensures r.posterUrl.Some? <==> item.posterPath.Some? && item.posterPath.value != ""
    ensures r.posterUrl.Some? ==> r.posterUrl.value == ImageBase + item.posterPath.value
    ensures r.overview == Overview(item.overview)
  {
    var date := if searchType == "tv" then item.firstAirDate else item.releaseDate;
    Hit(
      item.id,
      if searchType == "tv" then item.name else item.title,
      match date { case None => "" case Some(d) => BeforeFirst(d, '-') },
      if item.posterPath.Some? && item.posterPath.value != "" then Some(ImageBase + item.posterPath.value) else None,
      Overview(item.overview))
  }

  /** `data.results.slice(0, 5).map(shape)`: at most five hits, in upstream order. */
  function ShapeResults(items: seq<TmdbItem>, searchType: string): (r: seq<Hit>)
    ensures |r| == Min(|items|, MaxResults)
    ensures forall k :: 0 <= k < |r| ==> r[k] == ShapeItem(items[k], searchType)
  {
    var n := Min(|items|, MaxResults);
    seq(n, k requires 0 <= k < n => ShapeItem(items[k], searchType))
  }

  /** The route handler. `apiKey` is the configured `TMDB_API_KEY`. */
  function Search(query: Option<string>, typeParam: Option<string>, apiKey: Option<string>, upstream: Upstream): (r: Response)
    // a missing or empty query is refused before anything else
    ensures r.status == 400 <==> query.None? || query.value == ""
    ensures r.status == 400 ==> r.body == ErrorBody("Query parameter required")
    // then a missing key
    ensures OrElse(query, "") != "" && OrElse(apiKey, "") == "" ==>
      r == Response(500, ErrorBody("TMDB API key not configured"))
    // success exactly when the upstream answered OK with a results array
    ensures r.status == 200 <==>
      OrElse(query, "") != "" && OrElse(apiKey, "") != ""
      && upstream.Reply? && upstream.ok && upstream.results.Some?
    ensures r.status == 200 ==>
      r.body == ResultsBody(ShapeResults(upstream.results.value, SearchType(typeParam)))
    ensures r.status in {200, 400, 500}
    ensures r.status != 200 ==> r.body.ErrorBody? && r.body.error != ""
    // the upstream failures: the status message, or what was thrown, with their fallbacks
    ensures OrElse(query, "") != "" && OrElse(apiKey, "") != "" && upstream.Reply? && !upstream.ok ==>
      r == Response(500, ErrorBody(OrElse(upstream.statusMessage, "TMDB API error")))
    ensures OrElse(query, "") != "" && OrElse(apiKey, "") != "" && upstream.Threw? ==>
      r == Response(500, ErrorBody(OrElse(Some(upstream.message), "Search failed")))
    ensures OrElse(query, "") != "" && OrElse(apiKey, "") != "" && upstream.Reply? && upstream.ok && upstream.results.None? ==>
      r == Response(500, ErrorBody(MissingResultsMessage))
  {
    if OrElse(query, "") == "" then
      Response(400, ErrorBody("Query parameter required"))
    else if OrElse(apiKey, "") == "" then
      Response(500, ErrorBody("TMDB API key not configured"))
    else
      match upstream
      case Threw(message) => Response(500, ErrorBody(OrElse(Some(message), "Search failed")))
      case Reply(ok, statusMessage, results) =>
        if !ok then
          // `throw new Error(status_message || 'TMDB API error')`, caught below
          Response(500, ErrorBody(OrElse(statusMessage, "TMDB API error")))
        else if results.None? then
          Response(500, ErrorBody(MissingResultsMessage))
        else
          Response(200, ResultsBody(ShapeResults(results.value, SearchType(typeParam))))
  }
}
