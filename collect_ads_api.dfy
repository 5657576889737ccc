/** Collecting ads through the ad-library API with cursor pagination
    (`src/01_collect_ads_api.py`).

    The HTTP client is replaced by `respond`: the outcome of the `k`-th GET
    request of a run, given what was requested. The ad objects the API
    returns are passed through untouched, so their type is a parameter. */
module CollectAdsApi {
  import opened Wrappers
  import opened Text
  import Config

  const ApiUrl: string := "https://graph.facebook.com/v18.0/ads_archive"

  /** The fields requested for every ad, in order. */
  const Fields: seq<string> := [
    "id", "ad_creation_time", "ad_creative_bodies", "ad_creative_link_captions",
    "ad_creative_link_descriptions", "ad_creative_link_titles", "ad_delivery_start_time",
    "ad_delivery_stop_time", "ad_snapshot_url", "bylines", "currency", "languages",
    "page_id", "page_name", "publisher_platforms", "estimated_audience_size"]

  /** The query parameters sent with the first request. */
  datatype ApiParams = ApiParams(
    accessToken: string,
    searchTerms: string,
    adType: string,
    reachedCountries: seq<string>,
    fields: string,
    limit: int,
    searchPageIds: Option<string>)

  /** One GET request: the URL, and the parameters when they are attached. */
  datatype Request = Request(url: string, params: Option<ApiParams>)

  /** What a request yields: a raised `RequestException` (a transport
      error or an error status), or a page of ads with its `paging.next`. */
  datatype Fetch<T> = Failed | Page(data: seq<T>, next: Option<string>)

  /** `collect_ads`'s parameter dictionary: `limit` is capped at 100, an
      absent or empty country list becomes `[country]`, and page ids are
      sent comma-joined only when there are some. */
  function RequestParams(token: string, query: string, country: string, limit: int, adType: string,
                         reachedCountries: Option<seq<string>>, pageIds: Option<seq<string>>): (p: ApiParams)
    ensures p.limit == Min(limit, 100) && p.limit <= 100
    ensures p.reachedCountries == (if reachedCountries.Some? && reachedCountries.value != [] then reachedCountries.value else [country])
    ensures p.searchPageIds.Some? <==> pageIds.Some? && pageIds.value != []
    ensures p.searchPageIds.Some? && (forall k :: 0 <= k < |pageIds.value| ==> ',' !in pageIds.value[k]) ==>
              Split(p.searchPageIds.value, ',') == pageIds.value
    ensures p.accessToken == token && p.searchTerms == query && p.adType == adType && p.fields == Join(Fields, ",")
  {
    var countries := if reachedCountries.Some? && reachedCountries.value != [] then reachedCountries.value else [country];
    var ids := if pageIds.Some? && pageIds.value != [] then Some(Join(pageIds.value, ",")) else None;
    if ids.Some? && forall k :: 0 <= k < |pageIds.value| ==> ',' !in pageIds.value[k] then
      SplitJoin(pageIds.value, ',');
      ApiParams(token, query, adType, countries, Join(Fields, ","), Min(limit, 100), ids)
    else ApiParams(token, query, adType, countries, Join(Fields, ","), Min(limit, 100), ids)
  }

  /** What a run collects before it is cut to `limit`, and the requests it
      issues: requests continue while fewer than `limit` ads are held, a
      failed request, an empty page or a page without a `next` link stops
      the run, and only a request to the base URL carries the parameters. */
  datatype Run<T> = Run(ads: seq<T>, requests: seq<Request>)

  function Collect<T>(respond: (nat, Request) -> Fetch<T>, params: ApiParams, limit: int,
                      k: nat, all: seq<T>, url: string): (r: Run<T>)
    ensures |r.ads| >= |all|
    ensures |all| < limit ==> |r.requests| >= 1
    ensures |all| >= limit ==> r == Run(all, [])
    decreases Max(limit - |all|, 0)
  {
    if |all| >= limit then Run(all, [])
    else
      var req := Request(url, if url == ApiUrl then Some(params) else None);
      match respond(k, req)
      case Failed => Run(all, [req])
      case Page(data, next) =>
        if data == [] then Run(all, [req])
        else if !(next.Some? && next.value != "") then Run(all + data, [req])
        else
          var rest := Collect(respond, params, limit, k + 1, all + data, next.value);
          Run(rest.ads, [req] + rest.requests)
  }

  /** The request loop of `collect_ads`. */
  method Paginate<T>(respond: (nat, Request) -> Fetch<T>, params: ApiParams, limit: int)
    returns (allAds: seq<T>, requests: seq<Request>)
    ensures Run(allAds, requests) == Collect(respond, params, limit, 0, [], ApiUrl)
  {
    ghost var total := Collect(respond, params, limit, 0, [], ApiUrl);
    allAds := [];
    var nextUrl := ApiUrl;
    var k := 0;
    requests := [];
    while |allAds| < limit
      invariant requests + Collect(respond, params, limit, k, allAds, nextUrl).requests == total.requests
      invariant Collect(respond, params, limit, k, allAds, nextUrl).ads == total.ads
      decreases limit - |allAds|
    {
      ghost var cur := Collect(respond, params, limit, k, allAds, nextUrl);
      ghost var before := requests;
      var req := Request(nextUrl, if nextUrl == ApiUrl then Some(params) else None);
      var response := respond(k, req);
      requests := requests + [req];
      if response.Failed? || response.data == [] {
        assert cur == Run(allAds, [req]);
        assert requests == total.requests && allAds == total.ads;
        break;
      }
      allAds := allAds + response.data;
      if !(response.next.Some? && response.next.value != "") {
        assert cur == Run(allAds, [req]);
        assert requests == total.requests && allAds == total.ads;
        break;
      }
      ghost var rest := Collect(respond, params, limit, k + 1, allAds, response.next.value);
      assert cur == Run(rest.ads, [req] + rest.requests);
      assert requests + rest.requests == before + cur.requests by {
        assert requests + rest.requests == before + ([req] + rest.requests);
      }
      nextUrl := response.next.value;
      k := k + 1;
    }
  }

  /** `collect_ads`: fails before any request when the access token is
      unset; otherwise pages through the results and returns the first
      `limit` ads collected (Python's `all_ads[:limit]`). */
  method CollectAds<T>(env: Config.Env, query: string, country: string, limit: int, adType: string,
                       reachedCountries: Option<seq<string>>, pageIds: Option<seq<string>>,
                       respond: (nat, Request) -> Fetch<T>)
    returns (r: Result<seq<T>, Config.ConfigError>, requests: seq<Request>)
    ensures Config.MetaAccessToken(env).Err? ==> r == Err(Config.MetaAccessToken(env).error) && requests == []
    ensures Config.MetaAccessToken(env).Ok? ==>
              var params := RequestParams(Config.MetaAccessToken(env).value, query, country, limit, adType,
                                          reachedCountries, pageIds);
              var run := Collect(respond, params, limit, 0, [], ApiUrl);
              r == Ok(Prefix(run.ads, limit)) && requests == run.requests
  {
    var token := Config.MetaAccessToken(env);
    if token.Err? {
      return Err(token.error), [];
    }
    var params := RequestParams(token.value, query, country, limit, adType, reachedCountries, pageIds);
    var allAds;
    allAds, requests := Paginate(respond, params, limit);
    r := Ok(Prefix(allAds, limit));
  }

  /** The run never returns more than `limit` ads, and a first request that
      fails or returns an empty page yields no ads at all. */
  lemma CollectedWithinLimit<T>(respond: (nat, Request) -> Fetch<T>, params: ApiParams, limit: int)
    ensures |Prefix(Collect(respond, params, limit, 0, [], ApiUrl).ads, limit)| <= Max(limit, 0)
    ensures limit > 0 && (respond(0, Request(ApiUrl, Some(params))).Failed? ||
                          respond(0, Request(ApiUrl, Some(params))).data == []) ==>
              Collect(respond, params, limit, 0, [], ApiUrl) == Run([], [Request(ApiUrl, Some(params))])
  {
  }

  /** The ads already held stay at the front: pages are only appended. */
  lemma {:induction false} CollectExtends<T>(respond: (nat, Request) -> Fetch<T>, params: ApiParams,
                                             limit: int, k: nat, all: seq<T>, url: string)
    ensures all <= Collect(respond, params, limit, k, all, url).ads
    decreases Max(limit - |all|, 0)
  {
    if |all| < limit {
      var req := Request(url, if url == ApiUrl then Some(params) else None);
      var f := respond(k, req);
      if f.Page? && f.data != [] && f.next.Some? && f.next.value != "" {
        CollectExtends(respond, params, limit, k + 1, all + f.data, f.next.value);
        assert all <= all + f.data;
      }
    }
  }

  /** Only the first request goes to the base URL: it carries the
      parameters, and a later request follows the `next` link it was given
      (which carries its own cursor and parameters). */
  lemma {:induction false} OnlyBaseUrlCarriesParams<T>(respond: (nat, Request) -> Fetch<T>, params: ApiParams,
                                                       limit: int, k: nat, all: seq<T>, url: string)
    ensures forall j :: 0 <= j < |Collect(respond, params, limit, k, all, url).requests| ==>
              var q := Collect(respond, params, limit, k, all, url).requests[j];
              q.params.Some? <==> q.url == ApiUrl
    ensures forall j :: 0 <= j < |Collect(respond, params, limit, k, all, url).requests| ==>
              Collect(respond, params, limit, k, all, url).requests[j].params in {None, Some(params)}
    decreases Max(limit - |all|, 0)
  {
    if |all| < limit {
      var req := Request(url, if url == ApiUrl then Some(params) else None);
      var f := respond(k, req);
      if f.Page? && f.data != [] && f.next.Some? && f.next.value != "" {
        OnlyBaseUrlCarriesParams(respond, params, limit, k + 1, all + f.data, f.next.value);
      }
    }
  }

  /** `save_raw_data`'s file: `{collected_at, query, count, ads}`. */
  datatype RawFile<T> = RawFile(collectedAt: string, query: string, count: nat, ads: seq<T>)

  /** `save_raw_data`'s file name, `<timestamp>_<query sanitised to 30>.json`,
      and its content; the clock is passed in. */
  function SaveRawData<T>(ads: seq<T>, query: string, timestamp: string, now: string): (r: (string, RawFile<T>))
    ensures r.0 == timestamp + "_" + SafeName(query, 30) + ".json"
    ensures r.1.count == |r.1.ads| && r.1.ads == ads && r.1.query == query && r.1.collectedAt == now
  {
    (timestamp + "_" + SafeName(query, 30) + ".json", RawFile(now, query, |ads|, ads))
  }
}
