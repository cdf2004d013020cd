/** The pure part of the catalogue service (src/services/movieService.ts): the
    envelope normalisers, the query-string builders, the endpoint choices, the
    detail transform and the image proxy URL. `api.get` is a parameter: a function
    from the endpoint path to the decoded body, or to the error it throws. */
module MovieService {
  import opened Base
  import opened JsText
  import opened UriEncoding
  import opened MovieTypes

  // ---- envelope normalisation ----

  /** `defaultPagination(params)`: nothing known, one page, the requested page and
      size or 1 and 24 when they are absent (`??`, so an explicit 0 is kept). */
  function DefaultPagination(params: SearchParams): (p: PageInfo)
    ensures p.totalItems == 0 && p.totalPages == 1
    ensures params.limit.Some? ==> p.totalItemsPerPage == params.limit.value
    ensures params.limit.None? ==> p.totalItemsPerPage == 24
    ensures params.page.Some? ==> p.currentPage == params.page.value
    ensures params.page.None? ==> p.currentPage == 1
  {
    PageInfo(0, params.limit.GetOr(24), params.page.GetOr(1), 1)
  }

  /** The pagination block a successful collection carries: `data.pagination`,
      else `data.params.pagination`, else none. */
  function ServerPagination(data: CollectionData): Option<PageInfo> {
    if data.pagination.Some? then data.pagination
    else if data.params.Some? && data.params.value.pagination.Some? then data.params.value.pagination
    else None
  }

  /** `transformCollectionResponse(payload, params)`. */
  function TransformCollectionResponse(payload: CollectionResponse, params: SearchParams): (r: MovieListResponse)
    ensures r.status <==> payload.status.Truthy() && payload.data.Some?
    ensures r.status ==> r.items == payload.data.value.items.GetOr([])
    ensures r.status ==> r.pagination == ServerPagination(payload.data.value).GetOr(DefaultPagination(params))
    ensures r.status ==> r.pathImage == OrEmpty(payload.data.value.cdnImage)
    ensures r.status ==> r.titlePage == OrEmpty(payload.data.value.titlePage)
    ensures !r.status ==> r == MovieListResponse(false, [], DefaultPagination(params), "", "")
  {
    if payload.status.Truthy() && payload.data.Some? then
      var data := payload.data.value;
      var pagination :=
        if data.pagination.Some? then data.pagination.value
        else if data.params.Some? && data.params.value.pagination.Some? then data.params.value.pagination.value
        else DefaultPagination(params);
      MovieListResponse(true, data.items.GetOr([]), pagination, OrEmpty(data.cdnImage), OrEmpty(data.titlePage))
    else
      MovieListResponse(false, [], DefaultPagination(params), "", "")
  }

  /** A page block that a page component can render: at least one page, a
      non-negative item count and a positive page size, and a current page in range. */
  predicate WellFormed(p: PageInfo) {
    p.totalPages >= 1 && p.totalItems >= 0 && p.totalItemsPerPage >= 1 &&
    1 <= p.currentPage <= p.totalPages
  }

  /** Requests for page 1 with a positive page size always yield a well-formed
      envelope, whatever the server answered, provided any pagination the server
      sends is well-formed: the default fills every gap. */
  lemma TransformWellFormed(payload: CollectionResponse, params: SearchParams)
    requires params.page == None || params.page == Some(1)
    requires params.limit == None || params.limit.value >= 1
    requires payload.data.Some? && payload.data.value.pagination.Some? ==> WellFormed(payload.data.value.pagination.value)
    requires payload.data.Some? && payload.data.value.params.Some? && payload.data.value.params.value.pagination.Some? ==>
               WellFormed(payload.data.value.params.value.pagination.value)
    ensures WellFormed(TransformCollectionResponse(payload, params).pagination)
  {
  }

  /** A failed response normalises to the same empty envelope whatever else it
      holds: page components see one uniform empty state. */
  lemma TransformFailureUniform(a: CollectionResponse, b: CollectionResponse, params: SearchParams)
    requires !a.status.Truthy() || a.data.None?
    requires !b.status.Truthy() || b.data.None?
    ensures TransformCollectionResponse(a, params) == TransformCollectionResponse(b, params)
    ensures TransformCollectionResponse(a, params).items == []
    ensures TransformCollectionResponse(a, params).pagination.totalPages == 1
    ensures TransformCollectionResponse(a, params).pagination.totalItems == 0
    ensures TransformCollectionResponse(a, params).pagination.currentPage == params.page.GetOr(1)
  {
  }

  /** The normalised envelope wrapped back as a collection response. */
  function AsCollection(r: MovieListResponse): CollectionResponse {
    CollectionResponse(JBool(true), "", Some(CollectionData(
      Some(r.items), Some(r.titlePage), Some(r.pagination), None, Some(r.pathImage))))
  }

  /** A successful envelope is a fixed point of normalisation: nothing of it is
      lost or altered, whatever parameters are passed. */
  lemma TransformFixedPoint(r: MovieListResponse, params: SearchParams)
    requires r.status
    ensures TransformCollectionResponse(AsCollection(r), params) == r
  {
  }

  /** `params.page || 1`, as the search fallback computes the page. */
  function SearchPage(params: SearchParams): (page: int)
    ensures page != 0
    ensures params.page.Some? && params.page.value != 0 ==> page == params.page.value
  {
    if params.page.Some? && params.page.value != 0 then params.page.value else 1
  }

  /** The search fallback pagination: per-page is always 24. */
  function SearchFallbackPagination(params: SearchParams): (p: PageInfo)
    ensures p.totalItems == 0 && p.totalPages == 1 && p.totalItemsPerPage == 24
    ensures p.currentPage == SearchPage(params) && p.currentPage != 0
  {
    PageInfo(0, 24, SearchPage(params), 1)
  }

  /** Only the exact string `'success'` marks a search as successful. */
  predicate SearchSucceeded(resp: Option<SearchResponse>) {
    resp.Some? && resp.value.status == JString("success") && resp.value.data.Some?
  }

  /** The response mapping inside `searchMovies`. */
  function MapSearchResponse(resp: Option<SearchResponse>, params: SearchParams): (r: MovieListResponse)
    ensures r.status <==> SearchSucceeded(resp)
    ensures r.pathImage == ""
    ensures r.status ==> r.items == resp.value.data.value.items.GetOr([])
    ensures r.status && resp.value.data.value.params.Some? && resp.value.data.value.params.value.pagination.Some? ==>
              r.pagination == resp.value.data.value.params.value.pagination.value
    ensures r.status && !(resp.value.data.value.params.Some? && resp.value.data.value.params.value.pagination.Some?) ==>
              r.pagination == SearchFallbackPagination(params)
    ensures r.status ==> r.titlePage == OrEmpty(resp.value.data.value.titlePage)
    ensures !r.status ==> r == MovieListResponse(false, [], SearchFallbackPagination(params), "", "")
  {
    if resp.Some? && resp.value.status == JString("success") && resp.value.data.Some? then
      var data := resp.value.data.value;
      var pagination :=
        if data.params.Some? && data.params.value.pagination.Some? then data.params.value.pagination.value
        else SearchFallbackPagination(params);
      MovieListResponse(true, data.items.GetOr([]), pagination, "", OrEmpty(data.titlePage))
    else
      MovieListResponse(false, [], SearchFallbackPagination(params), "", "")
  }

  /** A truthy status that is not the string `'success'` (for one, JSON `true`)
      is a failed search, while the collection normaliser would accept it. */
  lemma SearchNeedsSuccessString(data: SearchData, params: SearchParams)
    ensures !MapSearchResponse(Some(SearchResponse(JBool(true), "", Some(data))), params).status
    ensures TransformCollectionResponse(
              CollectionResponse(JBool(true), "", Some(CollectionData(data.items, data.titlePage, None, data.params, None))),
              params).status
  {
  }

  /** The search mapping never looks at `limit`; the collection default does. */
  lemma SearchIgnoresLimit(resp: Option<SearchResponse>, params: SearchParams, limit: Option<int>)
    ensures MapSearchResponse(resp, params) == MapSearchResponse(resp, params.(limit := limit))
    ensures DefaultPagination(params).totalItemsPerPage == params.limit.GetOr(24)
  {
  }

  /** Page 0 is kept by the collection default (`??`) but replaced by 1 in the
      search fallback (`||`). */
  lemma PageZeroDiffers(params: SearchParams)
    requires params.page == Some(0)
    ensures DefaultPagination(params).currentPage == 0
    ensures SearchFallbackPagination(params).currentPage == 1
  {
  }

  // ---- query strings ----

  /** The parameters the builders may append, in the order every builder appends them. */
  datatype ParamKey = Keyword | Page | SortField | SortType | SortLang | Category | Country | Year | Limit

  function Rank(k: ParamKey): nat {
    match k
    case Keyword => 0 case Page => 1 case SortField => 2 case SortType => 3
    case SortLang => 4 case Category => 5 case Country => 6 case Year => 7 case Limit => 8
  }

  /** The query-string name of a parameter. */
  function KeyName(k: ParamKey): string {
    match k
    case Keyword => "keyword" case Page => "page" case SortField => "sort_field"
    case SortType => "sort_type" case SortLang => "sort_lang" case Category => "category"
    case Country => "country" case Year => "year" case Limit => "limit"
  }

  /** The text appended for `k`, present exactly when the field is truthy: a
      non-empty string, or a non-zero number in decimal. */
  function ParamValue(p: SearchParams, k: ParamKey): Option<string> {
    match k
    case Keyword => if p.keyword.Some? && p.keyword.value != "" then p.keyword else None
    case Page => if p.page.Some? && p.page.value != 0 then Some(IntToString(p.page.value)) else None
    case SortField => if p.sortField.Some? && p.sortField.value != "" then p.sortField else None
    case SortType => if p.sortType.Some? && p.sortType.value != "" then p.sortType else None
    case SortLang => if p.sortLang.Some? && p.sortLang.value != "" then p.sortLang else None
    case Category => if p.category.Some? && p.category.value != "" then p.category else None
    case Country => if p.country.Some? && p.country.value != "" then p.country else None
    case Year => if p.year.Some? && p.year.value != 0 then Some(IntToString(p.year.value)) else None
    case Limit => if p.limit.Some? && p.limit.value != 0 then Some(IntToString(p.limit.value)) else None
  }

  datatype QueryParam = QueryParam(key: ParamKey, value: string)

  /** The parameters among `keys` that are truthy in `p`, in the order of `keys`:
      what a run of `if (params.x) queryParams.append('x', ...)` produces. */
  function Select(keys: seq<ParamKey>, p: SearchParams): (q: seq<QueryParam>)
    ensures |q| <= |keys|
  {
    if keys == [] then []
    else
      var last := keys[|keys| - 1];
      var init := Select(keys[..|keys| - 1], p);
      match ParamValue(p, last)
      case None => init
      case Some(v) => init + [QueryParam(last, v)]
  }

  const SearchKeys := [Keyword, Page, SortField, SortType, SortLang, Category, Country, Year, Limit]
  const ListKeys := [Page, SortField, SortType, SortLang, Category, Country, Year, Limit]
  const CategoryKeys := [Page, SortField, SortType, SortLang, Country, Year, Limit]
  const CountryKeys := [Page, SortField, SortType, SortLang, Category, Year, Limit]
  const YearKeys := [Page, SortField, SortType, SortLang, Category, Country, Limit]

  /** A parameter is emitted, with a given value, exactly when its builder handles
      it and it is truthy with that text. */
  lemma {:induction false} SelectMember(keys: seq<ParamKey>, p: SearchParams, k: ParamKey, v: string)
    ensures QueryParam(k, v) in Select(keys, p) <==> k in keys && ParamValue(p, k) == Some(v)
  {
    if keys != [] {
      var init := keys[..|keys| - 1];
      SelectMember(init, p, k, v);
      assert keys == init + [keys[|keys| - 1]];
      assert k in keys <==> k in init || k == keys[|keys| - 1];
    }
  }

  predicate Ranked(keys: seq<ParamKey>) {
    forall i, j :: 0 <= i < j < |keys| ==> Rank(keys[i]) < Rank(keys[j])
  }

  /** Each key ranks above the one before it. */
  predicate Increasing(keys: seq<ParamKey>) {
    forall i :: 0 < i < |keys| ==> Rank(keys[i - 1]) < Rank(keys[i])
  }

  lemma {:induction false} IncreasingRanked(keys: seq<ParamKey>)
    requires Increasing(keys)
    ensures Ranked(keys)
  {
    forall i, j | 0 <= i < j < |keys| ensures Rank(keys[i]) < Rank(keys[j]) {
      IncreasingBetween(keys, i, j);
    }
  }

  lemma {:induction false} IncreasingBetween(keys: seq<ParamKey>, i: int, j: int)
    requires Increasing(keys) && 0 <= i < j < |keys|
    ensures Rank(keys[i]) < Rank(keys[j])
    decreases j - i
  {
    if i + 1 < j {
      IncreasingBetween(keys, i, j - 1);
    }
  }

  predicate KeysRanked(q: seq<QueryParam>) {
    forall i, j :: 0 <= i < j < |q| ==> Rank(q[i].key) < Rank(q[j].key)
  }

  /** Emitted parameters keep the builders' fixed order, so none appears twice. */
  lemma {:induction false} SelectOrdered(keys: seq<ParamKey>, p: SearchParams)
    requires Ranked(keys)
    ensures KeysRanked(Select(keys, p))
  {
    if keys != [] {
      var n := |keys| - 1;
      var init := keys[..n];
      assert Ranked(init);
      SelectOrdered(init, p);
      var q := Select(keys, p);
      var prev := Select(init, p);
      if ParamValue(p, keys[n]).Some? {
        var last := QueryParam(keys[n], ParamValue(p, keys[n]).value);
        assert q == prev + [last];
        forall x | x in prev ensures Rank(x.key) < Rank(keys[n]) {
          SelectMember(init, p, x.key, x.value);
          var i :| 0 <= i < |init| && init[i] == x.key;
          assert keys[i] == x.key;
        }
        forall i, j | 0 <= i < j < |q| ensures Rank(q[i].key) < Rank(q[j].key) {
          if j < |prev| {
            assert q[i] == prev[i] && q[j] == prev[j];
          } else {
            assert q[j] == last && q[i] == prev[i] && q[i] in prev;
          }
        }
      } else {
        assert q == prev;
      }
    }
  }

  /** Handling one more parameter appends it, when truthy, after the others. */
  lemma SelectSnoc(keys: seq<ParamKey>, k: ParamKey, p: SearchParams)
    ensures Select(keys + [k], p) ==
      Select(keys, p) + (if ParamValue(p, k).Some? then [QueryParam(k, ParamValue(p, k).value)] else [])
  {
    assert (keys + [k])[..|keys|] == keys;
  }

  /** One `if (params.k) queryParams.append('k', ...)` step of a builder, on a
      query that holds the truthy parameters among `handled`. */
  method AppendIfTruthy(q: seq<QueryParam>, p: SearchParams, k: ParamKey, ghost handled: seq<ParamKey>)
    returns (r: seq<QueryParam>)
    requires q == Select(handled, p)
    ensures r == Select(handled + [k], p)
  {
    var v := ParamValue(p, k);
    r := q;
    if v.Some? {
      r := r + [QueryParam(k, v.value)];
    }
    SelectSnoc(handled, k, p);
  }

  /** Nothing is emitted exactly when no handled parameter is truthy. */
  lemma {:induction false} SelectEmptyIff(keys: seq<ParamKey>, p: SearchParams)
    ensures Select(keys, p) == [] <==> forall k :: k in keys ==> ParamValue(p, k).None?
  {
    if keys != [] {
      var init := keys[..|keys| - 1];
      SelectEmptyIff(init, p);
      assert keys == init + [keys[|keys| - 1]];
      assert forall k :: k in keys <==> k in init || k == keys[|keys| - 1];
    }
  }

  /** The name/value pairs handed to the serializer. */
  function Pairs(q: seq<QueryParam>): (r: seq<(string, string)>)
    ensures |r| == |q|
  {
    if q == [] then [] else [(KeyName(q[0].key), q[0].value)] + Pairs(q[1..])
  }

  /** `${path}${queryString ? `?${queryString}` : ''}`. */
  function Endpoint(path: string, q: seq<QueryParam>): string {
    var qs := SerializeQuery(Pairs(q));
    path + (if qs == [] then [] else "?" + qs)
  }

  /** The endpoint is the bare path exactly when no parameter was emitted;
      otherwise it is the path, `?`, and the serialized parameters. */
  lemma EndpointBareIff(path: string, keys: seq<ParamKey>, p: SearchParams)
    ensures Endpoint(path, Select(keys, p)) == path <==> forall k :: k in keys ==> ParamValue(p, k).None?
  {
    SelectEmptyIff(keys, p);
    var q := Select(keys, p);
    if q != [] {
      assert |Endpoint(path, q)| > |path|;
    }
  }

  /** The category endpoint never sends `category`, the country endpoint never
      sends `country` and the year endpoint never sends `year`; each sends every
      other truthy filter. */
  lemma EndpointsOmitTheirOwnFilter(p: SearchParams, v: string)
    ensures QueryParam(Category, v) !in Select(CategoryKeys, p)
    ensures QueryParam(Country, v) !in Select(CountryKeys, p)
    ensures QueryParam(Year, v) !in Select(YearKeys, p)
    ensures ParamValue(p, Country) == Some(v) ==> QueryParam(Country, v) in Select(CategoryKeys, p)
    ensures ParamValue(p, Category) == Some(v) ==> QueryParam(Category, v) in Select(CountryKeys, p)
    ensures ParamValue(p, Category) == Some(v) ==> QueryParam(Category, v) in Select(YearKeys, p)
  {
    SelectMember(CategoryKeys, p, Category, v);
    SelectMember(CountryKeys, p, Country, v);
    SelectMember(YearKeys, p, Year, v);
    SelectMember(CategoryKeys, p, Country, v);
    SelectMember(CountryKeys, p, Category, v);
    SelectMember(YearKeys, p, Category, v);
  }

  /** What a list-producing request yields for the server's answer: the
      normalised envelope, or the request's error passed on. */
  function Normalised(answer: Result<CollectionResponse>, params: SearchParams): (r: Result<MovieListResponse>)
    ensures r.Ok? <==> answer.Ok?
    ensures r.Ok? ==> r.value == TransformCollectionResponse(answer.value, params)
    ensures r.Err? ==> r.message == answer.message
  {
    match answer
    case Ok(body) => Ok(TransformCollectionResponse(body, params))
    case Err(e) => Err(e)
  }

  /** `getMovieList(typeList, params)`: builds `/v1/api/danh-sach/{typeList}` with
      its query, fetches it and normalises the answer; a failed request throws. */
  method GetMovieList(typeList: string, params: SearchParams, api: string -> Result<CollectionResponse>)
    returns (endpoint: string, result: Result<MovieListResponse>)
    ensures endpoint == Endpoint("/v1/api/danh-sach/" + typeList, Select(ListKeys, params))
    ensures result == Normalised(api(endpoint), params)
  {
    var q: seq<QueryParam> := [];
    ghost var handled: seq<ParamKey> := [];
    q := AppendIfTruthy(q, params, Page, handled); handled := handled + [Page];
    q := AppendIfTruthy(q, params, SortField, handled); handled := handled + [SortField];
    q := AppendIfTruthy(q, params, SortType, handled); handled := handled + [SortType];
    q := AppendIfTruthy(q, params, SortLang, handled); handled := handled + [SortLang];
    q := AppendIfTruthy(q, params, Category, handled); handled := handled + [Category];
    q := AppendIfTruthy(q, params, Country, handled); handled := handled + [Country];
    q := AppendIfTruthy(q, params, Year, handled); handled := handled + [Year];
    q := AppendIfTruthy(q, params, Limit, handled); handled := handled + [Limit];
    assert handled == ListKeys;
    endpoint := Endpoint("/v1/api/danh-sach/" + typeList, q);
    result := Normalised(api(endpoint), params);
  }

  /** Every builder appends in the same fixed order, so no name is repeated. */
  lemma BuildersOrdered(p: SearchParams)
    ensures KeysRanked(Select(SearchKeys, p)) && KeysRanked(Select(ListKeys, p))
    ensures KeysRanked(Select(CategoryKeys, p)) && KeysRanked(Select(CountryKeys, p))
    ensures KeysRanked(Select(YearKeys, p))
  {
    IncreasingRanked(SearchKeys);
    IncreasingRanked(ListKeys);
    IncreasingRanked(CategoryKeys);
    IncreasingRanked(CountryKeys);
    IncreasingRanked(YearKeys);
    SelectOrdered(SearchKeys, p);
    SelectOrdered(ListKeys, p);
    SelectOrdered(CategoryKeys, p);
    SelectOrdered(CountryKeys, p);
    SelectOrdered(YearKeys, p);
  }

  /** What a search yields for the server's answer: the mapped envelope, or the
      request's error rethrown. */
  function Searched(answer: Result<Option<SearchResponse>>, params: SearchParams): (r: Result<MovieListResponse>)
    ensures r.Ok? <==> answer.Ok?
    ensures r.Ok? ==> r.value == MapSearchResponse(answer.value, params)
    ensures r.Err? ==> r.message == answer.message
  {
    match answer
    case Ok(body) => Ok(MapSearchResponse(body, params))
    case Err(e) => Err(e)
  }

  /** `searchMovies(params)`: always requests `/v1/api/tim-kiem?` followed by the
      query (the `?` is written even when the query is empty) and maps the answer;
      a failed request is rethrown. `api` yields `None` for an empty body. */
  method SearchMovies(params: SearchParams, api: string -> Result<Option<SearchResponse>>)
    returns (endpoint: string, result: Result<MovieListResponse>)
    ensures endpoint == "/v1/api/tim-kiem?" + SerializeQuery(Pairs(Select(SearchKeys, params)))
    ensures result == Searched(api(endpoint), params)
  {
    var q: seq<QueryParam> := [];
    ghost var handled: seq<ParamKey> := [];
    q := AppendIfTruthy(q, params, Keyword, handled); handled := handled + [Keyword];
    q := AppendIfTruthy(q, params, Page, handled); handled := handled + [Page];
    q := AppendIfTruthy(q, params, SortField, handled); handled := handled + [SortField];
    q := AppendIfTruthy(q, params, SortType, handled); handled := handled + [SortType];
    q := AppendIfTruthy(q, params, SortLang, handled); handled := handled + [SortLang];
    q := AppendIfTruthy(q, params, Category, handled); handled := handled + [Category];
    q := AppendIfTruthy(q, params, Country, handled); handled := handled + [Country];
    q := AppendIfTruthy(q, params, Year, handled); handled := handled + [Year];
    q := AppendIfTruthy(q, params, Limit, handled); handled := handled + [Limit];
    assert handled == SearchKeys;
    endpoint := "/v1/api/tim-kiem?" + SerializeQuery(Pairs(q));
    result := Searched(api(endpoint), params);
  }

  /** The search endpoint always carries the `?`, and carries nothing after it
      exactly when no parameter is truthy. */
  lemma SearchEndpointShape(params: SearchParams)
    ensures var e := "/v1/api/tim-kiem?" + SerializeQuery(Pairs(Select(SearchKeys, params)));
      e[|e| - 1] == '?' <==> forall k :: k in SearchKeys ==> ParamValue(params, k).None?
  {
    SelectEmptyIff(SearchKeys, params);
    var qs := SerializeQuery(Pairs(Select(SearchKeys, params)));
    if qs != [] {
      var e := "/v1/api/tim-kiem?" + qs;
      assert e[|e| - 1] == qs[|qs| - 1] && qs[|qs| - 1] in qs;
    }
  }

  /** `getMoviesByCategory(categorySlug, params)`: `/v1/api/the-loai/{slug}`,
      without a `category` parameter. */
  method GetMoviesByCategory(categorySlug: string, params: SearchParams, api: string -> Result<CollectionResponse>)
    returns (endpoint: string, result: Result<MovieListResponse>)
    ensures endpoint == Endpoint("/v1/api/the-loai/" + categorySlug, Select(CategoryKeys, params))
    ensures result == Normalised(api(endpoint), params)
  {
    var q: seq<QueryParam> := [];
    ghost var handled: seq<ParamKey> := [];
    q := AppendIfTruthy(q, params, Page, handled); handled := handled + [Page];
    q := AppendIfTruthy(q, params, SortField, handled); handled := handled + [SortField];
    q := AppendIfTruthy(q, params, SortType, handled); handled := handled + [SortType];
    q := AppendIfTruthy(q, params, SortLang, handled); handled := handled + [SortLang];
    q := AppendIfTruthy(q, params, Country, handled); handled := handled + [Country];
    q := AppendIfTruthy(q, params, Year, handled); handled := handled + [Year];
    q := AppendIfTruthy(q, params, Limit, handled); handled := handled + [Limit];
    assert handled == CategoryKeys;
    endpoint := Endpoint("/v1/api/the-loai/" + categorySlug, q);
    result := Normalised(api(endpoint), params);
  }

  /** `getMoviesByCountry(countrySlug, params)`: `/v1/api/quoc-gia/{slug}`,
      without a `country` parameter. */
  method GetMoviesByCountry(countrySlug: string, params: SearchParams, api: string -> Result<CollectionResponse>)
    returns (endpoint: string, result: Result<MovieListResponse>)
    ensures endpoint == Endpoint("/v1/api/quoc-gia/" + countrySlug, Select(CountryKeys, params))
    ensures result == Normalised(api(endpoint), params)
  {
    var q: seq<QueryParam> := [];
    ghost var handled: seq<ParamKey> := [];
    q := AppendIfTruthy(q, params, Page, handled); handled := handled + [Page];
    q := AppendIfTruthy(q, params, SortField, handled); handled := handled + [SortField];
    q := AppendIfTruthy(q, params, SortType, handled); handled := handled + [SortType];
    q := AppendIfTruthy(q, params, SortLang, handled); handled := handled + [SortLang];
    q := AppendIfTruthy(q, params, Category, handled); handled := handled + [Category];
    q := AppendIfTruthy(q, params, Year, handled); handled := handled + [Year];
    q := AppendIfTruthy(q, params, Limit, handled); handled := handled + [Limit];
    assert handled == CountryKeys;
    endpoint := Endpoint("/v1/api/quoc-gia/" + countrySlug, q);
    result := Normalised(api(endpoint), params);
  }

  /** `getMoviesByYear(year, params)`: `/v1/api/nam/{year}`, without a `year`
      parameter. */
  method GetMoviesByYear(year: int, params: SearchParams, api: string -> Result<CollectionResponse>)
    returns (endpoint: string, result: Result<MovieListResponse>)
    ensures endpoint == Endpoint("/v1/api/nam/" + IntToString(year), Select(YearKeys, params))
    ensures result == Normalised(api(endpoint), params)
  {
    var q: seq<QueryParam> := [];
    ghost var handled: seq<ParamKey> := [];
    q := AppendIfTruthy(q, params, Page, handled); handled := handled + [Page];
    q := AppendIfTruthy(q, params, SortField, handled); handled := handled + [SortField];
    q := AppendIfTruthy(q, params, SortType, handled); handled := handled + [SortType];
    q := AppendIfTruthy(q, params, SortLang, handled); handled := handled + [SortLang];
    q := AppendIfTruthy(q, params, Category, handled); handled := handled + [Category];
    q := AppendIfTruthy(q, params, Country, handled); handled := handled + [Country];
    q := AppendIfTruthy(q, params, Limit, handled); handled := handled + [Limit];
    assert handled == YearKeys;
    endpoint := Endpoint("/v1/api/nam/" + IntToString(year), q);
    result := Normalised(api(endpoint), params);
  }

  // ---- latest movies ----

  datatype ApiVersion = V1 | V2 | V3

  function VersionName(v: ApiVersion): string {
    match v case V1 => "v1" case V2 => "v2" case V3 => "v3"
  }

  const LatestPath := "/danh-sach/phim-moi-cap-nhat"

  /** The endpoint `getLatestMovies(page, version)` requests. */
  function LatestEndpoint(page: int, version: ApiVersion): (e: string)
    ensures StartsWith(e, LatestPath)
    ensures |e| == |LatestPath| + (if version == V1 then 6 else 9) + |IntToString(page)|
    ensures e[|e| - |IntToString(page)|..] == IntToString(page)
  {
    var mid := if version == V1 then "?page=" else "-" + VersionName(version) + "?page=";
    Split3(LatestPath, mid, IntToString(page));
    LatestPath + mid + IntToString(page)
  }

  /** The page number written into a latest-movies endpoint: what follows `page=`. */
  function LatestPageText(e: string): string {
    if |e| >= |LatestPath| + 6 && e[|LatestPath|] == '?' then e[|LatestPath| + 6..]
    else if |e| >= |LatestPath| + 9 then e[|LatestPath| + 9..]
    else []
  }

  lemma Split3(a: string, b: string, c: string)
    ensures (a + b + c)[..|a|] == a
    ensures (a + b + c)[|a| + |b|..] == c
    ensures |a + b + c| == |a| + |b| + |c|
    ensures forall i :: 0 <= i < |b| ==> (a + b + c)[|a| + i] == b[i]
  {
  }

  /** Only `v2` and `v3` put a suffix in the path; the page text reads back as
      the page, so different arguments never share an endpoint. */
  lemma LatestEndpointReadBack(page: int, version: ApiVersion)
    ensures StartsWith(LatestEndpoint(page, version), LatestPath)
    ensures LatestEndpoint(page, version)[|LatestPath|] == (if version == V1 then '?' else '-')
    ensures version != V1 ==> LatestEndpoint(page, version)[|LatestPath| + 2] == VersionName(version)[1]
    ensures var m := if version == V1 then "?page=" else "-" + VersionName(version) + "?page=";
      LatestEndpoint(page, version)[|LatestPath|..|LatestPath| + |m|] == m
    ensures LatestPageText(LatestEndpoint(page, version)) == IntToString(page)
    ensures ParseInt(LatestPageText(LatestEndpoint(page, version))) == Some(page)
  {
    var digits := IntToString(page);
    var mid := if version == V1 then "?page=" else "-" + VersionName(version) + "?page=";
    var e := LatestEndpoint(page, version);
    assert e == LatestPath + mid + digits;
    Split3(LatestPath, mid, digits);
    assert e[|LatestPath|] == mid[0];
    if version == V1 {
      assert |mid| == 6 && mid[0] == '?';
    } else {
      assert |mid| == 9 && mid[0] == '-' && mid[2] == VersionName(version)[1];
      assert e[|LatestPath| + 2] == mid[2];
    }
    assert e[|LatestPath|..|LatestPath| + |mid|] == mid;
    assert LatestPageText(e) == digits;
    ParseIntToString(page);
  }

  lemma LatestEndpointInjective(p1: int, v1: ApiVersion, p2: int, v2: ApiVersion)
    requires LatestEndpoint(p1, v1) == LatestEndpoint(p2, v2)
    ensures p1 == p2 && v1 == v2
  {
    LatestEndpointReadBack(p1, v1);
    LatestEndpointReadBack(p2, v2);
  }

  /** `getLatestMovies(page = 1, version = 'v3')`: the body is returned as is. */
  method GetLatestMovies(page: Option<int>, version: Option<ApiVersion>, api: string -> Result<MovieListResponse>)
    returns (endpoint: string, result: Result<MovieListResponse>)
    ensures endpoint == LatestEndpoint(page.GetOr(1), version.GetOr(V3))
    ensures result == api(endpoint)
  {
    var p := page.GetOr(1);
    var v := version.GetOr(V3);
    if v == V1 {
      endpoint := LatestPath + "?page=" + IntToString(p);
    } else {
      endpoint := LatestPath + "-" + VersionName(v) + "?page=" + IntToString(p);
    }
    result := api(endpoint);
  }

  // ---- movie detail ----

  const DetailError := "Failed to fetch movie detail"

  /** The transform in `getMovieDetail`: the movie with `episodes || []`, or the
      fixed error when the body, a truthy status or the movie is missing. */
  function DetailFromResponse(resp: Option<MovieDetailResponse>): (r: Result<MovieDetail>)
    ensures r.Ok? <==> resp.Some? && resp.value.status.Truthy() && resp.value.movie.Some?
    ensures r.Ok? ==> r.value.movie == resp.value.movie.value && r.value.episodes == resp.value.episodes.GetOr([])
    ensures r.Err? ==> r.message == DetailError
  {
    if resp.Some? && resp.value.status.Truthy() && resp.value.movie.Some? then
      Ok(MovieDetail(resp.value.movie.value, resp.value.episodes.GetOr([])))
    else
      Err(DetailError)
  }

  /** The response a server sends for a detail. */
  function AsDetailResponse(d: MovieDetail): MovieDetailResponse {
    MovieDetailResponse(JBool(true), "", Some(d.movie), Some(d.episodes))
  }

  /** Any detail the server sends comes back whole; omitting the episodes gives
      an empty list rather than an error. */
  lemma DetailRoundTrip(d: MovieDetail)
    ensures DetailFromResponse(Some(AsDetailResponse(d))) == Ok(d)
    ensures DetailFromResponse(Some(AsDetailResponse(d).(episodes := None))) == Ok(d.(episodes := []))
    ensures DetailFromResponse(Some(AsDetailResponse(d).(status := JString("")))).Err?
  {
  }

  /** `getMovieDetail(slug)`: requests `/phim/{slug}`; a failed request is
      passed on. */
  method GetMovieDetail(slug: string, api: string -> Result<Option<MovieDetailResponse>>)
    returns (endpoint: string, result: Result<MovieDetail>)
    ensures endpoint == "/phim/" + slug
    ensures result == (match api(endpoint)
                       case Ok(body) => DetailFromResponse(body)
                       case Err(e) => Err(e))
  {
    endpoint := "/phim/" + slug;
    match api(endpoint)
    case Ok(body) => result := DetailFromResponse(body);
    case Err(e) => result := Err(e);
  }

  // ---- image proxy ----

  /** The image proxy endpoint, and the part of it that marks a proxied URL. */
  const ProxyMarker := "phimapi.com/image.php"
  const ProxyPrefix := "https://" + ProxyMarker + "?url="

  /** `convertImageToWebP(imageUrl)`: the proxy prefix followed by the encoded URL,
      which decodes back to the URL. */
  function ConvertImageToWebP(imageUrl: string): (r: string)
    ensures |r| >= |ProxyPrefix| + |imageUrl|
    ensures r[..|ProxyPrefix|] == ProxyPrefix
    ensures DecodeUriComponent(r[|ProxyPrefix|..]) == Some(imageUrl)
  {
    var enc := EncodeUriComponent(imageUrl);
    DecodeEncodeUri(imageUrl);
    EncodeUriLength(imageUrl);
    assert (ProxyPrefix + enc)[|ProxyPrefix|..] == enc;
    ProxyPrefix + enc
  }

  /** Different image URLs give different proxy URLs. */
  lemma ConvertImageInjective(a: string, b: string)
    requires ConvertImageToWebP(a) == ConvertImageToWebP(b)
    ensures a == b
  {
  }
}
