/** The records the catalogue API returns and the client passes around
    (src/types/movie.ts). Fields the core never reads are left out; a field the
    server may omit is an `Option`. */
module MovieTypes {
  import opened Base

  /** A JSON scalar, for response fields whose JSON type the server does not fix. */
  datatype JsonScalar = JNull | JBool(b: bool) | JNumber(n: int) | JString(s: string) {
    /** JavaScript truthiness (`NaN` is not modelled). */
    predicate Truthy() {
      match this
      case JNull => false
      case JBool(b) => b
      case JNumber(n) => n != 0
      case JString(s) => s != []
    }
  }

  datatype Movie = Movie(
    id: string, name: string, slug: string, originName: string,
    thumbUrl: Option<string>, posterUrl: Option<string>, year: int)

  datatype ServerData = ServerData(
    name: string, slug: string, filename: string, linkEmbed: string, linkM3u8: string)

  /** One streaming source ("server") with its ordered episode list. */
  datatype Episode = Episode(serverName: string, serverData: seq<ServerData>)

  /** `MovieDetail`: the movie's own fields plus its episode groups. */
  datatype MovieDetail = MovieDetail(movie: Movie, episodes: seq<Episode>)

  datatype PageInfo = PageInfo(
    totalItems: int, totalItemsPerPage: int, currentPage: int, totalPages: int)

  /** The canonical list envelope every list-producing path returns. */
  datatype MovieListResponse = MovieListResponse(
    status: bool, items: seq<Movie>, pagination: PageInfo, pathImage: string, titlePage: string)

  datatype ParamsBlock = ParamsBlock(pagination: Option<PageInfo>)

  datatype CollectionData = CollectionData(
    items: Option<seq<Movie>>, titlePage: Option<string>, pagination: Option<PageInfo>,
    params: Option<ParamsBlock>, cdnImage: Option<string>)

  /** The `/v1/api/...` collection envelope (`CollectionResponse`). */
  datatype CollectionResponse = CollectionResponse(status: JsonScalar, msg: string, data: Option<CollectionData>)

  datatype SearchData = SearchData(items: Option<seq<Movie>>, params: Option<ParamsBlock>, titlePage: Option<string>)

  /** The search envelope, whose `status` is meant to be the string `"success"`. */
  datatype SearchResponse = SearchResponse(status: JsonScalar, msg: string, data: Option<SearchData>)

  datatype MovieDetailResponse = MovieDetailResponse(
    status: JsonScalar, msg: string, movie: Option<Movie>, episodes: Option<seq<Episode>>)

  /** `SearchParams`: every field optional. */
  datatype SearchParams = SearchParams(
    keyword: Option<string>, page: Option<int>, sortField: Option<string>,
    sortType: Option<string>, sortLang: Option<string>, category: Option<string>,
    country: Option<string>, year: Option<int>, limit: Option<int>)

  /** The empty parameter object `{}`. */
  const NoParams := SearchParams(None, None, None, None, None, None, None, None, None)

  datatype FilterOption = FilterOption(id: string, name: string, slug: string)

  /** `s || ''` for an optional string. */
  function OrEmpty(s: Option<string>): string {
    if s.Some? then s.value else ""
  }
}
