/** The `movies` slice of the Redux store (src/store/slices/movieSlice.ts). Each
    case of the reducer assigns fields of an immer draft; immer turns that into a
    next state, so the reducer is modelled as `Reduce(state, action)` on a state
    record. The thunks' own requests are in `MovieService`; here only the actions
    they dispatch matter. */
module MovieSlice {
  import opened Base
  import opened MovieTypes

  /** The page block the slice keeps: three of the four server fields. */
  datatype Pager = Pager(currentPage: int, totalPages: int, totalItems: int)

  datatype MovieState = MovieState(
    latestMovies: seq<Movie>,
    featuredMovie: Option<Movie>,
    currentMovie: Option<MovieDetail>,
    searchResults: seq<Movie>,
    loading: bool,
    error: Option<string>,
    pagination: Option<Pager>)

  /** `initialState`. */
  const InitialState := MovieState([], None, None, [], false, None, None)

  /** The four async thunks. */
  datatype Thunk = FetchLatestMovies | FetchMovieDetail | SearchMovies | FetchMovieList

  /** The actions the slice handles; `Other` is any action type it does not. A
      rejected action carries `action.error.message`, which may be absent. */
  datatype Action =
    | Pending(thunk: Thunk)
    | Rejected(thunk: Thunk, message: Option<string>)
    | LatestFulfilled(list: MovieListResponse)
    | DetailFulfilled(detail: MovieDetail)
    | SearchFulfilled(list: MovieListResponse)
    | ListFulfilled(list: MovieListResponse)
    | ClearSearchResults
    | ClearCurrentMovie
    | SetFeaturedMovie(movie: Movie)
    | Other

  /** The text a rejected case falls back to when the error has no message. */
  function DefaultError(t: Thunk): string {
    match t
    case FetchLatestMovies => "Failed to fetch movies"
    case FetchMovieDetail => "Failed to fetch movie detail"
    case SearchMovies => "Failed to search movies"
    case FetchMovieList => "Failed to fetch movie list"
  }

  /** `action.error.message || default`. */
  function ErrorText(t: Thunk, message: Option<string>): (e: string)
    ensures e != []
    ensures message.Some? && message.value != [] ==> e == message.value
    ensures message.None? || message.value == [] ==> e == DefaultError(t)
  {
    if message.Some? && message.value != [] then message.value else DefaultError(t)
  }

  /** `{ currentPage, totalPages, totalItems }` copied from a payload. */
  function PagerOf(p: PageInfo): (r: Pager)
    ensures r.currentPage == p.currentPage && r.totalPages == p.totalPages && r.totalItems == p.totalItems
  {
    Pager(p.currentPage, p.totalPages, p.totalItems)
  }

  /** The fields of the state, to state which of them an action may write. */
  datatype Field = LatestMovies | FeaturedMovie | CurrentMovie | SearchResults | Loading | Error | Pagination

  predicate Agree(s: MovieState, t: MovieState, f: Field) {
    match f
    case LatestMovies => s.latestMovies == t.latestMovies
    case FeaturedMovie => s.featuredMovie == t.featuredMovie
    case CurrentMovie => s.currentMovie == t.currentMovie
    case SearchResults => s.searchResults == t.searchResults
    case Loading => s.loading == t.loading
    case Error => s.error == t.error
    case Pagination => s.pagination == t.pagination
  }

  /** The fields each case of the reducer assigns. */
  function Writes(a: Action): set<Field> {
    match a
    case Pending(_) => {Loading, Error}
    case Rejected(_, _) => {Loading, Error}
    case LatestFulfilled(_) => {Loading, LatestMovies, Pagination, FeaturedMovie}
    case DetailFulfilled(_) => {Loading, CurrentMovie}
    case SearchFulfilled(_) => {Loading, SearchResults, Pagination}
    case ListFulfilled(_) => {Loading, LatestMovies, Pagination}
    case ClearSearchResults => {SearchResults}
    case ClearCurrentMovie => {CurrentMovie}
    case SetFeaturedMovie(_) => {FeaturedMovie}
    case Other => {}
  }

  /** The slice reducer. */
  function Reduce(s: MovieState, a: Action): (r: MovieState)
    ensures forall f :: f !in Writes(a) ==> Agree(s, r, f)
    ensures a.Pending? ==> r.loading && r.error == None
    ensures a.Rejected? ==> !r.loading && r.error == Some(ErrorText(a.thunk, a.message))
    ensures a.LatestFulfilled? || a.DetailFulfilled? || a.SearchFulfilled? || a.ListFulfilled? ==> !r.loading
    ensures a.LatestFulfilled? || a.ListFulfilled? ==>
              r.latestMovies == a.list.items && r.pagination == Some(PagerOf(a.list.pagination))
    ensures a.SearchFulfilled? ==>
              r.searchResults == a.list.items && r.pagination == Some(PagerOf(a.list.pagination))
    ensures a.LatestFulfilled? ==>
              r.featuredMovie == (if s.featuredMovie.None? && |a.list.items| > 0 then Some(a.list.items[0]) else s.featuredMovie)
    ensures a.DetailFulfilled? ==> r.currentMovie == Some(a.detail)
    ensures a.ClearSearchResults? ==> r.searchResults == []
    ensures a.ClearCurrentMovie? ==> r.currentMovie == None
    ensures a.SetFeaturedMovie? ==> r.featuredMovie == Some(a.movie)
  {
    match a
    case Pending(_) => s.(loading := true, error := None)
    case Rejected(t, message) => s.(loading := false, error := Some(ErrorText(t, message)))
    case LatestFulfilled(list) =>
      var s1 := s.(loading := false, latestMovies := list.items, pagination := Some(PagerOf(list.pagination)));
      if |list.items| > 0 && s.featuredMovie.None? then s1.(featuredMovie := Some(list.items[0])) else s1
    case DetailFulfilled(detail) => s.(loading := false, currentMovie := Some(detail))
    case SearchFulfilled(list) =>
      s.(loading := false, searchResults := list.items, pagination := Some(PagerOf(list.pagination)))
    case ListFulfilled(list) =>
      s.(loading := false, latestMovies := list.items, pagination := Some(PagerOf(list.pagination)))
    case ClearSearchResults => s.(searchResults := [])
    case ClearCurrentMovie => s.(currentMovie := None)
    case SetFeaturedMovie(m) => s.(featuredMovie := Some(m))
    case Other => s
  }

  /** The state after dispatching `acts` in order. */
  function Run(s: MovieState, acts: seq<Action>): MovieState {
    if acts == [] then s else Reduce(Run(s, acts[..|acts| - 1]), acts[|acts| - 1])
  }

  /** The initial state is the empty, idle state. */
  lemma InitialStateEmpty()
    ensures InitialState.latestMovies == [] && InitialState.searchResults == []
    ensures InitialState.featuredMovie.None? && InitialState.currentMovie.None?
    ensures !InitialState.loading && InitialState.error.None? && InitialState.pagination.None?
  {
  }

  /** Whether an action is part of a thunk's lifecycle. */
  predicate Lifecycle(a: Action) {
    a.Pending? || a.Rejected? || a.LatestFulfilled? || a.DetailFulfilled? || a.SearchFulfilled? || a.ListFulfilled?
  }

  /** The last lifecycle action among `acts`, if any. */
  function LastLifecycle(acts: seq<Action>): (r: Option<Action>)
    ensures r.Some? ==> Lifecycle(r.value) && r.value in acts
    ensures r.Some? ==> exists i :: 0 <= i < |acts| && acts[i] == r.value &&
                                    forall j :: i < j < |acts| ==> !Lifecycle(acts[j])
    ensures r.None? <==> forall i :: 0 <= i < |acts| ==> !Lifecycle(acts[i])
  {
    if acts == [] then None
    else if Lifecycle(acts[|acts| - 1]) then Some(acts[|acts| - 1])
    else
      var r := LastLifecycle(acts[..|acts| - 1]);
      assert forall i :: 0 <= i < |acts| - 1 ==> acts[..|acts| - 1][i] == acts[i];
      r
  }

  /** `loading` is on exactly when the last lifecycle action dispatched was a
      `pending` one; other actions leave it alone. */
  lemma {:induction false} LoadingTracksLastLifecycle(s: MovieState, acts: seq<Action>)
    ensures Run(s, acts).loading == (if LastLifecycle(acts).Some? then LastLifecycle(acts).value.Pending? else s.loading)
  {
    if acts != [] {
      LoadingTracksLastLifecycle(s, acts[..|acts| - 1]);
      var prev := Run(s, acts[..|acts| - 1]);
      assert !Lifecycle(acts[|acts| - 1]) ==> Agree(prev, Reduce(prev, acts[|acts| - 1]), Loading);
    }
  }

  /** Once a featured movie is set, only `setFeaturedMovie` replaces it: no
      fetch overwrites it. */
  lemma {:induction false} FeaturedKept(s: MovieState, acts: seq<Action>)
    requires s.featuredMovie.Some?
    requires forall i :: 0 <= i < |acts| ==> !acts[i].SetFeaturedMovie?
    ensures Run(s, acts).featuredMovie == s.featuredMovie
  {
    if acts != [] {
      FeaturedKept(s, acts[..|acts| - 1]);
    }
  }

  /** Without `setFeaturedMovie`, a featured movie only ever comes from a
      latest-movies payload: it is the first item of the first non-empty one. */
  lemma {:induction false} FeaturedFromFirstLatest(s: MovieState, acts: seq<Action>)
    requires s.featuredMovie.None?
    requires forall i :: 0 <= i < |acts| ==> !acts[i].SetFeaturedMovie?
    ensures Run(s, acts).featuredMovie.Some? <==>
      exists i :: 0 <= i < |acts| && acts[i].LatestFulfilled? && |acts[i].list.items| > 0
    ensures Run(s, acts).featuredMovie.Some? ==>
      exists i :: 0 <= i < |acts| && acts[i].LatestFulfilled? && |acts[i].list.items| > 0 &&
        Run(s, acts).featuredMovie == Some(acts[i].list.items[0]) &&
        forall j :: 0 <= j < i ==> !(acts[j].LatestFulfilled? && |acts[j].list.items| > 0)
  {
    if acts != [] {
      var n := |acts| - 1;
      var init := acts[..n];
      FeaturedFromFirstLatest(s, init);
      assert forall i :: 0 <= i < n ==> init[i] == acts[i];
      var prev := Run(s, init);
      if prev.featuredMovie.Some? {
        var i :| 0 <= i < n && init[i].LatestFulfilled? && |init[i].list.items| > 0 &&
          prev.featuredMovie == Some(init[i].list.items[0]) &&
          forall j :: 0 <= j < i ==> !(init[j].LatestFulfilled? && |init[j].list.items| > 0);
        assert acts[i] == init[i];
      }
    }
  }

  /** A stored error is never the empty string. */
  predicate ErrorNonEmpty(s: MovieState) {
    s.error.Some? ==> s.error.value != []
  }

  lemma {:induction false} ErrorNonEmptyKept(s: MovieState, acts: seq<Action>)
    requires ErrorNonEmpty(s)
    ensures ErrorNonEmpty(Run(s, acts))
  {
    if acts != [] {
      ErrorNonEmptyKept(s, acts[..|acts| - 1]);
      var prev := Run(s, acts[..|acts| - 1]);
      assert Agree(prev, Reduce(prev, acts[|acts| - 1]), Error) || acts[|acts| - 1].Pending? || acts[|acts| - 1].Rejected?;
    }
  }

  /** A fulfilled request leaves the previous error in place; only `pending`
      clears it. */
  lemma FulfilledKeepsError(s: MovieState, list: MovieListResponse, detail: MovieDetail)
    ensures Reduce(s, LatestFulfilled(list)).error == s.error
    ensures Reduce(s, SearchFulfilled(list)).error == s.error
    ensures Reduce(s, ListFulfilled(list)).error == s.error
    ensures Reduce(s, DetailFulfilled(detail)).error == s.error
    ensures Reduce(Reduce(s, Pending(FetchMovieList)), ListFulfilled(list)).error.None?
  {
    assert Error !in Writes(LatestFulfilled(list)) && Error !in Writes(DetailFulfilled(detail));
    assert Error !in Writes(SearchFulfilled(list)) && Error !in Writes(ListFulfilled(list));
  }

  /** A search never touches `latestMovies`, and a movie-list fetch never touches
      `featuredMovie` or `searchResults`. */
  lemma ListsKeptApart(s: MovieState, list: MovieListResponse, detail: MovieDetail)
    ensures Reduce(s, SearchFulfilled(list)).latestMovies == s.latestMovies
    ensures Reduce(s, ListFulfilled(list)).featuredMovie == s.featuredMovie
    ensures Reduce(s, ListFulfilled(list)).searchResults == s.searchResults
    ensures Reduce(s, DetailFulfilled(detail)).pagination == s.pagination
  {
    assert LatestMovies !in Writes(SearchFulfilled(list));
    assert FeaturedMovie !in Writes(ListFulfilled(list)) && SearchResults !in Writes(ListFulfilled(list));
    assert Pagination !in Writes(DetailFulfilled(detail));
  }

  /** Clearing twice is clearing once. */
  lemma ClearIdempotent(s: MovieState)
    ensures Reduce(Reduce(s, ClearSearchResults), ClearSearchResults) == Reduce(s, ClearSearchResults)
    ensures Reduce(Reduce(s, ClearCurrentMovie), ClearCurrentMovie) == Reduce(s, ClearCurrentMovie)
  {
  }
}
