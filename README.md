# phimphim core, modelled in Dafny

phimphim is a Next.js front end for a Vietnamese movie catalogue. This project models its core logic and proves properties of it. The core has these parts:

- The catalogue service (`movieService`):
  - the envelope normalisers for collection and search answers;
  - the query-string builders for lists, searches, categories, countries and years;
  - the latest-movies endpoint;
  - the movie-detail transform;
  - the WebP image-proxy URL.
- The image helpers (`getOptimizedImageUrl`, `getMovieImage`): a placeholder for blank input, pass-through for proxied or media-host URLs, otherwise the media host is prefixed and the result is wrapped in the proxy.
- `formatSlugToTitle`, which turns a route slug into a title.
- The `movies` Redux slice: its reducer and the actions of its four async thunks.
- The page navigator (`Pagination`): prev, next, and typing a page number.
- The filter shortcuts on the home page (`FilterExplorer`): `formatLabel`, the first twelve categories and countries, and the last twelve years.
- The release-year index (`nam/page.tsx`): the last forty years and their links.
- The comment thread under a movie (`CommentsSection`): loading, posting, liking and "load more".

Code that computes values is modelled as functions and lemmas. A React component whose handlers update its state becomes a class whose methods update its fields. The reducer, which immer turns into a function of state and action, is a pure `Reduce`.

The JavaScript primitives the core relies on are written out:

- in `JsText`: `trim`, `startsWith`, `includes`, `Number#toString` and `parseInt`;
- in `UriEncoding`: `encodeURIComponent`/`decodeURIComponent` over UTF-8, and `URLSearchParams#toString`.

The network is a parameter: each `api.get` is a function from the endpoint to the decoded body or the error thrown. The same goes for the current year, the sign-in state and the outcome of each comments-service call.

## Model

| member | source | states |
|---|---|---|
| MovieService.DefaultPagination | src/services/movieService.ts:12-17 | No items and one page. The page size and current page are the requested ones when given, an explicit 0 included (`??`), and 24 and 1 otherwise. |
| MovieService.TransformCollectionResponse | src/services/movieService.ts:19-45 | Success exactly when the status is truthy and `data` is present. Success keeps the items (default `[]`) and takes the pagination from `data.pagination`, else `data.params.pagination`, else the default. It carries `cdnImage` as `pathImage` and `titlePage`, each defaulting to `''`. Failure is the fixed empty envelope with the default pagination. |
| MovieService.TransformWellFormed | src/services/movieService.ts:12-45 | For page 1 with a positive size, and well-formed server pagination, the normalised pagination is always well-formed (at least one page, current page in range). |
| MovieService.TransformFailureUniform | src/services/movieService.ts:38-44 | Every failed payload normalises to the same envelope: no items, one page, zero items, and the requested page (`??`, default 1). |
| MovieService.TransformFixedPoint | src/services/movieService.ts:23-35 | A successful envelope wrapped back as a collection normalises to itself, so nothing is lost. |
| MovieService.SearchPage | src/services/movieService.ts:127 | `params.page \|\| 1`: never 0, and the given page whenever it is non-zero. |
| MovieService.SearchFallbackPagination | src/services/movieService.ts:124-129 | No items, one page, 24 per page whatever `limit` says, and the requested page unless it is absent or 0 (`\|\|`). |
| MovieService.MapSearchResponse | src/services/movieService.ts:117-147 | Success exactly when the status is the string `success` and `data` is present. Items default to `[]`, `pathImage` is always empty and `titlePage` defaults to `''`. Server pagination is used when present; on success without it, and on every failure, the pagination is the search fallback. |
| MovieService.SearchNeedsSuccessString | src/services/movieService.ts:120 | A search answer with status `true` fails, while the collection normaliser accepts the same status. |
| MovieService.SearchIgnoresLimit | src/services/movieService.ts:124-144 | The search mapping never depends on `limit`, while the collection default takes its page size from it. |
| MovieService.PageZeroDiffers | src/services/movieService.ts:14-15 | Page 0 is kept by the collection default (`??`) but becomes 1 in the search fallback (`\|\|`). |
| MovieService.Select | src/services/movieService.ts:86-93 | A run of `if (params.x) append(...)` emits at most one parameter per handled key. |
| MovieService.SelectMember | src/services/movieService.ts:86-93 | A parameter with a given value is emitted exactly when its key is handled and the field is truthy with that text. |
| MovieService.SelectOrdered | src/services/movieService.ts:86-93 | With handled keys in a fixed order, the emitted parameters follow that order, so no name repeats. |
| MovieService.SelectSnoc | src/services/movieService.ts:86 | Handling one more key appends its parameter at the end when truthy, and nothing otherwise. |
| MovieService.AppendIfTruthy | src/services/movieService.ts:86 | One append step turns the query for the keys handled so far into the query for those keys plus one. |
| MovieService.SelectEmptyIff | src/services/movieService.ts:95 | The query string is empty exactly when no handled field is truthy. |
| MovieService.EndpointBareIff | src/services/movieService.ts:96 | The endpoint is the bare path, with no `?`, exactly when no handled field is truthy. |
| MovieService.GetMovieList | src/services/movieService.ts:80-100 | Requests `/v1/api/danh-sach/{typeList}` with the eight list keys in source order. The answer is normalised, and a failed request is passed on. |
| MovieService.SearchMovies | src/services/movieService.ts:103-152 | Requests `/v1/api/tim-kiem?` plus all nine keys. The answer is mapped, and a failed request is rethrown. |
| MovieService.SearchEndpointShape | src/services/movieService.ts:117 | The search endpoint ends in a bare `?` exactly when no field is truthy. |
| MovieService.GetMoviesByCategory | src/services/movieService.ts:161-180 | Requests `/v1/api/the-loai/{slug}` with every key but `category`, normalised. |
| MovieService.GetMoviesByCountry | src/services/movieService.ts:189-208 | Requests `/v1/api/quoc-gia/{slug}` with every key but `country`, normalised. |
| MovieService.GetMoviesByYear | src/services/movieService.ts:211-230 | Requests `/v1/api/nam/{year}` with every key but `year`, normalised. |
| MovieService.EndpointsOmitTheirOwnFilter | src/services/movieService.ts:161-230 | The category, country and year endpoints never send their own filter, but do send the other truthy filters. |
| MovieService.BuildersOrdered | src/services/movieService.ts:86-115 | Every builder emits parameters in one shared order, so no name appears twice. |
| MovieService.LatestEndpoint | src/services/movieService.ts:50-52 | The endpoint starts with the latest-list path, is 6 (`v1`) or 9 (`v2`, `v3`) characters longer than that path and the page's decimal text, and ends with that text. |
| MovieService.LatestEndpointReadBack | src/services/movieService.ts:50-52 | Only v2 and v3 add a `-v2`/`-v3` suffix. The text after `page=` parses back to the page. |
| MovieService.LatestEndpointInjective | src/services/movieService.ts:50-52 | Different page/version pairs request different endpoints. |
| MovieService.GetLatestMovies | src/services/movieService.ts:49-56 | Defaults to page 1 and version v3, requests the latest-movies endpoint, and returns the body as it is. |
| MovieService.DetailFromResponse | src/services/movieService.ts:63-70 | A detail comes out exactly when the body is present, the status is truthy and the movie is present. Episodes default to `[]`. Any other answer is the fixed error text. |
| MovieService.DetailRoundTrip | src/services/movieService.ts:63-67 | A served detail comes back whole. Omitted episodes give an empty list. A falsy status is an error. |
| MovieService.GetMovieDetail | src/services/movieService.ts:59-71 | Requests `/phim/{slug}` and passes on the transform's result or the request's error. |
| MovieService.ConvertImageToWebP | src/services/movieService.ts:233-235 | The proxy prefix followed by a text that decodes back to the image URL. |
| MovieService.ConvertImageInjective | src/services/movieService.ts:233-235 | Different image URLs give different proxy URLs. |
| UriEncoding.DecodeEncodeUri | src/services/movieService.ts:234 | `decodeURIComponent(encodeURIComponent(s)) == s` for every string. |
| UriEncoding.EncodeUriAlphabet | src/services/movieService.ts:234 | The encoded text holds only unreserved characters and `%` (hex digits are unreserved). |
| UriEncoding.EncodeUriInjective | src/services/movieService.ts:234 | Encoding is injective. |
| UriEncoding.SerializeQuerySeparators | src/services/movieService.ts:95 | The serialised query has one `=` per pair and one `&` between pairs, because names and values are escaped. |
| ImageUtils.FullUrl | src/utils/imageUtils.ts:23-29 | Always an `http` or `https` URL: one given as such is kept unchanged, anything else is placed on the media host. |
| ImageUtils.GetOptimizedImageUrl | src/utils/imageUtils.ts:6-33 | Never empty. Blank input gives the placeholder. URLs carrying the proxy marker, or on the media host, pass through unchanged. |
| ImageUtils.PlaceholderIffBlank | src/utils/imageUtils.ts:7-10 | The result is the placeholder exactly when the input is missing or white space. |
| ImageUtils.RewrittenDecodesBack | src/utils/imageUtils.ts:23-32 | Any other input becomes a proxy URL whose parameter decodes back to the absolute URL it was built from. |
| ImageUtils.UploadPathsAgree | src/utils/imageUtils.ts:24-25 | When the path does not contain the proxy marker `phimapi.com/image.php`, `upload/x` and `/upload/x` resolve alike, to the proxy of `https://phimimg.com/upload/x`. |
| ImageUtils.UploadPathResolves | src/utils/imageUtils.ts:24-25 | An upload path without the proxy marker is given the media host after its leading slash is dropped. |
| ImageUtils.SchemelessGetsHost | src/utils/imageUtils.ts:26-28 | A non-blank path that is not an upload path, has no scheme, does not carry the proxy marker and is not on the media host gets the media host prefixed as it is, any leading slash included. |
| ImageUtils.AbsoluteProxiedAsIs | src/utils/imageUtils.ts:23-32 | Any other absolute URL is proxied unchanged. |
| ImageUtils.Idempotent | src/utils/imageUtils.ts:12-15 | Resolving twice equals resolving once for every non-blank input. |
| ImageUtils.PlaceholderNotFixed | src/utils/imageUtils.ts:7-29 | The placeholder itself has no scheme, so resolving it again wraps it in the proxy. |
| ImageUtils.GetMovieImage | src/utils/imageUtils.ts:38-40 | Resolves the poster when it is a non-empty string, else the thumbnail. |
| ImageUtils.MovieImagePlaceholder | src/utils/imageUtils.ts:38-40 | A card shows the placeholder exactly when the image it chose is blank. |
| StringUtils.FormatSlugToTitle | src/utils/stringUtils.ts:1-7 | `undefined` gives `""`. A string, or the first segment of an array, is titled. An empty array is a `TypeError`. |
| StringUtils.Titled | src/utils/stringUtils.ts:5-6 | Both replacements keep the length and leave no dash. |
| StringUtils.TitledAt | src/utils/stringUtils.ts:5-6 | Each output character: a dash becomes a space, and an ASCII word character with no word character before it is upper-cased. |
| StringUtils.TitleShape | src/utils/stringUtils.ts:5-6 | The title has the slug's length and no dash. It differs from the slug only at dashes and at the capitalised first letter of each word. |
| StringUtils.TitleIdempotent | src/utils/stringUtils.ts:5-6 | Titling a title changes nothing. |
| MovieSlice.Reduce | src/store/slices/movieSlice.ts:62-150 | Each case assigns exactly its fields and leaves every other field alone. Pending sets loading and clears the error. Rejected stores the message, or the per-thunk default. The fulfilled cases store items and the three-field pagination. Only the latest list sets a missing featured movie. |
| MovieSlice.ErrorText | src/store/slices/movieSlice.ts:96-98 | `message \|\| default`: the message when non-empty, else the thunk's default text, and never empty. |
| MovieSlice.InitialStateEmpty | src/store/slices/movieSlice.ts:19-27 | The initial state is empty and idle. |
| MovieSlice.LastLifecycle | src/store/slices/movieSlice.ts:79-148 | A lifecycle action that was dispatched with no lifecycle action after it, or none exactly when no lifecycle action was dispatched. |
| MovieSlice.LoadingTracksLastLifecycle | src/store/slices/movieSlice.ts:79-148 | After any actions, `loading` is on exactly when the last lifecycle action was a pending one. |
| MovieSlice.FeaturedKept | src/store/slices/movieSlice.ts:92-94 | Once set, the featured movie changes only through `setFeaturedMovie`. |
| MovieSlice.FeaturedFromFirstLatest | src/store/slices/movieSlice.ts:83-95 | Without `setFeaturedMovie`, the featured movie is the first item of the first non-empty latest-movies payload, and is absent if there is none. |
| MovieSlice.ErrorNonEmptyKept | src/store/slices/movieSlice.ts:96-148 | A stored error is never the empty string. |
| MovieSlice.FulfilledKeepsError | src/store/slices/movieSlice.ts:83-144 | A fulfilled request leaves the previous error in place; only pending clears it. |
| MovieSlice.ListsKeptApart | src/store/slices/movieSlice.ts:118-144 | A search never touches the latest list. A list fetch never touches the featured movie or the search results. A detail never touches the pagination. |
| MovieSlice.ClearIdempotent | src/store/slices/movieSlice.ts:66-71 | Clearing twice is clearing once. |
| PaginationControl.PrevBounds | src/components/common/Pagination.tsx:21-26 | Prev fires exactly when the current page is above 1, and never goes below page 1. |
| PaginationControl.NextBounds | src/components/common/Pagination.tsx:28-33 | Next fires exactly when the current page is below the last, and never goes past it. |
| PaginationControl.SubmitBounds | src/components/common/Pagination.tsx:39-48 | A submitted page is always in `[1, totalPages]`. A typed decimal is accepted exactly when in range. Text with no digit is never accepted. |
| PaginationControl.AllTargetsInRange | src/components/common/Pagination.tsx:21-48 | With the current page in range, every page requested is in range. |
| PaginationControl.Pagination.constructor | src/components/common/Pagination.tsx:11-12 | The input starts as the current page in decimal. |
| PaginationControl.Pagination.Rerender | src/components/common/Pagination.tsx:15-17 | New props: the input is reset to the current page only when that page changed. |
| PaginationControl.Pagination.Dispatch | src/components/common/Pagination.tsx:19-48 | Nothing happens when at most one page exists. Prev and next report the target and reset the input. Typing stores the text. Submit reports and scrolls, or resets the input. |
| PaginationControl.DispatchKeepsRange | src/components/common/Pagination.tsx:21-48 | While the current page is in range, over any event, every page reported stays in `[1, totalPages]`. |
| YearsPage.GenerateYears | src/app/nam/page.tsx:5-8 | One entry per requested year; a negative count gives none. |
| YearsPage.YearsShape | src/app/nam/page.tsx:5-8 | Starts at the current year and steps down by one, so it has no duplicates and covers exactly the last `count` years. |
| YearsPage.PageListsForty | src/app/nam/page.tsx:5-11 | The page lists forty years, and the default thirty are their first thirty. |
| YearsPage.YearHrefReadBack | src/app/nam/page.tsx:28 | The year parses back from `/nam/{year}`. |
| YearsPage.YearHrefInjective | src/app/nam/page.tsx:28 | Different years link to different pages. |
| FilterExplorer.TopItems | src/components/filters/FilterExplorer.tsx:33-34 | The first twelve entries, in order; all of them when there are fewer. |
| FilterExplorer.JoinSplit | src/components/filters/FilterExplorer.tsx:13-16 | `split(' ')` followed by `join(' ')` gives the text back. |
| FilterExplorer.SplitJoin | src/components/filters/FilterExplorer.tsx:13-16 | Splitting a join of space-free pieces gives back the pieces. |
| FilterExplorer.FormatLabel | src/components/filters/FilterExplorer.tsx:11-17 | Empty text gives the empty label. When each first character that is upper-cased stays one character (`ß` does not), the label has the text's length. |
| FilterExplorer.LabelPieces | src/components/filters/FilterExplorer.tsx:11-17 | When upper-casing turns no non-space character into text holding a space (`toUpperCase` qualifies), the label has as many pieces as the text. Empty pieces stay empty. Each other piece has only its first character upper-cased, unless that character is outside the BMP, in which case the piece is unchanged. |
| FilterExplorer.LabelFixedPoint | src/components/filters/FilterExplorer.tsx:11-17 | Text with nothing to upper-case is its own label. |
| FilterExplorer.OptionItems | src/components/filters/FilterExplorer.tsx:77-80 | One link per option: the formatted name, linked to the route followed by the slug. |
| FilterExplorer.YearItems | src/components/filters/FilterExplorer.tsx:109-112 | One link per year, to `/nam/{year}`, with a caption that parses back to the year. |
| FilterExplorer.ExplorerYearsShape | src/components/filters/FilterExplorer.tsx:45-48 | Twelve years, from the current one down, strictly decreasing. |
| FilterExplorer.HrefsDistinct | src/components/filters/FilterExplorer.tsx:79-95 | Different slugs give different category links, and a category link never equals a country link. |
| FilterExplorer.FilterExplorerState.constructor | src/components/filters/FilterExplorer.tsx:20-22 | Both lists start empty, and loading starts on. |
| FilterExplorer.FilterExplorerState.FetchFilters | src/components/filters/FilterExplorer.tsx:24-43 | Both lists arrive together and are cut to twelve. If either request fails, both lists are kept. Loading ends either way. |
| CommentsSection.SubmitAllowedIff | src/components/comments/CommentsSection.tsx:41 | A comment is sent exactly when the user is signed in and the text has a non-space character. |
| CommentsSection.ApplyLike | src/components/comments/CommentsSection.tsx:60-64 | Order and ids are kept. Comments with the id move by ±1 like; every other comment is unchanged. |
| CommentsSection.LikeUnlike | src/components/comments/CommentsSection.tsx:60-64 | Unliking after liking restores every count. |
| CommentsSection.LikeTotal | src/components/comments/CommentsSection.tsx:60-64 | The total of likes moves by ±1 for every comment carrying the id. |
| CommentsSection.CommentsState.constructor | src/components/comments/CommentsSection.tsx:14-19 | No comments, loading, empty input, signed out, page 1, more to load. |
| CommentsSection.CommentsState.LoadComments | src/components/comments/CommentsSection.tsx:21-37 | Requests the current page, twenty at a time. The list is replaced and `hasMore` is `currentPage < totalPages`. A failure keeps both. Loading ends either way. |
| CommentsSection.CommentsState.TypeComment | src/components/comments/CommentsSection.tsx:88 | Typing stores the text as the new comment and changes nothing else. |
| CommentsSection.CommentsState.SubmitComment | src/components/comments/CommentsSection.tsx:39-55 | Sent exactly when allowed. On success the new comment is put first and the input cleared. A failure keeps the list and the input. |
| CommentsSection.CommentsState.HandleLike | src/components/comments/CommentsSection.tsx:57-68 | Counts change, as `ApplyLike`, only when the service accepted the toggle. |
| CommentsSection.CommentsState.ClickLike | src/components/comments/CommentsSection.tsx:133 | The heart button always passes "not liked", so each accepted click adds one like. |
| CommentsSection.CommentsState.LoadMore | src/components/comments/CommentsSection.tsx:152-154 | Shown only while more comments exist; it advances the page by one. |

## Left out

- The HTTP client and `fetch`: each request is a parameter holding its outcome, as a decoded body or an error. JSON decoding is not modelled: a field the server may omit is an `Option`, and a status of unknown type is a `JsonScalar`.
- `getMovieByTMDB`, `getCategories`, `getCountries`: each requests a path, fixed or built directly from its arguments (`/tmdb/{type}/{id}`), and returns the body as it is. Nothing is computed, so they are not modelled beyond that.
- The thunks of the slice: each one calls a service operation modelled in `MovieService`. Redux Toolkit's dispatch machinery is reduced to the actions it dispatches.
- Rendering (JSX, class names, icons, `toLocaleDateString`) and `console.error`/`alert`.
- Concurrency of React effects and stale closures. `handleLike` and `handleSubmitComment` read the `comments` of the render they were created in. Each handler call is modelled as an atomic step on the current state.
- CommentsSection.CommentsState: the `loading` view hides the controls while a load is in flight. The handlers are modelled without that gate, since the handlers themselves do not check it.
- PaginationControl.AllTargetsInRange: holds only while `1 <= currentPage <= totalPages`. Prev can name a page past the last when `currentPage > totalPages + 1`, and next can name a page below 1 when `currentPage < 0` (PrevBounds and NextBounds state these exactly).
- FilterExplorer.FormatLabel: `toUpperCase` is the parameter `upper`, since Unicode case mapping is not modelled.
- StringUtils.FormatSlugToTitle: `\w`/`\b` are the ASCII classes JavaScript uses without the `u` flag. Only `a`-`z` are upper-cased because only ASCII word characters are matched.
- Numbers are integers. `NaN`, fractional pages and the 2^53 precision limit of JavaScript numbers are not modelled, and `parseInt` returning `NaN` is `None`.
- `new Date().getFullYear()` is the parameter `currentYear`.
- Strings are sequences of Unicode scalar values. UTF-16 units appear only where the source depends on them (`charAt(0)` on a character outside the Basic Multilingual Plane).
- The placeholder image is held as a literal only; its SVG content is not decoded.
