# Movie search: the search pipeline and the watchlist, in Dafny

This project models the two hooks at the centre of a small movie-search web
app.

- `useMovies` takes the debounced search input and turns it into a catalog
  search key, which is a URL or nothing. It extracts an IMDb id from each
  search post. It builds one TMDB lookup URL per id and folds the
  index-aligned TMDB batch into the `moviesData` map. It keeps two state
  fields, `imdbIds` and `moviesData`, and reports a `loading` flag.
- `useWatchlist` keeps an ordered list of `{imdbId, title, poster_path}`
  snapshots. `toggleWatchlist` removes an id or adds its snapshot.
  `inWatchlist` tests whether an id is on the list.

Files:

- `wrappers.dfy`: module `Wrappers`, the `Option` and `Result` values.
- `js_strings.dfy`: module `JsStrings`. It holds the JavaScript string
  operations the pipeline uses: `split` and `join` with a one-character
  separator, and `startsWith`. Both split/join round trips are proved here.
- `movies.dfy`: module `MovieSearch`, for `hooks/useMovies.js`.
  - The search key, the id extraction, the lookup URLs and `loading` are
    functions.
  - The `forEach` that fills the metadata map is a method with a loop,
    `BuildMoviesData`. It is proved against the function `MoviesDataOf`.
  - The two state fields form the class `MoviesState`. Each effect is a
    transition method on that class.
- `watchlist.dfy`: module `Watchlist`, for `hooks/useWatchlist.js`. The
  updater is a pure function over `seq<Entry>`, with lemmas about it.

The model follows the code where it differs from the app's intended design:

- Extracted ids are not deduplicated (`ExtractIdsKeepsDuplicates`).
- No response is checked against the query that caused it. Responses are
  inputs, and the effects apply whatever they are given.
- A post whose `IMDb-Link` array is empty or missing is not quietly
  dropped. Reading `custom_fields["IMDb-Link"][0]` and calling `.split` on
  it throws a TypeError inside the effect, so `imdbIds` is not updated.
  The model returns `Failure(MissingImdbLink(i))` and changes no state. Only
  posts whose first link has no `tt` part are dropped.
- Only `" "` is replaced in the search query. No other character is
  URL-encoded.
- `moviesData` is not cleared when a new search yields no ids. The TMDB
  effect only runs when `imdbIds` is non-empty. Only the empty-input reset
  clears both fields.
- When an id occurs twice in one batch, the later index with a result
  overwrites the earlier one. A later index without a result leaves the
  earlier entry in place (`MoviesDataEntry`).
- A TMDB batch shorter than the id list makes `tmdbData[index]` undefined,
  and the effect throws. The model returns `Failure(MissingBatchEntry(n))`
  and leaves `moviesData` unchanged.

## Model

| member | source | states |
|---|---|---|
| `JsStrings.Split` | hooks/useMovies.js:43 | `split` always yields at least one piece, and no piece contains the separator |
| `JsStrings.SplitCount` | hooks/useMovies.js:43 | there is exactly one more piece than there are separators in the string |
| `JsStrings.SplitJoinReplaces` | hooks/useMovies.js:22-24 | `s.split(a).join(b)` equals `s` with every `a` replaced by `b` and every other character kept |
| `JsStrings.SplitJoinRoundTrip` | hooks/useMovies.js:43 | joining the pieces of a split on the same separator gives the string back, so nothing is lost |
| `JsStrings.JoinSplitRoundTrip` | hooks/useMovies.js:43 | splitting a join of separator-free pieces gives the pieces back |
| `JsStrings.SplitAtSeparator` | hooks/useMovies.js:43 | the text before the first separator is split off as the first piece |
| `MovieSearch.SearchUrl` | hooks/useMovies.js:21-25 | there is no search key (no request) exactly when the debounced input is empty; otherwise the key is the catalog URL around the input with every space made `+` |
| `MovieSearch.SearchQueryOfKey` | hooks/useMovies.js:22-24 | the query inside the key has the input's length, contains no space, and differs from the input only where the input had spaces |
| `MovieSearch.FindTtSegment` | hooks/useMovies.js:44 | `find` returns the first part that starts with `tt`, and returns nothing exactly when no part does |
| `MovieSearch.FindTtSegmentFirst` | hooks/useMovies.js:44 | parts after the first `tt` part do not affect the result |
| `MovieSearch.LinkId` | hooks/useMovies.js:42-45 | a link's id is one of its `/` pieces, starts with `tt` and has no `/`; a link has no id exactly when none of its pieces starts with `tt` |
| `MovieSearch.ImdbTitleLinkId` | hooks/useMovies.js:42-45 | an IMDb title link `https://www.imdb.com/title/<id>/`, given as its pieces joined by `/`, yields `<id>` |
| `MovieSearch.FirstMissingLink` | hooks/useMovies.js:42 | the first post whose `IMDb-Link` array has no entry (where `[0]` is undefined), or none when every post has one |
| `MovieSearch.FilterTruthy` | hooks/useMovies.js:45-47 | `filter(Boolean)` keeps exactly the present, non-empty candidates and never makes the list longer |
| `MovieSearch.FilterTruthyAppend` | hooks/useMovies.js:47 | the filter keeps order: filtering a concatenation concatenates the filtered parts |
| `MovieSearch.ExtractIds` | hooks/useMovies.js:40-47 | extraction fails exactly when some post has no link; otherwise there are at most as many ids as posts |
| `MovieSearch.ExtractedIdsAreTtSegments` | hooks/useMovies.js:40-47 | every extracted id starts with `tt`, contains no `/`, and is a `/` piece of some post's first link |
| `MovieSearch.ExtractIdsSingle` | hooks/useMovies.js:40-47 | a post contributes its link's id, and a post whose link has no `tt` piece is dropped without error |
| `MovieSearch.ExtractIdsAppend` | hooks/useMovies.js:40-47 | the ids keep search order: the ids of concatenated posts are the concatenated ids |
| `MovieSearch.ExtractIdsKeepsDuplicates` | hooks/useMovies.js:40-47 | ids are not deduplicated: listing the posts twice yields the ids twice |
| `MovieSearch.LookupUrls` | hooks/useMovies.js:55-60 | there is no lookup key exactly when there are no ids; otherwise URL `i` asks TMDB for id `i`, with one URL per id |
| `MovieSearch.BuildMoviesData` | hooks/useMovies.js:67-77 | the `forEach` loop over an index-aligned batch builds exactly the map `MoviesDataOf` describes |
| `MovieSearch.MoviesDataEntry` | hooks/useMovies.js:67-77 | an id is a key iff some index carrying it has a non-empty `movie_results`; its value is the first result's title and poster path from the last such index |
| `MovieSearch.MoviesDataKeysAreIds` | hooks/useMovies.js:67-78 | the map is built fresh, so its keys are among the current ids and no earlier entry survives |
| `MovieSearch.MoviesDataOfDistinctIds` | hooks/useMovies.js:68-76 | with distinct ids, id `i` is a key iff batch result `i` has a result, and its value is that result's title and poster path |
| `MovieSearch.PartialBatch` | hooks/useMovies.js:68-76 | a two-id batch where only the first id resolves gives a map with that one key |
| `MovieSearch.LoadingIffRequestOutstanding` | hooks/useMovies.js:87-89 | `loading` holds iff a request that has a key has neither data nor an error |
| `MovieSearch.NotLoadingWhenIdle` | hooks/useMovies.js:87-89 | with an empty input and no ids, nothing is loading |
| `MovieSearch.MoviesState.constructor` | hooks/useMovies.js:16-17 | both state fields start empty |
| `MovieSearch.MoviesState.OnDebouncedInput` | hooks/useMovies.js:30-35 | an empty debounced input resets `imdbIds` and `moviesData` to empty; any other input changes nothing |
| `MovieSearch.MoviesState.OnSearchData` | hooks/useMovies.js:38-51 | search data, when present, replaces `imdbIds` with the extracted ids; a throwing extraction leaves the state unchanged; `moviesData` is never touched |
| `MovieSearch.MoviesState.OnTmdbData` | hooks/useMovies.js:65-80 | with TMDB data and at least one id, `moviesData` is replaced wholesale by the fold, and its keys are among the ids; a short batch throws and changes nothing; `imdbIds` is never touched |
| `MovieSearch.HookTestExtraction` | tests/useMovies.test.js:35-41 | a post whose link is `https://www.imdb.com/title/tt1234567/`, given as its pieces joined by `/`, yields the ids `["tt1234567"]` |
| `MovieSearch.HookTestMoviesData` | tests/useMovies.test.js:46-54 | the test's TMDB response maps `tt1234567` to "Mocked Movie 1" with poster `/poster1.jpg` |
| `Watchlist.InitialWatchlist` | hooks/useWatchlist.js:4-6 | with nothing persisted, the store starts as the empty list |
| `Watchlist.InWatchlist` | hooks/useWatchlist.js:40-42 | `inWatchlist(id)` holds iff some entry has that `imdbId` |
| `Watchlist.RemoveId` | hooks/useWatchlist.js:19 | the filter keeps exactly the entries with another id and never makes the list longer |
| `Watchlist.RemoveIdMembership` | hooks/useWatchlist.js:19 | after removal the id is absent, and every other id keeps its membership |
| `Watchlist.RemoveIdAppend` | hooks/useWatchlist.js:19 | removal keeps the other entries in their original order |
| `Watchlist.RemoveAbsentId` | hooks/useWatchlist.js:19 | removing an absent id changes nothing |
| `Watchlist.RemoveIdKeepsUnique` | hooks/useWatchlist.js:19 | removal keeps at most one entry per id |
| `Watchlist.Toggle` | hooks/useWatchlist.js:9-37 | after a toggle the id is a member iff it was absent and `moviesData` knows it; every other id keeps its membership |
| `Watchlist.ToggleRemovesPresent` | hooks/useWatchlist.js:13-20 | toggling a present id removes every entry with that id and keeps all others in order |
| `Watchlist.ToggleAppendsKnown` | hooks/useWatchlist.js:29-35 | toggling an absent, known id appends exactly `{imdbId, title, poster_path}` from `moviesData`; the old list is a prefix of the new one |
| `Watchlist.ToggleUnknownIsNoOp` | hooks/useWatchlist.js:22-26 | toggling an absent id that `moviesData` does not know returns the list unchanged |
| `Watchlist.ToggleKeepsUniqueIds` | hooks/useWatchlist.js:13-35 | a list with at most one entry per id still has at most one after a toggle |
| `Watchlist.ToggleTwiceRestores` | hooks/useWatchlist.js:13-35 | toggling an absent, known id twice in a row returns the original list |
| `Watchlist.ToggleTwiceMembership` | hooks/useWatchlist.js:13-35 | toggling a known id twice restores every id's membership |
| `Watchlist.HookTestAdd` | tests/useWatchlist.test.js:50-57 | toggling `tt1234567` into the empty list yields its single snapshot |
| `Watchlist.HookTestRemove` | tests/useWatchlist.test.js:60-85 | toggling the only saved id yields the empty list |

## Left out

- Network I/O is not modelled: `fetch`, the `fetcher` status check, and the `Promise.all` batch. The responses, and whether data or an error is present, are parameters.
- The fetch cache is not modelled. That covers caching by key and the rule that a response belongs to the key that was asked for. The effects apply whatever response they are given, and the code itself has no staleness check.
- The debounce is a timer, and the debounced input is a parameter.
- React does not schedule the effects here. Each effect is a transition method, and the caller decides when each one runs.
- The error values `netzkinoError` and `tmdbError` are passed through unchanged, so they appear only as booleans in `Loading`.
- Only two malformed responses are modelled: a post with no `IMDb-Link` entry and a batch shorter than the ids. A missing `custom_fields` object is treated like an empty `IMDb-Link` array, because both throw in the same place. Other malformed JSON is not modelled: a missing `posts` array, a `null` batch entry, or a `movie_results` that is not an array.
- A `moviesData` lookup finds only real keys. A JavaScript object lookup would also find inherited names such as `constructor`.
- Persistence is not modelled. That covers the `use-local-storage-state` library, its storage key, and the `console.warn` for unknown ids. The list is plain state, and `InitialWatchlist` stands for hydration.
- The page, the movie card and styling are presentation and are not part of this model.
