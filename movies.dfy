/**
 * The deterministic core of the `useMovies` hook: the catalog search key, the
 * extraction of IMDb ids from the search posts, the TMDB lookup URLs, the fold
 * of the TMDB batch into the `moviesData` map, the two state fields the
 * hook's effects replace, and the `loading` flag.
 *
 * Fetching, caching by URL, debouncing and the scheduling of effects are not
 * modelled: the debounced input and the fetched responses are parameters.
 */
module MovieSearch {
  import opened Wrappers
  import opened JsStrings

  // ---------------------------------------------------------------------
  // Data

  /** One catalog search post; `imdbLinks` is its `custom_fields["IMDb-Link"]` array. */
  datatype Post = Post(imdbLinks: seq<string>)

  /** The catalog search response: its `posts` array. */
  datatype SearchResponse = SearchResponse(posts: seq<Post>)

  /** One entry of a TMDB `movie_results` array (`poster_path` may be null). */
  datatype TmdbMovie = TmdbMovie(title: string, posterPath: Option<string>)

  /** One TMDB find response; `movieResults` is absent when the field is missing. */
  datatype TmdbResponse = TmdbResponse(movieResults: Option<seq<TmdbMovie>>)

  /** The value stored per id in `moviesData`: `{title, poster_path}`. */
  datatype MovieInfo = MovieInfo(title: string, posterPath: Option<string>)

  /** The TypeErrors the effects throw on malformed input; a throwing effect changes no state. */
  datatype EffectError =
    | MissingImdbLink(postIndex: nat)    // `custom_fields["IMDb-Link"][0]` is undefined
    | MissingBatchEntry(index: nat)      // `tmdbData[index]` is undefined

  const SearchUrlPrefix: string := "https://api.netzkino.de.simplecache.net/capi-2.0a/search?q="
  const SearchUrlSuffix: string := "&d=devtest"
  const TmdbUrlPrefix: string := "https://api.themoviedb.org/3/find/"
  const TmdbUrlSuffix: string := "?api_key=78247849b9888da02ffb1655caa3a9b9&language=de&external_source=imdb_id"

  /** `Some(x)` when `s` is `prefix + x + suffix`. */
  function StripAffixes(s: string, prefix: string, suffix: string): (r: Option<string>)
    ensures r.Some? <==> |prefix| + |suffix| <= |s| && s[..|prefix|] == prefix && s[|s| - |suffix|..] == suffix
    ensures r.Some? ==> s == prefix + r.value + suffix
  {
    if |prefix| + |suffix| <= |s| && s[..|prefix|] == prefix && s[|s| - |suffix|..] == suffix then
      assert s == s[..|prefix|] + s[|prefix|..|s| - |suffix|] + s[|s| - |suffix|..];
      Some(s[|prefix|..|s| - |suffix|])
    else None
  }

  lemma StripAffixesOfWrapped(prefix: string, x: string, suffix: string)
    ensures StripAffixes(prefix + x + suffix, prefix, suffix) == Some(x)
  {
    var s := prefix + x + suffix;
    assert s[..|prefix|] == prefix;
    assert s[|s| - |suffix|..] == suffix;
    assert s[|prefix|..|s| - |suffix|] == x;
  }

  // ---------------------------------------------------------------------
  // Search key

  /**
   * The search key handed to the fetch cache: no key for an empty debounced
   * input (so no request), otherwise the catalog URL with the input's spaces
   * joined by `+`.
   */
  function SearchUrl(debouncedInput: string): (key: Option<string>)
    ensures key.None? <==> debouncedInput == ""
    ensures key.Some? ==> key.value == SearchUrlPrefix + ReplaceChar(debouncedInput, ' ', '+') + SearchUrlSuffix
  {
    if debouncedInput == "" then None
    else
      SplitJoinReplaces(debouncedInput, ' ', '+');
      Some(SearchUrlPrefix + Join(Split(debouncedInput, ' '), '+') + SearchUrlSuffix)
  }

  /** The query embedded in a search URL. */
  function SearchQuery(url: string): Option<string> {
    StripAffixes(url, SearchUrlPrefix, SearchUrlSuffix)
  }

  /**
   * The query embedded in the search key has the input's length, no space,
   * a `+` where the input had a space and every other character unchanged.
   */
  lemma SearchQueryOfKey(debouncedInput: string)
    requires debouncedInput != ""
    ensures var q := SearchQuery(SearchUrl(debouncedInput).value);
      && q.Some?
      && |q.value| == |debouncedInput|
      && ' ' !in q.value
      && forall i :: 0 <= i < |q.value| ==> q.value[i] == if debouncedInput[i] == ' ' then '+' else debouncedInput[i]
  {
    StripAffixesOfWrapped(SearchUrlPrefix, ReplaceChar(debouncedInput, ' ', '+'), SearchUrlSuffix);
  }

  // ---------------------------------------------------------------------
  // IMDb id extraction

  predicate IsTtSegment(part: string) {
    StartsWith(part, "tt")
  }

  /** `parts.find((part) => part.startsWith("tt"))`: the first `tt` part, if any. */
  function FindTtSegment(parts: seq<string>): (r: Option<string>)
    ensures r.None? <==> forall i :: 0 <= i < |parts| ==> !IsTtSegment(parts[i])
    ensures r.Some? ==> exists i :: (0 <= i < |parts| && parts[i] == r.value && IsTtSegment(parts[i])
                                     && forall j :: 0 <= j < i ==> !IsTtSegment(parts[j]))
  {
    if parts == [] then None
    else if IsTtSegment(parts[0]) then Some(parts[0])
    else
      var r := FindTtSegment(parts[1..]);
      FindTtSegmentShift(parts, r);
      r
  }

  /** The search result for `parts[1..]` stands for `parts` when `parts[0]` is not a `tt` part. */
  lemma FindTtSegmentShift(parts: seq<string>, r: Option<string>)
    requires parts != [] && !IsTtSegment(parts[0])
    requires r.None? <==> forall i :: 0 <= i < |parts| - 1 ==> !IsTtSegment(parts[1..][i])
    requires r.Some? ==> exists i :: (0 <= i < |parts| - 1 && parts[1..][i] == r.value && IsTtSegment(parts[1..][i])
                                      && forall j :: 0 <= j < i ==> !IsTtSegment(parts[1..][j]))
    ensures r.None? <==> forall i :: 0 <= i < |parts| ==> !IsTtSegment(parts[i])
    ensures r.Some? ==> exists i :: (0 <= i < |parts| && parts[i] == r.value && IsTtSegment(parts[i])
                                     && forall j :: 0 <= j < i ==> !IsTtSegment(parts[j]))
  {
    if r.Some? {
      var k :| 0 <= k < |parts| - 1 && parts[1..][k] == r.value && IsTtSegment(parts[1..][k])
        && forall j :: 0 <= j < k ==> !IsTtSegment(parts[1..][j]);
      assert parts[k + 1] == r.value;
      forall j | 0 <= j < k + 1 ensures !IsTtSegment(parts[j]) {
        if j > 0 { assert parts[j] == parts[1..][j - 1]; }
      }
    } else {
      forall i | 0 <= i < |parts| ensures !IsTtSegment(parts[i]) {
        if i > 0 { assert parts[i] == parts[1..][i - 1]; }
      }
    }
  }

  /** The IMDb id of one link: its first `/`-separated part that starts with `tt`. */
  function LinkId(imdbLink: string): (id: Option<string>)
    ensures id.Some? ==> IsTtSegment(id.value) && '/' !in id.value && id.value in Split(imdbLink, '/')
    ensures id.None? <==> forall part :: part in Split(imdbLink, '/') ==> !IsTtSegment(part)
  {
    FindTtSegment(Split(imdbLink, '/'))
  }

  /**
   * The index of the first post without an `IMDb-Link` entry, where reading
   * `custom_fields["IMDb-Link"][0]` throws.
   */
  function FirstMissingLink(posts: seq<Post>): (r: Option<nat>)
    ensures r.None? <==> forall i :: 0 <= i < |posts| ==> posts[i].imdbLinks != []
    ensures r.Some? ==> (r.value < |posts| && posts[r.value].imdbLinks == []
                         && forall j :: 0 <= j < r.value ==> posts[j].imdbLinks != [])
  {
    if posts == [] then None
    else if posts[0].imdbLinks == [] then Some(0)
    else match FirstMissingLink(posts[1..])
      case None => None
      case Some(i) => Some(i + 1)
  }

  /** The `.map(...)` step: the candidate id (or `null`) of each post's first link. */
  function Candidates(posts: seq<Post>): seq<Option<string>>
    requires forall i :: 0 <= i < |posts| ==> posts[i].imdbLinks != []
  {
    seq(|posts|, i requires 0 <= i < |posts| => LinkId(posts[i].imdbLinks[0]))
  }

  /** The `.filter(Boolean)` step: keeps the truthy candidates, i.e. the non-empty present strings. */
  function FilterTruthy(candidates: seq<Option<string>>): (ids: seq<string>)
    ensures |ids| <= |candidates|
    ensures forall id :: id in ids <==> Some(id) in candidates && id != ""
  {
    if candidates == [] then []
    else
      var rest := FilterTruthy(candidates[1..]);
      assert candidates == [candidates[0]] + candidates[1..];
      match candidates[0]
      case Some(id) => if id != "" then [id] + rest else rest
      case None => rest
  }

  /**
   * The ids extracted from a search response, in search order; a post without
   * a link makes the extraction throw.
   */
  function ExtractIds(posts: seq<Post>): (r: Result<seq<string>, EffectError>)
    ensures r.Failure? <==> exists i :: 0 <= i < |posts| && posts[i].imdbLinks == []
    ensures r.Success? ==> |r.value| <= |posts|
  {
    match FirstMissingLink(posts)
    case Some(i) => Failure(MissingImdbLink(i))
    case None => Success(FilterTruthy(Candidates(posts)))
  }

  /** Every extracted id starts with `tt`, contains no `/` and is a part of some post's first link. */
  lemma ExtractedIdsAreTtSegments(posts: seq<Post>)
    requires ExtractIds(posts).Success?
    ensures forall id :: id in ExtractIds(posts).value ==>
      IsTtSegment(id) && '/' !in id
      && exists i :: 0 <= i < |posts| && id in Split(posts[i].imdbLinks[0], '/')
  {
    var cs := Candidates(posts);
    forall id | id in ExtractIds(posts).value
      ensures IsTtSegment(id) && '/' !in id
      ensures exists i :: 0 <= i < |posts| && id in Split(posts[i].imdbLinks[0], '/')
    {
      var i :| 0 <= i < |cs| && cs[i] == Some(id);
      assert LinkId(posts[i].imdbLinks[0]) == Some(id);
    }
  }

  /** `.filter(Boolean)` keeps the order: filtering a concatenation concatenates the filtered parts. */
  lemma {:induction false} FilterTruthyAppend(a: seq<Option<string>>, b: seq<Option<string>>)
    ensures FilterTruthy(a + b) == FilterTruthy(a) + FilterTruthy(b)
    decreases |a|
  {
    if a == [] {
      assert a + b == b;
    } else {
      assert (a + b)[0] == a[0];
      assert (a + b)[1..] == a[1..] + b;
      FilterTruthyAppend(a[1..], b);
    }
  }

  lemma CandidatesAppend(a: seq<Post>, b: seq<Post>)
    requires forall i :: 0 <= i < |a| ==> a[i].imdbLinks != []
    requires forall i :: 0 <= i < |b| ==> b[i].imdbLinks != []
    requires forall i :: 0 <= i < |a + b| ==> (a + b)[i].imdbLinks != []
    ensures Candidates(a + b) == Candidates(a) + Candidates(b)
  {
    var c, ca, cb := Candidates(a + b), Candidates(a), Candidates(b);
    assert |c| == |ca + cb|;
    forall i | 0 <= i < |c| ensures c[i] == (ca + cb)[i] {
      if i < |a| {
        assert (a + b)[i] == a[i];
      } else {
        assert (a + b)[i] == b[i - |a|];
      }
    }
  }

  /**
   * Extraction keeps search order and does not deduplicate: the posts of a
   * concatenated response yield the concatenated id lists.
   */
  lemma ExtractIdsAppend(a: seq<Post>, b: seq<Post>)
    requires ExtractIds(a).Success? && ExtractIds(b).Success?
    ensures ExtractIds(a + b) == Success(ExtractIds(a).value + ExtractIds(b).value)
  {
    assert forall i :: 0 <= i < |a + b| ==> (a + b)[i].imdbLinks != [] by {
      forall i | 0 <= i < |a + b| ensures (a + b)[i].imdbLinks != [] {
        if i >= |a| { assert (a + b)[i] == b[i - |a|]; }
      }
    }
    CandidatesAppend(a, b);
    FilterTruthyAppend(Candidates(a), Candidates(b));
  }

  /** One post with a link contributes its link's id, or nothing when the link has no `tt` part. */
  lemma ExtractIdsSingle(post: Post)
    requires post.imdbLinks != []
    ensures ExtractIds([post]) == match LinkId(post.imdbLinks[0])
      case Some(id) => Success([id])
      case None => Success([])
  {
    var cs := Candidates([post]);
    assert cs == [LinkId(post.imdbLinks[0])];
    assert cs[1..] == [];
    assert FilterTruthy(cs[1..]) == [];
    match LinkId(post.imdbLinks[0])
    case Some(id) =>
      assert |id| >= 2;
      assert FilterTruthy(cs) == [id];
    case None =>
      assert FilterTruthy(cs) == [];
  }

  /** No deduplication: a response listing its posts twice yields its ids twice. */
  lemma ExtractIdsKeepsDuplicates(posts: seq<Post>)
    requires ExtractIds(posts).Success?
    ensures ExtractIds(posts + posts) == Success(ExtractIds(posts).value + ExtractIds(posts).value)
  {
    ExtractIdsAppend(posts, posts);
  }

  /** The first `tt` part is found whatever follows it. */
  lemma {:induction false} FindTtSegmentFirst(before: seq<string>, id: string, after: seq<string>)
    requires forall i :: 0 <= i < |before| ==> !IsTtSegment(before[i])
    requires IsTtSegment(id)
    ensures FindTtSegment(before + [id] + after) == Some(id)
    decreases |before|
  {
    var parts := before + [id] + after;
    if before != [] {
      assert parts[0] == before[0];
      assert parts[1..] == before[1..] + [id] + after;
      FindTtSegmentFirst(before[1..], id, after);
    }
  }

  /** The `/`-pieces of an IMDb title link `https://www.imdb.com/title/<id>/`. */
  function ImdbTitleLinkParts(id: string): seq<string> {
    ["https:", "", "www.imdb.com", "title", id, ""]
  }

  /**
   * An IMDb title link `https://www.imdb.com/title/<id>/`, written as its
   * pieces joined by `/`, yields `<id>`.
   */
  lemma ImdbTitleLinkId(id: string)
    requires IsTtSegment(id) && '/' !in id
    ensures LinkId(Join(ImdbTitleLinkParts(id), '/')) == Some(id)
  {
    var parts := ImdbTitleLinkParts(id);
    JoinSplitRoundTrip(parts, '/');
    var before := ["https:", "", "www.imdb.com", "title"];
    assert "https:"[0] == 'h' && "www.imdb.com"[0] == 'w' && "title"[1] == 'i';
    FindTtSegmentFirst(before, id, [""]);
    assert before + [id] + [""] == parts;
  }

  // ---------------------------------------------------------------------
  // TMDB lookup

  function TmdbUrl(id: string): string {
    TmdbUrlPrefix + id + TmdbUrlSuffix
  }

  /** The id a TMDB lookup URL asks for. */
  function TmdbUrlId(url: string): Option<string> {
    StripAffixes(url, TmdbUrlPrefix, TmdbUrlSuffix)
  }

  /**
   * The lookup key handed to the fetch cache: no key (no request) for an
   * empty id list, otherwise one TMDB URL per id, in id order.
   */
  function LookupUrls(imdbIds: seq<string>): (key: Option<seq<string>>)
    ensures key.None? <==> imdbIds == []
    ensures key.Some? ==> (|key.value| == |imdbIds|
                           && forall i :: 0 <= i < |imdbIds| ==> TmdbUrlId(key.value[i]) == Some(imdbIds[i]))
  {
    if |imdbIds| > 0 then
      var urls := seq(|imdbIds|, i requires 0 <= i < |imdbIds| => TmdbUrl(imdbIds[i]));
      assert forall i :: 0 <= i < |imdbIds| ==> TmdbUrlId(urls[i]) == Some(imdbIds[i]) by {
        forall i | 0 <= i < |imdbIds| ensures TmdbUrlId(urls[i]) == Some(imdbIds[i]) {
          StripAffixesOfWrapped(TmdbUrlPrefix, imdbIds[i], TmdbUrlSuffix);
        }
      }
      Some(urls)
    else None
  }

  // ---------------------------------------------------------------------
  // The metadata map

  /** The `{title, poster_path}` of a response's first result, when `movie_results` is non-empty. */
  function FirstResult(response: TmdbResponse): Option<MovieInfo> {
    match response.movieResults
    case Some(results) =>
      if |results| > 0 then Some(MovieInfo(results[0].title, results[0].posterPath)) else None
    case None => None
  }

  /**
   * The map the `forEach` builds from an empty dictionary: id `i` is written
   * with batch result `i` when that has a result, later indices overwriting
   * earlier ones.
   */
  function MoviesDataOf(imdbIds: seq<string>, batch: seq<TmdbResponse>): map<string, MovieInfo>
    requires |imdbIds| <= |batch|
    decreases |imdbIds|
  {
    if imdbIds == [] then map[]
    else
      var last := |imdbIds| - 1;
      var m := MoviesDataOf(imdbIds[..last], batch);
      match FirstResult(batch[last])
      case Some(info) => m[imdbIds[last] := info]
      case None => m
  }

  /** The `forEach` loop that fills `movieDataById`, index-aligned with the batch. */
  method BuildMoviesData(imdbIds: seq<string>, batch: seq<TmdbResponse>) returns (movieDataById: map<string, MovieInfo>)
    requires |imdbIds| <= |batch|
    ensures movieDataById == MoviesDataOf(imdbIds, batch)
  {
    movieDataById := map[];
    var index := 0;
    while index < |imdbIds|
      invariant 0 <= index <= |imdbIds|
      invariant movieDataById == MoviesDataOf(imdbIds[..index], batch)
    {
      assert imdbIds[..index + 1][..index] == imdbIds[..index];
      var movieResults := batch[index].movieResults;
      if movieResults.Some? && |movieResults.value| > 0 {
        movieDataById := movieDataById[imdbIds[index] := MovieInfo(movieResults.value[0].title, movieResults.value[0].posterPath)];
      }
      index := index + 1;
    }
    assert imdbIds[..index] == imdbIds;
  }

  /**
   * An id is a key of the map exactly when some index carrying it has a
   * result; its value is the first result of the last such index.
   */
  lemma {:induction false} MoviesDataEntry(imdbIds: seq<string>, batch: seq<TmdbResponse>, id: string)
    requires |imdbIds| <= |batch|
    ensures id in MoviesDataOf(imdbIds, batch) <==>
      exists i :: 0 <= i < |imdbIds| && imdbIds[i] == id && FirstResult(batch[i]).Some?
    ensures id in MoviesDataOf(imdbIds, batch) ==>
      exists i :: 0 <= i < |imdbIds| && imdbIds[i] == id && FirstResult(batch[i]) == Some(MoviesDataOf(imdbIds, batch)[id])
        && forall j :: i < j < |imdbIds| && imdbIds[j] == id ==> FirstResult(batch[j]).None?
    decreases |imdbIds|
  {
    if imdbIds != [] {
      var last := |imdbIds| - 1;
      var init := imdbIds[..last];
      MoviesDataEntry(init, batch, id);
      assert forall i :: 0 <= i < last ==> init[i] == imdbIds[i];
      var m := MoviesDataOf(imdbIds, batch);
      if id in m && !(imdbIds[last] == id && FirstResult(batch[last]).Some?) {
        var i :| 0 <= i < |init| && init[i] == id && FirstResult(batch[i]) == Some(MoviesDataOf(init, batch)[id])
          && forall j :: i < j < |init| && init[j] == id ==> FirstResult(batch[j]).None?;
        assert forall j :: i < j < |imdbIds| && imdbIds[j] == id ==> FirstResult(batch[j]).None?;
      }
    }
  }

  /** The map is built afresh: its keys are among the current ids, nothing else survives. */
  lemma MoviesDataKeysAreIds(imdbIds: seq<string>, batch: seq<TmdbResponse>)
    requires |imdbIds| <= |batch|
    ensures forall id :: id in MoviesDataOf(imdbIds, batch) ==> id in imdbIds
  {
    forall id | id in MoviesDataOf(imdbIds, batch) ensures id in imdbIds {
      MoviesDataEntry(imdbIds, batch, id);
    }
  }

  /** With distinct ids, id `i` maps to exactly batch result `i`'s first result, and only when it has one. */
  lemma MoviesDataOfDistinctIds(imdbIds: seq<string>, batch: seq<TmdbResponse>, i: nat)
    requires |imdbIds| <= |batch| && i < |imdbIds|
    requires forall j, k :: 0 <= j < k < |imdbIds| ==> imdbIds[j] != imdbIds[k]
    ensures imdbIds[i] in MoviesDataOf(imdbIds, batch) <==> FirstResult(batch[i]).Some?
    ensures FirstResult(batch[i]).Some? ==> MoviesDataOf(imdbIds, batch)[imdbIds[i]] == FirstResult(batch[i]).value
  {
    MoviesDataEntry(imdbIds, batch, imdbIds[i]);
  }

  /** Two ids, the first resolving and the second without a match: one key, the first id's. */
  lemma PartialBatch(a: string, b: string, info: TmdbMovie)
    requires a != b
    ensures MoviesDataOf([a, b], [TmdbResponse(Some([info])), TmdbResponse(Some([]))])
      == map[a := MovieInfo(info.title, info.posterPath)]
  {
    var batch := [TmdbResponse(Some([info])), TmdbResponse(Some([]))];
    assert [a, b][..1] == [a];
    assert [a][..0] == [];
    assert MoviesDataOf([a], batch) == map[a := MovieInfo(info.title, info.posterPath)];
    assert FirstResult(batch[1]) == None;
  }

  // ---------------------------------------------------------------------
  // Loading flag

  /**
   * The hook's `loading`: a search is pending (no data, input non-empty, no
   * error) or a lookup is pending (no data, ids non-empty, no error).
   */
  function Loading(debouncedInput: string, hasSearchData: bool, hasSearchError: bool,
                   imdbIds: seq<string>, hasTmdbData: bool, hasTmdbError: bool): bool
  {
    (!hasSearchData && debouncedInput != "" && !hasSearchError)
    || (!hasTmdbData && |imdbIds| > 0 && !hasTmdbError)
  }

  /** `loading` holds exactly when a request that has a key has neither data nor an error yet. */
  lemma LoadingIffRequestOutstanding(debouncedInput: string, hasSearchData: bool, hasSearchError: bool,
                                     imdbIds: seq<string>, hasTmdbData: bool, hasTmdbError: bool)
    ensures Loading(debouncedInput, hasSearchData, hasSearchError, imdbIds, hasTmdbData, hasTmdbError) <==>
      (SearchUrl(debouncedInput).Some? && !hasSearchData && !hasSearchError)
      || (LookupUrls(imdbIds).Some? && !hasTmdbData && !hasTmdbError)
  {
  }

  /** After the empty-input reset nothing is loading, whatever the caches hold. */
  lemma NotLoadingWhenIdle(hasSearchData: bool, hasSearchError: bool, hasTmdbData: bool, hasTmdbError: bool)
    ensures !Loading("", hasSearchData, hasSearchError, [], hasTmdbData, hasTmdbError)
  {
  }

  // ---------------------------------------------------------------------
  // The hook's state

  /** The two state fields of the hook and the effects that replace them. */
  class MoviesState {
    var imdbIds: seq<string>
    var moviesData: map<string, MovieInfo>

    /** `useState({})` and `useState([])`. */
    constructor ()
      ensures imdbIds == [] && moviesData == map[]
    {
      imdbIds := [];
      moviesData := map[];
    }

    /** The effect on a new debounced input: an empty input clears both fields. */
    method OnDebouncedInput(debouncedInput: string)
      modifies this
      ensures debouncedInput == "" ==> imdbIds == [] && moviesData == map[]
      ensures debouncedInput != "" ==> imdbIds == old(imdbIds) && moviesData == old(moviesData)
    {
      if debouncedInput == "" {
        imdbIds := [];
        moviesData := map[];
      }
    }

    /**
     * The effect on new search data: when present, the extracted ids replace
     * `imdbIds`; a post without a link throws and nothing changes.
     */
    method OnSearchData(searchData: Option<SearchResponse>) returns (err: Option<EffectError>)
      modifies this
      ensures moviesData == old(moviesData)
      ensures searchData.None? ==> err.None? && imdbIds == old(imdbIds)
      ensures searchData.Some? ==> match ExtractIds(searchData.value.posts)
        case Success(ids) => err.None? && imdbIds == ids
        case Failure(e) => err == Some(e) && imdbIds == old(imdbIds)
    {
      err := None;
      if searchData.Some? {
        var extracted := ExtractIds(searchData.value.posts);
        match extracted
        case Success(ids) =>
          imdbIds := ids;
        case Failure(e) =>
          err := Some(e);
      }
    }

    /**
     * The effect on new TMDB data: with data present and at least one id, the
     * map built from the index-aligned batch replaces `moviesData` wholesale;
     * a batch shorter than the ids throws and nothing changes.
     */
    method OnTmdbData(tmdbData: Option<seq<TmdbResponse>>) returns (err: Option<EffectError>)
      modifies this
      ensures imdbIds == old(imdbIds)
      ensures tmdbData.None? || imdbIds == [] ==> err.None? && moviesData == old(moviesData)
      ensures tmdbData.Some? && imdbIds != [] && |tmdbData.value| < |imdbIds| ==>
        err == Some(MissingBatchEntry(|tmdbData.value|)) && moviesData == old(moviesData)
      ensures tmdbData.Some? && imdbIds != [] && |imdbIds| <= |tmdbData.value| ==>
        err.None? && moviesData == MoviesDataOf(imdbIds, tmdbData.value)
        && forall id :: id in moviesData ==> id in imdbIds
    {
      err := None;
      if tmdbData.Some? && |imdbIds| > 0 {
        if |tmdbData.value| < |imdbIds| {
          err := Some(MissingBatchEntry(|tmdbData.value|));
        } else {
          moviesData := BuildMoviesData(imdbIds, tmdbData.value);
          MoviesDataKeysAreIds(imdbIds, tmdbData.value);
        }
      }
    }
  }

  /** The hook's test: one post with the IMDb title link of `tt1234567` yields that id. */
  lemma HookTestExtraction()
    ensures ExtractIds([Post([Join(ImdbTitleLinkParts("tt1234567"), '/')])]) == Success(["tt1234567"])
  {
    assert "tt1234567"[..2] == "tt";
    ImdbTitleLinkId("tt1234567");
    ExtractIdsSingle(Post([Join(ImdbTitleLinkParts("tt1234567"), '/')]));
  }

  /** The hook's test: one TMDB match gives the id its title and poster path. */
  lemma HookTestMoviesData()
    ensures MoviesDataOf(["tt1234567"], [TmdbResponse(Some([TmdbMovie("Mocked Movie 1", Some("/poster1.jpg"))]))])
      == map["tt1234567" := MovieInfo("Mocked Movie 1", Some("/poster1.jpg"))]
  {
    assert ["tt1234567"][..0] == [];
  }
}
