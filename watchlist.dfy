/**
 * The `useWatchlist` hook's list logic: the updater that `toggleWatchlist`
 * hands to the persisted state's setter, and the `inWatchlist` membership
 * test. The list is an ordered sequence of snapshots; `moviesData` is the map
 * the search pipeline produced.
 */
module Watchlist {
  import opened Wrappers
  import opened MovieSearch

  /** A saved movie: `{imdbId, title, poster_path}`. */
  datatype Entry = Entry(imdbId: string, title: string, posterPath: Option<string>)

  /** The list the store starts from: what was persisted, or `[]` when nothing was. */
  function InitialWatchlist(persisted: Option<seq<Entry>>): (watchlist: seq<Entry>)
    ensures persisted.None? ==> watchlist == []
    ensures persisted.Some? ==> watchlist == persisted.value
  {
    match persisted
    case Some(saved) => saved
    case None => []
  }

  /** `watchlist.some((item) => item.imdbId === imdbId)` */
  function InWatchlist(watchlist: seq<Entry>, imdbId: string): (found: bool)
    ensures found <==> exists i :: 0 <= i < |watchlist| && watchlist[i].imdbId == imdbId
  {
    if watchlist == [] then false
    else if watchlist[0].imdbId == imdbId then true
    else
      var found := InWatchlist(watchlist[1..], imdbId);
      assert forall i :: 1 <= i < |watchlist| ==> watchlist[i] == watchlist[1..][i - 1];
      found
  }

  /** `watchlist.filter((item) => item.imdbId !== imdbId)` */
  function RemoveId(watchlist: seq<Entry>, imdbId: string): (kept: seq<Entry>)
    ensures |kept| <= |watchlist|
    ensures forall e :: e in kept <==> e in watchlist && e.imdbId != imdbId
  {
    if watchlist == [] then []
    else
      var rest := RemoveId(watchlist[1..], imdbId);
      assert watchlist == [watchlist[0]] + watchlist[1..];
      if watchlist[0].imdbId != imdbId then [watchlist[0]] + rest else rest
  }

  /** The snapshot appended for a known movie. */
  function Snapshot(imdbId: string, movie: MovieInfo): Entry {
    Entry(imdbId, movie.title, movie.posterPath)
  }

  /**
   * The updater: remove every entry with the id when it is present, else
   * append a snapshot of the movie when `moviesData` knows the id, else leave
   * the list as it is.
   */
  function Toggle(watchlist: seq<Entry>, moviesData: map<string, MovieInfo>, imdbId: string): (updated: seq<Entry>)
    ensures InWatchlist(updated, imdbId) <==> !InWatchlist(watchlist, imdbId) && imdbId in moviesData
    ensures forall other :: other != imdbId ==> (InWatchlist(updated, other) <==> InWatchlist(watchlist, other))
  {
    if InWatchlist(watchlist, imdbId) then
      RemoveIdMembership(watchlist, imdbId);
      RemoveId(watchlist, imdbId)
    else if imdbId !in moviesData then
      watchlist
    else
      var updated := watchlist + [Snapshot(imdbId, moviesData[imdbId])];
      assert updated[|watchlist|].imdbId == imdbId;
      assert forall i :: 0 <= i < |watchlist| ==> updated[i] == watchlist[i];
      updated
  }

  /** Removal takes out exactly the entries with that id: other ids stay members. */
  lemma RemoveIdMembership(watchlist: seq<Entry>, imdbId: string)
    ensures !InWatchlist(RemoveId(watchlist, imdbId), imdbId)
    ensures forall other :: other != imdbId ==> (InWatchlist(RemoveId(watchlist, imdbId), other) <==> InWatchlist(watchlist, other))
  {
    var kept := RemoveId(watchlist, imdbId);
    forall other | other != imdbId && InWatchlist(watchlist, other)
      ensures InWatchlist(kept, other)
    {
      var i :| 0 <= i < |watchlist| && watchlist[i].imdbId == other;
      assert watchlist[i] in kept;
    }
  }

  /** The filter keeps order: filtering a concatenation concatenates the filtered parts. */
  lemma {:induction false} RemoveIdAppend(a: seq<Entry>, b: seq<Entry>, imdbId: string)
    ensures RemoveId(a + b, imdbId) == RemoveId(a, imdbId) + RemoveId(b, imdbId)
    decreases |a|
  {
    if a == [] {
      assert a + b == b;
    } else {
      assert (a + b)[0] == a[0];
      assert (a + b)[1..] == a[1..] + b;
      RemoveIdAppend(a[1..], b, imdbId);
    }
  }

  /** Filtering out an absent id changes nothing. */
  lemma {:induction false} RemoveAbsentId(watchlist: seq<Entry>, imdbId: string)
    requires !InWatchlist(watchlist, imdbId)
    ensures RemoveId(watchlist, imdbId) == watchlist
    decreases |watchlist|
  {
    if watchlist != [] {
      assert watchlist[0].imdbId != imdbId && !InWatchlist(watchlist[1..], imdbId);
      RemoveAbsentId(watchlist[1..], imdbId);
      assert [watchlist[0]] + watchlist[1..] == watchlist;
    }
  }

  /** At most one entry per id. */
  predicate UniqueIds(watchlist: seq<Entry>) {
    forall i, j :: 0 <= i < j < |watchlist| ==> watchlist[i].imdbId != watchlist[j].imdbId
  }

  /** Filtering keeps ids unique. */
  lemma {:induction false} RemoveIdKeepsUnique(watchlist: seq<Entry>, imdbId: string)
    requires UniqueIds(watchlist)
    ensures UniqueIds(RemoveId(watchlist, imdbId))
    decreases |watchlist|
  {
    if watchlist != [] {
      var tail := watchlist[1..];
      assert UniqueIds(tail) by {
        forall i, j | 0 <= i < j < |tail| ensures tail[i].imdbId != tail[j].imdbId {
          assert tail[i] == watchlist[i + 1] && tail[j] == watchlist[j + 1];
        }
      }
      RemoveIdKeepsUnique(tail, imdbId);
      var rest := RemoveId(tail, imdbId);
      if watchlist[0].imdbId != imdbId {
        var kept := [watchlist[0]] + rest;
        forall j | 0 < j < |kept| ensures kept[0].imdbId != kept[j].imdbId {
          assert kept[j] == rest[j - 1];
          assert rest[j - 1] in tail;
          var k :| 0 <= k < |tail| && tail[k] == rest[j - 1];
          assert tail[k] == watchlist[k + 1];
        }
        forall i, j | 0 < i < j < |kept| ensures kept[i].imdbId != kept[j].imdbId {
          assert kept[i] == rest[i - 1] && kept[j] == rest[j - 1];
        }
      }
    }
  }

  /** Toggling a present id removes all its entries and keeps the others in order. */
  lemma ToggleRemovesPresent(watchlist: seq<Entry>, moviesData: map<string, MovieInfo>, imdbId: string)
    requires InWatchlist(watchlist, imdbId)
    ensures Toggle(watchlist, moviesData, imdbId) == RemoveId(watchlist, imdbId)
    ensures !InWatchlist(Toggle(watchlist, moviesData, imdbId), imdbId)
    ensures forall e :: e in Toggle(watchlist, moviesData, imdbId) <==> e in watchlist && e.imdbId != imdbId
  {
  }

  /** Toggling an absent, known id appends exactly its snapshot; the old list is a prefix. */
  lemma ToggleAppendsKnown(watchlist: seq<Entry>, moviesData: map<string, MovieInfo>, imdbId: string)
    requires !InWatchlist(watchlist, imdbId) && imdbId in moviesData
    ensures var updated := Toggle(watchlist, moviesData, imdbId);
      && |updated| == |watchlist| + 1
      && updated[..|watchlist|] == watchlist
      && updated[|watchlist|] == Entry(imdbId, moviesData[imdbId].title, moviesData[imdbId].posterPath)
  {
    var updated := Toggle(watchlist, moviesData, imdbId);
    assert updated[..|watchlist|] == watchlist;
  }

  /** Toggling an absent id that `moviesData` does not know leaves the list unchanged. */
  lemma ToggleUnknownIsNoOp(watchlist: seq<Entry>, moviesData: map<string, MovieInfo>, imdbId: string)
    requires !InWatchlist(watchlist, imdbId) && imdbId !in moviesData
    ensures Toggle(watchlist, moviesData, imdbId) == watchlist
  {
  }

  /** A toggle keeps at most one entry per id. */
  lemma ToggleKeepsUniqueIds(watchlist: seq<Entry>, moviesData: map<string, MovieInfo>, imdbId: string)
    requires UniqueIds(watchlist)
    ensures UniqueIds(Toggle(watchlist, moviesData, imdbId))
  {
    if InWatchlist(watchlist, imdbId) {
      RemoveIdKeepsUnique(watchlist, imdbId);
    } else if imdbId in moviesData {
      var updated := Toggle(watchlist, moviesData, imdbId);
      forall i, j | 0 <= i < j < |updated| ensures updated[i].imdbId != updated[j].imdbId {
        if j == |watchlist| {
          assert updated[i] == watchlist[i];
        } else {
          assert updated[i] == watchlist[i] && updated[j] == watchlist[j];
        }
      }
    }
  }

  /** Adding an absent, known id and toggling it again gives back the original list. */
  lemma ToggleTwiceRestores(watchlist: seq<Entry>, moviesData: map<string, MovieInfo>, imdbId: string)
    requires !InWatchlist(watchlist, imdbId) && imdbId in moviesData
    ensures Toggle(Toggle(watchlist, moviesData, imdbId), moviesData, imdbId) == watchlist
  {
    var snapshot := Snapshot(imdbId, moviesData[imdbId]);
    RemoveIdAppend(watchlist, [snapshot], imdbId);
    RemoveAbsentId(watchlist, imdbId);
    assert RemoveId([snapshot], imdbId) == [];
  }

  /** Toggling a known id twice gives back the original membership of every id. */
  lemma ToggleTwiceMembership(watchlist: seq<Entry>, moviesData: map<string, MovieInfo>, imdbId: string, other: string)
    requires imdbId in moviesData
    ensures InWatchlist(Toggle(Toggle(watchlist, moviesData, imdbId), moviesData, imdbId), other)
        <==> InWatchlist(watchlist, other)
  {
  }

  /** The hook's test: toggling a known id into the empty list adds its snapshot. */
  lemma HookTestAdd()
    ensures Toggle([], map["tt1234567" := MovieInfo("Mocked Movie 1", Some("/poster1.jpg"))], "tt1234567")
      == [Entry("tt1234567", "Mocked Movie 1", Some("/poster1.jpg"))]
  {
  }

  /** The hook's test: toggling the only saved id empties the list. */
  lemma HookTestRemove(moviesData: map<string, MovieInfo>)
    ensures Toggle([Entry("tt1234567", "Mocked Movie 1", Some("/poster1.jpg"))], moviesData, "tt1234567") == []
  {
    var watchlist := [Entry("tt1234567", "Mocked Movie 1", Some("/poster1.jpg"))];
    assert RemoveId(watchlist[1..], "tt1234567") == [];
  }
}
