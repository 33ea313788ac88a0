/**
 * The group page's completion overlay: a map from `<type>-<id>` keys to
 * the viewer's completion flag, consulted before the watchlist's own data,
 * and written by the cards' completion buttons. Nothing is persisted: the
 * overlay lives as long as the page.
 */
module GroupDetail {
  import opened Wrappers
  import opened Seqs
  import opened Interfaces
  import MovieCard
  import SeriesCard

  /** The two kinds of watchlist item, `"movie" | "series"`. */
  datatype ItemType = MovieItem | SeriesItem

  function TypeName(t: ItemType): string
  {
    match t
    case MovieItem => "movie"
    case SeriesItem => "series"
  }

  /** An id as a template literal renders it: a missing id reads "undefined". */
  function KeyPart(id: Option<string>): string
  {
    match id
    case None => "undefined"
    case Some(s) => s
  }

  /** The overlay key `${itemType}-${itemId}`. */
  function StateKey(t: ItemType, id: Option<string>): string
  {
    TypeName(t) + "-" + KeyPart(id)
  }

  /** Present ids of either type never share a key: the type prefix and the id are both recovered from it. */
  lemma StateKeyInjective(t1: ItemType, a: string, t2: ItemType, b: string)
    requires StateKey(t1, Some(a)) == StateKey(t2, Some(b))
    ensures t1 == t2 && a == b
  {
    var k := StateKey(t1, Some(a));
    assert k[0] == TypeName(t1)[0] && k[0] == TypeName(t2)[0];
    assert |TypeName(t1)| == |TypeName(t2)|;
    assert a == k[|TypeName(t1)| + 1..] == b;
  }

  /** A missing id and the id "undefined" share one key. */
  lemma MissingIdSharesKey(t: ItemType)
    ensures StateKey(t, None) == StateKey(t, Some("undefined"))
  {
  }

  /** The viewer's completion overrides, keyed by `StateKey`. */
  type Overlay = map<string, bool>

  /** `movieList.find((m) => m.movieId.id === itemId)`. */
  function FindMovie(wl: Watchlist, id: Option<string>): Option<MovieListItem>
  {
    Find(wl.movieList, (m: MovieListItem) => m.movieId.id == id)
  }

  /** `seriesList.find((s) => s.seriesId.id === itemId)`. */
  function FindSeries(wl: Watchlist, id: Option<string>): Option<SeriesListItem>
  {
    Find(wl.seriesList, (s: SeriesListItem) => s.seriesId.id == id)
  }

  /**
   * The status the watchlist data gives: the `completed` flag of the
   * viewer's first progress record on the first item with that id (for a
   * series, the viewer's first episode record), and false when either is
   * missing.
   */
  function FallbackStatus(wl: Watchlist, user: string, id: Option<string>, t: ItemType): bool
  {
    match t
    case MovieItem =>
      (match FindMovie(wl, id)
       case None => false
       case Some(m) =>
         match Find(m.userProgress, (up: UserMovieProgress) => up.userId == user)
         case None => false
         case Some(up) => up.completed)
    case SeriesItem =>
      (match FindSeries(wl, id)
       case None => false
       case Some(s) =>
         match Find(s.episodeProgress, (ep: EpisodeProgress) => ep.userId == user)
         case None => false
         case Some(ep) => ep.completed)
  }

  /** `getUserCompletionStatus`: the overlay's entry when there is one, else the watchlist's status. */
  function ResolveStatus(overlay: Overlay, wl: Watchlist, user: string, id: Option<string>, t: ItemType): bool
  {
    var key := StateKey(t, id);
    if key in overlay then overlay[key] else FallbackStatus(wl, user, id, t)
  }

  /** The overlay after `toggleCompletionStatus`: the key set to the negation of the status shown. */
  function Toggled(overlay: Overlay, wl: Watchlist, user: string, id: Option<string>, t: ItemType): Overlay
  {
    overlay[StateKey(t, id) := !ResolveStatus(overlay, wl, user, id, t)]
  }

  /** An overlay entry decides the status alone, whatever the watchlist and the viewer. */
  lemma OverlayWins(overlay: Overlay, wl: Watchlist, user: string, id: Option<string>, t: ItemType,
                    wl': Watchlist, user': string)
    requires StateKey(t, id) in overlay
    ensures ResolveStatus(overlay, wl, user, id, t) == overlay[StateKey(t, id)]
    ensures ResolveStatus(overlay, wl, user, id, t) == ResolveStatus(overlay, wl', user', id, t)
  {
  }

  /** The first index of `s` whose element satisfies `p`, as a predicate on that index. */
  ghost predicate FirstAt<T>(s: seq<T>, p: T -> bool, i: int)
  {
    0 <= i < |s| && p(s[i]) && forall k :: 0 <= k < i ==> !p(s[k])
  }

  lemma FindIsFirst<T>(s: seq<T>, p: T -> bool)
    ensures Find(s, p).None? <==> forall k :: 0 <= k < |s| ==> !p(s[k])
    ensures forall i :: FirstAt(s, p, i) ==> Find(s, p) == Some(s[i])
  {
    forall i | FirstAt(s, p, i) ensures Find(s, p) == Some(s[i]) {
      var r := FindIndex(s, p);
      assert r.Some? && r.value <= i;
      assert p(s[r.value]);
      assert r.value == i;
    }
  }

  /**
   * Without an overlay entry, a movie counts as completed exactly when the
   * first movie with that id has a record of the viewer, and the viewer's
   * first record says completed; no such movie, or no record of the
   * viewer, means not completed.
   */
  lemma MovieFallback(overlay: Overlay, wl: Watchlist, user: string, id: Option<string>, i: nat, j: nat)
    requires StateKey(MovieItem, id) !in overlay
    requires FirstAt(wl.movieList, (m: MovieListItem) => m.movieId.id == id, i)
    requires FirstAt(wl.movieList[i].userProgress, (up: UserMovieProgress) => up.userId == user, j)
    ensures ResolveStatus(overlay, wl, user, id, MovieItem) == wl.movieList[i].userProgress[j].completed
  {
    FindIsFirst(wl.movieList, (m: MovieListItem) => m.movieId.id == id);
    FindIsFirst(wl.movieList[i].userProgress, (up: UserMovieProgress) => up.userId == user);
  }

  /** No item with that id, or no record of the viewer on the first one, means not completed. */
  lemma MovieFallbackMissing(overlay: Overlay, wl: Watchlist, user: string, id: Option<string>, i: nat)
    requires StateKey(MovieItem, id) !in overlay
    ensures (forall k :: 0 <= k < |wl.movieList| ==> wl.movieList[k].movieId.id != id)
            ==> !ResolveStatus(overlay, wl, user, id, MovieItem)
    ensures (FirstAt(wl.movieList, (m: MovieListItem) => m.movieId.id == id, i)
             && forall k :: 0 <= k < |wl.movieList[i].userProgress| ==> wl.movieList[i].userProgress[k].userId != user)
            ==> !ResolveStatus(overlay, wl, user, id, MovieItem)
  {
    FindIsFirst(wl.movieList, (m: MovieListItem) => m.movieId.id == id);
    if i < |wl.movieList| {
      FindIsFirst(wl.movieList[i].userProgress, (up: UserMovieProgress) => up.userId == user);
    }
  }

  /**
   * Without an overlay entry, a series counts as completed exactly when the
   * viewer's first episode record on the first series with that id says so.
   */
  lemma SeriesFallback(overlay: Overlay, wl: Watchlist, user: string, id: Option<string>, i: nat, j: nat)
    requires StateKey(SeriesItem, id) !in overlay
    requires FirstAt(wl.seriesList, (s: SeriesListItem) => s.seriesId.id == id, i)
    requires FirstAt(wl.seriesList[i].episodeProgress, (ep: EpisodeProgress) => ep.userId == user, j)
    ensures ResolveStatus(overlay, wl, user, id, SeriesItem) == wl.seriesList[i].episodeProgress[j].completed
  {
    FindIsFirst(wl.seriesList, (s: SeriesListItem) => s.seriesId.id == id);
    FindIsFirst(wl.seriesList[i].episodeProgress, (ep: EpisodeProgress) => ep.userId == user);
  }

  /** No item with that id, or no record of the viewer on the first one, means not completed. */
  lemma SeriesFallbackMissing(overlay: Overlay, wl: Watchlist, user: string, id: Option<string>, i: nat)
    requires StateKey(SeriesItem, id) !in overlay
    ensures (forall k :: 0 <= k < |wl.seriesList| ==> wl.seriesList[k].seriesId.id != id)
            ==> !ResolveStatus(overlay, wl, user, id, SeriesItem)
    ensures (FirstAt(wl.seriesList, (s: SeriesListItem) => s.seriesId.id == id, i)
             && forall k :: 0 <= k < |wl.seriesList[i].episodeProgress| ==> wl.seriesList[i].episodeProgress[k].userId != user)
            ==> !ResolveStatus(overlay, wl, user, id, SeriesItem)
  {
    FindIsFirst(wl.seriesList, (s: SeriesListItem) => s.seriesId.id == id);
    if i < |wl.seriesList| {
      FindIsFirst(wl.seriesList[i].episodeProgress, (ep: EpisodeProgress) => ep.userId == user);
    }
  }

  /** A toggle flips the status shown for its item. */
  lemma ToggleNegates(overlay: Overlay, wl: Watchlist, user: string, id: Option<string>, t: ItemType)
    ensures ResolveStatus(Toggled(overlay, wl, user, id, t), wl, user, id, t) == !ResolveStatus(overlay, wl, user, id, t)
  {
  }

  /**
   * Two toggles restore the status shown; the overlay then holds an entry
   * for the key, equal to the status before (so an overlay that already
   * had that entry is restored outright).
   */
  lemma ToggleTwiceRestores(overlay: Overlay, wl: Watchlist, user: string, id: Option<string>, t: ItemType)
    ensures var o2 := Toggled(Toggled(overlay, wl, user, id, t), wl, user, id, t);
      && ResolveStatus(o2, wl, user, id, t) == ResolveStatus(overlay, wl, user, id, t)
      && o2 == overlay[StateKey(t, id) := ResolveStatus(overlay, wl, user, id, t)]
    ensures StateKey(t, id) in overlay ==> Toggled(Toggled(overlay, wl, user, id, t), wl, user, id, t) == overlay
  {
  }

  /** A toggle adds its key and changes nothing shown for any item with another key. */
  lemma ToggleOnlyItsKey(overlay: Overlay, wl: Watchlist, user: string, id: Option<string>, t: ItemType,
                         id2: Option<string>, t2: ItemType)
    requires StateKey(t2, id2) != StateKey(t, id)
    ensures Toggled(overlay, wl, user, id, t).Keys == overlay.Keys + {StateKey(t, id)}
    ensures ResolveStatus(Toggled(overlay, wl, user, id, t), wl, user, id2, t2) == ResolveStatus(overlay, wl, user, id2, t2)
  {
  }

  /** Distinct present ids, or the two types, never disturb each other. */
  lemma ToggleSeparatesItems(overlay: Overlay, wl: Watchlist, user: string, a: string, t: ItemType, b: string, t2: ItemType)
    requires a != b || t != t2
    ensures ResolveStatus(Toggled(overlay, wl, user, Some(a), t), wl, user, Some(b), t2)
         == ResolveStatus(overlay, wl, user, Some(b), t2)
  {
    if StateKey(t2, Some(b)) == StateKey(t, Some(a)) {
      StateKeyInjective(t2, b, t, a);
    }
  }

  /** The page passes the movie card the status resolved for the movie's `id`. */
  function MovieCardFlag(overlay: Overlay, wl: Watchlist, user: string, movie: MovieListItem): bool
  {
    ResolveStatus(overlay, wl, user, movie.movieId.id, MovieItem)
  }

  /** The page passes the series card the status resolved for the series' `id`. */
  function SeriesCardFlag(overlay: Overlay, wl: Watchlist, user: string, series: SeriesListItem): bool
  {
    ResolveStatus(overlay, wl, user, series.seriesId.id, SeriesItem)
  }

  /** A click on a movie card's button as written: it toggles the key of the movie's `_id`. */
  function MovieClickAsWritten(overlay: Overlay, wl: Watchlist, user: string, movie: MovieListItem): Overlay
  {
    Toggled(overlay, wl, user, MovieCard.ToggleArgAsWritten(movie), MovieItem)
  }

  /** A click on a movie card's button, passing the `id` the page reads. */
  function MovieClick(overlay: Overlay, wl: Watchlist, user: string, movie: MovieListItem): Overlay
  {
    Toggled(overlay, wl, user, MovieCard.ToggleArg(movie), MovieItem)
  }

  /** A click on a series card's button. */
  function SeriesClick(overlay: Overlay, wl: Watchlist, user: string, series: SeriesListItem): Overlay
  {
    Toggled(overlay, wl, user, SeriesCard.ToggleArg(series), SeriesItem)
  }

  /** As written, a movie whose `_id` gives another key than its `id` keeps the flag its card shows. */
  lemma MovieClickAsWrittenMisses(overlay: Overlay, wl: Watchlist, user: string, movie: MovieListItem)
    requires StateKey(MovieItem, movie.movieId.dbId) != StateKey(MovieItem, movie.movieId.id)
    ensures MovieCardFlag(MovieClickAsWritten(overlay, wl, user, movie), wl, user, movie)
         == MovieCardFlag(overlay, wl, user, movie)
  {
  }

  /** The page's own data: a movie with `id` "1" and no `_id`, completed by viewer "1". */
  lemma MovieClickAsWrittenSample()
    ensures var movie := MovieListItem(TitleRef(Some("1"), None), [UserMovieProgress("1", true, [], Some(5))], []);
      var wl := Watchlist([movie], []);
      && MovieCardFlag(map[], wl, "1", movie)
      && MovieCardFlag(MovieClickAsWritten(map[], wl, "1", movie), wl, "1", movie)
      && MovieClickAsWritten(map[], wl, "1", movie) == map["movie-undefined" := true]
  {
    var movie := MovieListItem(TitleRef(Some("1"), None), [UserMovieProgress("1", true, [], Some(5))], []);
    var wl := Watchlist([movie], []);
    assert StateKey(MovieItem, None) == "movie-undefined";
    assert StateKey(MovieItem, Some("1")) == "movie-1";
    assert FindMovie(wl, Some("1")) == Some(movie);
    assert FindMovie(wl, None) == None;
  }

  /** Passing the movie's `id`, a click flips the flag the card shows and no other item's. */
  lemma MovieClickFlips(overlay: Overlay, wl: Watchlist, user: string, movie: MovieListItem, other: MovieListItem)
    requires other.movieId.id != movie.movieId.id && other.movieId.id.Some? && movie.movieId.id.Some?
    ensures MovieCardFlag(MovieClick(overlay, wl, user, movie), wl, user, movie) == !MovieCardFlag(overlay, wl, user, movie)
    ensures MovieCardFlag(MovieClick(overlay, wl, user, movie), wl, user, other) == MovieCardFlag(overlay, wl, user, other)
  {
    ToggleSeparatesItems(overlay, wl, user, movie.movieId.id.value, MovieItem, other.movieId.id.value, MovieItem);
  }

  /** The series card already passes the `id` the page reads: a click flips its flag. */
  lemma SeriesClickFlips(overlay: Overlay, wl: Watchlist, user: string, series: SeriesListItem)
    ensures SeriesCardFlag(SeriesClick(overlay, wl, user, series), wl, user, series) == !SeriesCardFlag(overlay, wl, user, series)
  {
  }

  /** The page's state: the overlay, over a fixed watchlist and viewer. */
  class CompletionStatusPage {
    var userCompletionStatus: Overlay
    const watchlist: Watchlist
    const currentUserId: string

    /** The page starts with an empty overlay. */
    constructor(watchlist: Watchlist, currentUserId: string)
      ensures userCompletionStatus == map[]
      ensures this.watchlist == watchlist && this.currentUserId == currentUserId
    {
      this.watchlist := watchlist;
      this.currentUserId := currentUserId;
      userCompletionStatus := map[];
    }

    /** `getUserCompletionStatus(itemId, itemType)`. */
    function GetUserCompletionStatus(itemId: Option<string>, itemType: ItemType): bool
      reads this
    {
      ResolveStatus(userCompletionStatus, watchlist, currentUserId, itemId, itemType)
    }

    /** `toggleCompletionStatus(itemId, itemType)`: writes the negation of the current status under the item's key. */
    method ToggleCompletionStatus(itemId: Option<string>, itemType: ItemType)
      modifies this
      ensures userCompletionStatus == Toggled(old(userCompletionStatus), watchlist, currentUserId, itemId, itemType)
      ensures GetUserCompletionStatus(itemId, itemType) == !old(GetUserCompletionStatus(itemId, itemType))
    {
      var currentStatus := GetUserCompletionStatus(itemId, itemType);
      userCompletionStatus := userCompletionStatus[StateKey(itemType, itemId) := !currentStatus];
    }

    /**
     * The movie card's button as written: the card hands the callback the
     * movie's `_id`, which the page toggles as a movie. When that key is not
     * the one of the movie's `id`, the flag the card shows is left as it was.
     */
    method OnMovieToggle(movie: MovieListItem)
      modifies this
      ensures userCompletionStatus == MovieClickAsWritten(old(userCompletionStatus), watchlist, currentUserId, movie)
      ensures StateKey(MovieItem, movie.movieId.dbId) != StateKey(MovieItem, movie.movieId.id) ==>
        MovieCardFlag(userCompletionStatus, watchlist, currentUserId, movie)
          == MovieCardFlag(old(userCompletionStatus), watchlist, currentUserId, movie)
    {
      ToggleCompletionStatus(MovieCard.ToggleArgAsWritten(movie), MovieItem);
      if StateKey(MovieItem, movie.movieId.dbId) != StateKey(MovieItem, movie.movieId.id) {
        MovieClickAsWrittenMisses(old(userCompletionStatus), watchlist, currentUserId, movie);
      }
    }

    /** The series card's button. */
    method OnSeriesToggle(series: SeriesListItem)
      modifies this
      ensures userCompletionStatus == SeriesClick(old(userCompletionStatus), watchlist, currentUserId, series)
    {
      ToggleCompletionStatus(SeriesCard.ToggleArg(series), SeriesItem);
    }
  }
}
