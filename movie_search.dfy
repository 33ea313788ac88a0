/**
 * The search page: the cached title search, the group-selection modal and
 * the request that adds the chosen title to the chosen groups' watchlists.
 */
module MovieSearch {
  import opened Wrappers
  import opened Seqs
  import opened Text
  import opened Interfaces

  /** The two search kinds, `"movie" | "series"`. */
  datatype TitleKind = MovieKind | SeriesKind

  function KindName(k: TitleKind): string
  {
    match k
    case MovieKind => "movie"
    case SeriesKind => "series"
  }

  /** One search hit. */
  datatype SearchResultItem = SearchResultItem(
    id: string,
    title: string,
    year: string,
    poster: Option<string>,
    kind: TitleKind)

  // ---------------------------------------------------------------------
  // Group selection
  // ---------------------------------------------------------------------

  /** The filter callback `id => id !== groupId`. */
  function NotId(groupId: string): string -> bool
  {
    (id: string) => id != groupId
  }

  /** `toggleGroupSelection`: drop every copy of the id if it is selected, else append it. */
  function ToggleGroupSelection(prev: seq<string>, groupId: string): seq<string>
  {
    if groupId in prev then Filter(prev, NotId(groupId)) else prev + [groupId]
  }

  lemma FilterSingletonDrops(g: string)
    ensures Filter([g], NotId(g)) == []
  {
    assert [g][1..] == [];
  }

  /** The toggled id is selected afterwards exactly when it was not before. */
  lemma ToggleFlipsMembership(prev: seq<string>, groupId: string)
    ensures groupId in ToggleGroupSelection(prev, groupId) <==> groupId !in prev
  {
  }

  /** Every other id keeps its place: with the toggled id removed, the list is as it was. */
  lemma ToggleKeepsOthers(prev: seq<string>, groupId: string)
    ensures Filter(ToggleGroupSelection(prev, groupId), NotId(groupId)) == Filter(prev, NotId(groupId))
    ensures forall x :: x != groupId ==> (x in ToggleGroupSelection(prev, groupId) <==> x in prev)
  {
    var p := NotId(groupId);
    if groupId in prev {
      FilterKeepsAll(Filter(prev, p), p);
    } else {
      FilterConcat(prev, [groupId], p);
      FilterSingletonDrops(groupId);
    }
  }

  /** A selection without duplicates stays without duplicates. */
  lemma ToggleKeepsNoDup(prev: seq<string>, groupId: string)
    requires NoDup(prev)
    ensures NoDup(ToggleGroupSelection(prev, groupId))
  {
    if groupId in prev {
      FilterNoDup(prev, NotId(groupId));
    }
  }

  /** Toggling an id that was not selected twice gives back the list itself. */
  lemma ToggleTwiceUnselected(prev: seq<string>, groupId: string)
    requires groupId !in prev
    ensures ToggleGroupSelection(ToggleGroupSelection(prev, groupId), groupId) == prev
  {
    var p := NotId(groupId);
    FilterConcat(prev, [groupId], p);
    FilterSingletonDrops(groupId);
    FilterKeepsAll(prev, p);
  }

  /** Toggling any id twice gives back the same set of ids (possibly in another order). */
  lemma ToggleTwiceSameSet(prev: seq<string>, groupId: string)
    ensures Elements(ToggleGroupSelection(ToggleGroupSelection(prev, groupId), groupId)) == Elements(prev)
  {
    if groupId !in prev {
      ToggleTwiceUnselected(prev, groupId);
    } else {
      var once := ToggleGroupSelection(prev, groupId);
      ToggleKeepsOthers(prev, groupId);
      ToggleKeepsOthers(once, groupId);
    }
  }

  /** The order is not restored: a selected id that was not last moves to the end. */
  lemma ToggleTwiceMovesToEnd()
    ensures ToggleGroupSelection(ToggleGroupSelection(["a", "b"], "a"), "a") == ["b", "a"]
  {
    var p := NotId("a");
    assert ["a", "b"][1..] == ["b"];
    assert ["b"][1..] == [];
    assert Filter(["b"], p) == ["b"];
    assert Filter(["a", "b"], p) == ["b"];
  }

  // ---------------------------------------------------------------------
  // Cached search
  // ---------------------------------------------------------------------

  /** `JSON.stringify({ name: name.toLowerCase(), type })`, as the pair it encodes. */
  datatype CacheKey = CacheKey(name: string, kind: TitleKind)

  function KeyOf(name: string, kind: TitleKind): CacheKey
  {
    CacheKey(ToLower(name), kind)
  }

  /** Names differing only in letter case share a cache entry; the two kinds never do. */
  lemma CacheKeyIgnoresCase(n1: string, n2: string, k1: TitleKind, k2: TitleKind)
    ensures KeyOf(n1, k1) == KeyOf(n2, k2) <==> ToLower(n1) == ToLower(n2) && k1 == k2
  {
  }

  type Cache = map<CacheKey, seq<SearchResultItem>>

  /** The search part of the page's state. */
  datatype SearchState = SearchState(cache: Cache, results: seq<SearchResultItem>, loading: bool)

  /** A request in flight: its URL and the cache key its answer is stored under. */
  datatype Request = Request(url: string, key: CacheKey)

  /** The request URL, with the name inserted as typed. */
  function SearchUrl(name: string, kind: TitleKind): string
  {
    "/movie/search?name=" + name + "&type=" + KindName(kind)
  }

  /**
   * One run of the search effect for the debounced query: an empty name
   * clears the results; a cached key (even one holding an empty list)
   * serves the cached list; otherwise loading starts and a request goes out.
   */
  function SearchEffect(st: SearchState, name: string, kind: TitleKind): (SearchState, Option<Request>)
  {
    if name == [] then (st.(results := []), None)
    else
      var key := KeyOf(name, kind);
      if key in st.cache then (st.(results := st.cache[key]), None)
      else (st.(loading := true), Some(Request(SearchUrl(name, kind), key)))
  }

  /** How a request ends: the `Search` field of the answer (possibly missing), or an error. */
  datatype FetchOutcome = Fetched(search: Option<seq<SearchResultItem>>) | FetchFailed

  /**
   * The request settles: on an answer, its `Search` list (or the empty list)
   * becomes the results and is cached under the key; on an error, results
   * and cache stay; either way loading ends.
   */
  function Settle(st: SearchState, key: CacheKey, outcome: FetchOutcome): SearchState
  {
    match outcome
    case Fetched(search) =>
      var fetched := search.GetOr([]);
      SearchState(st.cache[key := fetched], fetched, false)
    case FetchFailed => st.(loading := false)
  }

  /** An empty name clears the results and sends nothing. */
  lemma EmptyNameClears(st: SearchState, kind: TitleKind)
    ensures SearchEffect(st, "", kind) == (SearchState(st.cache, [], st.loading), None)
  {
  }

  /** A cached key is served from the cache and sends nothing. */
  lemma CacheHitServes(st: SearchState, name: string, kind: TitleKind)
    requires name != [] && KeyOf(name, kind) in st.cache
    ensures SearchEffect(st, name, kind).1.None?
    ensures SearchEffect(st, name, kind).0 == st.(results := st.cache[KeyOf(name, kind)])
  {
  }

  /** A non-empty name missing from the cache sends exactly one request and starts loading; the results stay until it settles. */
  lemma CacheMissRequests(st: SearchState, name: string, kind: TitleKind)
    requires name != [] && KeyOf(name, kind) !in st.cache
    ensures SearchEffect(st, name, kind).1 == Some(Request(SearchUrl(name, kind), KeyOf(name, kind)))
    ensures SearchEffect(st, name, kind).0 == SearchState(st.cache, st.results, true)
  {
  }

  /** A request is sent exactly when the name is non-empty and its key is not cached. */
  lemma RequestIffMiss(st: SearchState, name: string, kind: TitleKind)
    ensures SearchEffect(st, name, kind).1.Some? <==> name != [] && KeyOf(name, kind) !in st.cache
  {
  }

  /** Settling never loses a cache entry, and only the request's key can change. */
  lemma SettleKeepsCache(st: SearchState, key: CacheKey, outcome: FetchOutcome)
    ensures !Settle(st, key, outcome).loading
    ensures st.cache.Keys <= Settle(st, key, outcome).cache.Keys
    ensures forall k :: k in st.cache && k != key ==> Settle(st, key, outcome).cache[k] == st.cache[k]
    ensures outcome.FetchFailed? ==> Settle(st, key, outcome) == SearchState(st.cache, st.results, false)
  {
  }

  /**
   * After a miss whose request succeeds, searching again for the same
   * name, in any letter case, is a hit that shows the fetched list (a
   * missing `Search` field shows the empty list) and sends nothing.
   */
  lemma SecondSearchHits(st: SearchState, name: string, name': string, kind: TitleKind,
                         search: Option<seq<SearchResultItem>>)
    requires name != [] && name' != [] && ToLower(name') == ToLower(name)
    requires KeyOf(name, kind) !in st.cache
    ensures var (st1, req) := SearchEffect(st, name, kind);
      var st2 := Settle(st1, req.value.key, Fetched(search));
      && st2.results == search.GetOr([])
      && SearchEffect(st2, name', kind) == (st2, None)
  {
  }

  // ---------------------------------------------------------------------
  // Saving to watchlists
  // ---------------------------------------------------------------------

  /** The body of the add-to-watchlist request. */
  datatype WatchlistAdd = WatchlistAdd(groupIds: seq<string>, item: SearchResultItem)

  datatype Toast = Success(message: string) | Failure(message: string)

  /** What one press of "save" does: the request it sends, the toast it shows, whether the modal closes. */
  datatype SaveResult = SaveResult(request: Option<WatchlistAdd>, toast: Toast, closeModal: bool)

  /**
   * `saveToWatchlists`: refused with a toast when no title or no group is
   * selected; otherwise the request is sent, and the modal closes only when
   * it succeeds.
   */
  function SaveOutcome(selectedItem: Option<SearchResultItem>, selectedGroups: seq<string>, postSucceeds: bool): SaveResult
  {
    if selectedItem.None? || |selectedGroups| == 0 then
      SaveResult(None, Failure("Select at least one group"), false)
    else if postSucceeds then
      SaveResult(Some(WatchlistAdd(selectedGroups, selectedItem.value)), Success("Added to selected groups!"), true)
    else
      SaveResult(Some(WatchlistAdd(selectedGroups, selectedItem.value)), Failure("Failed to add to watchlist"), false)
  }

  /**
   * A request is sent exactly when a title and at least one group are
   * selected, and it carries exactly those; the modal closes exactly when
   * the request succeeds.
   */
  lemma SaveRequestIffSelection(selectedItem: Option<SearchResultItem>, selectedGroups: seq<string>, postSucceeds: bool)
    ensures var r := SaveOutcome(selectedItem, selectedGroups, postSucceeds);
      && (r.request.Some? <==> selectedItem.Some? && |selectedGroups| > 0)
      && (r.request.Some? ==> r.request.value == WatchlistAdd(selectedGroups, selectedItem.value))
      && (r.closeModal <==> r.request.Some? && postSucceeds)
      && (r.toast.Success? <==> r.closeModal)
  {
  }

  // ---------------------------------------------------------------------
  // The page
  // ---------------------------------------------------------------------

  class SearchPage {
    var cache: Cache
    var results: seq<SearchResultItem>
    var loading: bool
    var selectedItem: Option<SearchResultItem>
    var selectedGroups: seq<string>
    var modalOpen: bool

    /** The selection never holds an id twice. */
    ghost predicate Valid()
      reads this
    {
      NoDup(selectedGroups)
    }

    function Search(): SearchState
      reads this
    {
      SearchState(cache, results, loading)
    }

    constructor()
      ensures Valid()
      ensures cache == map[] && results == [] && !loading
      ensures selectedItem == None && selectedGroups == [] && !modalOpen
    {
      cache := map[];
      results := [];
      loading := false;
      selectedItem := None;
      selectedGroups := [];
      modalOpen := false;
    }

    /** The search effect for the debounced query. */
    method RunSearchEffect(name: string, kind: TitleKind) returns (request: Option<Request>)
      modifies this
      ensures (Search(), request) == SearchEffect(old(Search()), name, kind)
      ensures selectedItem == old(selectedItem) && selectedGroups == old(selectedGroups) && modalOpen == old(modalOpen)
    {
      if name == [] {
        results := [];
        request := None;
        return;
      }
      var key := KeyOf(name, kind);
      if key in cache {
        results := cache[key];
        request := None;
        return;
      }
      loading := true;
      request := Some(Request(SearchUrl(name, kind), key));
    }

    /** A request settles. */
    method SettleRequest(request: Request, outcome: FetchOutcome)
      modifies this
      ensures Search() == Settle(old(Search()), request.key, outcome)
      ensures selectedItem == old(selectedItem) && selectedGroups == old(selectedGroups) && modalOpen == old(modalOpen)
    {
      match outcome {
        case Fetched(search) =>
          var fetched := search.GetOr([]);
          results := fetched;
          cache := cache[request.key := fetched];
        case FetchFailed =>
      }
      loading := false;
    }

    /** `openModal(item)`: select the title, clear the groups, open the modal. */
    method OpenModal(item: SearchResultItem)
      modifies this
      ensures Valid()
      ensures selectedItem == Some(item) && selectedGroups == [] && modalOpen
      ensures Search() == old(Search())
    {
      selectedItem := Some(item);
      selectedGroups := [];
      modalOpen := true;
    }

    /** `toggleGroupSelection(groupId)`. */
    method ToggleGroup(groupId: string)
      requires Valid()
      modifies this
      ensures Valid()
      ensures selectedGroups == ToggleGroupSelection(old(selectedGroups), groupId)
      ensures selectedItem == old(selectedItem) && modalOpen == old(modalOpen) && Search() == old(Search())
    {
      ToggleKeepsNoDup(selectedGroups, groupId);
      selectedGroups := ToggleGroupSelection(selectedGroups, groupId);
    }

    /** `saveToWatchlists`, with the request's success as a parameter. */
    method SaveToWatchlists(postSucceeds: bool) returns (request: Option<WatchlistAdd>, toast: Toast)
      modifies this
      ensures request == SaveOutcome(old(selectedItem), old(selectedGroups), postSucceeds).request
      ensures toast == SaveOutcome(old(selectedItem), old(selectedGroups), postSucceeds).toast
      ensures modalOpen == (old(modalOpen) && !SaveOutcome(old(selectedItem), old(selectedGroups), postSucceeds).closeModal)
      ensures selectedItem == old(selectedItem) && selectedGroups == old(selectedGroups) && Search() == old(Search())
    {
      var r := SaveOutcome(selectedItem, selectedGroups, postSucceeds);
      request, toast := r.request, r.toast;
      if r.closeModal {
        modalOpen := false;
      }
    }
  }
}
