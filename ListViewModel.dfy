/**
 * The home-list view-model: the accumulated entries, the page counter, the loading / error /
 * end / searching flags, and the search session with its snapshot of the list.
 *
 * `ListState` is the view-model's state as a value, and `StartLoad`, `FinishLoad` and `Search`
 * say what each action does to it; the class `PokemonListViewModel` holds the same state in
 * fields and its methods are proved to perform exactly those steps. The lemmas below are about
 * the steps, and so about every run of the class.
 */
module ListViewModel {
  import opened Int32
  import opened Text
  import opened Responses
  import opened PokedexEntries

  /** What every load asks the repository for, whatever page has been reached. */
  const LIST_REQUEST: PageRequest := PageRequest(1302, 0)

  datatype ListState = ListState(
    currentPage: int,
    pokemonList: seq<PokedexList>,
    loadError: string,
    isLoading: bool,
    endReached: bool,
    isSearching: bool,
    cachedPokemonList: seq<PokedexList>,
    isSearchStart: bool)

  /** The state of a freshly constructed view-model, before its first load. */
  function Initial(): (s: ListState) {
    ListState(0, [], "", false, false, false, [], true)
  }

  /** The page counter is an Int, and searching is on exactly while a session has its snapshot. */
  predicate Consistent(s: ListState) {
    IsInt(s.currentPage) && s.isSearching == !s.isSearchStart
  }

  /** A result the load can digest: on Success every URL yields a number `toInt` accepts. */
  predicate Loadable(result: Resource) {
    result.Success? ==> forall i :: 0 <= i < |result.data.results| ==> HasNumber(result.data.results[i])
  }

  /** `loadPokemonPaginated` up to the point where it waits for the repository. */
  function StartLoad(s: ListState): (r: ListState)
    ensures r.isLoading
    ensures r.(isLoading := s.isLoading) == s
  {
    s.(isLoading := true)
  }

  /** The rest of `loadPokemonPaginated`, once the repository's result has arrived. */
  function FinishLoad(s: ListState, pageSize: int, result: Resource): (r: ListState)
    requires IsInt(s.currentPage) && Loadable(result)
    ensures IsInt(r.currentPage) && !r.isLoading
    ensures |r.pokemonList| >= |s.pokemonList| && r.pokemonList[..|s.pokemonList|] == s.pokemonList
    ensures r.cachedPokemonList == s.cachedPokemonList
    ensures r.isSearching == s.isSearching && r.isSearchStart == s.isSearchStart
  {
    match result
    case Success(data) =>
      s.(endReached := Mul(pageSize, s.currentPage) >= data.count,
         currentPage := Inc(s.currentPage),
         isLoading := false,
         loadError := "",
         pokemonList := s.pokemonList + DeriveEntries(data.results))
    case Error(message) =>
      s.(loadError := message, isLoading := false)
  }

  /** A whole load, with nothing running while it waits. */
  function Load(s: ListState, pageSize: int, result: Resource): (r: ListState)
    requires IsInt(s.currentPage) && Loadable(result)
  {
    FinishLoad(StartLoad(s), pageSize, result)
  }

  /** The list a search filters: the live list when a session starts, the snapshot after that. */
  function SearchSource(s: ListState): (l: seq<PokedexList>) {
    if s.isSearchStart then s.pokemonList else s.cachedPokemonList
  }

  /** `searchPokemonList(query)`. */
  function Search(s: ListState, query: string): (r: ListState)
    ensures r.isSearching == (|query| > 0) && r.isSearchStart == !r.isSearching
    ensures r.currentPage == s.currentPage && r.loadError == s.loadError
    ensures r.isLoading == s.isLoading && r.endReached == s.endReached
  {
    var listToSearch := SearchSource(s);
    if |query| == 0 then
      s.(pokemonList := s.cachedPokemonList, isSearching := false, isSearchStart := true)
    else
      var results := SearchResults(listToSearch, query);
      var snapshotted :=
        if s.isSearchStart then s.(cachedPokemonList := s.pokemonList, isSearchStart := false) else s;
      snapshotted.(pokemonList := results, isSearching := true)
  }

  // ------------------------------------------------------------------ the class

  class PokemonListViewModel {
    const pageSize: int
    var currentPage: int
    var pokemonList: seq<PokedexList>
    var loadError: string
    var isLoading: bool
    var endReached: bool
    var isSearching: bool
    var cachedPokemonList: seq<PokedexList>
    var isSearchStart: bool

    ghost function State(): ListState
      reads this
    {
      ListState(currentPage, pokemonList, loadError, isLoading, endReached, isSearching,
                cachedPokemonList, isSearchStart)
    }

    ghost predicate Valid()
      reads this
    {
      0 < pageSize <= INT_MAX && Consistent(State())
    }

    /** The view-model before its first load (the source's `init` block then calls the load). */
    constructor (pageSize: int)
      requires 0 < pageSize <= INT_MAX
      ensures Valid() && this.pageSize == pageSize
      ensures State() == Initial()
    {
      this.pageSize := pageSize;
      currentPage := 0;
      pokemonList := [];
      loadError := "";
      isLoading := false;
      endReached := false;
      isSearching := false;
      cachedPokemonList := [];
      isSearchStart := true;
    }

    /** Starts `loadPokemonPaginated`: raises isLoading and returns the request it sends. */
    method LoadPokemonPaginated() returns (request: PageRequest)
      requires Valid()
      modifies this
      ensures Valid() && request == LIST_REQUEST
      ensures State() == StartLoad(old(State()))
    {
      isLoading := true;
      request := LIST_REQUEST;
    }

    /** Completes `loadPokemonPaginated` with the repository's result. */
    method ReceivePokemonList(result: Resource)
      requires Valid() && Loadable(result)
      modifies this
      ensures Valid()
      ensures State() == FinishLoad(old(State()), pageSize, result)
    {
      match result
      case Success(data) =>
        endReached := Mul(pageSize, currentPage) >= data.count;
        var pokedexEntry := DeriveEntries(data.results);
        currentPage := Inc(currentPage);
        isLoading := false;
        loadError := "";
        pokemonList := pokemonList + pokedexEntry;
      case Error(message) =>
        loadError := message;
        isLoading := false;
    }

    method SearchPokemonList(query: string)
      requires Valid()
      modifies this
      ensures Valid()
      ensures State() == Search(old(State()), query)
    {
      var listToSearch := if isSearchStart then pokemonList else cachedPokemonList;
      if |query| == 0 {
        pokemonList := cachedPokemonList;
        isSearching := false;
        isSearchStart := true;
        return;
      }
      var results := SearchResults(listToSearch, query);
      if isSearchStart {
        cachedPokemonList := pokemonList;
        isSearchStart := false;
      }
      pokemonList := results;
      isSearching := true;
    }
  }

  // ------------------------------------------------------------------ loading

  lemma StepsKeepConsistent(s: ListState, pageSize: int, result: Resource, query: string)
    requires Consistent(s) && Loadable(result)
    ensures Consistent(Initial())
    ensures Consistent(StartLoad(s))
    ensures Consistent(FinishLoad(s, pageSize, result))
    ensures Consistent(Search(s, query))
  {
  }

  /**
   * A successful load appends one derived entry per summary, in response order, after the
   * entries already there; counts one more page; clears the error and the loading flag; sets
   * endReached from the page count as it was BEFORE this load; and leaves the search alone.
   */
  lemma LoadSuccess(s: ListState, pageSize: int, data: PokemonList)
    requires Consistent(s) && Loadable(Success(data))
    ensures var r := Load(s, pageSize, Success(data));
      && |r.pokemonList| == |s.pokemonList| + |data.results|
      && r.pokemonList[..|s.pokemonList|] == s.pokemonList
      && (forall i :: 0 <= i < |data.results| ==>
            r.pokemonList[|s.pokemonList| + i] == DeriveEntry(data.results[i]))
      && (s.currentPage < INT_MAX ==> r.currentPage == s.currentPage + 1)
      && r.loadError == "" && !r.isLoading
      && (IsInt(pageSize * s.currentPage) ==> (r.endReached <==> pageSize * s.currentPage >= data.count))
      && r.cachedPokemonList == s.cachedPokemonList
      && r.isSearching == s.isSearching && r.isSearchStart == s.isSearchStart
  {
    var r := Load(s, pageSize, Success(data));
    assert r.pokemonList[..|s.pokemonList|] == s.pokemonList;
  }

  /** A failed load records the message and clears the loading flag; nothing else changes. */
  lemma LoadError(s: ListState, pageSize: int, message: string)
    requires Consistent(s)
    ensures var r := Load(s, pageSize, Error(message));
      && r.loadError == message && !r.isLoading
      && r.pokemonList == s.pokemonList && r.currentPage == s.currentPage
      && r.endReached == s.endReached
      && r.cachedPokemonList == s.cachedPokemonList
      && r.isSearching == s.isSearching && r.isSearchStart == s.isSearchStart
  {
  }

  /**
   * Only a view-model that has never loaded compares against 0 pages: its first successful
   * load never sets endReached, even when that one response holds every entry there is.
   */
  lemma FirstLoadNeverReachesEnd(s: ListState, pageSize: int, data: PokemonList)
    requires Consistent(s) && s.currentPage == 0 && Loadable(Success(data))
    requires data.count > 0
    ensures !Load(s, pageSize, Success(data)).endReached
  {
  }

  /**
   * Every load sends the same request, so a repository that answers it the same way twice makes
   * the second load append the same entries again.
   */
  lemma ReloadAppendsSamePageAgain(s: ListState, pageSize: int, data: PokemonList)
    requires Consistent(s) && Loadable(Success(data))
    ensures var once := Load(s, pageSize, Success(data));
      IsInt(once.currentPage) &&
      Load(once, pageSize, Success(data)).pokemonList ==
        s.pokemonList + DeriveEntries(data.results) + DeriveEntries(data.results)
  {
  }

  /** A run of whole loads, one per result, in order. */
  function Loads(s: ListState, pageSize: int, results: seq<Resource>): (r: ListState)
    requires IsInt(s.currentPage)
    requires forall i :: 0 <= i < |results| ==> Loadable(results[i])
    ensures IsInt(r.currentPage)
  {
    if |results| == 0 then s
    else FinishLoad(StartLoad(Loads(s, pageSize, results[..|results| - 1])), pageSize, results[|results| - 1])
  }

  function SuccessCount(results: seq<Resource>): (n: nat) {
    if |results| == 0 then 0
    else SuccessCount(results[..|results| - 1]) + (if results[|results| - 1].Success? then 1 else 0)
  }

  /** The entries the successful results of a run contribute, in order. */
  function LoadedEntries(results: seq<Resource>): (entries: seq<PokedexList>)
    requires forall i :: 0 <= i < |results| ==> Loadable(results[i])
  {
    if |results| == 0 then []
    else
      var last := results[|results| - 1];
      assert Loadable(last);
      LoadedEntries(results[..|results| - 1]) +
        if last.Success? then DeriveEntries(last.data.results) else []
  }

  /** How many summaries the successful results of a run hold together. */
  function FetchedCount(results: seq<Resource>): (n: nat) {
    if |results| == 0 then 0
    else
      var last := results[|results| - 1];
      FetchedCount(results[..|results| - 1]) + if last.Success? then |last.data.results| else 0
  }

  /**
   * After any run of loads the list is the old list followed by every successful page, in
   * arrival order, so it has grown by the number of summaries fetched; the page counter has
   * grown by the number of successes (while it stays an Int); the search state is untouched.
   */
  lemma {:induction false} LoadsAccumulate(s: ListState, pageSize: int, results: seq<Resource>)
    requires Consistent(s)
    requires forall i :: 0 <= i < |results| ==> Loadable(results[i])
    ensures var r := Loads(s, pageSize, results);
      && r.pokemonList == s.pokemonList + LoadedEntries(results)
      && |r.pokemonList| == |s.pokemonList| + FetchedCount(results)
      && (s.currentPage + |results| <= INT_MAX ==> r.currentPage == s.currentPage + SuccessCount(results))
      && r.cachedPokemonList == s.cachedPokemonList
      && r.isSearching == s.isSearching && r.isSearchStart == s.isSearchStart
      && (|results| > 0 ==> !r.isLoading)
  {
    if |results| > 0 {
      var init, last := results[..|results| - 1], results[|results| - 1];
      assert forall i :: 0 <= i < |init| ==> Loadable(init[i]) by {
        assert forall i :: 0 <= i < |init| ==> init[i] == results[i];
      }
      assert Loadable(last);
      LoadsAccumulate(s, pageSize, init);
      SuccessCountBound(init);
      var prev := Loads(s, pageSize, init);
      var added := if last.Success? then DeriveEntries(last.data.results) else [];
      assert Loads(s, pageSize, results) == FinishLoad(StartLoad(prev), pageSize, last);
      assert FinishLoad(StartLoad(prev), pageSize, last).pokemonList == prev.pokemonList + added;
      assert LoadedEntries(results) == LoadedEntries(init) + added;
      AppendAssociative(s.pokemonList, LoadedEntries(init), added);
    } else {
      assert s.pokemonList + [] == s.pokemonList;
    }
  }

  lemma AppendAssociative(a: seq<PokedexList>, b: seq<PokedexList>, c: seq<PokedexList>)
    ensures (a + b) + c == a + (b + c)
  {
  }

  lemma {:induction false} SuccessCountBound(results: seq<Resource>)
    ensures SuccessCount(results) <= |results|
  {
    if |results| > 0 {
      SuccessCountBound(results[..|results| - 1]);
    }
  }

  /**
   * endReached after a successful load looks one page behind: it says whether the pages loaded
   * BEFORE that load, times PAGE_SIZE, reach the count (while the product stays an Int).
   */
  lemma EndReachedLagsOnePage(s: ListState, pageSize: int, data: PokemonList)
    requires Consistent(s) && Loadable(Success(data))
    requires s.currentPage < INT_MAX && IsInt(pageSize * s.currentPage)
    ensures var r := Load(s, pageSize, Success(data));
      r.endReached <==> pageSize * (r.currentPage - 1) >= data.count
  {
  }

  // ------------------------------------------------------------------ searching

  /**
   * A non-empty query shows a subsequence of the searched list holding exactly the matching
   * entries, turns search mode on, and leaves the snapshot equal to the list it searched.
   */
  lemma SearchNonEmpty(s: ListState, query: string)
    requires |query| > 0
    ensures var r := Search(s, query);
      && IsSubsequence(r.pokemonList, SearchSource(s))
      && (forall e :: multiset(r.pokemonList)[e] ==
                      if Matches(e, query) then multiset(SearchSource(s))[e] else 0)
      && r.isSearching && !r.isSearchStart
      && r.cachedPokemonList == SearchSource(s)
      && (!s.isSearchStart ==> r.cachedPokemonList == s.cachedPokemonList)
  {
  }

  /** The empty query shows the snapshot, leaves search mode and ends the session. */
  lemma SearchEmpty(s: ListState)
    ensures var r := Search(s, "");
      && r.pokemonList == s.cachedPokemonList
      && !r.isSearching && r.isSearchStart
      && r.cachedPokemonList == s.cachedPokemonList
  {
  }

  /** A run of searches, one per query, in order. */
  function Searches(s: ListState, queries: seq<string>): (r: ListState) {
    if |queries| == 0 then s else Search(Searches(s, queries[..|queries| - 1]), queries[|queries| - 1])
  }

  /**
   * A session started from the live list: every query of it is answered from the snapshot
   * taken at its first query, never from the previous answer; and clearing the query
   * afterwards shows the live list exactly as it was before the session began.
   */
  lemma {:induction false} SessionRestores(s: ListState, queries: seq<string>)
    requires s.isSearchStart && |queries| > 0
    requires forall i :: 0 <= i < |queries| ==> |queries[i]| > 0
    ensures var r := Searches(s, queries);
      && r.cachedPokemonList == s.pokemonList
      && r.pokemonList == SearchResults(s.pokemonList, queries[|queries| - 1])
      && r.isSearching && !r.isSearchStart
      && Search(r, "").pokemonList == s.pokemonList
  {
    if |queries| > 1 {
      var init := queries[..|queries| - 1];
      assert forall i :: 0 <= i < |init| ==> |init[i]| > 0 by {
        assert forall i :: 0 <= i < |init| ==> init[i] == queries[i];
      }
      SessionRestores(s, init);
    } else {
      assert queries[..0] == [];
    }
  }

  /**
   * The snapshot starts out empty and loads never fill it, so clearing the query before any
   * non-empty search empties the list, whatever has been loaded.
   */
  lemma ClearBeforeAnySearchEmptiesList(pageSize: int, results: seq<Resource>)
    requires forall i :: 0 <= i < |results| ==> Loadable(results[i])
    ensures Search(Loads(Initial(), pageSize, results), "").pokemonList == []
  {
    LoadsAccumulate(Initial(), pageSize, results);
  }

  /**
   * A page that arrives while a search is shown is appended to the filtered list, not to the
   * snapshot, so clearing the query afterwards drops it.
   */
  lemma PageArrivingDuringSearch(s: ListState, pageSize: int, query: string, data: PokemonList)
    requires Consistent(s) && Loadable(Success(data)) && |query| > 0
    ensures var searched := Search(StartLoad(s), query);
      var r := FinishLoad(searched, pageSize, Success(data));
      && r.pokemonList == SearchResults(SearchSource(s), query) + DeriveEntries(data.results)
      && r.cachedPokemonList == SearchSource(s)
      && Search(r, "").pokemonList == SearchSource(s)
  {
  }
}
