/** The search page: a query runs one celebrity search and one film search
    and stores what each returns. */
module SearchPage {
  import opened Wrappers
  import opened Text
  import opened Entities

  /** `totalResults === 1 ? 'result' : 'results'`. */
  function ResultWord(total: int): (w: string)
    ensures w == "result" || w == "results"
    ensures w == "result" <==> total == 1
  {
    if total == 1 then "result" else "results"
  }

  /** The tab shown first: celebrities when there is at least one, films
      otherwise. */
  function DefaultTab(celebrityCount: int): (tab: string)
    ensures tab == "celebrities" || tab == "films"
    ensures tab == "celebrities" <==> celebrityCount > 0
  {
    if celebrityCount > 0 then "celebrities" else "films"
  }

  /** The page's state. `searchParam` is the `q` parameter of the address. */
  class Page {
    var query: string
    var celebrities: seq<Celebrity>
    var films: seq<Film>
    var loading: bool
    var hasSearched: bool
    var searchParam: Option<string>

    /** `celebrities.length + films.length`. */
    function TotalResults(): (n: nat)
      reads this
      ensures n == 0 <==> celebrities == [] && films == []
      ensures n >= |celebrities| && n >= |films|
    {
      |celebrities| + |films|
    }

    /** The page opened with the address parameter `q`, if any. */
    constructor(q: Option<string>)
      ensures query == FirstOf(q, None, "") && searchParam == q
      ensures celebrities == [] && films == [] && !loading && !hasSearched
    {
      query := FirstOf(q, None, "");
      searchParam := q;
      celebrities := [];
      films := [];
      loading := false;
      hasSearched := false;
    }

    method SetQuery(q: string)
      modifies this`query
      ensures query == q
    {
      query := q;
    }

    /** `performSearch(searchQuery)`, given the data each search returned.
        A blank query only clears the results; any other query is recorded
        in the address and both searches are issued. Returns whether they
        were. */
    method PerformSearch(searchQuery: string, celebsData: Option<seq<Celebrity>>, filmsData: Option<seq<Film>>)
      returns (issued: bool)
      modifies this
      ensures query == old(query)
      ensures issued <==> !IsBlank(searchQuery)
      ensures IsBlank(searchQuery) ==>
                && celebrities == [] && films == [] && TotalResults() == 0
                && loading == old(loading) && hasSearched == old(hasSearched) && searchParam == old(searchParam)
      ensures !IsBlank(searchQuery) ==>
                && hasSearched && !loading && searchParam == Some(searchQuery)
                && celebrities == celebsData.GetOr(old(celebrities))
                && films == filmsData.GetOr(old(films))
    {
      if IsBlank(searchQuery) {
        celebrities := [];
        films := [];
        return false;
      }
      loading := true;
      hasSearched := true;
      searchParam := Some(searchQuery);
      if celebsData.Some? {
        celebrities := celebsData.value;
      }
      if filmsData.Some? {
        films := filmsData.value;
      }
      loading := false;
      issued := true;
    }

    /** The first render searches for the initial query unless it is
        blank. */
    method Mount(celebsData: Option<seq<Celebrity>>, filmsData: Option<seq<Film>>)
      returns (issued: bool)
      modifies this
      ensures issued <==> !IsBlank(old(query))
      ensures IsBlank(old(query)) ==>
                celebrities == old(celebrities) && films == old(films) && loading == old(loading)
                && hasSearched == old(hasSearched) && searchParam == old(searchParam) && query == old(query)
      ensures !IsBlank(old(query)) ==>
                && hasSearched && !loading && searchParam == Some(old(query)) && query == old(query)
                && celebrities == celebsData.GetOr(old(celebrities))
                && films == filmsData.GetOr(old(films))
    {
      issued := false;
      if !IsBlank(query) {
        issued := PerformSearch(query, celebsData, filmsData);
      }
    }
  }
}
