/** The celebrities catalogue: the fetched list, the distinct
    nationalities offered as filters, and the view derived from the search
    text and the nationality filter. No sort is applied on the client. */
module CelebritiesPage {
  import opened Wrappers
  import opened Text
  import opened Seqs
  import opened Entities

  /** The search test: the lowercased name, or the lowercased known-for
      text when there is one, contains the lowercased query. */
  predicate MatchesQuery(c: Celebrity, query: string) {
    Contains(Lower(c.name), Lower(query))
    || (c.knownFor.Some? && Contains(Lower(c.knownFor.value), Lower(query)))
  }

  function QueryTest(query: string): Celebrity -> bool {
    (c: Celebrity) => MatchesQuery(c, query)
  }

  function NationalityTest(nationality: string): Celebrity -> bool {
    (c: Celebrity) => c.nationality == Some(nationality)
  }

  /** The search step: an empty query keeps everyone. */
  function TextFilter(celebs: seq<Celebrity>, query: string): seq<Celebrity> {
    if query == "" then celebs else Filter(celebs, QueryTest(query))
  }

  /** The nationality step: `'all'` keeps everyone, any other value exactly
      those with that nationality. */
  function NationalityFilter(celebs: seq<Celebrity>, nationality: string): seq<Celebrity> {
    if nationality == "all" then celebs else Filter(celebs, NationalityTest(nationality))
  }

  /** The list shown. */
  function View(celebs: seq<Celebrity>, query: string, nationality: string): (r: seq<Celebrity>)
    ensures |r| <= |celebs|
  {
    NationalityFilter(TextFilter(celebs, query), nationality)
  }

  predicate Passes(c: Celebrity, query: string, nationality: string) {
    (query == "" || MatchesQuery(c, query)) && (nationality == "all" || c.nationality == Some(nationality))
  }

  /** The view holds exactly the celebrities that pass both filters, each
      as often as in the fetched list, in the fetched order. */
  lemma ViewContents(celebs: seq<Celebrity>, query: string, nationality: string, c: Celebrity)
    ensures multiset(View(celebs, query, nationality))[c] == if Passes(c, query, nationality) then multiset(celebs)[c] else 0
    ensures c in View(celebs, query, nationality) <==> c in celebs && Passes(c, query, nationality)
  {
    var t := TextFilter(celebs, query);
    if query != "" {
      FilterCount(celebs, QueryTest(query), c);
    }
    if nationality != "all" {
      FilterCount(t, NationalityTest(nationality), c);
    }
  }

  /** The view keeps the fetched order. */
  lemma ViewSubsequence(celebs: seq<Celebrity>, query: string, nationality: string)
    ensures IsSubsequence(View(celebs, query, nationality), celebs)
  {
    var t := TextFilter(celebs, query);
    SubsequenceRefl(celebs);
    if query != "" {
      FilterSpec(celebs, QueryTest(query));
    }
    SubsequenceRefl(t);
    if nationality != "all" {
      FilterSpec(t, NationalityTest(nationality));
    }
    SubsequenceTrans(View(celebs, query, nationality), t, celebs);
  }

  /** With no query and every nationality, the whole list is shown. */
  lemma UnfilteredViewIsList(celebs: seq<Celebrity>)
    ensures View(celebs, "", "all") == celebs
  {
  }

  function NationalityOf(c: Celebrity): Option<string> {
    c.nationality
  }

  /** The nationality menu: each non-empty nationality once, in the order in
      which it first occurs (see `Seqs.DistinctValuesSpec`). */
  function Nationalities(celebs: seq<Celebrity>): seq<string> {
    DistinctValues(celebs, NationalityOf)
  }

  /** The page's state. */
  class Page {
    var celebrities: seq<Celebrity>
    var filteredCelebrities: seq<Celebrity>
    var nationalities: seq<string>
    var searchQuery: string
    var nationalityFilter: string
    var loading: bool

    /** The shown list is the view of the current list and controls. */
    predicate Valid()
      reads this
    {
      filteredCelebrities == View(celebrities, searchQuery, nationalityFilter)
    }

    constructor()
      ensures Valid()
      ensures celebrities == [] && nationalities == [] && loading
      ensures searchQuery == "" && nationalityFilter == "all"
    {
      celebrities := [];
      filteredCelebrities := [];
      nationalities := [];
      searchQuery := "";
      nationalityFilter := "all";
      loading := true;
    }

    /** Re-derives the shown list, as the effect on the controls does. */
    method Refresh()
      modifies this`filteredCelebrities
      ensures Valid()
    {
      filteredCelebrities := View(celebrities, searchQuery, nationalityFilter);
    }

    /** `fetchCelebrities`, given the reply to the query: an error or a
        reply without data keeps the list and the nationalities. */
    method Load(reply: Reply<seq<Celebrity>>)
      modifies this
      ensures Valid() && !loading
      ensures searchQuery == old(searchQuery) && nationalityFilter == old(nationalityFilter)
      ensures reply.Data().Some? ==> celebrities == reply.Data().value && nationalities == Nationalities(celebrities)
      ensures reply.Data().None? ==> celebrities == old(celebrities) && nationalities == old(nationalities)
    {
      if reply.Data().Some? {
        celebrities := reply.Data().value;
        nationalities := Nationalities(celebrities);
      }
      loading := false;
      Refresh();
    }

    method SetSearchQuery(query: string)
      modifies this
      ensures Valid()
      ensures searchQuery == query && nationalityFilter == old(nationalityFilter)
      ensures celebrities == old(celebrities) && nationalities == old(nationalities) && loading == old(loading)
    {
      searchQuery := query;
      Refresh();
    }

    method SetNationalityFilter(nationality: string)
      modifies this
      ensures Valid()
      ensures nationalityFilter == nationality && searchQuery == old(searchQuery)
      ensures celebrities == old(celebrities) && nationalities == old(nationalities) && loading == old(loading)
    {
      nationalityFilter := nationality;
      Refresh();
    }

    /** Whether the Clear Filters button is offered. */
    predicate CanClear()
      reads this
    {
      searchQuery != "" || nationalityFilter != "all"
    }

    /** Clear Filters: the query and the nationality are reset, and the whole
        list is shown again. */
    method ClearFilters()
      modifies this
      ensures Valid() && !CanClear()
      ensures searchQuery == "" && nationalityFilter == "all"
      ensures celebrities == old(celebrities) && nationalities == old(nationalities) && loading == old(loading)
      ensures filteredCelebrities == celebrities
    {
      searchQuery := "";
      nationalityFilter := "all";
      Refresh();
    }
  }
}
