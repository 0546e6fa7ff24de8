/** The films catalogue: the fetched list, the distinct genres offered as
    filters, and the view derived from the search text, the genre filter
    and the sort order, which is recomputed whenever any of them changes. */
module FilmsPage {
  import opened Wrappers
  import opened Text
  import opened Seqs
  import opened Sorting
  import opened Entities

  /** The search test: the lowercased title, or the lowercased genre when
      there is one, contains the lowercased query. */
  predicate MatchesQuery(f: Film, query: string) {
    Contains(Lower(f.title), Lower(query))
    || (f.genre.Some? && Contains(Lower(f.genre.value), Lower(query)))
  }

  function QueryTest(query: string): Film -> bool {
    (f: Film) => MatchesQuery(f, query)
  }

  function GenreTest(genre: string): Film -> bool {
    (f: Film) => f.genre == Some(genre)
  }

  /** The search step: an empty query keeps every film. */
  function TextFilter(films: seq<Film>, query: string): seq<Film> {
    if query == "" then films else Filter(films, QueryTest(query))
  }

  /** The genre step: `'all'` keeps every film, any other value the films
      whose genre is exactly that value. */
  function GenreFilter(films: seq<Film>, genre: string): seq<Film> {
    if genre == "all" then films else Filter(films, GenreTest(genre))
  }

  /** The key each sort option compares: rating and year largest first with
      null counted as 0, title alphabetically; an unknown option compares
      every pair as equal. */
  function SortKey(sortBy: string): Film -> Rank {
    if sortBy == "rating" then (f: Film) => Desc(RatingOrZero(f))
    else if sortBy == "year" then (f: Film) => Desc(YearOrZero(f) as real)
    else if sortBy == "title" then (f: Film) => Asc(f.title)
    else (f: Film) => Desc(0.0)
  }

  /** The list shown: search, then genre, then a sorted copy. */
  function View(films: seq<Film>, query: string, genre: string, sortBy: string): (r: seq<Film>)
    ensures |r| <= |films|
  {
    Sort(GenreFilter(TextFilter(films, query), genre), SortKey(sortBy))
  }

  /** A film passes both filters. */
  predicate Passes(f: Film, query: string, genre: string) {
    (query == "" || MatchesQuery(f, query)) && (genre == "all" || f.genre == Some(genre))
  }

  /** The view holds exactly the films that pass both filters, each as often
      as in the fetched list: sorting neither adds nor drops a film. */
  lemma ViewContents(films: seq<Film>, query: string, genre: string, sortBy: string, f: Film)
    ensures multiset(View(films, query, genre, sortBy))[f] == if Passes(f, query, genre) then multiset(films)[f] else 0
    ensures f in View(films, query, genre, sortBy) <==> f in films && Passes(f, query, genre)
  {
    var t := TextFilter(films, query);
    var u := GenreFilter(t, genre);
    SortCorrect(u, SortKey(sortBy));
    if query != "" {
      FilterCount(films, QueryTest(query), f);
    }
    if genre != "all" {
      FilterCount(t, GenreTest(genre), f);
    }
  }

  /** The order of the view for each sort option. */
  lemma ViewOrder(films: seq<Film>, query: string, genre: string, sortBy: string)
    ensures sortBy == "rating" ==>
              var v := View(films, query, genre, sortBy);
              forall i, j :: 0 <= i < j < |v| ==> RatingOrZero(v[i]) >= RatingOrZero(v[j])
    ensures sortBy == "year" ==>
              var v := View(films, query, genre, sortBy);
              forall i, j :: 0 <= i < j < |v| ==> YearOrZero(v[i]) >= YearOrZero(v[j])
    ensures sortBy == "title" ==>
              var v := View(films, query, genre, sortBy);
              forall i, j :: 0 <= i < j < |v| ==> LexLe(v[i].title, v[j].title)
    ensures sortBy != "rating" && sortBy != "year" && sortBy != "title" ==>
              View(films, query, genre, sortBy) == GenreFilter(TextFilter(films, query), genre)
  {
    var u := GenreFilter(TextFilter(films, query), genre);
    SortCorrect(u, SortKey(sortBy));
    if sortBy != "rating" && sortBy != "year" && sortBy != "title" {
      SortAllTies(u, SortKey(sortBy), Desc(0.0));
    }
  }

  function GenreOf(f: Film): Option<string> {
    f.genre
  }

  /** The genre menu: each non-empty genre once, in the order in which it
      first occurs (see `Seqs.DistinctValuesSpec`). */
  function Genres(films: seq<Film>): seq<string> {
    DistinctValues(films, GenreOf)
  }

  /** The page's state. */
  class Page {
    var films: seq<Film>
    var filteredFilms: seq<Film>
    var genres: seq<string>
    var searchQuery: string
    var genreFilter: string
    var sortBy: string
    var loading: bool

    /** The shown list is the view of the current list and controls. */
    predicate Valid()
      reads this
    {
      filteredFilms == View(films, searchQuery, genreFilter, sortBy)
    }

    constructor()
      ensures Valid()
      ensures films == [] && genres == [] && loading
      ensures searchQuery == "" && genreFilter == "all" && sortBy == "rating"
    {
      films := [];
      filteredFilms := [];
      genres := [];
      searchQuery := "";
      genreFilter := "all";
      sortBy := "rating";
      loading := true;
    }

    /** Re-derives the shown list, as the effect on the controls does. */
    method Refresh()
      modifies this`filteredFilms
      ensures Valid()
    {
      filteredFilms := View(films, searchQuery, genreFilter, sortBy);
    }

    /** `fetchFilms`, given the reply to the films query: an error or a
        reply without data keeps the list and the genres. */
    method Load(reply: Reply<seq<Film>>)
      modifies this
      ensures Valid() && !loading
      ensures searchQuery == old(searchQuery) && genreFilter == old(genreFilter) && sortBy == old(sortBy)
      ensures reply.Data().Some? ==> films == reply.Data().value && genres == Genres(films)
      ensures reply.Data().None? ==> films == old(films) && genres == old(genres)
    {
      if reply.Data().Some? {
        films := reply.Data().value;
        genres := Genres(films);
      }
      loading := false;
      Refresh();
    }

    method SetSearchQuery(query: string)
      modifies this
      ensures Valid()
      ensures searchQuery == query && genreFilter == old(genreFilter) && sortBy == old(sortBy)
      ensures films == old(films) && genres == old(genres) && loading == old(loading)
    {
      searchQuery := query;
      Refresh();
    }

    method SetGenreFilter(genre: string)
      modifies this
      ensures Valid()
      ensures genreFilter == genre && searchQuery == old(searchQuery) && sortBy == old(sortBy)
      ensures films == old(films) && genres == old(genres) && loading == old(loading)
    {
      genreFilter := genre;
      Refresh();
    }

    method SetSortBy(sort: string)
      modifies this
      ensures Valid()
      ensures sortBy == sort && searchQuery == old(searchQuery) && genreFilter == old(genreFilter)
      ensures films == old(films) && genres == old(genres) && loading == old(loading)
    {
      sortBy := sort;
      Refresh();
    }

    /** Whether the Clear Filters button is offered. */
    predicate CanClear()
      reads this
    {
      searchQuery != "" || genreFilter != "all"
    }

    /** Clear Filters: the query and the genre are reset, the sort order is
        kept. */
    method ClearFilters()
      modifies this
      ensures Valid()
      ensures searchQuery == "" && genreFilter == "all" && sortBy == old(sortBy)
      ensures films == old(films) && genres == old(genres) && loading == old(loading)
      ensures !CanClear()
    {
      searchQuery := "";
      genreFilter := "all";
      Refresh();
    }
  }

  /** With the filters cleared, the view is the whole list sorted. */
  lemma ClearedViewIsSortedList(films: seq<Film>, sortBy: string)
    ensures View(films, "", "all", sortBy) == Sort(films, SortKey(sortBy))
  {
  }
}
