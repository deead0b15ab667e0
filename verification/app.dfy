/** The directory's in-memory state and the handlers that change it: the
    club list loaded once at start-up, the filtered list the clubs view
    shows, the search-box and category-selector handlers, and the events
    view computed from the full list. */
module App {
  import opened Text
  import opened Clubs
  import opened ClubFilter
  import opened EventFeed

  /** `clubs` is everything loaded; `filteredClubs` is what the clubs view
      shows. */
  datatype State = State(clubs: seq<Club>, filteredClubs: seq<Club>)

  /** Both lists start empty. */
  const Initial: State := State([], [])

  /** The outcome of the start-up fetch of the club collection. */
  datatype Fetched = Received(clubs: seq<Club>) | TransportError

  /** A received collection replaces the full list and is shown as an
      empty search under "all" would show it, that is, completely; a
      transport failure leaves the state as it was. */
  function FetchClubs(s: State, response: Fetched): (r: State)
    ensures response.TransportError? ==> r == s
    ensures response.Received? ==> r.clubs == response.clubs && r == ApplyFilter(r, "", AllCategories)
  {
    match response
    case Received(cs) =>
      EmptySearchKeepsAll(cs);
      State(cs, cs)
    case TransportError => s
  }

  /** Before any club arrives, and after a failed load, nothing is shown:
      no club under any search, and no event. */
  lemma FailedLoadShowsNothing(input: string, category: string)
    ensures FetchClubs(Initial, TransportError) == Initial
    ensures |HandleSearch(FetchClubs(Initial, TransportError), input, category).filteredClubs| == 0
    ensures |EventsView(FetchClubs(Initial, TransportError))| == 0
  {
  }

  /** `filterClubs`: recompute the shown list from the full list; the full
      list itself is never touched. */
  function ApplyFilter(s: State, term: string, category: string): (r: State)
    ensures r.clubs == s.clubs
    ensures |r.filteredClubs| <= |s.clubs|
  {
    State(s.clubs, FilterClubs(s.clubs, term, category))
  }

  /** The search box changed: filter with the lower-cased input and the
      selector's current value. */
  function HandleSearch(s: State, input: string, selectedCategory: string): (r: State)
    ensures r.clubs == s.clubs
  {
    ApplyFilter(s, ToLower(input), selectedCategory)
  }

  /** The selector changed: filter with the search box's lower-cased value
      and the new category. */
  function HandleCategoryFilter(s: State, searchValue: string, category: string): (r: State)
    ensures r.clubs == s.clubs
  {
    ApplyFilter(s, ToLower(searchValue), category)
  }

  /** The events view reads the full club list. */
  function EventsView(s: State): (r: seq<Entry>)
    ensures |r| == TotalEvents(s.clubs)
    ensures SortedByTitle(r)
  {
    EventsFeed(s.clubs)
  }

  /** After a search, a club is shown exactly when it is loaded, its
      lower-cased name or description contains the lower-cased input, and
      the selector is "all" or names its category. */
  lemma SearchMembership(s: State, input: string, category: string, c: Club)
    ensures c in HandleSearch(s, input, category).filteredClubs
            <==> c in s.clubs
                 && (Contains(ToLower(c.name), ToLower(input)) || Contains(ToLower(c.description), ToLower(input)))
                 && (category == AllCategories || c.category == category)
  {
    FilterMembership(s.clubs, ToLower(input), category, c);
  }

  /** The search is case-insensitive: the input's case does not matter. */
  lemma SearchIgnoresCase(s: State, input: string, category: string)
    ensures HandleSearch(s, input, category) == HandleSearch(s, ToLower(input), category)
    ensures HandleCategoryFilter(s, input, category) == HandleSearch(s, input, category)
  {
  }

  /** Each filter starts again from the full list, so only the latest
      search and category matter. */
  lemma LatestFilterWins(s: State, term1: string, category1: string, term2: string, category2: string)
    ensures ApplyFilter(ApplyFilter(s, term1, category1), term2, category2) == ApplyFilter(s, term2, category2)
  {
  }

  /** Clearing the search box with "all" selected shows exactly what a
      fresh load shows: every club, in order. */
  lemma ClearedSearchShowsAll(s: State, clubs: seq<Club>)
    ensures HandleSearch(FetchClubs(s, Received(clubs)), "", AllCategories) == FetchClubs(s, Received(clubs))
  {
    EmptySearchKeepsAll(clubs);
  }

  /** The events view does not depend on the search or the category. */
  lemma EventsIgnoreFilter(s: State, term: string, category: string)
    ensures EventsView(ApplyFilter(s, term, category)) == EventsView(s)
  {
  }

  /** A loaded list holding just an academic club named "Chess Club":
      searching "chess" under "all" shows it; under "sports" nothing is
      shown. The search text is a parameter fixed by `requires` so that the
      prover does not unfold the lowering of a literal string. */
  lemma ChessClubExample(s: State, chess: Club, term: string)
    requires chess.name == "Chess Club" && chess.category == "academic"
    requires term == "chess"
    ensures HandleSearch(FetchClubs(s, Received([chess])), term, AllCategories).filteredClubs == [chess]
    ensures HandleSearch(FetchClubs(s, Received([chess])), term, "sports").filteredClubs == []
  {
  }
}
