/** The search session shared across page visits: filters, sort order, the last
    response and its dogs, the stored request, page size and page number. */
module SearchContext {
  import opened Types

  const InitialSortOrder: string := "breed:asc"
  const InitialPageSize: int := 24

  class SearchState {
    var breeds: seq<string>
    var selectedBreeds: seq<string>
    var ageMin: AgeText
    var ageMax: AgeText
    var sortOrder: string
    var dogs: seq<Dog>
    var searchResponse: Option<SearchResponse>
    var searchPerformed: bool
    var currentSearchParams: Option<SearchParams>
    var pageSize: int
    var currentPage: int

    /** The page size is one the page offers (all positive) and page numbers start at 1. */
    ghost predicate Valid()
      reads this
    {
      pageSize > 0 && currentPage >= 1
    }

    /** A fresh session: nothing loaded, nothing selected, sorted by breed ascending,
        24 per page, on page 1. */
    constructor()
      ensures Valid()
      ensures breeds == [] && selectedBreeds == [] && dogs == []
      ensures ageMin == Blank && ageMax == Blank
      ensures sortOrder == InitialSortOrder
      ensures searchResponse.None? && currentSearchParams.None? && !searchPerformed
      ensures pageSize == InitialPageSize && currentPage == 1
    {
      breeds := [];
      selectedBreeds := [];
      ageMin := Blank;
      ageMax := Blank;
      sortOrder := InitialSortOrder;
      dogs := [];
      searchResponse := None;
      searchPerformed := false;
      currentSearchParams := None;
      pageSize := InitialPageSize;
      currentPage := 1;
    }
  }
}
