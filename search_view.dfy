/** The search page: its local filter state and the handlers that issue searches and
    write their results into the shared session. Each handler is one atomic step; the
    service's answers are its inputs and the calls it issues are its outputs. */
module SearchView {
  import opened Types
  import opened SearchLogic
  import opened SearchContext

  const SearchFailed: string := "Failed to fetch dogs. Please try again later."
  const BreedsFailed: string := "Failed to load breed options. Please try again later."

  datatype Direction = Next | Prev

  /** The service calls one search makes: the search request, the dog lookup (absent
      when the page of ids is empty or the search failed) and the location prefetch. */
  datatype SearchCalls = SearchCalls(
    search: SearchParams,
    hydration: Option<seq<string>>,
    prefetch: Option<seq<string>>)

  /** A search step completes without error: the search answered and, if it returned
      ids, so did the dog lookup. */
  predicate Succeeds(search: Fetch<SearchResponse>, hydrate: Fetch<seq<Dog>>) {
    search.Ok? && (|search.data.resultIds| == 0 || hydrate.Ok?)
  }

  /** The page link a navigation in `direction` follows. */
  function LinkFor(resp: Option<SearchResponse>, direction: Direction): Option<string> {
    match resp
    case None => None
    case Some(r) => if direction == Next then r.next else r.prev
  }

  /** The page number after a navigation: one more, or one less but never below 1. */
  function TurnedPage(page: int, direction: Direction): int {
    if direction == Next then page + 1
    else if page - 1 > 1 then page - 1 else 1
  }

  class SearchPage {
    const ctx: SearchState
    var loading: bool
    var error: Option<string>
    var breedSearchQuery: string
    var localSelectedBreeds: seq<string>
    var localAgeRange: AgeRange

    ghost predicate Valid()
      reads this, ctx
    {
      ctx.Valid()
    }

    /** Mounting the page copies the session's breed selection and reads the slider
        range back from the session's age texts. */
    constructor(ctx: SearchState)
      requires ctx.Valid()
      ensures this.ctx == ctx && Valid()
      ensures !loading && error.None? && breedSearchQuery == ""
      ensures localSelectedBreeds == ctx.selectedBreeds
      ensures localAgeRange == RangeFromTexts(ctx.ageMin, ctx.ageMax)
    {
      this.ctx := ctx;
      loading := false;
      error := None;
      breedSearchQuery := "";
      localSelectedBreeds := ctx.selectedBreeds;
      localAgeRange := RangeFromTexts(ctx.ageMin, ctx.ageMax);
    }

    /** What one search request and its dog lookup leave in the session: the response is
        stored as soon as the search answers, even if the lookup then fails; the dogs are
        replaced only on success, by [] without a lookup when no ids came back. */
    ghost predicate SearchApplied(calls: SearchCalls, params: SearchParams,
                                  search: Fetch<SearchResponse>, hydrate: Fetch<seq<Dog>>,
                                  oldResponse: Option<SearchResponse>, oldDogs: seq<Dog>)
      reads ctx
    {
      && calls.search == params
      && ctx.searchResponse == (if search.Ok? then Some(search.data) else oldResponse)
      && calls.hydration == (if search.Ok? && |search.data.resultIds| > 0 then Some(search.data.resultIds) else None)
      && ctx.dogs == (if !Succeeds(search, hydrate) then oldDogs
                      else if |search.data.resultIds| == 0 then []
                      else hydrate.data)
      && calls.prefetch == (if Succeeds(search, hydrate) && |search.data.resultIds| > 0
                            then Some(ZipCodes(hydrate.data)) else None)
    }

    /** Issues one search and, for a non-empty page of ids, the dog lookup. */
    method IssueSearch(params: SearchParams, search: Fetch<SearchResponse>, hydrate: Fetch<seq<Dog>>)
      returns (calls: SearchCalls)
      modifies ctx`searchResponse, ctx`dogs, this`error
      ensures SearchApplied(calls, params, search, hydrate, old(ctx.searchResponse), old(ctx.dogs))
      ensures error == if Succeeds(search, hydrate) then old(error) else Some(SearchFailed)
    {
      calls := SearchCalls(params, None, None);
      match search {
        case Failed =>
          error := Some(SearchFailed);
        case Ok(resp) =>
          ctx.searchResponse := Some(resp);
          if |resp.resultIds| > 0 {
            calls := calls.(hydration := Some(resp.resultIds));
            match hydrate {
              case Failed =>
                error := Some(SearchFailed);
              case Ok(found) =>
                ctx.dogs := found;
                calls := calls.(prefetch := Some(ZipCodes(found)));
            }
          } else {
            ctx.dogs := [];
          }
      }
    }

    /** handleSearch(fromCursor, savedParams). The only saved parameters ever passed are
        the session's own, so `useSaved` stands for passing `currentSearchParams`. Without
        saved parameters the request is built from the page's filters, the session's
        breed selection (only when some are ticked) and age texts are written, and the
        request is stored before the cursor is written into that same object. A falsy
        cursor resets the page number to 1. */
    method HandleSearch(fromCursor: Option<string>, useSaved: bool,
                        search: Fetch<SearchResponse>, hydrate: Fetch<seq<Dog>>)
      returns (calls: SearchCalls)
      requires Valid()
      modifies this`loading, this`error, ctx`currentPage, ctx`selectedBreeds, ctx`ageMin,
               ctx`ageMax, ctx`currentSearchParams, ctx`searchResponse, ctx`dogs, ctx`searchPerformed
      ensures Valid()
      ensures var saved := if useSaved then old(ctx.currentSearchParams) else None;
              var base := if saved.Some? then saved.value
                          else BuildParams(ctx.pageSize, ctx.sortOrder, localSelectedBreeds, localAgeRange);
              calls.search == WithCursor(base, fromCursor)
      ensures ctx.currentPage == if Truthy(fromCursor) then old(ctx.currentPage) else 1
      ensures ctx.currentSearchParams == Some(calls.search)
      ensures useSaved && old(ctx.currentSearchParams).Some? ==>
                ctx.selectedBreeds == old(ctx.selectedBreeds)
                && ctx.ageMin == old(ctx.ageMin) && ctx.ageMax == old(ctx.ageMax)
      ensures !(useSaved && old(ctx.currentSearchParams).Some?) ==>
                ctx.selectedBreeds == (if |localSelectedBreeds| > 0 then localSelectedBreeds else old(ctx.selectedBreeds))
                && ctx.ageMin == AgeMinText(localAgeRange) && ctx.ageMax == AgeMaxText(localAgeRange)
      ensures SearchApplied(calls, calls.search, search, hydrate, old(ctx.searchResponse), old(ctx.dogs))
      ensures ctx.searchPerformed == (Succeeds(search, hydrate) || old(ctx.searchPerformed))
      ensures error == if Succeeds(search, hydrate) then None else Some(SearchFailed)
      ensures !loading
    {
      loading := true;
      error := None;
      var params := PrepareRequest(fromCursor, useSaved);
      calls := IssueSearch(params, search, hydrate);
      if Succeeds(search, hydrate) {
        ctx.searchPerformed := true;
      }
      loading := false;
    }

    /** The synchronous part of handleSearch, before the request goes out. */
    method PrepareRequest(fromCursor: Option<string>, useSaved: bool) returns (params: SearchParams)
      requires Valid()
      modifies ctx`currentPage, ctx`selectedBreeds, ctx`ageMin, ctx`ageMax, ctx`currentSearchParams
      ensures Valid()
      ensures var saved := if useSaved then old(ctx.currentSearchParams) else None;
              var base := if saved.Some? then saved.value
                          else BuildParams(ctx.pageSize, ctx.sortOrder, localSelectedBreeds, localAgeRange);
              params == WithCursor(base, fromCursor)
      ensures ctx.currentPage == if Truthy(fromCursor) then old(ctx.currentPage) else 1
      ensures ctx.currentSearchParams == Some(params)
      ensures useSaved && old(ctx.currentSearchParams).Some? ==>
                ctx.selectedBreeds == old(ctx.selectedBreeds)
                && ctx.ageMin == old(ctx.ageMin) && ctx.ageMax == old(ctx.ageMax)
      ensures !(useSaved && old(ctx.currentSearchParams).Some?) ==>
                ctx.selectedBreeds == (if |localSelectedBreeds| > 0 then localSelectedBreeds else old(ctx.selectedBreeds))
                && ctx.ageMin == AgeMinText(localAgeRange) && ctx.ageMax == AgeMaxText(localAgeRange)
    {
      var saved := if useSaved then ctx.currentSearchParams else None;
      params := if saved.Some? then saved.value
                else BuildParams(ctx.pageSize, ctx.sortOrder, localSelectedBreeds, localAgeRange);
      if !Truthy(fromCursor) {
        ctx.currentPage := 1;
      }
      if saved.None? {
        if |localSelectedBreeds| > 0 {
          ctx.selectedBreeds := localSelectedBreeds;
        }
        ctx.ageMin := AgeMinText(localAgeRange);
        ctx.ageMax := AgeMaxText(localAgeRange);
      }
      // The stored request and the one sent are the same object, so the cursor written
      // below shows up in the session's stored request as well.
      params := WithCursor(params, fromCursor);
      ctx.currentSearchParams := Some(params);
    }

    /** One run of the effect that re-sends a stored request: with a stored request but
        no dogs, or no completed search, the stored request is re-sent as is (page number
        reset to 1); otherwise nothing happens. The effect runs on mounting and again
        whenever the stored request, the dog count, the performed flag or the search
        handler (which changes with the page's filters, sort order and page size)
        changes; when it runs is not part of this model. */
    method Reenter(search: Fetch<SearchResponse>, hydrate: Fetch<seq<Dog>>)
      returns (calls: Option<SearchCalls>)
      requires Valid()
      modifies this`loading, this`error, ctx`currentPage, ctx`selectedBreeds, ctx`ageMin,
               ctx`ageMax, ctx`currentSearchParams, ctx`searchResponse, ctx`dogs, ctx`searchPerformed
      ensures Valid()
      ensures calls.Some? <==> old(ctx.currentSearchParams).Some? && (|old(ctx.dogs)| == 0 || !old(ctx.searchPerformed))
      ensures calls.None? ==> unchanged(this) && unchanged(ctx)
      ensures calls.Some? ==>
                && calls.value.search == old(ctx.currentSearchParams).value
                && ctx.currentSearchParams == old(ctx.currentSearchParams)
                && ctx.currentPage == 1
                && ctx.selectedBreeds == old(ctx.selectedBreeds)
                && ctx.ageMin == old(ctx.ageMin) && ctx.ageMax == old(ctx.ageMax)
                && SearchApplied(calls.value, calls.value.search, search, hydrate, old(ctx.searchResponse), old(ctx.dogs))
                && ctx.searchPerformed == (Succeeds(search, hydrate) || old(ctx.searchPerformed))
                && error == (if Succeeds(search, hydrate) then None else Some(SearchFailed))
                && !loading
    {
      calls := None;
      if ctx.currentSearchParams.Some? && ctx.searchPerformed && |ctx.dogs| > 0 {
        return;
      }
      if ctx.currentSearchParams.Some? && (|ctx.dogs| == 0 || !ctx.searchPerformed) {
        var c := HandleSearch(None, true, search, hydrate);
        calls := Some(c);
      }
    }

    /** handleSortChange: records the new order and searches at once with the page's
        filters. The page number is left as it was; the search counts as performed and
        the request is stored even when it fails. */
    method HandleSortChange(newSortOrder: string, search: Fetch<SearchResponse>, hydrate: Fetch<seq<Dog>>)
      returns (calls: SearchCalls)
      requires Valid()
      modifies this`loading, this`error, ctx`sortOrder, ctx`currentSearchParams,
               ctx`searchResponse, ctx`dogs, ctx`searchPerformed
      ensures Valid()
      ensures ctx.sortOrder == newSortOrder
      ensures ctx.currentPage == old(ctx.currentPage)
      ensures calls.search == BuildParams(ctx.pageSize, newSortOrder, localSelectedBreeds, localAgeRange)
      ensures SearchApplied(calls, calls.search, search, hydrate, old(ctx.searchResponse), old(ctx.dogs))
      ensures ctx.searchPerformed
      ensures ctx.currentSearchParams == Some(calls.search)
      ensures error == if Succeeds(search, hydrate) then None else Some(SearchFailed)
      ensures !loading
    {
      ctx.sortOrder := newSortOrder;
      var params := BuildParams(ctx.pageSize, newSortOrder, localSelectedBreeds, localAgeRange);
      loading := true;
      error := None;
      calls := IssueSearch(params, search, hydrate);
      loading := false;
      ctx.searchPerformed := true;
      ctx.currentSearchParams := Some(params);
    }

    /** handlePageSizeChange: back to page 1 with the new size, then the same immediate
        search as a sort change. */
    method HandlePageSizeChange(newPageSize: int, search: Fetch<SearchResponse>, hydrate: Fetch<seq<Dog>>)
      returns (calls: SearchCalls)
      requires Valid()
      requires newPageSize > 0
      modifies this`loading, this`error, ctx`pageSize, ctx`currentPage, ctx`currentSearchParams,
               ctx`searchResponse, ctx`dogs, ctx`searchPerformed
      ensures Valid()
      ensures ctx.pageSize == newPageSize && ctx.currentPage == 1
      ensures calls.search == BuildParams(newPageSize, ctx.sortOrder, localSelectedBreeds, localAgeRange)
      ensures SearchApplied(calls, calls.search, search, hydrate, old(ctx.searchResponse), old(ctx.dogs))
      ensures ctx.searchPerformed
      ensures ctx.currentSearchParams == Some(calls.search)
      ensures error == if Succeeds(search, hydrate) then None else Some(SearchFailed)
      ensures !loading
    {
      ctx.currentPage := 1;
      ctx.pageSize := newPageSize;
      var params := BuildParams(newPageSize, ctx.sortOrder, localSelectedBreeds, localAgeRange);
      loading := true;
      error := None;
      calls := IssueSearch(params, search, hydrate);
      loading := false;
      ctx.searchPerformed := true;
      ctx.currentSearchParams := Some(params);
    }

    /** handlePageChange: acts only when the link in that direction is truthy; it moves
        the page number and searches with the cursor taken from the link. A link without
        a usable cursor turns into a fresh first-page search. */
    method HandlePageChange(direction: Direction, search: Fetch<SearchResponse>, hydrate: Fetch<seq<Dog>>)
      returns (calls: Option<SearchCalls>)
      requires Valid()
      modifies this`loading, this`error, ctx`currentPage, ctx`selectedBreeds, ctx`ageMin,
               ctx`ageMax, ctx`currentSearchParams, ctx`searchResponse, ctx`dogs, ctx`searchPerformed
      ensures Valid()
      ensures calls.Some? <==> Truthy(LinkFor(old(ctx.searchResponse), direction))
      ensures calls.None? ==> unchanged(this) && unchanged(ctx)
      ensures calls.Some? ==>
                var cursor := CursorFromQueryString(LinkFor(old(ctx.searchResponse), direction));
                && calls.value.search
                   == WithCursor(BuildParams(ctx.pageSize, ctx.sortOrder, localSelectedBreeds, localAgeRange), cursor)
                && ctx.currentPage == (if Truthy(cursor) then TurnedPage(old(ctx.currentPage), direction) else 1)
                && ctx.currentSearchParams == Some(calls.value.search)
                && ctx.selectedBreeds == (if |localSelectedBreeds| > 0 then localSelectedBreeds else old(ctx.selectedBreeds))
                && ctx.ageMin == AgeMinText(localAgeRange) && ctx.ageMax == AgeMaxText(localAgeRange)
                && SearchApplied(calls.value, calls.value.search, search, hydrate, old(ctx.searchResponse), old(ctx.dogs))
                && ctx.searchPerformed == (Succeeds(search, hydrate) || old(ctx.searchPerformed))
                && error == (if Succeeds(search, hydrate) then None else Some(SearchFailed))
                && !loading
    {
      calls := None;
      var resp := ctx.searchResponse;
      if direction == Next && resp.Some? && Truthy(resp.value.next) {
        ctx.currentPage := ctx.currentPage + 1;
        var c := HandleSearch(CursorFromQueryString(resp.value.next), false, search, hydrate);
        calls := Some(c);
      } else if direction == Prev && resp.Some? && Truthy(resp.value.prev) {
        ctx.currentPage := if ctx.currentPage - 1 > 1 then ctx.currentPage - 1 else 1;
        var c := HandleSearch(CursorFromQueryString(resp.value.prev), false, search, hydrate);
        calls := Some(c);
      }
    }

    /** The "Reset Filters" button of the empty-result view, as written: it blanks the
        session's breed selection and age texts and then runs handleSearch, which builds
        the request from the page's own filters (the ones that found nothing) and writes
        them back into the session. The reset is undone whenever those filters are not
        the defaults (see FiltersChangeRequest). */
    method HandleResetFilters(search: Fetch<SearchResponse>, hydrate: Fetch<seq<Dog>>)
      returns (calls: SearchCalls)
      requires Valid()
      modifies this`loading, this`error, ctx`currentPage, ctx`selectedBreeds, ctx`ageMin,
               ctx`ageMax, ctx`currentSearchParams, ctx`searchResponse, ctx`dogs, ctx`searchPerformed
      ensures Valid()
      ensures calls.search == BuildParams(ctx.pageSize, ctx.sortOrder, localSelectedBreeds, localAgeRange)
      ensures ctx.selectedBreeds == localSelectedBreeds
      ensures ctx.ageMin == AgeMinText(localAgeRange) && ctx.ageMax == AgeMaxText(localAgeRange)
      ensures ctx.currentPage == 1 && ctx.currentSearchParams == Some(calls.search)
      ensures SearchApplied(calls, calls.search, search, hydrate, old(ctx.searchResponse), old(ctx.dogs))
      ensures ctx.searchPerformed == (Succeeds(search, hydrate) || old(ctx.searchPerformed))
      ensures error == if Succeeds(search, hydrate) then None else Some(SearchFailed)
      ensures !loading
    {
      ctx.selectedBreeds := [];
      ctx.ageMin := Blank;
      ctx.ageMax := Blank;
      calls := HandleSearch(None, false, search, hydrate);
    }

    /** "Reset Filters" as intended: the page's filters are reset along with the
        session's, so the search it runs is unfiltered (see ResetRequestIsUnfiltered). */
    method HandleResetFiltersCorrected(search: Fetch<SearchResponse>, hydrate: Fetch<seq<Dog>>)
      returns (calls: SearchCalls)
      requires Valid()
      modifies this`loading, this`error, this`localSelectedBreeds, this`localAgeRange,
               ctx`currentPage, ctx`selectedBreeds, ctx`ageMin, ctx`ageMax,
               ctx`currentSearchParams, ctx`searchResponse, ctx`dogs, ctx`searchPerformed
      ensures Valid()
      ensures calls.search == BuildParams(ctx.pageSize, ctx.sortOrder, [], AgeRange(SliderMin, SliderMax))
      ensures localSelectedBreeds == [] && localAgeRange == AgeRange(SliderMin, SliderMax)
      ensures ctx.selectedBreeds == [] && ctx.ageMin == Blank && ctx.ageMax == Blank
      ensures ctx.currentPage == 1 && ctx.currentSearchParams == Some(calls.search)
      ensures SearchApplied(calls, calls.search, search, hydrate, old(ctx.searchResponse), old(ctx.dogs))
      ensures ctx.searchPerformed == (Succeeds(search, hydrate) || old(ctx.searchPerformed))
      ensures error == if Succeeds(search, hydrate) then None else Some(SearchFailed)
      ensures !loading
    {
      localSelectedBreeds := [];
      localAgeRange := AgeRange(SliderMin, SliderMax);
      ctx.selectedBreeds := [];
      ctx.ageMin := Blank;
      ctx.ageMax := Blank;
      calls := HandleSearch(None, false, search, hydrate);
    }

    /** The "Clear all" link of the breed list: unticks every breed on the page. */
    method ClearBreedSelection()
      modifies this`localSelectedBreeds
      ensures localSelectedBreeds == []
    {
      localSelectedBreeds := [];
    }

    /** The age slider's change handler: the page's range becomes the slider's value. */
    method SetLocalAgeRange(range: AgeRange)
      modifies this`localAgeRange
      ensures localAgeRange == range
    {
      localAgeRange := range;
    }

    /** The breed search box's change handler; the breeds listed are then
        FilterBreeds(ctx.breeds, breedSearchQuery). */
    method SetBreedSearchQuery(query: string)
      modifies this`breedSearchQuery
      ensures breedSearchQuery == query
    {
      breedSearchQuery := query;
    }

    /** handleBreedToggle: ticks or unticks one breed in the page's selection. */
    method HandleBreedToggle(breed: string)
      modifies this`localSelectedBreeds
      ensures localSelectedBreeds == ToggleBreed(old(localSelectedBreeds), breed)
      ensures breed in localSelectedBreeds <==> breed !in old(localSelectedBreeds)
    {
      localSelectedBreeds := ToggleBreed(localSelectedBreeds, breed);
    }

    /** The effect that re-reads the page's filters whenever the session's selection or
        age texts change. */
    method SyncLocalFilters()
      modifies this`localSelectedBreeds, this`localAgeRange
      ensures localSelectedBreeds == ctx.selectedBreeds
      ensures localAgeRange == RangeFromTexts(ctx.ageMin, ctx.ageMax)
    {
      localSelectedBreeds := ctx.selectedBreeds;
      localAgeRange := RangeFromTexts(ctx.ageMin, ctx.ageMax);
    }

    /** The breed list is requested only while the session has none. */
    method LoadBreeds(response: Fetch<seq<string>>) returns (requested: bool)
      modifies ctx`breeds, this`error
      ensures requested <==> |old(ctx.breeds)| == 0
      ensures !requested ==> unchanged(this) && unchanged(ctx)
      ensures requested && response.Ok? ==> ctx.breeds == response.data && error == old(error)
      ensures requested && response.Failed? ==> ctx.breeds == old(ctx.breeds) && error == Some(BreedsFailed)
    {
      requested := |ctx.breeds| == 0;
      if requested {
        match response {
          case Ok(list) => ctx.breeds := list;
          case Failed => error := Some(BreedsFailed);
        }
      }
    }
  }
}
