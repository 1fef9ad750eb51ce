# Dog adoption client: search session, favorites, location cache and match

This project models the client-side state of a single-page dog adoption app. A signed-in
user browses a paged, filterable list of shelter dogs, marks favorites, and asks the
service to pick one match among them. The model covers:

- the **search session** (`SearchContext.SearchState`), shared across visits to the
  search page: breed list, ticked breeds, age texts, sort order, page size, page number,
  the last response and its dogs, and the stored request;
- the **search page** (`SearchView.SearchPage`): its local filters and the handlers that
  build requests, follow next/previous cursors and write results into the session;
- the pure logic of that page (`SearchLogic`): the cursor found in a page link, the
  pagination summary, request building, the age texts, the breed toggle and the breed
  filter;
- the **favorites store** (`FavoritesContext.FavoritesStore`) and the card's heart
  toggle (`DogCardView`);
- the **location cache** (`LocationContext.LocationCache`), a read-through map from zip
  code to location;
- the **match page** (`MatchView.MatchPage`);
- the card's age badge, location line and details dialog.

The service is not modelled. Each answer a handler waits for is an input of type
`Fetch<T>`: `Ok(data)` or `Failed`. The calls a handler issues are its outputs:
`SearchCalls` for a search, and a request list for the location and match calls. Each
handler is one atomic step.

Strings are `seq<char>`. JavaScript truthiness of a `string | null` is `Types.Truthy`.
The session's age texts, `''` or the decimal text of a number, are `AgeText = Blank | Years(n)`.

Where the code's behaviour may surprise, the model follows the code:

- A sort change keeps the page number. A page-size change resets it to 1.
- A sort or page-size change marks the search as performed and stores its request even
  when the request fails.
- When the search answers but the dog lookup fails, the new response is kept and the old
  dogs stay on screen.
- handleSearch stores its request object and only then writes `from` into that same
  object. The stored request therefore carries the cursor of the page it fetched.
- Paging builds its request from the page's local filters, which may not yet have been
  applied, not from the stored request.
- Re-entering the page with a stored request but no dogs re-sends that request as is
  and resets the page number to 1.
- A link without a truthy `from=` value turns paging into a fresh search on page 1.
- An age maximum of 0 is written as the text "0". That text parses back as the default
  15 (`parseInt("0") || 15`).
- A favorite whose id is the empty string can never be matched, because an empty answer
  reads as "no match".
- There is no guard against stale responses: the last step applied wins.

## Model

| member | source | states |
|---|---|---|
| SearchContext.SearchState.constructor | src/context/SearchContext.tsx:32-43 | A new session has no breeds, nothing ticked, blank age texts, sort "breed:asc", no dogs and no response, no search performed, no stored request, page size 24 and page 1. |
| SearchLogic.TokenFrom | src/pages/Search.tsx:318 | The longest run from a position that contains no `&`: the `[^&]*` group of the cursor pattern. |
| SearchLogic.CursorFromQueryString | src/pages/Search.tsx:316-320 | No cursor exactly when the link is missing, empty or has no `from=`. Otherwise the cursor is the `&`-free run after the first `from=`. |
| SearchLogic.CursorAfterAmpersand | src/pages/Search.tsx:316-320 | Appending `&from=t` to a link without `from=` yields cursor `t` whenever `t` has no `&`: the value is read back exactly. |
| SearchLogic.CursorScenario | src/pages/Search.tsx:316-320 | The link `/dogs/search?size=24&from=abc123` yields the cursor `abc123`. |
| SearchLogic.CeilDiv | src/pages/Search.tsx:327 | `Math.ceil(n / d)` for a positive divisor is the least q with n <= q * d. |
| SearchLogic.PaginationInfo | src/pages/Search.tsx:323-336 | No summary before the first response. Otherwise the summary holds the current page and the total, just enough pages of the page size for the total, and "has next/previous" exactly when the link is truthy. |
| SearchLogic.PaginationScenario | src/pages/Search.tsx:323-336 | 100 results at 24 per page make 5 pages, with a next link and no previous one. |
| SearchLogic.BuildParams | src/pages/Search.tsx:98-128 | The request carries size and sort and no cursor. Breeds appear only when some are ticked, an age bound only when the slider is off that end. For dogs aged 0 to 15, the service admits exactly the dogs the user selected. |
| SearchLogic.WithCursor | src/pages/Search.tsx:133-135 | `from` is set to the cursor exactly when the cursor is truthy; nothing else in the request changes. |
| SearchLogic.AgeMinText | src/pages/Search.tsx:115-120 | The minimum's text is blank exactly when the slider sits at 0, and is the bound otherwise. |
| SearchLogic.AgeMaxText | src/pages/Search.tsx:122-127 | The maximum's text is blank exactly when the slider sits at 15, and is the bound otherwise. |
| SearchLogic.ParseAge | src/pages/Search.tsx:65-68 | A blank text and the text "0" both give the default; any other number gives itself. |
| SearchLogic.AgeTextsRoundTrip | src/pages/Search.tsx:65-68 | Writing the age texts and reading them back restores the slider range, except that a maximum of 0 comes back as 15. |
| SearchLogic.AgeTextsMatchParams | src/pages/Search.tsx:115-128 | A session age text is blank exactly when its bound is left out of the request, and otherwise carries that bound. |
| SearchLogic.ResetRequestIsUnfiltered | src/pages/Search.tsx:630-637 | A request built from no ticked breeds and the full slider has no filter, so the service admits every dog. |
| SearchLogic.FiltersChangeRequest | src/pages/Search.tsx:630-637 | Any non-default page filter makes the built request differ from the unfiltered one. |
| SearchLogic.ResetStillFiltersScenario | src/pages/Search.tsx:630-637 | With "Beagle" ticked, the request a reset sends excludes a poodle that the unfiltered request admits. |
| SearchLogic.RemoveAll | src/pages/Search.tsx:282 | Removes every copy of the breed and keeps the count of every other breed. |
| SearchLogic.RemoveAllAppend | src/pages/Search.tsx:282 | Removal distributes over concatenation, so the kept breeds keep their order. |
| SearchLogic.RemoveAllAbsent | src/pages/Search.tsx:282 | Removing a breed that is not ticked changes nothing. |
| SearchLogic.ToggleBreed | src/pages/Search.tsx:279-285 | Toggling flips the breed's membership and keeps every other breed's count. A newly ticked breed goes at the end, after the unchanged selection. |
| SearchLogic.ToggleTwiceRestores | src/pages/Search.tsx:279-285 | Ticking an unticked breed and then unticking it restores the selection. |
| SearchLogic.FilterBreeds | src/pages/Search.tsx:88-90 | A breed is listed exactly when it is in the breed list and its lower-cased name contains the lower-cased query. |
| SearchLogic.FilterBreedsAppend | src/pages/Search.tsx:88-90 | The breed filter distributes over concatenation, so listed breeds keep their order and repeats. |
| SearchLogic.FilterBreedsSingle | src/pages/Search.tsx:88-90 | A single breed is listed exactly when it matches the query. |
| SearchLogic.EmptyQueryKeepsAll | src/pages/Search.tsx:88-90 | An empty search box lists every breed, in order. |
| SearchView.SearchPage.constructor | src/pages/Search.tsx:65-76 | Mounting copies the session's ticked breeds and reads the slider range from the session's age texts. |
| SearchView.SearchPage.IssueSearch | src/pages/Search.tsx:137-153 | The response is stored once the search answers. Dogs are looked up only for a non-empty page of ids, and are replaced only on success. Their zip codes are prefetched. Any failure sets the error message. |
| SearchView.SearchPage.HandleSearch | src/pages/Search.tsx:93-158 | The request is the stored one or is built from the page's filters, with the cursor added when it is truthy. A falsy cursor resets the page to 1. A new request writes the ticked breeds (if any) and the age texts to the session. The stored request equals the sent one. The search is marked performed and the error cleared only on success. |
| SearchView.SearchPage.PrepareRequest | src/pages/Search.tsx:98-135 | The synchronous part of handleSearch: the request, the page reset and the session writes, before anything is sent. |
| SearchView.SearchPage.Reenter | src/pages/Search.tsx:303-312 | With a stored request and no dogs, or no completed search, the stored request is re-sent unchanged and the page resets to 1. In every other case nothing changes. |
| SearchView.SearchPage.HandleSortChange | src/pages/Search.tsx:161-216 | The new order is recorded and the page's filters are searched at once. The page number stays as it was. The search is marked performed and its request stored, success or not. |
| SearchView.SearchPage.HandlePageSizeChange | src/pages/Search.tsx:219-276 | Page 1 with the new size, then the same immediate search as a sort change. |
| SearchView.SearchPage.HandlePageChange | src/pages/Search.tsx:339-349 | Acts only when that direction's link is truthy. It moves the page number (never below 1) and searches the page's filters with the link's cursor. A link without a cursor means a fresh search on page 1. Like any new search, paging writes the ticked breeds (if any) and the age texts to the session. The search is marked performed and the error cleared only on success, and loading ends. |
| SearchView.SearchPage.HandleResetFilters | src/pages/Search.tsx:630-637 | As written: after the reset, the session's breeds and age texts equal the page's unreset filters, and the request is built from them. The page resets to 1. The search is marked performed and the error cleared only on success, and loading ends. |
| SearchView.SearchPage.HandleResetFiltersCorrected | src/pages/Search.tsx:630-637 | As intended: page and session filters are cleared and the request is the unfiltered one. The page resets to 1. The search is marked performed and the error cleared only on success, and loading ends. |
| SearchView.SearchPage.ClearBreedSelection | src/pages/Search.tsx:388 | "Clear all" unticks every breed on the page. |
| SearchView.SearchPage.SetLocalAgeRange | src/pages/Search.tsx:437 | Moving the age slider sets the page's range to the slider's value. |
| SearchView.SearchPage.SetBreedSearchQuery | src/pages/Search.tsx:402 | Typing in the breed search box sets the query that filters the breed list. |
| SearchView.SearchPage.HandleBreedToggle | src/pages/Search.tsx:279-285 | The page's selection becomes the toggled selection, so the breed's membership flips. |
| SearchView.SearchPage.SyncLocalFilters | src/pages/Search.tsx:79-85 | The page's filters are re-read from the session's ticked breeds and age texts. |
| SearchView.SearchPage.LoadBreeds | src/pages/Search.tsx:288-301 | The breed list is requested only while the session has none. It is stored on success; a failure sets the breed error message. |
| FavoritesContext.HasId | src/context/FavoritesContext.tsx:27-29 | True exactly when some entry carries the id. |
| FavoritesContext.CountId | src/context/FavoritesContext.tsx:19-21 | A helper the source does not have, used to state that addFavorite adds a copy without checking for duplicates: zero exactly when no entry carries the id, and never more than the list length. |
| FavoritesContext.WithoutId | src/context/FavoritesContext.tsx:23-25 | No entry with the id is left, every other dog keeps its count, and the length drops by the number removed. |
| FavoritesContext.WithoutIdAppend | src/context/FavoritesContext.tsx:23-25 | Removal distributes over concatenation, so the dogs that stay keep their order. |
| FavoritesContext.WithoutAbsentId | src/context/FavoritesContext.tsx:23-25 | Removing an id that is not there changes nothing. |
| FavoritesContext.WithoutIdKeepsOthers | src/context/FavoritesContext.tsx:23-25 | Removing one id leaves membership of every other id unchanged. |
| FavoritesContext.HasIdAppend | src/context/FavoritesContext.tsx:19-21 | An id is in a concatenation exactly when it is in one of the parts. |
| FavoritesContext.CountAppend | src/context/FavoritesContext.tsx:19-21 | Counts add up over concatenation. |
| FavoritesContext.WithoutIdKeepsOthersAll | src/context/FavoritesContext.tsx:23-25 | Removing one id leaves membership of every other id unchanged, for all other ids at once. |
| FavoritesContext.HasIdAppendAll | src/context/FavoritesContext.tsx:19-21 | An id is in a concatenation exactly when it is in one of the parts, for all ids at once. |
| FavoritesContext.FavoritesStore.constructor | src/context/FavoritesContext.tsx:17 | The store starts empty. |
| FavoritesContext.FavoritesStore.AddFavorite | src/context/FavoritesContext.tsx:19-21 | Appends without a duplicate check: the dog becomes a favorite and its id count goes up by one. |
| FavoritesContext.FavoritesStore.RemoveFavorite | src/context/FavoritesContext.tsx:23-25 | Every entry with the id is dropped, so it is no longer a favorite. |
| FavoritesContext.FavoritesStore.IsFavorite | src/context/FavoritesContext.tsx:27-29 | True exactly when some favorite carries the id. |
| FavoritesContext.FavoritesStore.ClearFavorites | src/context/FavoritesContext.tsx:31-33 | Afterwards no id is a favorite. |
| FavoritesContext.FavoritesStore.SetFavorites | src/context/FavoritesContext.tsx:17 | Replaces the whole list. |
| LocationContext.Missing | src/context/LocationContext.tsx:22 | A zip code is requested exactly when it is asked for and not cached. |
| LocationContext.MissingAppend | src/context/LocationContext.tsx:22 | The request list distributes over concatenation, so it keeps input order and repeats. |
| LocationContext.MissingSingle | src/context/LocationContext.tsx:22 | A single zip code is requested exactly when it is not cached. |
| LocationContext.NothingMissing | src/context/LocationContext.tsx:22-24 | No request goes out exactly when every asked-for zip code is cached. |
| LocationContext.Merge | src/context/LocationContext.tsx:29-33 | Merging the returned locations keeps every cached zip code. |
| LocationContext.MergeKeys | src/context/LocationContext.tsx:29-33 | After a merge the cached zip codes are the old ones plus those of the returned locations. |
| LocationContext.MergeLastWins | src/context/LocationContext.tsx:31-33 | Each returned location is stored under its zip code; for repeated zip codes the last one wins. |
| LocationContext.MergeKeepsUnmentioned | src/context/LocationContext.tsx:29-33 | Cache entries the response does not mention are kept as they were. |
| LocationContext.Lookup | src/context/LocationContext.tsx:43-45 | A location exactly for a cached zip code, and it is the cached one. |
| LocationContext.FetchIsIdempotent | src/context/LocationContext.tsx:20-35 | Once the service has answered for every missing zip code, asking again for the same zip codes requests nothing. |
| LocationContext.LocationCache.constructor | src/context/LocationContext.tsx:16-17 | The cache starts empty and not loading. |
| LocationContext.LocationCache.GetLocationByZip | src/context/LocationContext.tsx:43-45 | A pure lookup that gives nothing for an unknown zip code. |
| LocationContext.LocationCache.FetchLocations | src/context/LocationContext.tsx:20-41 | Only the missing zip codes are requested, and nothing at all when none are missing. An answer is merged in order; a failure keeps the cache. Loading ends after any request. |
| MatchView.FindById | src/pages/Match.tsx:56 | Absent exactly when no favorite has the id. Otherwise it is the first favorite with that id. |
| MatchView.Outcome | src/pages/Match.tsx:51-69 | Failure exactly when the request fails and "no match" exactly when the answer is falsy. "Not found" exactly when the id is not among the favorites; otherwise the match is the first favorite with the id. |
| MatchView.ServiceAnswerIsShown | src/pages/Match.tsx:54-60 | When the service answers with the non-empty id of a favorite, the page shows the first favorite with that id. |
| MatchView.FavoritesPrefetch | src/pages/Match.tsx:35-40 | One run of the effect: the locations of all favorites are requested, in order, unless there are none. |
| MatchView.MatchPage.constructor | src/pages/Match.tsx:29-32 | No match, not loading, no error and no dialog. |
| MatchView.MatchPage.HandleFindMatch | src/pages/Match.tsx:42-73 | With no favorites, only the "add some dogs first" message and no request. Otherwise the request carries the favorites' ids in order. A match found among the favorites opens the success dialog. Every other outcome sets its own message and leaves the shown dog and the dialog unchanged. |
| MatchView.MatchPage.HandleClearFavorites | src/pages/Match.tsx:75-78 | The favorites are emptied and the shown match is forgotten. |
| DogCardView.ToggleFavorite | src/components/DogCard.tsx:38-45 | The dog's favorite status flips, it then appears at most once, and no other id's status changes. |
| DogCardView.ToggleTwiceRestores | src/components/DogCard.tsx:38-45 | Clicking the heart twice on a non-favorite restores the favorites list exactly. |
| DogCardView.AgeUnit | src/components/DogCard.tsx:97 | The age badge says "yr" exactly for age 1, and "yrs" otherwise. |
| DogCardView.LocationLabelFor | src/components/DogCard.tsx:87-93 | A placeholder exactly while locations load. Otherwise the cached city exactly when the zip code is cached, and the zip code when it is not. |
| DogCardView.DialogLocationFor | src/components/DogCard.tsx:133-153 | The dialog shows a placeholder while loading. Otherwise it shows city, state, zip code and county when the location is cached, and the zip code alone when it is not. |
| DogCardView.CardAndDialogAgree | src/components/DogCard.tsx:87-153 | The card and its dialog both wait, both show the cached city, or both fall back to the zip code. |
| DogCardView.CardShowsFetchedCity | src/components/DogCard.tsx:87-93 | Once a fetch has stored the service's last location for a zip code, the card names that location's city. |
| DogCardView.DogCard.constructor | src/components/DogCard.tsx:33 | The dialog starts closed. |
| DogCardView.DogCard.HandleFavoriteToggle | src/components/DogCard.tsx:38-45 | The favorites become the toggled list, so the dog's favorite status flips. |
| DogCardView.DogCard.ToggleDialog | src/components/DogCard.tsx:47-49 | Clicking the card flips the dialog open or closed. |

## Left out

- Sign-in, sign-out, routing and the header (`AuthContext`, `login`, `main`, `Header`) are not part of this model.
- The HTTP client (`services/api.ts`) is not modelled. Its answers are inputs and its calls are outputs.
- Latitude and longitude of a location and the dog's image are not modelled; nothing in the core reads them.
- Rendering, animation, skeletons, dialogs' markup and the range slider widget are not modelled. The slider's value is `localAgeRange`, and its change handler is `SearchView.SearchPage.SetLocalAgeRange`.
- Console logging is not modelled.
- Concurrency is not modelled. Overlapping requests and the order in which answers return are not captured; each handler runs to completion in one step. React's scheduling of effects and state updates is not modelled either: a handler's writes are applied in program order.
- Each dog lookup answer is taken as given. Whether the service returns the dogs in the order of the ids, or all of them, is not modelled.
- MatchView.FavoritesPrefetch: the model covers one run of the effect, not when the effect runs. In the code the effect runs again whenever the favorites or the cache's fetch function change, and that function is created anew each time the cache's loading flag or map changes. Two consequences follow that the model does not capture. After a failed location request, clearing the loading flag runs the effect again, which sends the same zip codes again, with no end. An answer that lacks some favorite's zip code repeats the same way, through the map update.
- SearchView.SearchPage.Reenter: the model covers one run of the effect, not when the effect runs. In the code it runs again whenever the stored request, the dog count, the performed flag or the search handler changes. The handler changes with the page's filters, sort order and page size, and with every update of the location cache: the cache's fetch function is created anew each time the cache's state changes. Two consequences follow that the model does not capture. The first search from an empty page is sent twice: once by the button, and again by the effect, because the stored request is set while the dog list is still empty. In the "No Dogs Found" view, every breed tick or slider move re-sends the stored request.
- The "Reset Filters" button also sets the page's initial `ageRange` value. Nothing reads that value after mounting, so it is not a field of the model.
- SearchLogic.MatchesQuery: `toLowerCase` is modelled on the ASCII letters A–Z only, because Unicode case mapping is out of reach here.
- DogCardView.AgeUnit: only the unit after the number is modelled, not the decimal text of the age.
- Integer widths are not modelled. Ages, totals and page numbers are unbounded integers, which is what JavaScript numbers give for these magnitudes.

## Findings

| source | as written | input that shows it | evidently intended | confidence | as-written member | corrected member |
|---|---|---|---|---|---|---|
| src/pages/Search.tsx:630-637 | "Reset Filters" clears the session's breeds and age texts, then calls handleSearch. handleSearch builds the request from the page's local filters, which are not reset, and writes them back into the session. | Tick "Beagle" and search with no results, then press "Reset Filters": the request still asks for beagles only, and a three-year-old poodle stays excluded. | Reset the page's filters too and search without filters. | not executed; follows from the code's data flow | SearchView.SearchPage.HandleResetFilters (shown by SearchLogic.FiltersChangeRequest and SearchLogic.ResetStillFiltersScenario) | SearchView.SearchPage.HandleResetFiltersCorrected (request proved unfiltered by SearchLogic.ResetRequestIsUnfiltered) |
