/** The pure parts of the search page: extracting the cursor from a page link,
    pagination arithmetic, building the search request from the filters, and the
    breed checklist (toggle and text filter). */
module SearchLogic {
  import opened Types
  import opened Text

  // ---------------------------------------------------------------------------
  // Cursor extraction

  const FromKey: string := "from="

  /** The first `from=` of `s` starts at `k`. */
  predicate FirstKeyAt(s: string, k: int) {
    OccursAt(s, FromKey, k) && forall j :: 0 <= j < k ==> !OccursAt(s, FromKey, j)
  }

  /** `t` is the whole run of characters other than `&` that starts at index `i` of `s`. */
  predicate TokenAt(s: string, i: int, t: string) {
    0 <= i && i + |t| <= |s| && s[i..i + |t|] == t && '&' !in t
    && (i + |t| == |s| || s[i + |t|] == '&')
  }

  /** The characters of `s` from `i` up to the next `&` or the end. */
  function TokenFrom(s: string, i: nat): (t: string)
    requires i <= |s|
    ensures TokenAt(s, i, t)
    decreases |s| - i
  {
    if i == |s| || s[i] == '&' then ""
    else
      var rest := TokenFrom(s, i + 1);
      assert s[i..i + 1 + |rest|] == [s[i]] + s[i + 1..i + 1 + |rest|];
      [s[i]] + rest
  }

  lemma TokenAtUnique(s: string, i: int, t1: string, t2: string)
    requires TokenAt(s, i, t1) && TokenAt(s, i, t2)
    ensures t1 == t2
  {
  }

  /** getCursorFromQueryString: the text after the first `from=` of a page link, up to
      the next `&`; nothing for a missing or empty link, or one without `from=`. */
  function CursorFromQueryString(q: Option<string>): (r: Option<string>)
    ensures r.None? <==> q.None? || forall k :: !OccursAt(q.value, FromKey, k)
    ensures r.Some? ==> '&' !in r.value
    ensures r.Some? ==> exists k :: FirstKeyAt(q.value, k) && TokenAt(q.value, k + |FromKey|, r.value)
  {
    if q.None? || q.value == "" then None
    else
      match FirstOccurrence(q.value, FromKey, 0)
      case None => None
      case Some(k) =>
        assert FirstKeyAt(q.value, k);
        Some(TokenFrom(q.value, k + |FromKey|))
  }

  /** A link whose only `from=` is the one after its last-but-token `&` yields the token:
      `"...&from=abc123"` gives `"abc123"`. */
  lemma CursorAfterAmpersand(p: string, t: string)
    requires forall j :: !OccursAt(p, FromKey, j)
    requires '&' !in t
    ensures CursorFromQueryString(Some(p + "&" + FromKey + t)) == Some(t)
  {
    var s := p + "&" + FromKey + t;
    var k := |p| + 1;
    assert s[k..k + 5] == FromKey;
    forall j | 0 <= j < k
      ensures !OccursAt(s, FromKey, j)
    {
      if j + 5 <= |p| {
        assert s[j..j + 5] == p[j..j + 5];
        assert !OccursAt(p, FromKey, j);
      } else {
        assert s[|p|] == '&';
        assert s[j..j + 5][|p| - j] == '&';
      }
    }
    assert FirstKeyAt(s, k);
    assert s[k + 5..k + 5 + |t|] == t;
    assert TokenAt(s, k + 5, t);
    var r := CursorFromQueryString(Some(s));
    var k' :| FirstKeyAt(s, k') && TokenAt(s, k' + 5, r.value);
    assert k' == k;
    TokenAtUnique(s, k + 5, t, r.value);
  }

  lemma CursorScenario()
    ensures CursorFromQueryString(Some("/dogs/search?size=24&from=abc123")) == Some("abc123")
  {
    var p := "/dogs/search?size=24";
    assert 'f' !in p;
    forall j ensures !OccursAt(p, FromKey, j) {
      if 0 <= j && j + 5 <= |p| {
        assert p[j..j + 5][0] == p[j];
      }
    }
    assert p + "&" + FromKey + "abc123" == "/dogs/search?size=24&from=abc123";
    CursorAfterAmpersand(p, "abc123");
  }

  // ---------------------------------------------------------------------------
  // Pagination

  datatype PageInfo = PageInfo(
    currentPage: int,
    totalPages: int,
    totalResults: int,
    hasNext: bool,
    hasPrev: bool)

  /** Math.ceil(n / d) on integers: the least q with n <= q * d. */
  function CeilDiv(n: int, d: int): (q: int)
    requires d > 0
    ensures (q - 1) * d < n <= q * d
  {
    var q := (n + d - 1) / d;
    assert q * d <= n + d - 1 < q * d + d;
    q
  }

  /** calculatePaginationInfo: nothing before the first response; otherwise the page
      count for the current page size, the counts passed through, and whether the
      next/previous links are usable. */
  function PaginationInfo(resp: Option<SearchResponse>, pageSize: int, currentPage: int): (r: Option<PageInfo>)
    requires pageSize > 0
    ensures r.None? <==> resp.None?
    ensures r.Some? ==> r.value.currentPage == currentPage && r.value.totalResults == resp.value.total
    ensures r.Some? ==> (r.value.totalPages - 1) * pageSize < resp.value.total <= r.value.totalPages * pageSize
    ensures r.Some? ==> (r.value.hasNext <==> Truthy(resp.value.next)) && (r.value.hasPrev <==> Truthy(resp.value.prev))
  {
    match resp
    case None => None
    case Some(sr) =>
      Some(PageInfo(currentPage, CeilDiv(sr.total, pageSize), sr.total, Truthy(sr.next), Truthy(sr.prev)))
  }

  lemma PaginationScenario(ids: seq<string>, next: string)
    requires next != ""
    ensures PaginationInfo(Some(SearchResponse(ids, 100, Some(next), None)), 24, 1)
         == Some(PageInfo(1, 5, 100, true, false))
  {
  }

  // ---------------------------------------------------------------------------
  // Building the search request

  /** The age range slider's value: low and high bounds in years. */
  datatype AgeRange = AgeRange(low: int, high: int)

  const SliderMin: int := 0
  const SliderMax: int := 15

  /** The remote service's reading of a request: a dog is admitted when its breed is
      among the listed ones (if any are listed) and its age lies within the bounds that
      are present. */
  predicate Admits(p: SearchParams, d: Dog) {
    && (p.breeds.None? || d.breed in p.breeds.value)
    && (p.ageMin.None? || p.ageMin.value <= d.age)
    && (p.ageMax.None? || d.age <= p.ageMax.value)
  }

  /** What the user selected: the ticked breeds (none ticked means any breed) and the
      slider range. */
  predicate Selected(breeds: seq<string>, range: AgeRange, d: Dog) {
    (|breeds| == 0 || d.breed in breeds) && range.low <= d.age <= range.high
  }

  /** The request a search builds from page size, sort order and the filters: no cursor,
      breeds only when some are ticked, and an age bound only when the slider is moved
      off its end. Omitting a bound at an end of the slider admits exactly the dogs the
      selection names, among dogs whose age lies on the slider. */
  function BuildParams(size: int, sort: string, breeds: seq<string>, range: AgeRange): (p: SearchParams)
    ensures p.size == size && p.sort == sort && p.from.None?
    ensures p.breeds.Some? <==> |breeds| > 0
    ensures p.breeds.Some? ==> p.breeds.value == breeds
    ensures p.ageMin.Some? <==> range.low > SliderMin
    ensures p.ageMax.Some? <==> range.high < SliderMax
    ensures forall d: Dog :: SliderMin <= d.age <= SliderMax && SliderMin <= range.low && range.high <= SliderMax
                        ==> (Admits(p, d) <==> Selected(breeds, range, d))
  {
    SearchParams(
      if |breeds| > 0 then Some(breeds) else None,
      if range.low > SliderMin then Some(range.low) else None,
      if range.high < SliderMax then Some(range.high) else None,
      size, sort, None)
  }

  /** Adds `from` to a request only when the cursor is truthy. */
  function WithCursor(p: SearchParams, cursor: Option<string>): (r: SearchParams)
    ensures r.(from := p.from) == p
    ensures r.from == if Truthy(cursor) then cursor else p.from
  {
    if Truthy(cursor) then p.(from := cursor) else p
  }

  /** The session's age-bound texts written by a search: blank at the ends of the slider. */
  function AgeMinText(range: AgeRange): (t: AgeText)
    ensures t.Blank? <==> range.low <= SliderMin
    ensures t.Years? ==> t.n == range.low
  {
    if range.low > SliderMin then Years(range.low) else Blank
  }

  function AgeMaxText(range: AgeRange): (t: AgeText)
    ensures t.Blank? <==> range.high >= SliderMax
    ensures t.Years? ==> t.n == range.high
  {
    if range.high < SliderMax then Years(range.high) else Blank
  }

  /** parseInt(t || default, 10) || default: a blank text or the number 0 (falsy) give
      the default. */
  function ParseAge(t: AgeText, default: int): (n: int)
    ensures t.Blank? ==> n == default
    ensures t.Years? ==> n == if t.n == 0 then default else t.n
  {
    match t
    case Blank => default
    case Years(v) => if v == 0 then default else v
  }

  /** The slider range a fresh page derives from the session's age texts. */
  function RangeFromTexts(ageMin: AgeText, ageMax: AgeText): AgeRange {
    AgeRange(ParseAge(ageMin, SliderMin), ParseAge(ageMax, SliderMax))
  }

  /** Writing the age texts and reading them back restores the slider range, except a
      maximum of 0, which reads back as 15. */
  lemma AgeTextsRoundTrip(range: AgeRange)
    requires SliderMin <= range.low && range.high <= SliderMax
    ensures RangeFromTexts(AgeMinText(range), AgeMaxText(range))
         == if range.high == 0 then AgeRange(range.low, SliderMax) else range
  {
  }

  /** The age texts agree with the request: a text is blank exactly when its bound is
      left out of the request, and otherwise carries that bound. */
  lemma AgeTextsMatchParams(size: int, sort: string, breeds: seq<string>, range: AgeRange)
    ensures var p := BuildParams(size, sort, breeds, range);
            && (AgeMinText(range).Blank? <==> p.ageMin.None?)
            && (AgeMaxText(range).Blank? <==> p.ageMax.None?)
            && (p.ageMin.Some? ==> AgeMinText(range) == Years(p.ageMin.value))
            && (p.ageMax.Some? ==> AgeMaxText(range) == Years(p.ageMax.value))
  {
  }

  /** The request of a search with nothing ticked and the slider at its ends carries no
      filter at all, so the service may return any dog. */
  lemma ResetRequestIsUnfiltered(size: int, sort: string)
    ensures var p := BuildParams(size, sort, [], AgeRange(SliderMin, SliderMax));
            && p.breeds.None? && p.ageMin.None? && p.ageMax.None?
            && forall d: Dog :: Admits(p, d)
  {
  }

  /** As long as the page's own filters are not the defaults, the request built from them
      is not the unfiltered one. */
  lemma FiltersChangeRequest(size: int, sort: string, breeds: seq<string>, range: AgeRange)
    requires |breeds| > 0 || range.low > SliderMin || range.high < SliderMax
    ensures BuildParams(size, sort, breeds, range) != BuildParams(size, sort, [], AgeRange(SliderMin, SliderMax))
  {
  }

  /** One input that shows it: with "Beagle" ticked, a three-year-old poodle is not
      admitted by the request a reset sends, though an unfiltered search admits it. */
  lemma ResetStillFiltersScenario()
    ensures var d := Dog("d1", "Rex", "Poodle", 3, "10001");
            && !Admits(BuildParams(24, "breed:asc", ["Beagle"], AgeRange(SliderMin, SliderMax)), d)
            && Admits(BuildParams(24, "breed:asc", [], AgeRange(SliderMin, SliderMax)), d)
  {
    var d := Dog("d1", "Rex", "Poodle", 3, "10001");
    assert d.breed != "Beagle";
    assert d.breed !in ["Beagle"];
  }

  // ---------------------------------------------------------------------------
  // Breed checklist

  /** `s.filter(y => y !== x)`. */
  function RemoveAll(s: seq<string>, x: string): (r: seq<string>)
    ensures x !in r
    ensures forall y :: y != x ==> multiset(r)[y] == multiset(s)[y]
    ensures |r| <= |s|
  {
    if s == [] then []
    else
      assert s == [s[0]] + s[1..];
      if s[0] == x then RemoveAll(s[1..], x) else [s[0]] + RemoveAll(s[1..], x)
  }

  /** Filtering distributes over concatenation, so the kept elements keep their order. */
  lemma {:induction false} RemoveAllAppend(s: seq<string>, t: seq<string>, x: string)
    ensures RemoveAll(s + t, x) == RemoveAll(s, x) + RemoveAll(t, x)
  {
    if s == [] {
      assert s + t == t;
    } else {
      assert (s + t)[1..] == s[1..] + t;
      RemoveAllAppend(s[1..], t, x);
    }
  }

  lemma {:induction false} RemoveAllAbsent(s: seq<string>, x: string)
    requires x !in s
    ensures RemoveAll(s, x) == s
  {
    if s != [] {
      RemoveAllAbsent(s[1..], x);
    }
  }

  /** handleBreedToggle: a ticked breed is removed (every copy of it), an unticked one is
      appended at the end. */
  function ToggleBreed(selected: seq<string>, breed: string): (r: seq<string>)
    ensures breed in r <==> breed !in selected
    ensures forall y :: y != breed ==> multiset(r)[y] == multiset(selected)[y]
    ensures breed !in selected ==> |r| == |selected| + 1 && r[..|selected|] == selected && r[|selected|] == breed
  {
    if breed in selected then RemoveAll(selected, breed) else selected + [breed]
  }

  /** Ticking an unticked breed and unticking it again restores the selection. */
  lemma ToggleTwiceRestores(selected: seq<string>, breed: string)
    requires breed !in selected
    ensures ToggleBreed(ToggleBreed(selected, breed), breed) == selected
  {
    RemoveAllAppend(selected, [breed], breed);
    RemoveAllAbsent(selected, breed);
    assert RemoveAll([breed], breed) == [];
  }

  /** The breed matches the search box, ignoring (ASCII) case. */
  predicate MatchesQuery(breed: string, query: string) {
    Includes(ToLower(breed), ToLower(query))
  }

  /** filteredBreeds: the breeds whose name contains the query, in list order. */
  function FilterBreeds(breeds: seq<string>, query: string): (r: seq<string>)
    ensures forall b :: b in r <==> b in breeds && MatchesQuery(b, query)
    ensures |r| <= |breeds|
  {
    if breeds == [] then []
    else
      assert breeds == [breeds[0]] + breeds[1..];
      var rest := FilterBreeds(breeds[1..], query);
      if MatchesQuery(breeds[0], query) then [breeds[0]] + rest else rest
  }

  /** The filter keeps list order and repeats: it distributes over concatenation. */
  lemma {:induction false} FilterBreedsAppend(a: seq<string>, b: seq<string>, query: string)
    ensures FilterBreeds(a + b, query) == FilterBreeds(a, query) + FilterBreeds(b, query)
  {
    if a == [] {
      assert a + b == b;
    } else {
      assert (a + b)[1..] == a[1..] + b;
      FilterBreedsAppend(a[1..], b, query);
    }
  }

  /** A single breed is listed exactly when it matches the query. */
  lemma FilterBreedsSingle(breed: string, query: string)
    ensures FilterBreeds([breed], query) == if MatchesQuery(breed, query) then [breed] else []
  {
    assert [breed][1..] == [];
  }

  /** An empty search box lists every breed. */
  lemma {:induction false} EmptyQueryKeepsAll(breeds: seq<string>)
    ensures FilterBreeds(breeds, "") == breeds
  {
    if breeds != [] {
      assert OccursAt(ToLower(breeds[0]), ToLower(""), 0);
      EmptyQueryKeepsAll(breeds[1..]);
    }
  }
}
