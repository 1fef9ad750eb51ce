/** The match page: asks the service to pick one dog among the favorites and shows
    that dog, found again in the favorites list, or one of three error messages. */
module MatchView {
  import opened Types
  import opened FavoritesContext

  const AddDogsFirst: string := "Please add some dogs to your favorites first"
  const NotInFavorites: string := "Matched dog not found in favorites"
  const NoMatchFound: string := "No match found. Try adding more dogs to your favorites"
  const MatchFailed: string := "Failed to find a match. Please try again later."

  /** `favorites.find(dog => dog.id === id)`: the first entry with that id. */
  function FindById(s: seq<Dog>, id: string): (r: Option<Dog>)
    ensures r.None? <==> !HasId(s, id)
    ensures r.Some? ==> r.value.id == id
    ensures r.Some? ==> exists i :: 0 <= i < |s| && s[i] == r.value && forall j :: 0 <= j < i ==> s[j].id != id
  {
    if s == [] then None
    else if s[0].id == id then Some(s[0])
    else
      var r := FindById(s[1..], id);
      if r.Some? then
        var i :| 0 <= i < |s[1..]| && s[1..][i] == r.value && forall j :: 0 <= j < i ==> s[1..][j].id != id;
        assert s[i + 1] == r.value && forall j :: 0 <= j < i + 1 ==> s[j].id != id;
        r
      else r
  }

  /** What a completed match request leads to. */
  datatype MatchOutcome = Matched(dog: Dog) | NotFound | NoMatch | RequestFailed

  /** The outcome of the service's answer (`response.data?.match`, falsy when missing or
      empty) for a non-empty favorites list. */
  function Outcome(favorites: seq<Dog>, response: Fetch<Option<string>>): (o: MatchOutcome)
    ensures o.RequestFailed? <==> response.Failed?
    ensures o.NoMatch? <==> response.Ok? && !Truthy(response.data)
    ensures o.NotFound? <==> response.Ok? && Truthy(response.data) && !HasId(favorites, response.data.value)
    ensures o.Matched? ==> response.Ok? && Truthy(response.data) && o.dog == FindById(favorites, response.data.value).value
  {
    match response
    case Failed => RequestFailed
    case Ok(m) =>
      if !Truthy(m) then NoMatch
      else
        match FindById(favorites, m.value)
        case Some(d) => Matched(d)
        case None => NotFound
  }

  /** The message shown for an outcome; a match shows none. */
  function ErrorFor(o: MatchOutcome): Option<string> {
    match o
    case Matched(_) => None
    case NotFound => Some(NotInFavorites)
    case NoMatch => Some(NoMatchFound)
    case RequestFailed => Some(MatchFailed)
  }

  /** When the service keeps its promise and answers with the id of a favorite, the page
      shows the first favorite with that id and no error. A favorite whose id is the
      empty string can never be shown, because an empty answer reads as "no match". */
  lemma ServiceAnswerIsShown(favorites: seq<Dog>, k: int)
    requires 0 <= k < |favorites| && favorites[k].id != ""
    requires forall j :: 0 <= j < k ==> favorites[j].id != favorites[k].id
    ensures Outcome(favorites, Ok(Some(favorites[k].id))) == Matched(favorites[k])
  {
    var o := Outcome(favorites, Ok(Some(favorites[k].id)));
    assert HasId(favorites, favorites[k].id);
    var i :| 0 <= i < |favorites| && favorites[i] == o.dog
             && forall j :: 0 <= j < i ==> favorites[j].id != favorites[k].id;
    assert i == k;
  }

  /** One run of the effect that prefetches the favorites' locations: the locations of
      all favorites are requested, in list order, unless there are none. When the effect
      runs is not part of this model. */
  function FavoritesPrefetch(favorites: seq<Dog>): (r: Option<seq<string>>)
    ensures r.None? <==> |favorites| == 0
    ensures r.Some? ==> |r.value| == |favorites|
    ensures r.Some? ==> forall i :: 0 <= i < |favorites| ==> r.value[i] == favorites[i].zipCode
  {
    if |favorites| > 0 then Some(ZipCodes(favorites)) else None
  }

  class MatchPage {
    const store: FavoritesStore
    var matchedDog: Option<Dog>
    var isLoading: bool
    var error: Option<string>
    var showSuccessDialog: bool

    constructor(store: FavoritesStore)
      ensures this.store == store
      ensures matchedDog.None? && !isLoading && error.None? && !showSuccessDialog
    {
      this.store := store;
      matchedDog := None;
      isLoading := false;
      error := None;
      showSuccessDialog := false;
    }

    /** handleFindMatch: with no favorites, only the "add some dogs" message and no
        request. Otherwise the request carries the favorites' ids in list order; a match
        found among the favorites is shown in the success dialog, every other outcome
        sets its message and leaves the shown dog and the dialog as they were. */
    method HandleFindMatch(response: Fetch<Option<string>>) returns (request: Option<seq<string>>)
      modifies this`matchedDog, this`isLoading, this`error, this`showSuccessDialog
      ensures request.None? <==> |store.favorites| == 0
      ensures request.None? ==>
                error == Some(AddDogsFirst) && isLoading == old(isLoading)
                && matchedDog == old(matchedDog) && showSuccessDialog == old(showSuccessDialog)
      ensures request.Some? ==>
                var o := Outcome(store.favorites, response);
                && request.value == Ids(store.favorites)
                && !isLoading
                && error == ErrorFor(o)
                && matchedDog == (if o.Matched? then Some(o.dog) else old(matchedDog))
                && showSuccessDialog == (o.Matched? || old(showSuccessDialog))
    {
      if |store.favorites| == 0 {
        error := Some(AddDogsFirst);
        return None;
      }
      isLoading := true;
      error := None;
      request := Some(Ids(store.favorites));
      match response {
        case Failed =>
          error := Some(MatchFailed);
        case Ok(m) =>
          if Truthy(m) {
            var found := FindById(store.favorites, m.value);
            if found.Some? {
              matchedDog := found;
              showSuccessDialog := true;
            } else {
              error := Some(NotInFavorites);
            }
          } else {
            error := Some(NoMatchFound);
          }
      }
      isLoading := false;
    }

    /** handleClearFavorites: empties the favorites and forgets the shown match. */
    method HandleClearFavorites()
      modifies store, this`matchedDog
      ensures store.favorites == [] && matchedDog.None?
    {
      store.SetFavorites([]);
      matchedDog := None;
    }
  }
}
