/** A dog's card: the favorite heart, the details dialog, and the age and location
    labels it shows. */
module DogCardView {
  import opened Types
  import opened FavoritesContext
  import opened LocationContext

  /** The favorites list after the heart is clicked for `dog`: every entry with its id
      removed when it is a favorite, otherwise the dog appended. */
  function ToggleFavorite(favorites: seq<Dog>, dog: Dog): (r: seq<Dog>)
    ensures HasId(r, dog.id) == !HasId(favorites, dog.id)
    ensures CountId(r, dog.id) <= 1
    ensures forall other :: other != dog.id ==> HasId(r, other) == HasId(favorites, other)
  {
    if HasId(favorites, dog.id) then
      WithoutIdKeepsOthersAll(favorites, dog.id);
      WithoutId(favorites, dog.id)
    else
      CountAppend(favorites, [dog], dog.id);
      assert (favorites + [dog])[|favorites|] == dog;
      HasIdAppendAll(favorites, [dog]);
      favorites + [dog]
  }

  /** Clicking the heart twice on a dog that was not a favorite restores the list. */
  lemma ToggleTwiceRestores(favorites: seq<Dog>, dog: Dog)
    requires !HasId(favorites, dog.id)
    ensures ToggleFavorite(ToggleFavorite(favorites, dog), dog) == favorites
  {
    WithoutIdAppend(favorites, [dog], dog.id);
    WithoutAbsentId(favorites, dog.id);
    assert WithoutId([dog], dog.id) == [];
  }

  /** The unit on the age badge: singular for exactly one year. */
  function AgeUnit(age: int): (unit: string)
    ensures unit == "yr" <==> age == 1
    ensures unit != "yr" ==> unit == "yrs"
  {
    if age != 1 then "yrs" else "yr"
  }

  /** What the card shows under the dog's name for its location. */
  datatype LocationLabel = Placeholder | CityName(city: string) | ZipCodeText(zip: string)

  /** A skeleton while locations load, else the cached city, else the raw zip code. */
  function LocationLabelFor(isLoading: bool, location: Option<Location>, zip: string): (l: LocationLabel)
    ensures l.Placeholder? <==> isLoading
    ensures l.CityName? <==> !isLoading && location.Some?
    ensures l.CityName? ==> l.city == location.value.city
    ensures l.ZipCodeText? ==> l.zip == zip
  {
    if isLoading then Placeholder
    else if location.Some? then CityName(location.value.city)
    else ZipCodeText(zip)
  }

  /** What the details dialog shows for the location: a skeleton while loading, else the
      city, state, zip code and county of the cached location, else the zip code alone. */
  datatype DialogLocation = Loading | Full(city: string, state: string, zip: string, county: string) | ZipOnly(zip: string)

  function DialogLocationFor(isLoading: bool, location: Option<Location>, zip: string): (l: DialogLocation)
    ensures l.Loading? <==> isLoading
    ensures l.Full? <==> !isLoading && location.Some?
    ensures l.Full? ==> l == Full(location.value.city, location.value.state, zip, location.value.county)
    ensures l.ZipOnly? ==> l.zip == zip
  {
    if isLoading then Loading
    else if location.Some? then Full(location.value.city, location.value.state, zip, location.value.county)
    else ZipOnly(zip)
  }

  /** The card and its dialog agree: both wait, both show the cached location, or both
      fall back to the zip code. */
  lemma CardAndDialogAgree(isLoading: bool, location: Option<Location>, zip: string)
    ensures LocationLabelFor(isLoading, location, zip).Placeholder? <==> DialogLocationFor(isLoading, location, zip).Loading?
    ensures LocationLabelFor(isLoading, location, zip).CityName? <==> DialogLocationFor(isLoading, location, zip).Full?
    ensures LocationLabelFor(isLoading, location, zip).CityName? ==>
              LocationLabelFor(isLoading, location, zip).city == DialogLocationFor(isLoading, location, zip).city
  {
  }

  /** Once a fetch has stored the service's last location for a dog's zip code and
      loading is over, the card names that location's city. */
  lemma CardShowsFetchedCity(known: map<string, Location>, locs: seq<Location>, k: int)
    requires 0 <= k < |locs| && LastForZip(locs, k)
    ensures LocationLabelFor(false, Lookup(Merge(known, locs), locs[k].zipCode), locs[k].zipCode)
         == CityName(locs[k].city)
  {
    MergeLastWins(known, locs, k);
  }

  class DogCard {
    const dog: Dog
    var isDialogOpen: bool

    constructor(dog: Dog)
      ensures this.dog == dog && !isDialogOpen
    {
      this.dog := dog;
      isDialogOpen := false;
    }

    /** handleFavoriteToggle: removes the dog by id when it is a favorite, adds it
        otherwise. */
    method HandleFavoriteToggle(store: FavoritesStore)
      modifies store
      ensures store.favorites == ToggleFavorite(old(store.favorites), dog)
      ensures store.IsFavorite(dog.id) == !old(store.IsFavorite(dog.id))
    {
      if store.IsFavorite(dog.id) {
        store.RemoveFavorite(dog.id);
      } else {
        store.AddFavorite(dog);
      }
    }

    /** toggleDialog. */
    method ToggleDialog()
      modifies this`isDialogOpen
      ensures isDialogOpen == !old(isDialogOpen)
    {
      isDialogOpen := !isDialogOpen;
    }
  }
}
