/** The favorites list: dogs in the order they were added, looked up by id. */
module FavoritesContext {
  import opened Types

  /** `favorites.some(dog => dog.id === id)`. */
  function HasId(s: seq<Dog>, id: string): (b: bool)
    ensures b <==> exists i :: 0 <= i < |s| && s[i].id == id
  {
    if s == [] then false
    else s[0].id == id || HasId(s[1..], id)
  }

  /** How many entries carry `id`. */
  function CountId(s: seq<Dog>, id: string): (n: nat)
    ensures n == 0 <==> !HasId(s, id)
    ensures n <= |s|
  {
    if s == [] then 0
    else (if s[0].id == id then 1 else 0) + CountId(s[1..], id)
  }

  /** `favorites.filter(dog => dog.id !== id)`: no entry with `id` is left and every
      other dog keeps its multiplicity. */
  function WithoutId(s: seq<Dog>, id: string): (r: seq<Dog>)
    ensures !HasId(r, id)
    ensures forall d: Dog :: d.id != id ==> multiset(r)[d] == multiset(s)[d]
    ensures |r| == |s| - CountId(s, id)
  {
    if s == [] then []
    else
      assert s == [s[0]] + s[1..];
      if s[0].id == id then WithoutId(s[1..], id) else [s[0]] + WithoutId(s[1..], id)
  }

  /** Removal distributes over concatenation, so the dogs that stay keep their order. */
  lemma {:induction false} WithoutIdAppend(s: seq<Dog>, t: seq<Dog>, id: string)
    ensures WithoutId(s + t, id) == WithoutId(s, id) + WithoutId(t, id)
  {
    if s == [] {
      assert s + t == t;
    } else {
      assert (s + t)[1..] == s[1..] + t;
      WithoutIdAppend(s[1..], t, id);
    }
  }

  /** Removing an id that is not there changes nothing. */
  lemma {:induction false} WithoutAbsentId(s: seq<Dog>, id: string)
    requires !HasId(s, id)
    ensures WithoutId(s, id) == s
  {
    if s != [] {
      WithoutAbsentId(s[1..], id);
    }
  }

  /** Removal by one id leaves membership of every other id as it was. */
  lemma {:induction false} WithoutIdKeepsOthers(s: seq<Dog>, id: string, other: string)
    requires other != id
    ensures HasId(WithoutId(s, id), other) == HasId(s, other)
  {
    if s != [] {
      WithoutIdKeepsOthers(s[1..], id, other);
    }
  }

  /** WithoutIdKeepsOthers for every other id at once. */
  lemma WithoutIdKeepsOthersAll(s: seq<Dog>, id: string)
    ensures forall other :: other != id ==> HasId(WithoutId(s, id), other) == HasId(s, other)
  {
    forall other | other != id
      ensures HasId(WithoutId(s, id), other) == HasId(s, other)
    {
      WithoutIdKeepsOthers(s, id, other);
    }
  }

  /** Membership in a concatenation is membership in either part. */
  lemma {:induction false} HasIdAppend(s: seq<Dog>, t: seq<Dog>, id: string)
    ensures HasId(s + t, id) == (HasId(s, id) || HasId(t, id))
  {
    if s == [] {
      assert s + t == t;
    } else {
      assert (s + t)[1..] == s[1..] + t;
      HasIdAppend(s[1..], t, id);
    }
  }

  /** HasIdAppend for every id at once. */
  lemma HasIdAppendAll(s: seq<Dog>, t: seq<Dog>)
    ensures forall id :: HasId(s + t, id) == (HasId(s, id) || HasId(t, id))
  {
    forall id ensures HasId(s + t, id) == (HasId(s, id) || HasId(t, id)) {
      HasIdAppend(s, t, id);
    }
  }

  class FavoritesStore {
    var favorites: seq<Dog>

    constructor()
      ensures favorites == []
    {
      favorites := [];
    }

    /** addFavorite: appends, without checking for an existing entry. */
    method AddFavorite(dog: Dog)
      modifies this
      ensures favorites == old(favorites) + [dog]
      ensures IsFavorite(dog.id)
      ensures CountId(favorites, dog.id) == CountId(old(favorites), dog.id) + 1
    {
      favorites := favorites + [dog];
      assert favorites[|favorites| - 1] == dog;
      CountAppend(old(favorites), [dog], dog.id);
    }

    /** removeFavorite: drops every entry with that id. */
    method RemoveFavorite(id: string)
      modifies this
      ensures favorites == WithoutId(old(favorites), id)
      ensures !IsFavorite(id)
    {
      favorites := WithoutId(favorites, id);
    }

    /** isFavorite: some entry carries the id. */
    function IsFavorite(id: string): (b: bool)
      reads this
      ensures b <==> exists i :: 0 <= i < |favorites| && favorites[i].id == id
    {
      HasId(favorites, id)
    }

    /** clearFavorites. */
    method ClearFavorites()
      modifies this
      ensures favorites == []
      ensures forall id :: !IsFavorite(id)
    {
      favorites := [];
    }

    /** setFavorites: replaces the whole list. */
    method SetFavorites(dogs: seq<Dog>)
      modifies this
      ensures favorites == dogs
    {
      favorites := dogs;
    }
  }

  lemma {:induction false} CountAppend(s: seq<Dog>, t: seq<Dog>, id: string)
    ensures CountId(s + t, id) == CountId(s, id) + CountId(t, id)
  {
    if s == [] {
      assert s + t == t;
    } else {
      assert (s + t)[1..] == s[1..] + t;
      CountAppend(s[1..], t, id);
    }
  }
}
