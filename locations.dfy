/** The location cache: a map from zip code to location, filled on demand by asking
    the service only for the zip codes it does not hold yet. */
module LocationContext {
  import opened Types

  /** `zipCodes.filter(zip => !locations[zip])`: the zip codes still unknown, in input
      order (repeats included). */
  function Missing(known: map<string, Location>, zips: seq<string>): (r: seq<string>)
    ensures forall z :: z in r <==> z in zips && z !in known
    ensures |r| <= |zips|
  {
    if zips == [] then []
    else
      assert zips == [zips[0]] + zips[1..];
      var rest := Missing(known, zips[1..]);
      if zips[0] in known then rest else [zips[0]] + rest
  }

  /** The filter keeps input order and repeats: it distributes over concatenation. */
  lemma {:induction false} MissingAppend(known: map<string, Location>, a: seq<string>, b: seq<string>)
    ensures Missing(known, a + b) == Missing(known, a) + Missing(known, b)
  {
    if a == [] {
      assert a + b == b;
    } else {
      assert (a + b)[1..] == a[1..] + b;
      MissingAppend(known, a[1..], b);
    }
  }

  /** A single zip code is requested exactly when it is not cached. */
  lemma MissingSingle(known: map<string, Location>, z: string)
    ensures Missing(known, [z]) == if z in known then [] else [z]
  {
    assert [z][1..] == [];
  }

  /** Nothing is missing exactly when every requested zip code is cached. */
  lemma NothingMissing(known: map<string, Location>, zips: seq<string>)
    ensures Missing(known, zips) == [] <==> forall z :: z in zips ==> z in known
  {
    var r := Missing(known, zips);
    if r != [] {
      assert r[0] in r;
    }
  }

  /** `locs[k]` is the last entry of `locs` for its zip code. */
  predicate LastForZip(locs: seq<Location>, k: int)
    requires 0 <= k < |locs|
  {
    forall j :: k < j < |locs| ==> locs[j].zipCode != locs[k].zipCode
  }

  /** The cache after storing each returned location under its zip code, in order. */
  function Merge(known: map<string, Location>, locs: seq<Location>): (r: map<string, Location>)
    ensures known.Keys <= r.Keys
  {
    if locs == [] then known
    else
      var n := |locs| - 1;
      Merge(known, locs[..n])[locs[n].zipCode := locs[n]]
  }

  /** The zip codes a merge adds are exactly those of the returned locations. */
  lemma {:induction false} MergeKeys(known: map<string, Location>, locs: seq<Location>)
    ensures Merge(known, locs).Keys == known.Keys + set l: Location | l in locs :: l.zipCode
  {
    if locs != [] {
      var n := |locs| - 1;
      assert locs == locs[..n] + [locs[n]];
      MergeKeys(known, locs[..n]);
    }
  }

  /** Every returned location is stored under its zip code; when the service returns
      several for one zip code, the last one wins. */
  lemma {:induction false} MergeLastWins(known: map<string, Location>, locs: seq<Location>, k: int)
    requires 0 <= k < |locs| && LastForZip(locs, k)
    ensures locs[k].zipCode in Merge(known, locs)
    ensures Merge(known, locs)[locs[k].zipCode] == locs[k]
  {
    var n := |locs| - 1;
    if k < n {
      assert LastForZip(locs[..n], k);
      MergeLastWins(known, locs[..n], k);
    }
  }

  /** Entries for zip codes the response does not mention are kept as they were. */
  lemma {:induction false} MergeKeepsUnmentioned(known: map<string, Location>, locs: seq<Location>, z: string)
    requires z in known
    requires forall l :: l in locs ==> l.zipCode != z
    ensures z in Merge(known, locs) && Merge(known, locs)[z] == known[z]
  {
    if locs != [] {
      var n := |locs| - 1;
      assert forall l :: l in locs[..n] ==> l in locs;
      MergeKeepsUnmentioned(known, locs[..n], z);
    }
  }

  /** `locations[zip]` as an optional value. */
  function Lookup(known: map<string, Location>, zip: string): (r: Option<Location>)
    ensures r.Some? <==> zip in known
    ensures r.Some? ==> r.value == known[zip]
  {
    if zip in known then Some(known[zip]) else None
  }

  /** Read-through is idempotent: once the service has answered for every missing zip
      code, asking again for the same zip codes requests nothing. */
  lemma FetchIsIdempotent(known: map<string, Location>, zips: seq<string>, locs: seq<Location>)
    requires forall z :: z in Missing(known, zips) ==> exists l :: l in locs && l.zipCode == z
    ensures Missing(Merge(known, locs), zips) == []
  {
    var after := Merge(known, locs);
    MergeKeys(known, locs);
    forall z | z in zips
      ensures z in after
    {
      if z !in known {
        assert z in Missing(known, zips);
        var l :| l in locs && l.zipCode == z;
      }
    }
    NothingMissing(after, zips);
  }

  class LocationCache {
    var locations: map<string, Location>
    var isLoading: bool

    constructor()
      ensures locations == map[] && !isLoading
    {
      locations := map[];
      isLoading := false;
    }

    /** getLocationByZip: a pure lookup, absent for an unknown zip code. */
    function GetLocationByZip(zip: string): (r: Option<Location>)
      reads this
      ensures r.Some? <==> zip in locations
      ensures r.Some? ==> r.value == locations[zip]
    {
      Lookup(locations, zip)
    }

    /** fetchLocations: requests the unknown zip codes only, if any; on an answer merges
        the returned locations into a copy of the map, on failure keeps the map. The
        loading flag is cleared after any call that issued a request and untouched by
        one that did not. */
    method FetchLocations(zips: seq<string>, response: Fetch<seq<Location>>) returns (request: seq<string>)
      modifies this
      ensures request == Missing(old(locations), zips)
      ensures request == [] ==> locations == old(locations) && isLoading == old(isLoading)
      ensures request != [] ==> !isLoading
      ensures request != [] && response.Ok? ==> locations == Merge(old(locations), response.data)
      ensures request != [] && response.Failed? ==> locations == old(locations)
    {
      request := Missing(locations, zips);
      if |request| == 0 {
        return;
      }
      isLoading := true;
      match response {
        case Ok(returned) =>
          var newLocations := locations;
          var i := 0;
          while i < |returned|
            invariant 0 <= i <= |returned|
            invariant newLocations == Merge(locations, returned[..i])
          {
            assert returned[..i + 1][..i] == returned[..i];
            newLocations := newLocations[returned[i].zipCode := returned[i]];
            i := i + 1;
          }
          assert returned[..|returned|] == returned;
          locations := newLocations;
        case Failed =>
      }
      isLoading := false;
    }
  }
}
