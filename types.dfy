/** Data shapes shared by the client: the fields of the service's records that the
    client logic reads, request parameters, and the outcome of a network call. */
module Types {

  datatype Option<+T> = None | Some(value: T)

  /** The outcome of one call to the remote service: its data, or a rejected promise. */
  datatype Fetch<+T> = Ok(data: T) | Failed

  /** A dog record as the service returns it (the image URL is left out). */
  datatype Dog = Dog(id: string, name: string, breed: string, age: int, zipCode: string)

  /** A location record; latitude and longitude are not modelled. */
  datatype Location = Location(zipCode: string, city: string, state: string, county: string)

  /** A page of search results: ids in service order, the total match count and the
      optional next/previous page links. */
  datatype SearchResponse = SearchResponse(
    resultIds: seq<string>,
    total: int,
    next: Option<string>,
    prev: Option<string>)

  /** The query sent to the search endpoint. Every request the client builds carries a
      size and a sort order; the other keys are optional. */
  datatype SearchParams = SearchParams(
    breeds: Option<seq<string>>,
    ageMin: Option<int>,
    ageMax: Option<int>,
    size: int,
    sort: string,
    from: Option<string>)

  /** The session's age-bound text: the empty string, or the decimal text of a number. */
  datatype AgeText = Blank | Years(n: int)

  /** JavaScript truthiness of a `string | null`: present and not empty. */
  predicate Truthy(s: Option<string>) {
    s.Some? && s.value != ""
  }

  /** The zip codes of a list of dogs, in the same order. */
  function ZipCodes(dogs: seq<Dog>): (zips: seq<string>)
    ensures |zips| == |dogs|
    ensures forall i :: 0 <= i < |dogs| ==> zips[i] == dogs[i].zipCode
  {
    seq(|dogs|, i requires 0 <= i < |dogs| => dogs[i].zipCode)
  }

  /** The ids of a list of dogs, in the same order. */
  function Ids(dogs: seq<Dog>): (ids: seq<string>)
    ensures |ids| == |dogs|
    ensures forall i :: 0 <= i < |dogs| ==> ids[i] == dogs[i].id
  {
    seq(|dogs|, i requires 0 <= i < |dogs| => dogs[i].id)
  }
}
