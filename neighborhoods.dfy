/** `getNeighborhoodsList` (ES6_basic/2-arrow.js): a constructor whose
    object owns an array of San Francisco neighbourhoods and an
    `addNeighborhood` arrow function that pushes onto it and returns it. */
module Neighborhoods {

  /** A JavaScript array: a mutable list shared by reference. */
  class JsArray<T> {
    var items: seq<T>

    constructor (items: seq<T>)
      ensures this.items == items
    {
      this.items := items;
    }

    /** `push(x)`. */
    method Push(x: T)
      modifies this
      ensures items == old(items) + [x]
    {
      items := items + [x];
    }
  }

  const InitialNeighborhoods: seq<string> := ["SOMA", "Union Square"]

  class NeighborhoodsList {
    const sanFranciscoNeighborhoods: JsArray<string>

    constructor ()
      ensures fresh(sanFranciscoNeighborhoods)
      ensures sanFranciscoNeighborhoods.items == InitialNeighborhoods
    {
      sanFranciscoNeighborhoods := new JsArray(InitialNeighborhoods);
    }

    /** Appends at the end, keeps every earlier name, and returns the
        object's own array rather than a copy. */
    method AddNeighborhood(newNeighborhood: string) returns (r: JsArray<string>)
      modifies sanFranciscoNeighborhoods
      ensures r == sanFranciscoNeighborhoods
      ensures r.items == old(sanFranciscoNeighborhoods.items) + [newNeighborhood]
    {
      sanFranciscoNeighborhoods.Push(newNeighborhood);
      return sanFranciscoNeighborhoods;
    }
  }
}
