/** Optional values, and outcomes that carry a value or an error. */
module Wrappers {

  datatype Option<+T> = None | Some(value: T) {
    function UnwrapOr(default: T): T {
      match this
      case None => default
      case Some(v) => v
    }
  }

  datatype Result<+T, +E> = Ok(value: T) | Err(error: E)
}

/** The order a sorted map or set is walked in, left open. */
module Orders {

  type Order = set<string> -> seq<string>

  /** Every element once. */
  ghost predicate Lists(walk: seq<string>, all: set<string>) {
    (forall k :: k in walk <==> k in all) && forall i, j :: 0 <= i < j < |walk| ==> walk[i] != walk[j]
  }

  ghost predicate IsOrder(order: Order) {
    forall all :: Lists(order(all), all)
  }
}
