module Wrappers {
  datatype Option<+T> = None | Some(value: T)

  /** One value as a bag, or none as the empty bag. */
  function Bag<T>(o: Option<T>): multiset<T> {
    if o.Some? then multiset{o.value} else multiset{}
  }

  function Max(a: int, b: int): int { if a < b then b else a }
}
