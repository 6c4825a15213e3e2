/** Optional values (Kotlin's nullable results) and a choice from a set. */
module Wrappers {

  datatype Option<+T> = None | Some(value: T)

  /** Chooses an element of a non-empty set, as iterating over it would. */
  method Pick<T>(s: set<T>) returns (x: T)
    requires s != {}
    ensures x in s
  {
    x :| x in s;
  }
}
