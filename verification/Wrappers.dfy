/** Definitions every part of the model shares. */
module Wrappers {
  datatype Option<+T> = None | Some(value: T)

  /** The length of a market window in milliseconds. */
  const WINDOW_MS := 180_000

  /** Some element of a non-empty set. */
  lemma Member<T>(s: set<T>) returns (x: T)
    requires s != {}
    ensures x in s
  {
    x :| x in s;
  }
}
