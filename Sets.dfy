/** Iteration over a `java.util.HashSet`, whose order the model leaves open. */
module Sets {

  /** Some member of a non-empty set: the next one an iterator hands out. */
  method Pick<T>(s: set<T>) returns (x: T)
    requires s != {}
    ensures x in s
  {
    x :| x in s;
  }
}
