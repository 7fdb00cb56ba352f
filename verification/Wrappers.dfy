/** Small datatypes and facts shared by every part of the model. */
module Wrappers {

  datatype Option<+T> = None | Some(value: T)

  /** Some element of a set. */
  method Choose<T(==)>(s: set<T>) returns (x: T)
    requires s != {}
    ensures x in s
  {
    x :| x in s;
  }

  lemma SomeElement<T>(s: set<T>) returns (x: T)
    requires s != {}
    ensures x in s
  {
    x :| x in s;
  }
}
