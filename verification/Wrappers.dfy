/** The option and result types shared by the modules, and the size of a subset. */
module Wrappers {

  datatype Option<+T> = None | Some(value: T)

  /** A call that either returns a value or one of the source's errors. */
  datatype Result<+T> = Success(value: T) | Failure

  lemma {:induction false} SubsetSize<T>(a: set<T>, b: set<T>)
    requires a <= b
    ensures |a| <= |b|
    decreases |a|
  {
    if a != {} {
      var x :| x in a;
      SubsetSize(a - {x}, b - {x});
    }
  }
}
