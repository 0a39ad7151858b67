/** Shared value types, and a way to go through a set. */
module Prelude {

  datatype Option<+T> = None | Some(value: T)

  datatype Result<+T, +E> = Ok(value: T) | Err(error: E)

  /** The elements of a set, each once, in some order. */
  method Enumerate<T(==)>(elements: set<T>) returns (list: seq<T>)
    ensures forall x :: x in list <==> x in elements
    ensures forall i, j :: 0 <= i < j < |list| ==> list[i] != list[j]
  {
    list := [];
    var todo := elements;
    while todo != {}
      invariant forall x :: x in elements <==> x in todo || x in list
      invariant forall x :: x in todo ==> x !in list
      invariant forall i, j :: 0 <= i < j < |list| ==> list[i] != list[j]
      decreases |todo|
    {
      var x :| x in todo;
      list, todo := list + [x], todo - {x};
    }
  }
}
