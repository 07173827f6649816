/** Failure-compatible result types shared by the modules of this model. */
module Wrappers {

  datatype Option<+T> = None | Some(value: T)

  /** A computation that either yields a value or fails the way the Python code raises. */
  datatype Result<+T, +E> = Ok(value: T) | Err(error: E) {
    predicate IsFailure() {
      Err?
    }

    function PropagateFailure<U>(): Result<U, E>
      requires Err?
    {
      Err(error)
    }

    function Extract(): T
      requires Ok?
    {
      value
    }
  }

  /** No element occurs twice in `s`. */
  predicate NoDups<T(==)>(s: seq<T>) {
    forall i, j :: 0 <= i < j < |s| ==> s[i] != s[j]
  }

  /** `xs` lists the elements of `s`, each once: one iteration order of a Python set. */
  predicate IsListing<T(==)>(xs: seq<T>, s: set<T>) {
    NoDups(xs) && (forall x | x in xs :: x in s) && (forall x | x in s :: x in xs)
  }

  /** A list in which the elements of a set each appear once, in an unspecified order. */
  method ListSet<T>(s: set<T>) returns (xs: seq<T>)
    ensures IsListing(xs, s)
  {
    xs := [];
    var todo := s;
    while todo != {}
      invariant NoDups(xs)
      invariant forall x | x in xs :: x in s && x !in todo
      invariant forall x | x in s :: x in xs || x in todo
      invariant todo <= s
      decreases |todo|
    {
      var x :| x in todo;
      xs := xs + [x];
      todo := todo - {x};
    }
  }
}
