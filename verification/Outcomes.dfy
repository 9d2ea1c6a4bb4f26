/** Small types and predicates that several models share. */
module Outcomes {

  datatype Option<+T> = None | Some(value: T)

  ghost predicate Increasing(xs: seq<int>) {
    forall i, j :: 0 <= i < j < |xs| ==> xs[i] < xs[j]
  }

  /** Some member of a set that has one. */
  ghost function Any<T>(s: set<T>): (x: T)
    requires s != {}
    ensures x in s
  {
    var x :| x in s;
    x
  }

  /** The result of an analysis; `Rejected` stands for a raised `AnalyzerError`, whatever its message. */
  datatype Outcome<+T> = Ok(value: T) | Rejected {

    predicate IsFailure() {
      Rejected?
    }

    function PropagateFailure<U>(): Outcome<U>
      requires Rejected?
    {
      Rejected
    }

    function Extract(): T
      requires Ok?
    {
      value
    }
  }
}
