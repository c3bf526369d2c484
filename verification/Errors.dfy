/** How the results of a fan-out become one error. A nil error is None. */
module Errors {
  import opened Optional

  // A multierror.Error is Multi; Wrapped is any error that unwraps to another one.
  datatype Err = Plain(code: int) | Wrapped(inner: Err) | Multi(errs: seq<Err>)

  // errors.As with a *multierror.Error target: the first one along the chain of wrapped errors.
  function AsMulti(e: Err): Option<seq<Err>> {
    match e
    case Plain(_) => None
    case Wrapped(inner) => AsMulti(inner)
    case Multi(errs) => Some(errs)
  }

  // What multierror.Append takes from one argument: nothing from nil, the elements of a multierror, and otherwise
  // the error itself.
  function Elements(e: Option<Err>): seq<Err> {
    match e
    case None => []
    case Some(Multi(errs)) => errs
    case Some(single) => [single]
  }

  function ErrorOrNil(errs: seq<Err>): Option<Err> {
    if errs == [] then None else Some(Multi(errs))
  }

  function AccumulateErrors(prev: Option<Err>, curr: Option<Err>): Option<Err> {
    if prev.Some? && AsMulti(prev.value).Some? then
      ErrorOrNil(AsMulti(prev.value).value + Elements(curr))
    else
      ErrorOrNil(Elements(prev) + Elements(curr))
  }

  // slice.Reduce: a left fold that starts from nil.
  function Reduce(results: seq<Option<Err>>): Option<Err> {
    if results == [] then None
    else AccumulateErrors(Reduce(results[..|results| - 1]), results[|results| - 1])
  }

  // The elements of every result, in order.
  function Flatten(results: seq<Option<Err>>): seq<Err> {
    if results == [] then [] else Elements(results[0]) + Flatten(results[1..])
  }

  lemma {:induction false} FlattenAppend(results: seq<Option<Err>>, last: Option<Err>)
    ensures Flatten(results + [last]) == Flatten(results) + Elements(last)
  {
    if results == [] {
      assert (results + [last])[1..] == [];
    } else {
      assert (results + [last])[1..] == results[1..] + [last];
      FlattenAppend(results[1..], last);
    }
  }

  lemma AccumulateAppends(errs: seq<Err>, last: Option<Err>)
    ensures AccumulateErrors(ErrorOrNil(errs), last) == ErrorOrNil(errs + Elements(last))
  {
    if errs == [] {
      assert Elements(None) + Elements(last) == errs + Elements(last);
    } else {
      assert AsMulti(Multi(errs)) == Some(errs);
    }
  }

  /** The combined error holds the elements of all the results and nothing else, in order; it is nil if there are
      none. */
  lemma {:induction false} ReduceHoldsEveryError(results: seq<Option<Err>>)
    ensures Reduce(results) == ErrorOrNil(Flatten(results))
  {
    if results != [] {
      var earlier, last := results[..|results| - 1], results[|results| - 1];
      assert results == earlier + [last];
      ReduceHoldsEveryError(earlier);
      AccumulateAppends(Flatten(earlier), last);
      FlattenAppend(earlier, last);
    }
  }

  predicate Carries(e: Option<Err>) {
    e.Some? && e != Some(Multi([]))
  }

  lemma {:induction false} FlattenIsEmptyIff(results: seq<Option<Err>>)
    ensures Flatten(results) == [] <==> forall i :: 0 <= i < |results| ==> !Carries(results[i])
  {
    if results != [] {
      FlattenIsEmptyIff(results[1..]);
      assert Elements(results[0]) == [] <==> !Carries(results[0]);
      assert forall i :: 0 <= i < |results| ==> i == 0 || results[i] == results[1..][i - 1];
    }
  }

  /** The combined error is nil exactly if every result is nil or a multierror without elements. */
  lemma ReduceIsNilIff(results: seq<Option<Err>>)
    ensures Reduce(results).None? <==> forall i :: 0 <= i < |results| ==> !Carries(results[i])
  {
    ReduceHoldsEveryError(results);
    FlattenIsEmptyIff(results);
  }

  lemma {:induction false} FlattenConcat(a: seq<Option<Err>>, b: seq<Option<Err>>)
    ensures Flatten(a + b) == Flatten(a) + Flatten(b)
  {
    if a == [] {
      assert a + b == b;
    } else {
      assert (a + b)[1..] == a[1..] + b;
      FlattenConcat(a[1..], b);
    }
  }

  lemma FlattenAround(a: seq<Option<Err>>, e: Option<Err>, b: seq<Option<Err>>)
    ensures Flatten(a + [e] + b) == Flatten(a) + Elements(e) + Flatten(b)
  {
    FlattenAppend(a, e);
    FlattenConcat(a + [e], b);
  }

  /** Every result is in the combined error, in its place: a multierror with each of its own errors, any other error,
      wrapped or not, as it is. */
  lemma EveryResultIsHeld(before: seq<Option<Err>>, e: Err, after: seq<Option<Err>>)
    requires e != Multi([])
    ensures Reduce(before + [Some(e)] + after) ==
      Some(Multi(Flatten(before) + (if e.Multi? then e.errs else [e]) + Flatten(after)))
  {
    ReduceHoldsEveryError(before + [Some(e)] + after);
    FlattenAround(before, Some(e), after);
    assert Elements(Some(e)) == (if e.Multi? then e.errs else [e]) != [];
  }

  // The error is this result, or one of the errors of this multierror.
  predicate ComesFrom(x: Err, e: Option<Err>) {
    e.Some? && if e.value.Multi? then x in e.value.errs else x == e.value
  }

  /** The errors of the combined one are exactly those of the results. */
  lemma {:induction false} HeldErrorsComeFrom(results: seq<Option<Err>>, x: Err)
    ensures x in Flatten(results) <==> exists i :: 0 <= i < |results| && ComesFrom(x, results[i])
  {
    if results != [] {
      HeldErrorsComeFrom(results[1..], x);
      assert x in Elements(results[0]) <==> ComesFrom(x, results[0]);
      assert forall i :: 1 <= i < |results| ==> results[i] == results[1..][i - 1];
      assert forall i :: 0 <= i < |results| - 1 ==> results[1..][i] == results[i + 1];
    }
  }

  /** What is accumulated onto a wrapped multierror is accumulated onto that multierror; any other wrapped error stays
      whole. */
  lemma AccumulateOntoWrapped(inner: Err, curr: Option<Err>)
    ensures AsMulti(inner).Some? ==>
      AccumulateErrors(Some(Wrapped(inner)), curr) == AccumulateErrors(Some(inner), curr)
    ensures AsMulti(inner).None? ==>
      AccumulateErrors(Some(Wrapped(inner)), curr) == Some(Multi([Wrapped(inner)] + Elements(curr)))
  {
  }

  // A call either returns or panics.
  datatype Outcome = Returned(err: Option<Err>) | Panicked

  function ErrorsOf(outcomes: seq<Outcome>): (results: seq<Option<Err>>)
    ensures |results| == |outcomes|
  {
    seq(|outcomes|, i requires 0 <= i < |outcomes| => if outcomes[i].Returned? then outcomes[i].err else None)
  }

  // A fan-out panics if one of its calls does, and otherwise returns their combined error.
  function Combine(outcomes: seq<Outcome>): Outcome {
    if Panicked in outcomes then Panicked else Returned(Reduce(ErrorsOf(outcomes)))
  }

  predicate AllNil(outcomes: seq<Outcome>) {
    forall i :: 0 <= i < |outcomes| ==> outcomes[i] == Returned(None)
  }

  lemma CombineIsNilIff(outcomes: seq<Outcome>)
    requires forall i :: 0 <= i < |outcomes| ==> outcomes[i] != Returned(Some(Multi([])))
    ensures Combine(outcomes) == Returned(None) <==> AllNil(outcomes)
  {
    var results := ErrorsOf(outcomes);
    ReduceIsNilIff(results);
    if Panicked !in outcomes {
      forall i | 0 <= i < |outcomes|
        ensures !Carries(results[i]) <==> outcomes[i] == Returned(None)
      {
        assert outcomes[i] in outcomes;
      }
    }
  }
}
