/** The loop shape that recurs in the service layer: walk a slice in order,
    convert each element, and return `(nil, err)` at the first failing element. */
module Traverse {
  import opened Common

  /** `f` applied to every element of `xs` in order, or the first error it gives. */
  function MapUntilErr<A, B>(xs: seq<A>, f: A -> Result<B>): (r: Result<seq<B>>)
    ensures r.Ok? ==> |r.value| == |xs|
  {
    if xs == [] then Ok([])
    else
      match MapUntilErr(xs[..|xs| - 1], f)
      case Err(e) => Err(e)
      case Ok(init) =>
        match f(xs[|xs| - 1])
        case Err(e) => Err(e)
        case Ok(y) => Ok(init + [y])
  }

  /** One more loop iteration: extending the prefix by the next element. */
  lemma MapUntilErrStep<A, B>(xs: seq<A>, i: nat, f: A -> Result<B>)
    requires i < |xs|
    ensures MapUntilErr(xs[..i + 1], f) ==
      match MapUntilErr(xs[..i], f)
      case Err(e) => Err(e)
      case Ok(init) => (match f(xs[i]) case Err(e) => Err(e) case Ok(y) => Ok(init + [y]))
  {
    assert xs[..i + 1][..i] == xs[..i];
  }

  /** Once a prefix fails, the whole traversal fails with the same error: the
      loop may return as soon as an element fails. */
  lemma {:induction false} MapUntilErrStops<A, B>(xs: seq<A>, k: nat, f: A -> Result<B>)
    requires k <= |xs| && MapUntilErr(xs[..k], f).Err?
    ensures MapUntilErr(xs, f) == MapUntilErr(xs[..k], f)
    decreases |xs| - k
  {
    if k < |xs| {
      MapUntilErrStep(xs, k, f);
      MapUntilErrStops(xs, k + 1, f);
    } else {
      assert xs[..k] == xs;
    }
  }

  /** The traversal succeeds exactly when every element converts, and then it
      holds each element's conversion at the element's position. */
  lemma {:induction false} MapUntilErrOk<A, B>(xs: seq<A>, f: A -> Result<B>)
    ensures MapUntilErr(xs, f).Ok? <==> forall i :: 0 <= i < |xs| ==> f(xs[i]).Ok?
    ensures MapUntilErr(xs, f).Ok? ==>
      forall i :: 0 <= i < |xs| ==> MapUntilErr(xs, f).value[i] == f(xs[i]).value
  {
    if xs != [] {
      var init := xs[..|xs| - 1];
      MapUntilErrOk(init, f);
      assert forall i :: 0 <= i < |init| ==> init[i] == xs[i];
    }
  }

  /** A failed traversal reports the error of the first element that fails. */
  lemma {:induction false} MapUntilErrFirstError<A, B>(xs: seq<A>, f: A -> Result<B>)
    requires MapUntilErr(xs, f).Err?
    ensures exists k :: 0 <= k < |xs| && f(xs[k]) == Err(MapUntilErr(xs, f).error)
                        && forall j :: 0 <= j < k ==> f(xs[j]).Ok?
  {
    var init := xs[..|xs| - 1];
    assert forall i :: 0 <= i < |init| ==> init[i] == xs[i];
    if MapUntilErr(init, f).Err? {
      MapUntilErrFirstError(init, f);
      var k :| 0 <= k < |init| && f(init[k]) == Err(MapUntilErr(init, f).error)
               && forall j :: 0 <= j < k ==> f(init[j]).Ok?;
      assert f(xs[k]) == Err(MapUntilErr(xs, f).error);
    } else {
      MapUntilErrOk(init, f);
      assert f(xs[|xs| - 1]) == Err(MapUntilErr(xs, f).error);
    }
  }

  /** How many elements of `xs` satisfy `p`. */
  function CountWhere<A>(xs: seq<A>, p: A -> bool): (n: nat)
    ensures n <= |xs|
  {
    if xs == [] then 0
    else CountWhere(xs[..|xs| - 1], p) + (if p(xs[|xs| - 1]) then 1 else 0)
  }

  /** One more loop iteration of a counter. */
  lemma CountWhereStep<A>(xs: seq<A>, i: nat, p: A -> bool)
    requires i < |xs|
    ensures CountWhere(xs[..i + 1], p) == CountWhere(xs[..i], p) + (if p(xs[i]) then 1 else 0)
  {
    assert xs[..i + 1][..i] == xs[..i];
  }

  /** Two counters over disjoint conditions never exceed the length, and reach it
      exactly when every element satisfies one of them. */
  lemma {:induction false} CountDisjoint<A>(xs: seq<A>, p: A -> bool, q: A -> bool)
    requires forall x :: !(p(x) && q(x))
    ensures CountWhere(xs, p) + CountWhere(xs, q) <= |xs|
    ensures CountWhere(xs, p) + CountWhere(xs, q) == |xs| <==>
            forall i :: 0 <= i < |xs| ==> p(xs[i]) || q(xs[i])
  {
    if xs != [] {
      var init := xs[..|xs| - 1];
      CountDisjoint(init, p, q);
      assert forall i :: 0 <= i < |init| ==> init[i] == xs[i];
    }
  }
}
