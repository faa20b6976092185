/** The one loop shape of the configuration translators: visit a list in order,
    translate every element, and abort on the first element that fails. */
module Traverse {
  import opened Wrappers

  /** Translates every element of `xs` with `f`, in order; the first failure is the result. */
  function MapAll<X, Y, E>(xs: seq<X>, f: X -> Result<Y, E>): (r: Result<seq<Y>, E>)
    ensures r.Success? <==> forall i | 0 <= i < |xs| :: f(xs[i]).Success?
    ensures r.Success? ==> |r.value| == |xs| && forall i | 0 <= i < |xs| :: f(xs[i]) == Success(r.value[i])
    ensures r.Failure? ==>
      exists k | 0 <= k < |xs| :: f(xs[k]) == Failure(r.error) && forall j | 0 <= j < k :: f(xs[j]).Success?
  {
    if xs == [] then Success([])
    else
      match f(xs[0])
      case Failure(e) => Failure(e)
      case Success(y) =>
        match MapAll(xs[1..], f)
        case Failure(e) => Failure(e)
        case Success(ys) => Success([y] + ys)
  }

  /** The failure MapAll reports is the one of the first element that fails. */
  lemma MapAllFirstFailure<X, Y, E>(xs: seq<X>, f: X -> Result<Y, E>, k: nat)
    requires k < |xs| && f(xs[k]).Failure?
    requires forall j | 0 <= j < k :: f(xs[j]).Success?
    ensures MapAll(xs, f) == Failure(f(xs[k]).error)
  {
    var r := MapAll(xs, f);
    assert r.Failure?;
    var k' :| 0 <= k' < |xs| && f(xs[k']) == Failure(r.error) && forall j | 0 <= j < k' :: f(xs[j]).Success?;
    if k < k' {
      assert false;
    }
  }

  /** When every element succeeds, MapAll collects exactly the translated values, in order. */
  lemma MapAllAllSucceed<X, Y, E>(xs: seq<X>, f: X -> Result<Y, E>, ys: seq<Y>)
    requires |ys| == |xs|
    requires forall i | 0 <= i < |xs| :: f(xs[i]) == Success(ys[i])
    ensures MapAll(xs, f) == Success(ys)
  {
    var r := MapAll(xs, f);
    assert r.Success? by {
      forall i | 0 <= i < |xs| ensures f(xs[i]).Success? { assert f(xs[i]) == Success(ys[i]); }
    }
    assert r.value == ys by {
      forall i | 0 <= i < |xs| ensures r.value[i] == ys[i] {
        assert f(xs[i]) == Success(ys[i]);
      }
    }
  }

  /** Two traversals whose steps agree pointwise give the same result. */
  lemma {:induction false} MapAllPointwise<X, X', Y, E>(xs: seq<X>, f: X -> Result<Y, E>, xs': seq<X'>, f': X' -> Result<Y, E>)
    requires |xs| == |xs'|
    requires forall i | 0 <= i < |xs| :: f(xs[i]) == f'(xs'[i])
    ensures MapAll(xs, f) == MapAll(xs', f')
  {
    if xs != [] {
      assert f(xs[0]) == f'(xs'[0]);
      MapAllPointwise(xs[1..], f, xs'[1..], f');
    }
  }
}
