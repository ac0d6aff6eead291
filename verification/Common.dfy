/** Values shared by every part of the model. */
module Common {

  datatype Option<+T> = None | Some(value: T)

  /** Sums a real-valued measure over a sequence. */
  function Sum<T>(xs: seq<T>, f: T -> real): real {
    if xs == [] then 0.0 else f(xs[0]) + Sum(xs[1..], f)
  }

  lemma {:induction false} SumConcat<T>(xs: seq<T>, ys: seq<T>, f: T -> real)
    ensures Sum(xs + ys, f) == Sum(xs, f) + Sum(ys, f)
  {
    if xs == [] {
      assert xs + ys == ys;
    } else {
      assert (xs + ys)[1..] == xs[1..] + ys;
      SumConcat(xs[1..], ys, f);
    }
  }

  /** Sums of two measures combine to the sums of their difference and of their total. */
  lemma {:induction false} SumCombines<T>(xs: seq<T>, f: T -> real, g: T -> real, net: T -> real, gross: T -> real)
    requires forall x :: net(x) == f(x) - g(x) && gross(x) == f(x) + g(x)
    ensures Sum(xs, net) == Sum(xs, f) - Sum(xs, g) && Sum(xs, gross) == Sum(xs, f) + Sum(xs, g)
  {
    if xs != [] { SumCombines(xs[1..], f, g, net, gross); }
  }
}
