/** Sums of a measure over a sequence. */
module Sums {
  function Sum<A>(f: A -> nat, xs: seq<A>): nat
  {
    if xs == [] then 0 else Sum(f, xs[..|xs| - 1]) + f(xs[|xs| - 1])
  }

  lemma SumAppend<A>(f: A -> nat, xs: seq<A>, x: A)
    ensures Sum(f, xs + [x]) == Sum(f, xs) + f(x)
  {
    assert (xs + [x])[..|xs|] == xs;
  }

  lemma SumOption<A>(f: A -> nat, xs: seq<A>, more: seq<A>)
    requires |more| <= 1
    ensures Sum(f, xs + more) == Sum(f, xs) + if more == [] then 0 else f(more[0])
  {
    if more == [] {
      assert xs + more == xs;
    } else {
      assert more == [more[0]];
      SumAppend(f, xs, more[0]);
    }
  }

  lemma {:induction false} SumConcat<A>(f: A -> nat, xs: seq<A>, ys: seq<A>)
    ensures Sum(f, xs + ys) == Sum(f, xs) + Sum(f, ys)
  {
    if ys == [] {
      assert xs + ys == xs;
    } else {
      var last := |ys| - 1;
      assert xs + ys == (xs + ys[..last]) + [ys[last]];
      SumAppend(f, xs + ys[..last], ys[last]);
      SumConcat(f, xs, ys[..last]);
    }
  }

  lemma {:induction false} SumUpdate<A>(f: A -> nat, xs: seq<A>, i: nat, x: A)
    requires i < |xs|
    ensures Sum(f, xs[i := x]) == Sum(f, xs) - f(xs[i]) + f(x)
  {
    var last := |xs| - 1;
    if i == last {
      assert xs[i := x][..last] == xs[..last];
    } else {
      assert xs[i := x][..last] == xs[..last][i := x];
      SumUpdate(f, xs[..last], i, x);
    }
  }

  lemma {:induction false} SumZero<A>(f: A -> nat, xs: seq<A>)
    requires forall i :: 0 <= i < |xs| ==> f(xs[i]) == 0
    ensures Sum(f, xs) == 0
  {
    if xs != [] {
      SumZero(f, xs[..|xs| - 1]);
    }
  }

  lemma {:induction false} SumAtLeast<A>(f: A -> nat, xs: seq<A>, i: nat)
    requires i < |xs|
    ensures Sum(f, xs) >= f(xs[i])
  {
    if i < |xs| - 1 {
      SumAtLeast(f, xs[..|xs| - 1], i);
    }
  }

  lemma SumZeroIff<A>(f: A -> nat, xs: seq<A>)
    ensures Sum(f, xs) == 0 <==> forall i :: 0 <= i < |xs| ==> f(xs[i]) == 0
  {
    if i :| 0 <= i < |xs| && f(xs[i]) != 0 {
      SumAtLeast(f, xs, i);
    } else {
      SumZero(f, xs);
    }
  }

  /** Two different positions contribute separately. */
  lemma {:induction false} SumAtLeastTwo<A>(f: A -> nat, xs: seq<A>, i: nat, j: nat)
    requires i < j < |xs|
    ensures Sum(f, xs) >= f(xs[i]) + f(xs[j])
  {
    if j < |xs| - 1 {
      SumAtLeastTwo(f, xs[..|xs| - 1], i, j);
    } else {
      SumAtLeast(f, xs[..|xs| - 1], i);
    }
  }
}
