/** Sums over sequences, used to count where every job is and how much work is left. */
module Bags {

  function Total<T>(xs: seq<T>, f: T -> nat): nat {
    if xs == [] then 0 else f(xs[0]) + Total(xs[1..], f)
  }

  lemma {:induction false} TotalConcat<T>(xs: seq<T>, ys: seq<T>, f: T -> nat)
    ensures Total(xs + ys, f) == Total(xs, f) + Total(ys, f)
  {
    if xs == [] {
      assert xs + ys == ys;
    } else {
      TotalConcat(xs[1..], ys, f);
      assert (xs + ys)[1..] == xs[1..] + ys;
    }
  }

  lemma TotalAppend<T>(xs: seq<T>, x: T, f: T -> nat)
    ensures Total(xs + [x], f) == Total(xs, f) + f(x)
  {
    TotalConcat(xs, [x], f);
    assert [x][1..] == [];
  }

  function Without<T>(xs: seq<T>, k: nat): seq<T>
    requires k < |xs|
  {
    xs[..k] + xs[k + 1..]
  }

  lemma TotalWithout<T>(xs: seq<T>, k: nat, f: T -> nat)
    requires k < |xs|
    ensures Total(xs, f) == f(xs[k]) + Total(Without(xs, k), f)
  {
    TotalConcat(xs[..k], xs[k..], f);
    TotalConcat(xs[..k], xs[k + 1..], f);
    assert xs == xs[..k] + xs[k..] && xs[k..][1..] == xs[k + 1..];
  }

  lemma TotalMember<T>(xs: seq<T>, x: T, f: T -> nat)
    requires x in xs
    ensures f(x) <= Total(xs, f)
  {
  }

  lemma {:induction false} TotalWitness<T>(xs: seq<T>, f: T -> nat) returns (x: T)
    requires Total(xs, f) > 0
    ensures x in xs && f(x) > 0
  {
    if f(xs[0]) > 0 {
      x := xs[0];
    } else {
      x := TotalWitness(xs[1..], f);
    }
  }
}
