/** Sums over the elements of a sequence, how one update or one new element changes them, and selections. */
module Counting {
  function Sum<T>(xs: seq<T>, f: T -> nat): nat {
    if xs == [] then 0 else Sum(xs[..|xs| - 1], f) + f(xs[|xs| - 1])
  }

  lemma {:induction false} SumAppend<T>(xs: seq<T>, x: T, f: T -> nat)
    ensures Sum(xs + [x], f) == Sum(xs, f) + f(x)
  {
    assert (xs + [x])[..|xs|] == xs;
  }

  lemma {:induction false} SumUpdate<T>(xs: seq<T>, i: nat, x: T, f: T -> nat)
    requires i < |xs|
    ensures Sum(xs[i := x], f) + f(xs[i]) == Sum(xs, f) + f(x)
  {
    var n := |xs| - 1;
    if i == n {
      assert xs[i := x][..n] == xs[..n];
    } else {
      assert xs[i := x][..n] == xs[..n][i := x];
      SumUpdate(xs[..n], i, x, f);
    }
  }

  lemma {:induction false} SumAtMost<T>(xs: seq<T>, f: T -> nat, g: T -> nat)
    requires forall x :: x in xs ==> f(x) <= g(x)
    ensures Sum(xs, f) <= Sum(xs, g)
  {
    if xs == [] {
    } else {
      SumAtMost(xs[..|xs| - 1], f, g);
    }
  }

  lemma {:induction false} SumSplits<T>(xs: seq<T>, f: T -> nat, g: T -> nat, h: T -> nat)
    requires forall x :: x in xs ==> f(x) == g(x) + h(x)
    ensures Sum(xs, f) == Sum(xs, g) + Sum(xs, h)
  {
    if xs == [] {
    } else {
      SumSplits(xs[..|xs| - 1], f, g, h);
    }
  }

  lemma {:induction false} SumPointwise<T>(xs: seq<T>, ys: seq<T>, f: T -> nat, g: T -> nat, k: nat)
    requires |xs| == |ys| && forall i :: 0 <= i < |xs| ==> f(ys[i]) <= f(xs[i]) + k * g(xs[i])
    ensures Sum(ys, f) <= Sum(xs, f) + k * Sum(xs, g)
  {
    if xs == [] {
    } else {
      var n := |xs| - 1;
      SumPointwise(xs[..n], ys[..n], f, g, k);
      Distribute(k, Sum(xs[..n], g), g(xs[n]));
    }
  }

  lemma Distribute(k: nat, x: nat, y: nat)
    ensures k * (x + y) == k * x + k * y
  {
  }

  lemma {:induction false} SumPositive<T>(xs: seq<T>, f: T -> nat)
    ensures Sum(xs, f) > 0 <==> exists i :: 0 <= i < |xs| && f(xs[i]) > 0
  {
    if xs == [] {
    } else {
      var n := |xs| - 1;
      SumPositive(xs[..n], f);
      if Sum(xs[..n], f) > 0 {
        var i :| 0 <= i < n && f(xs[..n][i]) > 0;
        assert f(xs[i]) > 0;
      }
      forall i | 0 <= i < |xs| && f(xs[i]) > 0 ensures Sum(xs, f) > 0 {
        if i < n {
          assert xs[..n][i] == xs[i];
        }
      }
    }
  }

  // ----- Selections -----

  function Select<T>(xs: seq<T>, p: T -> bool): seq<T> {
    if xs == [] then [] else Select(xs[..|xs| - 1], p) + (if p(xs[|xs| - 1]) then [xs[|xs| - 1]] else [])
  }

  lemma {:induction false} SelectAppend<T>(xs: seq<T>, x: T, p: T -> bool)
    ensures Select(xs + [x], p) == Select(xs, p) + (if p(x) then [x] else [])
  {
    assert (xs + [x])[..|xs|] == xs;
  }

  lemma {:induction false} SelectConcat<T>(xs: seq<T>, ys: seq<T>, p: T -> bool)
    ensures Select(xs + ys, p) == Select(xs, p) + Select(ys, p)
  {
    if ys == [] {
      assert xs + ys == xs;
    } else {
      var n := |ys| - 1;
      SelectConcat(xs, ys[..n], p);
      assert (xs + ys)[..|xs| + n] == xs + ys[..n];
    }
  }

  lemma {:induction false} SelectIsPart<T>(xs: seq<T>, p: T -> bool)
    ensures forall x :: x in Select(xs, p) ==> x in xs && p(x)
  {
    if xs == [] {
    } else {
      SelectIsPart(xs[..|xs| - 1], p);
    }
  }

  lemma {:induction false} SelectNone<T>(xs: seq<T>, p: T -> bool)
    requires forall x :: x in xs ==> !p(x)
    ensures Select(xs, p) == []
  {
    if xs == [] {
    } else {
      SelectNone(xs[..|xs| - 1], p);
    }
  }
}
