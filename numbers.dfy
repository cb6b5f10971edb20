/** Sums, means and threshold filters over real-valued scores. */
module Numbers {
  /** sum(xs), accumulated from the left as a loop does. */
  function Sum(xs: seq<real>): real {
    if xs == [] then 0.0 else Sum(xs[..|xs| - 1]) + xs[|xs| - 1]
  }

  /** sum(xs) / len(xs). */
  function Mean(xs: seq<real>): real
    requires xs != []
  {
    Sum(xs) / (|xs| as real)
  }

  /** [x for x in xs if x >= t], order kept. */
  function AtLeast(xs: seq<real>, t: real): (r: seq<real>)
    ensures |r| <= |xs|
    ensures forall i :: 0 <= i < |r| ==> r[i] >= t
  {
    if xs == [] then []
    else AtLeast(xs[..|xs| - 1], t) + (if xs[|xs| - 1] >= t then [xs[|xs| - 1]] else [])
  }

  predicate AllAtLeast(xs: seq<real>, lo: real) { forall i :: 0 <= i < |xs| ==> xs[i] >= lo }

  predicate AllAtMost(xs: seq<real>, hi: real) { forall i :: 0 <= i < |xs| ==> xs[i] <= hi }

  lemma {:induction false} SumAtLeast(xs: seq<real>, lo: real)
    requires AllAtLeast(xs, lo)
    ensures Sum(xs) >= lo * (|xs| as real)
  {
    if xs != [] {
      SumAtLeast(xs[..|xs| - 1], lo);
    }
  }

  lemma {:induction false} SumAtMost(xs: seq<real>, hi: real)
    requires AllAtMost(xs, hi)
    ensures Sum(xs) <= hi * (|xs| as real)
  {
    if xs != [] {
      SumAtMost(xs[..|xs| - 1], hi);
    }
  }

  /** A mean of values that are all at least lo is at least lo. */
  lemma MeanAtLeast(xs: seq<real>, lo: real)
    requires xs != [] && AllAtLeast(xs, lo)
    ensures Mean(xs) >= lo
  {
    SumAtLeast(xs, lo);
    var n := |xs| as real;
    assert Sum(xs) / n >= (lo * n) / n;
  }

  /** A mean of values that are all at most hi is at most hi. */
  lemma MeanAtMost(xs: seq<real>, hi: real)
    requires xs != [] && AllAtMost(xs, hi)
    ensures Mean(xs) <= hi
  {
    SumAtMost(xs, hi);
    var n := |xs| as real;
    assert Sum(xs) / n <= (hi * n) / n;
  }

  /** A value survives the filter exactly when it reaches the threshold. */
  lemma {:induction false} AtLeastMembers(xs: seq<real>, t: real)
    ensures forall x :: x in AtLeast(xs, t) <==> x in xs && x >= t
  {
    if xs != [] {
      AtLeastMembers(xs[..|xs| - 1], t);
      assert xs == xs[..|xs| - 1] + [xs[|xs| - 1]];
    }
  }

  /** Filtering is empty exactly when no value reaches the threshold. */
  lemma AtLeastEmpty(xs: seq<real>, t: real)
    ensures AtLeast(xs, t) == [] <==> forall i :: 0 <= i < |xs| ==> xs[i] < t
  {
    AtLeastMembers(xs, t);
    if AtLeast(xs, t) != [] {
      assert AtLeast(xs, t)[0] in AtLeast(xs, t);
    }
  }

  /** Nothing is filtered out exactly when every value reaches the threshold. */
  lemma {:induction false} AtLeastAll(xs: seq<real>, t: real)
    ensures |AtLeast(xs, t)| == |xs| <==> forall i :: 0 <= i < |xs| ==> xs[i] >= t
  {
    if xs != [] {
      var init := xs[..|xs| - 1];
      AtLeastAll(init, t);
      if forall i :: 0 <= i < |xs| ==> xs[i] >= t {
        assert forall i :: 0 <= i < |init| ==> init[i] >= t by {
          forall i | 0 <= i < |init| ensures init[i] >= t { assert init[i] == xs[i]; }
        }
      } else {
        var j :| 0 <= j < |xs| && xs[j] < t;
        assert |AtLeast(init, t)| <= |init|;
        if j < |init| {
          assert init[j] == xs[j];
          assert |AtLeast(init, t)| < |init|;
        }
        assert |AtLeast(xs, t)| < |xs|;
      }
    }
  }

  /** Filtering distributes over concatenation. */
  lemma {:induction false} AtLeastConcat(xs: seq<real>, ys: seq<real>, t: real)
    ensures AtLeast(xs + ys, t) == AtLeast(xs, t) + AtLeast(ys, t)
  {
    if ys == [] {
      assert xs + ys == xs;
    } else {
      var init := ys[..|ys| - 1];
      AtLeastConcat(xs, init, t);
      assert (xs + ys)[..|xs + ys| - 1] == xs + init;
      assert (xs + ys)[|xs + ys| - 1] == ys[|ys| - 1];
      assert AtLeast(xs + ys, t) == AtLeast(xs + init, t) + (if ys[|ys| - 1] >= t then [ys[|ys| - 1]] else []);
    }
  }
}
