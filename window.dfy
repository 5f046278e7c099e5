/** indicator/models.py, `_aggregate_averages`: daily moving averages over a sliding
  * window of the most recent non-zero answers. */
module Window {
  import opened Wrappers
  import opened Indicators

  function Sum(xs: seq<real>): real
  {
    if xs == [] then 0.0 else Sum(xs[..|xs| - 1]) + xs[|xs| - 1]
  }

  lemma SumAppend(xs: seq<real>, x: real)
    ensures Sum(xs + [x]) == Sum(xs) + x
  {
    assert (xs + [x])[..|xs|] == xs;
  }

  function Mean(xs: seq<real>): real
    requires |xs| > 0
  {
    Sum(xs) / |xs| as real
  }

  lemma {:induction false} SumBounds(xs: seq<real>, lo: real, hi: real)
    requires forall k :: 0 <= k < |xs| ==> lo <= xs[k] <= hi
    ensures |xs| as real * lo <= Sum(xs) <= |xs| as real * hi
  {
    if xs != [] {
      SumBounds(xs[..|xs| - 1], lo, hi);
    }
  }

  /** A mean lies between the smallest and the largest value averaged. */
  lemma MeanBounds(xs: seq<real>, lo: real, hi: real)
    requires |xs| > 0
    requires forall k :: 0 <= k < |xs| ==> lo <= xs[k] <= hi
    ensures lo <= Mean(xs) <= hi
  {
    SumBounds(xs, lo, hi);
    var n := |xs| as real;
    assert lo == (n * lo) / n && hi == (n * hi) / n;
  }

  /** The truthy answer values, in order: the ones the window ever sees. */
  function TruthyValues(answers: seq<Answer>): (r: seq<real>)
    ensures |r| <= |answers|
    ensures forall x :: x in r ==> x != 0.0
  {
    if answers == [] then []
    else
      var a := answers[|answers| - 1];
      TruthyValues(answers[..|answers| - 1]) + (if Truthy(a.num) then [a.num.value] else [])
  }

  /** The last n values of xs (all of them when there are fewer). */
  function LastN(xs: seq<real>, n: nat): (r: seq<real>)
    ensures |r| == if |xs| < n then |xs| else n
    ensures r == xs[|xs| - |r|..]
  {
    if |xs| <= n then xs else xs[|xs| - n..]
  }

  /** Appending to a full window drops its oldest value. */
  lemma LastNAppend(xs: seq<real>, x: real, n: nat)
    requires n > 0
    ensures var w := LastN(xs, n) + [x];
      LastN(xs + [x], n) == if |w| > n then w[1..] else w
  {
  }

  /** The map `_aggregate_averages` returns: each date of a truthy answer maps to the mean
    * of the last `size` truthy values up to that answer (the last such answer of the
    * date wins). */
  function MovingAverages(answers: seq<Answer>, size: nat): (m: map<Date, real>)
    requires size > 0
  {
    if answers == [] then map[]
    else
      var a := answers[|answers| - 1];
      var init := MovingAverages(answers[..|answers| - 1], size);
      if Truthy(a.num) then init[a.date := Mean(LastN(TruthyValues(answers), size))]
      else init
  }

  /** `_aggregate_averages`: a deque of at most `size` values slides over the truthy
    * answers; zero and missing values are skipped. A window size of 0 empties the window
    * and divides by zero at the first truthy answer. */
  method AggregateAverages(answers: seq<Answer>, size: nat) returns (r: Result<map<Date, real>>)
    ensures r.Err? <==> size == 0 && exists k :: 0 <= k < |answers| && Truthy(answers[k].num)
    ensures r.Err? ==> r.error == ZeroDivisionError
    ensures r.Ok? && size > 0 ==> r.value == MovingAverages(answers, size)
    ensures r.Ok? && size == 0 ==> r.value == map[]
  {
    var window: seq<real> := [];
    var avgs: map<Date, real> := map[];
    for i := 0 to |answers|
      invariant |window| <= size
      invariant size > 0 ==> window == LastN(TruthyValues(answers[..i]), size) && avgs == MovingAverages(answers[..i], size)
      invariant size == 0 ==> avgs == map[] && forall k :: 0 <= k < i ==> !Truthy(answers[k].num)
    {
      var a := answers[i];
      if size > 0 {
        WindowStep(answers, i, size);
      } else {
        assert answers[..i + 1][..i] == answers[..i];
      }
      if Truthy(a.num) {
        window := window + [a.num.value];
        if |window| > size {
          window := window[1..];
        }
        if |window| == 0 {
          return Err(ZeroDivisionError);
        }
        avgs := avgs[a.date := Sum(window) / |window| as real];
      }
    }
    assert answers[..|answers|] == answers;
    return Ok(avgs);
  }

  /** One iteration of the window loop, stated on the specification. */
  lemma WindowStep(answers: seq<Answer>, i: nat, size: nat)
    requires size > 0 && i < |answers|
    ensures var a := answers[i];
      var before := LastN(TruthyValues(answers[..i]), size);
      if Truthy(a.num) then
        LastN(TruthyValues(answers[..i + 1]), size) == (if |before + [a.num.value]| > size then (before + [a.num.value])[1..] else before + [a.num.value])
        && MovingAverages(answers[..i + 1], size) == MovingAverages(answers[..i], size)[a.date := Mean(LastN(TruthyValues(answers[..i + 1]), size))]
      else
        LastN(TruthyValues(answers[..i + 1]), size) == before
        && MovingAverages(answers[..i + 1], size) == MovingAverages(answers[..i], size)
  {
    var xs := answers[..i + 1];
    assert xs[..|xs| - 1] == answers[..i];
    assert xs[|xs| - 1] == answers[i];
    var a := answers[i];
    if Truthy(a.num) {
      assert TruthyValues(xs) == TruthyValues(answers[..i]) + [a.num.value];
      LastNAppend(TruthyValues(answers[..i]), a.num.value, size);
      assert MovingAverages(xs, size) == MovingAverages(answers[..i], size)[a.date := Mean(LastN(TruthyValues(xs), size))];
    } else {
      assert TruthyValues(xs) == TruthyValues(answers[..i]);
      assert MovingAverages(xs, size) == MovingAverages(answers[..i], size);
    }
  }

  /** The dates with an entry are exactly those of the truthy answers: a date whose
    * answers are all 0 or missing gets none. */
  lemma {:induction false} MovingAverageKeys(answers: seq<Answer>, size: nat)
    requires size > 0
    ensures forall d :: d in MovingAverages(answers, size) <==> exists k :: 0 <= k < |answers| && answers[k].date == d && Truthy(answers[k].num)
  {
    if answers != [] {
      var init := answers[..|answers| - 1];
      MovingAverageKeys(init, size);
      forall d | exists k :: 0 <= k < |answers| && answers[k].date == d && Truthy(answers[k].num)
        ensures d in MovingAverages(answers, size)
      {
        var k :| 0 <= k < |answers| && answers[k].date == d && Truthy(answers[k].num);
        if k < |init| {
          assert init[k] == answers[k];
        }
      }
      forall d | d in MovingAverages(answers, size)
        ensures exists k :: 0 <= k < |answers| && answers[k].date == d && Truthy(answers[k].num)
      {
        if d != answers[|answers| - 1].date || !Truthy(answers[|answers| - 1].num) {
          assert d in MovingAverages(init, size);
          var k :| 0 <= k < |init| && init[k].date == d && Truthy(init[k].num);
          assert answers[k] == init[k];
        }
      }
    }
  }

  /** The entry of a date is the mean of the last `size` truthy values up to and including
    * the date's last truthy answer. */
  lemma {:induction false} MovingAverageEntry(answers: seq<Answer>, size: nat, i: nat)
    requires size > 0 && i < |answers| && Truthy(answers[i].num)
    requires forall k :: i < k < |answers| && Truthy(answers[k].num) ==> answers[k].date != answers[i].date
    ensures |TruthyValues(answers[..i + 1])| > 0
    ensures answers[i].date in MovingAverages(answers, size)
    ensures MovingAverages(answers, size)[answers[i].date] == Mean(LastN(TruthyValues(answers[..i + 1]), size))
  {
    var init := answers[..|answers| - 1];
    if i == |answers| - 1 {
      assert answers[..i + 1] == answers;
    } else {
      assert init[..i + 1] == answers[..i + 1];
      MovingAverageEntry(init, size, i);
    }
  }

  /** Every moving average lies within the range of the truthy values. */
  lemma {:induction false} MovingAverageBounds(answers: seq<Answer>, size: nat, lo: real, hi: real)
    requires size > 0
    requires forall k :: 0 <= k < |answers| && Truthy(answers[k].num) ==> lo <= answers[k].num.value <= hi
    ensures forall d :: d in MovingAverages(answers, size) ==> lo <= MovingAverages(answers, size)[d] <= hi
  {
    if answers != [] {
      var init := answers[..|answers| - 1];
      MovingAverageBounds(init, size, lo, hi);
      TruthyValuesBounds(answers, lo, hi);
      var a := answers[|answers| - 1];
      if Truthy(a.num) {
        var last := LastN(TruthyValues(answers), size);
        assert forall k :: 0 <= k < |last| ==> last[k] in TruthyValues(answers);
        MeanBounds(last, lo, hi);
      }
    }
  }

  lemma {:induction false} TruthyValuesBounds(answers: seq<Answer>, lo: real, hi: real)
    requires forall k :: 0 <= k < |answers| && Truthy(answers[k].num) ==> lo <= answers[k].num.value <= hi
    ensures forall x :: x in TruthyValues(answers) ==> lo <= x <= hi
  {
    if answers != [] {
      TruthyValuesBounds(answers[..|answers| - 1], lo, hi);
    }
  }

  /** Answers 10, 20, 30 on three days give 10, 15 and 20 with the default window of 30;
    * with a window of 2 the third day averages only 20 and 30. */
  lemma ThreeDays()
    ensures var xs := [Answer(1, 7, 3, 1, Some(10.0), false), Answer(2, 7, 3, 2, Some(20.0), false), Answer(3, 7, 3, 3, Some(30.0), false)];
      MovingAverages(xs, 30) == map[1 := 10.0, 2 := 15.0, 3 := 20.0]
      && MovingAverages(xs, 2)[3] == 25.0
  {
    var xs := [Answer(1, 7, 3, 1, Some(10.0), false), Answer(2, 7, 3, 2, Some(20.0), false), Answer(3, 7, 3, 3, Some(30.0), false)];
    assert xs[..2] == [xs[0], xs[1]] && xs[..1] == [xs[0]] && [xs[0], xs[1]][..1] == [xs[0]];
    assert TruthyValues(xs[..1]) == [10.0];
    assert TruthyValues(xs[..2]) == [10.0, 20.0];
    assert TruthyValues(xs) == [10.0, 20.0, 30.0];
    assert Sum([10.0, 20.0, 30.0]) == 60.0 by {
      assert [10.0, 20.0, 30.0][..2] == [10.0, 20.0] && [10.0, 20.0][..1] == [10.0] && [10.0][..0] == [];
    }
    assert Sum([10.0, 20.0]) == 30.0 by {
      assert [10.0, 20.0][..1] == [10.0] && [10.0][..0] == [];
    }
    assert Sum([10.0]) == 10.0 by {
      assert [10.0][..0] == [];
    }
    assert MovingAverages(xs[..1], 30) == map[1 := 10.0] by {
      assert xs[..1][..0] == [];
    }
    assert MovingAverages(xs[..2], 30) == map[1 := 10.0, 2 := 15.0] by {
      assert xs[..2][..1] == xs[..1];
    }
    assert LastN([10.0, 20.0, 30.0], 2) == [20.0, 30.0];
    assert Sum([20.0, 30.0]) == 50.0 by {
      assert [20.0, 30.0][..1] == [20.0] && [20.0][..0] == [];
    }
  }
}
