/** indicator/models.py, the pure part: indicator kinds, the percentage normaliser, the
  * comparison with the average, the Y-axis ticks, and the queries over the answer table. */
module Indicators {
  import opened Wrappers
  import opened Sorting

  type UserId = nat
  type IndicatorId = nat
  type CampaignId = nat
  type GroupId = nat
  /** A calendar day, counted in days. */
  type Date = int

  /** The concrete indicator classes: a Likert scale with its number of options, or a
    * number with an optional range and target. */
  datatype Kind =
    | Likert(numChoices: nat)
    | Number(rangeStart: Option<int>, rangeEnd: Option<int>, target: Option<int>, isPercentage: bool)

  datatype Indicator = Indicator(id: IndicatorId, campaign: CampaignId, position: int, isSynthetic: bool, kind: Kind)

  /** One row of the answer table; `num` is the nullable float column. */
  datatype Answer = Answer(id: nat, user: UserId, indicator: IndicatorId, date: Date, num: Option<real>, isSkip: bool)

  /** Python truthiness of a nullable number: None and 0 are false. */
  predicate Truthy(num: Option<real>)
  {
    num.Some? && num.value != 0.0
  }

  /** math.ceil */
  function Ceil(x: real): (r: int)
    ensures x <= r as real < x + 1.0
  {
    -((-x).Floor)
  }

  /** int() of a float: truncation toward zero. */
  function Trunc(x: real): (r: int)
    ensures 0.0 <= x ==> 0 <= r && r as real <= x < r as real + 1.0
    ensures x < 0.0 ==> r <= 0 && r as real - 1.0 < x <= r as real
  {
    if x >= 0.0 then x.Floor else -((-x).Floor)
  }

  /** Python 2 `/` on two ints: floor division. */
  function FloorDiv(a: int, b: int): (r: int)
    requires b != 0
    ensures b > 0 ==> b * r <= a < b * (r + 1)
    ensures b < 0 ==> b * (r + 1) < a <= b * r
  {
    if b > 0 then a / b else (-a) / (-b)
  }

  function Min(x: real, y: real): real
  {
    if x <= y then x else y
  }

  /** IndicatorLikert.as_percentage: a falsy answer scores 0, otherwise the answer's
    * distance from option 1, as a share of the scale, rounded up. A scale with a
    * single option divides by zero. */
  function LikertPercentage(numChoices: nat, num: Option<real>): (r: Result<real>)
    ensures !Truthy(num) ==> r == Ok(0.0)
    ensures r.Err? <==> Truthy(num) && numChoices == 1
    ensures r.Ok? ==> r.value == r.value.Floor as real
  {
    if !Truthy(num) then Ok(0.0)
    else if numChoices == 1 then Err(ZeroDivisionError)
    else Ok(Ceil(LikertScaled(numChoices, num.value)) as real)
  }

  /** The answer's distance from option 1 in units of 100 / (options - 1). */
  function LikertScaled(numChoices: int, x: real): real
    requires numChoices != 1
  {
    (x - 1.0) * (100.0 / (numChoices - 1) as real)
  }

  /** The value IndicatorNumber.as_percentage divides by: the target when it is set and
    * non-zero, else the end of the range. */
  function TopValue(rangeEnd: Option<int>, target: Option<int>): Option<int>
  {
    if target.Some? && target.value != 0 then target else rangeEnd
  }

  /** IndicatorNumber.as_percentage: the answer times the integer quotient 100 / top,
    * capped at 100. A missing or zero top and a missing answer raise. */
  function NumberPercentage(rangeEnd: Option<int>, target: Option<int>, num: Option<real>): (r: Result<real>)
    ensures r.Ok? ==> r.value <= 100.0
    ensures r.Err? <==> TopValue(rangeEnd, target) in {None, Some(0)} || num.None?
    ensures TopValue(rangeEnd, target) == Some(0) ==> r == Err(ZeroDivisionError)
  {
    var top := TopValue(rangeEnd, target);
    if top.None? then Err(TypeError)
    else if top.value == 0 then Err(ZeroDivisionError)
    else if num.None? then Err(TypeError)
    else Ok(Min(NumberScaled(num.value, top.value), 100.0))
  }

  /** The answer times the integer quotient 100 / top. */
  function NumberScaled(x: real, top: int): real
    requires top != 0
  {
    x * FloorDiv(100, top) as real
  }

  /** `indicator.subclass().as_percentage(num)` */
  function AsPercentage(kind: Kind, num: Option<real>): (r: Result<real>)
    ensures kind.Likert? ==> r == LikertPercentage(kind.numChoices, num)
    ensures kind.Number? ==> r == NumberPercentage(kind.rangeEnd, kind.target, num)
  {
    match kind
    case Likert(n) => LikertPercentage(n, num)
    case Number(_, rangeEnd, target, _) => NumberPercentage(rangeEnd, target, num)
  }

  /** Whether `as_percentage` returns a Python int rather than a float. The answer column
    * holds floats and `math.ceil` returns a float in Python 2, so only two results are
    * ints: the Likert 0 of a falsy answer, and the Number cap of 100 when the scaled
    * answer is strictly above it (on a tie `min` returns its first, float, argument). */
  function IntPercentage(kind: Kind, num: Option<real>): (b: bool)
    ensures b ==> AsPercentage(kind, num).Ok?
    ensures b ==> AsPercentage(kind, num).value == 0.0 || AsPercentage(kind, num).value == 100.0
    ensures kind.Likert? ==> (b <==> !Truthy(num))
    ensures kind.Number? && b ==> AsPercentage(kind, num) == Ok(100.0)
  {
    if kind.Likert? then
      assert !Truthy(num) ==> AsPercentage(kind, num) == Ok(0.0);
      !Truthy(num)
    else
      var top := TopValue(kind.rangeEnd, kind.target);
      if top.Some? && top.value != 0 && num.Some? then
        if NumberScaled(num.value, top.value) > 100.0 then
          NumberCap(kind.rangeEnd, kind.target, num);
          true
        else false
      else false
  }

  /** A scaled answer above 100 is capped at exactly 100. */
  lemma NumberCap(rangeEnd: Option<int>, target: Option<int>, num: Option<real>)
    requires TopValue(rangeEnd, target).Some? && TopValue(rangeEnd, target).value != 0 && num.Some?
    requires NumberScaled(num.value, TopValue(rangeEnd, target).value) > 100.0
    ensures NumberPercentage(rangeEnd, target, num) == Ok(100.0)
  {
  }

  /** On a scale of two or more options, option 1 scores 0, the last option scores 100,
    * every option scores within 0..100, and a higher option never scores lower. */
  lemma LikertScale(n: nat, v: int, w: int)
    requires n >= 2 && 1 <= v <= w <= n
    ensures LikertPercentage(n, Some(v as real)).Ok? && LikertPercentage(n, Some(w as real)).Ok?
    ensures 0.0 <= LikertPercentage(n, Some(v as real)).value <= LikertPercentage(n, Some(w as real)).value <= 100.0
    ensures v == 1 ==> LikertPercentage(n, Some(v as real)).value == 0.0
    ensures w == n ==> LikertPercentage(n, Some(w as real)).value == 100.0
  {
    var x, y := LikertScaled(n, v as real), LikertScaled(n, w as real);
    ScaleBounds((n - 1) as real, 100.0 / (n - 1) as real, v as real - 1.0, w as real - 1.0);
    assert 0.0 <= x <= y <= 100.0;
    CeilMonotone(x, y);
    assert Ceil(y) < 101;
    assert LikertPercentage(n, Some(v as real)) == Ok(Ceil(x) as real);
    assert LikertPercentage(n, Some(w as real)) == Ok(Ceil(y) as real);
  }

  lemma ScaleBounds(top: real, unit: real, a: real, b: real)
    requires top > 0.0 && unit == 100.0 / top
    requires 0.0 <= a <= b <= top
    ensures 0.0 <= a * unit <= b * unit <= 100.0
    ensures b == top ==> b * unit == 100.0
  {
    assert unit > 0.0;
    MulMonotone(unit, 0.0, a);
    MulMonotone(unit, a, b);
    MulMonotone(unit, b, top);
  }

  lemma CeilMonotone(x: real, y: real)
    requires x <= y
    ensures Ceil(x) <= Ceil(y)
  {
  }

  lemma MulMonotone(k: real, a: real, b: real)
    requires k >= 0.0 && a <= b
    ensures a * k <= b * k && k * a <= k * b
  {
    assert (b - a) * k >= 0.0;
  }

  /** With a positive top and a non-negative answer the score lies in 0..100 and never
    * exceeds the exact share answer * 100 / top: the quotient is rounded down first. */
  lemma NumberPercentageBounds(rangeEnd: Option<int>, target: Option<int>, x: real)
    requires TopValue(rangeEnd, target).Some? && TopValue(rangeEnd, target).value > 0
    requires x >= 0.0
    ensures NumberPercentage(rangeEnd, target, Some(x)).Ok?
    ensures 0.0 <= NumberPercentage(rangeEnd, target, Some(x)).value
    ensures NumberPercentage(rangeEnd, target, Some(x)).value <= x * 100.0 / TopValue(rangeEnd, target).value as real
  {
    var top := TopValue(rangeEnd, target).value;
    var q := FloorDiv(100, top);
    assert 0 <= q && top * q <= 100;
    ScoreBelowShare(x, q, top);
  }

  /** A non-negative answer times a quotient q with top * q <= 100 stays within
    * 0..answer * 100 / top. */
  lemma ScoreBelowShare(x: real, q: int, top: int)
    requires x >= 0.0 && top > 0 && 0 <= q && top * q <= 100
    ensures 0.0 <= Min(x * q as real, 100.0) <= x * 100.0 / top as real
  {
    assert (top * q) as real == top as real * q as real;
    DivideBoth(top as real, q as real, 100.0);
    MulMonotone(x, 0.0, q as real);
    MulMonotone(x, q as real, 100.0 / top as real);
    MulDiv(x, 100.0, top as real);
  }

  lemma MulDiv(x: real, c: real, t: real)
    requires t != 0.0
    ensures x * (c / t) == x * c / t
  {
  }

  lemma DivideBoth(t: real, a: real, b: real)
    requires t > 0.0 && t * a <= b
    ensures a <= b / t
  {
    assert b / t - a == (b - t * a) / t;
  }

  /** When the top divides 100 the score is the exact share, capped at 100. */
  lemma NumberPercentageExact(rangeEnd: Option<int>, target: Option<int>, x: real)
    requires TopValue(rangeEnd, target).Some? && TopValue(rangeEnd, target).value > 0
    requires 100 % TopValue(rangeEnd, target).value == 0
    ensures NumberPercentage(rangeEnd, target, Some(x)) == Ok(Min(x * 100.0 / TopValue(rangeEnd, target).value as real, 100.0))
  {
    var top := TopValue(rangeEnd, target).value;
    var q := FloorDiv(100, top);
    assert top * q == 100;
    assert q as real == 100.0 / top as real by {
      assert (top * q) as real == top as real * q as real;
    }
    assert x * q as real == x * 100.0 / top as real;
  }

  /** A target above 100 makes the integer quotient 0, so every answer scores 0. */
  lemma TargetAbove100ScoresZero(rangeEnd: Option<int>, t: int, x: real)
    requires t > 100
    ensures NumberPercentage(rangeEnd, Some(t), Some(x)) == Ok(0.0)
  {
    assert FloorDiv(100, t) == 0;
  }

  /** With target 30 the quotient is 3: half the target scores 45, the target itself
    * scores 90, and 34 already reaches the cap. */
  lemma TargetThirty(rangeEnd: Option<int>)
    ensures NumberPercentage(rangeEnd, Some(30), Some(15.0)) == Ok(45.0)
    ensures NumberPercentage(rangeEnd, Some(30), Some(30.0)) == Ok(90.0)
    ensures NumberPercentage(rangeEnd, Some(30), Some(34.0)) == Ok(100.0)
  {
    assert FloorDiv(100, 30) == 3;
  }

  /** The tolerance band of compared_to_average: a difference within +-tolerance
    * counts as 0. */
  function Tolerate(diff: real, tolerance: real): (t: real)
    ensures t == 0.0 || t == diff
    ensures t == 0.0 <==> (-tolerance <= diff <= tolerance || diff == 0.0)
    ensures t > 0.0 ==> diff > tolerance
    ensures t < 0.0 ==> diff < -tolerance
  {
    if -tolerance <= diff <= tolerance then 0.0 else diff
  }

  /** With tolerance 0 the toleranced value is the difference itself. */
  lemma ZeroTolerance(diff: real)
    ensures Tolerate(diff, 0.0) == diff
  {
  }

  /** The above / average / below split of the dashboard: every toleranced value falls in
    * exactly one of the three groups, and "average" means within the tolerance. */
  lemma RatingPartition(diff: real, tolerance: real)
    requires tolerance >= 0.0
    ensures var t := Tolerate(diff, tolerance);
      (t > 0.0 <==> diff > tolerance) && (t == 0.0 <==> -tolerance <= diff <= tolerance)
      && (t < 0.0 <==> diff < -tolerance)
  {
  }

  // ---------------------------------------------------------------- queries

  /** The rows `Answer.objects.filter(user, indicator_id, action_date[, is_skip=False])`. */
  function Matching(rows: seq<Answer>, user: UserId, ind: IndicatorId, date: Date, nonSkipOnly: bool): (r: seq<Answer>)
    ensures forall a :: a in r <==> a in rows && a.user == user && a.indicator == ind && a.date == date && (nonSkipOnly ==> !a.isSkip)
    ensures |r| <= |rows|
  {
    if rows == [] then []
    else
      var a := rows[0];
      (if a.user == user && a.indicator == ind && a.date == date && (nonSkipOnly ==> !a.isSkip) then [a] else [])
      + Matching(rows[1..], user, ind, date, nonSkipOnly)
  }

  /** Django's `get` over those rows: exactly one match, else DoesNotExist or
    * MultipleObjectsReturned. */
  function GetAnswer(rows: seq<Answer>, user: UserId, ind: IndicatorId, date: Date, nonSkipOnly: bool): (r: Result<Answer>)
    ensures r.Ok? ==> r.value in rows && r.value.user == user && r.value.indicator == ind && r.value.date == date
    ensures r.Ok? && nonSkipOnly ==> !r.value.isSkip
    ensures r == Err(DoesNotExist) <==> forall a :: a in rows ==> !(a.user == user && a.indicator == ind && a.date == date && (nonSkipOnly ==> !a.isSkip))
    ensures r.Err? ==> r.error in {DoesNotExist, MultipleObjectsReturned}
    ensures r.Ok? <==> |Matching(rows, user, ind, date, nonSkipOnly)| == 1
  {
    var m := Matching(rows, user, ind, date, nonSkipOnly);
    if |m| == 0 then Err(DoesNotExist)
    else if |m| == 1 then Ok(m[0])
    else assert m[0] in m; Err(MultipleObjectsReturned)
  }

  /** Indicator.compared_to_average: the user's percentage minus the average user's, as
    * (toleranced, raw). The user's answer must be a non-skip one. */
  function ComparedToAverage(rows: seq<Answer>, ind: Indicator, user: UserId, avgUser: UserId, date: Date, tolerance: real): (r: Result<(real, real)>)
    ensures var mine := GetAnswer(rows, user, ind.id, date, true);
      var avg := GetAnswer(rows, avgUser, ind.id, date, false);
      && (mine.Err? ==> r == Err(mine.error))
      && (mine.Ok? && AsPercentage(ind.kind, mine.value.num).Err? ==> r == Err(AsPercentage(ind.kind, mine.value.num).error))
      && (mine.Ok? && AsPercentage(ind.kind, mine.value.num).Ok? && avg.Err? ==> r == Err(avg.error))
      && (mine.Ok? && AsPercentage(ind.kind, mine.value.num).Ok? && avg.Ok? && AsPercentage(ind.kind, avg.value.num).Err?
          ==> r == Err(AsPercentage(ind.kind, avg.value.num).error))
    ensures var mine := GetAnswer(rows, user, ind.id, date, true);
      var avg := GetAnswer(rows, avgUser, ind.id, date, false);
      r.Ok? <==> mine.Ok? && AsPercentage(ind.kind, mine.value.num).Ok? && avg.Ok? && AsPercentage(ind.kind, avg.value.num).Ok?
    ensures r.Ok? ==>
      var mine := AsPercentage(ind.kind, GetAnswer(rows, user, ind.id, date, true).value.num);
      var norm := AsPercentage(ind.kind, GetAnswer(rows, avgUser, ind.id, date, false).value.num);
      r.value.1 == mine.value - norm.value
    ensures r.Ok? ==> r.value.0 == Tolerate(r.value.1, tolerance)
  {
    var mine :- GetAnswer(rows, user, ind.id, date, true);
    var userVal :- AsPercentage(ind.kind, mine.num);
    var avg :- GetAnswer(rows, avgUser, ind.id, date, false);
    var norm :- AsPercentage(ind.kind, avg.num);
    var diff := userVal - norm;
    Ok((Tolerate(diff, tolerance), diff))
  }

  function Date_(a: Answer): int
  {
    a.date
  }

  /** The non-skip rows of `user` (none when there is no user) for the indicator. */
  function Of(rows: seq<Answer>, user: Option<UserId>, ind: IndicatorId): (r: seq<Answer>)
    ensures forall a :: a in r <==> a in rows && Some(a.user) == user && a.indicator == ind && !a.isSkip
    ensures multiset(r) <= multiset(rows)
  {
    if rows == [] then []
    else
      var a := rows[0];
      assert rows == [a] + rows[1..];
      (if Some(a.user) == user && a.indicator == ind && !a.isSkip then [a] else []) + Of(rows[1..], user, ind)
  }

  /** AnswerManager.by_indicator: that user's non-skip answers to the indicator,
    * ordered by date. */
  function ByIndicator(rows: seq<Answer>, user: Option<UserId>, ind: IndicatorId): (r: seq<Answer>)
    ensures SortedBy(r, Date_)
    ensures multiset(r) == multiset(Of(rows, user, ind))
    ensures forall a :: a in r <==> a in rows && Some(a.user) == user && a.indicator == ind && !a.isSkip
  {
    SortBy(Of(rows, user, ind), Date_)
  }

  // ---------------------------------------------------------------- catalogue

  function Position(i: Indicator): int
  {
    i.position
  }

  function Regular(catalogue: seq<Indicator>, campaign: CampaignId): (r: seq<Indicator>)
    ensures forall i :: i in r <==> i in catalogue && i.campaign == campaign && !i.isSynthetic
  {
    if catalogue == [] then []
    else
      var i := catalogue[0];
      (if i.campaign == campaign && !i.isSynthetic then [i] else []) + Regular(catalogue[1..], campaign)
  }

  /** IndicatorManager.all_regular_indicators: the campaign's non-synthetic indicators,
    * ordered by position. */
  function RegularIndicators(catalogue: seq<Indicator>, campaign: CampaignId): (r: seq<Indicator>)
    ensures SortedBy(r, Position)
    ensures multiset(r) == multiset(Regular(catalogue, campaign))
    ensures forall i :: i in r <==> i in catalogue && i.campaign == campaign && !i.isSynthetic
  {
    SortBy(Regular(catalogue, campaign), Position)
  }

  function Ids(inds: seq<Indicator>): (r: seq<IndicatorId>)
    ensures |r| == |inds| && forall k :: 0 <= k < |inds| ==> r[k] == inds[k].id
  {
    if inds == [] then [] else [inds[0].id] + Ids(inds[1..])
  }

  function FindById(inds: seq<Indicator>, id: IndicatorId): (r: Result<Indicator>)
    ensures r.Ok? ==> r.value in inds && r.value.id == id
    ensures r.Err? <==> forall i :: i in inds ==> i.id != id
    ensures r.Err? ==> r.error == DoesNotExist
    ensures |inds| > 0 && inds[0].id == id ==> r == Ok(inds[0])
  {
    if inds == [] then Err(DoesNotExist)
    else if inds[0].id == id then Ok(inds[0])
    else FindById(inds[1..], id)
  }

  /** IndicatorManager.get_cached: the regular indicator of the campaign with that id. */
  function GetCached(catalogue: seq<Indicator>, campaign: CampaignId, id: IndicatorId): (r: Result<Indicator>)
    ensures r.Ok? ==> r.value.id == id && r.value in catalogue && r.value.campaign == campaign && !r.value.isSynthetic
    ensures r.Err? <==> forall i :: i in catalogue && i.campaign == campaign && !i.isSynthetic ==> i.id != id
    ensures r.Err? ==> r.error == DoesNotExist
  {
    FindById(RegularIndicators(catalogue, campaign), id)
  }

  // ---------------------------------------------------------------- Y axis

  /** range(start, end, step) for a positive step. */
  function PyRange(start: int, end: int, step: nat): (r: seq<int>)
    requires step > 0
    ensures forall x :: x in r ==> start <= x < end
    ensures |r| > 0 ==> r[0] == start && end - step <= r[|r| - 1]
    ensures start < end ==> |r| > 0
    ensures forall k :: 0 <= k < |r| - 1 ==> r[k + 1] == r[k] + step
    decreases end - start
  {
    if start >= end then [] else [start] + PyRange(start + step, end, step)
  }

  /** The tick spacing _graph_vals picks for a span of `numTicks`. */
  function Step(numTicks: int): (s: nat)
    ensures s in {1, 2, 5, 10, 20, 50, 100}
    ensures numTicks <= 10 ==> s == 1
    ensures numTicks >= 1000 ==> s == 100
  {
    if numTicks >= 1000 then 100
    else if numTicks >= 500 then 50
    else if numTicks >= 150 then 20
    else if numTicks >= 100 then 10
    else if numTicks > 50 then 5
    else if numTicks > 10 then 2
    else 1
  }

  /** Django's Max aggregate over the answer values: None when there is none. */
  function MaxNum(answers: seq<Answer>): (r: Option<real>)
    ensures r.Some? ==> exists a :: a in answers && a.num == r
    ensures r.Some? ==> forall a :: a in answers && a.num.Some? ==> a.num.value <= r.value
    ensures r.None? ==> forall a :: a in answers ==> a.num.None?
  {
    if answers == [] then None
    else
      var rest := MaxNum(answers[1..]);
      var a := answers[0];
      if a.num.None? then rest
      else if rest.None? || a.num.value >= rest.value then a.num
      else rest
  }

  /** IndicatorNumber._graph_vals: a percentage axis runs from the range start to 100 in
    * steps of 10; otherwise the axis runs past the largest answer of the current user
    * (or, lacking a non-zero one, the range end) with a step that grows with the span.
    * The end value is always the last tick. */
  function GraphVals(kind: Kind, maxAnswer: Option<real>): (r: Result<seq<int>>)
    requires kind.Number?
    ensures r.Err? <==> kind.rangeStart.None? || (!kind.isPercentage && !Truthy(maxAnswer) && kind.rangeEnd.None?)
    ensures r.Ok? ==> |r.value| > 0 && r.value[|r.value| - 1] == TickEnd(kind, maxAnswer)
  {
    if kind.rangeStart.None? then Err(TypeError)
    else if kind.isPercentage then Ok(PyRange(kind.rangeStart.value, 100, 10) + [100])
    else if !Truthy(maxAnswer) && kind.rangeEnd.None? then Err(TypeError)
    else
      var top := TickTop(kind, maxAnswer);
      var step := Step(top - kind.rangeStart.value);
      Ok(PyRange(kind.rangeStart.value, top + step + 1, step) + [top + step + 1])
  }

  /** The value the non-percentage axis is sized for: int() of the largest answer when it is
    * non-zero, else of the range end. */
  function TickTop(kind: Kind, maxAnswer: Option<real>): int
    requires kind.Number?
  {
    if Truthy(maxAnswer) then Trunc(maxAnswer.value)
    else if kind.rangeEnd.Some? then kind.rangeEnd.value
    else 0
  }

  function TickEnd(kind: Kind, maxAnswer: Option<real>): int
    requires kind.Number? && kind.rangeStart.Some?
  {
    if kind.isPercentage then 100
    else
      var top := TickTop(kind, maxAnswer);
      top + Step(top - kind.rangeStart.value) + 1
  }

  /** Ticks that rise strictly and, except perhaps the end value, never lie below the
    * range start. */
  predicate RisingFrom(vals: seq<int>, start: int)
  {
    (forall k :: 0 <= k < |vals| - 1 ==> vals[k] < vals[k + 1])
    && (forall k :: 0 <= k < |vals| - 1 ==> vals[k] >= start)
  }

  /** The ticks rise strictly from the range start (when it lies below the end) in equal
    * steps, except that the last gap, up to the end value, may be shorter. */
  lemma GraphValsShape(kind: Kind, maxAnswer: Option<real>)
    requires kind.Number? && GraphVals(kind, maxAnswer).Ok?
    ensures RisingFrom(GraphVals(kind, maxAnswer).value, kind.rangeStart.value)
    ensures kind.rangeStart.value < TickEnd(kind, maxAnswer) ==> GraphVals(kind, maxAnswer).value[0] == kind.rangeStart.value
  {
    var start := kind.rangeStart.value;
    var end := TickEnd(kind, maxAnswer);
    var step := if kind.isPercentage then 10 else Step(TickTop(kind, maxAnswer) - start);
    assert GraphVals(kind, maxAnswer).value == PyRange(start, end, step) + [end];
    TicksRise(start, end, step);
  }

  /** A range followed by its end value rises strictly and never dips below the start. */
  lemma TicksRise(start: int, end: int, step: nat)
    requires step > 0
    ensures RisingFrom(PyRange(start, end, step) + [end], start)
    ensures start < end ==> (PyRange(start, end, step) + [end])[0] == start
  {
    var body := PyRange(start, end, step);
    var vals := body + [end];
    forall k | 0 <= k < |vals| - 1
      ensures vals[k] < vals[k + 1] && vals[k] >= start
    {
      assert vals[k] == body[k] && body[k] in body;
      if k < |body| - 1 {
        assert vals[k + 1] == body[k + 1];
      }
    }
  }

  /** On a number axis the top tick lies strictly above every answer of the current user. */
  lemma TopTickAboveAnswers(kind: Kind, answers: seq<Answer>)
    requires kind.Number? && !kind.isPercentage && GraphVals(kind, MaxNum(answers)).Ok?
    requires kind.rangeEnd.Some? ==> kind.rangeEnd.value >= 0
    ensures forall a :: a in answers && a.num.Some? ==> (a.num.value as real) < TickEnd(kind, MaxNum(answers)) as real
  {
    var m := MaxNum(answers);
    var top := TickTop(kind, m);
    forall a | a in answers && a.num.Some?
      ensures a.num.value < TickEnd(kind, m) as real
    {
    }
  }
}
