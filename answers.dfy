/** indicator/models.py, the imperative part: the answer table the engine reads and
  * upserts, the per-day averages, the moving-average window, the comparison series, and
  * the answer upsert with its recompute dispatch. */
module Answers {
  import opened Wrappers
  import opened Sorting
  import opened Indicators
  import Profiles
  import opened Window

  datatype Group = Group(id: GroupId, avgUser: UserId)
  datatype UserInfo = UserInfo(isSystem: bool, groups: seq<Group>)

  /** What the engine reads but never writes: the indicator catalogue, the users with
    * their groups, the global average user, and each campaign's OVERALL indicator. */
  datatype World = World(catalogue: seq<Indicator>, users: map<UserId, UserInfo>, averageUser: UserId, overall: map<CampaignId, Indicator>)

  predicate IsSystem(w: World, u: UserId)
  {
    u in w.users && w.users[u].isSystem
  }

  function GroupsOf(w: World, u: UserId): seq<Group>
  {
    if u in w.users then w.users[u].groups else []
  }

  /** The user who owns an average: the group's average user, or the global one. */
  function AvgUserFor(w: World, group: Option<Group>): UserId
  {
    if group.Some? then group.value.avgUser else w.averageUser
  }

  predicate HasKey(a: Answer, user: UserId, ind: IndicatorId, date: Date)
  {
    a.user == user && a.indicator == ind && a.date == date
  }

  predicate SameKey(a: Answer, b: Answer)
  {
    HasKey(b, a.user, a.indicator, a.date)
  }

  /** The invariant get_or_create keeps in place of the commented-out unique constraint:
    * at most one row per (user, indicator, date); row ids are distinct and below the
    * next id to hand out. */
  ghost predicate WellFormed(rows: seq<Answer>, nextId: nat)
  {
    (forall i, j :: 0 <= i < j < |rows| ==> !SameKey(rows[i], rows[j]))
    && (forall i, j :: 0 <= i < j < |rows| ==> rows[i].id != rows[j].id)
    && (forall i :: 0 <= i < |rows| ==> rows[i].id < nextId)
  }

  /** In a well-formed table two rows with the same key are the same row. */
  lemma KeyUnique(rows: seq<Answer>, nextId: nat, i: nat, k: nat)
    requires WellFormed(rows, nextId) && i < |rows| && k < |rows|
    requires SameKey(rows[i], rows[k])
    ensures i == k
  {
  }

  function FindKey(rows: seq<Answer>, user: UserId, ind: IndicatorId, date: Date): (r: Option<nat>)
    ensures r.Some? ==> r.value < |rows| && HasKey(rows[r.value], user, ind, date)
    ensures r.None? ==> forall k :: 0 <= k < |rows| ==> !HasKey(rows[k], user, ind, date)
  {
    if rows == [] then None
    else if HasKey(rows[0], user, ind, date) then Some(0)
    else
      var r := FindKey(rows[1..], user, ind, date);
      if r.None? then None else Some(r.value + 1)
  }

  /** `get_or_create` on (user, indicator, date) followed by setting the value (and,
    * when given, the skip flag) and saving. */
  function Upsert(rows: seq<Answer>, nextId: nat, user: UserId, ind: IndicatorId, date: Date, num: Option<real>, skip: Option<bool>): (r: (seq<Answer>, nat))
    ensures |rows| <= |r.0| <= |rows| + 1
    ensures forall k :: 0 <= k < |rows| && !HasKey(rows[k], user, ind, date) ==> r.0[k] == rows[k]
  {
    var found := FindKey(rows, user, ind, date);
    if found.Some? then
      var old_ := rows[found.value];
      (rows[found.value := old_.(num := num, isSkip := if skip.Some? then skip.value else old_.isSkip)], nextId)
    else
      (rows + [Answer(nextId, user, ind, date, num, skip.Some? && skip.value)], nextId + 1)
  }

  /** Upserting keeps the table well formed and leaves exactly one row for the key,
    * holding the new value; rows for every other key are untouched. */
  lemma UpsertOutcome(rows: seq<Answer>, nextId: nat, user: UserId, ind: IndicatorId, date: Date, num: Option<real>, skip: Option<bool>)
    requires WellFormed(rows, nextId)
    ensures var (rows', nextId') := Upsert(rows, nextId, user, ind, date, num, skip);
      WellFormed(rows', nextId') && nextId <= nextId'
      && (exists k :: 0 <= k < |rows'| && HasKey(rows'[k], user, ind, date) && rows'[k].num == num)
      && (skip.Some? ==> forall k :: 0 <= k < |rows'| && HasKey(rows'[k], user, ind, date) ==> rows'[k].isSkip == skip.value)
  {
    var (rows', nextId') := Upsert(rows, nextId, user, ind, date, num, skip);
    var found := FindKey(rows, user, ind, date);
    if found.Some? {
      var i := found.value;
      assert rows'[i].num == num;
      forall k | 0 <= k < |rows'| && HasKey(rows'[k], user, ind, date) && skip.Some?
        ensures rows'[k].isSkip == skip.value
      {
        KeyUnique(rows, nextId, i, k);
      }
    } else {
      assert rows'[|rows|].num == num;
    }
  }

  /** When the row already holds the value, upserting it again changes nothing. */
  lemma UpsertSameValue(rows: seq<Answer>, nextId: nat, k: nat, num: Option<real>)
    requires WellFormed(rows, nextId)
    requires k < |rows| && rows[k].num == num
    ensures Upsert(rows, nextId, rows[k].user, rows[k].indicator, rows[k].date, num, None) == (rows, nextId)
  {
    var found := FindKey(rows, rows[k].user, rows[k].indicator, rows[k].date);
    var i := found.value;
    KeyUnique(rows, nextId, k, i);
    assert rows[i := rows[i].(num := num, isSkip := rows[i].isSkip)] == rows;
  }

  /** In a well-formed table, `get` on a row's key finds that row. */
  lemma {:induction false} GetUnique(rows: seq<Answer>, nextId: nat, k: nat)
    requires WellFormed(rows, nextId) && k < |rows|
    ensures GetAnswer(rows, rows[k].user, rows[k].indicator, rows[k].date, false) == Ok(rows[k])
  {
    var a := rows[k];
    MatchingUnique(rows, k);
  }

  lemma {:induction false} MatchingUnique(rows: seq<Answer>, k: nat)
    requires k < |rows|
    requires forall i, j :: 0 <= i < j < |rows| ==> !SameKey(rows[i], rows[j])
    ensures Matching(rows, rows[k].user, rows[k].indicator, rows[k].date, false) == [rows[k]]
  {
    var a := rows[k];
    if k == 0 {
      NoMatching(rows[1..], a);
    } else {
      assert !SameKey(rows[0], a);
      MatchingUnique(rows[1..], k - 1);
    }
  }

  lemma {:induction false} NoMatching(rows: seq<Answer>, a: Answer)
    requires forall i :: 0 <= i < |rows| ==> !SameKey(a, rows[i])
    ensures Matching(rows, a.user, a.indicator, a.date, false) == []
  {
    if rows != [] {
      NoMatching(rows[1..], a);
    }
  }

  // ---------------------------------------------------------------- Indicator.average

  /** Whether `average` counts this answer: the indicator and day match, it is not a
    * skip, its user is not a system user (and is in the group, when one is given), and
    * its value is truthy. */
  predicate Counted(w: World, a: Answer, ind: IndicatorId, date: Date, group: Option<Group>)
  {
    a.indicator == ind && a.date == date && !a.isSkip && !IsSystem(w, a.user)
    && (group.Some? ==> group.value in GroupsOf(w, a.user)) && Truthy(a.num)
  }

  /** The values `average` adds up, in table order. */
  function Sample(w: World, rows: seq<Answer>, ind: IndicatorId, date: Date, group: Option<Group>): (r: seq<real>)
    ensures |r| <= |rows|
    ensures forall x :: x in r ==> x != 0.0
  {
    if rows == [] then []
    else
      var a := rows[|rows| - 1];
      Sample(w, rows[..|rows| - 1], ind, date, group) + (if Counted(w, a, ind, date, group) then [a.num.value] else [])
  }

  /** The table after `average`: unchanged when nothing counts, else the average user's
    * row for (indicator, day) upserted with the mean. */
  function AverageRows(w: World, rows: seq<Answer>, nextId: nat, ind: IndicatorId, date: Date, group: Option<Group>): (r: (seq<Answer>, nat))
    ensures |rows| <= |r.0| <= |rows| + 1
    ensures forall k :: 0 <= k < |rows| && !HasKey(rows[k], AvgUserFor(w, group), ind, date) ==> r.0[k] == rows[k]
  {
    var s := Sample(w, rows, ind, date, group);
    if |s| == 0 then (rows, nextId)
    else Upsert(rows, nextId, AvgUserFor(w, group), ind, date, Some(Mean(s)), None)
  }

  /** Nothing counted means nothing written; otherwise exactly one row of the average
    * user holds the mean, which lies within the range of the counted values. */
  lemma AverageOutcome(w: World, rows: seq<Answer>, nextId: nat, ind: IndicatorId, date: Date, group: Option<Group>)
    requires WellFormed(rows, nextId)
    ensures var s := Sample(w, rows, ind, date, group);
      var (rows', nextId') := AverageRows(w, rows, nextId, ind, date, group);
      WellFormed(rows', nextId')
      && (|s| == 0 ==> rows' == rows && nextId' == nextId)
      && (|s| > 0 ==> GetAnswer(rows', AvgUserFor(w, group), ind, date, false).Ok?
                      && GetAnswer(rows', AvgUserFor(w, group), ind, date, false).value.num == Some(Mean(s)))
  {
    var s := Sample(w, rows, ind, date, group);
    if |s| > 0 {
      var u := AvgUserFor(w, group);
      UpsertOutcome(rows, nextId, u, ind, date, Some(Mean(s)), None);
      var (rows', nextId') := AverageRows(w, rows, nextId, ind, date, group);
      var k :| 0 <= k < |rows'| && HasKey(rows'[k], u, ind, date) && rows'[k].num == Some(Mean(s));
      GetUnique(rows', nextId', k);
    }
  }

  /** Rows of system users never enter the sample. */
  lemma {:induction false} SampleIgnoresSystemRows(w: World, rows: seq<Answer>, rows': seq<Answer>, ind: IndicatorId, date: Date, group: Option<Group>)
    requires |rows| <= |rows'|
    requires forall k :: 0 <= k < |rows| && rows'[k] != rows[k] ==> IsSystem(w, rows[k].user) && IsSystem(w, rows'[k].user)
    requires forall k :: |rows| <= k < |rows'| ==> IsSystem(w, rows'[k].user)
    ensures Sample(w, rows', ind, date, group) == Sample(w, rows, ind, date, group)
    decreases |rows'|
  {
    if |rows'| > |rows| {
      SampleIgnoresSystemRows(w, rows, rows'[..|rows'| - 1], ind, date, group);
    } else if rows != [] {
      SampleIgnoresSystemRows(w, rows[..|rows| - 1], rows'[..|rows'| - 1], ind, date, group);
    }
  }

  /** Running `average` twice is the same as running it once, since the average user is a
    * system user and its own row is never counted. */
  lemma AverageIdempotent(w: World, rows: seq<Answer>, nextId: nat, ind: IndicatorId, date: Date, group: Option<Group>)
    requires WellFormed(rows, nextId)
    requires IsSystem(w, AvgUserFor(w, group))
    ensures var once := AverageRows(w, rows, nextId, ind, date, group);
      AverageRows(w, once.0, once.1, ind, date, group) == once
  {
    var u := AvgUserFor(w, group);
    var s := Sample(w, rows, ind, date, group);
    var once := AverageRows(w, rows, nextId, ind, date, group);
    if |s| > 0 {
      UpsertOutcome(rows, nextId, u, ind, date, Some(Mean(s)), None);
      SampleIgnoresSystemRows(w, rows, once.0, ind, date, group);
      var k :| 0 <= k < |once.0| && HasKey(once.0[k], u, ind, date) && once.0[k].num == Some(Mean(s));
      UpsertSameValue(once.0, once.1, k, Some(Mean(s)));
    }
  }

  // ---------------------------------------------------------------- calculate_day_average

  /** The percentages `calculate_day_average` adds up: the user's non-skip answers that
    * day to the campaign's regular indicators, in table order. */
  function DayPercentages(w: World, rows: seq<Answer>, regular: seq<IndicatorId>, user: UserId, date: Date): (r: Result<seq<real>>)
    ensures r.Ok? ==> |r.value| <= |rows|
  {
    if rows == [] then Ok([])
    else
      var init :- DayPercentages(w, rows[..|rows| - 1], regular, user, date);
      var a := rows[|rows| - 1];
      if a.user == user && a.date == date && a.indicator in regular && !a.isSkip then
        var ind :- FindById(w.catalogue, a.indicator);
        var pct :- AsPercentage(ind.kind, a.num);
        Ok(init + [pct])
      else Ok(init)
  }

  /** Whether every percentage the day's answers contribute is a Python int, so that the
    * sum, which starts from the int 0, stays an int. */
  function AllIntPercentages(w: World, rows: seq<Answer>, regular: seq<IndicatorId>, user: UserId, date: Date): bool
  {
    if rows == [] then true
    else
      var a := rows[|rows| - 1];
      AllIntPercentages(w, rows[..|rows| - 1], regular, user, date)
      && (a.user == user && a.date == date && a.indicator in regular && !a.isSkip ==>
            FindById(w.catalogue, a.indicator).Ok? && IntPercentage(FindById(w.catalogue, a.indicator).value.kind, a.num))
  }

  /** The day's overall score: the mean percentage, or 0 when there is nothing to
    * average. When every percentage is an int, Python 2's `/` floors the mean. */
  function DayScore(pcts: seq<real>, ints: bool): (s: real)
    ensures |pcts| == 0 ==> s == 0.0
    ensures |pcts| > 0 && !ints ==> s == Mean(pcts)
    ensures |pcts| > 0 && ints ==> s == s.Floor as real && s <= Mean(pcts) < s + 1.0
    ensures (forall k :: 0 <= k < |pcts| ==> 0.0 <= pcts[k] <= 100.0) ==> 0.0 <= s <= 100.0
  {
    if |pcts| == 0 then 0.0
    else
      if forall k :: 0 <= k < |pcts| ==> 0.0 <= pcts[k] <= 100.0 then
        MeanBounds(pcts, 0.0, 100.0);
        if ints then Mean(pcts).Floor as real else Mean(pcts)
      else if ints then Mean(pcts).Floor as real else Mean(pcts)
  }

  /** Int percentages are 0 or 100, so their sum is a whole number. */
  lemma {:induction false} IntPercentagesWhole(w: World, rows: seq<Answer>, regular: seq<IndicatorId>, user: UserId, date: Date)
    requires DayPercentages(w, rows, regular, user, date).Ok? && AllIntPercentages(w, rows, regular, user, date)
    ensures Sum(DayPercentages(w, rows, regular, user, date).value) == Sum(DayPercentages(w, rows, regular, user, date).value).Floor as real
  {
    if rows != [] {
      var i := |rows| - 1;
      assert rows[..i + 1] == rows;
      var init := rows[..i];
      IntStep(w, rows, regular, user, date, i);
      PercentagesStep(w, rows, regular, user, date, i);
      IntPercentagesWhole(w, init, regular, user, date);
      var q := DayPercentages(w, init, regular, user, date).value;
      var a := rows[i];
      if a.user == user && a.date == date && a.indicator in regular && !a.isSkip {
        var x := AsPercentage(FindById(w.catalogue, a.indicator).value.kind, a.num).value;
        SumAppend(q, x);
        WholeAdd(Sum(q), x);
      }
    }
  }

  lemma WholeAdd(t: real, x: real)
    requires t == t.Floor as real && (x == 0.0 || x == 100.0)
    ensures t + x == (t + x).Floor as real
  {
    var k := if x == 0.0 then 0 else 100;
    assert t + x == (t.Floor + k) as real;
  }

  /** Over a whole-number sum, the floored mean is Python 2's integer division of the sum
    * by the count. */
  lemma IntScore(p: seq<real>)
    requires |p| > 0 && Sum(p) == Sum(p).Floor as real
    ensures DayScore(p, true) == FloorDiv(Sum(p).Floor, |p|) as real
  {
    FloorMean(Sum(p).Floor, |p|);
  }

  /** One more row of the table keeps the sum an int exactly when the row does not count
    * or its percentage is an int. */
  lemma IntStep(w: World, rows: seq<Answer>, regular: seq<IndicatorId>, user: UserId, date: Date, i: nat)
    requires i < |rows|
    ensures var a := rows[i];
      AllIntPercentages(w, rows[..i + 1], regular, user, date)
      == (AllIntPercentages(w, rows[..i], regular, user, date)
          && (a.user == user && a.date == date && a.indicator in regular && !a.isSkip ==>
                FindById(w.catalogue, a.indicator).Ok? && IntPercentage(FindById(w.catalogue, a.indicator).value.kind, a.num)))
  {
    assert rows[..i + 1][..i] == rows[..i];
  }

  /** The floor of an integer's real quotient by a positive count is the integer quotient. */
  lemma FloorMean(total: int, n: nat)
    requires n > 0
    ensures (total as real / n as real).Floor == FloorDiv(total, n)
  {
    var q := FloorDiv(total, n);
    assert n * q <= total < n * (q + 1);
    assert (n * q) as real <= total as real < (n * (q + 1)) as real;
    assert q as real <= total as real / n as real < (q + 1) as real;
  }

  /** The table after `calculate_day_average`: a campaign without an OVERALL indicator
    * raises; a score of 0 writes nothing; any other score is upserted as the user's
    * OVERALL answer for the day. */
  function DayAverageRows(w: World, rows: seq<Answer>, nextId: nat, campaign: CampaignId, user: UserId, date: Date): (r: Result<(seq<Answer>, nat)>)
    ensures r.Ok? ==> |rows| <= |r.value.0| <= |rows| + 1
    ensures campaign !in w.overall ==> r == Err(DoesNotExist)
    ensures r.Ok? ==> forall k :: 0 <= k < |rows| && !HasKey(rows[k], user, w.overall[campaign].id, date) ==> r.value.0[k] == rows[k]
  {
    if campaign !in w.overall then Err(DoesNotExist)
    else
      var regular := Ids(RegularIndicators(w.catalogue, campaign));
      var pcts :- DayPercentages(w, rows, regular, user, date);
      var score := DayScore(pcts, AllIntPercentages(w, rows, regular, user, date));
      if score == 0.0 then Ok((rows, nextId))
      else Ok(Upsert(rows, nextId, user, w.overall[campaign].id, date, Some(score), None))
  }

  /** No answers give a score of 0, and a score of 0 is never written; a non-zero score
    * leaves exactly one OVERALL row for the user and day, holding it. */
  lemma DayAverageOutcome(w: World, rows: seq<Answer>, nextId: nat, campaign: CampaignId, user: UserId, date: Date)
    requires WellFormed(rows, nextId)
    requires DayAverageRows(w, rows, nextId, campaign, user, date).Ok?
    ensures var regular := Ids(RegularIndicators(w.catalogue, campaign));
      var pcts := DayPercentages(w, rows, regular, user, date).value;
      var ints := AllIntPercentages(w, rows, regular, user, date);
      var (rows', nextId') := DayAverageRows(w, rows, nextId, campaign, user, date).value;
      WellFormed(rows', nextId')
      && (pcts == [] ==> rows' == rows)
      && (DayScore(pcts, ints) == 0.0 ==> rows' == rows && nextId' == nextId)
      && (DayScore(pcts, ints) != 0.0 ==>
            GetAnswer(rows', user, w.overall[campaign].id, date, false).Ok?
            && GetAnswer(rows', user, w.overall[campaign].id, date, false).value.num == Some(DayScore(pcts, ints)))
  {
    var regular := Ids(RegularIndicators(w.catalogue, campaign));
    var pcts := DayPercentages(w, rows, regular, user, date).value;
    var score := DayScore(pcts, AllIntPercentages(w, rows, regular, user, date));
    if score != 0.0 {
      var ov := w.overall[campaign].id;
      UpsertOutcome(rows, nextId, user, ov, date, Some(score), None);
      var (rows', nextId') := DayAverageRows(w, rows, nextId, campaign, user, date).value;
      var k :| 0 <= k < |rows'| && HasKey(rows'[k], user, ov, date) && rows'[k].num == Some(score);
      GetUnique(rows', nextId', k);
    }
  }

  /** The indicators `calculate_day_average` can average are the campaign's regular
    * ones: every answer it reads is one the catalogue resolves, and with in-range
    * answers the score stays within 0..100. */
  lemma DayScoreInRange(w: World, rows: seq<Answer>, regular: seq<IndicatorId>, user: UserId, date: Date)
    requires DayPercentages(w, rows, regular, user, date).Ok?
    requires forall a :: a in rows && a.user == user && a.date == date && !a.isSkip && a.indicator in regular ==>
      FindById(w.catalogue, a.indicator).Ok? && AsPercentage(FindById(w.catalogue, a.indicator).value.kind, a.num).Ok?
      && 0.0 <= AsPercentage(FindById(w.catalogue, a.indicator).value.kind, a.num).value <= 100.0
    ensures 0.0 <= DayScore(DayPercentages(w, rows, regular, user, date).value, AllIntPercentages(w, rows, regular, user, date)) <= 100.0
  {
    PercentagesInRange(w, rows, regular, user, date);
  }

  lemma {:induction false} PercentagesInRange(w: World, rows: seq<Answer>, regular: seq<IndicatorId>, user: UserId, date: Date)
    requires DayPercentages(w, rows, regular, user, date).Ok?
    requires forall a :: a in rows && a.user == user && a.date == date && !a.isSkip && a.indicator in regular ==>
      FindById(w.catalogue, a.indicator).Ok? && AsPercentage(FindById(w.catalogue, a.indicator).value.kind, a.num).Ok?
      && 0.0 <= AsPercentage(FindById(w.catalogue, a.indicator).value.kind, a.num).value <= 100.0
    ensures var p := DayPercentages(w, rows, regular, user, date).value;
      forall k :: 0 <= k < |p| ==> 0.0 <= p[k] <= 100.0
  {
    if rows != [] {
      var init := rows[..|rows| - 1];
      assert forall a :: a in init ==> a in rows;
      PercentagesInRange(w, init, regular, user, date);
      var a := rows[|rows| - 1];
      assert a in rows;
    }
  }

  /** Recomputing the OVERALL score is idempotent: the OVERALL indicator is synthetic, so
    * the row it writes is never one of the answers it averages. */
  lemma DayAverageIdempotent(w: World, rows: seq<Answer>, nextId: nat, campaign: CampaignId, user: UserId, date: Date)
    requires WellFormed(rows, nextId)
    requires DayAverageRows(w, rows, nextId, campaign, user, date).Ok?
    requires w.overall[campaign].id !in Ids(RegularIndicators(w.catalogue, campaign))
    ensures var once := DayAverageRows(w, rows, nextId, campaign, user, date).value;
      DayAverageRows(w, once.0, once.1, campaign, user, date) == Ok(once)
  {
    var regular := Ids(RegularIndicators(w.catalogue, campaign));
    var ov := w.overall[campaign].id;
    var pcts := DayPercentages(w, rows, regular, user, date).value;
    var ints := AllIntPercentages(w, rows, regular, user, date);
    var once := DayAverageRows(w, rows, nextId, campaign, user, date).value;
    if DayScore(pcts, ints) != 0.0 {
      UpsertOutcome(rows, nextId, user, ov, date, Some(DayScore(pcts, ints)), None);
      DayPercentagesIgnoreOther(w, rows, once.0, regular, user, date, ov);
      var k :| 0 <= k < |once.0| && HasKey(once.0[k], user, ov, date) && once.0[k].num == Some(DayScore(pcts, ints));
      UpsertSameValue(once.0, once.1, k, Some(DayScore(pcts, ints)));
    }
  }

  lemma {:induction false} DayPercentagesIgnoreOther(w: World, rows: seq<Answer>, rows': seq<Answer>, regular: seq<IndicatorId>, user: UserId, date: Date, other: IndicatorId)
    requires other !in regular
    requires |rows| <= |rows'|
    requires forall k :: 0 <= k < |rows| && rows'[k] != rows[k] ==> rows[k].indicator == other && rows'[k].indicator == other
    requires forall k :: |rows| <= k < |rows'| ==> rows'[k].indicator == other
    ensures DayPercentages(w, rows', regular, user, date) == DayPercentages(w, rows, regular, user, date)
    ensures AllIntPercentages(w, rows', regular, user, date) == AllIntPercentages(w, rows, regular, user, date)
    decreases |rows'|
  {
    if |rows'| > |rows| {
      DayPercentagesIgnoreOther(w, rows, rows'[..|rows'| - 1], regular, user, date, other);
    } else if rows != [] {
      DayPercentagesIgnoreOther(w, rows[..|rows| - 1], rows'[..|rows'| - 1], regular, user, date, other);
    }
  }

  // ---------------------------------------------------------------- answers_with_average

  /** Who a series belongs to: a profile, a group (whose average user owns its
    * answers), or anything else (no user, so no answers). */
  datatype Party = OfProfile(user: UserId) | OfGroup(group: Group) | Neither

  /** `userize` */
  function Userize(p: Party): Option<UserId>
  {
    match p
    case OfProfile(u) => Some(u)
    case OfGroup(g) => Some(g.avgUser)
    case Neither => None
  }

  function Pairs(answers: seq<Answer>): (r: seq<(Date, Option<real>)>)
    ensures |r| == |answers| && forall k :: 0 <= k < |r| ==> r[k] == (answers[k].date, answers[k].num)
  {
    if answers == [] then [] else [(answers[0].date, answers[0].num)] + Pairs(answers[1..])
  }

  /** The window `answers_with_average` uses: `_aggregate_averages`' default. */
  const WindowSize: nat := 30

  function SeriesOf(rows: seq<Answer>, p: Party, ind: IndicatorId): seq<Answer>
  {
    ByIndicator(rows, Userize(p), ind)
  }

  /** The party's answers keyed by date. */
  function ValuesOf(rows: seq<Answer>, p: Party, ind: IndicatorId): map<Date, Option<real>>
  {
    Profiles.DateMap(Pairs(SeriesOf(rows, p, ind)))
  }

  /** The party's moving averages keyed by date. */
  function AvgsOf(rows: seq<Answer>, p: Party, ind: IndicatorId): map<Date, real>
  {
    MovingAverages(SeriesOf(rows, p, ind), WindowSize)
  }

  function Lift(m: map<Date, real>): map<Date, Option<real>>
  {
    map d | d in m :: Some(m[d])
  }

  /** The "from" values at the dates the "to" series lacks: what the fill-in copies. */
  function Missing(mine: map<Date, Option<real>>, theirs: map<Date, Option<real>>): map<Date, Option<real>>
  {
    map d | d in mine && d !in theirs :: mine[d]
  }

  function Opt(m: map<Date, Option<real>>, d: Date): Option<real>
  {
    if d in m then m[d] else None
  }

  /** One (date, from value, to value, from average, to average) tuple. */
  datatype Point = Point(date: Date, mine: Option<real>, theirs: Option<real>, myAvg: Option<real>, theirAvg: Option<real>)

  datatype Column = MineCol | TheirsCol | MyAvgCol | TheirAvgCol

  function Cell(p: Point, c: Column): Option<real>
  {
    match c
    case MineCol => p.mine
    case TheirsCol => p.theirs
    case MyAvgCol => p.myAvg
    case TheirAvgCol => p.theirAvg
  }

  function PointDate(p: Point): int
  {
    p.date
  }

  /** The [date, value] pairs of one column, keeping every value that is not None (0
    * included). */
  function ColumnOf(points: seq<Point>, c: Column): (r: seq<(Date, real)>)
    ensures |r| <= |points|
  {
    if points == [] then []
    else
      var p := points[|points| - 1];
      ColumnOf(points[..|points| - 1], c) + (if Cell(p, c).Some? then [(p.date, Cell(p, c).value)] else [])
  }

  /** The four lists `answers_with_average` returns. */
  datatype Series = Series(fromData: seq<(Date, real)>, toData: seq<(Date, real)>, fromAvgs: seq<(Date, real)>, toAvgs: seq<(Date, real)>)

  ghost predicate Increasing(xs: seq<(Date, real)>)
  {
    forall j, k :: 0 <= j < k < |xs| ==> xs[j].0 < xs[k].0
  }

  /** xs lists exactly the dates of m that hold a value, each with that value. */
  ghost predicate Holds(xs: seq<(Date, real)>, m: map<Date, Option<real>>)
  {
    (forall q :: q in xs ==> q.0 in m && m[q.0] == Some(q.1))
    && (forall d :: d in m && m[d].Some? ==> (d, m[d].value) in xs)
  }

  lemma {:induction false} ColumnMembers(points: seq<Point>, c: Column)
    ensures forall q :: q in ColumnOf(points, c) <==> exists p :: p in points && p.date == q.0 && Cell(p, c) == Some(q.1)
  {
    if points != [] {
      var init := points[..|points| - 1];
      var p := points[|points| - 1];
      ColumnMembers(init, c);
      assert forall x :: x in init ==> x in points;
      forall q: (Date, real) | exists p' :: p' in points && p'.date == q.0 && Cell(p', c) == Some(q.1)
        ensures q in ColumnOf(points, c)
      {
        var p' :| p' in points && p'.date == q.0 && Cell(p', c) == Some(q.1);
        var k :| 0 <= k < |points| && points[k] == p';
        if k < |init| {
          assert init[k] == p';
        }
      }
    }
  }

  lemma {:induction false} ColumnIncreasing(points: seq<Point>, c: Column)
    requires StrictlySortedBy(points, PointDate)
    ensures Increasing(ColumnOf(points, c))
    ensures forall q :: q in ColumnOf(points, c) ==> exists k :: 0 <= k < |points| && points[k].date == q.0
  {
    if points != [] {
      var init := points[..|points| - 1];
      assert StrictlySortedBy(init, PointDate);
      ColumnIncreasing(init, c);
      var last := points[|points| - 1];
      forall q | q in ColumnOf(init, c)
        ensures q.0 < last.date
      {
        var k :| 0 <= k < |init| && init[k].date == q.0;
        assert PointDate(points[k]) < PointDate(points[|points| - 1]);
      }
    }
  }

  /** A column built from one point per date of m, each cell read from m, lists m. */
  lemma ColumnHolds(points: seq<Point>, c: Column, m: map<Date, Option<real>>)
    requires forall p :: p in points ==> Cell(p, c) == Opt(m, p.date)
    requires forall d :: d in m ==> exists p :: p in points && p.date == d
    ensures Holds(ColumnOf(points, c), m)
  {
    ColumnMembers(points, c);
    forall d | d in m && m[d].Some?
      ensures (d, m[d].value) in ColumnOf(points, c)
    {
      var p :| p in points && p.date == d;
      assert Cell(p, c) == Some(m[d].value);
    }
  }

  /** base, overridden by the values of mine at the dates, outside theirs, that the
    * fill-in has already handled (those not pending). */
  function Filled(base: map<Date, Option<real>>, mine: map<Date, Option<real>>, theirs: map<Date, Option<real>>,
                  pending: set<Date>): map<Date, Option<real>>
  {
    base + (map d | d in mine && d !in theirs && d !in pending :: mine[d])
  }

  lemma FilledStep(base: map<Date, Option<real>>, mine: map<Date, Option<real>>, theirs: map<Date, Option<real>>,
                   pending: set<Date>, d: Date)
    requires d in pending && d in mine
    ensures d in theirs ==> Filled(base, mine, theirs, pending - {d}) == Filled(base, mine, theirs, pending)
    ensures d !in theirs ==> Filled(base, mine, theirs, pending - {d}) == Filled(base, mine, theirs, pending)[d := mine[d]]
  {
  }

  lemma FilledDone(base: map<Date, Option<real>>, mine: map<Date, Option<real>>, theirs: map<Date, Option<real>>)
    ensures Filled(base, mine, theirs, {}) == base + Missing(mine, theirs)
  {
  }

  lemma FilledStart(base: map<Date, Option<real>>, mine: map<Date, Option<real>>, theirs: map<Date, Option<real>>)
    ensures Filled(base, mine, theirs, mine.Keys) == base
  {
  }

  /** The ids of the "from" answers whose date the "to" series lacks. */
  ghost function Owed(series: seq<Answer>, theirs: map<Date, Option<real>>): set<nat>
  {
    set a | a in series && a.date !in theirs :: a.id
  }

  /** The bookkeeping of the fill-in loop, once every date is handled, is SentOnce. */
  /** The fill-in loop's bookkeeping: after - before lists the ids of sentRows, the
    * answers sent so far, one per handled date outside theirs. */
  ghost predicate Bookkept(before: seq<nat>, after: seq<nat>, sentRows: seq<Answer>, series: seq<Answer>,
                           theirs: map<Date, Option<real>>, pending: set<Date>)
  {
    before <= after && |after| == |before| + |sentRows|
    && (forall k :: 0 <= k < |sentRows| ==> after[|before| + k] == sentRows[k].id)
    && (forall k :: 0 <= k < |sentRows| ==> sentRows[k] in series && sentRows[k].date !in theirs && sentRows[k].date !in pending)
    && (forall a :: a in series && a.date !in theirs && a.date !in pending ==> a in sentRows)
    && (forall j, k :: 0 <= j < k < |sentRows| ==> sentRows[j].date != sentRows[k].date)
  }

  lemma BookSkip(before: seq<nat>, after: seq<nat>, sentRows: seq<Answer>, series: seq<Answer>,
                 theirs: map<Date, Option<real>>, pending: set<Date>, d: Date)
    requires Bookkept(before, after, sentRows, series, theirs, pending) && d in theirs
    ensures Bookkept(before, after, sentRows, series, theirs, pending - {d})
  {
  }

  lemma BookSend(before: seq<nat>, after: seq<nat>, sentRows: seq<Answer>, series: seq<Answer>,
                 theirs: map<Date, Option<real>>, pending: set<Date>, a: Answer)
    requires Bookkept(before, after, sentRows, series, theirs, pending)
    requires a in series && a.date in pending && a.date !in theirs
    requires forall b :: b in series && b.date == a.date ==> b == a
    ensures Bookkept(before, after + [a.id], sentRows + [a], series, theirs, pending - {a.date})
  {
  }

  lemma SentComplete(rows: seq<Answer>, nextId: nat, series: seq<Answer>, theirs: map<Date, Option<real>>,
                     before: seq<nat>, after: seq<nat>, sentRows: seq<Answer>)
    requires WellFormed(rows, nextId)
    requires forall a :: a in series ==> a in rows
    requires Bookkept(before, after, sentRows, series, theirs, {})
    ensures SentOnce(before, after, series, theirs)
  {
    forall j, k | |before| <= j < k < |after|
      ensures after[j] != after[k]
    {
      var x, y := sentRows[j - |before|], sentRows[k - |before|];
      if x.id == y.id {
        RowDetermined(rows, nextId, x, y);
      }
    }
    forall id | id in Owed(series, theirs)
      ensures id in after[|before|..]
    {
      var a :| a in series && a.date !in theirs && a.id == id;
      var k :| 0 <= k < |sentRows| && sentRows[k] == a;
      assert after[|before|..][k] == a.id;
    }
    forall k | |before| <= k < |after|
      ensures after[k] in Owed(series, theirs)
    {
      var x := sentRows[k - |before|];
      assert x in series && x.id == after[k] && x.date !in theirs;
    }
  }

  /** Each message goes out once, for a "from" answer whose date the "to" series lacks,
    * and every such answer gets one. */
  ghost predicate SentOnce(before: seq<nat>, after: seq<nat>, series: seq<Answer>, theirs: map<Date, Option<real>>)
  {
    before <= after
    && (forall k :: |before| <= k < |after| ==> after[k] in Owed(series, theirs))
    && (forall id :: id in Owed(series, theirs) ==> id in after[|before|..])
    && (forall j, k :: |before| <= j < k < |after| ==> after[j] != after[k])
  }

  /** In a well-formed table a row is determined by its key, and by its id. */
  lemma RowDetermined(rows: seq<Answer>, nextId: nat, a: Answer, b: Answer)
    requires WellFormed(rows, nextId) && a in rows && b in rows
    requires SameKey(a, b) || a.id == b.id
    ensures a == b
  {
    var i :| 0 <= i < |rows| && rows[i] == a;
    var j :| 0 <= j < |rows| && rows[j] == b;
  }

  /** series holds exactly u's non-skip answers to the indicator, in some order. */
  ghost predicate SeriesIn(series: seq<Answer>, rows: seq<Answer>, u: Option<UserId>, ind: IndicatorId)
  {
    forall a :: a in series <==> a in rows && Some(a.user) == u && a.indicator == ind && !a.isSkip
  }

  /** A party's series holds one answer per date, and its map holds that answer's value. */
  lemma SeriesValue(rows: seq<Answer>, nextId: nat, series: seq<Answer>, u: Option<UserId>, ind: IndicatorId, a: Answer)
    requires WellFormed(rows, nextId) && SeriesIn(series, rows, u, ind)
    requires a in series
    ensures u == Some(a.user)
    ensures a.date in Profiles.DateMap(Pairs(series)) && Profiles.DateMap(Pairs(series))[a.date] == a.num
    ensures GetAnswer(rows, a.user, ind, a.date, false) == Ok(a)
    ensures forall b :: b in series && b.date == a.date ==> b == a
  {
    var pairs := Pairs(series);
    forall b | b in series && b.date == a.date
      ensures b == a
    {
      RowDetermined(rows, nextId, a, b);
    }
    forall j | 0 <= j < |pairs| && pairs[j].0 == a.date
      ensures pairs[j].1 == a.num
    {
      assert series[j] in series;
    }
    var k :| 0 <= k < |series| && series[k] == a;
    assert pairs[k].0 == a.date;
    Profiles.DateMapUniform(pairs, a.date, a.num);
    var i :| 0 <= i < |rows| && rows[i] == a;
    GetUnique(rows, nextId, i);
  }

  /** Every date of a series' map, and of its moving averages, is the date of one of its
    * answers. */
  lemma SeriesKeys(series: seq<Answer>)
    ensures forall d :: d in Profiles.DateMap(Pairs(series)) ==> exists a :: a in series && a.date == d
    ensures MovingAverages(series, WindowSize).Keys <= Profiles.DateMap(Pairs(series)).Keys
    ensures forall a :: a in series ==> a.date in Profiles.DateMap(Pairs(series))
  {
    var pairs := Pairs(series);
    Profiles.DateMapKeys(pairs);
    MovingAverageKeys(series, WindowSize);
    forall d | d in Profiles.DateMap(pairs)
      ensures exists a :: a in series && a.date == d
    {
      var j :| 0 <= j < |pairs| && pairs[j].0 == d;
      assert series[j] in series;
    }
    forall d | d in MovingAverages(series, WindowSize)
      ensures d in Profiles.DateMap(pairs)
    {
      var k :| 0 <= k < |series| && series[k].date == d && Truthy(series[k].num);
      assert pairs[k].0 == d;
    }
    forall a | a in series
      ensures a.date in Profiles.DateMap(pairs)
    {
      var k :| 0 <= k < |series| && series[k] == a;
      assert pairs[k].0 == a.date;
    }
  }

  /** The tuple answers_with_average builds for date d: the "from" value if any, the
    * (filled-in) "to" value, the "from" average if any, and the (filled-in) "to" average. */
  function PointAt(d: Date, mine: map<Date, Option<real>>, values: map<Date, Option<real>>, myAvgs: map<Date, real>,
                   avgs: map<Date, Option<real>>): Point
    requires d in values && d in avgs
  {
    Point(d, Opt(mine, d), values[d], Opt(Lift(myAvgs), d), avgs[d])
  }

  /** The tuple loop of answers_with_average, over the filled-in "to" values in no
    * particular order, then sorted by date. A date with no "to" average raises KeyError. */
  method BuildPoints(mine: map<Date, Option<real>>, values: map<Date, Option<real>>, myAvgs: map<Date, real>,
                     avgs: map<Date, Option<real>>) returns (r: Result<seq<Point>>)
    ensures r.Err? <==> exists d :: d in values && d !in avgs
    ensures r.Err? ==> r.error == KeyError
    ensures r.Ok? ==> StrictlySortedBy(r.value, PointDate)
    ensures r.Ok? ==> forall p :: p in r.value ==> p.date in values && p.date in avgs && p == PointAt(p.date, mine, values, myAvgs, avgs)
    ensures r.Ok? ==> forall d :: d in values ==> d in avgs && PointAt(d, mine, values, myAvgs, avgs) in r.value
  {
    var pending := values.Keys;
    var points: seq<Point> := [];
    while pending != {}
      invariant pending <= values.Keys
      invariant forall p :: p in points ==> p.date in values && p.date !in pending && p.date in avgs && p == PointAt(p.date, mine, values, myAvgs, avgs)
      invariant forall d :: d in values && d !in pending ==> d in avgs && PointAt(d, mine, values, myAvgs, avgs) in points
      invariant DistinctKeys(points, PointDate)
      decreases pending
    {
      var d := Pick(pending);
      if d !in avgs {
        return Err(KeyError);
      }
      points := points + [PointAt(d, mine, values, myAvgs, avgs)];
      pending := pending - {d};
    }
    SortByStrict(points, PointDate);
    r := Ok(SortBy(points, PointDate));
  }

  /** The graph data from the four maps: KeyError when a date of values has no entry in
    * avgs, otherwise four date-ordered lists, each listing the dates of its map that hold
    * a value. */
  method Chart(mine: map<Date, Option<real>>, values: map<Date, Option<real>>, myAvgs: map<Date, real>,
               avgs: map<Date, Option<real>>) returns (r: Result<Series>)
    requires mine.Keys <= values.Keys && myAvgs.Keys <= values.Keys && avgs.Keys <= values.Keys
    ensures r.Err? <==> exists d :: d in values && d !in avgs
    ensures r.Err? ==> r.error == KeyError
    ensures r.Ok? ==>
      Increasing(r.value.fromData) && Increasing(r.value.toData) && Increasing(r.value.fromAvgs) && Increasing(r.value.toAvgs)
    ensures r.Ok? ==>
      Holds(r.value.fromData, mine) && Holds(r.value.toData, values) && Holds(r.value.fromAvgs, Lift(myAvgs)) && Holds(r.value.toAvgs, avgs)
  {
    var points :- BuildPoints(mine, values, myAvgs, avgs);
    SeriesHolds(points, mine, values, myAvgs, avgs);
    forall c: Column
      ensures Increasing(ColumnOf(points, c))
    {
      ColumnIncreasing(points, c);
    }
    var series := SplitColumns(points);
    r := Ok(series);
  }

  /** The last loop of answers_with_average: one [date, value] list per column, keeping
    * every value that is not None. */
  method SplitColumns(points: seq<Point>) returns (s: Series)
    ensures s == Series(ColumnOf(points, MineCol), ColumnOf(points, TheirsCol), ColumnOf(points, MyAvgCol), ColumnOf(points, TheirAvgCol))
  {
    s := Series([], [], [], []);
    for i := 0 to |points|
      invariant s == Series(ColumnOf(points[..i], MineCol), ColumnOf(points[..i], TheirsCol), ColumnOf(points[..i], MyAvgCol), ColumnOf(points[..i], TheirAvgCol))
    {
      var p := points[i];
      assert points[..i + 1][..i] == points[..i];
      if p.mine.Some? {
        s := s.(fromData := s.fromData + [(p.date, p.mine.value)]);
      }
      if p.theirs.Some? {
        s := s.(toData := s.toData + [(p.date, p.theirs.value)]);
      }
      if p.myAvg.Some? {
        s := s.(fromAvgs := s.fromAvgs + [(p.date, p.myAvg.value)]);
      }
      if p.theirAvg.Some? {
        s := s.(toAvgs := s.toAvgs + [(p.date, p.theirAvg.value)]);
      }
    }
    assert points[..|points|] == points;
  }

  /** After the fill-in, a "to" date lacks a "to" average exactly when it lacked one
    * before: the borrowed dates get both. */
  lemma KeyErrorWhen(mine: map<Date, Option<real>>, theirs: map<Date, Option<real>>, theirAvgs: map<Date, real>)
    ensures (exists d :: d in theirs + Missing(mine, theirs) && d !in Lift(theirAvgs) + Missing(mine, theirs))
        <==> (exists d :: d in theirs && d !in theirAvgs)
  {
    if exists d :: d in theirs && d !in theirAvgs {
      var d :| d in theirs && d !in theirAvgs;
      assert d in theirs + Missing(mine, theirs) && d !in Lift(theirAvgs) + Missing(mine, theirs);
    }
  }

  /** After the fill-in, every date of the four maps is a date of the "to" values. */
  lemma FilledKeys(mine: map<Date, Option<real>>, theirs: map<Date, Option<real>>, myAvgs: map<Date, real>, theirAvgs: map<Date, real>)
    requires myAvgs.Keys <= mine.Keys && theirAvgs.Keys <= theirs.Keys
    ensures mine.Keys <= (theirs + Missing(mine, theirs)).Keys
    ensures myAvgs.Keys <= (theirs + Missing(mine, theirs)).Keys
    ensures (Lift(theirAvgs) + Missing(mine, theirs)).Keys <= (theirs + Missing(mine, theirs)).Keys
  {
  }

  /** One point per date of values, each read from the four maps, gives four columns
    * that list those maps. */
  lemma SeriesHolds(points: seq<Point>, mine: map<Date, Option<real>>, values: map<Date, Option<real>>,
                    myAvgs: map<Date, real>, avgs: map<Date, Option<real>>)
    requires forall p :: p in points ==> p.date in values && p.date in avgs && p == PointAt(p.date, mine, values, myAvgs, avgs)
    requires forall d :: d in values ==> d in avgs && PointAt(d, mine, values, myAvgs, avgs) in points
    requires mine.Keys <= values.Keys && myAvgs.Keys <= values.Keys && avgs.Keys <= values.Keys
    ensures Holds(ColumnOf(points, MineCol), mine)
    ensures Holds(ColumnOf(points, TheirsCol), values)
    ensures Holds(ColumnOf(points, MyAvgCol), Lift(myAvgs))
    ensures Holds(ColumnOf(points, TheirAvgCol), avgs)
  {
    forall d | d in values
      ensures exists p :: p in points && p.date == d
    {
      assert PointAt(d, mine, values, myAvgs, avgs) in points;
    }
    ColumnHolds(points, MineCol, mine);
    ColumnHolds(points, TheirsCol, values);
    ColumnHolds(points, MyAvgCol, Lift(myAvgs));
    ColumnHolds(points, TheirAvgCol, avgs);
  }

  /** A "to" answer of 0 has a value but never a moving average (zero values are
    * skipped by the window), so `answers_with_average` raises KeyError for any "to"
    * party that answered 0 on some day. */
  lemma ZeroAnswerHasNoAverage()
    ensures var rows := [Answer(0, 7, 1, 100, Some(0.0), false)];
      100 in ValuesOf(rows, OfProfile(7), 1) && 100 !in AvgsOf(rows, OfProfile(7), 1)
  {
    var rows := [Answer(0, 7, 1, 100, Some(0.0), false)];
    var series := SeriesOf(rows, OfProfile(7), 1);
    assert rows[0] in series;
    assert |Of(rows, Some(7), 1)| <= 1 by {
      assert |multiset(Of(rows, Some(7), 1))| <= |multiset(rows)|;
    }
    assert |multiset(series)| == |multiset(Of(rows, Some(7), 1))|;
    assert series == rows;
    assert Pairs(series) == [(100, Some(0.0))];
  }

  // ---------------------------------------------------------------- IndicatorManager.next

  /** Python's list.remove: drops the first occurrence, ValueError when there is none. */
  function RemoveFirst(xs: seq<IndicatorId>, x: IndicatorId): (r: Result<seq<IndicatorId>>)
    ensures r.Err? <==> x !in xs
    ensures r.Err? ==> r.error == ValueError
    ensures r.Ok? ==> |r.value| == |xs| - 1
  {
    if xs == [] then Err(ValueError)
    else if xs[0] == x then Ok(xs[1..])
    else
      var rest :- RemoveFirst(xs[1..], x);
      Ok([xs[0]] + rest)
  }

  /** The answers next() looks at: the user's rows of that day for one of the ids, in
    * table order (skipped ones included). */
  function DayRows(rows: seq<Answer>, ids: seq<IndicatorId>, user: UserId, day: Date): (r: seq<Answer>)
    ensures forall a :: a in r ==> a in rows && a.indicator in ids && a.user == user && a.date == day
    ensures forall k :: 0 <= k < |rows| && rows[k].indicator in ids && rows[k].user == user && rows[k].date == day ==> rows[k] in r
  {
    if rows == [] then []
    else
      var a := rows[|rows| - 1];
      DayRows(rows[..|rows| - 1], ids, user, day) + (if a.indicator in ids && a.user == user && a.date == day then [a] else [])
  }

  /** The id list after next()'s removal loop. */
  function RemoveEach(ids: seq<IndicatorId>, answers: seq<Answer>): Result<seq<IndicatorId>>
  {
    if answers == [] then Ok(ids)
    else
      var before :- RemoveEach(ids, answers[..|answers| - 1]);
      RemoveFirst(before, answers[|answers| - 1].indicator)
  }

  /** The removal loop of `next`: each answered indicator's id is removed from the list in
    * turn, and the first id that is not there stops it with ValueError. */
  method RemoveAnswered(ids: seq<IndicatorId>, today: seq<Answer>) returns (r: Result<seq<IndicatorId>>)
    ensures r == RemoveEach(ids, today)
  {
    var left := ids;
    for i := 0 to |today|
      invariant RemoveEach(ids, today[..i]) == Ok(left)
    {
      assert today[..i + 1][..i] == today[..i];
      var removed := RemoveFirst(left, today[i].indicator);
      if removed.Err? {
        RemoveErrorPersists(ids, today, i + 1);
        return Err(removed.error);
      }
      left := removed.value;
    }
    assert today[..|today|] == today;
    return Ok(left);
  }

  /** IndicatorManager.next, as a function of the table: the regular indicators' ids by
    * position, less the ones answered on `day` (yesterday in the user's time zone); the
    * first left, or DoesNotExist when none is left. */
  function NextOf(w: World, rows: seq<Answer>, campaign: CampaignId, user: UserId, day: Date): Result<Indicator>
  {
    var ids := Ids(RegularIndicators(w.catalogue, campaign));
    var left :- RemoveEach(ids, DayRows(rows, ids, user, day));
    if left == [] then Err(DoesNotExist) else GetCached(w.catalogue, campaign, left[0])
  }

  ghost predicate Answered(rows: seq<Answer>, user: UserId, id: IndicatorId, day: Date)
  {
    exists k :: 0 <= k < |rows| && HasKey(rows[k], user, id, day)
  }

  ghost predicate DistinctIds(inds: seq<Indicator>)
  {
    forall i, j :: 0 <= i < j < |inds| ==> inds[i].id != inds[j].id
  }

  /** The ids of xs outside s, in order. */
  function Without(xs: seq<IndicatorId>, s: set<IndicatorId>): (r: seq<IndicatorId>)
    ensures forall x :: x in r <==> x in xs && x !in s
  {
    if xs == [] then [] else (if xs[0] in s then [] else [xs[0]]) + Without(xs[1..], s)
  }

  lemma {:induction false} WithoutIgnores(xs: seq<IndicatorId>, s: set<IndicatorId>, x: IndicatorId)
    requires x !in xs
    ensures Without(xs, s + {x}) == Without(xs, s)
  {
    if xs != [] {
      WithoutIgnores(xs[1..], s, x);
    }
  }

  /** Removing an id that is still there from a list of distinct ids adds it to the
    * removed set. */
  lemma {:induction false} RemoveFirstWithout(xs: seq<IndicatorId>, s: set<IndicatorId>, x: IndicatorId)
    requires forall i, j :: 0 <= i < j < |xs| ==> xs[i] != xs[j]
    requires x in xs && x !in s
    ensures RemoveFirst(Without(xs, s), x) == Ok(Without(xs, s + {x}))
  {
    if xs[0] == x {
      assert x !in xs[1..];
      WithoutIgnores(xs[1..], s, x);
      assert Without(xs, s) == [x] + Without(xs[1..], s);
      assert Without(xs, s + {x}) == Without(xs[1..], s + {x});
    } else {
      RemoveFirstWithout(xs[1..], s, x);
      var rest, rest' := Without(xs[1..], s), Without(xs[1..], s + {x});
      if xs[0] in s {
        assert Without(xs, s) == rest;
        assert Without(xs, s + {x}) == rest';
      } else {
        assert xs[0] !in s + {x};
        assert Without(xs, s) == [xs[0]] + rest;
        assert Without(xs, s + {x}) == [xs[0]] + rest';
        assert ([xs[0]] + rest)[1..] == rest;
      }
    }
  }

  function IndicatorsOf(answers: seq<Answer>): set<IndicatorId>
  {
    set a | a in answers :: a.indicator
  }

  /** With distinct ids and distinct answered indicators, the removal loop leaves exactly
    * the unanswered ids, in order. */
  lemma {:induction false} RemoveEachWithout(ids: seq<IndicatorId>, answers: seq<Answer>)
    requires forall i, j :: 0 <= i < j < |ids| ==> ids[i] != ids[j]
    requires DistinctIndicators(answers)
    requires forall a :: a in answers ==> a.indicator in ids
    ensures RemoveEach(ids, answers) == Ok(Without(ids, IndicatorsOf(answers)))
  {
    if answers == [] {
      assert IndicatorsOf(answers) == {};
      assert Without(ids, {}) == ids by {
        WithoutNone(ids);
      }
    } else {
      var init, last := answers[..|answers| - 1], answers[|answers| - 1];
      LastIndicatorFresh(answers);
      RemoveEachWithout(ids, init);
      assert last in answers;
      RemoveFirstWithout(ids, IndicatorsOf(init), last.indicator);
      IndicatorsOfSnoc(init, last);
      assert answers == init + [last];
    }
  }

  lemma LastIndicatorFresh(answers: seq<Answer>)
    requires answers != [] && DistinctIndicators(answers)
    ensures var init := answers[..|answers| - 1];
      DistinctIndicators(init) && (forall a :: a in init ==> a in answers)
      && answers[|answers| - 1].indicator !in IndicatorsOf(init)
  {
    var init, last := answers[..|answers| - 1], answers[|answers| - 1];
    forall a | a in init
      ensures a.indicator != last.indicator
    {
      var k :| 0 <= k < |init| && init[k] == a;
      assert answers[k] == a;
    }
  }

  lemma IndicatorsOfSnoc(init: seq<Answer>, last: Answer)
    ensures IndicatorsOf(init + [last]) == IndicatorsOf(init) + {last.indicator}
  {
    assert forall a :: a in init + [last] <==> a in init || a == last;
  }

  lemma {:induction false} WithoutNone(xs: seq<IndicatorId>)
    ensures Without(xs, {}) == xs
  {
    if xs != [] {
      WithoutNone(xs[1..]);
    }
  }

  /** The position of the first id Without keeps: the first one of xs outside s. */
  function FirstKept(xs: seq<IndicatorId>, s: set<IndicatorId>): (k: nat)
    requires Without(xs, s) != []
    ensures k < |xs| && xs[k] == Without(xs, s)[0] && xs[k] !in s
    ensures forall j :: 0 <= j < k ==> xs[j] in s
  {
    if xs[0] !in s then 0
    else
      var k := FirstKept(xs[1..], s);
      assert xs[k + 1] == xs[1..][k];
      assert forall j :: 0 < j <= k ==> xs[j] == xs[1..][j - 1];
      k + 1
  }

  ghost predicate DistinctIndicators(answers: seq<Answer>)
  {
    forall i, j :: 0 <= i < j < |answers| ==> answers[i].indicator != answers[j].indicator
  }

  /** In a well-formed table the day's rows hold each indicator at most once. */
  lemma {:induction false} DayRowsDistinct(rows: seq<Answer>, nextId: nat, ids: seq<IndicatorId>, user: UserId, day: Date)
    requires WellFormed(rows, nextId)
    ensures DistinctIndicators(DayRows(rows, ids, user, day))
  {
    if rows != [] {
      var init, a := rows[..|rows| - 1], rows[|rows| - 1];
      assert WellFormed(init, nextId);
      DayRowsDistinct(init, nextId, ids, user, day);
      var before := DayRows(init, ids, user, day);
      var r := DayRows(rows, ids, user, day);
      if a.indicator in ids && a.user == user && a.date == day {
        assert r == before + [a];
        forall i, j | 0 <= i < j < |r|
          ensures r[i].indicator != r[j].indicator
        {
          if j == |before| {
            var b := before[i];
            assert b in before;
            var k :| 0 <= k < |init| && init[k] == b;
            assert rows[k] == b && !SameKey(rows[k], rows[|rows| - 1]);
          } else {
            assert r[i] == before[i] && r[j] == before[j];
          }
        }
      } else {
        assert r == before;
      }
    }
  }

  /** An id is among the indicators of the day's rows exactly when the user answered it
    * that day. */
  lemma DoneIffAnswered(rows: seq<Answer>, ids: seq<IndicatorId>, user: UserId, day: Date)
    ensures forall id :: id in ids ==> (id in IndicatorsOf(DayRows(rows, ids, user, day)) <==> Answered(rows, user, id, day))
  {
    var today := DayRows(rows, ids, user, day);
    forall id | id in ids
      ensures id in IndicatorsOf(today) <==> Answered(rows, user, id, day)
    {
      if Answered(rows, user, id, day) {
        var m :| 0 <= m < |rows| && HasKey(rows[m], user, id, day);
        assert rows[m] in today;
      }
      if id in IndicatorsOf(today) {
        var a :| a in today && a.indicator == id;
        var m :| 0 <= m < |rows| && rows[m] == a;
        assert HasKey(rows[m], user, id, day);
      }
    }
  }

  lemma FindByIdAt(inds: seq<Indicator>, k: nat)
    requires DistinctIds(inds) && k < |inds|
    ensures FindById(inds, inds[k].id) == Ok(inds[k])
  {
    var found := FindById(inds, inds[k].id);
    assert found.Ok? by {
      assert inds[k] in inds;
    }
    var m :| 0 <= m < |inds| && inds[m] == found.value;
    assert m == k;
  }

  /** Once a removal fails, the whole loop fails with that error. */
  lemma {:induction false} RemoveErrorPersists(ids: seq<IndicatorId>, answers: seq<Answer>, i: nat)
    requires i <= |answers| && RemoveEach(ids, answers[..i]).Err?
    ensures RemoveEach(ids, answers) == RemoveEach(ids, answers[..i])
    decreases |answers| - i
  {
    if i < |answers| {
      assert answers[..i + 1][..i] == answers[..i];
      RemoveErrorPersists(ids, answers, i + 1);
    } else {
      assert answers[..i] == answers;
    }
  }

  /** The ids of a list of indicators that the user has not answered on the day, in
    * list order. */
  ghost function Unanswered(regular: seq<Indicator>, rows: seq<Answer>, user: UserId, day: Date): seq<IndicatorId>
  {
    var ids := Ids(regular);
    Without(ids, IndicatorsOf(DayRows(rows, ids, user, day)))
  }

  /** The removal loop over a list of indicators with distinct ids leaves the unanswered
    * ones, and the first of those is the first unanswered indicator of the list. */
  lemma FirstUnanswered(regular: seq<Indicator>, rows: seq<Answer>, nextId: nat, user: UserId, day: Date)
    requires WellFormed(rows, nextId) && DistinctIds(regular)
    ensures var ids := Ids(regular);
      var left := Without(ids, IndicatorsOf(DayRows(rows, ids, user, day)));
      RemoveEach(ids, DayRows(rows, ids, user, day)) == Ok(left)
      && (left == [] <==> forall k :: 0 <= k < |regular| ==> Answered(rows, user, regular[k].id, day))
      && (left != [] ==> exists k :: 0 <= k < |regular| && FindById(regular, left[0]) == Ok(regular[k])
                          && !Answered(rows, user, regular[k].id, day)
                          && forall j :: 0 <= j < k ==> Answered(rows, user, regular[j].id, day))
  {
    var ids := Ids(regular);
    DayRowsDistinct(rows, nextId, ids, user, day);
    RemoveEachWithout(ids, DayRows(rows, ids, user, day));
    NoneLeftIffAllAnswered(regular, rows, user, day);
    if Unanswered(regular, rows, user, day) != [] {
      FirstLeftUnanswered(regular, rows, user, day);
    }
  }

  /** No indicator is left exactly when the user has answered every one on the day. */
  lemma NoneLeftIffAllAnswered(regular: seq<Indicator>, rows: seq<Answer>, user: UserId, day: Date)
    ensures Unanswered(regular, rows, user, day) == []
      <==> forall k :: 0 <= k < |regular| ==> Answered(rows, user, regular[k].id, day)
  {
    var ids := Ids(regular);
    var done := IndicatorsOf(DayRows(rows, ids, user, day));
    var left := Unanswered(regular, rows, user, day);
    DoneIffAnswered(rows, ids, user, day);
    if left == [] {
      forall k | 0 <= k < |regular|
        ensures Answered(rows, user, regular[k].id, day)
      {
        assert ids[k] in ids && ids[k] !in left;
      }
    } else {
      assert left[0] in ids && left[0] !in done;
      var k :| 0 <= k < |ids| && ids[k] == left[0];
      assert !Answered(rows, user, regular[k].id, day);
    }
  }

  /** The first indicator left is the first one, by position, that the user has not
    * answered on the day. */
  lemma FirstLeftUnanswered(regular: seq<Indicator>, rows: seq<Answer>, user: UserId, day: Date)
    requires DistinctIds(regular) && Unanswered(regular, rows, user, day) != []
    ensures var left := Unanswered(regular, rows, user, day);
      exists k :: 0 <= k < |regular| && FindById(regular, left[0]) == Ok(regular[k])
        && !Answered(rows, user, regular[k].id, day)
        && forall j :: 0 <= j < k ==> Answered(rows, user, regular[j].id, day)
  {
    var ids := Ids(regular);
    var done := IndicatorsOf(DayRows(rows, ids, user, day));
    var left := Unanswered(regular, rows, user, day);
    DoneIffAnswered(rows, ids, user, day);
    var k := FirstKept(ids, done);
    FindByIdAt(regular, k);
    assert ids[k] in ids;
    forall j | 0 <= j < k
      ensures Answered(rows, user, regular[j].id, day)
    {
      assert ids[j] in ids && ids[j] in done;
    }
  }

  /** Under a well-formed table and distinct catalogue ids, next() returns the first
    * regular indicator, by position, that the user has not answered on that day, and
    * DoesNotExist exactly when every one is answered. */
  lemma NextFirstUnanswered(w: World, rows: seq<Answer>, nextId: nat, campaign: CampaignId, user: UserId, day: Date)
    requires WellFormed(rows, nextId)
    requires DistinctIds(RegularIndicators(w.catalogue, campaign))
    ensures var regular, r := RegularIndicators(w.catalogue, campaign), NextOf(w, rows, campaign, user, day);
      (r.Err? <==> forall k :: 0 <= k < |regular| ==> Answered(rows, user, regular[k].id, day))
      && (r.Err? ==> r.error == DoesNotExist)
      && (r.Ok? ==> exists k :: 0 <= k < |regular| && r.value == regular[k] && !Answered(rows, user, regular[k].id, day)
                          && forall j :: 0 <= j < k ==> Answered(rows, user, regular[j].id, day))
  {
    var regular := RegularIndicators(w.catalogue, campaign);
    var left := Unanswered(regular, rows, user, day);
    FirstUnanswered(regular, rows, nextId, user, day);
    var r := NextOf(w, rows, campaign, user, day);
    if left == [] {
      assert r == Err(DoesNotExist);
    } else {
      assert r == FindById(regular, left[0]);
      var k :| 0 <= k < |regular| && FindById(regular, left[0]) == Ok(regular[k])
        && !Answered(rows, user, regular[k].id, day)
        && forall j :: 0 <= j < k ==> Answered(rows, user, regular[j].id, day);
      assert r.value == regular[k];
    }
  }

  // ---------------------------------------------------------------- Answer.update_averages

  /** The table, its next id, and how far a sequence of recomputations got. */
  type Progress = (seq<Answer>, nat, Outcome)

  /** One `calculate_day_average` inside `update_averages`: a raise leaves the table as
    * it was and stops the sequence. */
  function DayStep(w: World, rows: seq<Answer>, nextId: nat, campaign: CampaignId, user: UserId, date: Date): (r: Progress)
    ensures r.2.Fail? <==> DayAverageRows(w, rows, nextId, campaign, user, date).Err?
    ensures r.2.Fail? ==> r.0 == rows && r.1 == nextId
  {
    var day := DayAverageRows(w, rows, nextId, campaign, user, date);
    if day.Err? then (rows, nextId, Fail(day.error)) else (day.value.0, day.value.1, Pass)
  }

  /** The group loop of `update_averages`: for each of the user's groups in turn, the
    * group's average of the indicator, then its average user's day score; the first
    * raise stops the loop. */
  function GroupAverages(w: World, rows: seq<Answer>, nextId: nat, ind: Indicator, date: Date, groups: seq<Group>): (r: Progress)
    ensures groups == [] ==> r == (rows, nextId, Pass)
  {
    if groups == [] then (rows, nextId, Pass)
    else
      var before := GroupAverages(w, rows, nextId, ind, date, groups[..|groups| - 1]);
      if before.2.Fail? then before
      else
        var g := groups[|groups| - 1];
        var avg := AverageRows(w, before.0, before.1, ind.id, date, Some(g));
        DayStep(w, avg.0, avg.1, ind.campaign, g.avgUser, date)
  }

  /** Every average `update_averages` recomputes for a non-skip answer, in order: the
    * indicator's global average, the group averages, then the day scores of the user and
    * of the average user. */
  function Recomputed(w: World, rows: seq<Answer>, nextId: nat, ind: Indicator, user: UserId, date: Date): (r: Progress)
    ensures ind.campaign !in w.overall ==> r.2.Fail?
  {
    var avg := AverageRows(w, rows, nextId, ind.id, date, None);
    var grouped := GroupAverages(w, avg.0, avg.1, ind, date, GroupsOf(w, user));
    if grouped.2.Fail? then grouped
    else
      var mine := DayStep(w, grouped.0, grouped.1, ind.campaign, user, date);
      if mine.2.Fail? then mine
      else DayStep(w, mine.0, mine.1, ind.campaign, w.averageUser, date)
  }

  /** What a recomputation may do to the table: every row keeps its place and all but
    * its value, only rows of the given day change, and new rows are of that day. */
  ghost predicate OnlyDayValues(before: seq<Answer>, after: seq<Answer>, date: Date)
  {
    |before| <= |after|
    && (forall k :: 0 <= k < |before| ==> after[k] == before[k].(num := after[k].num))
    && (forall k :: 0 <= k < |before| && before[k].date != date ==> after[k] == before[k])
    && (forall k :: |before| <= k < |after| ==> after[k].date == date)
  }

  lemma OnlyDayValuesTrans(a: seq<Answer>, b: seq<Answer>, c: seq<Answer>, date: Date)
    requires OnlyDayValues(a, b, date) && OnlyDayValues(b, c, date)
    ensures OnlyDayValues(a, c, date)
  {
    forall k | 0 <= k < |a|
      ensures c[k] == a[k].(num := c[k].num)
    {
      assert c[k] == b[k].(num := c[k].num);
    }
  }

  /** Upserting a value (and no skip flag) changes only that value, on that day. */
  lemma UpsertOnlyDayValue(rows: seq<Answer>, nextId: nat, user: UserId, ind: IndicatorId, date: Date, num: Option<real>)
    ensures OnlyDayValues(rows, Upsert(rows, nextId, user, ind, date, num, None).0, date)
  {
  }

  /** Indicator.average keeps the table well formed and writes only on its day. */
  lemma AverageStepOutcome(w: World, rows: seq<Answer>, nextId: nat, ind: IndicatorId, date: Date, group: Option<Group>)
    requires WellFormed(rows, nextId)
    ensures var r := AverageRows(w, rows, nextId, ind, date, group);
      WellFormed(r.0, r.1) && OnlyDayValues(rows, r.0, date)
  {
    AverageOutcome(w, rows, nextId, ind, date, group);
    var s := Sample(w, rows, ind, date, group);
    if |s| > 0 {
      UpsertOnlyDayValue(rows, nextId, AvgUserFor(w, group), ind, date, Some(Mean(s)));
    }
  }

  /** So does calculate_day_average, whether or not it raises. */
  lemma DayStepOutcome(w: World, rows: seq<Answer>, nextId: nat, campaign: CampaignId, user: UserId, date: Date)
    requires WellFormed(rows, nextId)
    ensures var r := DayStep(w, rows, nextId, campaign, user, date);
      WellFormed(r.0, r.1) && OnlyDayValues(rows, r.0, date)
  {
    if DayAverageRows(w, rows, nextId, campaign, user, date).Ok? {
      DayAverageOutcome(w, rows, nextId, campaign, user, date);
      var regular := Ids(RegularIndicators(w.catalogue, campaign));
      var pcts := DayPercentages(w, rows, regular, user, date).value;
      var ints := AllIntPercentages(w, rows, regular, user, date);
      UpsertOnlyDayValue(rows, nextId, user, w.overall[campaign].id, date, Some(DayScore(pcts, ints)));
    }
  }

  /** The group loop keeps the table well formed and writes only on its day. */
  lemma {:induction false} GroupAveragesOutcome(w: World, rows: seq<Answer>, nextId: nat, ind: Indicator, date: Date, groups: seq<Group>)
    requires WellFormed(rows, nextId)
    ensures var r := GroupAverages(w, rows, nextId, ind, date, groups);
      WellFormed(r.0, r.1) && OnlyDayValues(rows, r.0, date)
  {
    if groups != [] {
      var init := groups[..|groups| - 1];
      GroupAveragesOutcome(w, rows, nextId, ind, date, init);
      var before := GroupAverages(w, rows, nextId, ind, date, init);
      if before.2.Pass? {
        var g := groups[|groups| - 1];
        AverageStepOutcome(w, before.0, before.1, ind.id, date, Some(g));
        var avg := AverageRows(w, before.0, before.1, ind.id, date, Some(g));
        DayStepOutcome(w, avg.0, avg.1, ind.campaign, g.avgUser, date);
        OnlyDayValuesTrans(rows, before.0, avg.0, date);
        OnlyDayValuesTrans(rows, avg.0, DayStep(w, avg.0, avg.1, ind.campaign, g.avgUser, date).0, date);
      }
    }
  }

  /** Recomputing the averages of an answer keeps the table well formed, however far it
    * gets, and changes nothing but values on the answer's day and new rows for it. */
  lemma RecomputedOutcome(w: World, rows: seq<Answer>, nextId: nat, ind: Indicator, user: UserId, date: Date)
    requires WellFormed(rows, nextId)
    ensures var r := Recomputed(w, rows, nextId, ind, user, date);
      WellFormed(r.0, r.1) && OnlyDayValues(rows, r.0, date)
  {
    AverageStepOutcome(w, rows, nextId, ind.id, date, None);
    var avg := AverageRows(w, rows, nextId, ind.id, date, None);
    GroupAveragesOutcome(w, avg.0, avg.1, ind, date, GroupsOf(w, user));
    var grouped := GroupAverages(w, avg.0, avg.1, ind, date, GroupsOf(w, user));
    OnlyDayValuesTrans(rows, avg.0, grouped.0, date);
    if grouped.2.Pass? {
      DayStepOutcome(w, grouped.0, grouped.1, ind.campaign, user, date);
      var mine := DayStep(w, grouped.0, grouped.1, ind.campaign, user, date);
      OnlyDayValuesTrans(rows, grouped.0, mine.0, date);
      if mine.2.Pass? {
        DayStepOutcome(w, mine.0, mine.1, ind.campaign, w.averageUser, date);
        OnlyDayValuesTrans(rows, mine.0, DayStep(w, mine.0, mine.1, ind.campaign, w.averageUser, date).0, date);
      }
    }
  }

  /** The users whose answers to the indicator itself a recomputation for `user`
    * writes: the global average user and the average users of the user's groups. */
  ghost predicate AverageOwner(w: World, user: UserId, u: UserId)
  {
    u == w.averageUser || exists g :: g in GroupsOf(w, user) && g.avgUser == u
  }

  /** The group loop leaves alone a row that no group average and no OVERALL score
    * writes. */
  lemma {:induction false} GroupAveragesKeep(w: World, rows: seq<Answer>, nextId: nat, ind: Indicator, date: Date, groups: seq<Group>, k: nat)
    requires k < |rows|
    requires rows[k].indicator == ind.id ==> forall g :: g in groups ==> g.avgUser != rows[k].user
    requires ind.campaign in w.overall ==> rows[k].indicator != w.overall[ind.campaign].id
    ensures var r := GroupAverages(w, rows, nextId, ind, date, groups);
      k < |r.0| && r.0[k] == rows[k]
  {
    if groups != [] {
      var init := groups[..|groups| - 1];
      var g := groups[|groups| - 1];
      assert forall h :: h in init ==> h in groups;
      GroupAveragesKeep(w, rows, nextId, ind, date, init, k);
      var before := GroupAverages(w, rows, nextId, ind, date, init);
      if before.2.Pass? {
        var avg := AverageRows(w, before.0, before.1, ind.id, date, Some(g));
        assert !HasKey(before.0[k], AvgUserFor(w, Some(g)), ind.id, date);
      }
    }
  }

  /** Recomputing the averages never overwrites a row that is neither an average user's
    * answer to the indicator nor an OVERALL score: in particular not the ordinary user's
    * answer that triggered it. */
  lemma RecomputedKeeps(w: World, rows: seq<Answer>, nextId: nat, ind: Indicator, user: UserId, date: Date, k: nat)
    requires k < |rows|
    requires rows[k].indicator == ind.id ==> !AverageOwner(w, user, rows[k].user)
    requires ind.campaign in w.overall ==> rows[k].indicator != w.overall[ind.campaign].id
    ensures var r := Recomputed(w, rows, nextId, ind, user, date);
      k < |r.0| && r.0[k] == rows[k]
  {
    var avg := AverageRows(w, rows, nextId, ind.id, date, None);
    assert avg.0[k] == rows[k];
    GroupAveragesKeep(w, avg.0, avg.1, ind, date, GroupsOf(w, user), k);
    var grouped := GroupAverages(w, avg.0, avg.1, ind, date, GroupsOf(w, user));
    if grouped.2.Pass? {
      DayStepKeeps(w, grouped.0, grouped.1, ind.campaign, user, date, k);
      var mine := DayStep(w, grouped.0, grouped.1, ind.campaign, user, date);
      if mine.2.Pass? {
        DayStepKeeps(w, mine.0, mine.1, ind.campaign, w.averageUser, date, k);
      }
    }
  }

  /** calculate_day_average leaves alone every row that is not an OVERALL score. */
  lemma DayStepKeeps(w: World, rows: seq<Answer>, nextId: nat, campaign: CampaignId, user: UserId, date: Date, k: nat)
    requires k < |rows|
    requires campaign in w.overall ==> rows[k].indicator != w.overall[campaign].id
    ensures var r := DayStep(w, rows, nextId, campaign, user, date);
      k < |r.0| && r.0[k] == rows[k]
  {
  }

  /** Once a group's recomputation raises, the rest of the loop is skipped. */
  lemma {:induction false} GroupFailPersists(w: World, rows: seq<Answer>, nextId: nat, ind: Indicator, date: Date, groups: seq<Group>, i: nat)
    requires i <= |groups| && GroupAverages(w, rows, nextId, ind, date, groups[..i]).2.Fail?
    ensures GroupAverages(w, rows, nextId, ind, date, groups) == GroupAverages(w, rows, nextId, ind, date, groups[..i])
    decreases |groups| - i
  {
    if i < |groups| {
      assert groups[..i + 1][..i] == groups[..i];
      GroupFailPersists(w, rows, nextId, ind, date, groups, i + 1);
    } else {
      assert groups[..i] == groups;
    }
  }

  /** Profile.update_compared_to_average's new distance: the raw difference between the
    * user's and the average user's OVERALL percentages for the day, with the default
    * tolerance of 5; it needs both OVERALL answers, the user's a non-skip one. */
  function NewDistance(w: World, rows: seq<Answer>, campaign: CampaignId, user: UserId, date: Date): (r: Result<real>)
    ensures campaign !in w.overall ==> r == Err(DoesNotExist)
    ensures r.Ok? ==> (campaign in w.overall
                       && GetAnswer(rows, user, w.overall[campaign].id, date, true).Ok?
                       && GetAnswer(rows, w.averageUser, w.overall[campaign].id, date, false).Ok?)
  {
    if campaign !in w.overall then Err(DoesNotExist)
    else
      var c :- ComparedToAverage(rows, w.overall[campaign], user, w.averageUser, date, 5.0);
      Ok(c.1)
  }

  // ---------------------------------------------------------------- AnswerManager.create_update

  /** The value `create_update` stores: nothing for a skip, otherwise the integer part of
    * the value, truncated toward zero as `int()` does. */
  function Stored(value: real, isSkip: bool): (r: Option<real>)
    ensures r.None? <==> isSkip
    ensures r.Some? ==> r.value.Floor as real == r.value
    ensures r.Some? && 0.0 <= value ==> 0.0 <= r.value <= value < r.value + 1.0
    ensures r.Some? && value < 0.0 ==> value <= r.value <= 0.0 && r.value - 1.0 < value
  {
    if isSkip then None else Some(Trunc(value) as real)
  }

  /** Where `save()` writes an answer that already has an id: the row with that id. */
  function RowOf(rows: seq<Answer>, id: nat): (r: Option<nat>)
    ensures r.Some? ==> r.value < |rows| && rows[r.value].id == id
    ensures r.None? ==> forall k :: 0 <= k < |rows| ==> rows[k].id != id
  {
    if rows == [] then None
    else if rows[0].id == id then Some(0)
    else
      var r := RowOf(rows[1..], id);
      if r.None? then None else Some(r.value + 1)
  }

  /** In a well-formed table the row holding a given answer is the row `get` finds for
    * its key. */
  lemma GivenRow(rows: seq<Answer>, nextId: nat, a: Answer)
    requires WellFormed(rows, nextId) && a in rows
    ensures RowOf(rows, a.id) == FindKey(rows, a.user, a.indicator, a.date)
    ensures RowOf(rows, a.id).Some? && rows[RowOf(rows, a.id).value] == a
  {
    var j :| 0 <= j < |rows| && rows[j] == a;
    var i := RowOf(rows, a.id).value;
    var f := FindKey(rows, a.user, a.indicator, a.date).value;
    assert rows[i].id == rows[j].id && SameKey(rows[f], rows[j]);
  }

  /** The number a form hands to `create_update`: a blank answer is None, which only a
    * skip, whose value is never read, gets past `int()`. */
  function AnswerValue(value: Option<real>): real
  {
    if value.Some? then value.value else 0.0
  }

  /** The table after `create_update` saves the answer. */
  function Saved(rows: seq<Answer>, nextId: nat, user: UserId, ind: IndicatorId, date: Date, value: real, isSkip: bool): (seq<Answer>, nat)
  {
    Upsert(rows, nextId, user, ind, date, Stored(value, isSkip), Some(isSkip))
  }

  /** The answer `create_update` saves and returns: the existing row for the key, or a
    * new one with the next id, holding the stored value and the skip flag. */
  function SavedAnswer(rows: seq<Answer>, nextId: nat, user: UserId, ind: IndicatorId, date: Date, value: real, isSkip: bool): (r: Answer)
    ensures HasKey(r, user, ind, date) && r.num == Stored(value, isSkip) && r.isSkip == isSkip
    ensures r.id == if FindKey(rows, user, ind, date).Some? then rows[FindKey(rows, user, ind, date).value].id else nextId
    ensures r in Saved(rows, nextId, user, ind, date, value, isSkip).0
  {
    var found := FindKey(rows, user, ind, date);
    var saved := Saved(rows, nextId, user, ind, date, value, isSkip).0;
    saved[if found.Some? then found.value else |rows|]
  }

  // ---------------------------------------------------------------- the table

  class AnswerTable {
    var rows: seq<Answer>
    var nextId: nat
    /** Answer ids sent on the recompute queue (SUBJECT_AVG messages), oldest first. */
    ghost var sent: seq<nat>

    ghost predicate Valid()
      reads this
    {
      WellFormed(rows, nextId)
    }

    constructor ()
      ensures Valid() && rows == [] && sent == []
    {
      rows, nextId, sent := [], 0, [];
    }

    /** Indicator.average: the mean of the day's counted answers, written as the average
      * user's answer, or nothing when no answer counts. */
    method Average(w: World, ind: Indicator, date: Date, group: Option<Group>)
      requires Valid()
      modifies this
      ensures Valid()
      ensures (rows, nextId) == AverageRows(w, old(rows), old(nextId), ind.id, date, group)
      ensures sent == old(sent)
    {
      var sum, count := Tally(w, ind.id, date, group);
      AverageOutcome(w, rows, nextId, ind.id, date, group);
      if count != 0 {
        var up := Upsert(rows, nextId, AvgUserFor(w, group), ind.id, date, Some(sum / count as real), None);
        rows, nextId := up.0, up.1;
      }
    }

    /** The accumulation loop of Indicator.average: the sum and the number of the
      * counted values. */
    method Tally(w: World, ind: IndicatorId, date: Date, group: Option<Group>) returns (sum: real, count: nat)
      ensures sum == Sum(Sample(w, rows, ind, date, group))
      ensures count == |Sample(w, rows, ind, date, group)|
    {
      sum, count := 0.0, 0;
      for i := 0 to |rows|
        invariant sum == Sum(Sample(w, rows[..i], ind, date, group))
        invariant count == |Sample(w, rows[..i], ind, date, group)|
      {
        var a := rows[i];
        assert rows[..i + 1][..i] == rows[..i];
        assert Sample(w, rows[..i + 1], ind, date, group)
          == Sample(w, rows[..i], ind, date, group) + (if Counted(w, a, ind, date, group) then [a.num.value] else []);
        if a.indicator == ind && a.date == date && !a.isSkip && !IsSystem(w, a.user)
          && (group.Some? ==> group.value in GroupsOf(w, a.user)) && Truthy(a.num) {
          SumAppend(Sample(w, rows[..i], ind, date, group), a.num.value);
          sum, count := sum + a.num.value, count + 1;
        } else {
          assert Sample(w, rows[..i + 1], ind, date, group) == Sample(w, rows[..i], ind, date, group);
        }
      }
      assert rows[..|rows|] == rows;
    }

    /** IndicatorManager.calculate_day_average: the mean percentage of the user's answers
      * that day, written against the campaign's OVERALL indicator unless it is 0. */
    method CalculateDayAverage(w: World, campaign: CampaignId, user: UserId, date: Date) returns (r: Outcome)
      requires Valid()
      modifies this
      ensures Valid()
      ensures var spec := DayAverageRows(w, old(rows), old(nextId), campaign, user, date);
        (r.Fail? <==> spec.Err?) && (r.Fail? ==> r.error == spec.error && rows == old(rows) && nextId == old(nextId))
        && (r.Pass? ==> (rows, nextId) == spec.value)
      ensures sent == old(sent)
    {
      if campaign !in w.overall {
        return Fail(DoesNotExist);
      }
      var overall := w.overall[campaign];
      var regular := Ids(RegularIndicators(w.catalogue, campaign));
      var totals := DayTotals(w, regular, user, date);
      if totals.Err? {
        return Fail(totals.error);
      }
      var (total, count, ints) := totals.value;
      DayAverageOutcome(w, rows, nextId, campaign, user, date);
      if ints && count > 0 {
        IntPercentagesWhole(w, rows, regular, user, date);
        IntScore(DayPercentages(w, rows, regular, user, date).value);
      }
      var result := if count == 0 then 0.0
        else if ints then FloorDiv(total.Floor, count) as real
        else total / count as real;
      if result != 0.0 {
        var up := Upsert(rows, nextId, user, overall.id, date, Some(result), None);
        rows, nextId := up.0, up.1;
      }
      return Pass;
    }

    /** The accumulation loop of calculate_day_average: the sum and the number of the
      * percentages, and whether the sum is still a Python int, or the error the first
      * failing percentage raises. */
    method DayTotals(w: World, regular: seq<IndicatorId>, user: UserId, date: Date) returns (r: Result<(real, nat, bool)>)
      ensures var spec := DayPercentages(w, rows, regular, user, date);
        (r.Err? <==> spec.Err?) && (r.Err? ==> r.error == spec.error)
        && (r.Ok? ==> r.value == (Sum(spec.value), |spec.value|, AllIntPercentages(w, rows, regular, user, date)))
    {
      var total, count, ints := 0.0, 0, true;
      for i := 0 to |rows|
        invariant DayPercentages(w, rows[..i], regular, user, date).Ok?
        invariant total == Sum(DayPercentages(w, rows[..i], regular, user, date).value)
        invariant count == |DayPercentages(w, rows[..i], regular, user, date).value|
        invariant ints == AllIntPercentages(w, rows[..i], regular, user, date)
      {
        var a := rows[i];
        PercentagesStep(w, rows, regular, user, date, i);
        IntStep(w, rows, regular, user, date, i);
        if a.user == user && a.date == date && a.indicator in regular && !a.isSkip {
          var ind := FindById(w.catalogue, a.indicator);
          if ind.Err? {
            PercentagesErrorPersists(w, rows, regular, user, date, i + 1);
            return Err(ind.error);
          }
          var pct := AsPercentage(ind.value.kind, a.num);
          if pct.Err? {
            PercentagesErrorPersists(w, rows, regular, user, date, i + 1);
            return Err(pct.error);
          }
          SumAppend(DayPercentages(w, rows[..i], regular, user, date).value, pct.value);
          total, count, ints := total + pct.value, count + 1, ints && IntPercentage(ind.value.kind, a.num);
        }
      }
      assert rows[..|rows|] == rows;
      return Ok((total, count, ints));
    }

    /** IndicatorManager.next: removes from the regular indicators' ids, by position, each
      * indicator the user answered on `day`, then looks up the first id left; by
      * NextFirstUnanswered that is the first regular indicator the user has not answered. */
    method Next(w: World, campaign: CampaignId, user: UserId, day: Date) returns (r: Result<Indicator>)
      ensures r == NextOf(w, rows, campaign, user, day)
    {
      var ids := Ids(RegularIndicators(w.catalogue, campaign));
      var removed := RemoveAnswered(ids, DayRows(rows, ids, user, day));
      if removed.Err? {
        r := Err(removed.error);
      } else if removed.value == [] {
        r := Err(DoesNotExist);
      } else {
        r := GetCached(w.catalogue, campaign, removed.value[0]);
      }
    }

    /** The fill-in loop of answers_with_average: for each date of the "from" series that
      * the "to" series lacks, look the answer up, send its id for recomputation, and
      * let both "to" maps borrow its value. Dates are taken in no particular order. */
    method FillMissing(fromU: Option<UserId>, ind: IndicatorId, series: seq<Answer>, mine: map<Date, Option<real>>,
                       theirs: map<Date, Option<real>>, theirAvgs: map<Date, Option<real>>)
      returns (values: map<Date, Option<real>>, avgs: map<Date, Option<real>>)
      requires Valid()
      requires SeriesIn(series, rows, fromU, ind)
      requires mine == Profiles.DateMap(Pairs(series))
      modifies this
      ensures rows == old(rows) && nextId == old(nextId)
      ensures values == theirs + Missing(mine, theirs)
      ensures avgs == theirAvgs + Missing(mine, theirs)
      ensures SentOnce(old(sent), sent, series, theirs)
    {
      SeriesKeys(series);
      values, avgs := theirs, theirAvgs;
      var pending := mine.Keys;
      FilledStart(theirs, mine, theirs);
      FilledStart(theirAvgs, mine, theirs);
      ghost var sentRows: seq<Answer> := [];
      ghost var out := sent;
      while pending != {}
        invariant pending <= mine.Keys
        invariant values == Filled(theirs, mine, theirs, pending)
        invariant avgs == Filled(theirAvgs, mine, theirs, pending)
        invariant Bookkept(old(sent), out, sentRows, series, theirs, pending)
        modifies {}
        decreases pending
      {
        var d := Pick(pending);
        var a :| a in series && a.date == d;
        SeriesValue(rows, nextId, series, fromU, ind, a);
        FilledStep(theirs, mine, theirs, pending, d);
        FilledStep(theirAvgs, mine, theirs, pending, d);
        if d !in values {
          var got := GetAnswer(rows, fromU.value, ind, d, false);
          assert got == Ok(a);
          BookSend(old(sent), out, sentRows, series, theirs, pending, a);
          out := out + [got.value.id];
          sentRows := sentRows + [a];
          values := values[d := got.value.num];
          avgs := avgs[d := got.value.num];
        } else {
          BookSkip(old(sent), out, sentRows, series, theirs, pending, d);
        }
        pending := pending - {d};
      }
      FilledDone(theirs, mine, theirs);
      FilledDone(theirAvgs, mine, theirs);
      sent := out;
      SentComplete(rows, nextId, series, theirs, old(sent), sent, sentRows);
    }

    /** Indicator.answers_with_average: the graph data of one indicator for a "from"
      * party against a "to" party. Dates the "to" series lacks borrow the "from" value
      * (and each such answer is sent for recomputation); a "to" date without a "to"
      * moving average raises KeyError. */
    method AnswersWithAverage(ind: IndicatorId, from: Party, to: Party) returns (r: Result<Series>)
      requires Valid()
      modifies this
      ensures rows == old(rows) && nextId == old(nextId)
      ensures SentOnce(old(sent), sent, SeriesOf(rows, from, ind), ValuesOf(rows, to, ind))
      ensures r.Err? <==> exists d :: d in ValuesOf(rows, to, ind) && d !in AvgsOf(rows, to, ind)
      ensures r.Err? ==> r.error == KeyError
      ensures r.Ok? ==>
        Increasing(r.value.fromData) && Increasing(r.value.toData) && Increasing(r.value.fromAvgs) && Increasing(r.value.toAvgs)
      ensures r.Ok? ==>
        var mine, theirs := ValuesOf(rows, from, ind), ValuesOf(rows, to, ind);
        Holds(r.value.fromData, mine)
        && Holds(r.value.toData, theirs + Missing(mine, theirs))
        && Holds(r.value.fromAvgs, Lift(AvgsOf(rows, from, ind)))
        && Holds(r.value.toAvgs, Lift(AvgsOf(rows, to, ind)) + Missing(mine, theirs))
    {
      var mySeries := ByIndicator(rows, Userize(from), ind);
      var theirSeries := ByIndicator(rows, Userize(to), ind);
      var mine := Profiles.MapByDate(Pairs(mySeries));
      var theirs := Profiles.MapByDate(Pairs(theirSeries));
      var myAvgs := AggregateAverages(mySeries, WindowSize);
      var theirAvgs := AggregateAverages(theirSeries, WindowSize);
      assert myAvgs == Ok(AvgsOf(rows, from, ind)) && theirAvgs == Ok(AvgsOf(rows, to, ind));
      assert mine == ValuesOf(rows, from, ind) && theirs == ValuesOf(rows, to, ind);
      SeriesKeys(mySeries);
      SeriesKeys(theirSeries);
      var values, avgs := FillMissing(Userize(from), ind, mySeries, mine, theirs, Lift(theirAvgs.value));
      KeyErrorWhen(mine, theirs, theirAvgs.value);
      FilledKeys(mine, theirs, myAvgs.value, theirAvgs.value);
      r := Chart(mine, values, myAvgs.value, avgs);
    }

    /** Answer.update_averages: nothing for a skip; otherwise every average the answer
      * feeds is recomputed in order, and the profile's distance from the average is
      * refreshed. The first raise stops the sequence, leaving what was already written. */
    method UpdateAverages(w: World, profile: Profiles.Profile, ind: Indicator, date: Date, isSkip: bool) returns (r: Outcome)
      requires Valid()
      modifies this, profile
      ensures Valid() && sent == old(sent)
      ensures isSkip ==> r == Pass && rows == old(rows) && nextId == old(nextId)
      ensures !isSkip ==> var spec := Recomputed(w, old(rows), old(nextId), ind, profile.id, date);
        rows == spec.0 && nextId == spec.1 && (spec.2.Fail? ==> r == spec.2)
      ensures !isSkip ==> OnlyDayValues(old(rows), rows, date)
      ensures r.Pass? && !isSkip ==> NewDistance(w, rows, ind.campaign, profile.id, date) == Ok(profile.comparedToAverage)
      ensures r.Fail? && Recomputed(w, old(rows), old(nextId), ind, profile.id, date).2.Pass? ==>
        NewDistance(w, rows, ind.campaign, profile.id, date) == Err(r.error)
      ensures r.Fail? || isSkip ==> profile.comparedToAverage == old(profile.comparedToAverage)
      ensures profile.participationPoints == old(profile.participationPoints)
      ensures profile.inspirationPoints == old(profile.inspirationPoints)
      ensures profile.inspirationPointsCredit == old(profile.inspirationPointsCredit)
    {
      if isSkip {
        return Pass;
      }
      RecomputedOutcome(w, rows, nextId, ind, profile.id, date);
      Average(w, ind, date, None);
      r := AverageGroups(w, ind, date, GroupsOf(w, profile.id));
      if r.Fail? {
        return;
      }
      r := CalculateDayAverage(w, ind.campaign, profile.id, date);
      if r.Fail? {
        return;
      }
      r := CalculateDayAverage(w, ind.campaign, w.averageUser, date);
      if r.Fail? {
        return;
      }
      var distance := NewDistance(w, rows, ind.campaign, profile.id, date);
      if distance.Err? {
        return Fail(distance.error);
      }
      profile.UpdateComparedToAverage(distance.value);
      r := Pass;
    }

    /** The group loop of update_averages. */
    method AverageGroups(w: World, ind: Indicator, date: Date, groups: seq<Group>) returns (r: Outcome)
      requires Valid()
      modifies this
      ensures Valid() && sent == old(sent)
      ensures (rows, nextId, r) == GroupAverages(w, old(rows), old(nextId), ind, date, groups)
    {
      for i := 0 to |groups|
        invariant Valid() && sent == old(sent)
        invariant (rows, nextId, Pass) == GroupAverages(w, old(rows), old(nextId), ind, date, groups[..i])
      {
        assert groups[..i + 1][..i] == groups[..i];
        Average(w, ind, date, Some(groups[i]));
        var day := CalculateDayAverage(w, ind.campaign, groups[i].avgUser, date);
        if day.Fail? {
          GroupFailPersists(w, old(rows), old(nextId), ind, date, groups, i + 1);
          return day;
        }
      }
      assert groups[..|groups|] == groups;
      r := Pass;
    }

    /** The saving half of create_update: the given answer, or the one `get` finds, or
      * a new one, gets the stored value and skip flag; a new answer earns one
      * participation point. */
    method Save(profile: Profiles.Profile, ind: Indicator, date: Date, value: real, isSkip: bool, given: Option<Answer>)
      returns (answer: Answer)
      requires Valid()
      requires given.Some? ==> given.value in rows && HasKey(given.value, profile.id, ind.id, date)
      modifies this, profile
      ensures Valid() && sent == old(sent)
      ensures (rows, nextId) == Saved(old(rows), old(nextId), profile.id, ind.id, date, value, isSkip)
      ensures answer == SavedAnswer(old(rows), old(nextId), profile.id, ind.id, date, value, isSkip)
      ensures var isNew := FindKey(old(rows), profile.id, ind.id, date).None?;
        profile.participationPoints == old(profile.participationPoints) + (if isNew then 1 else 0)
      ensures profile.comparedToAverage == old(profile.comparedToAverage)
      ensures profile.inspirationPoints == old(profile.inspirationPoints)
      ensures profile.inspirationPointsCredit == old(profile.inspirationPointsCredit)
    {
      var stored := Stored(value, isSkip);
      var at := if given.Some? then RowOf(rows, given.value.id) else FindKey(rows, profile.id, ind.id, date);
      if given.Some? {
        GivenRow(rows, nextId, given.value);
      }
      UpsertOutcome(rows, nextId, profile.id, ind.id, date, stored, Some(isSkip));
      if at.Some? {
        answer := rows[at.value].(num := stored, isSkip := isSkip);
        rows := rows[at.value := answer];
      } else {
        answer := Answer(nextId, profile.id, ind.id, date, stored, isSkip);
        rows, nextId := rows + [answer], nextId + 1;
        profile.AddParticipationPoints(1);
      }
    }

    /** AnswerManager.create_update: saves the user's answer for the day (a skip stores
      * no value, anything else the value truncated to an integer), gives one
      * participation point for a new answer, and then, for a non-skip answer, either
      * recomputes the averages at once, when no indicator is left for the day, or sends
      * the answer's id for recomputation. A blank number answer that is not a skip
      * makes `int(None)` raise TypeError before anything is saved. An error from looking
      * up the next indicator (other than none being left) escapes after the save. */
    method CreateUpdate(w: World, profile: Profiles.Profile, ind: Indicator, date: Date, value: Option<real>, isSkip: bool,
                        given: Option<Answer>, yesterday: Date) returns (r: Result<Answer>)
      requires Valid()
      requires given.Some? ==> given.value in rows && HasKey(given.value, profile.id, ind.id, date)
      modifies this, profile
      ensures Valid()
      ensures !isSkip && value.None? ==>
        r == Err(TypeError) && rows == old(rows) && nextId == old(nextId) && sent == old(sent)
        && profile.participationPoints == old(profile.participationPoints)
        && profile.comparedToAverage == old(profile.comparedToAverage)
      ensures var isNew := FindKey(old(rows), profile.id, ind.id, date).None?;
        isSkip || value.Some? ==>
        profile.participationPoints == old(profile.participationPoints) + (if isNew then 1 else 0)
      ensures var saved := Saved(old(rows), old(nextId), profile.id, ind.id, date, AnswerValue(value), isSkip);
        var answer := SavedAnswer(old(rows), old(nextId), profile.id, ind.id, date, AnswerValue(value), isSkip);
        var next := NextOf(w, saved.0, ind.campaign, profile.id, yesterday);
        isSkip || value.Some? ==>
        (next.Err? && next.error != DoesNotExist ==> r == Err(next.error))
        && (isSkip || next.Err? ==> sent == old(sent))
        && (isSkip || next.Ok? ==> rows == saved.0 && nextId == saved.1 && profile.comparedToAverage == old(profile.comparedToAverage))
        && (isSkip && (next.Ok? || next == Err(DoesNotExist)) ==> r == Ok(answer))
        && (!isSkip && next.Ok? ==> r == Ok(answer) && sent == old(sent) + [answer.id])
      ensures var saved := Saved(old(rows), old(nextId), profile.id, ind.id, date, AnswerValue(value), isSkip);
        var answer := SavedAnswer(old(rows), old(nextId), profile.id, ind.id, date, AnswerValue(value), isSkip);
        var spec := Recomputed(w, saved.0, saved.1, ind, profile.id, date);
        !isSkip && value.Some? && NextOf(w, saved.0, ind.campaign, profile.id, yesterday) == Err(DoesNotExist) ==>
          rows == spec.0 && nextId == spec.1
          && (spec.2.Fail? ==> r == Err(spec.2.error) && profile.comparedToAverage == old(profile.comparedToAverage))
          && (spec.2.Pass? ==> var d := NewDistance(w, rows, ind.campaign, profile.id, date);
                (d.Err? ==> r == Err(d.error) && profile.comparedToAverage == old(profile.comparedToAverage))
                && (d.Ok? ==> r == Ok(answer) && profile.comparedToAverage == d.value))
      ensures profile.inspirationPoints == old(profile.inspirationPoints)
      ensures profile.inspirationPointsCredit == old(profile.inspirationPointsCredit)
    {
      if !isSkip && value.None? {
        return Err(TypeError);
      }
      var answer := Save(profile, ind, date, AnswerValue(value), isSkip, given);
      var next := Next(w, ind.campaign, profile.id, yesterday);
      if next.Err? && next.error != DoesNotExist {
        return Err(next.error);
      }
      if !isSkip {
        if next.Err? {
          var outcome := UpdateAverages(w, profile, ind, date, false);
          if outcome.Fail? {
            return Err(outcome.error);
          }
        } else {
          sent := sent + [answer.id];
        }
      }
      r := Ok(answer);
    }
  }

  /** One more row of the table: a row that counts adds its percentage, or raises what
    * looking up its indicator or its percentage raises; any other row adds nothing. */
  lemma PercentagesStep(w: World, rows: seq<Answer>, regular: seq<IndicatorId>, user: UserId, date: Date, i: nat)
    requires i < |rows| && DayPercentages(w, rows[..i], regular, user, date).Ok?
    ensures var prev, a := DayPercentages(w, rows[..i], regular, user, date).value, rows[i];
      var next := DayPercentages(w, rows[..i + 1], regular, user, date);
      if a.user == user && a.date == date && a.indicator in regular && !a.isSkip then
        var ind := FindById(w.catalogue, a.indicator);
        (ind.Err? ==> next == Err(ind.error))
        && (ind.Ok? ==> var pct := AsPercentage(ind.value.kind, a.num);
              (pct.Err? ==> next == Err(pct.error)) && (pct.Ok? ==> next == Ok(prev + [pct.value])))
      else next == Ok(prev)
  {
    assert rows[..i + 1][..i] == rows[..i];
  }

  /** Once an answer's percentage raises, the whole computation raises. */
  lemma {:induction false} PercentagesErrorPersists(w: World, rows: seq<Answer>, regular: seq<IndicatorId>, user: UserId, date: Date, i: nat)
    requires i <= |rows| && DayPercentages(w, rows[..i], regular, user, date).Err?
    ensures DayPercentages(w, rows, regular, user, date) == DayPercentages(w, rows[..i], regular, user, date)
    decreases |rows| - i
  {
    if i < |rows| {
      assert rows[..i + 1][..i] == rows[..i];
      PercentagesErrorPersists(w, rows, regular, user, date, i + 1);
    } else {
      assert rows[..i] == rows;
    }
  }
}
