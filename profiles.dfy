/** profile/models.py: the user profile's score fields, ranking and school-type grade,
  * avatar file names, and the date-keyed answer map. */
module Profiles {
  import opened Wrappers
  import opened Text

  type Date = int

  /** GRADES, best first (profile/models.py:43). */
  const Grades: seq<string> := ["A+", "A", "B+", "B", "C+", "C"]

  /** A Good Energy user profile: the fields the core updates in place. */
  class Profile {
    const id: nat
    var comparedToAverage: real
    var participationPoints: int
    var inspirationPoints: int
    var inspirationPointsCredit: int
    /** How many times `save()` has written this profile. */
    ghost var saves: nat

    /** A new profile with the model defaults: distance 0, one point of each kind. */
    constructor (id: nat)
      ensures this.id == id && comparedToAverage == 0.0
      ensures participationPoints == 1 && inspirationPoints == 1 && inspirationPointsCredit == 1
      ensures saves == 0
    {
      this.id := id;
      comparedToAverage := 0.0;
      participationPoints, inspirationPoints, inspirationPointsCredit := 1, 1, 1;
      saves := 0;
    }

    /** `ranking`: one plus the number of campaign members strictly ahead of this profile;
      * ties share a rank. */
    function Ranking(campaignScores: seq<real>): (r: nat)
      reads this
      ensures 1 <= r <= |campaignScores| + 1
      ensures comparedToAverage in campaignScores ==> r <= |campaignScores|
      ensures r == 1 <==> forall s :: s in campaignScores ==> s <= comparedToAverage
    {
      MemberHasRoom(campaignScores, comparedToAverage);
      NoneAbove(campaignScores, comparedToAverage);
      CountAbove(campaignScores, comparedToAverage) + 1
    }

    method AddParticipationPoints(points: int)
      modifies this
      ensures participationPoints == old(participationPoints) + points
      ensures comparedToAverage == old(comparedToAverage)
      ensures inspirationPoints == old(inspirationPoints)
      ensures inspirationPointsCredit == old(inspirationPointsCredit)
      ensures saves == old(saves) + 1
    {
      participationPoints := participationPoints + points;
      saves := saves + 1;
    }

    /** Moves one inspiration point from this profile's credit to the receiver's points,
      * without checking that any credit is left. */
    method GiveInspirationPoint(receiver: Profile)
      modifies this, receiver
      ensures inspirationPointsCredit == old(inspirationPointsCredit) - 1
      ensures receiver.inspirationPoints == old(receiver.inspirationPoints) + 1
      ensures receiver != this ==> inspirationPoints == old(inspirationPoints)
      ensures receiver != this ==> receiver.inspirationPointsCredit == old(receiver.inspirationPointsCredit)
      ensures participationPoints == old(participationPoints)
      ensures receiver.participationPoints == old(receiver.participationPoints)
      ensures comparedToAverage == old(comparedToAverage)
      ensures receiver.comparedToAverage == old(receiver.comparedToAverage)
      ensures receiver != this ==> saves == old(saves) + 1 && receiver.saves == old(receiver.saves) + 1
      ensures receiver == this ==> saves == old(saves) + 2
    {
      inspirationPointsCredit := inspirationPointsCredit - 1;
      receiver.inspirationPoints := receiver.inspirationPoints + 1;
      saves := saves + 1;
      receiver.saves := receiver.saves + 1;
    }

    /** Participation points become the number of the user's answers, status entries and
      * comments, counted by the caller. */
    method RecalcPoints(answers: nat, statusUpdates: nat, comments: nat)
      modifies this
      ensures participationPoints == answers + statusUpdates + comments
      ensures comparedToAverage == old(comparedToAverage)
      ensures inspirationPoints == old(inspirationPoints)
      ensures inspirationPointsCredit == old(inspirationPointsCredit)
      ensures saves == old(saves) + 1
    {
      participationPoints := answers + statusUpdates + comments;
      saves := saves + 1;
    }

    /** Stores the raw (untoleranced) distance from the average; saves only on a change. */
    method UpdateComparedToAverage(newDistance: real)
      modifies this
      ensures comparedToAverage == newDistance
      ensures saves == if old(comparedToAverage) == newDistance then old(saves) else old(saves) + 1
      ensures participationPoints == old(participationPoints)
      ensures inspirationPoints == old(inspirationPoints)
      ensures inspirationPointsCredit == old(inspirationPointsCredit)
    {
      if comparedToAverage != newDistance {
        comparedToAverage := newDistance;
        saves := saves + 1;
      }
    }
  }

  /** How many scores are strictly greater than x. */
  function CountAbove(scores: seq<real>, x: real): (n: nat)
    ensures n <= |scores|
  {
    if scores == [] then 0
    else (if scores[0] > x then 1 else 0) + CountAbove(scores[1..], x)
  }

  /** A better score never has more scores above it, so never ranks lower. */
  lemma {:induction false} RankMonotone(scores: seq<real>, a: real, b: real)
    requires a <= b
    ensures CountAbove(scores, b) <= CountAbove(scores, a)
  {
    if scores != [] {
      RankMonotone(scores[1..], a, b);
    }
  }

  /** A member of the campaign is not above itself, so fewer than all members are above
    * it. */
  lemma {:induction false} MemberHasRoom(scores: seq<real>, mine: real)
    ensures mine in scores ==> CountAbove(scores, mine) < |scores|
  {
    if scores != [] && scores[0] != mine {
      MemberHasRoom(scores[1..], mine);
    }
  }

  /** Nobody is above exactly when every score is at most this one. */
  lemma {:induction false} NoneAbove(scores: seq<real>, mine: real)
    ensures CountAbove(scores, mine) == 0 <==> forall s :: s in scores ==> s <= mine
  {
    if scores != [] {
      NoneAbove(scores[1..], mine);
      if scores[0] > mine {
        assert scores[0] in scores;
      } else {
        assert forall s :: s in scores <==> s == scores[0] || s in scores[1..];
      }
    }
  }

  /** `rank`: GRADES[min(int(exact / total * 6), 5)]; a campaign with no members divides
    * by zero. */
  function Rank(exact: nat, total: nat): (r: Result<string>)
    ensures r.Err? <==> total == 0
    ensures r.Ok? ==> r.value in Grades
  {
    if total == 0 then Err(ZeroDivisionError)
    else Ok(Grades[GradeIndex(exact, total)])
  }

  /** The index into GRADES: the truncated `exact / total * 6`, capped at 5. */
  function GradeIndex(exact: nat, total: nat): (i: nat)
    requires total > 0
    ensures i <= 5
    ensures i == if (6 * exact) / total < 5 then (6 * exact) / total else 5
  {
    var scaled := (exact as real / total as real) * 6.0;
    FloorOfScaled(exact, total);
    var n := scaled.Floor;
    if n < 5 then n else 5
  }

  /** Truncating exact / total * 6 is integer division of 6 * exact by total. */
  lemma FloorOfScaled(exact: nat, total: nat)
    requires total > 0
    ensures ((exact as real / total as real) * 6.0).Floor == (6 * exact) / total
  {
    var q := (6 * exact) / total;
    var x := (exact as real / total as real) * 6.0;
    assert x == (6 * exact) as real / total as real;
    assert q * total <= 6 * exact < (q + 1) * total;
    assert (q * total) as real <= (6 * exact) as real < ((q + 1) * total) as real;
    DivBounds(q, total, (6 * exact) as real);
  }

  lemma DivBounds(q: int, t: nat, a: real)
    requires t > 0
    requires (q * t) as real <= a < ((q + 1) * t) as real
    ensures q as real <= a / t as real < (q + 1) as real
  {
    assert (q * t) as real == q as real * t as real;
    assert ((q + 1) * t) as real == (q + 1) as real * t as real;
  }

  /** Within the campaign every ranking gets a grade, and a worse ranking never gets a
    * better grade. */
  lemma RankWithinCampaign(exact1: nat, exact2: nat, total: nat)
    requires 1 <= exact1 <= exact2 <= total
    ensures Rank(exact1, total).Ok? && Rank(exact2, total).Ok?
    ensures GradeIndex(exact1, total) <= GradeIndex(exact2, total)
  {
    assert 6 * exact1 <= 6 * exact2;
    DivMonotone(6 * exact1, 6 * exact2, total);
  }

  lemma DivMonotone(a: nat, b: nat, t: nat)
    requires a <= b && t > 0
    ensures a / t <= b / t
  {
    var qa, qb := a / t, b / t;
    assert qa * t <= a <= b < (qb + 1) * t;
    MulCancel(qa, qb + 1, t);
  }

  /** The grade divides the ranking by the campaign size rather than subtracting one
    * first: the best-ranked of three members gets "B+", not "A+". */
  lemma BestOfThreeGetsBPlus()
    ensures Rank(1, 3) == Ok("B+")
  {
    assert GradeIndex(1, 3) == 2;
  }

  lemma MulCancel(x: int, y: int, t: nat)
    requires t > 0 && x * t < y * t
    ensures x < y
  {
    assert (y - x) * t > 0;
  }

  /** The avatar's file extension: the one given, else the last three characters of the
    * stored avatar's name, else those of the first `full_<id>.*` file on disk. */
  function AvatarExt(ext: Option<string>, avatarName: Option<string>, diskMatch: Option<string>): (r: Result<string>)
    ensures ext.Some? && ext.value != [] ==> r == Ok(ext.value)
    ensures (ext.None? || ext.value == []) && avatarName.Some? && avatarName.value != []
      ==> r == Ok(PyTail(avatarName.value, 3))
    ensures (ext.None? || ext.value == []) && (avatarName.None? || avatarName.value == []) && diskMatch.Some?
      ==> r == Ok(PyTail(diskMatch.value, 3))
    ensures r.Ok? && (ext.None? || ext.value == []) ==> |r.value| <= 3
    ensures r.Err? <==> (ext.None? || ext.value == []) && (avatarName.None? || avatarName.value == []) && diskMatch.None?
  {
    if ext.Some? && ext.value != [] then Ok(ext.value)
    else if avatarName.Some? && avatarName.value != [] then Ok(PyTail(avatarName.value, 3))
    else if diskMatch.Some? then Ok(PyTail(diskMatch.value, 3))
    else Err(IOError)
  }

  datatype Variant = Dark | Full | Plain

  /** The file name part of `profile_pic_filename`: the dark name is made by replacing
    * "full_" with "dark_" in the full name. */
  function PicFilename(id: nat, ext: string, variant: Variant): (name: string)
  {
    match variant
    case Dark => ReplaceAll("full_" + NatStr(id) + "." + ext, "full_", "dark_")
    case Full => "full_" + NatStr(id) + "." + ext
    case Plain => NatStr(id) + "." + ext
  }

  lemma {:induction false} AbsentCharNotContained(s: string, pat: string, c: char)
    requires c in pat && c !in s
    ensures !Contains(s, pat)
    decreases |s|
  {
    if |s| >= |pat| {
      assert forall x :: x in s[..|pat|] ==> x in s;
      assert s[..|pat|] != pat;
      if |s| > 0 {
        assert forall x :: x in s[1..] ==> x in s;
        AbsentCharNotContained(s[1..], pat, c);
      }
    }
  }

  /** With an extension free of '_', the three avatar names are `dark_<id>.<ext>`,
    * `full_<id>.<ext>` and `<id>.<ext>`, and no two of them coincide. */
  lemma PicFilenames(id: nat, ext: string)
    requires '_' !in ext
    ensures PicFilename(id, ext, Dark) == "dark_" + NatStr(id) + "." + ext
    ensures PicFilename(id, ext, Full) == "full_" + NatStr(id) + "." + ext
    ensures PicFilename(id, ext, Plain) == NatStr(id) + "." + ext
    ensures PicFilename(id, ext, Dark) != PicFilename(id, ext, Full)
    ensures PicFilename(id, ext, Plain) != PicFilename(id, ext, Dark)
    ensures PicFilename(id, ext, Plain) != PicFilename(id, ext, Full)
  {
    var rest := NatStr(id) + "." + ext;
    assert '_' !in rest by {
      assert forall i :: 0 <= i < |NatStr(id)| ==> IsDigit(NatStr(id)[i]);
    }
    AbsentCharNotContained(rest, "full_", '_');
    var full := "full_" + rest;
    assert full[..5] == "full_";
    assert full[5..] == rest;
    assert full == "full_" + NatStr(id) + "." + ext;
    assert PicFilename(id, ext, Plain)[0] == NatStr(id)[0];
    assert IsDigit(NatStr(id)[0]);
  }

  /** `_map_by_date`: a dict from action date to answer value, later answers winning. */
  method MapByDate(answers: seq<(Date, Option<real>)>) returns (m: map<Date, Option<real>>)
    ensures m == DateMap(answers)
  {
    m := map[];
    for i := 0 to |answers|
      invariant m == DateMap(answers[..i])
    {
      assert answers[..i + 1] == answers[..i] + [answers[i]];
      m := m[answers[i].0 := answers[i].1];
    }
    assert answers[..|answers|] == answers;
  }

  /** The map `_map_by_date` builds: each date maps to the value of its last answer. */
  function DateMap(answers: seq<(Date, Option<real>)>): map<Date, Option<real>>
  {
    if answers == [] then map[]
    else
      var last := answers[|answers| - 1];
      DateMap(answers[..|answers| - 1])[last.0 := last.1]
  }

  /** Every date of the list is a key, nothing else is, and a date holds the value of the
    * last answer with that date. */
  lemma {:induction false} DateMapLastWins(answers: seq<(Date, Option<real>)>, i: nat)
    requires i < |answers|
    requires forall j :: i < j < |answers| ==> answers[j].0 != answers[i].0
    ensures answers[i].0 in DateMap(answers)
    ensures DateMap(answers)[answers[i].0] == answers[i].1
  {
    if i < |answers| - 1 {
      DateMapLastWins(answers[..|answers| - 1], i);
    }
  }

  lemma {:induction false} DateMapKeys(answers: seq<(Date, Option<real>)>)
    ensures forall d :: d in DateMap(answers) <==> exists j :: 0 <= j < |answers| && answers[j].0 == d
  {
    if answers != [] {
      var init := answers[..|answers| - 1];
      DateMapKeys(init);
      forall d | d in DateMap(answers) ensures exists j :: 0 <= j < |answers| && answers[j].0 == d {
        if d != answers[|answers| - 1].0 {
          assert d in DateMap(init);
          var j :| 0 <= j < |init| && init[j].0 == d;
          assert answers[j].0 == d;
        }
      }
      forall d | exists j :: 0 <= j < |answers| && answers[j].0 == d ensures d in DateMap(answers) {
        var j :| 0 <= j < |answers| && answers[j].0 == d;
        if j < |answers| - 1 {
          assert init[j].0 == d;
        }
      }
    }
  }

  /** When every answer of a date holds the same value, the map holds that value. */
  lemma {:induction false} DateMapUniform(answers: seq<(Date, Option<real>)>, d: Date, v: Option<real>)
    requires forall j :: 0 <= j < |answers| && answers[j].0 == d ==> answers[j].1 == v
    requires exists j :: 0 <= j < |answers| && answers[j].0 == d
    ensures d in DateMap(answers) && DateMap(answers)[d] == v
  {
    var init := answers[..|answers| - 1];
    if answers[|answers| - 1].0 != d {
      var j :| 0 <= j < |answers| && answers[j].0 == d;
      assert init[j] == answers[j];
      DateMapUniform(init, d, v);
    }
  }
}
