/** core/util.py: the per-thread current-user slots, `slugify`'s truncation, the Ajax
  * redirect tweak, the JSON date encoding, `unique_field` and `chop_campaign`. */
module CoreUtil {
  import opened Wrappers
  import opened Text

  // ---------------------------------------------------------------- current user

  /** The thread-local slots. A slot that was never set, or was deleted, reads as None. */
  class ThreadSlots {
    var user: Option<nat>
    var org: Option<nat>
    var campaign: Option<nat>

    constructor ()
      ensures user == None && org == None && campaign == None
    {
      user, org, campaign := None, None, None;
    }

    /** set_current_user */
    method SetCurrentUser(u: Option<nat>)
      modifies this
      ensures user == u
      ensures org == old(org) && campaign == old(campaign)
    {
      user := u;
    }

    /** clear_current_user: deleting a slot that is not there is caught and ignored. */
    method ClearCurrentUser()
      modifies this
      ensures user == None
      ensures org == old(org) && campaign == old(campaign)
    {
      user := None;
    }

    /** get_current_user: the AttributeError of an empty slot becomes None. */
    function GetCurrentUser(): (r: Option<nat>)
      reads this
      ensures r == user
    {
      user
    }

    method SetCurrentOrganization(o: Option<nat>)
      modifies this
      ensures org == o
      ensures user == old(user) && campaign == old(campaign)
    {
      org := o;
    }

    method SetCurrentCampaign(c: Option<nat>)
      modifies this
      ensures campaign == c
      ensures user == old(user) && org == old(org)
    {
      campaign := c;
    }
  }

  // ---------------------------------------------------------------- slugify

  /** slugify: Django's slug of the name (given here, already computed), cut to
    * `maxLen` characters when longer. */
  function Slugify(longSlug: string, maxLen: nat): (r: string)
    ensures |r| <= maxLen
    ensures |r| == if |longSlug| <= maxLen then |longSlug| else maxLen
    ensures r <= longSlug
    ensures |longSlug| <= maxLen <==> r == longSlug
  {
    if |longSlug| <= maxLen then longSlug else PyPrefix(longSlug, maxLen)
  }

  /** The default length of 50. */
  const SlugMaxLen: nat := 50

  // ---------------------------------------------------------------- redirect

  datatype Response = Response(statusCode: int, location: string, content: string)

  /** The status the front end treats as a redirect it must follow itself. */
  const AjaxRedirect: int := 278

  /** redirect: an Ajax request's 302 becomes 278; every other response is returned
    * untouched. */
  function Redirect(isAjax: bool, response: Response): (r: Response)
    ensures r != response <==> isAjax && response.statusCode == 302
    ensures r.location == response.location && r.content == response.content
    ensures r != response ==> r.statusCode == AjaxRedirect
  {
    if isAjax && response.statusCode == 302 then response.(statusCode := AjaxRedirect) else response
  }

  // ---------------------------------------------------------------- json_encoder_default

  /** What `json_encoder_default` is handed: a date, a naive datetime, or anything else. */
  datatype JsonObj =
    | DateObj(year: int, month: int, day: int)
    | DateTimeObj(year: int, month: int, day: int, hour: int, minute: int, second: int, microsecond: int)
    | OtherObj

  predicate IsLeap(year: int)
  {
    year % 4 == 0 && (year % 100 != 0 || year % 400 == 0)
  }

  function DaysInMonth(year: int, month: int): (n: nat)
    requires 1 <= month <= 12
    ensures 28 <= n <= 31
  {
    if month == 2 then (if IsLeap(year) then 29 else 28)
    else if month == 4 || month == 6 || month == 9 || month == 11 then 30
    else 31
  }

  /** The range of Python's `date`. */
  predicate ValidDate(year: int, month: int, day: int)
  {
    1 <= year <= 9999 && 1 <= month <= 12 && 1 <= day <= DaysInMonth(year, month)
  }

  predicate ValidTime(hour: int, minute: int, second: int, microsecond: int)
  {
    0 <= hour < 24 && 0 <= minute < 60 && 0 <= second < 60 && 0 <= microsecond < 1000000
  }

  predicate Valid(obj: JsonObj)
  {
    match obj
    case DateObj(y, m, d) => ValidDate(y, m, d)
    case DateTimeObj(y, m, d, hh, mm, ss, us) => ValidDate(y, m, d) && ValidTime(hh, mm, ss, us)
    case OtherObj => true
  }

  /** datetime's `_days_before_year`. */
  function DaysBeforeYear(year: int): int
    requires year >= 1
  {
    var y := year - 1;
    y * 365 + y / 4 - y / 100 + y / 400
  }

  /** datetime's `_DAYS_BEFORE_MONTH` with the leap day added after February. */
  function DaysBeforeMonth(year: int, month: int): (n: nat)
    requires 1 <= month <= 12
  {
    [0, 0, 31, 59, 90, 120, 151, 181, 212, 243, 273, 304, 334][month]
    + (if month > 2 && IsLeap(year) then 1 else 0)
  }

  /** date.toordinal: 1 January of year 1 is day 1. */
  function Ordinal(year: int, month: int, day: int): int
    requires year >= 1 && 1 <= month <= 12
  {
    DaysBeforeYear(year) + DaysBeforeMonth(year, month) + day
  }

  /** calendar.timegm of the datetime's time tuple: whole seconds since 1 January 1970,
    * UTC; the time tuple has no microseconds. */
  function TimeGm(year: int, month: int, day: int, hour: int, minute: int, second: int): int
    requires year >= 1 && 1 <= month <= 12
  {
    var days := Ordinal(year, month, 1) - Ordinal(1970, 1, 1) + day - 1;
    ((days * 24 + hour) * 60 + minute) * 60 + second
  }

  /** json_encoder_default as written: the `isinstance(obj, date)` test also holds for a
    * datetime, and `datetime.combine` keeps only the date part, so every date and every
    * datetime becomes the milliseconds of its day's midnight, UTC; anything else gives
    * None. */
  function JsonEncoderDefault(obj: JsonObj): (r: Option<int>)
    requires Valid(obj)
    ensures r.None? <==> obj.OtherObj?
    ensures r.Some? ==> r.value % MillisPerDay == 0
  {
    match obj
    case DateObj(y, m, d) => Some(MidnightMillis(y, m, d))
    case DateTimeObj(y, m, d, _, _, _, _) => Some(MidnightMillis(y, m, d))
    case OtherObj => None
  }

  /** The milliseconds of a day's midnight, UTC: a whole number of days since the epoch. */
  function MidnightMillis(y: int, m: int, d: int): (r: int)
    requires ValidDate(y, m, d)
    ensures r == (Ordinal(y, m, d) - Ordinal(1970, 1, 1)) * MillisPerDay
    ensures r % MillisPerDay == 0
  {
    var secs := TimeGm(y, m, d, 0, 0, 0);
    var days := Ordinal(y, m, d) - Ordinal(1970, 1, 1);
    assert secs == days * 86400;
    DivModUnique(days * MillisPerDay, MillisPerDay, days, 0);
    secs * 1000
  }

  /** json_encoder_default as its docstring describes it: a date at midnight, a datetime
    * with its time of day, both as milliseconds since the epoch, UTC; the time tuple has
    * no microseconds. */
  function JsonEncoderIntended(obj: JsonObj): (r: Option<int>)
    requires Valid(obj)
    ensures r.None? <==> obj.OtherObj?
    ensures r.Some? ==> r.value % 1000 == 0
    ensures obj.DateObj? ==> r == JsonEncoderDefault(obj)
  {
    match obj
    case DateObj(y, m, d) => Some(MidnightMillis(y, m, d))
    case DateTimeObj(y, m, d, hh, mm, ss, _) =>
      var secs := TimeGm(y, m, d, hh, mm, ss);
      DivModUnique(secs * 1000, 1000, secs, 0);
      Some(secs * 1000)
    case OtherObj => None
  }

  const MillisPerDay: int := 86400000

  /** 1 January 1970 is 0; as written, a second and some microseconds past midnight are
    * dropped with the rest of the time of day. */
  lemma EpochIsZero()
    ensures JsonEncoderDefault(DateObj(1970, 1, 1)) == Some(0)
    ensures JsonEncoderDefault(DateTimeObj(1970, 1, 1, 0, 0, 1, 999999)) == Some(0)
    ensures JsonEncoderIntended(DateTimeObj(1970, 1, 1, 0, 0, 1, 999999)) == Some(1000)
  {
  }

  /** A date encodes as its datetime at midnight, under either reading. */
  lemma DateIsMidnight(y: int, m: int, d: int)
    requires ValidDate(y, m, d)
    ensures JsonEncoderDefault(DateObj(y, m, d)) == JsonEncoderIntended(DateTimeObj(y, m, d, 0, 0, 0, 0))
    ensures JsonEncoderDefault(DateObj(y, m, d)).value == (Ordinal(y, m, d) - Ordinal(1970, 1, 1)) * MillisPerDay
  {
  }

  /** As written, a datetime encodes exactly as its date: the time of day is lost. */
  lemma DateTimeIsItsDate(y: int, m: int, d: int, hh: int, mm: int, ss: int, us: int)
    requires ValidDate(y, m, d) && ValidTime(hh, mm, ss, us)
    ensures JsonEncoderDefault(DateTimeObj(y, m, d, hh, mm, ss, us)) == JsonEncoderDefault(DateObj(y, m, d))
  {
  }

  /** The discrepancy on one input: 1 March 2015 at 13:45 encodes as that day's midnight,
    * 1425168000000, where the documented encoding gives 1425217500000. */
  lemma AfternoonLost()
    ensures JsonEncoderDefault(DateTimeObj(2015, 3, 1, 13, 45, 0, 0)) == Some(1425168000000)
    ensures JsonEncoderIntended(DateTimeObj(2015, 3, 1, 13, 45, 0, 0)) == Some(1425217500000)
  {
  }

  /** In the intended encoding the time of day adds its whole seconds; microseconds are
    * dropped. */
  lemma TimeOfDay(y: int, m: int, d: int, hh: int, mm: int, ss: int, us: int)
    requires ValidDate(y, m, d) && ValidTime(hh, mm, ss, us)
    ensures JsonEncoderIntended(DateTimeObj(y, m, d, hh, mm, ss, us)).value
      == JsonEncoderIntended(DateObj(y, m, d)).value + ((hh * 60 + mm) * 60 + ss) * 1000
  {
  }

  /** The day after a valid date, rolling over the month and the year. */
  function NextDay(y: int, m: int, d: int): (r: (int, int, int))
    requires ValidDate(y, m, d)
  {
    if d < DaysInMonth(y, m) then (y, m, d + 1)
    else if m < 12 then (y, m + 1, 1)
    else (y + 1, 1, 1)
  }

  /** Consecutive calendar days are exactly one day of milliseconds apart, across
    * month ends, year ends and leap days. */
  lemma NextDayAddsOneDay(y: int, m: int, d: int)
    requires ValidDate(y, m, d) && y < 9999
    ensures var (y2, m2, d2) := NextDay(y, m, d);
      ValidDate(y2, m2, d2)
      && JsonEncoderDefault(DateObj(y2, m2, d2)).value == JsonEncoderDefault(DateObj(y, m, d)).value + MillisPerDay
  {
    var (y2, m2, d2) := NextDay(y, m, d);
    assert Ordinal(y2, m2, d2) == Ordinal(y, m, d) + 1 by {
      if d == DaysInMonth(y, m) && m == 12 {
        YearLength(y);
      }
    }
  }

  /** A year has 366 days when it is a leap year and 365 otherwise. */
  lemma YearLength(y: int)
    requires y >= 1
    ensures DaysBeforeYear(y + 1) - DaysBeforeYear(y) == if IsLeap(y) then 366 else 365
  {
    QuotientStep(y, 4);
    QuotientStep(y, 100);
    QuotientStep(y, 400);
    if y % 400 == 0 {
      DivModUnique(y, 100, 4 * (y / 400), 0);
    }
    if y % 100 == 0 {
      DivModUnique(y, 4, 25 * (y / 100), 0);
    }
    var a := y - 1;
    assert DaysBeforeYear(y + 1) - DaysBeforeYear(y) == 365 + (y / 4 - a / 4) - (y / 100 - a / 100) + (y / 400 - a / 400);
  }

  /** Going from y - 1 to y raises the quotient by d exactly when d divides y. */
  lemma QuotientStep(y: int, d: int)
    requires d > 0
    ensures y / d - (y - 1) / d == (if y % d == 0 then 1 else 0)
  {
    var q, r := (y - 1) / d, (y - 1) % d;
    if r == d - 1 {
      DivModUnique(y, d, q + 1, 0);
    } else {
      DivModUnique(y, d, q, r + 1);
    }
  }

  /** Euclidean division has one quotient and remainder. */
  lemma DivModUnique(n: int, d: int, q: int, r: int)
    requires d > 0 && n == d * q + r && 0 <= r < d
    ensures n / d == q && n % d == r
  {
    var k := n / d - q;
    assert d * k == r - n % d;
    MultipleBounds(d, k);
  }

  /** A non-zero multiple of d is at least d away from zero. */
  lemma MultipleBounds(d: int, k: int)
    requires d > 0
    ensures k >= 1 ==> d * k >= d
    ensures k <= -1 ==> d * k <= -d
  {
    if k >= 1 {
      assert d * k == d * (k - 1) + d;
    } else if k <= -1 {
      assert d * k == d * (k + 1) - d;
    }
  }

  // ---------------------------------------------------------------- unique_field

  /** How many rows hold the value in the field. */
  function Count(values: seq<string>, v: string): (n: nat)
    ensures n == 0 <==> v !in values
  {
    if values == [] then 0 else (if values[0] == v then 1 else 0) + Count(values[1..], v)
  }

  /** `objects.get(field=v)`: the one matching row, or the exception for none or many. */
  function Get(values: seq<string>, v: string): (r: Result<string>)
    ensures r.Err? && r.error == DoesNotExist <==> v !in values
    ensures r.Err? ==> r.error == DoesNotExist || r.error == MultipleObjectsReturned
    ensures r.Ok? <==> Count(values, v) == 1
    ensures r.Ok? ==> r.value == v
  {
    var n := Count(values, v);
    if n == 0 then Err(DoesNotExist) else if n == 1 then Ok(v) else Err(MultipleObjectsReturned)
  }

  /** The prefix `unique_field` has left after the n-th number: whenever the prefix, a
    * hyphen and the number would exceed the field length, the prefix is cut so that
    * they fit. */
  function StarterAt(starter: string, maxLength: nat, n: nat): (r: string)
    ensures r <= starter
  {
    if n == 0 then starter
    else
      var p := StarterAt(starter, maxLength, n - 1);
      var sNum := NatStr(n);
      if |p| + |sNum| + 1 > maxLength then PyPrefix(p, maxLength - |sNum| - 1) else p
  }

  /** The n-th candidate `unique_field` tries: the starter cut to the field length, then
    * `prefix-1`, `prefix-2`, and so on. */
  function CandidateAt(starter: string, maxLength: nat, n: nat): (r: string)
  {
    if n == 0 then PyPrefix(starter, maxLength)
    else StarterAt(starter, maxLength, n) + "-" + NatStr(n)
  }

  /** Every candidate fits the field: the first always, a numbered one whenever the
    * hyphen and the number alone fit. */
  lemma CandidateFits(starter: string, maxLength: nat, n: nat)
    requires n == 0 || |NatStr(n)| + 1 <= maxLength
    ensures |CandidateAt(starter, maxLength, n)| <= maxLength
  {
    if n > 0 {
      var p := StarterAt(starter, maxLength, n - 1);
      var sNum := NatStr(n);
      if |p| + |sNum| + 1 > maxLength {
        assert |PyPrefix(p, maxLength - |sNum| - 1)| <= maxLength - |sNum| - 1;
      }
    }
  }

  /** Numbered candidates never repeat: the number after the last hyphen tells them
    * apart. */
  lemma CandidatesDistinct(starter: string, maxLength: nat, i: nat, j: nat)
    requires 1 <= i && 1 <= j && i != j
    ensures CandidateAt(starter, maxLength, i) != CandidateAt(starter, maxLength, j)
  {
    if CandidateAt(starter, maxLength, i) == CandidateAt(starter, maxLength, j) {
      var di, dj := NatStr(i), NatStr(j);
      assert '-' !in di && '-' !in dj by {
        assert forall k :: 0 <= k < |di| ==> IsDigit(di[k]);
        assert forall k :: 0 <= k < |dj| ==> IsDigit(dj[k]);
      }
      SplitAtLastSeparator(StarterAt(starter, maxLength, i), StarterAt(starter, maxLength, j), di, dj, '-');
      NatStrInjective(i, j);
    }
  }

  /** The numbered candidates unique_field has tried before reaching number num. */
  ghost function Tried(starter: string, maxLength: nat, num: nat): (r: set<string>)
    ensures forall k :: 1 <= k < num ==> CandidateAt(starter, maxLength, k) in r
  {
    set k | 1 <= k < num :: CandidateAt(starter, maxLength, k)
  }

  /** Finding the num-th candidate taken keeps every tried candidate among the taken
    * values and, once numbering has begun, tries one value not tried before. */
  lemma TriedStep(starter: string, maxLength: nat, num: nat, taken: set<string>)
    requires Tried(starter, maxLength, num) <= taken
    requires CandidateAt(starter, maxLength, num) in taken
    ensures Tried(starter, maxLength, num + 1) <= taken
    ensures num == 0 ==> Tried(starter, maxLength, num + 1) == Tried(starter, maxLength, num)
    ensures num >= 1 ==> taken - Tried(starter, maxLength, num + 1) < taken - Tried(starter, maxLength, num)
  {
    var before, after := Tried(starter, maxLength, num), Tried(starter, maxLength, num + 1);
    var c := CandidateAt(starter, maxLength, num);
    if num >= 1 {
      forall k | 1 <= k < num
        ensures CandidateAt(starter, maxLength, k) != c
      {
        CandidatesDistinct(starter, maxLength, k, num);
      }
      assert c !in before;
      assert after == before + {c};
      assert c in taken - before;
    } else {
      assert after == before;
    }
  }

  /** unique_field: the first candidate, in order, that no row holds. A candidate that
    * matches several rows counts as taken, as one that matches one row does. */
  method UniqueField(starter: string, maxLength: nat, values: seq<string>) returns (r: string, ghost n: nat)
    ensures r !in values
    ensures r == CandidateAt(starter, maxLength, n)
    ensures forall k :: 0 <= k < n ==> CandidateAt(starter, maxLength, k) in values
  {
    var start := starter;
    var candidate := PyPrefix(start, maxLength);
    var num := 0;
    ghost var taken := set v | v in values;
    while true
      invariant candidate == CandidateAt(starter, maxLength, num)
      invariant start == StarterAt(starter, maxLength, num)
      invariant forall k :: 0 <= k < num ==> CandidateAt(starter, maxLength, k) in values
      invariant Tried(starter, maxLength, num) <= taken
      decreases taken - Tried(starter, maxLength, num), if num == 0 then 1 else 0
    {
      var found := Get(values, candidate);
      if found.Err? && found.error == DoesNotExist {
        return candidate, num;
      }
      TriedStep(starter, maxLength, num, taken);
      start, candidate := NextCandidate(starter, maxLength, num, start);
      num := num + 1;
    }
  }

  /** One step of unique_field's loop: the number goes up by one and the prefix is
    * cut when the prefix, a hyphen and the new number would not fit. */
  method NextCandidate(starter: string, maxLength: nat, num: nat, start: string)
    returns (start': string, candidate: string)
    requires start == StarterAt(starter, maxLength, num)
    ensures start' == StarterAt(starter, maxLength, num + 1)
    ensures candidate == CandidateAt(starter, maxLength, num + 1)
  {
    var sNum := NatStr(num + 1);
    start' := start;
    if |start| + |sNum| + 1 > maxLength {
      start' := PyPrefix(start, maxLength - |sNum| - 1);
    }
    candidate := start' + "-" + sNum;
  }

  // ---------------------------------------------------------------- chop_campaign

  /** chop_campaign: the keyword arguments handed on, without `campaign_slug`. */
  function ChopCampaign<V>(kwargs: map<string, V>): (r: map<string, V>)
    ensures "campaign_slug" !in r
    ensures forall k :: k != "campaign_slug" ==> (k in r <==> k in kwargs)
    ensures forall k :: k in r ==> r[k] == kwargs[k]
  {
    kwargs - {"campaign_slug"}
  }
}
