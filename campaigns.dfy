/** campaign/models.py: choosing the default campaign, membership, per-user start and end
  * dates, the active users, the cached JSON list of users, and the campaign statistics
  * memoised on the campaign object. */
module Campaigns {
  import opened Wrappers
  import opened Text
  import opened Memcache
  import opened Sorting
  import opened Indicators
  import Actions

  /** The columns of a campaign row the core reads. */
  datatype CampaignRow = CampaignRow(
    id: CampaignId, slug: string, organization: nat,
    startDate: Date, endDate: Date, isFixedDates: bool)

  /** CampaignMembership: a user joined a campaign on a day. */
  datatype Membership = Membership(user: UserId, joinDate: Date)

  /** The statistics map; the per-user variant has no `num_users`, `answers_per_user` or
    * `pledges_completed_pct` keys. */
  datatype Stats = Stats(
    numAnswers: nat, numPledges: nat, numPledgesCompleted: nat, numIdeas: nat,
    numUsers: Option<nat>, answersPerUser: Option<int>, pledgesCompletedPct: Option<real>)

  /** The rows of a query, in table order. */
  function Filter<T(!new)>(xs: seq<T>, keep: T -> bool): (r: seq<T>)
    ensures |r| <= |xs|
    ensures forall x :: x in r <==> x in xs && keep(x)
  {
    if xs == [] then []
    else
      var rest := Filter(xs[1..], keep);
      assert forall x :: x in xs <==> x == xs[0] || x in xs[1..];
      if keep(xs[0]) then [xs[0]] + rest else rest
  }

  /** A narrower filter never counts more rows. */
  lemma {:induction false} FilterNarrower<T(!new)>(xs: seq<T>, narrow: T -> bool, wide: T -> bool)
    requires forall x :: narrow(x) ==> wide(x)
    ensures |Filter(xs, narrow)| <= |Filter(xs, wide)|
  {
    if xs != [] {
      FilterNarrower(xs[1..], narrow, wide);
    }
  }

  // ---------------------------------------------------------------- default

  /** CampaignManager.default: the organisation's campaign with the slug (a missing slug
    * is `''`); failing an exact match, the organisation's only campaign; failing that,
    * UserMustSelectCampaign. Several campaigns with the slug make `get` raise. */
  function Default(slug: Option<string>, organization: nat, campaigns: seq<CampaignRow>): (r: Result<CampaignRow>)
    ensures r.Ok? ==> r.value in campaigns && r.value.organization == organization
    ensures var s := if slug.None? then "" else slug.value;
      var exact := Filter(campaigns, (c: CampaignRow) => c.organization == organization && c.slug == s);
      var ofOrg := Filter(campaigns, (c: CampaignRow) => c.organization == organization);
      && (|exact| == 1 ==> r == Ok(exact[0]))
      && (|exact| > 1 <==> r == Err(MultipleObjectsReturned))
      && (|exact| == 0 && |ofOrg| == 1 ==> r == Ok(ofOrg[0]))
      && (r == Err(UserMustSelectCampaign) <==> |exact| == 0 && |ofOrg| != 1)
  {
    var s := if slug.None? || slug.value == "" then "" else slug.value;
    var exact := Filter(campaigns, (c: CampaignRow) => c.organization == organization && c.slug == s);
    if |exact| == 1 then Ok(exact[0])
    else if |exact| > 1 then Err(MultipleObjectsReturned)
    else
      var ofOrg := Filter(campaigns, (c: CampaignRow) => c.organization == organization);
      if |ofOrg| == 1 then Ok(ofOrg[0]) else Err(UserMustSelectCampaign)
  }

  /** An organisation with a single campaign always gets it, whatever the slug. */
  lemma DefaultSingleCampaign(slug: Option<string>, organization: nat, campaigns: seq<CampaignRow>, only: CampaignRow)
    requires only in campaigns && only.organization == organization
    requires forall c :: c in campaigns && c.organization == organization ==> c == only
    requires forall i, j :: 0 <= i < j < |campaigns| ==> campaigns[i] != campaigns[j]
    ensures Default(slug, organization, campaigns) == Ok(only)
  {
    var ofOrg := Filter(campaigns, (c: CampaignRow) => c.organization == organization);
    var s := if slug.None? then "" else slug.value;
    var exact := Filter(campaigns, (c: CampaignRow) => c.organization == organization && c.slug == s);
    SingleFilter(campaigns, (c: CampaignRow) => c.organization == organization, only);
    FilterNarrower(campaigns, (c: CampaignRow) => c.organization == organization && c.slug == s,
                   (c: CampaignRow) => c.organization == organization);
    if |exact| == 1 {
      assert exact[0] in exact;
    }
  }

  /** A filter that only one row of a table without repeats passes yields that row. */
  lemma {:induction false} SingleFilter<T(!new)>(xs: seq<T>, keep: T -> bool, x: T)
    requires x in xs && keep(x)
    requires forall y :: y in xs && keep(y) ==> y == x
    requires forall i, j :: 0 <= i < j < |xs| ==> xs[i] != xs[j]
    ensures Filter(xs, keep) == [x]
  {
    if xs[0] == x {
      forall y | y in xs[1..] ensures !keep(y) {
        var k :| 0 <= k < |xs[1..]| && xs[1..][k] == y;
        assert xs[k + 1] == y;
      }
      NoneKept(xs[1..], keep);
    } else {
      SingleFilter(xs[1..], keep, x);
    }
  }

  lemma {:induction false} NoneKept<T(!new)>(xs: seq<T>, keep: T -> bool)
    requires forall y :: y in xs ==> !keep(y)
    ensures Filter(xs, keep) == []
  {
    if xs != [] {
      NoneKept(xs[1..], keep);
    }
  }

  // ---------------------------------------------------------------- dates and members

  /** The user ids of the memberships, in join order. */
  function UsersOf(members: seq<Membership>): (r: seq<UserId>)
    ensures |r| == |members|
    ensures forall u :: u in r <==> exists m :: m in members && m.user == u
  {
    if members == [] then []
    else
      assert forall m :: m in members <==> m == members[0] || m in members[1..];
      [members[0].user] + UsersOf(members[1..])
  }

  /** The membership rows of one user. */
  function MembershipsOf(members: seq<Membership>, user: UserId): (r: seq<Membership>)
    ensures forall m :: m in r <==> m in members && m.user == user
  {
    Filter(members, (m: Membership) => m.user == user)
  }

  /** `CampaignMembership.objects.get(campaign=self, user=geuser)` */
  function GetMembership(members: seq<Membership>, user: UserId): (r: Result<Membership>)
    ensures r.Ok? ==> r.value in members && r.value.user == user
    ensures r == Err(DoesNotExist) <==> user !in UsersOf(members)
    ensures r.Err? ==> r.error == DoesNotExist || r.error == MultipleObjectsReturned
    ensures r.Ok? <==> |MembershipsOf(members, user)| == 1
  {
    var found := MembershipsOf(members, user);
    if |found| == 0 then Err(DoesNotExist)
    else
      assert found[0] in found;
      if |found| == 1 then Ok(found[0]) else Err(MultipleObjectsReturned)
  }

  /** add_user's change to the membership table: a row only for a user who is not yet a
    * member. */
  function Added(members: seq<Membership>, user: UserId, today: Date): (r: seq<Membership>)
    ensures user in UsersOf(r)
    ensures forall u :: u in UsersOf(r) <==> u in UsersOf(members) || u == user
  {
    if user in UsersOf(members) then members
    else
      var r := members + [Membership(user, today)];
      assert r[|members|] in r;
      assert forall m :: m in r <==> m in members || m == Membership(user, today);
      r
  }

  /** Adding a member twice adds one membership, on the first day. */
  lemma AddUserIdempotent(members: seq<Membership>, user: UserId, day1: Date, day2: Date)
    ensures Added(Added(members, user, day1), user, day2) == Added(members, user, day1)
  {
  }

  /** Membership keeps one row per user. */
  lemma AddedKeepsOneRowPerUser(members: seq<Membership>, user: UserId, today: Date)
    requires forall i, j :: 0 <= i < j < |members| ==> members[i].user != members[j].user
    ensures var r := Added(members, user, today);
      forall i, j :: 0 <= i < j < |r| ==> r[i].user != r[j].user
  {
    var r := Added(members, user, today);
    if user !in UsersOf(members) {
      forall i, j | 0 <= i < j < |r| ensures r[i].user != r[j].user {
        if j == |members| {
          assert r[i] in members;
        }
      }
    }
  }

  /** A campaign object: its row, its members (`self.users`) and the statistics memoised
    * on it by `stats()`. */
  class Campaign {
    const row: CampaignRow
    var members: seq<Membership>
    var statsMemo: Option<Stats>

    constructor (row: CampaignRow, members: seq<Membership>)
      ensures this.row == row && this.members == members && statsMemo.None?
    {
      this.row, this.members, statsMemo := row, members, None;
    }

    /** add_user: a membership joined today for a user who is not yet a member, and the
      * cached user list and user count are dropped; a member changes nothing. */
    method AddUser<V>(user: UserId, today: Date, cache: Cache<V>)
      modifies this, cache
      ensures members == Added(old(members), user, today)
      ensures statsMemo == old(statsMemo)
      ensures user in UsersOf(old(members)) ==> cache.store == old(cache.store)
      ensures user !in UsersOf(old(members)) ==>
        cache.store == old(cache.store) - {UsersCacheKey(row.id), NumUsersCacheKey(row.id)}
    {
      if user !in UsersOf(members) {
        members := members + [Membership(user, today)];
        cache.Delete(UsersCacheKey(row.id));
        cache.Delete(NumUsersCacheKey(row.id));
      }
    }

    /** get_start_date: the campaign's start for fixed dates, else the day the user
      * joined. */
    function GetStartDate(user: UserId): (r: Result<Date>)
      reads this
      ensures row.isFixedDates ==> r == Ok(row.startDate)
      ensures !row.isFixedDates && r.Ok? ==> exists m :: m in members && m.user == user && m.joinDate == r.value
      ensures !row.isFixedDates ==> (r == Err(DoesNotExist) <==> user !in UsersOf(members))
      ensures !row.isFixedDates ==> (r.Ok? <==> |MembershipsOf(members, user)| == 1)
    {
      if row.isFixedDates then Ok(row.startDate)
      else
        var m :- GetMembership(members, user);
        Ok(m.joinDate)
    }

    /** get_end_date: the campaign's end for fixed dates, else the join day plus the
      * campaign's length. */
    function GetEndDate(user: UserId): (r: Result<Date>)
      reads this
      ensures row.isFixedDates ==> r == Ok(row.endDate)
      ensures !row.isFixedDates ==> (r.Ok? <==> GetStartDate(user).Ok?)
    {
      if row.isFixedDates then Ok(row.endDate)
      else
        var duration := row.endDate - row.startDate;
        var m :- GetMembership(members, user);
        Ok(m.joinDate + duration)
    }

    /** Every user's campaign lasts as long as the campaign's own dates say. */
    lemma SameDuration(user: UserId)
      requires GetStartDate(user).Ok?
      ensures GetEndDate(user).Ok?
      ensures GetEndDate(user).value - GetStartDate(user).value == row.endDate - row.startDate
    {
    }

    /** active_user_ids: the users who answered one of the campaign's indicators on or
      * after the cutoff, which defaults to 30 days before today. */
    method ActiveUserIds(indicators: seq<Indicator>, answers: seq<Answer>, cutoff: Option<Date>, today: Date)
      returns (r: set<UserId>)
      ensures var cut := if cutoff.None? then today - 30 else cutoff.value;
        forall u :: u in r <==> exists a :: (a in answers && a.user == u && a.date >= cut
          && exists ind :: ind in indicators && ind.campaign == row.id && ind.id == a.indicator)
    {
      var cut := if cutoff.None? then today - 30 else cutoff.value;
      r := {};
      for i := 0 to |indicators|
        invariant r == ActiveThrough(indicators[..i], answers, row.id, cut)
      {
        assert indicators[..i + 1][..i] == indicators[..i];
        if indicators[i].campaign == row.id {
          var ind := indicators[i];
          r := r + set a | a in answers && a.indicator == ind.id && a.date >= cut :: a.user;
        }
      }
      assert indicators[..|indicators|] == indicators;
    }

    /** users_json: the cached list unless it is missing, empty or `force` is set; then the
      * encoding of the campaign's non-system users, cached only when there are some, and
      * `"[]"` otherwise. The users come in the profiles' default order, by username;
      * `usernameOrder` gives each user's place in the database's collation of usernames.
      * The encoder of the user maps is a parameter. */
    method UsersJson(cache: Cache<string>, force: bool, systemUsers: set<UserId>, usernameOrder: UserId -> int,
                     encode: seq<UserId> -> string)
      returns (r: string)
      modifies cache
      ensures var key := UsersCacheKey(row.id);
        var users := SortBy(NonSystem(UsersOf(members), systemUsers), usernameOrder);
        if !force && key in old(cache.store) && old(cache.store)[key] != "" then
          r == old(cache.store)[key] && cache.store == old(cache.store)
        else if users == [] then
          r == "[]" && cache.store == old(cache.store)
        else
          r == encode(users) && cache.store == old(cache.store)[key := r]
    {
      var key := UsersCacheKey(row.id);
      var cached := cache.Get(key);
      if cached.Some? && cached.value != "" && !force {
        return cached.value;
      }
      var users := SortBy(NonSystem(UsersOf(members), systemUsers), usernameOrder);
      if users != [] {
        r := encode(users);
        cache.Set(key, r);
      } else {
        r := "[]";
      }
    }

    /** stats: with a user, that user's counts, recomputed on every call; without, the
      * campaign's counts, computed once and memoised on the object. */
    method GetStats(user: Option<UserId>, indicators: seq<Indicator>, answers: seq<Answer>,
                    actions: seq<Actions.Action>, pledges: seq<Actions.Pledge>, entries: seq<Actions.Entry>)
      returns (r: Result<Stats>)
      modifies this
      ensures members == old(members)
      ensures user.Some? || old(statsMemo).None? ==>
        r == StatsOf(row.id, user, |members|, indicators, answers, actions, pledges, entries)
      ensures user.None? && old(statsMemo).Some? ==> r == Ok(old(statsMemo).value)
      ensures statsMemo == if user.None? && old(statsMemo).None? && r.Ok? then Some(r.value) else old(statsMemo)
    {
      if user.Some? || statsMemo.None? {
        var s := StatsOf(row.id, user, |members|, indicators, answers, actions, pledges, entries);
        if s.Err? {
          return s;
        }
        if user.Some? {
          return s;
        }
        statsMemo := Some(s.value);
      }
      r := Ok(statsMemo.value);
    }
  }

  /** The users who answered, on or after the cutoff, the campaign's indicators among
    * those given. */
  ghost function ActiveThrough(indicators: seq<Indicator>, answers: seq<Answer>, campaign: CampaignId, cut: Date): (r: set<UserId>)
    ensures forall u :: u in r <==> exists a :: (a in answers && a.user == u && a.date >= cut
      && exists ind :: ind in indicators && ind.campaign == campaign && ind.id == a.indicator)
  {
    if indicators == [] then {}
    else
      var init, ind := indicators[..|indicators| - 1], indicators[|indicators| - 1];
      assert forall x :: x in indicators <==> x in init || x == ind;
      var earlier := ActiveThrough(init, answers, campaign, cut);
      if ind.campaign == campaign then earlier + set a | a in answers && a.indicator == ind.id && a.date >= cut :: a.user
      else earlier
  }

  /** `'ge_campaign_users_%d' % self.id` */
  function UsersCacheKey(campaign: CampaignId): string
  {
    "ge_campaign_users_" + NatStr(campaign)
  }

  /** `'ge_campaign_user_count_%d' % self.id` */
  function NumUsersCacheKey(campaign: CampaignId): string
  {
    "ge_campaign_user_count_" + NatStr(campaign)
  }

  /** `self.users.filter(is_system_user=False)` */
  function NonSystem(users: seq<UserId>, systemUsers: set<UserId>): (r: seq<UserId>)
    ensures forall u :: u in r <==> u in users && u !in systemUsers
  {
    Filter(users, (u: UserId) => u !in systemUsers)
  }

  /** The counts of `stats`: answers to the campaign's indicators, pledges to its actions
    * (and how many are completed), and status entries, each narrowed to the user when
    * one is given. Without a user, also the number of members, the answers per member
    * in Python 2 integer division (which raises for a campaign without members) and the
    * percentage of completed pledges, 0 without pledges. */
  function StatsOf(campaign: CampaignId, user: Option<UserId>, numUsers: nat,
                   indicators: seq<Indicator>, answers: seq<Answer>,
                   actions: seq<Actions.Action>, pledges: seq<Actions.Pledge>, entries: seq<Actions.Entry>)
    : (r: Result<Stats>)
    ensures r.Err? <==> user.None? && numUsers == 0
    ensures r.Err? ==> r.error == ZeroDivisionError
    ensures r.Ok? ==> r.value.numPledgesCompleted <= r.value.numPledges
    ensures r.Ok? && user.Some? ==>
      r.value.numUsers.None? && r.value.answersPerUser.None? && r.value.pledgesCompletedPct.None?
    ensures r.Ok? && user.None? ==>
      var s := r.value;
      && s.numUsers == Some(numUsers)
      && s.answersPerUser.Some? && s.pledgesCompletedPct.Some?
      && s.answersPerUser.value * numUsers <= s.numAnswers < (s.answersPerUser.value + 1) * numUsers
      && 0.0 <= s.pledgesCompletedPct.value <= 100.0
      && (s.numPledges == 0 ==> s.pledgesCompletedPct.value == 0.0)
  {
    var answered := AnswersIn(campaign, user, indicators, answers);
    var pledged := PledgesIn(campaign, user, actions, pledges);
    var completed := Filter(pledged, (p: Actions.Pledge) => p.isCompleted);
    var ideas := IdeasIn(campaign, user, entries);
    if user.Some? then
      Ok(Stats(|answered|, |pledged|, |completed|, |ideas|, None, None, None))
    else if numUsers == 0 then Err(ZeroDivisionError)
    else
      Ok(Stats(|answered|, |pledged|, |completed|, |ideas|, Some(numUsers), Some(PerUser(|answered|, numUsers)),
               Some(CompletedPct(|completed|, |pledged|))))
  }

  /** `num_answers / num_users` in Python 2: floor division of two integers. */
  function PerUser(answers: nat, users: nat): (r: int)
    requires users > 0
    ensures r * users <= answers < (r + 1) * users
  {
    answers / users
  }

  /** `num_pledges_completed / float(num_pledges) * 100.0`, or 0 without pledges. */
  function CompletedPct(completed: nat, pledged: nat): (r: real)
    requires completed <= pledged
    ensures 0.0 <= r <= 100.0
    ensures pledged == 0 ==> r == 0.0
    ensures pledged != 0 ==> r * (pledged as real) == (completed as real) * 100.0
  {
    if pledged != 0 then
      var ratio := (completed as real) / (pledged as real);
      assert ratio * (pledged as real) == completed as real;
      ratio * 100.0
    else 0.0
  }

  /** The answers to the campaign's indicators, of the user when one is given. */
  function AnswersIn(campaign: CampaignId, user: Option<UserId>, indicators: seq<Indicator>, answers: seq<Answer>): seq<Answer>
  {
    Filter(answers, (a: Answer) => UserMatches(user, a.user) && OfIndicators(indicators, campaign, a.indicator))
  }

  /** The pledges to the campaign's actions, of the user when one is given. */
  function PledgesIn(campaign: CampaignId, user: Option<UserId>, actions: seq<Actions.Action>, pledges: seq<Actions.Pledge>): seq<Actions.Pledge>
  {
    Filter(pledges, (p: Actions.Pledge) => UserMatches(user, p.user) && OfActions(actions, campaign, p.action))
  }

  /** The campaign's status entries, of the user when one is given. */
  function IdeasIn(campaign: CampaignId, user: Option<UserId>, entries: seq<Actions.Entry>): seq<Actions.Entry>
  {
    Filter(entries, (e: Actions.Entry) => e.campaign == campaign && UserMatches(user, e.who))
  }

  /** `if geuser: qs = qs.filter(user=geuser)` */
  predicate UserMatches(user: Option<UserId>, who: UserId)
  {
    user.None? || user.value == who
  }

  /** `indicator_id__in=[ind.id for ind in self.indicator_set.all()]` */
  predicate OfIndicators(indicators: seq<Indicator>, campaign: CampaignId, indicator: IndicatorId)
  {
    exists ind :: ind in indicators && ind.campaign == campaign && ind.id == indicator
  }

  /** `action__campaign=self` */
  predicate OfActions(actions: seq<Actions.Action>, campaign: CampaignId, action: nat)
  {
    exists a :: a in actions && a.campaign == campaign && a.id == action
  }

  /** One user's counts never exceed the campaign's. */
  lemma UserStatsBounded(campaign: CampaignId, user: UserId, numUsers: nat,
                         indicators: seq<Indicator>, answers: seq<Answer>,
                         actions: seq<Actions.Action>, pledges: seq<Actions.Pledge>, entries: seq<Actions.Entry>)
    requires numUsers > 0
    ensures var mine := StatsOf(campaign, Some(user), numUsers, indicators, answers, actions, pledges, entries).value;
      var all := StatsOf(campaign, None, numUsers, indicators, answers, actions, pledges, entries).value;
      mine.numAnswers <= all.numAnswers && mine.numPledges <= all.numPledges
      && mine.numPledgesCompleted <= all.numPledgesCompleted && mine.numIdeas <= all.numIdeas
  {
    var u, none := Some(user), None;
    FilterNarrower(answers,
      (a: Answer) => UserMatches(u, a.user) && OfIndicators(indicators, campaign, a.indicator),
      (a: Answer) => UserMatches(none, a.user) && OfIndicators(indicators, campaign, a.indicator));
    var mineP := Filter(pledges, (p: Actions.Pledge) => UserMatches(u, p.user) && OfActions(actions, campaign, p.action));
    var allP := Filter(pledges, (p: Actions.Pledge) => UserMatches(none, p.user) && OfActions(actions, campaign, p.action));
    FilterNarrower(pledges,
      (p: Actions.Pledge) => UserMatches(u, p.user) && OfActions(actions, campaign, p.action),
      (p: Actions.Pledge) => UserMatches(none, p.user) && OfActions(actions, campaign, p.action));
    FilterNarrower(entries,
      (e: Actions.Entry) => e.campaign == campaign && UserMatches(u, e.who),
      (e: Actions.Entry) => e.campaign == campaign && UserMatches(none, e.who));
    CompletedBounded(pledges, actions, campaign, user);
  }

  /** The completed pledges of one user are among the campaign's completed pledges. */
  lemma {:induction false} CompletedBounded(pledges: seq<Actions.Pledge>, actions: seq<Actions.Action>, campaign: CampaignId, user: UserId)
    ensures
      |Filter(Filter(pledges, (p: Actions.Pledge) => UserMatches(Some(user), p.user) && OfActions(actions, campaign, p.action)),
              (p: Actions.Pledge) => p.isCompleted)|
      <= |Filter(Filter(pledges, (p: Actions.Pledge) => UserMatches(None, p.user) && OfActions(actions, campaign, p.action)),
                 (p: Actions.Pledge) => p.isCompleted)|
  {
    if pledges != [] {
      CompletedBounded(pledges[1..], actions, campaign, user);
    }
  }
}
