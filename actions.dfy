/** action/models.py: actions users pledge to do, the pledge table with its get-or-create,
  * the pledge counts, the cached comment count, the per-campaign "popular" query and the
  * dashboard cache keys. */
module Actions {
  import opened Wrappers
  import opened Text
  import opened Memcache

  datatype Action = Action(id: nat, campaign: nat, title: string, createdBy: Option<nat>, commentCount: int)

  datatype Pledge = Pledge(id: nat, user: nat, action: nat, isCompleted: bool)

  datatype Comment = Comment(id: nat, action: nat, user: nat)

  /** Something that keeps users from completing an action; `users` is the many-to-many
    * set of profiles who have it. */
  datatype Barrier = Barrier(id: nat, action: nat, title: string, users: set<nat>)

  /** A status entry in the campaign's community feed. */
  datatype Entry = Entry(who: nat, msg: string, campaign: nat)

  // ---------------------------------------------------------------- pledge counts

  /** The row matches `filter(action=…)`, then `is_completed=…` when given, then
    * `user__id__in=…` when given. */
  predicate Counted(p: Pledge, action: nat, completed: Option<bool>, users: Option<set<nat>>)
  {
    p.action == action
    && (completed.None? || p.isCompleted == completed.value)
    && (users.None? || p.user in users.value)
  }

  /** The rows of a pledge query, in table order. */
  function Matching(pledges: seq<Pledge>, action: nat, completed: Option<bool>, users: Option<set<nat>>): (r: seq<Pledge>)
    ensures |r| <= |pledges|
    ensures forall p :: p in r <==> p in pledges && Counted(p, action, completed, users)
  {
    if pledges == [] then []
    else
      var rest := Matching(pledges[1..], action, completed, users);
      assert forall p :: p in pledges <==> p == pledges[0] || p in pledges[1..];
      if Counted(pledges[0], action, completed, users) then [pledges[0]] + rest else rest
  }

  /** `if user_ids:` — None and the empty list both leave the query unnarrowed. */
  function Narrowing(userIds: Option<seq<nat>>): (r: Option<set<nat>>)
    ensures r.None? <==> userIds.None? || userIds.value == []
    ensures r.Some? ==> forall u :: u in r.value <==> u in userIds.value
  {
    if userIds.Some? && userIds.value != [] then Some(set u | u in userIds.value) else None
  }

  /** pledge_count: the pledges to the action, completed or not, optionally narrowed to
    * some users. */
  function PledgeCount(pledges: seq<Pledge>, action: Action, userIds: Option<seq<nat>>): (n: nat)
    ensures userIds.None? || userIds == Some([]) ==> n == |Matching(pledges, action.id, None, None)|
    ensures n <= |Matching(pledges, action.id, None, None)|
  {
    NarrowingOnlyReduces(pledges, action.id, None, Narrowing(userIds));
    |Matching(pledges, action.id, None, Narrowing(userIds))|
  }

  /** open_pledge_count: the pledges to the action not yet completed. */
  function OpenPledgeCount(pledges: seq<Pledge>, action: Action): (n: nat)
    ensures n <= PledgeCount(pledges, action, None)
  {
    CompletionSplit(pledges, action.id, None);
    |Matching(pledges, action.id, Some(false), None)|
  }

  /** completed_count: the completed pledges to the action, optionally narrowed to some
    * users. */
  function CompletedCount(pledges: seq<Pledge>, action: Action, userIds: Option<seq<nat>>): (n: nat)
    ensures userIds.None? || userIds == Some([]) ==> n == |Matching(pledges, action.id, Some(true), None)|
    ensures n <= PledgeCount(pledges, action, userIds)
  {
    CompletionSplit(pledges, action.id, Narrowing(userIds));
    |Matching(pledges, action.id, Some(true), Narrowing(userIds))|
  }

  /** Every pledge is either open or completed. */
  lemma {:induction false} CompletionSplit(pledges: seq<Pledge>, action: nat, users: Option<set<nat>>)
    ensures |Matching(pledges, action, None, users)|
         == |Matching(pledges, action, Some(false), users)| + |Matching(pledges, action, Some(true), users)|
  {
    if pledges != [] {
      CompletionSplit(pledges[1..], action, users);
    }
  }

  /** Narrowing to some users never counts more rows. */
  lemma {:induction false} NarrowingOnlyReduces(pledges: seq<Pledge>, action: nat, completed: Option<bool>, users: Option<set<nat>>)
    ensures |Matching(pledges, action, completed, users)| <= |Matching(pledges, action, completed, None)|
  {
    if pledges != [] {
      NarrowingOnlyReduces(pledges[1..], action, completed, users);
    }
  }

  /** Without a user filter, every pledge to the action is counted once, as open or as
    * completed. */
  lemma PledgeCountIsOpenPlusCompleted(pledges: seq<Pledge>, action: Action)
    ensures PledgeCount(pledges, action, None) == OpenPledgeCount(pledges, action) + CompletedCount(pledges, action, None)
  {
    CompletionSplit(pledges, action.id, None);
  }

  /** A pledge in the table is counted by the query it matches. */
  lemma {:induction false} CountedIsCounted(pledges: seq<Pledge>, p: Pledge, action: nat, completed: Option<bool>)
    requires p in pledges && Counted(p, action, completed, None)
    ensures |Matching(pledges, action, completed, None)| >= 1
  {
    assert p in Matching(pledges, action, completed, None);
  }

  // ---------------------------------------------------------------- get_or_create

  /** The table keeps at most one pledge per (action, user) and fresh ids below nextId. */
  ghost predicate PledgesWellFormed(pledges: seq<Pledge>, nextId: nat)
  {
    (forall i, j :: 0 <= i < j < |pledges| ==> (pledges[i].action, pledges[i].user) != (pledges[j].action, pledges[j].user))
    && (forall i :: 0 <= i < |pledges| ==> pledges[i].id < nextId)
  }

  /** The pledges of one user to one action. */
  function PledgesBy(pledges: seq<Pledge>, action: nat, user: nat): (r: seq<Pledge>)
    ensures forall p :: p in r <==> p in pledges && p.action == action && p.user == user
  {
    Matching(pledges, action, None, Some({user}))
  }

  /** `Pledge.objects.get(action=…, user=…)`. */
  function GetPledge(pledges: seq<Pledge>, action: nat, user: nat): (r: Result<Pledge>)
    ensures r.Ok? ==> r.value in pledges && r.value.action == action && r.value.user == user
    ensures r.Err? && r.error == DoesNotExist <==> forall p :: p in pledges ==> p.action != action || p.user != user
    ensures r.Err? ==> r.error == DoesNotExist || r.error == MultipleObjectsReturned
    ensures r.Ok? <==> |PledgesBy(pledges, action, user)| == 1
  {
    var found := PledgesBy(pledges, action, user);
    if |found| == 0 then Err(DoesNotExist)
    else
      assert found[0] in found;
      if |found| == 1 then Ok(found[0])
    else Err(MultipleObjectsReturned)
  }

  /** A query that no row of the table matches is empty. */
  lemma {:induction false} NoneMatching(pledges: seq<Pledge>, action: nat, completed: Option<bool>, users: Option<set<nat>>)
    requires forall p :: p in pledges ==> !Counted(p, action, completed, users)
    ensures Matching(pledges, action, completed, users) == []
  {
    if pledges != [] {
      NoneMatching(pledges[1..], action, completed, users);
    }
  }

  /** A well-formed table holds at most one pledge of a user to an action. */
  lemma {:induction false} AtMostOnePledgeBy(pledges: seq<Pledge>, nextId: nat, action: nat, user: nat)
    requires PledgesWellFormed(pledges, nextId)
    ensures |PledgesBy(pledges, action, user)| <= 1
  {
    if pledges != [] {
      AtMostOnePledgeBy(pledges[1..], nextId, action, user);
      if pledges[0].action == action && pledges[0].user == user {
        forall q | q in pledges[1..]
          ensures !Counted(q, action, None, Some({user}))
        {
          var k :| 0 <= k < |pledges[1..]| && pledges[1..][k] == q;
          assert pledges[k + 1] == q;
        }
        NoneMatching(pledges[1..], action, None, Some({user}));
      }
    }
  }

  /** In a well-formed table `get` finds the one pledge of a user to an action, if any. */
  lemma GetPledgeWellFormed(pledges: seq<Pledge>, nextId: nat, action: nat, user: nat)
    requires PledgesWellFormed(pledges, nextId)
    ensures GetPledge(pledges, action, user).Err? ==> GetPledge(pledges, action, user).error == DoesNotExist
  {
    AtMostOnePledgeBy(pledges, nextId, action, user);
  }

  /** get_or_create(action, user): the table, the next id, and whether a row was created. */
  function GetOrCreate(pledges: seq<Pledge>, nextId: nat, action: nat, user: nat): (r: Result<(seq<Pledge>, nat, bool)>)
    ensures r.Ok? && r.value.2 <==> GetPledge(pledges, action, user) == Err(DoesNotExist)
    ensures r.Ok? && !r.value.2 ==> r.value.0 == pledges && r.value.1 == nextId
    ensures r.Ok? && r.value.2 ==> r.value.0 == pledges + [Pledge(nextId, user, action, false)] && r.value.1 == nextId + 1
    ensures r.Err? ==> r == Err(MultipleObjectsReturned)
  {
    match GetPledge(pledges, action, user)
    case Ok(_) => Ok((pledges, nextId, false))
    case Err(e) =>
      if e == DoesNotExist then Ok((pledges + [Pledge(nextId, user, action, false)], nextId + 1, true))
      else Err(e)
  }

  /** Pledging keeps at most one pledge per (action, user), and afterwards the user has a
    * pledge to the action. */
  lemma GetOrCreateKeepsWellFormed(pledges: seq<Pledge>, nextId: nat, action: nat, user: nat)
    requires PledgesWellFormed(pledges, nextId)
    ensures GetOrCreate(pledges, nextId, action, user).Ok?
    ensures var r := GetOrCreate(pledges, nextId, action, user).value;
      PledgesWellFormed(r.0, r.1) && exists p :: p in r.0 && p.action == action && p.user == user
  {
    GetPledgeWellFormed(pledges, nextId, action, user);
    var r := GetOrCreate(pledges, nextId, action, user).value;
    if r.2 {
      assert r.0[|pledges|] in r.0;
    } else {
      assert GetPledge(pledges, action, user).Ok?;
    }
  }

  /** Pledging twice is pledging once: the second get_or_create finds the row and creates
    * nothing. */
  lemma PledgeIdempotent(pledges: seq<Pledge>, nextId: nat, action: nat, user: nat)
    requires PledgesWellFormed(pledges, nextId)
    ensures GetOrCreate(pledges, nextId, action, user).Ok?
    ensures var once := GetOrCreate(pledges, nextId, action, user).value;
      GetOrCreate(once.0, once.1, action, user) == Ok((once.0, once.1, false))
  {
    GetOrCreateKeepsWellFormed(pledges, nextId, action, user);
    var once := GetOrCreate(pledges, nextId, action, user).value;
    GetPledgeWellFormed(once.0, once.1, action, user);
  }

  // ---------------------------------------------------------------- the manager

  /** ActionManager.popular: up to `limit` actions of the campaign, in table order. */
  function Popular(actions: seq<Action>, campaign: nat, limit: nat): (r: seq<Action>)
    ensures |r| <= limit
    ensures forall a :: a in r ==> a in actions && a.campaign == campaign
    ensures |r| == limit || forall a :: a in actions && a.campaign == campaign ==> a in r
  {
    var all := OfCampaign(actions, campaign);
    if limit < |all| then
      assert forall a :: a in all[..limit] ==> a in all;
      all[..limit]
    else all
  }

  function OfCampaign(actions: seq<Action>, campaign: nat): (r: seq<Action>)
    ensures forall a :: a in r <==> a in actions && a.campaign == campaign
  {
    if actions == [] then []
    else
      var rest := OfCampaign(actions[1..], campaign);
      assert forall a :: a in actions <==> a == actions[0] || a in actions[1..];
      if actions[0].campaign == campaign then [actions[0]] + rest else rest
  }

  /** dashboard_cache_key: `'ge_action_%d_%d' % (campaign.id, geuser.id)`. */
  function DashboardCacheKey(campaign: nat, user: nat): (k: string)
  {
    PairKey("ge_action_", campaign, user)
  }

  /** Distinct (campaign, user) pairs have distinct dashboard keys. */
  lemma DashboardCacheKeyInjective(c1: nat, u1: nat, c2: nat, u2: nat)
    requires DashboardCacheKey(c1, u1) == DashboardCacheKey(c2, u2)
    ensures c1 == c2 && u1 == u2
  {
    PairKeyInjective("ge_action_", c1, u1, c2, u2);
  }

  /** clear_dashboard_cache: deletes the dashboard key of every member of the campaign
    * and nothing else. */
  method ClearDashboardCache<V>(cache: Cache<V>, campaign: nat, members: seq<nat>)
    modifies cache
    ensures cache.store == old(cache.store) - PairKeys("ge_action_", campaign, members)
  {
    for i := 0 to |members|
      invariant cache.store == old(cache.store) - PairKeys("ge_action_", campaign, members[..i])
    {
      cache.Delete(DashboardCacheKey(campaign, members[i]));
      assert members[..i + 1] == members[..i] + [members[i]];
    }
    assert members[..|members|] == members;
  }

  /** Clearing one campaign's dashboards keeps every other campaign's. */
  lemma ClearKeepsOtherCampaigns(campaign: nat, members: seq<nat>, other: nat, user: nat)
    requires other != campaign
    ensures DashboardCacheKey(other, user) !in PairKeys("ge_action_", campaign, members)
  {
    if DashboardCacheKey(other, user) in PairKeys("ge_action_", campaign, members) {
      var u :| u in members && PairKey("ge_action_", campaign, u) == DashboardCacheKey(other, user);
      DashboardCacheKeyInjective(campaign, u, other, user);
    }
  }

  // ---------------------------------------------------------------- the tables

  /** The action app's tables: actions, pledges, comments, and the status entries the
    * pledge posts to the feed. */
  class ActionStore {
    var actions: seq<Action>
    var pledges: seq<Pledge>
    var nextPledgeId: nat
    var comments: seq<Comment>
    var entries: seq<Entry>
    /** The ids of the actions written by `save()`, in order. */
    ghost var saved: seq<nat>

    ghost predicate Valid()
      reads this
    {
      PledgesWellFormed(pledges, nextPledgeId)
    }

    constructor (actions: seq<Action>, comments: seq<Comment>)
      ensures Valid()
      ensures this.actions == actions && this.comments == comments
      ensures pledges == [] && nextPledgeId == 0 && entries == [] && saved == []
    {
      this.actions, this.comments := actions, comments;
      pledges, nextPledgeId, entries, saved := [], 0, [], [];
    }

    /** Action.pledge: get-or-create the pledge; only a new pledge posts "pledged to
      * <strong>title</strong>" to the campaign feed; the dashboards of all campaign
      * members are cleared whether or not a pledge was created. */
    method PledgeAction<V>(action: Action, user: nat, members: seq<nat>, cache: Cache<V>) returns (r: Outcome)
      modifies this, cache
      ensures actions == old(actions) && comments == old(comments) && saved == old(saved)
      ensures var g := GetOrCreate(old(pledges), old(nextPledgeId), action.id, user);
        if g.Err? then
          r == Fail(g.error) && pledges == old(pledges) && nextPledgeId == old(nextPledgeId)
          && entries == old(entries) && cache.store == old(cache.store)
        else
          r == Pass && pledges == g.value.0 && nextPledgeId == g.value.1
          && entries == old(entries) + (if g.value.2 then [Entry(user, "pledged to <strong>" + action.title + "</strong>", action.campaign)] else [])
          && cache.store == old(cache.store) - PairKeys("ge_action_", action.campaign, members)
      ensures old(Valid()) ==> r == Pass && Valid()
    {
      if Valid() {
        GetOrCreateKeepsWellFormed(pledges, nextPledgeId, action.id, user);
      }
      var g := GetOrCreate(pledges, nextPledgeId, action.id, user);
      if g.Err? {
        return Fail(g.error);
      }
      pledges, nextPledgeId := g.value.0, g.value.1;
      if g.value.2 {
        entries := entries + [Entry(user, "pledged to <strong>" + action.title + "</strong>", action.campaign)];
      }
      ClearDashboardCache(cache, action.campaign, members);
      r := Pass;
    }

    /** How many comments the action has. */
    function CommentCountOf(id: nat): (n: nat)
      reads this
      ensures n <= |comments|
    {
      |CommentsOf(comments, id)|
    }

    /** _update_count for `comment_count`: stores the actual number of comments, and saves
      * the action only when the stored number was different. */
    method UpdateCommentCount(i: nat)
      requires i < |actions|
      modifies this
      ensures |actions| == |old(actions)|
      ensures actions[i] == old(actions[i]).(commentCount := CommentCountOf(old(actions[i]).id))
      ensures forall j :: 0 <= j < |actions| && j != i ==> actions[j] == old(actions[j])
      ensures saved == old(saved) + (if old(actions[i]).commentCount != CommentCountOf(old(actions[i]).id) then [old(actions[i]).id] else [])
      ensures pledges == old(pledges) && nextPledgeId == old(nextPledgeId)
      ensures comments == old(comments) && entries == old(entries)
    {
      var newCount := |CommentsOf(comments, actions[i].id)|;
      if newCount != actions[i].commentCount {
        actions := actions[i := actions[i].(commentCount := newCount)];
        saved := saved + [actions[i].id];
      }
    }
  }

  function CommentsOf(comments: seq<Comment>, action: nat): (r: seq<Comment>)
    ensures |r| <= |comments|
    ensures forall c :: c in r <==> c in comments && c.action == action
  {
    if comments == [] then []
    else
      var rest := CommentsOf(comments[1..], action);
      assert forall c :: c in comments <==> c == comments[0] || c in comments[1..];
      if comments[0].action == action then [comments[0]] + rest else rest
  }
}
