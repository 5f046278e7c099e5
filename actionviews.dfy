/** action/view_objects.py: the view of an action as one viewer sees it (the counts of
  * the other people), the viewer's list of popular actions cached per user, and the
  * cache index that lets a campaign's popular lists be cleared. */
module ActionViews {
  import opened Wrappers
  import opened Text
  import opened Sorting
  import opened Memcache
  import opened Actions

  datatype BarrierView = BarrierView(id: nat, title: string, userCount: nat, iHave: bool)

  datatype ActionView = ActionView(
    id: nat, title: string,
    isPledged: bool, isCompleted: bool,
    openPledgeCount: int, completedCount: int, totalPledges: int, openAndCompleted: int,
    barriers: seq<BarrierView>, barrierCount: nat,
    createdById: nat)

  /** What the views code keeps in the cache: a viewer's popular list, or the index of the
    * viewers who have one. */
  datatype CacheValue = Views(views: seq<ActionView>) | Ids(ids: seq<nat>)

  // ---------------------------------------------------------------- BarrierView

  /** BarrierView.__init__: `i_have` tells whether the viewer, if any, has the barrier. */
  function MakeBarrierView(b: Barrier, user: Option<nat>): (r: BarrierView)
    ensures r.id == b.id && r.title == b.title && r.userCount == |b.users|
    ensures user.None? ==> !r.iHave
    ensures r.iHave ==> user.Some? && user.value in b.users
    ensures user.Some? && user.value in b.users ==> r.iHave
  {
    BarrierView(b.id, b.title, |b.users|, user.Some? && user.value in b.users)
  }

  /** `action.barrier_set.all()` */
  function BarriersOf(barriers: seq<Barrier>, action: nat): (r: seq<Barrier>)
    ensures forall b :: b in r <==> b in barriers && b.action == action
  {
    if barriers == [] then []
    else
      var rest := BarriersOf(barriers[1..], action);
      assert forall b :: b in barriers <==> b == barriers[0] || b in barriers[1..];
      if barriers[0].action == action then [barriers[0]] + rest else rest
  }

  // ---------------------------------------------------------------- ActionView

  /** ActionView.__init__: whether the viewer pledged and completed, the counts of pledges,
    * and the counts of the other people ('You and x other people'). A viewer with several
    * pledges to the action makes `get` raise; an action whose creator was deleted makes
    * `creator.id` raise. */
  function ViewOf(action: Action, user: Option<nat>, pledges: seq<Pledge>, barriers: seq<Barrier>): (r: Result<ActionView>)
    ensures r.Err? <==>
      (user.Some? && GetPledge(pledges, action.id, user.value) == Err(MultipleObjectsReturned))
      || action.createdBy.None?
    ensures r.Err? ==> r.error == MultipleObjectsReturned || r.error == AttributeError
    ensures r.Ok? ==>
      var v := r.value;
      && v.id == action.id && v.title == action.title
      && (v.isPledged <==> user.Some? && exists p :: p in pledges && p.action == action.id && p.user == user.value)
      && (v.isCompleted <==> user.Some? && exists p :: p in pledges && p.action == action.id && p.user == user.value && p.isCompleted)
      && (v.isCompleted ==> v.isPledged)
      && v.totalPledges == PledgeCount(pledges, action, None)
      && v.openPledgeCount == OpenPledgeCount(pledges, action) - (if v.isPledged && !v.isCompleted then 1 else 0)
      && v.completedCount == CompletedCount(pledges, action, None) - (if v.isCompleted then 1 else 0)
      && v.openAndCompleted == v.totalPledges - (if v.isPledged then 1 else 0)
      && v.openPledgeCount >= 0 && v.completedCount >= 0
      && v.barrierCount == |v.barriers| == |BarriersOf(barriers, action.id)|
      && (user.None? ==> forall b :: b in v.barriers ==> !b.iHave)
  {
    var got := if user.None? then Err(DoesNotExist) else GetPledge(pledges, action.id, user.value);
    if got.Err? && got.error != DoesNotExist then Err(got.error)
    else
      var isPledged := got.Ok?;
      var isCompleted := got.Ok? && got.value.isCompleted;
      var open := OpenPledgeCount(pledges, action);
      var completed := CompletedCount(pledges, action, None);
      PledgeCountIsOpenPlusCompleted(pledges, action);
      assert isPledged ==> (if isCompleted then completed else open) >= 1 by {
        if isPledged {
          CountedIsCounted(pledges, got.value, action.id, Some(got.value.isCompleted));
        }
      }
      assert isCompleted <==> user.Some? && exists p :: p in pledges && p.action == action.id && p.user == user.value && p.isCompleted by {
        if got.Ok? {
          var found := PledgesBy(pledges, action.id, user.value);
          assert found == [found[0]];
          assert got.value in found;
        }
      }
      var bs := BarriersOf(barriers, action.id);
      var views := seq(|bs|, i requires 0 <= i < |bs| => MakeBarrierView(bs[i], user));
      if action.createdBy.None? then Err(AttributeError)
      else
        Ok(ActionView(
          action.id, action.title, isPledged, isCompleted,
          if isPledged && !isCompleted then open - 1 else open,
          if isCompleted then completed - 1 else completed,
          open + completed,
          (if isPledged && !isCompleted then open - 1 else open) + (if isCompleted then completed - 1 else completed),
          views, |views|, action.createdBy.value))
  }

  /** In a table with at most one pledge per (action, user), the view fails only for an
    * action without a creator. */
  lemma ViewOfWellFormed(action: Action, user: Option<nat>, pledges: seq<Pledge>, nextId: nat, barriers: seq<Barrier>)
    requires PledgesWellFormed(pledges, nextId)
    ensures ViewOf(action, user, pledges, barriers).Err? <==> action.createdBy.None?
  {
    if user.Some? {
      GetPledgeWellFormed(pledges, nextId, action.id, user.value);
    }
  }

  /** ActionView.__init__ as the constructor runs it: the counts are read, then the
    * viewer's own pledge is taken off one of them. */
  method NewActionView(action: Action, user: Option<nat>, pledges: seq<Pledge>, barriers: seq<Barrier>) returns (r: Result<ActionView>)
    ensures r == ViewOf(action, user, pledges, barriers)
  {
    var isPledged, isCompleted := false, false;
    if user.Some? {
      var got := GetPledge(pledges, action.id, user.value);
      if got.Ok? {
        isPledged, isCompleted := true, got.value.isCompleted;
      } else if got.error != DoesNotExist {
        return Err(got.error);
      }
    }
    var open := OpenPledgeCount(pledges, action);
    var completed := CompletedCount(pledges, action, None);
    var total := open + completed;
    if isPledged && !isCompleted {
      open := open - 1;
    } else if isCompleted {
      completed := completed - 1;
    }
    var openAndCompleted := open + completed;
    var bs := BarriersOf(barriers, action.id);
    var views := seq(|bs|, i requires 0 <= i < |bs| => MakeBarrierView(bs[i], user));
    if action.createdBy.None? {
      return Err(AttributeError);
    }
    r := Ok(ActionView(action.id, action.title, isPledged, isCompleted, open, completed, total,
                       openAndCompleted, views, |views|, action.createdBy.value));
  }

  // ---------------------------------------------------------------- popular

  /** `'ge_popular_actions_%d_%d' % (campaign_id, geuser_id)` */
  function PopularKey(campaign: nat, user: nat): string
  {
    PairKey("ge_popular_actions_", campaign, user)
  }

  /** `'ge_popular_actions_index_%d' % campaign_id` */
  function IndexKey(campaign: nat): string
  {
    "ge_popular_actions_index_" + NatStr(campaign)
  }

  /** The index key never collides with a viewer's popular-list key: after the common
    * prefix one continues with `index`, the other with a digit. */
  lemma IndexKeyIsNotPopularKey(c1: nat, c2: nat, user: nat)
    ensures IndexKey(c1) != PopularKey(c2, user)
  {
    var p := "ge_popular_actions_";
    assert IndexKey(c1)[|p|] == 'i';
    assert PopularKey(c2, user) == p + (NatStr(c2) + "_" + NatStr(user));
    assert PopularKey(c2, user)[|p|] == NatStr(c2)[0];
  }

  /** The user ids in the campaign's index, `[]` when there is none. */
  function IndexOf(store: map<string, CacheValue>, campaign: nat): (r: seq<nat>)
    ensures IndexKey(campaign) !in store ==> r == []
  {
    var key := IndexKey(campaign);
    if key in store && store[key].Ids? then store[key].ids else []
  }

  /** The index after a viewer's list was computed: the viewer is appended only when
    * absent. */
  function WithViewer(store: map<string, CacheValue>, campaign: nat, user: nat): (r: map<string, CacheValue>)
    ensures user in IndexOf(r, campaign)
    ensures forall k :: k != IndexKey(campaign) ==> (k in r <==> k in store) && (k in r ==> r[k] == store[k])
  {
    var index := IndexOf(store, campaign);
    if user in index then store else store[IndexKey(campaign) := Ids(index + [user])]
  }

  /** The index gains the viewer only when absent, so it never holds an id twice, and it
    * grows by at most one. */
  lemma {:induction false} IndexGainsViewerOnce(store: map<string, CacheValue>, campaign: nat, user: nat)
    ensures var before, after := IndexOf(store, campaign), IndexOf(WithViewer(store, campaign, user), campaign);
      (NoDuplicates(before) ==> NoDuplicates(after))
      && (user in before ==> after == before)
      && (user !in before ==> after == before + [user])
  {
    var before := IndexOf(store, campaign);
    if user !in before {
      var after := before + [user];
      assert IndexOf(WithViewer(store, campaign, user), campaign) == after;
      if NoDuplicates(before) {
        forall i, j | 0 <= i < j < |after|
          ensures after[i] != after[j]
        {
          if j == |before| {
            assert after[i] == before[i];
          }
        }
      }
    }
  }

  /** How popular an action is, as a key for an ascending sort. */
  function Popularity(v: ActionView): int
  {
    -v.openAndCompleted
  }

  /** `[action for action in views if not action.is_completed]` */
  function Uncompleted(views: seq<ActionView>): (r: seq<ActionView>)
    ensures forall v :: v in r <==> v in views && !v.isCompleted
  {
    if views == [] then []
    else
      var rest := Uncompleted(views[1..]);
      assert forall v :: v in views <==> v == views[0] || v in views[1..];
      if views[0].isCompleted then rest else [views[0]] + rest
  }

  /** Filtering keeps every uncompleted view as often as it occurs and drops the rest. */
  lemma {:induction false} UncompletedCounts(views: seq<ActionView>)
    ensures forall v :: multiset(Uncompleted(views))[v] == if v.isCompleted then 0 else multiset(views)[v]
  {
    if views != [] {
      UncompletedCounts(views[1..]);
      assert views == [views[0]] + views[1..];
    }
  }

  /** Filtering a sorted list leaves it sorted. */
  lemma {:induction false} UncompletedSorted(views: seq<ActionView>)
    requires SortedBy(views, Popularity)
    ensures SortedBy(Uncompleted(views), Popularity)
  {
    if views != [] {
      UncompletedSorted(views[1..]);
    }
  }

  /** The popular list: the views sorted by `open_and_completed`, largest first (ties
    * keep their order), without the actions the viewer has completed. */
  function Ranked(views: seq<ActionView>): (r: seq<ActionView>)
    ensures forall i, j :: 0 <= i < j < |r| ==> r[i].openAndCompleted >= r[j].openAndCompleted
    ensures forall v :: v in r ==> !v.isCompleted
    ensures forall v :: multiset(r)[v] == if v.isCompleted then 0 else multiset(views)[v]
  {
    var sorted := SortBy(views, Popularity);
    UncompletedSorted(sorted);
    UncompletedCounts(sorted);
    var r := Uncompleted(sorted);
    assert forall i, j :: 0 <= i < j < |r| ==> Popularity(r[i]) <= Popularity(r[j]);
    r
  }

  /** The views of a list of actions, built in order; the first view that raises stops the
    * list comprehension. */
  function ViewsOf(actions: seq<Action>, user: Option<nat>, pledges: seq<Pledge>, barriers: seq<Barrier>): (r: Result<seq<ActionView>>)
    ensures r.Ok? ==> |r.value| == |actions|
    ensures r.Ok? ==> forall i :: 0 <= i < |actions| ==> ViewOf(actions[i], user, pledges, barriers) == Ok(r.value[i])
    ensures r.Err? <==> exists i :: 0 <= i < |actions| && ViewOf(actions[i], user, pledges, barriers).Err?
  {
    if actions == [] then Ok([])
    else
      var init := actions[..|actions| - 1];
      var last := ViewOf(actions[|actions| - 1], user, pledges, barriers);
      match ViewsOf(init, user, pledges, barriers)
      case Err(e) =>
        var i :| 0 <= i < |init| && ViewOf(init[i], user, pledges, barriers).Err?;
        assert actions[i] == init[i];
        Err(e)
      case Ok(vs) =>
        if last.Err? then Err(last.error)
        else
          assert forall i :: 0 <= i < |init| ==> actions[i] == init[i];
          Ok(vs + [last.value])
  }

  /** The cache hit of `popular`: a non-empty list under the viewer's key. */
  predicate CachedList(store: map<string, CacheValue>, key: string)
  {
    key in store && store[key].Views? && store[key].views != []
  }

  /** ActionView.popular: the viewer's cached list unless it is missing, empty or `force`
    * is set; otherwise the ranked views of the campaign's popular actions, which are then
    * cached under the viewer's key, and the viewer is recorded in the campaign's index. */
  method Popular(cache: Cache<CacheValue>, campaign: nat, user: nat, force: bool,
                 actions: seq<Action>, pledges: seq<Pledge>, barriers: seq<Barrier>)
    returns (r: Result<seq<ActionView>>)
    modifies cache
    ensures var key := PopularKey(campaign, user);
      if !force && CachedList(old(cache.store), key) then
        r == Ok(old(cache.store)[key].views) && cache.store == old(cache.store)
      else
        match ViewsOf(Actions.Popular(actions, campaign, 10), Some(user), pledges, barriers)
        case Err(e) => r == Err(e) && cache.store == old(cache.store)
        case Ok(vs) =>
          r == Ok(Ranked(vs))
          && cache.store == WithViewer(old(cache.store)[key := Views(Ranked(vs))], campaign, user)
  {
    var key := PopularKey(campaign, user);
    var cached := cache.Get(key);
    if !force && cached.Some? && cached.value.Views? && cached.value.views != [] {
      return Ok(cached.value.views);
    }
    var built := BuildViews(Actions.Popular(actions, campaign, 10), Some(user), pledges, barriers);
    if built.Err? {
      return Err(built.error);
    }
    var result := Ranked(built.value);
    cache.Set(key, Views(result));
    var indexKey := IndexKey(campaign);
    IndexKeyIsNotPopularKey(campaign, campaign, user);
    var index := IndexOf(cache.store, campaign);
    if user !in index {
      cache.Set(indexKey, Ids(index + [user]));
    }
    r := Ok(result);
  }

  /** `[ActionView(action, geuser) for action in actions]` */
  method BuildViews(actions: seq<Action>, user: Option<nat>, pledges: seq<Pledge>, barriers: seq<Barrier>)
    returns (r: Result<seq<ActionView>>)
    ensures r == ViewsOf(actions, user, pledges, barriers)
  {
    var views := [];
    for i := 0 to |actions|
      invariant ViewsOf(actions[..i], user, pledges, barriers) == Ok(views)
    {
      ViewsStep(actions, i, user, pledges, barriers);
      var v := NewActionView(actions[i], user, pledges, barriers);
      if v.Err? {
        LaterErrorPersists(actions, i + 1, user, pledges, barriers);
        return Err(v.error);
      }
      views := views + [v.value];
    }
    assert actions[..|actions|] == actions;
    r := Ok(views);
  }

  /** One more action: an earlier error stays, else the action's view is appended or its
    * error raised. */
  lemma ViewsStep(actions: seq<Action>, i: nat, user: Option<nat>, pledges: seq<Pledge>, barriers: seq<Barrier>)
    requires i < |actions|
    ensures var before, v := ViewsOf(actions[..i], user, pledges, barriers), ViewOf(actions[i], user, pledges, barriers);
      ViewsOf(actions[..i + 1], user, pledges, barriers)
        == if before.Err? then before else if v.Err? then Err(v.error) else Ok(before.value + [v.value])
  {
    assert actions[..i + 1][..i] == actions[..i];
  }

  /** A view that fails in a prefix of the actions fails the whole list, with the same
    * error. */
  lemma {:induction false} LaterErrorPersists(actions: seq<Action>, n: nat, user: Option<nat>, pledges: seq<Pledge>, barriers: seq<Barrier>)
    requires n <= |actions|
    requires ViewsOf(actions[..n], user, pledges, barriers).Err?
    ensures ViewsOf(actions, user, pledges, barriers) == ViewsOf(actions[..n], user, pledges, barriers)
    decreases |actions| - n
  {
    if n < |actions| {
      ViewsStep(actions, n, user, pledges, barriers);
      LaterErrorPersists(actions, n + 1, user, pledges, barriers);
    } else {
      assert actions[..n] == actions;
    }
  }

  /** clear_popular_cache: with a non-empty index, deletes the index and the popular list
    * of every viewer in it; with none, changes nothing. */
  method ClearPopularCache(cache: Cache<CacheValue>, campaign: nat)
    modifies cache
    ensures IndexOf(old(cache.store), campaign) == [] ==> cache.store == old(cache.store)
    ensures IndexOf(old(cache.store), campaign) != [] ==>
      cache.store == old(cache.store) - {IndexKey(campaign)} - PairKeys("ge_popular_actions_", campaign, IndexOf(old(cache.store), campaign))
  {
    var indexKey := IndexKey(campaign);
    var got := cache.Get(indexKey);
    if got.Some? && got.value.Ids? && got.value.ids != [] {
      var index := got.value.ids;
      cache.Delete(indexKey);
      var keysToDelete := [];
      for i := 0 to |index|
        invariant (set k | k in keysToDelete) == PairKeys("ge_popular_actions_", campaign, index[..i])
      {
        var key := PopularKey(campaign, index[i]);
        assert index[..i + 1] == index[..i] + [index[i]];
        assert PairKeys("ge_popular_actions_", campaign, index[..i + 1])
            == PairKeys("ge_popular_actions_", campaign, index[..i]) + {key};
        assert (set k | k in keysToDelete + [key]) == (set k | k in keysToDelete) + {key};
        keysToDelete := keysToDelete + [key];
      }
      assert index[..|index|] == index;
      cache.DeleteMany(keysToDelete);
    }
  }

  /** Clearing deletes exactly one popular list per indexed viewer. */
  lemma ClearPopularCacheCount(store: map<string, CacheValue>, campaign: nat)
    requires NoDuplicates(IndexOf(store, campaign))
    ensures |PairKeys("ge_popular_actions_", campaign, IndexOf(store, campaign))| == |IndexOf(store, campaign)|
    ensures IndexKey(campaign) !in PairKeys("ge_popular_actions_", campaign, IndexOf(store, campaign))
  {
    PairKeysCount("ge_popular_actions_", campaign, IndexOf(store, campaign));
    forall u | u in IndexOf(store, campaign)
      ensures PairKey("ge_popular_actions_", campaign, u) != IndexKey(campaign)
    {
      IndexKeyIsNotPopularKey(campaign, campaign, u);
    }
  }
}
