/** The provider as code: its dictionary of user overlays is filled, evicted, dropped and cleared in place. */
module RuleEngineProvider {
  import opened Common
  import opened LearnedRules
  import opened RuleOverlays

  lemma {:induction false} OldestExists(users: map<int, Entry>)
    requires users != map[]
    ensures exists o :: IsOldest(users, o)
    decreases |users|
  {
    assert users.Keys != {};
    var x := Pick(users.Keys);
    var rest := users - {x};
    if rest == map[] {
      assert forall k :: k in users && k != x ==> k in rest;
      assert IsOldest(users, x);
    } else {
      OldestExists(rest);
      var o :| IsOldest(rest, o);
      var oldest := if users[x].at <= users[o].at then x else o;
      forall v | v in users ensures users[oldest].at <= users[v].at {
        if v != x { assert v in rest; }
      }
      assert IsOldest(users, oldest);
    }
  }

  /** Besides the user's own, entries stay as they are; only a cache of 512 gives one up, and that is an oldest one. */
  ghost predicate Evicts(before: map<int, Entry>, after: map<int, Entry>, user: int) {
    && (forall v :: v in after && v != user ==> v in before && after[v] == before[v])
    && (|before| < 512 ==> forall v :: v in before ==> v in after)
    && (forall v :: v in before && v !in after ==> forall u :: u in before ==> before[v].at <= before[u].at)
    && (forall u, v :: u in before && v in before && u !in after && v !in after ==> u == v)
  }

  class EngineProvider {
    const ttl: int
    var taxa: Taxa
    var users: map<int, Entry>

    function Snapshot(): Provider
      reads this
    {
      Provider(ttl, taxa, users)
    }

    constructor (ttl: int)
      ensures Snapshot() == Provider(ttl, Taxa(map[], map[]), map[])
    {
      this.ttl, taxa, users := ttl, Taxa(map[], map[]), map[];
    }

    method InvalidateUser(user: int)
      modifies this`users
      ensures Snapshot() == Invalidate(old(Snapshot()), user)
      ensures users == old(users) - {user}
    {
      users := users - {user};
    }

    /** New taxonomy maps; overlays built against the old ones are dropped. */
    method Reload(current: Taxa)
      modifies this`taxa, this`users
      ensures Snapshot() == Reloaded(old(Snapshot()), current)
      ensures taxa == current && users == map[]
    {
      taxa := current;
      users := map[];
    }

    /** One engine per run of equal priority among the matchable rules, in repository order. */
    method LoadUserEngines(loaded: seq<Rule>) returns (tiers: seq<Tier>)
      ensures tiers == TiersOf(GroupByPriority(Matchable(loaded, taxa)), taxa)
    {
      var matchable: seq<Rule> := [];
      for i := 0 to |loaded|
        invariant matchable == Matchable(loaded[..i], taxa)
      {
        PrefixSnoc(loaded, i);
        if IsMatchable(loaded[i], taxa) { matchable := matchable + [loaded[i]]; }
      }
      assert loaded[..|loaded|] == loaded;
      var groups: seq<seq<Rule>> := [];
      for i := 0 to |matchable|
        invariant groups == GroupByPriority(matchable[..i])
      {
        PrefixSnoc(matchable, i);
        var k := |groups| - 1;
        if k >= 0 && groups[k][0].priority == matchable[i].priority {
          groups := groups[..k] + [groups[k] + [matchable[i]]];
        } else {
          groups := groups + [[matchable[i]]];
        }
      }
      assert matchable[..|matchable|] == matchable;
      tiers := [];
      for i := 0 to |groups|
        invariant tiers == TiersOf(groups, taxa)[..i]
      {
        tiers := tiers + [Tier(Keywords(groups[i], taxa), taxa.lookup)];
      }
    }

    /** Serve a fresh overlay, or rebuild it from the rows the repository returns and store it. */
    method GetUserEngines(ghost rules: RuleTable, loaded: seq<Rule>, user: int, now: int) returns (tiers: seq<Tier>)
      requires loaded == UserRules(rules, user)
      modifies this`users
      ensures Serves(old(Snapshot()), rules, user, now, Snapshot(), tiers)
      ensures user in old(users) && now - old(users)[user].at < ttl ==>
                users == old(users) && tiers == old(users)[user].tiers
      ensures !(user in old(users) && now - old(users)[user].at < ttl) ==>
                && tiers == Build(rules, user, taxa) && user in users && users[user] == Entry(tiers, now)
                && Evicts(old(users), users, user)
    {
      if user in users && now - users[user].at < ttl {
        return users[user].tiers;
      }
      tiers := LoadUserEngines(loaded);
      var kept := users;
      if |users| >= MAX_USER_CACHE {
        OldestExists(users);
        var oldest :| oldest in users && forall v :: v in users ==> users[oldest].at <= users[v].at;
        assert IsOldest(users, oldest);
        kept := users - {oldest};
      }
      assert MayKeep(users, kept);
      users := kept[user := Entry(tiers, now)];
      assert forall v :: v in old(users) && v !in users ==> v !in kept;
    }
  }
}
