/** Per-user rule overlays: how they are built from the rule table, and the cache that serves them. */
module RuleOverlays {
  import opened Common
  import opened LearnedRules
  import Taxonomy

  const MAX_USER_CACHE: nat := 512

  // ----- the user's rules in repository order -----

  /** ORDER BY priority, length(pattern_value) DESC, id. */
  predicate Before(rules: RuleTable, i: int, j: int)
    requires i in rules && j in rules
  {
    var a, b := rules[i], rules[j];
    || a.priority < b.priority
    || (a.priority == b.priority && |a.pattern| > |b.pattern|)
    || (a.priority == b.priority && |a.pattern| == |b.pattern| && i < j)
  }

  ghost predicate IsFirst(rules: RuleTable, ids: set<int>, m: int)
    requires ids <= rules.Keys
  {
    m in ids && forall j :: j in ids && j != m ==> Before(rules, m, j)
  }

  lemma {:induction false} FirstExists(rules: RuleTable, ids: set<int>)
    requires ids != {} && ids <= rules.Keys
    ensures exists m :: IsFirst(rules, ids, m)
    decreases |ids|
  {
    var x := Pick(ids);
    var rest := ids - {x};
    if rest == {} {
      assert ids == {x};
      assert IsFirst(rules, ids, x);
    } else {
      FirstExists(rules, rest);
      var m :| IsFirst(rules, rest, m);
      var first := if Before(rules, x, m) then x else m;
      forall j | j in ids && j != first ensures Before(rules, first, j) {
        if j != x && j != m { assert j in rest && Before(rules, m, j); }
      }
      assert IsFirst(rules, ids, first);
    }
  }

  ghost function OrderedIds(rules: RuleTable, ids: set<int>): (order: seq<int>)
    requires ids <= rules.Keys
    ensures forall n :: 0 <= n < |order| ==> order[n] in ids
    decreases |ids|
  {
    if ids == {} then []
    else
      FirstExists(rules, ids);
      var m :| IsFirst(rules, ids, m);
      [m] + OrderedIds(rules, ids - {m})
  }

  /** The rows of some ids in repository order. */
  ghost function Rows(rules: RuleTable, order: seq<int>): seq<Rule>
    requires forall n :: 0 <= n < |order| ==> order[n] in rules
  {
    seq(|order|, n requires 0 <= n < |order| => rules[order[n]])
  }

  ghost function IdsOf(rules: RuleTable, user: int): set<int> { set i | i in rules && rules[i].user == Some(user) }

  ghost function UserRules(rules: RuleTable, user: int): seq<Rule> {
    Rows(rules, OrderedIds(rules, IdsOf(rules, user)))
  }

  ghost predicate SortedByPriority(rs: seq<Rule>) {
    forall i, j :: 0 <= i < j < |rs| ==> rs[i].priority <= rs[j].priority
  }

  /** Every id once, by ascending priority, then longer patterns first, then ascending id. */
  ghost predicate InRepositoryOrder(rules: RuleTable, ids: set<int>, order: seq<int>)
    requires ids <= rules.Keys
  {
    && (forall n :: 0 <= n < |order| ==> order[n] in ids) && (forall i :: i in ids ==> i in order)
    && forall m, n :: 0 <= m < n < |order| ==> order[m] != order[n] && ListedBefore(rules, order[m], order[n])
  }

  /** A lower priority number, or the same and a longer pattern, or both the same and a lower id. */
  ghost predicate ListedBefore(rules: RuleTable, i: int, j: int)
    requires i in rules && j in rules
  {
    if rules[i].priority != rules[j].priority then rules[i].priority < rules[j].priority
    else if |rules[i].pattern| != |rules[j].pattern| then |rules[i].pattern| > |rules[j].pattern|
    else i < j
  }

  lemma FirstThenRest(rules: RuleTable, ids: set<int>, m: int, rest: seq<int>)
    requires ids <= rules.Keys && IsFirst(rules, ids, m) && InRepositoryOrder(rules, ids - {m}, rest)
    ensures InRepositoryOrder(rules, ids, [m] + rest)
  {
    forall n | 0 <= n < |rest| ensures rest[n] in ids && rest[n] != m && Before(rules, m, rest[n]) {
      assert rest[n] in ids - {m};
    }
  }

  lemma {:induction false} OrderedIsSorted(rules: RuleTable, ids: set<int>)
    requires ids <= rules.Keys
    ensures InRepositoryOrder(rules, ids, OrderedIds(rules, ids))
    decreases |ids|
  {
    if ids == {} {
    } else {
      FirstExists(rules, ids);
      var m :| IsFirst(rules, ids, m) && OrderedIds(rules, ids) == [m] + OrderedIds(rules, ids - {m});
      OrderedIsSorted(rules, ids - {m});
      FirstThenRest(rules, ids, m, OrderedIds(rules, ids - {m}));
    }
  }

  lemma RowsAreSorted(rules: RuleTable, ids: set<int>, order: seq<int>)
    requires ids <= rules.Keys && InRepositoryOrder(rules, ids, order)
    ensures SortedByPriority(Rows(rules, order))
  {
    forall m, n | 0 <= m < n < |order| ensures Rows(rules, order)[m].priority <= Rows(rules, order)[n].priority {
      assert ListedBefore(rules, order[m], order[n]);
    }
  }

  /** Only the listed rows matter. */
  lemma {:induction false} OrderedFrame(rules: RuleTable, rules': RuleTable, ids: set<int>)
    requires ids <= rules.Keys && ids <= rules'.Keys && forall i :: i in ids ==> rules[i] == rules'[i]
    ensures OrderedIds(rules, ids) == OrderedIds(rules', ids)
    ensures Rows(rules, OrderedIds(rules, ids)) == Rows(rules', OrderedIds(rules', ids))
    decreases |ids|
  {
    if ids == {} {
    } else {
      FirstExists(rules, ids);
      FirstExists(rules', ids);
      var m :| IsFirst(rules, ids, m) && OrderedIds(rules, ids) == [m] + OrderedIds(rules, ids - {m});
      var m' :| IsFirst(rules', ids, m') && OrderedIds(rules', ids) == [m'] + OrderedIds(rules', ids - {m'});
      assert m == m';
      OrderedFrame(rules, rules', ids - {m});
    }
  }

  // ----- tiers -----

  /** One engine: its keyword mappings against the shared lookup. */
  datatype Tier = Tier(keywords: seq<(string, string)>, lookup: map<string, (int, int)>)

  datatype Taxa = Taxa(names: map<int, string>, lookup: map<string, (int, int)>)

  predicate IsMatchable(r: Rule, taxa: Taxa) {
    r.active && (r.kind == Keyword || r.kind == Merchant) && r.subcategory in taxa.names
  }

  function Matchable(rs: seq<Rule>, taxa: Taxa): (m: seq<Rule>)
    ensures forall r :: r in m <==> r in rs && IsMatchable(r, taxa)
  {
    if rs == [] then []
    else
      var n := |rs| - 1;
      assert forall r :: r in rs <==> r in rs[..n] || r == rs[n];
      Matchable(rs[..n], taxa) + if IsMatchable(rs[n], taxa) then [rs[n]] else []
  }

  /** itertools.groupby: runs of equal priority. */
  function GroupByPriority(rs: seq<Rule>): (gs: seq<seq<Rule>>)
    ensures forall i :: 0 <= i < |gs| ==> gs[i] != []
    ensures rs != [] ==> gs != []
  {
    if rs == [] then []
    else
      var n := |rs| - 1;
      var gs := GroupByPriority(rs[..n]);
      if gs != [] && gs[|gs| - 1][0].priority == rs[n].priority then gs[..|gs| - 1] + [gs[|gs| - 1] + [rs[n]]]
      else gs + [[rs[n]]]
  }

  function NameOf(taxa: Taxa, sub: int): string { if sub in taxa.names then taxa.names[sub] else "" }

  function Keywords(group: seq<Rule>, taxa: Taxa): seq<(string, string)> {
    seq(|group|, i requires 0 <= i < |group| => (group[i].pattern, NameOf(taxa, group[i].subcategory)))
  }

  function TiersOf(gs: seq<seq<Rule>>, taxa: Taxa): seq<Tier> {
    seq(|gs|, i requires 0 <= i < |gs| => Tier(Keywords(gs[i], taxa), taxa.lookup))
  }

  /** The overlay of a user: one tier per run of equal priority among the matchable rules. */
  ghost function Build(rules: RuleTable, user: int, taxa: Taxa): seq<Tier> {
    TiersOf(GroupByPriority(Matchable(UserRules(rules, user), taxa)), taxa)
  }

  // ----- the ladder -----

  function Flatten(gs: seq<seq<Rule>>): seq<Rule> {
    if gs == [] then [] else Flatten(gs[..|gs| - 1]) + gs[|gs| - 1]
  }

  ghost predicate Uniform(g: seq<Rule>) { g != [] && forall i :: 0 <= i < |g| ==> g[i].priority == g[0].priority }

  ghost predicate Ascending(gs: seq<seq<Rule>>)
    requires forall i :: 0 <= i < |gs| ==> gs[i] != []
  {
    forall i, j :: 0 <= i < j < |gs| ==> gs[i][0].priority < gs[j][0].priority
  }

  lemma {:induction false} GroupsAreUniform(rs: seq<Rule>)
    ensures forall g :: g in GroupByPriority(rs) ==> Uniform(g)
  {
    if rs == [] {
    } else {
      var n := |rs| - 1;
      GroupsAreUniform(rs[..n]);
      var before, gs := GroupByPriority(rs[..n]), GroupByPriority(rs);
      forall g | g in gs ensures Uniform(g) {
        if g !in before && g != [rs[n]] {
          var last := before[|before| - 1];
          assert g == last + [rs[n]] && Uniform(last);
        }
      }
    }
  }

  lemma {:induction false} GroupsFlattenBack(rs: seq<Rule>)
    ensures Flatten(GroupByPriority(rs)) == rs
  {
    if rs == [] {
    } else {
      var n := |rs| - 1;
      GroupsFlattenBack(rs[..n]);
      var before := GroupByPriority(rs[..n]);
      FlattenSnoc(before, [rs[n]]);
      if before != [] {
        FlattenIntoLast(before, rs[n]);
      }
      assert rs == rs[..n] + [rs[n]];
    }
  }

  lemma FlattenSnoc(gs: seq<seq<Rule>>, g: seq<Rule>)
    ensures Flatten(gs + [g]) == Flatten(gs) + g
  {
    assert (gs + [g])[..|gs|] == gs;
  }

  lemma FlattenIntoLast(gs: seq<seq<Rule>>, r: Rule)
    requires gs != []
    ensures Flatten(gs[..|gs| - 1] + [gs[|gs| - 1] + [r]]) == Flatten(gs) + [r]
  {
    var init, last := gs[..|gs| - 1], gs[|gs| - 1];
    FlattenSnoc(init, last + [r]);
    assert Flatten(init) + (last + [r]) == Flatten(init) + last + [r];
  }

  lemma AscendsWithNew(gs: seq<seq<Rule>>, r: Rule)
    requires (forall i :: 0 <= i < |gs| ==> gs[i] != []) && Ascending(gs)
    requires gs != [] ==> gs[|gs| - 1][0].priority < r.priority
    ensures (forall i :: 0 <= i < |gs| + 1 ==> (gs + [[r]])[i] != []) && Ascending(gs + [[r]])
  {
    forall i | 0 <= i < |gs| ensures gs[i][0].priority < r.priority {
      assert i < |gs| - 1 ==> gs[i][0].priority < gs[|gs| - 1][0].priority;
    }
  }

  lemma {:induction false} GroupsAscend(rs: seq<Rule>)
    requires SortedByPriority(rs)
    ensures Ascending(GroupByPriority(rs))
  {
    if rs == [] {
    } else {
      var n := |rs| - 1;
      GroupsAscend(rs[..n]);
      LastHead(rs[..n]);
      var before: seq<seq<Rule>> := GroupByPriority(rs[..n]);
      if before == [] || before[|before| - 1][0].priority != rs[n].priority {
        AscendsWithNew(before, rs[n]);
      }
    }
  }

  /** The last group has the priority of the last rule. */
  lemma LastHead(rs: seq<Rule>)
    ensures rs != [] ==> var gs := GroupByPriority(rs); gs[|gs| - 1][0].priority == rs[|rs| - 1].priority
    ensures rs == [] ==> GroupByPriority(rs) == []
  {
    if rs != [] {
      var gs := GroupByPriority(rs);
      GroupsFlattenBack(rs);
      GroupsAreUniform(rs);
      assert gs[|gs| - 1] in gs;
      LastOfLast(gs);
    }
  }

  /** Grouping loses and reorders nothing, and from sorted rules each distinct priority gets exactly one tier, in
      strictly ascending order. */
  lemma GroupsAreTheLadder(rs: seq<Rule>)
    ensures
      var gs := GroupByPriority(rs);
      && Flatten(gs) == rs
      && (forall g :: g in gs ==> Uniform(g))
      && (SortedByPriority(rs) ==> Ascending(gs))
  {
    GroupsFlattenBack(rs);
    GroupsAreUniform(rs);
    if SortedByPriority(rs) { GroupsAscend(rs); }
  }

  lemma LastOfLast(gs: seq<seq<Rule>>)
    requires gs != [] && Uniform(gs[|gs| - 1])
    ensures Flatten(gs) != [] && Flatten(gs)[|Flatten(gs)| - 1].priority == gs[|gs| - 1][0].priority
  {
  }

  lemma {:induction false} MatchableKeepsOrder(rs: seq<Rule>, taxa: Taxa)
    requires SortedByPriority(rs)
    ensures SortedByPriority(Matchable(rs, taxa))
  {
    if rs == [] {
    } else {
      var n := |rs| - 1;
      MatchableKeepsOrder(rs[..n], taxa);
      var m := Matchable(rs[..n], taxa);
      forall i | 0 <= i < |m| ensures m[i].priority <= rs[n].priority { assert m[i] in rs[..n]; }
    }
  }

  ghost predicate IsRuleOf(rules: RuleTable, user: int, r: Rule) {
    r.user == Some(user) && exists i :: i in rules && rules[i] == r
  }

  /** The overlay's tiers are exactly the distinct priorities of the user's matchable rules, lowest number first. */
  lemma OverlayLadder(rules: RuleTable, user: int, taxa: Taxa)
    ensures
      var rs := Matchable(UserRules(rules, user), taxa);
      var gs := GroupByPriority(rs);
      && Build(rules, user, taxa) == TiersOf(gs, taxa) && Flatten(gs) == rs
      && (forall g :: g in gs ==> Uniform(g)) && Ascending(gs)
      && (forall r: Rule :: r in rs <==> IsMatchable(r, taxa) && IsRuleOf(rules, user, r))
  {
    OrderedIsSorted(rules, IdsOf(rules, user));
    RowsAreSorted(rules, IdsOf(rules, user), OrderedIds(rules, IdsOf(rules, user)));
    MatchableKeepsOrder(UserRules(rules, user), taxa);
    GroupsAreTheLadder(Matchable(UserRules(rules, user), taxa));
    forall r: Rule | exists i :: i in rules && rules[i] == r && r.user == Some(user)
        ensures r in UserRules(rules, user) {
      var i :| i in rules && rules[i] == r && r.user == Some(user);
      var order := OrderedIds(rules, IdsOf(rules, user));
      assert i in IdsOf(rules, user) && i in order;
      var n :| 0 <= n < |order| && order[n] == i;
      assert UserRules(rules, user)[n] == r;
    }
    forall r: Rule | r in UserRules(rules, user)
        ensures exists i :: i in rules && rules[i] == r && r.user == Some(user) {
      var order := OrderedIds(rules, IdsOf(rules, user));
      var n :| 0 <= n < |order| && UserRules(rules, user)[n] == r;
      assert order[n] in IdsOf(rules, user) && rules[order[n]] == r;
    }
  }

  /** A row that ends up in the overlay: the user's own, active, of a kind that is matched by containment, and with a
      subcategory the taxonomy knows. */
  ghost predicate IsOverlayRow(rules: RuleTable, i: int, user: int, taxa: Taxa) {
    && i in rules && rules[i].user == Some(user) && rules[i].active
    && (rules[i].kind == Keyword || rules[i].kind == Merchant) && rules[i].subcategory in taxa.names
  }

  ghost predicate HasKeyword(tiers: seq<Tier>, t: int, j: int, pattern: string, name: string) {
    0 <= t < |tiers| && 0 <= j < |tiers[t].keywords| && tiers[t].keywords[j] == (pattern, name)
  }

  lemma {:induction false} InFlatten(gs: seq<seq<Rule>>, r: Rule)
    ensures r in Flatten(gs) <==> exists t :: 0 <= t < |gs| && r in gs[t]
  {
    if gs == [] {
    } else {
      var n := |gs| - 1;
      InFlatten(gs[..n], r);
      assert forall t :: 0 <= t < n ==> gs[..n][t] == gs[t];
    }
  }

  /** The pattern of every such row is a keyword of the overlay, with the name of its subcategory. */
  lemma RowIsInOverlay(rules: RuleTable, user: int, taxa: Taxa, i: int) returns (t: int, j: int)
    requires IsOverlayRow(rules, i, user, taxa)
    ensures HasKeyword(Build(rules, user, taxa), t, j, rules[i].pattern, taxa.names[rules[i].subcategory])
  {
    OverlayLadder(rules, user, taxa);
    var r := rules[i];
    var rs := Matchable(UserRules(rules, user), taxa);
    var gs := GroupByPriority(rs);
    assert IsRuleOf(rules, user, r) && r in rs;
    InFlatten(gs, r);
    t :| 0 <= t < |gs| && r in gs[t];
    j :| 0 <= j < |gs[t]| && gs[t][j] == r;
  }

  /** Every keyword of the overlay is that of such a row, and every tier looks names up in the taxonomy's own table. */
  lemma OverlayIsOfRows(rules: RuleTable, user: int, taxa: Taxa, t: int, j: int) returns (i: int)
    requires 0 <= t < |Build(rules, user, taxa)| && 0 <= j < |Build(rules, user, taxa)[t].keywords|
    ensures IsOverlayRow(rules, i, user, taxa)
    ensures Build(rules, user, taxa)[t].keywords[j] == (rules[i].pattern, taxa.names[rules[i].subcategory])
    ensures Build(rules, user, taxa)[t].lookup == taxa.lookup
  {
    OverlayLadder(rules, user, taxa);
    var rs := Matchable(UserRules(rules, user), taxa);
    var gs := GroupByPriority(rs);
    var r := gs[t][j];
    InFlatten(gs, r);
    assert r in gs[t];
    assert r in rs && IsRuleOf(rules, user, r);
    i :| i in rules && rules[i] == r;
  }

  // ----- the provider's cache -----

  datatype Entry = Entry(tiers: seq<Tier>, at: int)

  datatype Provider = Provider(ttl: int, taxa: Taxa, users: map<int, Entry>)

  predicate IsFresh(p: Provider, user: int, now: int) { user in p.users && now - p.users[user].at < p.ttl }

  function Invalidate(p: Provider, user: int): Provider { p.(users := p.users - {user}) }

  function Reloaded(p: Provider, taxa: Taxa): Provider { p.(taxa := taxa, users := map[]) }

  ghost predicate IsOldest(users: map<int, Entry>, u: int) {
    u in users && forall v :: v in users ==> users[u].at <= users[v].at
  }

  /** A full cache gives up one of its oldest entries. */
  ghost predicate MayKeep(users: map<int, Entry>, kept: map<int, Entry>) {
    if |users| >= MAX_USER_CACHE then exists o :: IsOldest(users, o) && kept == users - {o} else kept == users
  }

  /** What one lookup may do: serve a fresh entry, or rebuild, evict the oldest entry of a full cache and store. */
  ghost predicate Serves(p: Provider, rules: RuleTable, user: int, now: int, p': Provider, tiers: seq<Tier>) {
    if IsFresh(p, user, now) then p' == p && tiers == p.users[user].tiers
    else
      && tiers == Build(rules, user, p.taxa)
      && exists kept :: MayKeep(p.users, kept) && p' == p.(users := kept[user := Entry(tiers, now)])
  }

  /** The provider, the shared rule table, the clock and every (time, rule table) that has been. */
  datatype World = World(provider: Provider, rules: RuleTable, now: int, seen: seq<(int, RuleTable)>)

  datatype Step =
    | RuleChange(user: int)
    | OtherProcess
    | Reload(taxa: Taxa)
    | Get(user: int, tiers: seq<Tier>)
    | Tick

  ghost predicate OnlyRowsOf(rules: RuleTable, rules': RuleTable, user: int) {
    && (forall i :: i in rules && rules[i].user != Some(user) ==> i in rules' && rules'[i] == rules[i])
    && (forall i :: i in rules' && rules'[i].user != Some(user) ==> i in rules && rules[i] == rules'[i])
  }

  ghost predicate Next(w: World, s: Step, w': World) {
    && w'.now >= w.now && (s.Tick? || w'.now == w.now)
    && w'.seen == w.seen + [(w'.now, w'.rules)]
    && match s
       case RuleChange(u) => OnlyRowsOf(w.rules, w'.rules, u) && w'.provider == Invalidate(w.provider, u)
       case OtherProcess => w'.provider == w.provider
       case Reload(taxa) => w'.rules == w.rules && w'.provider == Reloaded(w.provider, taxa)
       case Get(u, tiers) => w'.rules == w.rules && Serves(w.provider, w.rules, u, w.now, w'.provider, tiers)
       case Tick => w'.rules == w.rules && w'.provider == w.provider
  }

  ghost predicate Behaviour(ws: seq<World>, steps: seq<Step>) {
    && |ws| == |steps| + 1
    && ws[0].provider.users == map[]
    && forall i :: 0 <= i < |steps| ==> Next(ws[i], steps[i], ws[i + 1])
  }

  // ----- invariants -----

  ghost predicate Current(w: World) {
    forall u :: u in w.provider.users ==> w.provider.users[u].tiers == Build(w.rules, u, w.provider.taxa)
  }

  ghost predicate BuiltThen(w: World, u: int, e: Entry) {
    && e.at <= w.now
    && exists k :: 0 <= k < |w.seen| && w.seen[k].0 == e.at && e.tiers == Build(w.seen[k].1, u, w.provider.taxa)
  }

  ghost predicate Accountable(w: World) {
    && |w.provider.users| <= MAX_USER_CACHE
    && forall u :: u in w.provider.users ==> BuiltThen(w, u, w.provider.users[u])
  }

  lemma BuildFrame(rules: RuleTable, rules': RuleTable, user: int, u: int, taxa: Taxa)
    requires OnlyRowsOf(rules, rules', user) && u != user
    ensures Build(rules, u, taxa) == Build(rules', u, taxa)
  {
    forall i ensures i in IdsOf(rules, u) <==> i in IdsOf(rules', u) {
      if i in rules && rules[i].user == Some(u) { assert rules'[i] == rules[i]; }
    }
    assert IdsOf(rules, u) == IdsOf(rules', u);
    OrderedFrame(rules, rules', IdsOf(rules, u));
  }

  lemma StepKeepsCurrent(w: World, s: Step, w': World)
    requires Current(w) && Next(w, s, w') && !s.OtherProcess?
    ensures Current(w')
  {
    if s.RuleChange? {
      forall u | u in w'.provider.users ensures w'.provider.users[u].tiers == Build(w'.rules, u, w'.provider.taxa) {
        BuildFrame(w.rules, w'.rules, s.user, u, w.provider.taxa);
      }
    }
  }

  lemma SizeAfterStore(users: map<int, Entry>, kept: map<int, Entry>, user: int, e: Entry)
    requires |users| <= MAX_USER_CACHE
    requires MayKeep(users, kept)
    ensures |kept[user := e]| <= MAX_USER_CACHE
  {
    var stored := kept[user := e];
    assert stored.Keys == kept.Keys + {user};
    if |users| >= MAX_USER_CACHE {
      var o :| IsOldest(users, o) && kept == users - {o};
      assert kept.Keys == users.Keys - {o};
      assert |kept.Keys| == |users.Keys| - 1;
    }
    assert |stored.Keys| <= |kept.Keys| + 1;
  }

  lemma GetKeepsAccountable(w: World, s: Step, w': World)
    requires Accountable(w) && Next(w, s, w') && s.Get?
    ensures Accountable(w')
  {
    if !IsFresh(w.provider, s.user, w.now) {
      var e := Entry(s.tiers, w.now);
      var kept :| MayKeep(w.provider.users, kept) && w'.provider == w.provider.(users := kept[s.user := e]);
      SizeAfterStore(w.provider.users, kept, s.user, e);
    }
    forall u | u in w'.provider.users ensures BuiltThen(w', u, w'.provider.users[u]) {
      if u == s.user && !IsFresh(w.provider, s.user, w.now) {
        assert w'.seen[|w.seen|] == (w.now, w.rules);
      } else {
        StillBuiltThen(w, w', u);
      }
    }
  }

  lemma StillBuiltThen(w: World, w': World, u: int)
    requires u in w.provider.users && BuiltThen(w, u, w.provider.users[u])
    requires w'.now >= w.now && w.seen <= w'.seen && w'.provider.taxa == w.provider.taxa
    ensures BuiltThen(w', u, w.provider.users[u])
  {
    var e := w.provider.users[u];
    var k :| 0 <= k < |w.seen| && w.seen[k].0 == e.at && e.tiers == Build(w.seen[k].1, u, w.provider.taxa);
    assert w'.seen[k] == w.seen[k];
  }

  lemma StepKeepsAccountable(w: World, s: Step, w': World)
    requires Accountable(w) && Next(w, s, w')
    ensures Accountable(w')
  {
    if s.Get? {
      GetKeepsAccountable(w, s, w');
    } else if !s.Reload? {
      forall u | u in w'.provider.users ensures BuiltThen(w', u, w'.provider.users[u]) {
        StillBuiltThen(w, w', u);
      }
      assert w'.provider.users.Keys <= w.provider.users.Keys;
      SubsetSize(w'.provider.users.Keys, w.provider.users.Keys);
    }
  }

  lemma SubsetSize(a: set<int>, b: set<int>)
    requires a <= b
    ensures |a| <= |b|
  {
    assert b == a + (b - a);
  }

  lemma {:induction false} BehaviourInvariants(ws: seq<World>, steps: seq<Step>, n: nat)
    requires Behaviour(ws, steps) && n <= |steps|
    ensures Accountable(ws[n])
    ensures (forall i :: 0 <= i < n ==> !steps[i].OtherProcess?) ==> Current(ws[n])
  {
    if n == 0 {
    } else {
      BehaviourInvariants(ws, steps, n - 1);
      StepKeepsAccountable(ws[n - 1], steps[n - 1], ws[n]);
      if forall i :: 0 <= i < n ==> !steps[i].OtherProcess? {
        StepKeepsCurrent(ws[n - 1], steps[n - 1], ws[n]);
      }
    }
  }

  // ----- theorems -----

  /** In one process every lookup is served the overlay of the current rule table and taxonomy maps. */
  lemma LookupIsCurrent(ws: seq<World>, steps: seq<Step>, n: nat)
    requires Behaviour(ws, steps) && n < |steps| && steps[n].Get?
    requires forall i :: 0 <= i < n ==> !steps[i].OtherProcess?
    ensures steps[n].tiers == Build(ws[n].rules, steps[n].user, ws[n].provider.taxa)
  {
    BehaviourInvariants(ws, steps, n);
    assert Next(ws[n], steps[n], ws[n + 1]);
  }

  /** Whatever other processes write, a lookup is served an overlay of some rule table that was in force less than
      the TTL ago, and the cache holds at most 512 users. */
  lemma LookupIsBoundedlyStale(ws: seq<World>, steps: seq<Step>, n: nat)
    requires Behaviour(ws, steps) && n < |steps| && steps[n].Get?
    ensures
      var w := ws[n + 1];
      exists k :: 0 <= k < |w.seen| && w.seen[k].0 <= w.now &&
        (w.seen[k].0 == w.now || w.now - w.seen[k].0 < w.provider.ttl) &&
        steps[n].tiers == Build(w.seen[k].1, steps[n].user, w.provider.taxa)
    ensures |ws[n + 1].provider.users| <= 512
  {
    BehaviourInvariants(ws, steps, n);
    BehaviourInvariants(ws, steps, n + 1);
    var w, w', u := ws[n], ws[n + 1], steps[n].user;
    assert Next(w, steps[n], w');
    if IsFresh(w.provider, u, w.now) {
      var e := w.provider.users[u];
      var k :| 0 <= k < |w.seen| && w.seen[k].0 == e.at && e.tiers == Build(w.seen[k].1, u, w.provider.taxa);
      assert w'.seen[k] == w.seen[k];
    } else {
      assert w'.seen[|w.seen|] == (w.now, w.rules);
    }
  }

  /** Every RuleService operation is a rule change of its caller, or changes nothing. */
  lemma RuleServiceTouchesOnlyItsUser(db: Taxonomy.Db, user: int, op: Taxonomy.Op)
    requires FreshIds(db.learning)
    requires (op.CreateRule? || op.UpdateRule? || op.DeleteRule?) && op.user == user
    ensures
      var r := if op.CreateRule? then Taxonomy.CreateRuleStep(db, user, op.pattern, op.subcategory, op.priority,
          op.active)
               else if op.UpdateRule? then Taxonomy.UpdateRuleStep(db, user, op.rule, op.newPattern, op.newSub,
                   op.newPriority, op.newActive)
               else Taxonomy.DeleteRuleStep(db, user, op.rule);
      && OnlyRowsOf(db.learning.rules, r.0.learning.rules, user)
      && (r.1.Rejected? ==> r.0 == db)
  {
  }
}
