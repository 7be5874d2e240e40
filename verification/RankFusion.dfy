/** Reciprocal rank fusion over exact numbers. */
module RankFusion {

  // ----- what the fused order is -----

  function Share(k: nat, rank: nat): real
    requires rank >= 1
  {
    1.0 / (k + rank) as real
  }

  /** The score x collects from the first n places of one list. */
  ghost function ListScore<T>(list: seq<T>, k: nat, n: nat, x: T): real
    requires n <= |list|
  {
    if n == 0 then 0.0 else ListScore(list, k, n - 1, x) + if list[n - 1] == x then Share(k, n) else 0.0
  }

  /** The score x collects from the first n lists. */
  ghost function Score<T>(rankings: seq<seq<T>>, k: nat, n: nat, x: T): real
    requires n <= |rankings|
  {
    if n == 0 then 0.0 else Score(rankings, k, n - 1, x) + ListScore(rankings[n - 1], k, |rankings[n - 1]|, x)
  }

  ghost function Total<T>(rankings: seq<seq<T>>, k: nat, x: T): real { Score(rankings, k, |rankings|, x) }

  ghost function Place<T>(list: seq<T>, x: T): (i: nat)
    requires x in list
    ensures i < |list| && list[i] == x && x !in list[..i]
  {
    if list[0] == x then 0 else Place(list[1..], x) + 1
  }

  ghost predicate Occurs<T>(rankings: seq<seq<T>>, x: T) { exists l :: 0 <= l < |rankings| && x in rankings[l] }

  /** List index and rank of the first sighting at or after list l. */
  ghost function FirstFrom<T>(rankings: seq<seq<T>>, l: nat, x: T): (p: (nat, nat))
    requires exists m :: l <= m < |rankings| && x in rankings[m]
    ensures l <= p.0 < |rankings| && 1 <= p.1 <= |rankings[p.0]| && rankings[p.0][p.1 - 1] == x
    ensures p.0 == l <==> x in rankings[l]
    decreases |rankings| - l
  {
    if x in rankings[l] then (l, Place(rankings[l], x) + 1) else FirstFrom(rankings, l + 1, x)
  }

  predicate Earlier(p: (nat, nat), q: (nat, nat)) { p.0 < q.0 || (p.0 == q.0 && p.1 < q.1) }

  ghost predicate Better<T>(rankings: seq<seq<T>>, k: nat, x: T, y: T)
    requires Occurs(rankings, x) && Occurs(rankings, y)
  {
    || Total(rankings, k, x) > Total(rankings, k, y)
    || (Total(rankings, k, x) == Total(rankings, k, y) && Earlier(FirstFrom(rankings, 0, x), FirstFrom(rankings, 0, y)))
  }

  ghost predicate NoDuplicates<T>(s: seq<T>) { forall i, j :: 0 <= i < j < |s| ==> s[i] != s[j] }

  /** A duplicate-free arrangement of the union, best first. */
  ghost predicate IsFusion<T(!new)>(rankings: seq<seq<T>>, k: nat, r: seq<T>) {
    && NoDuplicates(r)
    && (forall x :: x in r <==> Occurs(rankings, x))
    && (forall i, j :: 0 <= i < j < |r| ==> Better(rankings, k, r[i], r[j]))
  }

  /** Distinct items are never level. */
  lemma NeverLevel<T(!new)>(rankings: seq<seq<T>>, k: nat, x: T, y: T)
    requires Occurs(rankings, x) && Occurs(rankings, y) && x != y
    ensures Better(rankings, k, x, y) <==> !Better(rankings, k, y, x)
  {
    var p, q := FirstFrom(rankings, 0, x), FirstFrom(rankings, 0, y);
    assert p != q;
  }

  /** Best first is a strict total order of the items: irreflexive, transitive, and any two distinct ones compare. */
  lemma StrictTotalOrder<T(!new)>(rankings: seq<seq<T>>, k: nat, x: T, y: T, z: T)
    requires Occurs(rankings, x) && Occurs(rankings, y) && Occurs(rankings, z)
    ensures !Better(rankings, k, x, x)
    ensures x != y ==> (Better(rankings, k, x, y) <==> !Better(rankings, k, y, x))
    ensures Better(rankings, k, x, y) && Better(rankings, k, y, z) ==> Better(rankings, k, x, z)
  {
    if x != y {
      NeverLevel(rankings, k, x, y);
    }
  }

  /** There is at most one fusion. */
  lemma FusionIsUnique<T(!new)>(rankings: seq<seq<T>>, k: nat, r: seq<T>, s: seq<T>)
    requires IsFusion(rankings, k, r) && IsFusion(rankings, k, s)
    ensures r == s
  {
    TailsAgree(rankings, k, r, s, 0);
  }

  lemma NewAfterPrefix<T>(r: seq<T>, s: seq<T>)
    requires NoDuplicates(s) && |r| < |s| && r == s[..|r|]
    ensures s[|r|] in s && s[|r|] !in r
  {
  }

  lemma {:induction false} TailsAgree<T(!new)>(rankings: seq<seq<T>>, k: nat, r: seq<T>, s: seq<T>, n: nat)
    requires IsFusion(rankings, k, r) && IsFusion(rankings, k, s)
    requires n <= |r| && n <= |s| && r[..n] == s[..n]
    ensures r == s
    decreases |r| - n
  {
    if n == |r| {
      assert r[..n] == r;
      if n < |s| { NewAfterPrefix(r, s); }
    } else {
      assert r[n] in r && r[n] in s;
      var q :| 0 <= q < |s| && s[q] == r[n];
      assert q >= n;
      assert s[n] in s && s[n] in r;
      var p :| 0 <= p < |r| && r[p] == s[n];
      assert p >= n;
      if r[n] != s[n] {
        NeverLevel(rankings, k, r[n], s[n]);
        assert false;
      }
      TailsAgree(rankings, k, r, s, n + 1);
    }
  }

  // ----- the loop -----

  /** Everything seen in the first i lists and the first j places of list i. */
  ghost predicate SeenBy<T>(rankings: seq<seq<T>>, i: nat, j: nat, x: T)
    requires i <= |rankings| && (i < |rankings| ==> j <= |rankings[i]|) && (i == |rankings| ==> j == 0)
  {
    (exists l :: 0 <= l < i && x in rankings[l]) || (i < |rankings| && x in rankings[i][..j])
  }

  ghost function ScoreAt<T>(rankings: seq<seq<T>>, k: nat, i: nat, j: nat, x: T): real
    requires i < |rankings| && j <= |rankings[i]|
  {
    Score(rankings, k, i, x) + ListScore(rankings[i], k, j, x)
  }

  /** The first sightings so far. */
  ghost predicate Sighted<T(!new)>(rankings: seq<seq<T>>, i: nat, j: nat, firstSeen: map<T, (nat, nat)>, order: seq<T>)
    requires i < |rankings| && j <= |rankings[i]|
  {
    && NoDuplicates(order)
    && (forall x :: x in order <==> SeenBy(rankings, i, j, x))
    && (forall x :: x in firstSeen <==> x in order)
    && (forall x :: x in firstSeen ==> Occurs(rankings, x) && firstSeen[x] == FirstFrom(rankings, 0, x))
  }

  /** The scores so far. */
  ghost predicate Scored<T(!new)>(rankings: seq<seq<T>>, k: nat, i: nat, j: nat, scores: map<T, real>)
    requires i < |rankings| && j <= |rankings[i]|
  {
    && (forall x :: x in scores <==> SeenBy(rankings, i, j, x))
    && (forall x :: x in scores ==> scores[x] == ScoreAt(rankings, k, i, j, x))
  }

  ghost predicate Tallied<T(!new)>(
    rankings: seq<seq<T>>, k: nat, i: nat, j: nat, scores: map<T, real>, firstSeen: map<T, (nat, nat)>, order: seq<T>)
    requires i < |rankings| && j <= |rankings[i]|
  {
    Sighted(rankings, i, j, firstSeen, order) && Scored(rankings, k, i, j, scores)
  }

  lemma {:induction false} UnseenScoresZero<T>(rankings: seq<seq<T>>, k: nat, i: nat, j: nat, x: T)
    requires i < |rankings| && j <= |rankings[i]| && !SeenBy(rankings, i, j, x)
    ensures ScoreAt(rankings, k, i, j, x) == 0.0
    decreases i, j
  {
    if j > 0 {
      assert rankings[i][..j - 1] <= rankings[i][..j];
      assert rankings[i][j - 1] in rankings[i][..j];
      UnseenScoresZero(rankings, k, i, j - 1, x);
    } else if i > 0 {
      assert rankings[i - 1][..|rankings[i - 1]|] == rankings[i - 1];
      UnseenScoresZero(rankings, k, i - 1, |rankings[i - 1]|, x);
    }
  }

  lemma {:induction false} PlaceIs<T>(list: seq<T>, j: nat)
    requires j < |list| && list[j] !in list[..j]
    ensures Place(list, list[j]) == j
  {
    if j == 0 {
    } else {
      assert list[0] in list[..j];
      forall m | 0 <= m < j - 1 ensures list[1..][m] != list[j] { assert list[m + 1] in list[..j]; }
      PlaceIs(list[1..], j - 1);
    }
  }

  lemma {:induction false} FirstSightingHere<T>(rankings: seq<seq<T>>, l: nat, i: nat, j: nat)
    requires l <= i < |rankings| && j < |rankings[i]|
    requires rankings[i][j] !in rankings[i][..j] && forall m :: l <= m < i ==> rankings[i][j] !in rankings[m]
    ensures FirstFrom(rankings, l, rankings[i][j]) == (i, j + 1)
    decreases i - l
  {
    var x := rankings[i][j];
    if l < i {
      FirstSightingHere(rankings, l + 1, i, j);
    } else {
      PlaceIs(rankings[i], j);
    }
  }

  lemma SeenNext<T>(rankings: seq<seq<T>>, i: nat, j: nat, y: T)
    requires i < |rankings| && j < |rankings[i]|
    ensures SeenBy(rankings, i, j + 1, y) <==> SeenBy(rankings, i, j, y) || y == rankings[i][j]
  {
    assert rankings[i][..j + 1] == rankings[i][..j] + [rankings[i][j]];
  }

  lemma ScoredNext<T(!new)>(rankings: seq<seq<T>>, k: nat, i: nat, j: nat, scores: map<T, real>)
    requires i < |rankings| && j < |rankings[i]| && Scored(rankings, k, i, j, scores)
    ensures
      var x := rankings[i][j];
      Scored(rankings, k, i, j + 1, scores[x := (if x in scores then scores[x] else 0.0) + Share(k, j + 1)])
  {
    var x := rankings[i][j];
    forall y ensures SeenBy(rankings, i, j + 1, y) <==> y in scores || y == x {
      SeenNext(rankings, i, j, y);
    }
    if x !in scores {
      UnseenScoresZero(rankings, k, i, j, x);
    }
  }

  lemma SightedNext<T(!new)>(rankings: seq<seq<T>>, i: nat, j: nat, firstSeen: map<T, (nat, nat)>, order: seq<T>)
    requires i < |rankings| && j < |rankings[i]| && Sighted(rankings, i, j, firstSeen, order)
    ensures
      var x := rankings[i][j];
      if x in firstSeen then Sighted(rankings, i, j + 1, firstSeen, order)
      else Sighted(rankings, i, j + 1, firstSeen[x := (i, j + 1)], order + [x])
  {
    var x := rankings[i][j];
    forall y ensures SeenBy(rankings, i, j + 1, y) <==> y in order || y == x {
      SeenNext(rankings, i, j, y);
    }
    if x !in firstSeen {
      assert x in rankings[i];
      FirstSightingHere(rankings, 0, i, j);
    }
  }

  lemma TalliedNext<T(!new)>(
    rankings: seq<seq<T>>, k: nat, i: nat, j: nat, scores: map<T, real>, firstSeen: map<T, (nat, nat)>, order: seq<T>)
    requires i < |rankings| && j < |rankings[i]| && Tallied(rankings, k, i, j, scores, firstSeen, order)
    ensures
      var x := rankings[i][j];
      var scores' := scores[x := (if x in scores then scores[x] else 0.0) + Share(k, j + 1)];
      if x in firstSeen then Tallied(rankings, k, i, j + 1, scores', firstSeen, order)
      else Tallied(rankings, k, i, j + 1, scores', firstSeen[x := (i, j + 1)], order + [x])
  {
    ScoredNext(rankings, k, i, j, scores);
    SightedNext(rankings, i, j, firstSeen, order);
  }

  lemma NextList<T(!new)>(
    rankings: seq<seq<T>>, k: nat, i: nat, scores: map<T, real>, firstSeen: map<T, (nat, nat)>, order: seq<T>)
    requires i + 1 < |rankings| && Tallied(rankings, k, i, |rankings[i]|, scores, firstSeen, order)
    ensures Tallied(rankings, k, i + 1, 0, scores, firstSeen, order)
  {
    assert rankings[i][..|rankings[i]|] == rankings[i];
    forall y ensures SeenBy(rankings, i + 1, 0, y) <==> SeenBy(rankings, i, |rankings[i]|, y) {}
  }

  predicate KeyLess(s: real, p: (nat, nat), t: real, q: (nat, nat)) { s > t || (s == t && Earlier(p, q)) }

  /** sorted(..., key=(-score, first_seen)) by insertion. */
  method SortByKey<T(!new, ==)>(order: seq<T>, scores: map<T, real>, firstSeen: map<T, (nat, nat)>) returns (r: seq<T>)
    requires NoDuplicates(order) && forall x :: x in order ==> x in scores && x in firstSeen
    requires forall x, y :: x in order && y in order && x != y ==> firstSeen[x] != firstSeen[y]
    ensures NoDuplicates(r) && forall x :: x in r <==> x in order
    ensures forall i :: 0 <= i < |r| ==> r[i] in scores && r[i] in firstSeen
    ensures forall i, j :: 0 <= i < j < |r| ==> KeyLess(scores[r[i]], firstSeen[r[i]], scores[r[j]], firstSeen[r[j]])
  {
    r := [];
    for n := 0 to |order|
      invariant NoDuplicates(r) && forall x :: x in r <==> x in order[..n]
      invariant forall i :: 0 <= i < |r| ==> r[i] in order && r[i] in scores && r[i] in firstSeen
      invariant forall i, j :: 0 <= i < j < |r| ==>
          KeyLess(scores[r[i]], firstSeen[r[i]], scores[r[j]], firstSeen[r[j]])
    {
      var x := order[n];
      assert order[..n + 1] == order[..n] + [x];
      assert x !in order[..n];
      var p := |r|;
      while p > 0 && KeyLess(scores[x], firstSeen[x], scores[r[p - 1]], firstSeen[r[p - 1]])
        invariant 0 <= p <= |r|
        invariant forall j :: p <= j < |r| ==> KeyLess(scores[x], firstSeen[x], scores[r[j]], firstSeen[r[j]])
      {
        p := p - 1;
      }
      forall i | 0 <= i < p ensures KeyLess(scores[r[i]], firstSeen[r[i]], scores[x], firstSeen[x]) {
        assert r[i] in r && r[p - 1] in r;
      }
      r := r[..p] + [x] + r[p..];
    }
    assert order[..|order|] == order;
  }

  /** The inner loop over one list. */
  method TallyList<T(!new, ==)>(
    rankings: seq<seq<T>>, k: nat, i: nat, scores0: map<T, real>, firstSeen0: map<T, (nat, nat)>, order0: seq<T>)
    returns (scores: map<T, real>, firstSeen: map<T, (nat, nat)>, order: seq<T>)
    requires i < |rankings| && Tallied(rankings, k, i, 0, scores0, firstSeen0, order0)
    ensures Tallied(rankings, k, i, |rankings[i]|, scores, firstSeen, order)
  {
    scores, firstSeen, order := scores0, firstSeen0, order0;
    for j := 0 to |rankings[i]|
      invariant Tallied(rankings, k, i, j, scores, firstSeen, order)
    {
      var x := rankings[i][j];
      TalliedNext(rankings, k, i, j, scores, firstSeen, order);
      scores := scores[x := (if x in scores then scores[x] else 0.0) + Share(k, j + 1)];
      if x !in firstSeen {
        firstSeen := firstSeen[x := (i, j + 1)];
        order := order + [x];
      }
    }
  }

  /** The fused list: a duplicate-free arrangement of the union under a strict total order. */
  method RrfFuse<T(!new, ==)>(rankings: seq<seq<T>>, k: nat) returns (r: seq<T>)
    ensures IsFusion(rankings, k, r)
  {
    if rankings == [] {
      return [];
    }
    var scores: map<T, real>, firstSeen: map<T, (nat, nat)>, order: seq<T> := map[], map[], [];
    var i := 0;
    while i + 1 < |rankings|
      invariant 0 <= i < |rankings| && Tallied(rankings, k, i, 0, scores, firstSeen, order)
    {
      scores, firstSeen, order := TallyList(rankings, k, i, scores, firstSeen, order);
      NextList(rankings, k, i, scores, firstSeen, order);
      i := i + 1;
    }
    scores, firstSeen, order := TallyList(rankings, k, i, scores, firstSeen, order);
    AllTallied(rankings, k, scores, firstSeen, order);
    r := SortByKey(order, scores, firstSeen);
    Sorted(rankings, k, scores, firstSeen, order, r);
  }

  /** Dictionary entries of every item, as the definitions have them. */
  ghost predicate Complete<T(!new)>(
    rankings: seq<seq<T>>, k: nat, scores: map<T, real>, firstSeen: map<T, (nat, nat)>, order: seq<T>) {
    && (forall x :: x in order <==> Occurs(rankings, x))
    && (forall x :: x in order ==> x in scores && scores[x] == Total(rankings, k, x))
    && (forall x :: x in order ==> x in firstSeen && firstSeen[x] == FirstFrom(rankings, 0, x))
  }

  lemma AllTallied<T(!new)>(
    rankings: seq<seq<T>>, k: nat, scores: map<T, real>, firstSeen: map<T, (nat, nat)>, order: seq<T>)
    requires rankings != [] && Tallied(rankings, k, |rankings| - 1, |rankings[|rankings| - 1]|, scores, firstSeen,
        order)
    ensures Complete(rankings, k, scores, firstSeen, order)
    ensures forall x, y :: x in order && y in order && x != y ==> firstSeen[x] != firstSeen[y]
  {
    var i := |rankings| - 1;
    assert rankings[i][..|rankings[i]|] == rankings[i];
    forall x ensures x in order <==> Occurs(rankings, x) {
      assert x in order <==> SeenBy(rankings, i, |rankings[i]|, x);
    }
    forall x | x in order ensures x in scores && scores[x] == Total(rankings, k, x) {
      assert scores[x] == ScoreAt(rankings, k, i, |rankings[i]|, x);
    }
    forall x, y | x in order && y in order && x != y ensures firstSeen[x] != firstSeen[y] {
      var p, q := FirstFrom(rankings, 0, x), FirstFrom(rankings, 0, y);
      assert firstSeen[x] == p && firstSeen[y] == q;
    }
  }

  lemma Sorted<T(!new)>(
    rankings: seq<seq<T>>, k: nat, scores: map<T, real>, firstSeen: map<T, (nat, nat)>, order: seq<T>, r: seq<T>)
    requires Complete(rankings, k, scores, firstSeen, order)
    requires NoDuplicates(r) && forall x :: x in r <==> x in order
    requires forall i :: 0 <= i < |r| ==> r[i] in scores && r[i] in firstSeen
    requires forall i, j :: 0 <= i < j < |r| ==> KeyLess(scores[r[i]], firstSeen[r[i]], scores[r[j]], firstSeen[r[j]])
    ensures IsFusion(rankings, k, r)
  {
    forall i, j | 0 <= i < j < |r|
        ensures Occurs(rankings, r[i]) && Occurs(rankings, r[j]) && Better(rankings, k, r[i], r[j]) {
      assert r[i] in order && r[j] in order;
    }
  }

  // ----- theorems -----

  lemma {:induction false} DistinctListScore<T>(list: seq<T>, k: nat, n: nat, x: T)
    requires NoDuplicates(list) && n <= |list|
    ensures x !in list[..n] ==> ListScore(list, k, n, x) == 0.0
    ensures forall i :: 0 <= i < n && list[i] == x ==> ListScore(list, k, n, x) == Share(k, i + 1)
  {
    if n == 0 {
    } else {
      assert list[..n] == list[..n - 1] + [list[n - 1]];
      DistinctListScore(list, k, n - 1, x);
    }
  }

  lemma SharesDecrease(k: nat, a: nat, b: nat)
    requires 1 <= a <= b
    ensures Share(k, a) >= Share(k, b) > 0.0
    ensures a < b ==> Share(k, a) > Share(k, b)
  {
    var p, q := (k + a) as real, (k + b) as real;
    assert 1.0 / p - 1.0 / q == (q - p) / (p * q);
  }

  lemma {:induction false} OnlyListScores<T>(rankings: seq<seq<T>>, k: nat, m: nat, n: nat, x: T)
    requires m < |rankings| && n <= |rankings| && forall l :: 0 <= l < |rankings| && l != m ==> rankings[l] == []
    ensures Score(rankings, k, n, x) == if n <= m then 0.0 else ListScore(rankings[m], k, |rankings[m]|, x)
  {
    if n == 0 {
    } else {
      OnlyListScores(rankings, k, m, n - 1, x);
    }
  }

  /** One duplicate-free list among empty ones comes back unchanged. */
  lemma SingleListIsUnchanged<T(!new)>(rankings: seq<seq<T>>, k: nat, m: nat, r: seq<T>)
    requires m < |rankings| && forall l :: 0 <= l < |rankings| && l != m ==> rankings[l] == []
    requires NoDuplicates(rankings[m]) && IsFusion(rankings, k, r)
    ensures r == rankings[m]
  {
    var list := rankings[m];
    forall i, j | 0 <= i < j < |list|
        ensures Occurs(rankings, list[i]) && Occurs(rankings, list[j]) && Better(rankings, k, list[i], list[j]) {
      assert list[i] in rankings[m] && list[j] in rankings[m];
      OnlyListScores(rankings, k, m, |rankings|, list[i]);
      OnlyListScores(rankings, k, m, |rankings|, list[j]);
      DistinctListScore(list, k, |list|, list[i]);
      DistinctListScore(list, k, |list|, list[j]);
      SharesDecrease(k, i + 1, j + 1);
    }
    forall x ensures x in list <==> Occurs(rankings, x) {
      if x in list { assert x in rankings[m]; }
    }
    FusionIsUnique(rankings, k, r, list);
  }

  lemma TwoSharesBeatOne(k: nat, a: nat, b: nat, c: nat)
    requires 1 <= a <= k + 1 && 1 <= b <= k + 1 && 1 <= c
    ensures Share(k, a) + Share(k, b) > Share(k, c)
  {
    SharesDecrease(k, a, k + 1);
    SharesDecrease(k, b, k + 1);
    SharesDecrease(k, 1, c);
    var n := (k + 1) as real;
    var both := (2 * k + 1) as real;
    assert both == 2.0 * n - 1.0;
    assert 1.0 / both + 1.0 / both - 1.0 / n == (2.0 * n - both) / (both * n);
  }

  lemma TwoListTotal<T>(a: seq<T>, b: seq<T>, k: nat, x: T)
    ensures Total([a, b], k, x) == ListScore(a, k, |a|, x) + ListScore(b, k, |b|, x)
  {
    assert Score([a, b], k, 1, x) == Score([a, b], k, 0, x) + ListScore(a, k, |a|, x);
  }

  /** Over two duplicate-free lists, an item among the first k+1 of both precedes every item of only one. */
  lemma GoodInBothBeatsAnySingle<T(!new)>(a: seq<T>, b: seq<T>, k: nat, r: seq<T>, i: nat, j: nat, p: nat, q: nat)
    requires NoDuplicates(a) && NoDuplicates(b) && IsFusion([a, b], k, r)
    requires i < |a| && j < |b| && a[i] == b[j] && i <= k && j <= k
    requires p < |r| && q < |r| && r[p] == a[i] && (r[q] in a <==> r[q] !in b)
    ensures p < q
  {
    var x, y := r[p], r[q];
    assert a[..|a|] == a && b[..|b|] == b;
    TwoListTotal(a, b, k, x);
    TwoListTotal(a, b, k, y);
    DistinctListScore(a, k, |a|, x);
    DistinctListScore(b, k, |b|, x);
    DistinctListScore(a, k, |a|, y);
    DistinctListScore(b, k, |b|, y);
    assert r[p] in r && r[q] in r && x in a && x in b;
    var c := if y in a then Place(a, y) else Place(b, y);
    TwoSharesBeatOne(k, i + 1, j + 1, c + 1);
    assert Total([a, b], k, x) > Total([a, b], k, y);
    NeverLevel([a, b], k, x, y);
  }

  lemma SharesAtTheBound(k: nat)
    ensures Share(k, k + 2) + Share(k, k + 2) == Share(k, 1)
  {
    var n := (k + 1) as real;
    assert (k + (k + 2)) as real == 2.0 * n;
    assert 1.0 / (2.0 * n) + 1.0 / (2.0 * n) == 1.0 / n;
  }

  /** The bound is sharp for every k: ranked k+2 in both lists, an item comes after one that tops the first list
      only. */
  lemma BoundIsSharp<T(!new)>(a: seq<T>, b: seq<T>, k: nat, r: seq<T>, p: nat, q: nat)
    requires NoDuplicates(a) && NoDuplicates(b) && IsFusion([a, b], k, r)
    requires k + 1 < |a| && k + 1 < |b| && a[k + 1] == b[k + 1] && a[0] !in b
    requires p < |r| && q < |r| && r[p] == a[0] && r[q] == a[k + 1]
    ensures p < q
  {
    var x, y := a[0], a[k + 1];
    assert a[..|a|] == a && b[..|b|] == b;
    assert [a, b][0] == a && x in [a, b][0] && y in [a, b][0];
    assert Total([a, b], k, x) == Share(k, 1) by {
      TwoListTotal(a, b, k, x);
      DistinctListScore(a, k, |a|, x);
      DistinctListScore(b, k, |b|, x);
    }
    assert Total([a, b], k, y) == Share(k, k + 2) + Share(k, k + 2) by {
      TwoListTotal(a, b, k, y);
      DistinctListScore(a, k, |a|, y);
      DistinctListScore(b, k, |b|, y);
    }
    SharesAtTheBound(k);
    FirstSightingHere([a, b], 0, 0, 0);
    FirstSightingHere([a, b], 0, 0, k + 1);
    assert Better([a, b], k, x, y);
    NeverLevel([a, b], k, x, y);
  }
}
