/** Removing duplicate transactions: the group query and the guarded soft delete. */
module DuplicateCleanup {
  import opened Common

  datatype Txn = Txn(user: int, account: int, date: int, amount: int, description: Option<string>, deleted: bool)

  /** The dedup key; rows without a description share one. */
  type Key = (int, int, int, int, Option<string>)

  type Rows = map<int, Txn>

  datatype Event = TransactionDeleted(id: int, account: int, user: int, amount: int)

  function KeyOf(t: Txn): Key { (t.user, t.account, t.date, t.amount, t.description) }

  predicate IsLive(rows: Rows, i: int) { i in rows && !rows[i].deleted }

  ghost predicate Twins(rows: Rows, i: int, j: int) {
    && IsLive(rows, i) && IsLive(rows, j)
    && rows[i].user == rows[j].user && rows[i].account == rows[j].account && rows[i].date == rows[j].date
    && rows[i].amount == rows[j].amount && rows[i].description == rows[j].description
  }

  /** A live row with an older live twin: everything but the lowest id of its group. */
  ghost predicate IsDuplicate(rows: Rows, i: int) { exists j :: j < i && Twins(rows, i, j) }

  ghost predicate Distinct(s: seq<int>) { forall i, j :: 0 <= i < j < |s| ==> s[i] != s[j] }

  ghost predicate Lists(ids: seq<int>, rows: Rows) { Distinct(ids) && forall i :: i in ids <==> i in rows }

  /** Each group remembered so far has a live member among the ids seen as its kept id. */
  ghost predicate KeptIsMember(rows: Rows, seen: set<int>, keep: map<Key, int>) {
    forall k :: k in keep ==> keep[k] in seen && IsLive(rows, keep[k]) && KeyOf(rows[keep[k]]) == k
  }

  /** What the groups know of one live row already seen: its group exists, keeps nothing newer, and counts both. */
  ghost predicate Covered(t: Txn, i: int, keep: map<Key, int>, count: map<Key, nat>) {
    var k := KeyOf(t);
    k in keep && k in count && keep[k] <= i && count[k] >= 1 && (keep[k] < i ==> count[k] > 1)
  }

  /** GROUP BY key over the live rows among the ids seen: the smallest id and the size. */
  ghost predicate Grouped(rows: Rows, seen: set<int>, keep: map<Key, int>, count: map<Key, nat>) {
    && keep.Keys == count.Keys
    && KeptIsMember(rows, seen, keep)
    && forall i :: i in seen && IsLive(rows, i) ==> Covered(rows[i], i, keep, count)
  }

  lemma MemberNext(rows: Rows, seen: set<int>, i: int, keep: map<Key, int>, count: map<Key, nat>)
    requires Grouped(rows, seen, keep, count) && IsLive(rows, i) && KeyOf(rows[i]) in keep && i !in seen
    ensures
      var k := KeyOf(rows[i]);
      Grouped(rows, seen + {i}, keep[k := if i < keep[k] then i else keep[k]], count[k := count[k] + 1])
  {
    var k := KeyOf(rows[i]);
    assert keep[k] in seen && IsLive(rows, keep[k]);
    assert Covered(rows[keep[k]], keep[k], keep, count);
  }

  lemma GroupNext(rows: Rows, seen: set<int>, i: int, keep: map<Key, int>, count: map<Key, nat>)
    requires Grouped(rows, seen, keep, count) && IsLive(rows, i) && KeyOf(rows[i]) !in keep
    ensures Grouped(rows, seen + {i}, keep[KeyOf(rows[i]) := i], count[KeyOf(rows[i]) := 1])
  {
  }

  function IdSet(ids: seq<int>): set<int> { set i | i in ids }

  lemma IdSetSnoc(ids: seq<int>, n: nat)
    requires n < |ids|
    ensures IdSet(ids[..n + 1]) == IdSet(ids[..n]) + {ids[n]}
    ensures Distinct(ids) ==> ids[n] !in IdSet(ids[..n])
  {
    PrefixSnoc(ids, n);
  }

  /** One more row for the groups; a tombstone joins none. */
  function Joined(rows: Rows, i: int, keep: map<Key, int>, count: map<Key, nat>): (map<Key, int>, map<Key, nat>)
    requires i in rows && keep.Keys == count.Keys
  {
    var k := KeyOf(rows[i]);
    if rows[i].deleted then (keep, count)
    else if k in keep then (keep[k := if i < keep[k] then i else keep[k]], count[k := count[k] + 1])
    else (keep[k := i], count[k := 1])
  }

  lemma JoinedKeeps(rows: Rows, seen: set<int>, i: int, keep: map<Key, int>, count: map<Key, nat>)
    requires i in rows && i !in seen && Grouped(rows, seen, keep, count)
    ensures var g := Joined(rows, i, keep, count); Grouped(rows, seen + {i}, g.0, g.1)
  {
    if rows[i].deleted {
      assert forall j :: j in seen + {i} && IsLive(rows, j) ==> j in seen;
    } else if KeyOf(rows[i]) in keep {
      MemberNext(rows, seen, i, keep, count);
    } else {
      GroupNext(rows, seen, i, keep, count);
    }
  }

  method GroupByKey(rows: Rows, ids: seq<int>) returns (keep: map<Key, int>, count: map<Key, nat>)
    requires Lists(ids, rows)
    ensures Grouped(rows, IdSet(ids), keep, count)
  {
    keep, count := map[], map[];
    for n := 0 to |ids|
      invariant Grouped(rows, IdSet(ids[..n]), keep, count)
    {
      assert ids[n] in ids;
      IdSetSnoc(ids, n);
      JoinedKeeps(rows, IdSet(ids[..n]), ids[n], keep, count);
      var g := Joined(rows, ids[n], keep, count);
      keep, count := g.0, g.1;
    }
    assert ids[..|ids|] == ids;
  }

  // ----- ORDER BY keep_id, id -----

  predicate Precedes(rank: int -> int, i: int, j: int) { rank(i) < rank(j) || (rank(i) == rank(j) && i < j) }

  ghost predicate SortedByRank(found: seq<int>, rank: int -> int) {
    forall m, n :: 0 <= m < n < |found| ==> Precedes(rank, found[m], found[n])
  }

  method InsertByRank(found: seq<int>, i: int, rank: int -> int) returns (r: seq<int>)
    requires SortedByRank(found, rank) && i !in found
    ensures SortedByRank(r, rank) && forall x :: x in r <==> x in found || x == i
  {
    var p := |found|;
    while p > 0 && Precedes(rank, i, found[p - 1])
      invariant 0 <= p <= |found|
      invariant forall n :: p <= n < |found| ==> Precedes(rank, i, found[n])
    {
      p := p - 1;
    }
    forall n | 0 <= n < p ensures Precedes(rank, found[n], i) {
      assert found[p - 1] in found;
    }
    InsertedAt(found, p, i, rank);
    r := found[..p] + [i] + found[p..];
  }

  lemma InsertedAt(found: seq<int>, p: nat, i: int, rank: int -> int)
    requires p <= |found| && SortedByRank(found, rank)
    requires forall n :: 0 <= n < p ==> Precedes(rank, found[n], i)
    requires forall n :: p <= n < |found| ==> Precedes(rank, i, found[n])
    ensures SortedByRank(found[..p] + [i] + found[p..], rank)
    ensures forall x :: x in found[..p] + [i] + found[p..] <==> x in found || x == i
  {
    assert found == found[..p] + found[p..];
  }

  /** The lowest live id of a row's key. */
  ghost predicate IsOldestTwin(rows: Rows, i: int, oldest: int) {
    Twins(rows, i, oldest) && forall j :: Twins(rows, i, j) ==> oldest <= j
  }

  /** Grouped by the kept id, ascending, and within a group by ascending id. */
  ghost predicate InGroupOrder(rows: Rows, found: seq<int>) {
    forall m, n, a, b :: 0 <= m < n < |found| && IsOldestTwin(rows, found[m], a) && IsOldestTwin(rows, found[n], b) ==>
      a < b || (a == b && found[m] < found[n])
  }

  /** The rows to delete: members of a group of two or more that are not its lowest id, each once, group by group. */
  method FindDuplicates(rows: Rows, ids: seq<int>) returns (found: seq<int>)
    requires Lists(ids, rows)
    ensures Distinct(found) && forall i :: i in found <==> IsDuplicate(rows, i)
    ensures InGroupOrder(rows, found)
  {
    var keep, count := GroupByKey(rows, ids);
    assert ids[..|ids|] == ids;
    var rank := (i: int) => if i in rows && KeyOf(rows[i]) in keep then keep[KeyOf(rows[i])] else i;
    found := [];
    for n := 0 to |ids|
      invariant SortedByRank(found, rank) && forall i :: i in found <==> i in ids[..n] && IsDuplicate(rows, i)
    {
      PrefixSnoc(ids, n);
      var i := ids[n];
      assert i !in ids[..n];
      KeptIsSmallest(rows, ids, keep, count, i);
      if !rows[i].deleted && count[KeyOf(rows[i])] > 1 && i != keep[KeyOf(rows[i])] {
        found := InsertByRank(found, i, rank);
      }
    }
    RankIsOldestTwin(rows, ids, keep, count, rank);
    OrderByRank(rows, found, rank);
  }

  ghost predicate RanksByTwin(rows: Rows, rank: int -> int) {
    forall i, o :: IsDuplicate(rows, i) && IsOldestTwin(rows, i, o) ==> rank(i) == o
  }

  lemma RankIsOldestTwin(rows: Rows, ids: seq<int>, keep: map<Key, int>, count: map<Key, nat>, rank: int -> int)
    requires Lists(ids, rows) && Grouped(rows, IdSet(ids), keep, count)
    requires forall i :: rank(i) == if i in rows && KeyOf(rows[i]) in keep then keep[KeyOf(rows[i])] else i
    ensures RanksByTwin(rows, rank)
  {
    forall i, o | IsDuplicate(rows, i) && IsOldestTwin(rows, i, o) ensures rank(i) == o {
      KeptIsSmallest(rows, ids, keep, count, i);
      var k := KeyOf(rows[i]);
      assert Twins(rows, i, keep[k]);
      assert o in ids && o in IdSet(ids);
      assert Covered(rows[o], o, keep, count);
    }
  }

  lemma OrderByRank(rows: Rows, found: seq<int>, rank: int -> int)
    requires SortedByRank(found, rank) && RanksByTwin(rows, rank) && forall i :: i in found ==> IsDuplicate(rows, i)
    ensures Distinct(found) && InGroupOrder(rows, found)
  {
    forall m, n, a, b | 0 <= m < n < |found| && IsOldestTwin(rows, found[m], a) && IsOldestTwin(rows, found[n], b)
      ensures a < b || (a == b && found[m] < found[n])
    {
      assert found[m] in found && found[n] in found;
      assert Precedes(rank, found[m], found[n]);
    }
    forall m, n | 0 <= m < n < |found| ensures found[m] != found[n] {
      assert Precedes(rank, found[m], found[n]);
    }
  }

  lemma KeptIsSmallest(rows: Rows, ids: seq<int>, keep: map<Key, int>, count: map<Key, nat>, i: int)
    requires Lists(ids, rows) && Grouped(rows, IdSet(ids), keep, count) && i in rows
    ensures !rows[i].deleted ==> KeyOf(rows[i]) in keep && KeyOf(rows[i]) in count
    ensures IsDuplicate(rows, i) <==> !rows[i].deleted && count[KeyOf(rows[i])] > 1 && i != keep[KeyOf(rows[i])]
  {
    assert ids[..|ids|] == ids;
    if !rows[i].deleted {
      var k := KeyOf(rows[i]);
      assert keep[k] <= i;
      if keep[k] < i { assert Twins(rows, i, keep[k]); }
      if IsDuplicate(rows, i) {
        var j :| j < i && Twins(rows, i, j);
        assert j in ids && keep[k] <= j;
      }
    }
  }

  function Tombstoned(rows: Rows, gone: set<int>): Rows {
    map i | i in rows :: if i in gone then rows[i].(deleted := true) else rows[i]
  }

  function EventOf(id: int, t: Txn): Event { TransactionDeleted(id, t.account, t.user, t.amount) }

  function EventsFor(ids: seq<int>, snapshot: Rows): seq<Event>
    requires forall i :: i in ids ==> i in snapshot
  {
    seq(|ids|, n requires 0 <= n < |ids| => assert ids[n] in ids; EventOf(ids[n], snapshot[ids[n]]))
  }

  /** One event per id, with the account, user and amount the row was found with. */
  ghost predicate Announces(events: seq<Event>, ids: seq<int>, snapshot: Rows) {
    && |events| == |ids|
    && forall n :: 0 <= n < |ids| ==>
         && ids[n] in snapshot && events[n].id == ids[n] && events[n].account == snapshot[ids[n]].account
         && events[n].user == snapshot[ids[n]].user && events[n].amount == snapshot[ids[n]].amount
  }

  /** The rows of the ids are deleted; nothing else about any row changes. */
  ghost predicate Marks(before: Rows, after: Rows, ids: seq<int>) {
    && after.Keys == before.Keys
    && forall i :: i in before ==> after[i] == before[i].(deleted := before[i].deleted || i in ids)
  }

  class TransactionDb {
    var rows: Rows
    var outbox: seq<Event>

    constructor (rows: Rows)
      ensures this.rows == rows && outbox == []
    {
      this.rows, outbox := rows, [];
    }

    /**
      Events and tombstones in one transaction. It commits exactly when the ids are distinct and all still
      live, whatever another writer did since the search; then each newly tombstoned row has one event and
      each event one row. Otherwise nothing changes.
    */
    method DeleteRows(ids: seq<int>, snapshot: Rows) returns (committed: bool)
      requires forall i :: i in ids ==> i in snapshot
      modifies this
      ensures committed <==> Distinct(ids) && forall i :: i in ids ==> IsLive(old(rows), i)
      ensures committed ==> rows == Tombstoned(old(rows), IdSet(ids))
      ensures committed ==> outbox == old(outbox) + EventsFor(ids, snapshot)
      ensures committed ==> Announces(outbox[|old(outbox)|..], ids, snapshot) && Marks(old(rows), rows, ids)
      ensures !committed ==> rows == old(rows) && outbox == old(outbox)
    {
      var outboxed := |ids|;
      var work, deleted := rows, 0;
      for n := 0 to |ids|
        invariant work == Tombstoned(rows, IdSet(ids[..n]))
        invariant 0 <= deleted <= n
        invariant deleted == n <==> Distinct(ids[..n]) && forall i :: i in ids[..n] ==> IsLive(rows, i)
        invariant rows == old(rows) && outbox == old(outbox)
      {
        PrefixSnoc(ids, n);
        var i := ids[n];
        assert i in work <==> i in rows;
        assert i in rows ==> (work[i].deleted <==> rows[i].deleted || i in ids[..n]);
        if i in work && !work[i].deleted {
          work := work[i := work[i].(deleted := true)];
          deleted := deleted + 1;
        }
        OneMoreTombstone(rows, ids, n, work);
        DistinctSnoc(ids[..n], i);
      }
      assert ids[..|ids|] == ids;
      committed := deleted == outboxed;
      if committed {
        rows := work;
        outbox := outbox + EventsFor(ids, snapshot);
        assert outbox[|old(outbox)|..] == EventsFor(ids, snapshot);
      }
    }
  }

  /** Searches and deletes what it found: the script with its execute flag, on a table nobody else writes. */
  method Cleanup(db: TransactionDb, ids: seq<int>)
    requires Lists(ids, db.rows)
    modifies db
    ensures Cleaned(old(db.rows), db.rows)
    ensures old(db.outbox) <= db.outbox && OneToOne(old(db.rows), db.rows, db.outbox[|old(db.outbox)|..])
    ensures KeysDistinct(old(db.rows)) ==> db.rows == old(db.rows) && db.outbox == old(db.outbox)
  {
    var found := FindDuplicates(db.rows, ids);
    ghost var before, sent := db.rows, db.outbox;
    assert Cleaned(before, Tombstoned(before, IdSet(found))) by { CleanupIsComplete(before, found); }
    FoundAreLive(before, found);
    if found == [] {
      TombstoneNothing(before);
      assert sent[|sent|..] == [];
      return;
    }
    assert OneToOne(before, Tombstoned(before, IdSet(found)),
        EventsFor(found, before)) by { EventsAreTheTombstones(before, found, before); }
    var committed := db.DeleteRows(found, db.rows);
    assert (sent + EventsFor(found, before))[|sent|..] == EventsFor(found, before);
  }

  lemma FoundAreLive(rows: Rows, found: seq<int>)
    requires forall i :: i in found <==> IsDuplicate(rows, i)
    ensures found != [] ==> !KeysDistinct(rows)
    ensures (forall i :: i in found ==> IsLive(rows, i)) && forall i :: i in found ==> i in rows
  {
    if found != [] {
      assert found[0] in found;
      var j :| j < found[0] && Twins(rows, found[0], j);
    }
  }

  lemma TombstoneNothing(rows: Rows)
    ensures Tombstoned(rows, IdSet([])) == rows && OneToOne(rows, rows, [])
  {
  }

  lemma DistinctSnoc(s: seq<int>, x: int)
    ensures Distinct(s + [x]) <==> Distinct(s) && x !in s
  {
    if Distinct(s + [x]) {
      forall i, j | 0 <= i < j < |s| ensures s[i] != s[j] { assert (s + [x])[i] != (s + [x])[j]; }
      forall i | 0 <= i < |s| ensures s[i] != x { assert (s + [x])[i] != (s + [x])[|s|]; }
    }
  }

  lemma OneMoreTombstone(rows: Rows, ids: seq<int>, n: nat, work: Rows)
    requires n < |ids|
    requires
      var before := Tombstoned(rows, IdSet(ids[..n]));
      work == if ids[n] in before && !before[ids[n]].deleted then before[ids[n] := before[ids[n]].(deleted := true)]
        else before
    ensures work == Tombstoned(rows, IdSet(ids[..n + 1]))
  {
    PrefixSnoc(ids, n);
  }

  // ----- theorems -----

  /** Each event names a newly tombstoned row, each such row has an event, and no two events name the same. */
  ghost predicate OneToOne(before: Rows, after: Rows, events: seq<Event>) {
    && (forall n :: 0 <= n < |events| ==> IsLive(before, events[n].id) && !IsLive(after, events[n].id))
    && (forall i :: IsLive(before, i) && !IsLive(after, i) ==> exists n :: 0 <= n < |events| && events[n].id == i)
    && (forall m, n :: 0 <= m < n < |events| ==> events[m].id != events[n].id)
  }

  /** What a committed delete wrote is one-to-one, whatever the snapshot the events were built from. */
  lemma EventsAreTheTombstones(rows: Rows, ids: seq<int>, snapshot: Rows)
    requires Distinct(ids) && (forall i :: i in ids ==> IsLive(rows, i)) && forall i :: i in ids ==> i in snapshot
    ensures OneToOne(rows, Tombstoned(rows, IdSet(ids)), EventsFor(ids, snapshot))
  {
    var events := EventsFor(ids, snapshot);
    forall n | 0 <= n < |ids| ensures events[n].id == ids[n] && ids[n] in IdSet(ids) {
      assert ids[n] in ids;
    }
    forall i | IsLive(rows, i) && !IsLive(Tombstoned(rows, IdSet(ids)), i)
        ensures exists n :: 0 <= n < |events| && events[n].id == i {
      assert i in ids;
      var n :| 0 <= n < |ids| && ids[n] == i;
      assert events[n].id == i;
    }
  }

  ghost predicate KeysDistinct(rows: Rows) { forall i, j :: Twins(rows, i, j) ==> i == j }

  /** Every live row has a live twin that is no duplicate, namely the lowest id of its key. */
  lemma Survivor(rows: Rows, i: int) returns (m: int)
    requires IsLive(rows, i)
    ensures Twins(rows, i, m) && !IsDuplicate(rows, m) && forall j :: Twins(rows, i, j) ==> m <= j
  {
    var twins := set j | j in rows && Twins(rows, i, j);
    assert i in twins;
    m := Least(twins);
    assert m in twins;
    forall j | Twins(rows, i, j) ensures m <= j { assert j in twins; }
    forall j | Twins(rows, m, j) ensures m <= j { assert Twins(rows, i, j); }
  }

  /** Exactly the lowest live id of each key stays live. */
  ghost predicate OldestStay(before: Rows, after: Rows) {
    forall i :: IsLive(after, i) <==> IsLive(before, i) && IsOldest(before, i)
  }

  ghost predicate IsOldest(rows: Rows, i: int) { forall j :: Twins(rows, i, j) ==> i <= j }

  ghost predicate KeysKept(before: Rows, after: Rows) {
    forall i :: IsLive(before, i) ==> exists m :: IsLive(after, m) && KeyOf(after[m]) == KeyOf(before[i])
  }

  /** One live row is left per key, the lowest id of its group; no key is lost; another search finds nothing. */
  ghost predicate Cleaned(before: Rows, after: Rows) {
    KeysDistinct(after) && OldestStay(before, after) && KeysKept(before, after) && forall i :: !IsDuplicate(after, i)
  }

  lemma LivesOn(rows: Rows, ids: seq<int>, i: int)
    requires forall i :: i in ids <==> IsDuplicate(rows, i)
    ensures IsLive(Tombstoned(rows, IdSet(ids)), i) <==> IsLive(rows, i) && IsOldest(rows, i)
    ensures IsLive(Tombstoned(rows, IdSet(ids)), i) ==> KeyOf(Tombstoned(rows, IdSet(ids))[i]) == KeyOf(rows[i])
  {
    assert i in ids <==> IsDuplicate(rows, i);
  }

  lemma KeyLivesOn(rows: Rows, ids: seq<int>, i: int) returns (m: int)
    requires (forall i :: i in ids <==> IsDuplicate(rows, i)) && IsLive(rows, i)
    ensures IsLive(Tombstoned(rows, IdSet(ids)), m) && KeyOf(Tombstoned(rows, IdSet(ids))[m]) == KeyOf(rows[i])
  {
    m := Survivor(rows, i);
    assert IsOldest(rows, m);
    LivesOn(rows, ids, m);
  }

  lemma OldestStayLive(rows: Rows, ids: seq<int>)
    requires forall i :: i in ids <==> IsDuplicate(rows, i)
    ensures OldestStay(rows, Tombstoned(rows, IdSet(ids)))
  {
    var after := Tombstoned(rows, IdSet(ids));
    forall i ensures IsLive(after, i) <==> IsLive(rows, i) && IsOldest(rows, i) { LivesOn(rows, ids, i); }
  }

  lemma NoKeyLost(rows: Rows, ids: seq<int>)
    requires forall i :: i in ids <==> IsDuplicate(rows, i)
    ensures KeysKept(rows, Tombstoned(rows, IdSet(ids)))
  {
    var after := Tombstoned(rows, IdSet(ids));
    forall i | IsLive(rows, i) ensures exists m :: IsLive(after, m) && KeyOf(after[m]) == KeyOf(rows[i]) {
      var m := KeyLivesOn(rows, ids, i);
    }
  }

  lemma NoneLeft(rows: Rows, ids: seq<int>)
    requires forall i :: i in ids <==> IsDuplicate(rows, i)
    ensures KeysDistinct(Tombstoned(rows, IdSet(ids))) && forall i :: !IsDuplicate(Tombstoned(rows, IdSet(ids)), i)
  {
    var after := Tombstoned(rows, IdSet(ids));
    forall i, j | Twins(after, i, j) ensures i == j { OneLeft(rows, ids, i, j); }
  }

  lemma OneLeft(rows: Rows, ids: seq<int>, i: int, j: int)
    requires (forall i :: i in ids <==> IsDuplicate(rows, i)) && Twins(Tombstoned(rows, IdSet(ids)), i, j)
    ensures i == j
  {
    LivesOn(rows, ids, i);
    LivesOn(rows, ids, j);
    assert Twins(rows, i, j) && Twins(rows, j, i);
  }

  /** Tombstoning exactly the duplicates is a complete cleanup. */
  lemma CleanupIsComplete(rows: Rows, ids: seq<int>)
    requires forall i :: i in ids <==> IsDuplicate(rows, i)
    ensures Cleaned(rows, Tombstoned(rows, IdSet(ids)))
  {
    OldestStayLive(rows, ids);
    NoKeyLost(rows, ids);
    NoneLeft(rows, ids);
  }
}
