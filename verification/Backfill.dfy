/** The transaction backfill's paging loop against a source it does not trust. */
module Backfill {

  const PAGE_SIZE: nat := 200

  datatype Row = Row(id: int, payload: int)

  datatype Page = Page(items: seq<Row>, totalCount: int)

  /** What the source answers to the n-th request with the given skip; nothing says the answers fit together. */
  type Source = (nat, nat) -> Page

  function Ids(rows: seq<Row>): set<int> { set r | r in rows :: r.id }

  function Unseen(rows: seq<Row>, seen: set<int>): seq<Row> {
    if rows == [] then []
    else
      var n := |rows| - 1;
      Unseen(rows[..n], seen) + if rows[n].id !in seen then [rows[n]] else []
  }

  /** The page's rows with new ids, and only those. */
  lemma {:induction false} InUnseen(rows: seq<Row>, seen: set<int>, r: Row)
    ensures r in Unseen(rows, seen) <==> r in rows && r.id !in seen
  {
    if rows == [] {
    } else {
      var n := |rows| - 1;
      InUnseen(rows[..n], seen, r);
      assert r in rows <==> r in rows[..n] || r == rows[n];
    }
  }

  ghost predicate Within(source: Source, universe: set<int>) {
    forall n: nat, skip: nat, r: Row :: r in source(n, skip).items ==> r.id in universe
  }

  function Min(a: nat, b: nat): nat { if a < b then a else b }

  /** A source that holds still: it serves its rows page by page and counts them truthfully. */
  ghost predicate IsStable(source: Source, rows: seq<Row>) {
    forall n: nat, skip: nat :: source(n, skip) == Page(rows[Min(skip, |rows|)..Min(skip + PAGE_SIZE, |rows|)], |rows|)
  }

  ghost predicate DistinctIds(rows: seq<Row>) { forall i, j :: 0 <= i < j < |rows| ==> rows[i].id != rows[j].id }

  lemma {:induction false} AllUnseen(rows: seq<Row>, seen: set<int>)
    requires forall i :: 0 <= i < |rows| ==> rows[i].id !in seen
    ensures Unseen(rows, seen) == rows
  {
    if rows == [] {
    } else {
      var n := |rows| - 1;
      AllUnseen(rows[..n], seen);
      assert rows == rows[..n] + [rows[n]];
    }
  }

  lemma SeenGrows(universe: set<int>, seen: set<int>, added: set<int>)
    requires seen <= universe && added <= universe && added != {} && added !! seen
    ensures |universe - (seen + added)| < |universe - seen|
  {
    assert universe - seen == (universe - (seen + added)) + added;
  }

  lemma NextPage(rows: seq<Row>, a: nat, b: nat)
    requires DistinctIds(rows) && a <= b <= |rows|
    ensures forall r :: r in rows[a..b] ==> r.id !in Ids(rows[..a])
    ensures rows[..a] + rows[a..b] == rows[..b] && Ids(rows[..a]) + Ids(rows[a..b]) == Ids(rows[..b])
  {
    assert rows[..a] + rows[a..b] == rows[..b];
    forall r, q | r in rows[a..b] && q in rows[..a] ensures r.id != q.id {
      var i :| 0 <= i < b - a && rows[a..b][i] == r;
      var j :| 0 <= j < a && rows[..a][j] == q;
    }
    forall r ensures r in rows[..b] <==> r in rows[..a] || r in rows[a..b] {
      assert r in rows[..b] <==> r in rows[..a] + rows[a..b];
    }
  }

  lemma {:induction false} DistinctCount(rows: seq<Row>)
    requires DistinctIds(rows)
    ensures |Ids(rows)| == |rows|
  {
    if rows == [] {
    } else {
      var n := |rows| - 1;
      DistinctCount(rows[..n]);
      NextPage(rows, n, |rows|);
      assert rows[..|rows|] == rows && rows[n..|rows|] == [rows[n]];
      assert Ids(rows[n..|rows|]) == {rows[n].id};
    }
  }

  /** Where the loop stands against a stable source: the first skip rows are stored. */
  ghost predicate OnTrack(rows: seq<Row>, skip: nat, seen: set<int>, upserts: seq<Row>) {
    skip <= |rows| && upserts == rows[..skip] && seen == Ids(rows[..skip])
  }

  lemma IdsConcat(a: seq<Row>, b: seq<Row>)
    ensures Ids(a + b) == Ids(a) + Ids(b)
  {
  }

  ghost predicate PagesDistinct(source: Source) { forall n: nat, skip: nat :: DistinctIds(source(n, skip).items) }

  /** Filtering a page keeps its ids distinct. */
  lemma {:induction false} UnseenDistinct(items: seq<Row>, seen: set<int>)
    requires DistinctIds(items)
    ensures DistinctIds(Unseen(items, seen))
  {
    if items == [] {
    } else {
      var n := |items| - 1;
      UnseenDistinct(items[..n], seen);
      NextPage(items, n, |items|);
      assert items[n..] == [items[n]] && items[n] in items[n..];
      forall r | r in Unseen(items[..n], seen) ensures r.id != items[n].id { InUnseen(items[..n], seen, r); }
    }
  }

  lemma DistinctConcat(a: seq<Row>, b: seq<Row>)
    requires DistinctIds(a) && DistinctIds(b) && Ids(a) !! Ids(b)
    ensures DistinctIds(a + b)
  {
    forall i, j | 0 <= i < |a| <= j < |a| + |b| ensures (a + b)[i].id != (a + b)[j].id {
      assert a[i] in a && b[j - |a|] in b;
      assert a[i].id in Ids(a) && b[j - |a|].id in Ids(b);
    }
  }

  /** How many pages of 200 hold n rows; an empty source is still asked once. */
  function PagesOf(n: nat): nat { if n == 0 then 1 else (n + 199) / 200 }

  /** What holds between two requests. */
  ghost predicate Sound(universe: set<int>, seen: set<int>, upserts: seq<Row>, requests: nat) {
    seen == Ids(upserts) && seen <= universe && requests + |universe - seen| <= |universe|
  }

  /** A page with something new keeps the state sound and uses up unseen ids. */
  lemma PageStored(
    source: Source, n: nat, skip: nat, universe: set<int>, seen: set<int>, upserts: seq<Row>, requests: nat,
    news: seq<Row>)
    requires Within(source, universe) && Sound(universe, seen, upserts, requests)
    requires news == Unseen(source(n, skip).items, seen) && news != []
    ensures Sound(universe, seen + Ids(news), upserts + news, requests + 1)
    ensures |universe - (seen + Ids(news))| < |universe - seen|
    ensures PagesDistinct(source) && DistinctIds(upserts) ==> DistinctIds(upserts + news)
  {
    IdsConcat(upserts, news);
    forall r | r in news ensures r in source(n, skip).items &&
        r.id !in seen { InUnseen(source(n, skip).items, seen, r); }
    assert news[0] in news;
    assert news[0].id in Ids(news);
    SeenGrows(universe, seen, Ids(news));
    if PagesDistinct(source) && DistinctIds(upserts) {
      UnseenDistinct(source(n, skip).items, seen);
      DistinctConcat(upserts, news);
    }
  }

  /** One page of a stable source is all new and moves the loop on to its end. */
  lemma StablePage(rows: seq<Row>, skip: nat, end: nat, seen: set<int>, upserts: seq<Row>)
    requires DistinctIds(rows) && OnTrack(rows, skip, seen, upserts) && skip <= end <= |rows|
    ensures Unseen(rows[skip..end], seen) == rows[skip..end]
    ensures OnTrack(rows, end, seen + Ids(rows[skip..end]), upserts + rows[skip..end])
    ensures |seen + Ids(rows[skip..end])| == end
  {
    NextPage(rows, skip, end);
    forall i | 0 <= i < end - skip
        ensures rows[skip..end][i].id !in seen { assert rows[skip..end][i] in rows[skip..end]; }
    AllUnseen(rows[skip..end], seen);
    PrefixDistinct(rows, end);
    DistinctCount(rows[..end]);
  }

  lemma PrefixDistinct(rows: seq<Row>, end: nat)
    requires DistinctIds(rows) && end <= |rows|
    ensures DistinctIds(rows[..end])
  {
  }

  /** Against a stable source the loop stops only at the end of the rows. */
  lemma StableStep(source: Source, rows: seq<Row>, n: nat, skip: nat, seen: set<int>, upserts: seq<Row>, news: seq<Row>)
    requires IsStable(source, rows) && DistinctIds(rows) && OnTrack(rows, skip, seen, upserts)
    requires news == Unseen(source(n, skip).items, seen)
    ensures news == [] ==> upserts == rows
    ensures |source(n, skip).items| < PAGE_SIZE || |seen + Ids(news)| >= source(n, skip).totalCount ==>
        upserts + news == rows
    ensures |source(n, skip).items| >= PAGE_SIZE ==> OnTrack(rows, skip + PAGE_SIZE, seen + Ids(news), upserts + news)
  {
    var end := Min(skip + PAGE_SIZE, |rows|);
    assert Min(skip, |rows|) == skip && source(n, skip) == Page(rows[skip..end], |rows|);
    StablePage(rows, skip, end, seen, upserts);
    assert |news| == end - skip;
    if end == |rows| {
      Everything(rows, end, seen + Ids(news), upserts + news);
    }
    if news == [] {
      assert skip == end;
      Everything(rows, skip, seen, upserts);
    }
  }

  /** The stop conditions fire exactly on the last page, so no request is wasted. */
  lemma StablePages(
    source: Source, rows: seq<Row>, n: nat, skip: nat, seen: set<int>, upserts: seq<Row>, news: seq<Row>, requests: nat)
    requires IsStable(source, rows) && DistinctIds(rows) && OnTrack(rows, skip, seen, upserts)
    requires news == Unseen(source(n, skip).items, seen) && Paced(rows, skip, requests)
    ensures
      var stops := news == [] || |source(n, skip).items| < PAGE_SIZE ||
          |seen + Ids(news)| >= source(n, skip).totalCount;
      if stops then PagesOf(|rows|) == requests + 1 else Paced(rows, skip + PAGE_SIZE, requests + 1)
  {
    var end := Min(skip + PAGE_SIZE, |rows|);
    assert source(n, skip) == Page(rows[Min(skip, |rows|)..end], |rows|);
    StablePage(rows, skip, end, seen, upserts);
    assert news == rows[skip..end] && |news| == end - skip;
    if |rows| <= skip + PAGE_SIZE {
      LastPage(|rows|, skip, requests);
    }
  }

  /** So many whole pages have been read and something is left, or nothing has been read. */
  ghost predicate Paced(rows: seq<Row>, skip: nat, requests: nat) {
    skip == 200 * requests && (skip == 0 || skip < |rows|)
  }

  lemma LastPage(n: nat, skip: nat, requests: nat)
    requires skip == 200 * requests && (skip == 0 || skip < n) && n <= skip + 200
    ensures PagesOf(n) == requests + 1
  {
  }

  lemma Everything(rows: seq<Row>, skip: nat, seen: set<int>, upserts: seq<Row>)
    requires OnTrack(rows, skip, seen, upserts) && skip >= |rows|
    ensures upserts == rows
  {
    assert rows[..|rows|] == rows;
  }

  /** Where the loop stands against a stable source, and where it ends. */
  ghost predicate OnPace(rows: seq<Row>, skip: nat, seen: set<int>, upserts: seq<Row>, requests: nat) {
    OnTrack(rows, skip, seen, upserts) && Paced(rows, skip, requests)
  }

  ghost predicate IsComplete(rows: seq<Row>, upserts: seq<Row>, requests: nat) {
    upserts == rows && requests == PagesOf(|rows|)
  }

  lemma StableNext(
    source: Source, rows: seq<Row>, n: nat, skip: nat, seen: set<int>, upserts: seq<Row>, news: seq<Row>, requests: nat)
    requires IsStable(source, rows) && DistinctIds(rows) && OnPace(rows, skip, seen, upserts, requests)
    requires news == Unseen(source(n, skip).items, seen)
    ensures news == [] ==> IsComplete(rows, upserts, requests + 1)
    ensures |source(n, skip).items| < PAGE_SIZE || |seen + Ids(news)| >= source(n, skip).totalCount ==>
              IsComplete(rows, upserts + news, requests + 1)
    ensures news != [] && |source(n, skip).items| >= PAGE_SIZE && |seen + Ids(news)| < source(n, skip).totalCount ==>
              OnPace(rows, skip + PAGE_SIZE, seen + Ids(news), upserts + news, requests + 1)
  {
    StableStep(source, rows, n, skip, seen, upserts, news);
    StablePages(source, rows, n, skip, seen, upserts, news, requests);
  }

  /**
    The loop ends for every source whose ids come from a finite universe, after at most one request more
    than there are ids, even if the source ignores skip and limit or lies about its total. If no single page
    repeats an id then no id is stored twice. A stable source with distinct ids is stored exactly once, in order.
  */
  method BackfillTransactions(source: Source, ghost universe: set<int>, ghost rows: seq<Row>)
    returns (upserts: seq<Row>, seen: set<int>, ghost requests: nat)
    requires Within(source, universe)
    ensures seen == Ids(upserts) && seen <= universe
    ensures requests <= |universe| + 1
    ensures PagesDistinct(source) ==> DistinctIds(upserts)
    ensures IsStable(source, rows) && DistinctIds(rows) ==> IsComplete(rows, upserts, requests)
  {
    upserts, seen, requests := [], {}, 0;
    var skip: nat, n: nat := 0, 0;
    ghost var stable := IsStable(source, rows) && DistinctIds(rows);
    ghost var neat := PagesDistinct(source);
    assert rows[..0] == [] && universe - {} == universe;
    while true
      invariant Sound(universe, seen, upserts, requests)
      invariant neat ==> DistinctIds(upserts)
      invariant stable ==> OnPace(rows, skip, seen, upserts, requests)
      decreases |universe - seen|
    {
      var stop;
      stop, upserts, seen := TakePage(source, n, skip, upserts, seen, universe, rows, requests);
      requests := requests + 1;
      if stop {
        break;
      }
      n, skip := n + 1, skip + PAGE_SIZE;
    }
  }

  /** One request: nothing new, a short page and a reached total all stop the loop. */
  method TakePage(
    source: Source, n: nat, skip: nat, upserts0: seq<Row>, seen0: set<int>, ghost universe: set<int>,
      ghost rows: seq<Row>,
    ghost requests: nat)
    returns (stop: bool, upserts: seq<Row>, seen: set<int>)
    requires Within(source, universe) && Sound(universe, seen0, upserts0, requests)
    ensures seen == Ids(upserts) && seen <= universe
    ensures stop ==> requests <= |universe|
    ensures !stop ==> Sound(universe, seen, upserts, requests + 1) && |universe - seen| < |universe - seen0|
    ensures PagesDistinct(source) && DistinctIds(upserts0) ==> DistinctIds(upserts)
    ensures IsStable(source, rows) && DistinctIds(rows) && OnPace(rows, skip, seen0, upserts0, requests) ==>
              if stop then IsComplete(rows, upserts, requests + 1)
              else OnPace(rows, skip + PAGE_SIZE, seen, upserts, requests + 1)
  {
    upserts, seen := upserts0, seen0;
    var page := source(n, skip);
    var newRows := Unseen(page.items, seen);
    if IsStable(source, rows) && DistinctIds(rows) && OnPace(rows, skip, seen, upserts, requests) {
      StableNext(source, rows, n, skip, seen, upserts, newRows, requests);
    }
    if newRows == [] {
      return true, upserts, seen;
    }
    PageStored(source, n, skip, universe, seen, upserts, requests, newRows);
    seen := seen + Ids(newRows);
    upserts := upserts + newRows;
    if |page.items| < PAGE_SIZE {
      return true, upserts, seen;
    }
    stop := |seen| >= page.totalCount;
  }
}
