/**
  Keyset pagination over an append-and-prune log.  A page asks for one row more than its
  limit, ordered by (moment, id) descending; the extra row only decides whether there is a
  next cursor, and the cursor names the last row shown.  `match` stands for the query's
  other filters, so the results hold for the request log and the audit log alike.
*/
module Pagination {
  import opened Common

  /** A log row; `at` is the instant the database stores and compares. */
  datatype Row = Row(
    at: Time, id: int, user: Option<int>, status: int, verb: string, path: string, requestId: string)

  type Table = set<Row>

  /** An ordering key: what a cursor carries. */
  datatype Spot = Spot(at: Time, id: int)

  function SpotOf(r: Row): Spot {
    Spot(r.at, r.id)
  }

  /** The row comparison the database makes: (moment, id) < (moment, id). */
  predicate Below(p: Spot, q: Spot) {
    p.at < q.at || (p.at == q.at && p.id < q.id)
  }

  predicate Older(a: Row, b: Row) {
    Below(SpotOf(a), SpotOf(b))
  }

  /** Primary keys are unique. */
  ghost predicate WellFormed(t: Table) {
    forall a, b :: a in t && b in t && a.id == b.id ==> a == b
  }

  /** Newest first: a later moment, or the same moment and a greater identifier. */
  predicate Newer(a: Row, b: Row) {
    a.at > b.at || (a.at == b.at && a.id > b.id)
  }

  ghost predicate Descending(rows: seq<Row>) {
    forall i, j :: 0 <= i < j < |rows| ==> Newer(rows[i], rows[j])
  }

  // ----- ORDER BY moment DESC, id DESC -----

  lemma {:induction false} NewestExists(t: Table)
    requires t != {} && WellFormed(t)
    ensures exists r :: r in t && forall q :: q in t ==> q == r || Older(q, r)
  {
    var x :| x in t;
    var rest := t - {x};
    if rest == {} {
      assert t == {x};
    } else {
      NewestExists(rest);
      var r :| r in rest && forall q :: q in rest ==> q == r || Older(q, r);
      assert forall q :: q in t ==> q == x || q in rest;
      assert r in t && x.id != r.id;
      if Older(x, r) {
        assert forall q :: q in t ==> q == r || Older(q, r);
      } else {
        assert forall q :: q in t ==> q == x || Older(q, x);
      }
    }
  }

  ghost function Newest(t: Table): (r: Row)
    requires t != {} && WellFormed(t)
    ensures r in t && forall q :: q in t ==> q == r || Older(q, r)
  {
    NewestExists(t);
    var r :| r in t && forall q :: q in t ==> q == r || Older(q, r);
    r
  }

  ghost function Sorted(t: Table): seq<Row>
    requires WellFormed(t)
  {
    if t == {} then [] else [Newest(t)] + Sorted(t - {Newest(t)})
  }

  lemma {:induction false} SortLosesNothing(t: Table)
    requires WellFormed(t)
    ensures |Sorted(t)| == |t| && forall r :: r in Sorted(t) <==> r in t
  {
    if t != {} {
      var rest := t - {Newest(t)};
      SortLosesNothing(rest);
      assert t == rest + {Newest(t)};
    }
  }

  lemma Appended(first: seq<Row>, rest: seq<Row>)
    requires Descending(first) && Descending(rest)
    requires forall q, r :: q in first && r in rest ==> Older(r, q)
    ensures Descending(first + rest)
  {
    var all := first + rest;
    forall i, j | 0 <= i < j < |all|
      ensures Newer(all[i], all[j])
    {
      if i < |first| <= j {
        assert all[i] in first && all[j] in rest;
        assert Older(all[j], all[i]);
      }
    }
  }

  /** The order is total and the sort loses nothing. */
  lemma {:induction false} SortedIsSorted(t: Table)
    requires WellFormed(t)
    ensures Descending(Sorted(t)) && |Sorted(t)| == |t| && forall r :: r in Sorted(t) <==> r in t
  {
    SortLosesNothing(t);
    if t != {} {
      var rest := t - {Newest(t)};
      SortedIsSorted(rest);
      Appended([Newest(t)], Sorted(rest));
    }
  }

  /** There is only one descending arrangement of a set of rows. */
  lemma {:induction false} OnlyOneOrder(rows: seq<Row>, t: Table)
    requires WellFormed(t) && Descending(rows) && forall r :: r in rows <==> r in t
    ensures rows == Sorted(t)
    decreases |rows|
  {
    if rows == [] {
      assert t == {};
    } else {
      assert rows[0] in t;
      var first := Newest(t);
      assert first in rows;
      assert forall q :: q in rows ==> q == rows[0] || Older(q, rows[0]);
      assert rows[0] == first;
      var rest := t - {first};
      forall r
        ensures r in rows[1..] <==> r in rest
      {
        assert r in rows <==> r == rows[0] || r in rows[1..];
        assert r in rows[1..] ==> Older(r, rows[0]);
      }
      OnlyOneOrder(rows[1..], rest);
    }
  }

  // ----- One page -----

  predicate Reached(cursor: Option<Spot>, r: Row) {
    cursor.None? || Below(SpotOf(r), cursor.value)
  }

  ghost function Candidates(t: Table, match': Row -> bool, cursor: Option<Spot>): (c: Table)
    ensures c <= t && (WellFormed(t) ==> WellFormed(c))
  {
    set r | r in t && match'(r) && Reached(cursor, r)
  }

  function FirstRows(all: seq<Row>, n: nat): seq<Row> {
    if |all| <= n then all else all[..n]
  }

  /** ORDER BY ... LIMIT limit + 1, over the rows that satisfy the WHERE clause. */
  ghost function ListPage(candidates: Table, limit: nat): seq<Row>
    requires WellFormed(candidates)
  {
    FirstRows(Sorted(candidates), limit + 1)
  }

  /** The extra row decides the cursor and never reaches the caller. */
  function CursorSlice(found: seq<Row>, limit: nat): (seq<Row>, Option<Spot>) {
    var page := FirstRows(found, limit);
    if |found| <= limit || page == [] then (page, None)
    else (page, Some(SpotOf(page[|page| - 1])))
  }

  ghost function Page(candidates: Table, limit: nat): (seq<Row>, Option<Spot>)
    requires WellFormed(candidates)
  {
    CursorSlice(ListPage(candidates, limit), limit)
  }

  lemma SliceOfOneMore(all: seq<Row>, limit: nat)
    requires 1 <= limit
    ensures CursorSlice(FirstRows(all, limit + 1), limit) ==
      if |all| <= limit then (all, None) else (all[..limit], Some(SpotOf(all[limit - 1])))
  {
    if |all| > limit {
      assert FirstRows(FirstRows(all, limit + 1), limit) == all[..limit];
    }
  }

  lemma PrefixOf(all: seq<Row>, n: nat)
    requires Descending(all) && n <= |all|
    ensures Descending(all[..n]) && forall r :: r in all[..n] ==> r in all
  {
  }

  /** A page is a prefix of the sorted candidates: all of them, or the newest `limit` and a cursor at its last row. */
  lemma PageIsNewestCandidates(c: Table, limit: nat)
    requires WellFormed(c) && 1 <= limit
    ensures var (page, next) := Page(c, limit);
      && |Sorted(c)| == |c|
      && Descending(page) && (forall r :: r in page ==> r in c)
      && (next.None? <==> |c| <= limit)
      && (next.None? ==> page == Sorted(c))
      && (next.Some? ==> page == Sorted(c)[..limit] && next.value == SpotOf(page[limit - 1]))
  {
    SortedIsSorted(c);
    SliceOfOneMore(Sorted(c), limit);
    if |c| > limit {
      PrefixOf(Sorted(c), limit);
    }
  }

  /** The rows of a table that a cursor still admits. */
  ghost function Under(c: Table, cursor: Option<Spot>): (rest: Table)
    ensures rest <= c
  {
    set r | r in c && Reached(cursor, r)
  }

  lemma SplitDescending(all: seq<Row>, n: nat)
    requires Descending(all) && 1 <= n < |all|
    ensures Descending(all[n..])
    ensures forall r :: r in all[n..] <==> r in all && Older(r, all[n - 1])
  {
  }

  lemma TailIsWhatIsUnder(c: Table, n: nat)
    requires WellFormed(c) && 1 <= n < |Sorted(c)|
    ensures Sorted(Under(c, Some(SpotOf(Sorted(c)[n - 1])))) == Sorted(c)[n..]
  {
    SortedIsSorted(c);
    SplitDescending(Sorted(c), n);
    OnlyOneOrder(Sorted(c)[n..], Under(c, Some(SpotOf(Sorted(c)[n - 1]))));
  }

  /** The next cursor admits exactly the candidates the page left out. */
  lemma RestOfTheResult(c: Table, limit: nat)
    requires WellFormed(c) && 1 <= limit < |c|
    ensures var (page, next) := Page(c, limit);
      && next.Some?
      && Sorted(c) == page + Sorted(Under(c, next))
      && |Under(c, next)| == |c| - limit
  {
    PageIsNewestCandidates(c, limit);
    TailIsWhatIsUnder(c, limit);
    SortLosesNothing(Under(c, Page(c, limit).1));
  }

  /** Whatever a page leaves off is older than everything on it. */
  lemma LeftOffIsOlder(c: Table, limit: nat, shown: Row, left: Row)
    requires WellFormed(c) && 1 <= limit
    requires shown in Page(c, limit).0 && left in c && left !in Page(c, limit).0
    ensures shown.at > left.at || (shown.at == left.at && shown.id > left.id)
  {
    SortedIsSorted(c);
    PageIsNewestCandidates(c, limit);
    var all, page := Sorted(c), Page(c, limit).0;
    var i :| 0 <= i < |page| && page[i] == shown;
    var j :| 0 <= j < |all| && all[j] == left;
    assert all[i] == page[i];
    assert j < |page| ==> page[j] == left;
  }

  // ----- The walk -----

  /** Following next_cursor; the table may be different at every page. */
  ghost function Walk(tables: seq<Table>, match': Row -> bool, cursor: Option<Spot>, limit: nat): seq<Row>
    requires forall t :: t in tables ==> WellFormed(t)
    decreases |tables|
  {
    if tables == [] then []
    else
      var (page, next) := Page(Candidates(tables[0], match', cursor), limit);
      if next.None? then page else page + Walk(tables[1..], match', next, limit)
  }

  /** The walk saw a page without a next cursor. */
  ghost predicate Finished(tables: seq<Table>, match': Row -> bool, cursor: Option<Spot>, limit: nat)
    requires forall t :: t in tables ==> WellFormed(t)
    decreases |tables|
  {
    && tables != []
    && var next := Page(Candidates(tables[0], match', cursor), limit).1;
       next.None? || Finished(tables[1..], match', next, limit)
  }

  /** Whatever a walk shows matched the query and was in the table when its page was read. */
  lemma {:induction false} ShownRowsMatch(tables: seq<Table>, match': Row -> bool, cursor: Option<Spot>, limit: nat, r: Row)
    requires (forall t :: t in tables ==> WellFormed(t)) && 1 <= limit
    requires r in Walk(tables, match', cursor, limit)
    ensures match'(r) && Reached(cursor, r) && exists t :: t in tables && r in t
    decreases |tables|
  {
    assert tables[0] in tables;
    var c := Candidates(tables[0], match', cursor);
    var (page, next) := Page(c, limit);
    PageIsNewestCandidates(c, limit);
    if r !in page {
      assert page[limit - 1] in page;
      ShownRowsMatch(tables[1..], match', next, limit, r);
      var t :| t in tables[1..] && r in t;
      assert t in tables;
    }
  }

  lemma LastIsOldest(rows: seq<Row>, q: Row)
    requires Descending(rows) && q in rows
    ensures q == rows[|rows| - 1] || Older(rows[|rows| - 1], q)
  {
  }

  /** However the table changes between pages, a walk is strictly descending: no row is shown twice. */
  lemma {:induction false} NothingTwice(tables: seq<Table>, match': Row -> bool, cursor: Option<Spot>, limit: nat)
    requires (forall t :: t in tables ==> WellFormed(t)) && 1 <= limit
    ensures Descending(Walk(tables, match', cursor, limit))
    decreases |tables|
  {
    if tables != [] {
      assert tables[0] in tables;
      var c := Candidates(tables[0], match', cursor);
      var (page, next) := Page(c, limit);
      PageIsNewestCandidates(c, limit);
      if next.Some? {
        NothingTwice(tables[1..], match', next, limit);
        var rest := Walk(tables[1..], match', next, limit);
        forall q, r | q in page && r in rest
          ensures Older(r, q)
        {
          ShownRowsMatch(tables[1..], match', next, limit, r);
          LastIsOldest(page, q);
        }
        Appended(page, rest);
      }
    }
  }

  /** In plain terms, whatever happens to the table between pages: a walk goes from newest to oldest. */
  lemma WalkIsNewestFirst(tables: seq<Table>, match': Row -> bool, cursor: Option<Spot>, limit: nat, i: nat, j: nat)
    requires (forall t :: t in tables ==> WellFormed(t)) && 1 <= limit
    requires i < j < |Walk(tables, match', cursor, limit)|
    ensures var w := Walk(tables, match', cursor, limit);
      w[i].at > w[j].at || (w[i].at == w[j].at && w[i].id > w[j].id)
  {
    NothingTwice(tables, match', cursor, limit);
  }

  /** A finished walk has shown every matching row that was there throughout. */
  lemma {:induction false} NothingMissed(
    tables: seq<Table>, match': Row -> bool, cursor: Option<Spot>, limit: nat, r: Row)
    requires (forall t :: t in tables ==> WellFormed(t)) && 1 <= limit
    requires Finished(tables, match', cursor, limit)
    requires match'(r) && Reached(cursor, r) && forall t :: t in tables ==> r in t
    ensures r in Walk(tables, match', cursor, limit)
    decreases |tables|
  {
    assert tables[0] in tables;
    var c := Candidates(tables[0], match', cursor);
    assert r in c;
    SortLosesNothing(c);
    PageIsNewestCandidates(c, limit);
    var (page, next) := Page(c, limit);
    if next.Some? && r !in page {
      RestOfTheResult(c, limit);
      assert r in page + Sorted(Under(c, next));
      SortLosesNothing(Under(c, next));
      NothingMissed(tables[1..], match', next, limit, r);
    }
  }

  lemma {:induction false} CountInDescending(rows: seq<Row>, r: Row)
    requires Descending(rows) && r in rows
    ensures multiset(rows)[r] == 1
  {
    assert rows == [rows[0]] + rows[1..];
    if r in rows[1..] {
      assert Older(r, rows[0]);
      CountInDescending(rows[1..], r);
    }
  }

  /** Both together: a row present throughout is shown exactly once. */
  lemma ShownExactlyOnce(tables: seq<Table>, match': Row -> bool, limit: nat, r: Row)
    requires (forall t :: t in tables ==> WellFormed(t)) && 1 <= limit
    requires Finished(tables, match', None, limit)
    requires match'(r) && forall t :: t in tables ==> r in t
    ensures multiset(Walk(tables, match', None, limit))[r] == 1
  {
    NothingTwice(tables, match', None, limit);
    NothingMissed(tables, match', None, limit, r);
    CountInDescending(Walk(tables, match', None, limit), r);
  }

  lemma OnePageFewer(pages: nat, limit: nat)
    requires 1 <= pages
    ensures (pages - 1) * limit == pages * limit - limit
  {
  }

  lemma NextCandidates(t: Table, match': Row -> bool, cursor: Option<Spot>, limit: nat)
    requires WellFormed(t) && 1 <= limit
    ensures var c := Candidates(t, match', cursor);
      var next := Page(c, limit).1;
      next.Some? ==> Candidates(t, match', next) == Under(c, next)
  {
    var c := Candidates(t, match', cursor);
    PageIsNewestCandidates(c, limit);
    var (page, next) := Page(c, limit);
    if next.Some? {
      assert page[limit - 1] in page;
    }
  }

  /**
    Over a table nobody touches, the pages are the whole sorted result cut up, and the walk
    ends once it has asked for as many pages as hold it.
  */
  lemma {:induction false} FrozenWalkIsTheWholeResult(
    t: Table, match': Row -> bool, cursor: Option<Spot>, limit: nat, pages: nat)
    requires WellFormed(t) && 1 <= limit && 1 <= pages
    requires |Candidates(t, match', cursor)| <= pages * limit
    ensures var tables := seq(pages, _ => t);
      && Finished(tables, match', cursor, limit)
      && Walk(tables, match', cursor, limit) == Sorted(Candidates(t, match', cursor))
    decreases pages
  {
    var tables := seq(pages, _ => t);
    var c := Candidates(t, match', cursor);
    var (page, next) := Page(c, limit);
    PageIsNewestCandidates(c, limit);
    if next.Some? {
      NextCandidates(t, match', cursor, limit);
      RestOfTheResult(c, limit);
      assert tables[1..] == seq(pages - 1, _ => t);
      OnePageFewer(pages, limit);
      FrozenWalkIsTheWholeResult(t, match', next, limit, pages - 1);
    }
  }
}
