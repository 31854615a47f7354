/** Keyset pagination of the candidate list: ordered pages over a table that may change between two requests. */
module KeysetPaging {
  import opened Prelude
  import opened CandidateWorkflow

  datatype Listed = Listed(tenant: Id, requisition: Id, stage: Stage)

  type Table = map<Id, Listed>

  datatype Filter = Filter(tenant: Id, stage: Option<Stage>, requisition: Option<Id>)

  predicate Matches(r: Listed, f: Filter) {
    && r.tenant == f.tenant
    && (f.stage.Some? ==> r.stage == f.stage.value)
    && (f.requisition.Some? ==> r.requisition == f.requisition.value)
  }

  function Matching(t: Table, f: Filter): set<Id> {
    set id | id in t && Matches(t[id], f)
  }

  /** The rows after the cursor; identifiers stand for the strings the database orders. */
  function Beyond(ids: set<Id>, cursor: Option<Id>): set<Id> {
    set id | id in ids && (cursor.Some? ==> id > cursor.value)
  }

  datatype Page = Page(items: seq<Id>, next: Option<Id>, total: nat)

  ghost predicate IsLeast(least: Id, ids: set<Id>) {
    least in ids && forall x | x in ids :: least <= x
  }

  lemma {:induction false} FindLeast(ids: set<Id>, x: Id) returns (least: Id)
    requires x in ids
    ensures IsLeast(least, ids)
    decreases ids
  {
    var rest := ids - {x};
    least := x;
    if y :| y in rest {
      var lower := FindLeast(rest, y);
      if lower < x {
        least := lower;
      }
    }
    forall y | y in ids ensures least <= y {
      assert y == x || y in rest;
    }
  }

  lemma HasLeast(ids: set<Id>)
    requires ids != {}
    ensures exists least :: least in ids && IsLeast(least, ids)
  {
    var x :| x in ids;
    var least := FindLeast(ids, x);
  }

  ghost function Least(ids: set<Id>): (least: Id)
    requires ids != {}
    ensures IsLeast(least, ids)
  {
    HasLeast(ids);
    var least :| least in ids && IsLeast(least, ids);
    least
  }

  /** ORDER BY id. */
  ghost function Sorted(ids: set<Id>): seq<Id> {
    if ids == {} then [] else [Least(ids)] + Sorted(ids - {Least(ids)})
  }

  predicate Ascending(ids: seq<Id>) {
    forall i, j | 0 <= i < j < |ids| :: ids[i] < ids[j]
  }

  lemma AscendingAppend(a: seq<Id>, b: seq<Id>, bound: Id)
    requires Ascending(a) && Ascending(b)
    requires (forall x | x in a :: x <= bound) && (forall x | x in b :: x > bound)
    ensures Ascending(a + b)
  {
    forall i, j | 0 <= i < j < |a + b| ensures (a + b)[i] < (a + b)[j] {
      if i < |a| <= j {
        assert a[i] in a && b[j - |a|] in b;
      }
    }
  }

  lemma {:induction false} SortedIs(ids: set<Id>)
    ensures Ascending(Sorted(ids)) && |Sorted(ids)| == |ids|
    ensures forall x :: x in Sorted(ids) <==> x in ids
    decreases ids
  {
    if ids != {} {
      var least, rest := Least(ids), ids - {Least(ids)};
      SortedIs(rest);
      AscendingAppend([least], Sorted(rest), least);
      forall x ensures x in Sorted(ids) <==> x in ids {
        assert x in [least] + Sorted(rest) <==> x == least || x in rest;
      }
    }
  }

  lemma HeadIsIn(items: seq<Id>)
    ensures items == [] || items[0] in items
  {
  }

  lemma TailIs(items: seq<Id>, ids: set<Id>)
    requires Ascending(items) && items != [] && forall x :: x in items <==> x in ids
    ensures Ascending(items[1..]) && forall x :: x in items[1..] <==> x in ids - {items[0]}
  {
    forall x ensures x in items[1..] <==> x in ids - {items[0]} {
      assert items == [items[0]] + items[1..];
      if x in items[1..] {
        var j :| 0 <= j < |items[1..]| && items[1..][j] == x;
        assert items[j + 1] == x;
      }
    }
  }

  lemma {:induction false} AscendingIsSorted(items: seq<Id>, ids: set<Id>)
    requires Ascending(items) && forall x :: x in items <==> x in ids
    ensures items == Sorted(ids)
    decreases |items|
  {
    HeadIsIn(items);
    if ids != {} {
      var least, tail := Least(ids), items[1..];
      assert least in items;
      assert items[0] in ids;
      assert items[0] == least;
      TailIs(items, ids);
      AscendingIsSorted(tail, ids - {least});
    }
  }

  /** The query: one row more than the page is fetched to see whether there is a next page. */
  ghost function ListPage(t: Table, f: Filter, cursor: Option<Id>, limit: nat): Page
    requires limit >= 1
  {
    var rows := Sorted(Beyond(Matching(t, f), cursor));
    var records := if |rows| > limit + 1 then rows[..limit + 1] else rows;
    var page := if |records| > limit then records[..limit] else records;
    Page(page, if |records| > limit then Some(page[|page| - 1]) else None, |Matching(t, f)|)
  }

  lemma BeyondIsWithin(ids: set<Id>, cursor: Option<Id>)
    ensures |Beyond(ids, cursor)| <= |ids|
    ensures cursor.None? ==> Beyond(ids, cursor) == ids
  {
    assert ids == Beyond(ids, cursor) + (ids - Beyond(ids, cursor));
  }

  lemma PrefixMembers(rows: seq<Id>, k: nat)
    requires Ascending(rows) && 0 < k <= |rows|
    ensures Ascending(rows[..k])
    ensures forall x :: x in rows[..k] <==> x in rows && x <= rows[k - 1]
  {
    forall x ensures x in rows[..k] <==> x in rows && x <= rows[k - 1] {
      if x in rows {
        var i :| 0 <= i < |rows| && rows[i] == x;
        if i < k {
          assert rows[..k][i] == x;
        }
      }
    }
  }

  /** What one page holds, apart from how it is fetched. */
  lemma PageIs(t: Table, f: Filter, cursor: Option<Id>, limit: nat)
    requires limit >= 1
    ensures
      var page, wanted := ListPage(t, f, cursor, limit), Beyond(Matching(t, f), cursor);
      && Ascending(page.items)
      && |page.items| == (if page.next.Some? then limit else |wanted|)
      && (page.next.Some? <==> |wanted| > limit)
      && (page.next.Some? ==> page.items[|page.items| - 1] == page.next.value)
    ensures
      var page, wanted := ListPage(t, f, cursor, limit), Beyond(Matching(t, f), cursor);
      forall x :: x in page.items <==> x in wanted && (page.next.Some? ==> x <= page.next.value)
  {
    var wanted := Beyond(Matching(t, f), cursor);
    var rows, page := Sorted(wanted), ListPage(t, f, cursor, limit);
    SortedIs(wanted);
    if |rows| > limit {
      PrefixMembers(rows, limit);
      assert page.items == rows[..limit];
    } else {
      assert page.items == rows;
    }
  }

  /** The total counts all matches, whatever the cursor: at least what is left, and that alone at the start. */
  lemma PageTotalIs(t: Table, f: Filter, cursor: Option<Id>, limit: nat)
    requires limit >= 1
    ensures
      var page, wanted := ListPage(t, f, cursor, limit), Beyond(Matching(t, f), cursor);
      |page.items| <= |wanted| <= page.total && (cursor.None? ==> page.total == |wanted|)
  {
    PageIs(t, f, cursor, limit);
    BeyondIsWithin(Matching(t, f), cursor);
  }

  // ---------------------------------------------------------------------------------------------------------------
  // Following the cursor

  /** A client that follows `next_cursor`, each request meeting the table as it is by then; only the last page has no
      successor. */
  ghost predicate Walk(tables: seq<Table>, pages: seq<Page>, f: Filter, limit: nat, cursor: Option<Id>)
    requires limit >= 1
    decreases |pages|
  {
    && |tables| == |pages|
    && pages != []
    && pages[0] == ListPage(tables[0], f, cursor, limit)
    && (pages[0].next.None? <==> |pages| == 1)
    && (|pages| > 1 ==> Walk(tables[1..], pages[1..], f, limit, pages[0].next))
  }

  function Items(pages: seq<Page>): seq<Id> {
    if pages == [] then [] else pages[0].items + Items(pages[1..])
  }

  predicate After(cursor: Option<Id>, id: Id) {
    cursor.Some? ==> id > cursor.value
  }

  ghost predicate Once(tables: seq<Table>, f: Filter, id: Id) {
    exists t | t in tables :: id in Matching(t, f)
  }

  ghost predicate Throughout(tables: seq<Table>, f: Filter, id: Id) {
    forall t | t in tables :: id in Matching(t, f)
  }

  lemma {:induction false} WalkIsSound(tables: seq<Table>, pages: seq<Page>, f: Filter, limit: nat, cursor: Option<Id>)
    requires limit >= 1 && Walk(tables, pages, f, limit, cursor)
    ensures Ascending(Items(pages))
    ensures forall x | x in Items(pages) :: After(cursor, x)
    decreases |pages|
  {
    var page := pages[0];
    PageIs(tables[0], f, cursor, limit);
    if |pages| == 1 {
      assert Items(pages) == page.items;
    } else {
      WalkIsSound(tables[1..], pages[1..], f, limit, page.next);
      assert page.next.value in page.items;
      AscendingAppend(page.items, Items(pages[1..]), page.next.value);
    }
  }

  lemma {:induction false} WalkShowsMatches(tables: seq<Table>, pages: seq<Page>, f: Filter, limit: nat,
                                            cursor: Option<Id>, x: Id)
    requires limit >= 1 && Walk(tables, pages, f, limit, cursor) && x in Items(pages)
    ensures Once(tables, f, x)
    decreases |pages|
  {
    PageIs(tables[0], f, cursor, limit);
    assert tables[0] in tables;
    if x !in pages[0].items {
      WalkShowsMatches(tables[1..], pages[1..], f, limit, pages[0].next, x);
      var t :| t in tables[1..] && x in Matching(t, f);
      assert t in tables;
    }
  }

  lemma {:induction false} WalkMissesNothing(tables: seq<Table>, pages: seq<Page>, f: Filter, limit: nat,
                                             cursor: Option<Id>, x: Id)
    requires limit >= 1 && Walk(tables, pages, f, limit, cursor)
    requires After(cursor, x) && Throughout(tables, f, x)
    ensures x in Items(pages)
    decreases |pages|
  {
    PageIs(tables[0], f, cursor, limit);
    assert tables[0] in tables;
    if x !in pages[0].items {
      WalkMissesNothing(tables[1..], pages[1..], f, limit, pages[0].next, x);
    }
  }

  /** Inserts, deletions and edits between the pages notwithstanding: no row appears twice, rows appear in order,
      each was a match when some page was read, and every row that matches throughout appears. */
  lemma WalkIsComplete(tables: seq<Table>, pages: seq<Page>, f: Filter, limit: nat, cursor: Option<Id>)
    requires limit >= 1 && Walk(tables, pages, f, limit, cursor)
    ensures Ascending(Items(pages))
    ensures forall x | x in Items(pages) :: After(cursor, x) && Once(tables, f, x)
    ensures forall x: Id | After(cursor, x) && Throughout(tables, f, x) :: x in Items(pages)
  {
    WalkIsSound(tables, pages, f, limit, cursor);
    forall x | x in Items(pages) ensures Once(tables, f, x) {
      WalkShowsMatches(tables, pages, f, limit, cursor, x);
    }
    forall x: Id | After(cursor, x) && Throughout(tables, f, x) ensures x in Items(pages) {
      WalkMissesNothing(tables, pages, f, limit, cursor, x);
    }
  }

  /** The pages of a table that does not change. */
  function Constant(t: Table, n: nat): seq<Table> {
    if n == 0 then [] else [t] + Constant(t, n - 1)
  }

  lemma {:induction false} ConstantHolds(t: Table, n: nat)
    ensures |Constant(t, n)| == n && forall u | u in Constant(t, n) :: u == t
    decreases n
  {
    if n > 0 {
      ConstantHolds(t, n - 1);
    }
  }

  function Elements(items: seq<Id>): set<Id> {
    set x | x in items
  }

  lemma AscendingSize(items: seq<Id>)
    requires Ascending(items)
    ensures |Elements(items)| == |items|
  {
    AscendingIsSorted(items, Elements(items));
    SortedIs(Elements(items));
  }

  lemma SplitAt(ids: set<Id>, cursor: Option<Id>, at: Id, first: set<Id>)
    requires forall x :: x in first <==> x in Beyond(ids, cursor) && x <= at
    requires at in first
    ensures |Beyond(ids, cursor)| == |first| + |Beyond(ids, Some(at))|
  {
    assert first !! Beyond(ids, Some(at));
    assert Beyond(ids, cursor) == first + Beyond(ids, Some(at));
  }

  /** A full page takes exactly its rows from what is left. */
  lemma FullPageTakesLimit(t: Table, f: Filter, limit: nat, cursor: Option<Id>)
    requires limit >= 1 && ListPage(t, f, cursor, limit).next.Some?
    ensures |Beyond(Matching(t, f), cursor)| == limit + |Beyond(Matching(t, f), ListPage(t, f, cursor, limit).next)|
  {
    PageIs(t, f, cursor, limit);
    var page := ListPage(t, f, cursor, limit);
    AscendingSize(page.items);
    assert page.next.value in page.items;
    SplitAt(Matching(t, f), cursor, page.next.value, Elements(page.items));
  }

  lemma OnePageMore(pages: int, limit: int, left: int)
    ensures (pages - 1) * limit <= left <==> pages * limit <= left + limit
    ensures (pages - 1) * limit < left <==> pages * limit < left + limit
    ensures left <= pages * limit <==> left + limit <= (pages + 1) * limit
  {
  }

  lemma {:induction false} FixedTablePages(t: Table, pages: seq<Page>, f: Filter, limit: nat, cursor: Option<Id>)
    requires limit >= 1 && Walk(Constant(t, |pages|), pages, f, limit, cursor)
    ensures (|pages| - 1) * limit <= |Beyond(Matching(t, f), cursor)| <= |pages| * limit
    ensures |pages| > 1 ==> (|pages| - 1) * limit < |Beyond(Matching(t, f), cursor)|
    decreases |pages|
  {
    PageIs(t, f, cursor, limit);
    if |pages| > 1 {
      assert Constant(t, |pages|)[1..] == Constant(t, |pages| - 1);
      FixedTablePages(t, pages[1..], f, limit, pages[0].next);
      FullPageTakesLimit(t, f, limit, cursor);
      var left := |Beyond(Matching(t, f), pages[0].next)|;
      OnePageMore(|pages| - 1, limit, left);
      if |pages| == 2 {
        assert left > 0;
      }
    }
  }

  /** Following the cursor over a table that does not change comes to an end. */
  lemma {:induction false} WalkEnds(t: Table, f: Filter, limit: nat, cursor: Option<Id>) returns (pages: seq<Page>)
    requires limit >= 1
    ensures Walk(Constant(t, |pages|), pages, f, limit, cursor)
    decreases |Beyond(Matching(t, f), cursor)|
  {
    var page := ListPage(t, f, cursor, limit);
    pages := [page];
    if page.next.Some? {
      FullPageTakesLimit(t, f, limit, cursor);
      var rest := WalkEnds(t, f, limit, page.next);
      pages := [page] + rest;
      assert pages[1..] == rest && Constant(t, |pages|)[1..] == Constant(t, |rest|);
    }
    ConstantHolds(t, |pages|);
  }

  lemma {:induction false} TotalsAgree(t: Table, pages: seq<Page>, f: Filter, limit: nat, cursor: Option<Id>)
    requires limit >= 1 && Walk(Constant(t, |pages|), pages, f, limit, cursor)
    ensures forall page | page in pages :: page.total == |Matching(t, f)|
    decreases |pages|
  {
    if |pages| > 1 {
      assert Constant(t, |pages|)[1..] == Constant(t, |pages| - 1);
      TotalsAgree(t, pages[1..], f, limit, pages[0].next);
      assert pages == [pages[0]] + pages[1..];
    }
  }

  /** On a table that does not change, the pages together are the filtered rows in order, and there are just as many
      pages as it takes: all but the last are full. From the start, the total on every page is the number of rows
      shown in the end. */
  lemma FixedTableWalk(t: Table, pages: seq<Page>, f: Filter, limit: nat, cursor: Option<Id>)
    requires limit >= 1 && Walk(Constant(t, |pages|), pages, f, limit, cursor)
    ensures Items(pages) == Sorted(Beyond(Matching(t, f), cursor))
    ensures (|pages| - 1) * limit <= |Items(pages)| <= |pages| * limit
    ensures |pages| > 1 ==> (|pages| - 1) * limit < |Items(pages)|
    ensures cursor.None? ==> forall page | page in pages :: page.total == |Items(pages)|
  {
    TotalsAgree(t, pages, f, limit, cursor);
    BeyondIsWithin(Matching(t, f), cursor);
    var wanted := Beyond(Matching(t, f), cursor);
    WalkIsComplete(Constant(t, |pages|), pages, f, limit, cursor);
    ConstantHolds(t, |pages|);
    forall x ensures x in Items(pages) <==> x in wanted {
      if x in Items(pages) {
        assert Once(Constant(t, |pages|), f, x);
      } else if x in wanted {
        assert Throughout(Constant(t, |pages|), f, x);
      }
    }
    AscendingIsSorted(Items(pages), wanted);
    SortedIs(wanted);
    FixedTablePages(t, pages, f, limit, cursor);
  }

  /** The columns a listed row must have. */
  lemma MatchingIs(t: Table, f: Filter, x: Id)
    ensures x in Matching(t, f) <==>
            && x in t && t[x].tenant == f.tenant
            && (match f.stage case None => true case Some(stage) => t[x].stage == stage)
            && (match f.requisition case None => true case Some(requisition) => t[x].requisition == requisition)
  {
  }

  /** On a table that does not change, the pages from the start list exactly the tenant's rows in the stage and of the
      requisition asked for, each once, and every page's total is their number. */
  lemma FixedTableLists(t: Table, pages: seq<Page>, f: Filter, limit: nat)
    requires limit >= 1 && Walk(Constant(t, |pages|), pages, f, limit, None)
    ensures Ascending(Items(pages)) && forall page | page in pages :: page.total == |Items(pages)|
    ensures forall x :: x in Items(pages) <==>
              && x in t && t[x].tenant == f.tenant
              && (f.stage == None || f.stage == Some(t[x].stage))
              && (f.requisition == None || f.requisition == Some(t[x].requisition))
  {
    FixedTableWalk(t, pages, f, limit, None);
    SortedIs(Beyond(Matching(t, f), None));
    forall x ensures x in Items(pages) <==> x in Matching(t, f) {
    }
    forall x ensures x in Matching(t, f) <==>
                       && x in t && t[x].tenant == f.tenant
                       && (f.stage == None || f.stage == Some(t[x].stage))
                       && (f.requisition == None || f.requisition == Some(t[x].requisition))
    {
      MatchingIs(t, f, x);
    }
  }

  /** Nor does a walk over changing tables ever list a row that was not, when its page was read, the tenant's, in the
      stage, and of the requisition asked for. */
  lemma WalkListsOnlyTheFilter(tables: seq<Table>, pages: seq<Page>, f: Filter, limit: nat, cursor: Option<Id>, x: Id)
      returns (t: Table)
    requires limit >= 1 && Walk(tables, pages, f, limit, cursor) && x in Items(pages)
    ensures t in tables && x in t && t[x].tenant == f.tenant
    ensures f.stage.Some? ==> t[x].stage == f.stage.value
    ensures f.requisition.Some? ==> t[x].requisition == f.requisition.value
  {
    WalkShowsMatches(tables, pages, f, limit, cursor, x);
    t :| t in tables && x in Matching(t, f);
    MatchingIs(t, f, x);
  }
}
