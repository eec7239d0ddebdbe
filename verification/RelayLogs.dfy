/** The relay's log table and `list_logs`: pages keyed by (timestamp, id). */
module RelayLogs {

  datatype Row = Row(ts: int, id: int, raw: string)
  datatype Cursor = Cursor(ts: int, id: int)

  /** The order of `ORDER BY ts, id`. */
  predicate Before(a: Row, b: Row) {
    a.ts < b.ts || (a.ts == b.ts && a.id < b.id)
  }

  predicate Past(c: Cursor, r: Row) {
    r.ts > c.ts || (r.ts == c.ts && r.id > c.id)
  }

  function CursorAt(r: Row): Cursor {
    Cursor(r.ts, r.id)
  }

  predicate Listed(c: Cursor, until: int, r: Row) {
    Past(c, r) && r.ts <= until
  }

  function Select(c: Cursor, until: int, rows: seq<Row>): (r: seq<Row>)
    ensures |r| <= |rows|
    ensures forall x :: x in r ==> x in rows && Listed(c, until, x)
  {
    if rows == [] then []
    else if Listed(c, until, rows[0]) then [rows[0]] + Select(c, until, rows[1..])
    else Select(c, until, rows[1..])
  }

  function Insert(r: Row, s: seq<Row>): (t: seq<Row>)
    ensures multiset(t) == multiset(s) + multiset{r}
  {
    if s == [] || Before(r, s[0]) then assert multiset([r] + s) == multiset{r} + multiset(s); [r] + s
    else
      assert s == [s[0]] + s[1..];
      [s[0]] + Insert(r, s[1..])
  }

  function Sort(rows: seq<Row>): (t: seq<Row>)
    ensures multiset(t) == multiset(rows)
  {
    if rows == [] then []
    else
      assert rows == [rows[0]] + rows[1..];
      Insert(rows[0], Sort(rows[1..]))
  }

  predicate Sorted(s: seq<Row>) {
    forall i, j :: 0 <= i < j < |s| ==> Before(s[i], s[j])
  }

  predicate UniqueIds(rows: seq<Row>) {
    forall i, j :: 0 <= i < j < |rows| ==> rows[i].id != rows[j].id
  }

  /** `LIMIT n`, negative meaning none. */
  function Take(s: seq<Row>, limit: int): seq<Row> {
    if 0 <= limit < |s| then s[..limit] else s
  }

  /** `list_logs` */
  function ListLogs(rows: seq<Row>, c: Cursor, until: int, limit: int): seq<Row> {
    Take(Sort(Select(c, until, rows)), limit)
  }

  // ----- ORDER BY after WHERE is WHERE on the ordered table -----

  lemma {:induction false} InsertSorted(r: Row, s: seq<Row>)
    requires Sorted(s) && forall x :: x in s ==> x.id != r.id
    ensures Sorted(Insert(r, s))
    ensures forall x :: x in Insert(r, s) <==> x == r || x in s
  {
    if s != [] && !Before(r, s[0]) {
      InsertSorted(r, s[1..]);
      var t := Insert(r, s[1..]);
      forall i | 0 <= i < |t| ensures Before(s[0], t[i]) {
        assert t[i] in t;
      }
    }
  }

  lemma {:induction false} SortSorts(rows: seq<Row>)
    requires UniqueIds(rows)
    ensures Sorted(Sort(rows)) && forall x :: x in Sort(rows) <==> x in rows
  {
    if rows != [] {
      SortSorts(rows[1..]);
      InsertSorted(rows[0], Sort(rows[1..]));
    }
  }

  lemma {:induction false} InsertFront(r: Row, s: seq<Row>)
    requires forall x :: x in s ==> Before(r, x)
    ensures Insert(r, s) == [r] + s
  {
  }

  lemma {:induction false} SelectInsert(c: Cursor, until: int, r: Row, s: seq<Row>)
    requires Sorted(s)
    ensures Select(c, until, Insert(r, s))
         == if Listed(c, until, r) then Insert(r, Select(c, until, s)) else Select(c, until, s)
  {
    var kept := Select(c, until, s);
    if s == [] || Before(r, s[0]) {
      assert Insert(r, s) == [r] + s;
      SelectFirst(c, until, r, s);
      forall x | x in kept ensures Before(r, x) {
        assert x in s;
      }
      InsertFront(r, kept);
    } else {
      var rest := Insert(r, s[1..]);
      assert Insert(r, s) == [s[0]] + rest;
      SelectFirst(c, until, s[0], rest);
      SelectInsert(c, until, r, s[1..]);
      SelectFirst(c, until, s[0], s[1..]);
      assert s == [s[0]] + s[1..];
      if Listed(c, until, s[0]) {
        hide Select;
        var tail := Select(c, until, s[1..]);
        assert ([s[0]] + tail)[1..] == tail;
      }
    }
  }

  lemma SelectFirst(c: Cursor, until: int, r: Row, s: seq<Row>)
    ensures Select(c, until, [r] + s) == (if Listed(c, until, r) then [r] else []) + Select(c, until, s)
  {
    assert ([r] + s)[1..] == s;
  }

  lemma {:induction false} SelectSort(c: Cursor, until: int, rows: seq<Row>)
    requires UniqueIds(rows)
    ensures Select(c, until, Sort(rows)) == Sort(Select(c, until, rows))
  {
    if rows != [] {
      SelectSort(c, until, rows[1..]);
      SortSorts(rows[1..]);
      SelectInsert(c, until, rows[0], Sort(rows[1..]));
      var kept := Select(c, until, rows[1..]);
      if Listed(c, until, rows[0]) {
        assert ([rows[0]] + kept)[1..] == kept;
      }
    }
  }

  // ----- following the continuation -----

  lemma {:induction false} SelectSorted(c: Cursor, until: int, s: seq<Row>)
    requires Sorted(s)
    ensures Sorted(Select(c, until, s))
  {
    if s != [] {
      SelectSorted(c, until, s[1..]);
      forall x | x in Select(c, until, s[1..]) ensures Before(s[0], x) {
        assert x in s[1..];
      }
    }
  }

  /** Listing past the `n`-th listed row drops exactly the first `n`. */
  lemma {:induction false} SelectPastNth(c: Cursor, until: int, s: seq<Row>, n: nat)
    requires Sorted(s) && 1 <= n <= |Select(c, until, s)|
    ensures Select(CursorAt(Select(c, until, s)[n - 1]), until, s) == Select(c, until, s)[n..]
  {
    var all := Select(c, until, s);
    var next := CursorAt(all[n - 1]);
    if !Listed(c, until, s[0]) {
      assert all[n - 1] in s[1..];
      SelectPastNth(c, until, s[1..], n);
    } else {
      var rest := Select(c, until, s[1..]);
      assert all == [s[0]] + rest && all[n..] == rest[n - 1..];
      if n == 1 {
        SelectAgain(c, until, s[1..], next);
      } else {
        assert all[n - 1] == rest[n - 2] && rest[n - 2] in s[1..];
        SelectPastNth(c, until, s[1..], n - 1);
      }
    }
  }

  /** Past a later cursor that precedes every row, the same rows are listed. */
  lemma {:induction false} SelectAgain(c: Cursor, until: int, s: seq<Row>, next: Cursor)
    requires forall x :: x in s ==> Past(next, x) && Past(c, x)
    ensures Select(next, until, s) == Select(c, until, s)
  {
    if s != [] {
      SelectAgain(c, until, s[1..], next);
    }
  }

  /** A page is the front of the window, and what lies past its last row is the rest. */
  lemma PageThenRest(rows: seq<Row>, c: Cursor, until: int, limit: nat)
    requires UniqueIds(rows) && limit >= 1 && ListLogs(rows, c, until, limit) != []
    ensures var all, page := Sort(Select(c, until, rows)), ListLogs(rows, c, until, limit);
      var rest := Sort(Select(CursorAt(page[|page| - 1]), until, rows));
      && page + rest == all
      && |Select(CursorAt(page[|page| - 1]), until, rows)| < |Select(c, until, rows)|
  {
    hide Select;
    hide Insert;
    hide Sort;
    hide UniqueIds;
    hide Sorted;
    var s := Sort(rows);
    var all, page := Select(c, until, s), ListLogs(rows, c, until, limit);
    var next := CursorAt(page[|page| - 1]);
    SortSorts(rows);
    SelectSort(c, until, rows);
    SelectSort(next, until, rows);
    SortLength(Select(c, until, rows));
    SortLength(Select(next, until, rows));
    assert page == all[..|page|];
    SelectPastNth(c, until, s, |page|);
  }

  lemma SortLength(rows: seq<Row>)
    ensures |Sort(rows)| == |rows|
  {
    assert |multiset(Sort(rows))| == |multiset(rows)|;
  }

  /** What a caller gets by asking again from the last row received until a page comes back empty. */
  function Follow(rows: seq<Row>, c: Cursor, until: int, limit: nat): seq<Row>
    requires UniqueIds(rows) && limit >= 1
    decreases |Select(c, until, rows)|
  {
    var page := ListLogs(rows, c, until, limit);
    if page == [] then []
    else
      PageThenRest(rows, c, until, limit);
      page + Follow(rows, CursorAt(page[|page| - 1]), until, limit)
  }

  lemma WindowSorted(rows: seq<Row>, c: Cursor, until: int)
    requires UniqueIds(rows)
    ensures Sorted(Sort(Select(c, until, rows)))
  {
    SortSorts(rows);
    SelectSort(c, until, rows);
    SelectSorted(c, until, Sort(rows));
  }

  /**
   For any limit of at least one, the pages concatenate to the whole window in (ts, id) order,
   no row missing and none repeated, however many rows share a millisecond.
   */
  lemma {:induction false} PagesAreTheWindow(rows: seq<Row>, c: Cursor, until: int, limit: nat)
    requires UniqueIds(rows) && limit >= 1
    ensures Follow(rows, c, until, limit) == Sort(Select(c, until, rows))
    ensures Sorted(Follow(rows, c, until, limit))
    decreases |Select(c, until, rows)|
  {
    hide Sort;
    hide Select;
    hide Sorted;
    hide UniqueIds;
    var page := ListLogs(rows, c, until, limit);
    WindowSorted(rows, c, until);
    if page != [] {
      PageThenRest(rows, c, until, limit);
      PagesAreTheWindow(rows, CursorAt(page[|page| - 1]), until, limit);
    }
  }

  lemma {:induction false} SelectIff(c: Cursor, until: int, rows: seq<Row>, x: Row)
    ensures x in Select(c, until, rows) <==>
      x in rows && (x.ts > c.ts || (x.ts == c.ts && x.id > c.id)) && x.ts <= until
  {
    if rows != [] {
      SelectIff(c, until, rows[1..], x);
      assert x in rows <==> x == rows[0] || x in rows[1..];
    }
  }

  /** The pages hold a row if and only if its time is past the cursor, ties by id, and within the window; in that order. */
  lemma PagesHold(rows: seq<Row>, c: Cursor, until: int, limit: nat, x: Row)
    requires UniqueIds(rows) && limit >= 1
    ensures var all := Follow(rows, c, until, limit);
      && (x in all <==> x in rows && (x.ts > c.ts || (x.ts == c.ts && x.id > c.id)) && x.ts <= until)
      && (forall i, j :: 0 <= i < j < |all| ==>
            all[i].ts < all[j].ts || (all[i].ts == all[j].ts && all[i].id < all[j].id))
  {
    hide Follow;
    PagesAreTheWindow(rows, c, until, limit);
    SelectIff(c, until, rows, x);
    var window := Select(c, until, rows);
    assert x in Sort(window) <==> x in multiset(Sort(window));
    assert x in window <==> x in multiset(window);
  }

  /** A page has as many rows as the limit allows and the window holds, each page the first of them. */
  lemma PageIsFirst(rows: seq<Row>, c: Cursor, until: int, limit: nat)
    requires UniqueIds(rows) && limit >= 1
    ensures var page, all := ListLogs(rows, c, until, limit), Follow(rows, c, until, limit);
      page <= all && (|page| == limit || page == all) && |page| <= limit
  {
    hide Follow;
    hide Sort;
    hide Select;
    PagesAreTheWindow(rows, c, until, limit);
  }

  /** The table with its autoincrement key. */
  class LogTable {
    var rows: seq<Row>
    var nextId: int

    ghost predicate Valid()
      reads this
    {
      UniqueIds(rows) && forall i :: 0 <= i < |rows| ==> rows[i].id < nextId
    }

    constructor ()
      ensures Valid() && rows == [] && nextId == 1
    {
      rows, nextId := [], 1;
    }

    method AppendLog(ts: int, raw: string)
      requires Valid()
      modifies this
      ensures Valid() && rows == old(rows) + [Row(ts, old(nextId), raw)] && nextId == old(nextId) + 1
    {
      rows := rows + [Row(ts, nextId, raw)];
      nextId := nextId + 1;
    }

    method List(c: Cursor, until: int, limit: int) returns (page: seq<Row>)
      requires Valid()
      ensures page == ListLogs(rows, c, until, limit)
    {
      var found: seq<Row> := [];
      for i := |rows| downto 0
        invariant found == Sort(Select(c, until, rows[i..]))
      {
        assert rows[i..][1..] == rows[i + 1..];
        if Listed(c, until, rows[i]) {
          var kept := Select(c, until, rows[i + 1..]);
          assert ([rows[i]] + kept)[1..] == kept;
          found := Insert(rows[i], found);
        }
      }
      assert rows[0..] == rows;
      page := Take(found, limit);
    }
  }
}
