/**
 What a page of the diagnostics log promises: nothing lost, nothing repeated, whatever
 the memo holds, and a bounded amount of reading.
 */
module DiagPaging {
  import opened Wrappers
  import opened Numbers
  import opened DayFile
  import opened Locator
  import opened PositionMemo
  import opened DiagScan
  import opened DiagTrace

  // ----- sound logs -----

  /** The pageable rows of the files, in listing order. */
  function AllRows(parse: Parser, files: seq<Day>): seq<Parsed> {
    if files == [] then []
    else RowsFrom(parse, files[0].data, 0) + AllRows(parse, files[1..])
  }

  predicate SortedDays(files: seq<Day>) {
    forall i, j :: 0 <= i < j < |files| ==> files[i].day < files[j].day
  }

  predicate Increasing(rows: seq<Parsed>) {
    forall i, j :: 0 <= i < j < |rows| ==> IdOf(rows[i]) < IdOf(rows[j])
  }

  /** An id of a later day sorts after an id of an earlier one. */
  ghost predicate DaysOrderIds(dayOf: Id -> Option<int>) {
    forall a, b :: dayOf(a).Some? && dayOf(b).Some? && dayOf(a).value < dayOf(b).value ==> a < b
  }

  /** The row was stamped for the day of its file, give or take the slack around midnight. */
  ghost predicate Stamped(dayOf: Id -> Option<int>, day: int, row: Parsed) {
    && Pageable(row) && IdOf(row) > NO_ID
    && dayOf(IdOf(row)) == Some(day)
    && day - 1 <= DayOfMs(row.ts.value) <= day + 1
  }

  /** Pageable rows of a file carry strictly increasing ids. */
  ghost predicate StrictIds(parse: Parser, data: Bytes) {
    forall p, p' :: 0 <= p < p' && WholeLineAt(data, p) && WholeLineAt(data, p')
      && Pageable(ParsedAt(parse, data, p)) && Pageable(ParsedAt(parse, data, p'))
      ==> IdOf(ParsedAt(parse, data, p)) < IdOf(ParsedAt(parse, data, p'))
  }

  ghost predicate SoundFile(parse: Parser, dayOf: Id -> Option<int>, f: Day) {
    && IdsInOrder(parse, f.data) && StrictIds(parse, f.data) && NoRowInsideLine(parse, f.data)
    && forall p :: 0 <= p && WholeLineAt(f.data, p) && Pageable(ParsedAt(parse, f.data, p)) ==>
         Stamped(dayOf, f.day, ParsedAt(parse, f.data, p))
  }

  ghost predicate SoundLog(q: Query, files: seq<Day>) {
    && SortedDays(files) && DaysOrderIds(q.dayOf)
    && forall f :: f in files ==> SoundFile(q.parse, q.dayOf, f)
  }

  /** Every row read from a line start is the row of some whole line at or after it. */
  lemma {:induction false} RowHasLine(parse: Parser, data: Bytes, from: nat, r: Parsed) returns (p: nat)
    requires IsLineStart(data, from) && r in RowsFrom(parse, data, from)
    ensures from <= p && WholeLineAt(data, p) && ParsedAt(parse, data, p) == r && Pageable(r)
    decreases |data| - from
  {
    if Pageable(ParsedAt(parse, data, from)) && r == ParsedAt(parse, data, from) {
      p := from;
    } else {
      p := RowHasLine(parse, data, LineEnd(data, from), r);
    }
  }

  lemma {:induction false} RowsIncrease(parse: Parser, data: Bytes, from: nat)
    requires StrictIds(parse, data) && IsLineStart(data, from)
    ensures Increasing(RowsFrom(parse, data, from))
    decreases |data| - from
  {
    hide StrictIds;
    if Terminated(data, from) {
      var e := LineEnd(data, from);
      var row, rest := ParsedAt(parse, data, from), RowsFrom(parse, data, e);
      RowsIncrease(parse, data, e);
      if Pageable(row) {
        forall r | r in rest ensures IdOf(row) < IdOf(r) {
          var p := RowHasLine(parse, data, e, r);
          StrictlyLater(parse, data, from, p);
        }
      }
      IncreasingConcat(Single(row), rest);
    }
  }

  lemma StrictlyLater(parse: Parser, data: Bytes, p: nat, p': nat)
    requires StrictIds(parse, data) && p < p' && WholeLineAt(data, p) && WholeLineAt(data, p')
    requires Pageable(ParsedAt(parse, data, p)) && Pageable(ParsedAt(parse, data, p'))
    ensures IdOf(ParsedAt(parse, data, p)) < IdOf(ParsedAt(parse, data, p'))
  {
  }

  lemma IncreasingConcat(a: seq<Parsed>, b: seq<Parsed>)
    requires Increasing(a) && Increasing(b)
    requires forall x, y :: x in a && y in b ==> IdOf(x) < IdOf(y)
    ensures Increasing(a + b)
  {
  }

  lemma {:induction false} RowHasFile(parse: Parser, files: seq<Day>, r: Parsed) returns (f: Day)
    requires r in AllRows(parse, files)
    ensures f in files && r in RowsFrom(parse, f.data, 0)
  {
    if r in RowsFrom(parse, files[0].data, 0) {
      f := files[0];
    } else {
      f := RowHasFile(parse, files[1..], r);
    }
  }

  lemma RowIsStamped(q: Query, f: Day, r: Parsed)
    requires SoundFile(q.parse, q.dayOf, f) && r in RowsFrom(q.parse, f.data, 0)
    ensures Stamped(q.dayOf, f.day, r)
  {
    var p := RowHasLine(q.parse, f.data, 0, r);
  }

  lemma {:induction false} LogIncreases(q: Query, files: seq<Day>)
    requires SoundLog(q, files)
    ensures Increasing(AllRows(q.parse, files))
  {
    hide SoundFile;
    hide RowsFrom;
    if files != [] {
      var first, rest := RowsFrom(q.parse, files[0].data, 0), AllRows(q.parse, files[1..]);
      LogIncreases(q, files[1..]);
      FileIncreases(q, files[0]);
      forall x, y | x in first && y in rest ensures IdOf(x) < IdOf(y) {
        RowIsStamped(q, files[0], x);
        var f := RowHasFile(q.parse, files[1..], y);
        RowIsStamped(q, f, y);
      }
      IncreasingConcat(first, rest);
    }
  }

  lemma FileIncreases(q: Query, f: Day)
    requires SoundFile(q.parse, q.dayOf, f)
    ensures Increasing(RowsFrom(q.parse, f.data, 0))
  {
    RowsIncrease(q.parse, f.data, 0);
  }

  // ----- a sound memo -----

  /** The entry is the offset just after the line that carries its id. */
  ghost predicate EntryAt(parse: Parser, f: Day, e: Entry) {
    exists p :: 0 <= p && WholeLineAt(f.data, p) && Pageable(ParsedAt(parse, f.data, p))
      && IdOf(ParsedAt(parse, f.data, p)) == e.key.id && LineEnd(f.data, p) == e.offset
  }

  ghost predicate MemoSound(parse: Parser, files: seq<Day>, memo: Memo) {
    forall e, f ::
      (e in memo && f in files && e.key.day == f.day && e.key.inode == f.inode) ==> EntryAt(parse, f, e)
  }

  // ----- where a file's scan starts loses nothing -----

  lemma HitSkipsNothing(parse: Parser, data: Bytes, after: Id, p: nat)
    requires IdsInOrder(parse, data) && WholeLineAt(data, p)
    requires HasId(ParsedAt(parse, data, p)) && IdOf(ParsedAt(parse, data, p)) == after
    ensures NothingSkipped(parse, data, after, LineEnd(data, p))
  {
    forall p' | 0 <= p' < LineEnd(data, p) && WholeLineAt(data, p')
                && HasId(ParsedAt(parse, data, p'))
      ensures ParsedAt(parse, data, p').id.value <= after
    {
      if p < p' {
        NoStartInside(data, p, p');
      }
    }
  }

  lemma StartSkipsNothing(q: Query, files: seq<Day>, f: Day, s: Scan)
    requires f in files && SoundFile(q.parse, q.dayOf, f) && MemoSound(q.parse, files, s.memo)
    ensures NothingSkipped(q.parse, f.data, q.after, StartOf(q, f, s).offset)
  {
    hide Located;
    if Resuming(q, f) {
      LocateSkipsNothing(q.parse, f.data, q.after);
      var r := Get(s.memo, Key(f.day, f.inode, q.after));
      if r.Some? {
        assert EntryAt(q.parse, f, Entry(Key(f.day, f.inode, q.after), r.value));
        var p :| 0 <= p && WholeLineAt(f.data, p) && Pageable(ParsedAt(q.parse, f.data, p))
          && IdOf(ParsedAt(q.parse, f.data, p)) == q.after && LineEnd(f.data, p) == r.value;
        HitSkipsNothing(q.parse, f.data, q.after, p);
      }
    }
  }

  lemma StartIsSpot(q: Query, f: Day, s: Scan)
    ensures Spot(q.parse, f.data, StartOf(q, f, s).offset)
  {
    hide Located;
    LocatedIsSpot(q.parse, f.data, q.after);
  }

  // ----- the rows a whole request takes -----

  lemma StartTakesNothing(q: Query, f: Day, s: Scan)
    ensures Took(q, s, StartOf(q, f, s).scan, [])
    ensures var t := StartOf(q, f, s).scan;
      && t.truncated == s.truncated && t.memo == s.memo
      && t.corrupt == s.corrupt && t.lastId == s.lastId
  {
    hide Located;
  }

  /** A request that is not truncated is left early only at the end of the newest file. */
  lemma {:induction false} StopsEarlyOnlyInNewest(q: Query, f: Day, newest: bool, off: nat, s: Scan)
    requires off <= |f.data| && !s.truncated
    ensures var t := ScanFile(q, f, newest, off, s);
      && (t.flow == Stop && !t.scan.truncated ==> newest)
      && (t.flow == NextFile ==> !t.scan.truncated)
    decreases |f.data| - off
  {
    hide Put;
    if s.scanned <= q.budget {
      var r := ReadAt(q, f, newest, off, s);
      if r.flow == Continue {
        StopsEarlyOnlyInNewest(q, f, newest, NextOffset(f, off), r.scan);
      }
    }
  }

  /** One file, from where its scan starts. */
  lemma ScanOneTakes(q: Query, f: Day, newest: bool, s: Scan) returns (taken: seq<Parsed>)
    requires !s.truncated
    ensures var t, rows := ScanOne(q, f, newest, s), RowsFrom(q.parse, f.data, StartOf(q, f, s).offset);
      && taken <= rows
      && Took(q, s, t.scan, taken)
      && (!t.scan.truncated && t.scan.corrupt == [] ==> taken == rows)
      && (t.flow == Stop && !t.scan.truncated ==> newest)
      && (t.flow == NextFile ==> !t.scan.truncated)
  {
    hide Took;
    hide ScanFile;
    hide StartOf;
    var start := StartOf(q, f, s);
    StartTakesNothing(q, f, s);
    StopsEarlyOnlyInNewest(q, f, newest, start.offset, start.scan);
    taken := ScanFileTakes(q, f, newest, start.offset, start.scan);
    TookBoth(q, s, start.scan, ScanOne(q, f, newest, s).scan, [], taken);
    assert [] + taken == taken;
  }

  lemma TookStaysCorrupt(q: Query, s: Scan, t: Scan, rows: seq<Parsed>)
    requires Took(q, s, t, rows) && t.corrupt == []
    ensures s.corrupt == []
  {
  }

  /** What the files of a request offer from the place where each scan starts. */
  function Offered(q: Query, files: seq<Day>, s: Scan): seq<Parsed> {
    if files == [] then []
    else RowsFrom(q.parse, files[0].data, StartOf(q, files[0], s).offset) + AllRows(q.parse, files[1..])
  }

  /** Only the first file can be resumed in the middle; the scan takes a prefix of what is offered. */
  lemma {:induction false} ScanFilesTakes(q: Query, files: seq<Day>, s: Scan) returns (taken: seq<Parsed>)
    requires !s.truncated
    requires forall i :: 1 <= i < |files| ==> !Resuming(q, files[i])
    ensures var t := ScanFiles(q, files, s);
      && Took(q, s, t, taken)
      && (t.corrupt == [] ==> taken <= Offered(q, files, s))
      && (t.corrupt == [] && !t.truncated ==> taken == Offered(q, files, s))
  {
    hide Took;
    hide ScanOne;
    if files == [] {
      TookNothing(q, s, s);
      taken := [];
    } else {
      var t := ScanOne(q, files[0], |files| == 1, s);
      var u := ScanFiles(q, files, s);
      taken := ScanOneTakes(q, files[0], |files| == 1, s);
      if t.flow != Stop {
        var rest := ScanFilesTakes(q, files[1..], t.scan);
        OfferedFromTop(q, files[1..], t.scan);
        TookBoth(q, s, t.scan, u, taken, rest);
        if u.corrupt == [] {
          TookStaysCorrupt(q, t.scan, u, rest);
          PrefixConcat(taken, rest, AllRows(q.parse, files[1..]));
        }
        taken := taken + rest;
      }
    }
  }

  lemma OfferedFromTop(q: Query, files: seq<Day>, s: Scan)
    requires files != [] ==> !Resuming(q, files[0])
    ensures Offered(q, files, s) == AllRows(q.parse, files)
  {
  }

  lemma PrefixConcat(a: seq<Parsed>, b: seq<Parsed>, c: seq<Parsed>)
    requires b <= c
    ensures a + b <= a + c
  {
  }

  // ----- the files left out hold nothing that is wanted -----

  lemma LeftOutIsUnwanted(q: Query, f: Day, want: Parsed -> bool)
    requires SoundFile(q.parse, q.dayOf, f) && DaysOrderIds(q.dayOf) && !Selected(q, f)
    requires forall row :: want(row) ==> Wanted(q, row)
    ensures Pick(want, RowsFrom(q.parse, f.data, 0)) == []
  {
    hide RowsFrom;
    var rows := RowsFrom(q.parse, f.data, 0);
    forall i | 0 <= i < |rows| ensures !want(rows[i]) {
      RowIsStamped(q, f, rows[i]);
    }
    PickNone(want, rows);
  }

  lemma {:induction false} FilesDropNothing(q: Query, listing: seq<Day>, want: Parsed -> bool)
    requires DaysOrderIds(q.dayOf)
    requires forall f :: f in listing ==> SoundFile(q.parse, q.dayOf, f)
    requires forall row :: want(row) ==> Wanted(q, row)
    ensures Pick(want, AllRows(q.parse, Files(q, listing))) == Pick(want, AllRows(q.parse, listing))
  {
    hide RowsFrom;
    hide SoundFile;
    hide Pick;
    if listing != [] {
      var first, rest := RowsFrom(q.parse, listing[0].data, 0), AllRows(q.parse, listing[1..]);
      var kept := Files(q, listing[1..]);
      FilesDropNothing(q, listing[1..], want);
      PickConcat(want, first, rest);
      if Selected(q, listing[0]) {
        assert Files(q, listing)[1..] == kept;
        PickConcat(want, first, AllRows(q.parse, kept));
      } else {
        LeftOutIsUnwanted(q, listing[0], want);
        assert Files(q, listing) == kept;
        assert [] + Pick(want, rest) == Pick(want, rest);
      }
    }
  }

  lemma IncreasingParts(a: seq<Parsed>, b: seq<Parsed>)
    requires Increasing(a + b)
    ensures Increasing(a) && Increasing(b)
    ensures forall x, y :: x in a && y in b ==> IdOf(x) < IdOf(y)
  {
    var c := a + b;
    assert forall i :: 0 <= i < |a| ==> c[i] == a[i];
    assert forall i :: 0 <= i < |b| ==> c[|a| + i] == b[i];
  }

  lemma {:induction false} FilesIncreasing(q: Query, listing: seq<Day>)
    requires Increasing(AllRows(q.parse, listing))
    ensures Increasing(AllRows(q.parse, Files(q, listing)))
    ensures forall r :: r in AllRows(q.parse, Files(q, listing)) ==> r in AllRows(q.parse, listing)
  {
    hide RowsFrom;
    if listing != [] {
      var first, rest := RowsFrom(q.parse, listing[0].data, 0), AllRows(q.parse, listing[1..]);
      var kept := Files(q, listing[1..]);
      IncreasingParts(first, rest);
      FilesIncreasing(q, listing[1..]);
      if Selected(q, listing[0]) {
        assert Files(q, listing)[1..] == kept;
      } else {
        assert Files(q, listing) == kept;
      }
    }
  }

  lemma {:induction false} FilesKeep(q: Query, listing: seq<Day>)
    requires SortedDays(listing)
    ensures SortedDays(Files(q, listing))
    ensures forall f :: f in Files(q, listing) ==> f in listing && Selected(q, f)
  {
    if listing != [] {
      FilesKeep(q, listing[1..]);
      assert forall f :: f in listing[1..] ==> listing[0].day < f.day;
    }
  }

  // ----- a page is exactly the rows between two cursors -----

  /** In the window, past the query's cursor and not past `hi`. */
  ghost function Served(q: Query, hi: Id): Parsed -> bool {
    row => Wanted(q, row) && IdOf(row) <= hi
  }

  /** Of ordered rows `a + t + b` with `a` behind the cursor, taking `t` serves all up to its last. */
  lemma MiddleIsServed(q: Query, a: seq<Parsed>, t: seq<Parsed>, b: seq<Parsed>)
    requires Increasing(a + (t + b))
    requires forall i :: 0 <= i < |a| ==> IdOf(a[i]) <= q.after
    ensures Pick(Served(q, LastOf(q.after, t)), a + (t + b)) == Pick(Wants(q), t)
    ensures b == [] ==> Pick(Wants(q), a + (t + b)) == Pick(Wants(q), t)
  {
    hide Pick;
    hide LastOf;
    var hi := LastOf(q.after, t);
    IncreasingParts(a, t + b);
    IncreasingParts(t, b);
    PickConcat(Served(q, hi), a, t + b);
    PickConcat(Served(q, hi), t, b);
    PickNone(Served(q, hi), a);
    PickNone(Wants(q), a);
    PickSame(Served(q, hi), Wants(q), t);
    PickNone(Served(q, hi), b);
    if b == [] {
      PickConcat(Wants(q), a, t);
      assert t + b == t;
    }
  }

  /** Dropping the rows before the resume point leaves a suffix of all rows of the request. */
  lemma OfferedIsLeftover(q: Query, files: seq<Day>, s: Scan) returns (j: nat)
    requires files != [] && SoundFile(q.parse, q.dayOf, files[0]) && MemoSound(q.parse, files, s.memo)
    ensures Leftover(AllRows(q.parse, files), Offered(q, files, s), j, q.after)
  {
    hide RowsFrom;
    hide StartOf;
    var f, rest := files[0], AllRows(q.parse, files[1..]);
    StartSkipsNothing(q, files, f, s);
    StartIsSpot(q, f, s);
    j := ResumeReadsSuffix(q.parse, f.data, q.after, StartOf(q, f, s).offset, 0);
    var all := RowsFrom(q.parse, f.data, 0);
    assert all[j..] + rest == (all + rest)[j..];
  }

  lemma OnlyFirstResumes(q: Query, files: seq<Day>)
    requires SortedDays(files) && forall f :: f in files ==> Selected(q, f)
    ensures forall i :: 1 <= i < |files| ==> !Resuming(q, files[i])
  {
    if files != [] {
      assert Selected(q, files[0]);
    }
  }

  lemma PageTakes(q: Query, files: seq<Day>, memo: Memo) returns (a: seq<Parsed>, t: seq<Parsed>, b: seq<Parsed>)
    requires files != [] && SoundFile(q.parse, q.dayOf, files[0]) && MemoSound(q.parse, files, memo)
    requires SortedDays(files) && forall f :: f in files ==> Selected(q, f)
    requires ScanFiles(q, files, Fresh(q, memo)).corrupt == []
    ensures var page := ScanFiles(q, files, Fresh(q, memo));
      && AllRows(q.parse, files) == a + (t + b)
      && (forall i :: 0 <= i < |a| ==> IdOf(a[i]) <= q.after)
      && page.items == Pick(Wants(q), t) && page.lastId == LastOf(q.after, t)
      && (!page.truncated ==> b == [])
  {
    hide ScanFiles;
    hide Pick;
    hide LastOf;
    hide Offered;
    var s := Fresh(q, memo);
    OnlyFirstResumes(q, files);
    t := ScanFilesTakes(q, files, s);
    var j := OfferedIsLeftover(q, files, s);
    var rows := AllRows(q.parse, files);
    a, b := rows[..j], rows[j..][|t|..];
    assert rows == rows[..j] + rows[j..];
    assert rows[j..] == t + b;
  }

  /**
   A page serves exactly the rows of the log that lie in the window, past the query's cursor
   and not past the cursor it hands back; if it was not truncated, every wanted row.
   */
  lemma PageIsExact(q: Query, listing: seq<Day>, memo: Memo)
    requires SoundLog(q, listing) && MemoSound(q.parse, listing, memo)
    requires Bearable(q, listing, memo)
    ensures var page, rows := ReadPage(q, listing, memo), AllRows(q.parse, listing);
      && page.items == Pick(Served(q, page.lastId), rows)
      && (!page.truncated ==> page.items == Pick(Wants(q), rows))
      && page.lastId >= q.after
      && (page.lastId > q.after ==> exists r :: r in rows && IdOf(r) == page.lastId)
  {
    hide ScanFiles;
    hide Pick;
    hide SoundFile;
    hide Bearable;
    var files, page := Files(q, listing), ReadPage(q, listing, memo);
    NothingCorruptIff(q, listing, memo);
    FilesKeep(q, listing);
    LogIncreases(q, listing);
    FilesIncreasing(q, listing);
    FilesDropNothing(q, listing, Served(q, page.lastId));
    FilesDropNothing(q, listing, Wants(q));
    if files == [] {
      NoFilesNoRows(q, memo);
    } else {
      var a, t, b := PageTakes(q, files, memo);
      MiddleIsServed(q, a, t, b);
      if page.lastId > q.after {
        var i :| 0 <= i < |t| && IdOf(t[i]) == page.lastId;
        assert t[i] in AllRows(q.parse, files);
      }
    }
  }

  lemma NoFilesNoRows(q: Query, memo: Memo)
    ensures ScanFiles(q, [], Fresh(q, memo)) == Fresh(q, memo)
    ensures forall want :: Pick(want, AllRows(q.parse, [])) == []
  {
  }

  // ----- the memo stays sound, and two sound memos give the same page -----

  /** A spot that a newline follows is a line start, or lies inside a whole line with an id. */
  lemma PageableAtLineStart(parse: Parser, data: Bytes, off: nat)
    requires NoRowInsideLine(parse, data) && Spot(parse, data, off)
    requires Terminated(data, off) && Pageable(ParsedAt(parse, data, off))
    ensures WholeLineAt(data, off)
  {
    if !IsLineStart(data, off) {
      var b := LineBefore(data, off);
      SameLineEnd(data, b, off);
      SpotInside(parse, data, b, off);
    }
  }

  lemma PutKeepsMemo(parse: Parser, files: seq<Day>, memo: Memo, f: Day, p: nat)
    requires SortedDays(files) && f in files && MemoSound(parse, files, memo)
    requires WholeLineAt(f.data, p) && Pageable(ParsedAt(parse, f.data, p))
    ensures MemoSound(parse, files,
              Put(memo, Key(f.day, f.inode, IdOf(ParsedAt(parse, f.data, p))), LineEnd(f.data, p)))
  {
    hide Put;
    var key := Key(f.day, f.inode, IdOf(ParsedAt(parse, f.data, p)));
    assert EntryAt(parse, f, Entry(key, LineEnd(f.data, p)));
  }

  lemma ReadKeepsMemo(q: Query, files: seq<Day>, f: Day, newest: bool, off: nat, s: Scan)
    requires Spot(q.parse, f.data, off) && f in files && SortedDays(files) && NoRowInsideLine(q.parse, f.data)
    requires MemoSound(q.parse, files, s.memo)
    ensures MemoSound(q.parse, files, ReadAt(q, f, newest, off, s).scan.memo)
    ensures |s.memo| <= MEMO_CAP ==> |ReadAt(q, f, newest, off, s).scan.memo| <= MEMO_CAP
  {
    hide MemoSound;
    hide NoRowInsideLine;
    hide Put;
    if Terminated(f.data, off) && Pageable(ParsedAt(q.parse, f.data, off)) {
      PageableAtLineStart(q.parse, f.data, off);
      PutKeepsMemo(q.parse, files, s.memo, f, off);
    }
  }

  lemma {:induction false} ScanKeepsMemo(q: Query, files: seq<Day>, f: Day, newest: bool, off: nat, s: Scan)
    requires Spot(q.parse, f.data, off) && f in files && SortedDays(files) && NoRowInsideLine(q.parse, f.data)
    requires !s.truncated && MemoSound(q.parse, files, s.memo) && |s.memo| <= MEMO_CAP
    ensures var t := ScanFile(q, f, newest, off, s).scan;
      MemoSound(q.parse, files, t.memo) && |t.memo| <= MEMO_CAP
    decreases |f.data| - off
  {
    hide MemoSound;
    hide NoRowInsideLine;
    hide ReadAt;
    if s.scanned <= q.budget {
      ReadKeepsMemo(q, files, f, newest, off, s);
      ReadAtLeaves(q, f, newest, off, s);
      var r := ReadAt(q, f, newest, off, s);
      if r.flow == Continue {
        ScanKeepsMemo(q, files, f, newest, NextOffset(f, off), r.scan);
      }
    }
  }

  lemma {:induction false} FilesKeepMemo(q: Query, listing: seq<Day>, files: seq<Day>, s: Scan)
    requires SoundLog(q, listing) && (forall f :: f in files ==> f in listing)
    requires !s.truncated && MemoSound(q.parse, listing, s.memo) && |s.memo| <= MEMO_CAP
    ensures var t := ScanFiles(q, files, s); MemoSound(q.parse, listing, t.memo) && |t.memo| <= MEMO_CAP
    decreases files
  {
    hide MemoSound;
    hide ScanFile;
    hide StartOf;
    if files != [] {
      var f := files[0];
      var start := StartOf(q, f, s);
      StartTakesNothing(q, f, s);
      StartIsSpot(q, f, s);
      assert SoundFile(q.parse, q.dayOf, f);
      ScanKeepsMemo(q, listing, f, |files| == 1, start.offset, start.scan);
      StopsEarlyOnlyInNewest(q, f, |files| == 1, start.offset, start.scan);
      var t := ScanOne(q, f, |files| == 1, s);
      if t.flow != Stop {
        FilesKeepMemo(q, listing, files[1..], t.scan);
      }
    }
  }

  /** Every request leaves a sound memo of at most 64 entries. */
  lemma PageKeepsMemo(q: Query, listing: seq<Day>, memo: Memo)
    requires SoundLog(q, listing) && MemoSound(q.parse, listing, memo) && |memo| <= MEMO_CAP
    ensures MemoSound(q.parse, listing, ReadPage(q, listing, memo).memo)
    ensures |ReadPage(q, listing, memo).memo| <= 64
  {
    hide MemoSound;
    hide ScanFiles;
    FilesKeep(q, listing);
    FilesKeepMemo(q, listing, Files(q, listing), Fresh(q, memo));
  }

  /** `grown` is the same file with more bytes at its end. */
  predicate GrownFrom(f: Day, grown: Day) {
    f.day == grown.day && f.inode == grown.inode && f.data <= grown.data
  }

  lemma EntrySurvivesAppend(parse: Parser, f: Day, grown: Day, e: Entry)
    requires GrownFrom(f, grown) && EntryAt(parse, f, e)
    ensures EntryAt(parse, grown, e)
  {
    var p :| 0 <= p && WholeLineAt(f.data, p) && Pageable(ParsedAt(parse, f.data, p))
      && IdOf(ParsedAt(parse, f.data, p)) == e.key.id && LineEnd(f.data, p) == e.offset;
    var more := grown.data[|f.data|..];
    assert grown.data == f.data + more;
    LineEndAppend(f.data, more, p);
    assert WholeLineAt(grown.data, p);
  }

  /** A file the memo has no entry for, such as the next day's. */
  predicate Unheard(memo: Memo, f: Day) {
    forall e :: e in memo ==> !(e.key.day == f.day && e.key.inode == f.inode)
  }

  /** The memo needs no invalidation while the files only grow. */
  lemma MemoSurvivesAppend(parse: Parser, before: seq<Day>, now: seq<Day>, memo: Memo)
    requires MemoSound(parse, before, memo)
    requires forall g :: g in now ==> Unheard(memo, g) || exists f :: f in before && GrownFrom(f, g)
    ensures MemoSound(parse, now, memo)
  {
    hide EntryAt;
    forall e, g | e in memo && g in now && e.key.day == g.day && e.key.inode == g.inode
      ensures EntryAt(parse, g, e)
    {
      var f :| f in before && GrownFrom(f, g);
      EntrySurvivesAppend(parse, f, g, e);
    }
  }

  // ----- a page that fills up -----

  /** A page ends with its limit; a limit below one acts as one, since the row is appended first. */
  function Fill(q: Query): int {
    Max(1, q.limit)
  }

  /** The page is not over-full, and has room while the scan goes on. */
  predicate HasRoom(q: Query, s: Scan) {
    |s.items| <= Fill(q) && (!s.truncated ==> |s.items| < Fill(q))
  }

  lemma ReadKeepsRoom(q: Query, f: Day, newest: bool, off: nat, s: Scan)
    requires off <= |f.data| && HasRoom(q, s) && !s.truncated
    ensures HasRoom(q, ReadAt(q, f, newest, off, s).scan)
    ensures var r := ReadAt(q, f, newest, off, s); r.flow == Continue ==> !r.scan.truncated
  {
    hide Put;
  }

  lemma {:induction false} ScanKeepsRoom(q: Query, f: Day, newest: bool, off: nat, s: Scan)
    requires off <= |f.data| && HasRoom(q, s) && !s.truncated
    ensures HasRoom(q, ScanFile(q, f, newest, off, s).scan)
    decreases |f.data| - off
  {
    hide ReadAt;
    if s.scanned <= q.budget {
      ReadKeepsRoom(q, f, newest, off, s);
      var r := ReadAt(q, f, newest, off, s);
      if r.flow == Continue {
        ScanKeepsRoom(q, f, newest, NextOffset(f, off), r.scan);
      }
    }
  }

  lemma {:induction false} FilesKeepRoom(q: Query, files: seq<Day>, s: Scan)
    requires HasRoom(q, s) && !s.truncated
    ensures HasRoom(q, ScanFiles(q, files, s))
    decreases files
  {
    hide ScanFile;
    hide Located;
    if files != [] {
      var f, newest := files[0], |files| == 1;
      var start := StartOf(q, f, s);
      ScanKeepsRoom(q, f, newest, start.offset, start.scan);
      StopsEarlyOnlyInNewest(q, f, newest, start.offset, start.scan);
      var t := ScanOne(q, f, newest, s);
      if t.flow != Stop {
        FilesKeepRoom(q, files[1..], t.scan);
      }
    }
  }

  /** Rows up to a later cursor, then rows past it, are the rows past the first cursor. */
  lemma {:induction false} ServedThenWanted(q: Query, hi: Id, rows: seq<Parsed>)
    requires Increasing(rows) && hi >= q.after
    ensures Pick(Served(q, hi), rows) + Pick(Wants(q.(after := hi)), rows) == Pick(Wants(q), rows)
  {
    if rows != [] {
      ServedThenWanted(q, hi, rows[1..]);
      assert Served(q, hi)(rows[0]) == (Wanted(q, rows[0]) && IdOf(rows[0]) <= hi);
      assert Wants(q.(after := hi))(rows[0]) == (Wanted(q, rows[0]) && IdOf(rows[0]) > hi);
      if IdOf(rows[0]) > hi {
        PickNone(Served(q, hi), rows[1..]);
      }
    }
  }

  /** The page met no budget: it came to the end of the log, or it is full. */
  ghost predicate WithinBudgets(q: Query, listing: seq<Day>, memo: Memo) {
    var page := ReadPage(q, listing, memo);
    Bearable(q, listing, memo) && (page.truncated ==> |page.items| >= Fill(q))
  }

  /** Such a page is the wanted rows, cut at the limit. */
  lemma PageIsTheFirst(q: Query, listing: seq<Day>, memo: Memo)
    requires SoundLog(q, listing) && MemoSound(q.parse, listing, memo)
    requires WithinBudgets(q, listing, memo)
    ensures var page, rows := ReadPage(q, listing, memo), Pick(Wants(q), AllRows(q.parse, listing));
      && page.items == rows[..Min(Fill(q), |rows|)]
      && (page.truncated <==> |rows| >= Fill(q))
  {
    hide Pick;
    hide ScanFiles;
    hide SoundLog;
    hide Bearable;
    var page, all := ReadPage(q, listing, memo), AllRows(q.parse, listing);
    PageIsExact(q, listing, memo);
    FilesKeepRoom(q, Files(q, listing), Fresh(q, memo));
    LogIncreases(q, listing);
    ServedThenWanted(q, page.lastId, all);
    var rows, rest := Pick(Wants(q), all), Pick(Wants(q.(after := page.lastId)), all);
    assert page.truncated ==> rows == page.items + rest;
  }

  /** The memo only saves work: any sound memo and an empty one serve the same rows. */
  lemma MemoAgreesWithSearch(q: Query, listing: seq<Day>, memo: Memo)
    requires SoundLog(q, listing) && MemoSound(q.parse, listing, memo)
    requires WithinBudgets(q, listing, memo) && WithinBudgets(q, listing, [])
    ensures ReadPage(q, listing, memo).items == ReadPage(q, listing, []).items
    ensures ReadPage(q, listing, memo).truncated == ReadPage(q, listing, []).truncated
  {
    hide ReadPage;
    PageIsTheFirst(q, listing, memo);
    PageIsTheFirst(q, listing, []);
  }

  // ----- bounded work -----

  /** Every byte delivered is charged to exactly one of the three accounts. */
  predicate Accounted(s: Scan) {
    s.read == s.scanned + s.skippedBytes + s.located
  }

  lemma LineIsCharged(q: Query, f: Day, s: Scan, row: Parsed, consumed: nat, next: nat)
    requires s.scanned >= consumed && Accounted(s)
    ensures var r := OnLine(q, f, s, row, consumed, next);
      && Accounted(r.scan) && r.scan.located == s.located && r.scan.scanned <= s.scanned
      && s.skippedBytes <= r.scan.skippedBytes <= s.skippedBytes + consumed
      && (r.flow == Continue ==>
            r.scan.skippedBytes == s.skippedBytes || r.scan.skippedBytes <= SKIP_BYTE_BUDGET)
  {
    hide Put;
  }

  lemma ReadIsCharged(q: Query, f: Day, newest: bool, off: nat, s: Scan)
    requires off <= |f.data| && s.scanned <= q.budget && Accounted(s)
    ensures var r := ReadAt(q, f, newest, off, s);
      && Accounted(r.scan) && r.scan.located == s.located
      && r.scan.scanned <= q.budget + MAX_LINE_BYTES
      && s.skippedBytes <= r.scan.skippedBytes <= s.skippedBytes + MAX_LINE_BYTES
      && (r.flow == Continue ==>
            r.scan.skippedBytes == s.skippedBytes || r.scan.skippedBytes <= SKIP_BYTE_BUDGET)
  {
    hide OnLine;
    var r := ReadLine(f.data, off, MAX_LINE_BYTES);
    if r.kind == Line {
      LineIsCharged(q, f, s.(scanned := s.scanned + r.consumed, read := s.read + r.consumed),
                    ParsedAt(q.parse, f.data, off), r.consumed, off + r.consumed);
    }
  }

  lemma {:induction false} FileIsCharged(q: Query, f: Day, newest: bool, off: nat, s: Scan)
    requires off <= |f.data| && Accounted(s)
    ensures var t := ScanFile(q, f, newest, off, s).scan;
      && Accounted(t) && t.located == s.located
      && t.scanned <= Max(s.scanned, q.budget + MAX_LINE_BYTES)
      && t.skippedBytes <= Max(s.skippedBytes, SKIP_BYTE_BUDGET) + MAX_LINE_BYTES
    decreases |f.data| - off
  {
    hide ReadAt;
    if s.scanned <= q.budget {
      ReadIsCharged(q, f, newest, off, s);
      var r := ReadAt(q, f, newest, off, s);
      if r.flow == Continue {
        FileIsCharged(q, f, newest, NextOffset(f, off), r.scan);
      }
    }
  }

  lemma StartIsCharged(q: Query, f: Day, s: Scan)
    requires Accounted(s)
    ensures var t := StartOf(q, f, s).scan;
      && Accounted(t) && t.skippedBytes == s.skippedBytes
      && t.located <= s.located + LOCATE_BYTE_CAP && t.scanned <= s.scanned + 1
      && (!Resuming(q, f) ==> t == s)
  {
    hide Located;
  }

  lemma {:induction false} FilesAreCharged(q: Query, files: seq<Day>, s: Scan)
    requires Accounted(s) && s.scanned <= q.budget + MAX_LINE_BYTES
    requires forall i :: 0 <= i < |files| ==> !Resuming(q, files[i])
    ensures var t := ScanFiles(q, files, s);
      && Accounted(t) && t.located == s.located
      && t.scanned <= q.budget + MAX_LINE_BYTES
      && t.skippedBytes <= Max(s.skippedBytes, SKIP_BYTE_BUDGET) + |files| * MAX_LINE_BYTES
  {
    hide ScanFile;
    if files != [] {
      var f := files[0];
      FileIsCharged(q, f, |files| == 1, 0, s);
      var t := ScanOne(q, f, |files| == 1, s);
      assert t == ScanFile(q, f, |files| == 1, 0, s);
      if t.flow != Stop {
        FilesAreCharged(q, files[1..], t.scan);
      }
    }
  }

  /**
   One request reads at most the page budget, the skip budget, the locate budget and one
   maximal line per file and one more, whatever the files contain.
   */
  lemma PageReadsBounded(q: Query, listing: seq<Day>, memo: Memo)
    requires SortedDays(listing)
    ensures ReadPage(q, listing, memo).read
         <= q.budget + 2_097_152 + 2_097_152 + (|Files(q, listing)| + 1) * 1_048_576
  {
    hide ScanFile;
    hide StartOf;
    hide Files;
    var files, s := Files(q, listing), Fresh(q, memo);
    FilesKeep(q, listing);
    OnlyFirstResumes(q, files);
    if files != [] {
      var start := StartOf(q, files[0], s);
      StartIsCharged(q, files[0], s);
      FileIsCharged(q, files[0], |files| == 1, start.offset, start.scan);
      var t := ScanOne(q, files[0], |files| == 1, s);
      if t.flow != Stop {
        assert forall i :: 0 <= i < |files[1..]| ==> files[1..][i] == files[i + 1];
        FilesAreCharged(q, files[1..], t.scan);
      }
    }
  }
}
