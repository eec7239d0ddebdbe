/**
 The reads of a request, one by one: what each is worth by its bytes and its parse alone, which
 day files are given up, and why a page is cut. Nothing is assumed of the files.
 */
module DiagTrace {
  import opened Wrappers
  import opened Numbers
  import opened DayFile
  import opened Locator
  import opened PositionMemo
  import opened DiagScan

  /** A line charged to the skip budget instead of the page budget. */
  predicate Unusable(row: Parsed) {
    row == Garbage || row.ts.None? || row.kind == NotText || (row.kind != Ignored && (row.id.None? || !row.shaped))
  }

  /**
   What one read comes to: a row past the cursor, wanted or not; a tail without newline; no line at
   all, at the end of the file or for its length; a line charged to the page budget; or one skipped.
   */
  datatype Sort = Found | Tail | NoLine | Charged | Skipped
  datatype Reading = Reading(sort: Sort, bytes: nat)

  function ReadingAt(q: Query, f: Day, off: nat): (r: Reading)
    requires off <= |f.data|
    ensures off + r.bytes <= |f.data|
    ensures r.sort == Charged || r.sort == Skipped ==> r.bytes > 0
  {
    var r := ReadLine(f.data, off, MAX_LINE_BYTES);
    var row := ParsedAt(q.parse, f.data, off);
    Reading(if r.kind == Partial then Tail
            else if r.kind != Line then NoLine
            else if Unusable(row) then Skipped
            else if row.kind == Record && IdOf(row) > q.after then Found
            else Charged,
            r.consumed)
  }

  predicate Oversized(f: Day, off: nat) {
    off <= |f.data| && ReadLine(f.data, off, MAX_LINE_BYTES).kind == Oversize
  }

  /** The row that a read adds to the page. */
  predicate Serves(q: Query, f: Day, off: nat)
    requires off <= |f.data|
  {
    && ReadingAt(q, f, off).sort == Found
    && q.since <= ParsedAt(q.parse, f.data, off).ts.value <= q.until
  }

  // ----- one read -----

  /** The bytes of a read are charged to the page budget, unless its line is unusable. */
  lemma ReadCharges(q: Query, f: Day, newest: bool, off: nat, s: Scan)
    requires off <= |f.data|
    ensures var r, c := ReadAt(q, f, newest, off, s).scan, ReadingAt(q, f, off);
      && r.scanned == s.scanned + (if c.sort == Skipped then 0 else c.bytes)
      && r.skippedBytes == s.skippedBytes + (if c.sort == Skipped then c.bytes else 0)
  {
    hide Put;
  }

  /** A day is given up by a line beyond the cap, or when the unusable lines come to more than 2 MiB. */
  lemma ReadGivesUp(q: Query, f: Day, newest: bool, off: nat, s: Scan, day: int)
    requires off <= |f.data|
    ensures var r, c := ReadAt(q, f, newest, off, s).scan, ReadingAt(q, f, off);
      day in r.corrupt <==>
        || day in s.corrupt
        || (day == f.day && (Oversized(f, off) || (c.sort == Skipped && s.skippedBytes + c.bytes > 2_097_152)))
  {
    hide Put;
  }

  /** A row past the cursor in the window is served, and nothing else. */
  lemma ReadServes(q: Query, f: Day, newest: bool, off: nat, s: Scan)
    requires off <= |f.data|
    ensures var r, row := ReadAt(q, f, newest, off, s).scan, ParsedAt(q.parse, f.data, off);
      && r.items == s.items + (if Serves(q, f, off) then [row] else [])
      && r.lastId == (if ReadingAt(q, f, off).sort == Found || (ReadingAt(q, f, off).sort == Charged && row.kind == Record)
                      then Max(s.lastId, IdOf(row)) else s.lastId)
  {
    hide Put;
  }

  /** Each read counts in at most one of the three reported counters. */
  lemma ReadCounts(q: Query, f: Day, newest: bool, off: nat, s: Scan)
    requires off <= |f.data|
    ensures var r, kind, row := ReadAt(q, f, newest, off, s).scan, ReadLine(f.data, off, MAX_LINE_BYTES).kind,
                                ParsedAt(q.parse, f.data, off);
      && r.unreadable == s.unreadable
           + (if (kind == Partial && !newest) || kind == Oversize
                 || (kind == Line && (row == Garbage || row.ts.None? || row.kind == NotText)) then 1 else 0)
      && r.skipped == s.skipped
           + (if kind == Line && row != Garbage && row.ts.Some? && row.kind == Ignored then 1 else 0)
      && r.unpageable == s.unpageable
           + (if kind == Line && row != Garbage && row.ts.Some? && row.kind == Record && (row.id.None? || !row.shaped)
              then 1 else 0)
  {
    hide Put;
  }

  /** The scan goes on after every line that fills no page and overflows no skip budget. */
  lemma ReadGoesOn(q: Query, f: Day, newest: bool, off: nat, s: Scan)
    requires off <= |f.data|
    ensures var r, c := ReadAt(q, f, newest, off, s), ReadingAt(q, f, off);
      && (r.flow == Stop <==> (c.sort == Tail && newest) || (Serves(q, f, off) && |s.items| + 1 >= q.limit))
      && (r.flow == NextFile <==> || c.sort == NoLine || (c.sort == Tail && !newest)
                                  || (c.sort == Skipped && s.skippedBytes + c.bytes > 2_097_152))
      && (r.scan.truncated <==> s.truncated || (Serves(q, f, off) && |s.items| + 1 >= q.limit))
  {
    hide Put;
  }

  // ----- the reads of a request -----

  datatype Visit = Visit(file: Day, off: nat)

  function ReadingOf(q: Query, v: Visit): Reading {
    if v.off <= |v.file.data| then ReadingAt(q, v.file, v.off) else Reading(NoLine, 0)
  }

  function VisitsOfFile(q: Query, f: Day, newest: bool, off: nat, s: Scan): seq<Visit>
    requires off <= |f.data|
    decreases |f.data| - off
  {
    if s.scanned > q.budget then []
    else
      var r := ReadAt(q, f, newest, off, s);
      [Visit(f, off)] + if r.flow == Continue then VisitsOfFile(q, f, newest, NextOffset(f, off), r.scan) else []
  }

  function VisitsOfFiles(q: Query, files: seq<Day>, s: Scan): seq<Visit> {
    if files == [] then []
    else
      var start, t := StartOf(q, files[0], s), ScanOne(q, files[0], |files| == 1, s);
      VisitsOfFile(q, files[0], |files| == 1, start.offset, start.scan)
      + if t.flow == Stop then [] else VisitsOfFiles(q, files[1..], t.scan)
  }

  /** Every place that a request reads a line from, in order. */
  function Visits(q: Query, listing: seq<Day>, memo: Memo): seq<Visit> {
    VisitsOfFiles(q, Files(q, listing), Fresh(q, memo))
  }

  /** The bytes of unusable lines among the reads. */
  function Waste(q: Query, vs: seq<Visit>): nat {
    if vs == [] then 0
    else (if ReadingOf(q, vs[0]).sort == Skipped then ReadingOf(q, vs[0]).bytes else 0) + Waste(q, vs[1..])
  }

  /** The bytes of all other reads. */
  function Charges(q: Query, vs: seq<Visit>): nat {
    if vs == [] then 0
    else (if ReadingOf(q, vs[0]).sort == Skipped then 0 else ReadingOf(q, vs[0]).bytes) + Charges(q, vs[1..])
  }

  /** The `i`-th read gives its file up, `before` bytes having been skipped before the first. */
  ghost predicate GivesUp(q: Query, vs: seq<Visit>, i: nat, before: nat)
    requires i < |vs|
  {
    || Oversized(vs[i].file, vs[i].off)
    || (ReadingOf(q, vs[i]).sort == Skipped && before + Waste(q, vs[..i + 1]) > 2_097_152)
  }

  ghost predicate GivenUp(q: Query, vs: seq<Visit>, before: nat, day: int) {
    exists i :: 0 <= i < |vs| && vs[i].file.day == day && GivesUp(q, vs, i, before)
  }

  lemma {:induction false} WasteConcat(q: Query, a: seq<Visit>, b: seq<Visit>)
    ensures Waste(q, a + b) == Waste(q, a) + Waste(q, b)
    ensures Charges(q, a + b) == Charges(q, a) + Charges(q, b)
  {
    hide ReadingOf;
    if a == [] {
      assert a + b == b;
    } else {
      assert (a + b)[1..] == a[1..] + b;
      WasteConcat(q, a[1..], b);
    }
  }

  lemma GivesUpLater(q: Query, a: seq<Visit>, b: seq<Visit>, i: nat, before: nat)
    requires i < |b|
    ensures (a + b)[|a| + i] == b[i] && (GivesUp(q, a + b, |a| + i, before) <==> GivesUp(q, b, i, before + Waste(q, a)))
  {
    hide ReadingOf;
    hide Oversized;
    hide Waste;
    assert (a + b)[..|a| + i + 1] == a + b[..i + 1];
    WasteConcat(q, a, b[..i + 1]);
  }

  lemma GivesUpEarlier(q: Query, a: seq<Visit>, b: seq<Visit>, i: nat, before: nat)
    requires i < |a|
    ensures (a + b)[i] == a[i] && (GivesUp(q, a + b, i, before) <==> GivesUp(q, a, i, before))
  {
    hide ReadingOf;
    hide Oversized;
    hide Waste;
    assert (a + b)[..i + 1] == a[..i + 1];
  }

  /** What is given up in two stretches of reads, the second beginning with the waste of the first. */
  lemma GivenUpConcat(q: Query, a: seq<Visit>, b: seq<Visit>, before: nat, day: int)
    ensures GivenUp(q, a + b, before, day) <==> GivenUp(q, a, before, day) || GivenUp(q, b, before + Waste(q, a), day)
  {
    hide GivesUp;
    hide Waste;
    if GivenUp(q, a + b, before, day) {
      var i :| 0 <= i < |a + b| && (a + b)[i].file.day == day && GivesUp(q, a + b, i, before);
      if i < |a| {
        GivesUpEarlier(q, a, b, i, before);
      } else {
        GivesUpLater(q, a, b, i - |a|, before);
      }
    }
    if GivenUp(q, b, before + Waste(q, a), day) {
      var i :| 0 <= i < |b| && b[i].file.day == day && GivesUp(q, b, i, before + Waste(q, a));
      GivesUpLater(q, a, b, i, before);
    }
    if GivenUp(q, a, before, day) {
      var i :| 0 <= i < |a| && a[i].file.day == day && GivesUp(q, a, i, before);
      GivesUpEarlier(q, a, b, i, before);
    }
  }

  lemma OneVisit(q: Query, f: Day, newest: bool, off: nat, s: Scan, day: int)
    requires off <= |f.data|
    ensures var r, one := ReadAt(q, f, newest, off, s).scan, [Visit(f, off)];
      && r.scanned == s.scanned + Charges(q, one) && r.skippedBytes == s.skippedBytes + Waste(q, one)
      && (day in r.corrupt <==> day in s.corrupt || GivenUp(q, one, s.skippedBytes, day))
  {
    hide ReadAt;
    hide ReadingAt;
    hide Oversized;
    var one := [Visit(f, off)];
    assert one[..1] == one && one[1..] == [];
    ReadCharges(q, f, newest, off, s);
    ReadGivesUp(q, f, newest, off, s, day);
    assert GivesUp(q, one, 0, s.skippedBytes) || !GivesUp(q, one, 0, s.skippedBytes);
  }

  /** The scan's accounts are the sums over its reads, and it gives up the days its reads give up. */
  ghost predicate Adds(q: Query, s: Scan, t: Scan, vs: seq<Visit>, day: int) {
    && t.scanned == s.scanned + Charges(q, vs) && t.skippedBytes == s.skippedBytes + Waste(q, vs)
    && (day in t.corrupt <==> day in s.corrupt || GivenUp(q, vs, s.skippedBytes, day))
  }

  lemma AddsBoth(q: Query, s: Scan, t: Scan, u: Scan, a: seq<Visit>, b: seq<Visit>, day: int)
    requires Adds(q, s, t, a, day) && Adds(q, t, u, b, day)
    ensures Adds(q, s, u, a + b, day)
  {
    hide Waste;
    hide Charges;
    hide GivenUp;
    WasteConcat(q, a, b);
    GivenUpConcat(q, a, b, s.skippedBytes, day);
  }

  lemma {:induction false} FileAdds(q: Query, f: Day, newest: bool, off: nat, s: Scan, day: int)
    requires off <= |f.data|
    ensures Adds(q, s, ScanFile(q, f, newest, off, s).scan, VisitsOfFile(q, f, newest, off, s), day)
    decreases |f.data| - off
  {
    hide ReadAt;
    hide Waste;
    hide Charges;
    if s.scanned > q.budget {
      NothingAdds(q, s, ScanFile(q, f, newest, off, s).scan, day);
    } else {
      hide GivenUp;
      OneVisit(q, f, newest, off, s, day);
      var r := ReadAt(q, f, newest, off, s);
      var one := [Visit(f, off)];
      if r.flow == Continue {
        var rest := VisitsOfFile(q, f, newest, NextOffset(f, off), r.scan);
        FileAdds(q, f, newest, NextOffset(f, off), r.scan, day);
        AddsBoth(q, s, r.scan, ScanFile(q, f, newest, off, s).scan, one, rest, day);
      } else {
        assert one + [] == one;
      }
    }
  }

  lemma NothingAdds(q: Query, s: Scan, t: Scan, day: int)
    requires t.scanned == s.scanned && t.skippedBytes == s.skippedBytes && t.corrupt == s.corrupt
    ensures Adds(q, s, t, [], day)
  {
  }

  lemma StartAdds(q: Query, f: Day, s: Scan)
    ensures var t := StartOf(q, f, s).scan;
      t.scanned >= s.scanned && t.skippedBytes == s.skippedBytes && t.corrupt == s.corrupt
  {
    hide Located;
  }

  /** The part of the accounts that decides which days are given up. */
  ghost predicate Tells(q: Query, s: Scan, t: Scan, vs: seq<Visit>, day: int) {
    && t.skippedBytes == s.skippedBytes + Waste(q, vs)
    && (day in t.corrupt <==> day in s.corrupt || GivenUp(q, vs, s.skippedBytes, day))
  }

  lemma TellsBoth(q: Query, s: Scan, t: Scan, u: Scan, a: seq<Visit>, b: seq<Visit>, day: int)
    requires Tells(q, s, t, a, day) && Tells(q, t, u, b, day)
    ensures Tells(q, s, u, a + b, day)
  {
    hide Waste;
    hide GivenUp;
    WasteConcat(q, a, b);
    GivenUpConcat(q, a, b, s.skippedBytes, day);
  }

  lemma TellsNothing(q: Query, s: Scan, day: int)
    ensures Tells(q, s, s, [], day)
  {
  }

  lemma OneFileTells(q: Query, f: Day, newest: bool, s: Scan, day: int)
    ensures var start := StartOf(q, f, s);
      Tells(q, s, ScanOne(q, f, newest, s).scan, VisitsOfFile(q, f, newest, start.offset, start.scan), day)
  {
    hide ScanFile;
    hide StartOf;
    hide VisitsOfFile;
    hide Waste;
    hide GivenUp;
    var start := StartOf(q, f, s);
    StartAdds(q, f, s);
    FileAdds(q, f, newest, start.offset, start.scan, day);
  }

  lemma {:induction false} FilesGiveUp(q: Query, files: seq<Day>, s: Scan, day: int)
    ensures Tells(q, s, ScanFiles(q, files, s), VisitsOfFiles(q, files, s), day)
    decreases files
  {
    hide ScanOne;
    hide StartOf;
    hide VisitsOfFile;
    hide Tells;
    if files == [] {
      TellsNothing(q, s, day);
    } else {
      var f, newest := files[0], |files| == 1;
      var start, t := StartOf(q, f, s), ScanOne(q, f, newest, s);
      var a := VisitsOfFile(q, f, newest, start.offset, start.scan);
      OneFileTells(q, f, newest, s, day);
      if t.flow == Stop {
        assert a + [] == a;
      } else {
        FilesGiveUp(q, files[1..], t.scan, day);
        TellsBoth(q, s, t.scan, ScanFiles(q, files, s), a, VisitsOfFiles(q, files[1..], t.scan), day);
      }
    }
  }

  /** No read of the request gives its file up. */
  ghost predicate Bearable(q: Query, listing: seq<Day>, memo: Memo) {
    var vs := Visits(q, listing, memo);
    forall i :: 0 <= i < |vs| ==> !GivesUp(q, vs, i, 0)
  }

  /**
   A day is given up if and only if the request reads a line beyond the cap in it, or an unusable
   line there with which the unusable lines read so far come to more than 2 MiB.
   */
  lemma CorruptIff(q: Query, listing: seq<Day>, memo: Memo, day: int)
    ensures day in ReadPage(q, listing, memo).corrupt <==> GivenUp(q, Visits(q, listing, memo), 0, day)
  {
    hide GivenUp;
    FilesGiveUp(q, Files(q, listing), Fresh(q, memo), day);
  }

  lemma NothingCorruptIff(q: Query, listing: seq<Day>, memo: Memo)
    ensures ReadPage(q, listing, memo).corrupt == [] <==> Bearable(q, listing, memo)
  {
    hide ReadPage;
    hide Visits;
    hide GivesUp;
    var vs, corrupt := Visits(q, listing, memo), ReadPage(q, listing, memo).corrupt;
    if corrupt != [] {
      CorruptIff(q, listing, memo, corrupt[0]);
    }
    if !Bearable(q, listing, memo) {
      var i :| 0 <= i < |vs| && GivesUp(q, vs, i, 0);
      CorruptIff(q, listing, memo, vs[i].file.day);
    }
  }

  // ----- why a page is cut -----

  /** The page is full, or more than its budget was charged. */
  predicate Cut(q: Query, s: Scan) {
    s.scanned > q.budget || (s.items != [] && |s.items| >= q.limit)
  }

  lemma {:induction false} FileCut(q: Query, f: Day, newest: bool, off: nat, s: Scan)
    requires off <= |f.data| && !s.truncated
    ensures var t := ScanFile(q, f, newest, off, s); t.scan.truncated ==> t.flow == Stop && Cut(q, t.scan)
    decreases |f.data| - off
  {
    hide ReadAt;
    if s.scanned <= q.budget {
      ReadGoesOn(q, f, newest, off, s);
      ReadServes(q, f, newest, off, s);
      var r := ReadAt(q, f, newest, off, s);
      if r.flow == Continue {
        FileCut(q, f, newest, NextOffset(f, off), r.scan);
      }
    }
  }

  lemma {:induction false} FilesCut(q: Query, files: seq<Day>, s: Scan)
    requires !s.truncated
    ensures var t := ScanFiles(q, files, s); t.truncated ==> Cut(q, t)
    decreases files
  {
    hide ScanFile;
    hide Located;
    if files != [] {
      var start := StartOf(q, files[0], s);
      FileCut(q, files[0], |files| == 1, start.offset, start.scan);
      var t := ScanOne(q, files[0], |files| == 1, s);
      if t.flow != Stop {
        FilesCut(q, files[1..], t.scan);
      }
    }
  }

  /** A page is truncated only if it is full or its budget is used up, whatever the files hold. */
  lemma TruncatedOnlyIf(q: Query, listing: seq<Day>, memo: Memo)
    requires ReadPage(q, listing, memo).truncated
    ensures Cut(q, ReadPage(q, listing, memo))
  {
    FilesCut(q, Files(q, listing), Fresh(q, memo));
  }
}
