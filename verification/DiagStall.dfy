/**
 When a page makes no progress. A page that is truncated before any row past its cursor was read
 hands back no cursor, and the caller who asks again gets the same page. Exactly when that
 happens is stated for arbitrary files: no order, no shape and no soundness is assumed.
 */
module DiagStall {
  import opened Wrappers
  import opened DayFile
  import opened Locator
  import opened PositionMemo
  import opened DiagScan
  import opened DiagTrace
  import opened DiagPaging
  import opened DiagFollow

  // ----- the bytes charged before the first row past the cursor -----

  /**
   A stretch of reads in one file that ends with a row past the cursor or with the file. `toll`
   is what the page budget was charged before the last of them; if `on`, the next file follows.
   */
  datatype Leg = Leg(toll: nat, on: bool, spent: nat, skipped: nat)

  function TollOfFile(q: Query, f: Day, newest: bool, off: nat, spent: nat, skipped: nat): Leg
    requires off <= |f.data|
    decreases |f.data| - off
  {
    var r := ReadingAt(q, f, off);
    match r.sort
    case Found => Leg(spent, false, spent + r.bytes, skipped)
    case Tail => Leg(spent, !newest, spent + r.bytes, skipped)
    case NoLine => Leg(spent, true, spent + r.bytes, skipped)
    case Charged => TollOfFile(q, f, newest, off + r.bytes, spent + r.bytes, skipped)
    case Skipped =>
      if skipped + r.bytes > SKIP_BYTE_BUDGET then Leg(spent, true, spent, skipped + r.bytes)
      else TollOfFile(q, f, newest, off + r.bytes, spent, skipped + r.bytes)
  }

  /** Where each file is entered, and the byte a remembered position costs. */
  function Probing(q: Query, f: Day, memo: Memo): nat {
    var remembered := Get(memo, Key(f.day, f.inode, q.after));
    if Resuming(q, f) && remembered.Some? && 0 < remembered.value <= |f.data| then 1 else 0
  }

  /** What the page budget is charged before the read that finds the first row past the cursor, or the end. */
  function Toll(q: Query, files: seq<Day>, memo: Memo, spent: nat, skipped: nat): nat {
    if files == [] then 0
    else
      var f := files[0];
      var leg := TollOfFile(q, f, |files| == 1, StartOf(q, f, Fresh(q, memo)).offset,
                            spent + Probing(q, f, memo), skipped);
      if leg.on && |files| > 1 then Toll(q, files[1..], memo, leg.spent, leg.skipped) else leg.toll
  }

  function PageToll(q: Query, listing: seq<Day>, memo: Memo): nat {
    Toll(q, Files(q, listing), memo, 0, 0)
  }

  // ----- the cursor never goes back -----

  lemma ReadLastGrows(q: Query, f: Day, newest: bool, off: nat, s: Scan)
    requires off <= |f.data|
    ensures ReadAt(q, f, newest, off, s).scan.lastId >= s.lastId
  {
    hide Put;
  }

  lemma {:induction false} FileLastGrows(q: Query, f: Day, newest: bool, off: nat, s: Scan)
    requires off <= |f.data|
    ensures ScanFile(q, f, newest, off, s).scan.lastId >= s.lastId
    decreases |f.data| - off
  {
    hide ReadAt;
    if s.scanned <= q.budget {
      ReadLastGrows(q, f, newest, off, s);
      var r := ReadAt(q, f, newest, off, s);
      if r.flow == Continue {
        FileLastGrows(q, f, newest, NextOffset(f, off), r.scan);
      }
    }
  }

  lemma {:induction false} FilesLastGrows(q: Query, files: seq<Day>, s: Scan)
    ensures ScanFiles(q, files, s).lastId >= s.lastId
    decreases files
  {
    hide ScanFile;
    hide Located;
    if files != [] {
      var start := StartOf(q, files[0], s);
      FileLastGrows(q, files[0], |files| == 1, start.offset, start.scan);
      var t := ScanOne(q, files[0], |files| == 1, s);
      if t.flow != Stop {
        FilesLastGrows(q, files[1..], t.scan);
      }
    }
  }

  // ----- the toll decides -----

  /** The scan has not moved its cursor and stands where `spent` and `skipped` say. */
  predicate Stands(q: Query, s: Scan, spent: nat, skipped: nat) {
    s.lastId == q.after && !s.truncated && s.scanned == spent && s.skippedBytes == skipped
  }

  predicate Stalled(q: Query, s: Scan) {
    s.truncated && s.lastId == q.after
  }

  /** One read: it advances, it ends the scan or the file, or it leads on with the stated charges. */
  lemma ReadFollows(q: Query, f: Day, newest: bool, off: nat, s: Scan, spent: nat, skipped: nat)
    requires off <= |f.data| && Stands(q, s, spent, skipped)
    ensures NextOffset(f, off) == off + ReadingAt(q, f, off).bytes
    ensures var r, c := ReadAt(q, f, newest, off, s), ReadingAt(q, f, off);
      match c.sort
      case Found => r.scan.lastId > q.after
      case Tail =>
        if newest then r.flow == Stop && !r.scan.truncated
        else r.flow == NextFile && Stands(q, r.scan, spent + c.bytes, skipped)
      case NoLine => r.flow == NextFile && Stands(q, r.scan, spent + c.bytes, skipped)
      case Charged => r.flow == Continue && Stands(q, r.scan, spent + c.bytes, skipped)
      case Skipped =>
        && Stands(q, r.scan, spent, skipped + c.bytes)
        && r.flow == if skipped + c.bytes > SKIP_BYTE_BUDGET then NextFile else Continue
  {
    hide Put;
  }

  /** What a file's leg says about the scan of that file. */
  ghost predicate LegHolds(q: Query, t: Turn, leg: Leg) {
    && (leg.toll > q.budget ==> Stalled(q, t.scan) && t.flow == Stop)
    && (leg.toll <= q.budget && leg.on ==> t.flow == NextFile && Stands(q, t.scan, leg.spent, leg.skipped))
    && (leg.toll <= q.budget && !leg.on ==> t.scan.lastId > q.after || (t.flow == Stop && !t.scan.truncated))
  }

  lemma {:induction false} TollOnlyGrows(q: Query, f: Day, newest: bool, off: nat, spent: nat, skipped: nat)
    requires off <= |f.data|
    ensures TollOfFile(q, f, newest, off, spent, skipped).toll >= spent
    decreases |f.data| - off
  {
    hide ReadingAt;
    var r := ReadingAt(q, f, off);
    if r.sort == Charged {
      TollOnlyGrows(q, f, newest, off + r.bytes, spent + r.bytes, skipped);
    } else if r.sort == Skipped && skipped + r.bytes <= SKIP_BYTE_BUDGET {
      TollOnlyGrows(q, f, newest, off + r.bytes, spent, skipped + r.bytes);
    }
  }

  /** Going on to further files only adds to the toll. */
  lemma {:induction false} TollOfRest(q: Query, files: seq<Day>, memo: Memo, spent: nat, skipped: nat)
    requires files != []
    ensures var f := files[0];
      Toll(q, files, memo, spent, skipped)
      >= TollOfFile(q, f, |files| == 1, StartOf(q, f, Fresh(q, memo)).offset, spent + Probing(q, f, memo), skipped).toll
    ensures Toll(q, files, memo, spent, skipped) >= spent
    decreases files
  {
    hide StartOf;
    hide TollOfFile;
    hide Probing;
    var f := files[0];
    var start := StartOf(q, f, Fresh(q, memo)).offset;
    var leg := TollOfFile(q, f, |files| == 1, start, spent + Probing(q, f, memo), skipped);
    TollOnlyGrows(q, f, |files| == 1, start, spent + Probing(q, f, memo), skipped);
    LegSpends(q, f, |files| == 1, start, spent + Probing(q, f, memo), skipped);
    if leg.on && |files| > 1 {
      TollOfRest(q, files[1..], memo, leg.spent, leg.skipped);
    }
  }

  lemma {:induction false} LegSpends(q: Query, f: Day, newest: bool, off: nat, spent: nat, skipped: nat)
    requires off <= |f.data|
    ensures var leg := TollOfFile(q, f, newest, off, spent, skipped); leg.spent >= leg.toll
    decreases |f.data| - off
  {
    hide ReadingAt;
    var r := ReadingAt(q, f, off);
    if r.sort == Charged {
      LegSpends(q, f, newest, off + r.bytes, spent + r.bytes, skipped);
    } else if r.sort == Skipped && skipped + r.bytes <= SKIP_BYTE_BUDGET {
      LegSpends(q, f, newest, off + r.bytes, spent, skipped + r.bytes);
    }
  }

  lemma {:induction false} FileFollows(q: Query, f: Day, newest: bool, off: nat, s: Scan, spent: nat, skipped: nat)
    requires off <= |f.data| && Stands(q, s, spent, skipped)
    ensures LegHolds(q, ScanFile(q, f, newest, off, s), TollOfFile(q, f, newest, off, spent, skipped))
    decreases |f.data| - off
  {
    hide ReadAt;
    hide ReadingAt;
    hide NextOffset;
    TollOnlyGrows(q, f, newest, off, spent, skipped);
    if s.scanned <= q.budget {
      var r, c := ReadAt(q, f, newest, off, s), ReadingAt(q, f, off);
      ReadFollows(q, f, newest, off, s, spent, skipped);
      if c.sort == Found {
        if r.flow == Continue {
          FileLastGrows(q, f, newest, NextOffset(f, off), r.scan);
        }
      } else if c.sort == Charged {
        FileFollows(q, f, newest, NextOffset(f, off), r.scan, spent + c.bytes, skipped);
      } else if r.flow == Continue {
        FileFollows(q, f, newest, NextOffset(f, off), r.scan, spent, skipped + c.bytes);
      }
    }
  }

  /** Entering a file costs the probe of a remembered position and nothing else. */
  lemma StartFollows(q: Query, f: Day, s: Scan, memo: Memo, spent: nat, skipped: nat)
    requires Stands(q, s, spent, skipped) && (Resuming(q, f) ==> s.memo == memo)
    ensures var start := StartOf(q, f, s);
      && start.offset == StartOf(q, f, Fresh(q, memo)).offset
      && Stands(q, start.scan, spent + Probing(q, f, memo), skipped)
  {
    hide Located;
  }

  lemma {:induction false} FilesFollow(q: Query, files: seq<Day>, s: Scan, memo: Memo, spent: nat, skipped: nat)
    requires Stands(q, s, spent, skipped)
    requires files != [] && Resuming(q, files[0]) ==> s.memo == memo
    requires forall i :: 1 <= i < |files| ==> !Resuming(q, files[i])
    ensures Stalled(q, ScanFiles(q, files, s)) <==> Toll(q, files, memo, spent, skipped) > q.budget
    decreases files
  {
    hide ScanFile;
    hide StartOf;
    hide TollOfFile;
    hide Probing;
    if files != [] {
      var f, newest := files[0], |files| == 1;
      var start := StartOf(q, f, s);
      StartFollows(q, f, s, memo, spent, skipped);
      FileFollows(q, f, newest, start.offset, start.scan, spent + Probing(q, f, memo), skipped);
      var leg := TollOfFile(q, f, newest, start.offset, spent + Probing(q, f, memo), skipped);
      var t := ScanOne(q, f, newest, s);
      TollOfRest(q, files, memo, spent, skipped);
      assert newest ==> files[1..] == [];
      if t.flow != Stop {
        FilesLastGrows(q, files[1..], t.scan);
        if leg.on && !newest {
          FilesFollow(q, files[1..], t.scan, memo, leg.spent, leg.skipped);
        }
      }
    }
  }

  /**
   A page is truncated without a cursor if and only if the bytes charged to the page budget before
   the first row past the cursor exceed that budget. The toll depends on the files, the cursor and
   the memo, not on the budget or the limit.
   */
  lemma StallsIff(q: Query, listing: seq<Day>, memo: Memo)
    requires SortedDays(listing)
    ensures var page := ReadPage(q, listing, memo);
      page.truncated && NextCursor(q, page) == None <==> PageToll(q, listing, memo) > q.budget
  {
    FilesKeep(q, listing);
    OnlyFirstResumes(q, Files(q, listing));
    FilesFollow(q, Files(q, listing), Fresh(q, memo), memo, 0, 0);
  }

  /** Such a page also serves nothing, so asking again brings nothing either. */
  lemma StalledServesNothing(q: Query, listing: seq<Day>, memo: Memo)
    requires SoundLog(q, listing) && MemoSound(q.parse, listing, memo)
    requires Bearable(q, listing, memo) && PageToll(q, listing, memo) > q.budget
    ensures ReadPage(q, listing, memo).items == []
  {
    hide ReadPage;
    hide SoundLog;
    hide MemoSound;
    var page := ReadPage(q, listing, memo);
    assert SortedDays(listing) by {
      SortedOf(q, listing);
    }
    StallsIff(q, listing, memo);
    PageIsExact(q, listing, memo);
    PickNone(Served(q, page.lastId), AllRows(q.parse, listing));
  }

  lemma SortedOf(q: Query, listing: seq<Day>)
    requires SoundLog(q, listing)
    ensures SortedDays(listing)
  {
  }

  /** For instance a first line of an ignored kind that is longer than the budget, whatever follows. */
  lemma IgnoredLineStalls(q: Query, listing: seq<Day>, memo: Memo, f: Day)
    requires SortedDays(listing) && Files(q, listing) != [] && f == Files(q, listing)[0] && !Resuming(q, f)
    requires WholeLineAt(f.data, 0) && q.budget < LineEnd(f.data, 0) <= MAX_LINE_BYTES
    requires var line := ParsedAt(q.parse, f.data, 0);
      line.Object? && line.ts.Some? && line.kind == Ignored
    ensures var page := ReadPage(q, listing, memo); page.truncated && NextCursor(q, page) == None
  {
    hide ReadPage;
    hide TollOfFile;
    hide LineEnd;
    var files := Files(q, listing);
    IgnoredLineIsCharged(q, f, |files| == 1);
    TollOfRest(q, files, memo, 0, 0);
    StallsIff(q, listing, memo);
  }

  lemma IgnoredLineIsCharged(q: Query, f: Day, newest: bool)
    requires WholeLineAt(f.data, 0) && LineEnd(f.data, 0) <= MAX_LINE_BYTES
    requires var line := ParsedAt(q.parse, f.data, 0);
      line.Object? && line.ts.Some? && line.kind == Ignored
    ensures TollOfFile(q, f, newest, 0, 0, 0).toll >= LineEnd(f.data, 0)
  {
    var n := LineEnd(f.data, 0);
    ReadWhole(f.data, 0, MAX_LINE_BYTES);
    assert ReadingAt(q, f, 0) == Reading(Charged, n);
    TollOnlyGrows(q, f, newest, n, n, 0);
  }

  // ----- a walk that never stalls loses nothing -----

  /** Every page of the walk is paid for by its budget, and reads nothing that makes it give up a file. */
  ghost predicate PaidWalk(q: Query, listing: seq<Day>, memos: seq<Memo>)
    decreases memos
  {
    memos != [] ==>
      && MemoSound(q.parse, listing, memos[0]) && Bearable(q, listing, memos[0])
      && PageToll(q, listing, memos[0]) <= q.budget
      && var next := NextCursor(q, ReadPage(q, listing, memos[0]));
         (next.Some? ==> PaidWalk(q.(after := next.value), listing, memos[1..]))
  }

  /**
   Losslessness without any assumption on the kind of lines: as long as no page's toll exceeds the
   budget and no file is given up, following `next` returns every wanted row once, in order.
   */
  lemma {:induction false} PaidWalkIsLossless(q: Query, listing: seq<Day>, memos: seq<Memo>)
    requires SoundLog(q, listing) && PaidWalk(q, listing, memos) && |memos| > |Ahead(q, listing)|
    ensures Follow(q, listing, memos) == Pick(Wants(q), AllRows(q.parse, listing))
    ensures Ends(q, listing, memos)
    decreases memos
  {
    hide ReadPage;
    hide Pick;
    hide SoundLog;
    hide MemoSound;
    hide PageToll;
    var page, rows := ReadPage(q, listing, memos[0]), AllRows(q.parse, listing);
    SortedOf(q, listing);
    StallsIff(q, listing, memos[0]);
    PageIsExact(q, listing, memos[0]);
    LogIncreases(q, listing);
    if page.truncated {
      var q' := q.(after := page.lastId);
      FewerAhead(rows, q.after, page.lastId);
      ServedThenWanted(q, page.lastId, rows);
      StillSound(q, listing, page.lastId);
      PaidWalkIsLossless(q', listing, memos[1..]);
    }
  }

  lemma StillSound(q: Query, listing: seq<Day>, last: Id)
    requires SoundLog(q, listing)
    ensures SoundLog(q.(after := last), listing)
  {
  }
}
