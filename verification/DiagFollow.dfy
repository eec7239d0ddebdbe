/**
 Following the continuation from page to page: over files of record lines it reaches
 every wanted row exactly once, in order, and ends.
 */
module DiagFollow {
  import opened Wrappers
  import opened Numbers
  import opened DayFile
  import opened Locator
  import opened PositionMemo
  import opened DiagScan
  import opened DiagTrace
  import opened DiagPaging

  // ----- logs of record lines -----

  /** Every line is a record within the line cap; bytes after the last newline are few. */
  ghost predicate RecordLines(parse: Parser, data: Bytes) {
    && LinesFit(data) && |data| < 0x1_0000_0000_0000_0000
    && (forall p :: 0 <= p && WholeLineAt(data, p) ==> Pageable(ParsedAt(parse, data, p)))
    && (forall p :: 0 <= p && IsLineStart(data, p) && !Terminated(data, p)
                    ==> |data| - p < MAX_LINE_BYTES)
  }

  predicate EndsInNewline(f: Day) {
    IsLineStart(f.data, |f.data|)
  }

  /** Only the last file may end in a line that is still being written. */
  predicate CompleteButLast(files: seq<Day>) {
    forall i :: 0 <= i < |files| - 1 ==> EndsInNewline(files[i])
  }

  ghost predicate RecordLog(q: Query, listing: seq<Day>) {
    && SoundLog(q, listing)
    && (forall f :: f in listing ==> RecordLines(q.parse, f.data))
    && CompleteButLast(listing)
  }

  // ----- no file is abandoned -----

  lemma OverSoundLine(q: Query, f: Day, newest: bool, off: nat, s: Scan)
    requires RecordLines(q.parse, f.data) && off <= |f.data| && IsLineStart(f.data, off)
    ensures var r := ReadAt(q, f, newest, off, s);
      && r.scan.corrupt == s.corrupt && r.scan.skippedBytes == s.skippedBytes
      && (Terminated(f.data, off) ==>
            r.scan.lastId == Max(s.lastId, IdOf(ParsedAt(q.parse, f.data, off))))
      && (r.flow == Continue ==> IsLineStart(f.data, NextOffset(f, off)))
  {
    hide Put;
    if Terminated(f.data, off) {
      assert LineEnd(f.data, off) - off <= MAX_LINE_BYTES;
      ReadWhole(f.data, off, MAX_LINE_BYTES);
    }
  }

  lemma {:induction false} FromTopStaysSound(q: Query, f: Day, newest: bool, off: nat, s: Scan)
    requires RecordLines(q.parse, f.data) && off <= |f.data| && IsLineStart(f.data, off)
    ensures var t := ScanFile(q, f, newest, off, s).scan;
      t.corrupt == s.corrupt && t.skippedBytes == s.skippedBytes && t.lastId >= s.lastId
    decreases |f.data| - off
  {
    hide RecordLines;
    hide ReadAt;
    if s.scanned <= q.budget {
      OverSoundLine(q, f, newest, off, s);
      ReadAtTakes(q, f, newest, off, s);
      var r := ReadAt(q, f, newest, off, s);
      if r.flow == Continue {
        FromTopStaysSound(q, f, newest, NextOffset(f, off), r.scan);
      }
    }
  }

  /** A read that starts inside a line passes its tail at no cost to the page budget. */
  lemma OverSuffix(q: Query, f: Day, newest: bool, off: nat, s: Scan)
    requires RecordLines(q.parse, f.data) && NoRowInsideLine(q.parse, f.data)
    requires off <= |f.data| && !IsLineStart(f.data, off) && s.skippedBytes == 0
    ensures var r := ReadAt(q, f, newest, off, s);
      && r.scan.corrupt == s.corrupt && r.scan.lastId == s.lastId && r.scan.truncated == s.truncated
      && (Terminated(f.data, off) ==>
            && r.flow == Continue && r.scan.scanned == s.scanned
            && NextOffset(f, off) == LineEnd(f.data, off) && IsLineStart(f.data, LineEnd(f.data, off)))
      && (!Terminated(f.data, off) ==> r.flow != Continue)
  {
    hide Put;
    if off < |f.data| {
      InsideLine(q.parse, f.data, off);
    }
  }

  /** Inside a line of a record file: the tail is short and parses to nothing. */
  lemma InsideLine(parse: Parser, data: Bytes, off: nat)
    requires RecordLines(parse, data) && NoRowInsideLine(parse, data)
    requires off < |data| && !IsLineStart(data, off)
    ensures LineEnd(data, off) - off < MAX_LINE_BYTES
    ensures Terminated(data, off) ==> ParsedAt(parse, data, off) == Garbage
  {
    var b := LineBefore(data, off);
    SameLineEnd(data, b, off);
    if Terminated(data, off) {
      assert WholeLineAt(data, b);
    }
  }

  // ----- the first row read is past the cursor -----

  /** Every whole line from `off` on is past the cursor. */
  ghost predicate AllBeyond(q: Query, f: Day, off: nat) {
    forall p :: off <= p && WholeLineAt(f.data, p) ==> IdOf(ParsedAt(q.parse, f.data, p)) > q.after
  }

  /** The scan moved the cursor, or came to the end of the file for free. */
  ghost predicate Moved(q: Query, s: Scan, t: Turn, newest: bool) {
    || t.scan.lastId > q.after
    || (!t.scan.truncated && (t.flow == NextFile && !newest ==> t.scan.scanned == s.scanned))
  }

  lemma TopMoves(q: Query, f: Day, newest: bool, off: nat, s: Scan)
    requires RecordLines(q.parse, f.data) && AllBeyond(q, f, off)
    requires newest || EndsInNewline(f)
    requires IsLineStart(f.data, off) && s.scanned <= q.budget && !s.truncated
    ensures Moved(q, s, ScanFile(q, f, newest, off, s), newest)
  {
    hide RecordLines;
    hide ReadAt;
    var r := ReadAt(q, f, newest, off, s);
    OverSoundLine(q, f, newest, off, s);
    if Terminated(f.data, off) {
      assert r.scan.lastId > q.after;
      if r.flow == Continue {
        FromTopStaysSound(q, f, newest, NextOffset(f, off), r.scan);
      }
    } else {
      NoLineLeft(q, f, newest, off, s);
    }
  }

  lemma NoLineLeft(q: Query, f: Day, newest: bool, off: nat, s: Scan)
    requires off <= |f.data| && !Terminated(f.data, off) && !s.truncated
    requires newest || EndsInNewline(f)
    ensures var r := ReadAt(q, f, newest, off, s);
      && r.flow != Continue && !r.scan.truncated
      && (!newest ==> r.scan.scanned == s.scanned)
  {
    if off < |f.data| {
      assert LineEnd(f.data, off) == |f.data|;
    }
  }

  lemma ResumeMoves(q: Query, f: Day, newest: bool, off: nat, s: Scan)
    requires RecordLines(q.parse, f.data) && NoRowInsideLine(q.parse, f.data) && AllBeyond(q, f, off)
    requires newest || EndsInNewline(f)
    requires off <= |f.data| && s.scanned <= q.budget && !s.truncated && s.skippedBytes == 0
    ensures Moved(q, s, ScanFile(q, f, newest, off, s), newest)
    ensures ScanFile(q, f, newest, off, s).scan.corrupt == s.corrupt
  {
    hide RecordLines;
    hide NoRowInsideLine;
    hide ReadAt;
    if IsLineStart(f.data, off) {
      TopMoves(q, f, newest, off, s);
      FromTopStaysSound(q, f, newest, off, s);
    } else {
      var r := ReadAt(q, f, newest, off, s);
      OverSuffix(q, f, newest, off, s);
      if Terminated(f.data, off) {
        TopMoves(q, f, newest, NextOffset(f, off), r.scan);
        FromTopStaysSound(q, f, newest, NextOffset(f, off), r.scan);
      } else {
        NoLineLeft(q, f, newest, off, s);
      }
    }
  }

  // ----- where the scan of a file may start -----

  /** The resume point was remembered, or found by a search that was not cut off. */
  ghost predicate NotCutOff(q: Query, f: Day, memo: Memo) {
    || Get(memo, Key(f.day, f.inode, q.after)).Some?
    || Located(q.parse, f.data, q.after).located < LOCATE_BYTE_CAP
  }

  lemma {:induction false} FindFirstBeyond(parse: Parser, data: Bytes, after: Id, from: nat) returns (t: nat)
    requires NothingSkipped(parse, data, after, from) && IsLineStart(data, from)
    requires AllLinesHaveIds(parse, data)
    ensures FirstBeyond(parse, data, after, t)
    decreases |data| - from
  {
    if !Terminated(data, from) {
      t := |data|;
      forall p | from <= p < |data| && WholeLineAt(data, p) ensures false {
        if from < p {
          NoStartInside(data, from, p);
        }
      }
    } else if ParsedAt(parse, data, from).id.value > after {
      t := from;
    } else {
      var e := LineEnd(data, from);
      forall p | from < p < e ensures !WholeLineAt(data, p) {
        NoStartInside(data, from, p);
      }
      t := FindFirstBeyond(parse, data, after, e);
    }
  }

  lemma SearchStartsBeyond(q: Query, f: Day)
    requires SoundFile(q.parse, q.dayOf, f) && RecordLines(q.parse, f.data)
    requires Located(q.parse, f.data, q.after).located < LOCATE_BYTE_CAP
    ensures AllBeyond(q, f, Located(q.parse, f.data, q.after).offset)
  {
    hide Located;
    assert AllLinesHaveIds(q.parse, f.data);
    var t := FindFirstBeyond(q.parse, f.data, q.after, 0);
    LocateIsExact(q.parse, f.data, q.after, t);
    forall p | Located(q.parse, f.data, q.after).offset <= p && WholeLineAt(f.data, p)
      ensures IdOf(ParsedAt(q.parse, f.data, p)) > q.after
    {
      assert t <= p;
    }
  }

  lemma HitStartsBeyond(q: Query, f: Day, p: nat)
    requires SoundFile(q.parse, q.dayOf, f) && RecordLines(q.parse, f.data)
    requires WholeLineAt(f.data, p) && IdOf(ParsedAt(q.parse, f.data, p)) == q.after
    ensures AllBeyond(q, f, LineEnd(f.data, p))
  {
    forall p' | LineEnd(f.data, p) <= p' && WholeLineAt(f.data, p')
      ensures IdOf(ParsedAt(q.parse, f.data, p')) > q.after
    {
      StrictlyLater(q.parse, f.data, p, p');
    }
  }

  lemma TopIsBeyond(q: Query, f: Day)
    requires SoundFile(q.parse, q.dayOf, f) && RecordLines(q.parse, f.data) && DaysOrderIds(q.dayOf)
    requires Selected(q, f) && !Resuming(q, f)
    requires q.after == NO_ID || q.dayOf(q.after).Some?
    ensures AllBeyond(q, f, 0)
  {
    forall p | 0 <= p && WholeLineAt(f.data, p) ensures IdOf(ParsedAt(q.parse, f.data, p)) > q.after {
      assert Stamped(q.dayOf, f.day, ParsedAt(q.parse, f.data, p));
    }
  }

  lemma StartIsBeyond(q: Query, listing: seq<Day>, f: Day, s: Scan)
    requires RecordLog(q, listing) && f in listing && MemoSound(q.parse, listing, s.memo)
    requires Selected(q, f) && (q.after == NO_ID || q.dayOf(q.after).Some?)
    requires Resuming(q, f) ==> NotCutOff(q, f, s.memo)
    ensures AllBeyond(q, f, StartOf(q, f, s).offset)
  {
    hide Located;
    hide AllBeyond;
    hide SoundFile;
    hide RecordLines;
    if !Resuming(q, f) {
      TopIsBeyond(q, f);
    } else {
      var r := Get(s.memo, Key(f.day, f.inode, q.after));
      if r.Some? {
        assert EntryAt(q.parse, f, Entry(Key(f.day, f.inode, q.after), r.value));
        var p :| 0 <= p && WholeLineAt(f.data, p) && Pageable(ParsedAt(q.parse, f.data, p))
          && IdOf(ParsedAt(q.parse, f.data, p)) == q.after && LineEnd(f.data, p) == r.value;
        HitStartsBeyond(q, f, p);
      } else {
        SearchStartsBeyond(q, f);
      }
    }
  }

  // ----- a truncated page has moved the cursor -----

  /** Files the request reads from the top, complete except perhaps the last. */
  ghost predicate FromTop(q: Query, listing: seq<Day>, files: seq<Day>) {
    && (forall f :: f in files ==> f in listing && Selected(q, f) && !Resuming(q, f))
    && CompleteButLast(files)
  }

  lemma FromTopRest(q: Query, listing: seq<Day>, files: seq<Day>)
    requires files != [] && FromTop(q, listing, files)
    ensures FromTop(q, listing, files[1..])
  {
    assert forall i :: 0 <= i < |files[1..]| ==> files[1..][i] == files[i + 1];
  }

  /** Either the cursor has moved, or nothing has been charged to the page budget. */
  predicate Underway(q: Query, s: Scan) {
    s.lastId > q.after || s.scanned <= q.budget
  }

  lemma {:induction false} FilesMove(q: Query, listing: seq<Day>, files: seq<Day>, s: Scan)
    requires RecordLog(q, listing) && FromTop(q, listing, files)
    requires q.after == NO_ID || q.dayOf(q.after).Some?
    requires !s.truncated && s.lastId >= q.after && (files == [] || Underway(q, s))
    ensures var t := ScanFiles(q, files, s);
      t.corrupt == s.corrupt && t.lastId >= s.lastId && (t.truncated ==> t.lastId > q.after)
    decreases files
  {
    hide ScanFile;
    hide SoundFile;
    hide RecordLines;
    hide Moved;
    hide AllBeyond;
    if files != [] {
      var f, newest := files[0], |files| == 1;
      assert f in listing;
      TopIsBeyond(q, f);
      FromTopStaysSound(q, f, newest, 0, s);
      StopsEarlyOnlyInNewest(q, f, newest, 0, s);
      var t := ScanOne(q, f, newest, s);
      assert t == ScanFile(q, f, newest, 0, s);
      if s.scanned <= q.budget {
        TopMoves(q, f, newest, 0, s);
        MovedIsUnderway(q, s, t, newest);
      }
      if t.flow != Stop && !newest {
        FromTopRest(q, listing, files);
        FilesMove(q, listing, files[1..], t.scan);
      }
    }
  }

  lemma MovedIsUnderway(q: Query, s: Scan, t: Turn, newest: bool)
    requires Moved(q, s, t, newest) && s.scanned <= q.budget
    ensures t.scan.truncated ==> t.scan.lastId > q.after
    ensures t.flow == NextFile && !newest ==> Underway(q, t.scan)
  {
  }

  lemma FilesAreComplete(q: Query, listing: seq<Day>)
    requires RecordLog(q, listing)
    ensures CompleteButLast(Files(q, listing))
  {
    var files := Files(q, listing);
    FilesKeep(q, listing);
    forall i | 0 <= i < |files| - 1 ensures EndsInNewline(files[i]) {
      assert files[i] in listing && files[i + 1] in listing;
      var j :| 0 <= j < |listing| && listing[j] == files[i];
      var k :| 0 <= k < |listing| && listing[k] == files[i + 1];
      assert files[i].day < files[i + 1].day;
    }
  }

  /** The resuming file of the request, if there is one, starts where nothing was cut off. */
  ghost predicate Smooth(q: Query, listing: seq<Day>, memo: Memo) {
    && MemoSound(q.parse, listing, memo)
    && forall f :: f in listing && Resuming(q, f) ==> NotCutOff(q, f, memo)
  }

  /** With a budget of at least one byte, a truncated page always hands back a later cursor, the id of a row. */
  lemma PageMoves(q: Query, listing: seq<Day>, memo: Memo)
    requires RecordLog(q, listing) && Smooth(q, listing, memo) && q.budget >= 1
    requires q.after == NO_ID || q.dayOf(q.after).Some?
    ensures var page := ReadPage(q, listing, memo);
      && page.corrupt == []
      && (page.truncated ==>
            page.lastId > q.after && exists r :: r in AllRows(q.parse, listing) && IdOf(r) == page.lastId)
  {
    hide ReadPage;
    hide RecordLog;
    hide Smooth;
    hide SoundLog;
    hide MemoSound;
    PageAdvances(q, listing, memo);
    NothingCorruptIff(q, listing, memo);
    SoundOf(q, listing, memo);
    PageIsExact(q, listing, memo);
  }

  lemma PageAdvances(q: Query, listing: seq<Day>, memo: Memo)
    requires RecordLog(q, listing) && Smooth(q, listing, memo) && q.budget >= 1
    requires q.after == NO_ID || q.dayOf(q.after).Some?
    ensures var page := ReadPage(q, listing, memo);
      page.corrupt == [] && (page.truncated ==> page.lastId > q.after)
  {
    hide ScanOne;
    hide RecordLog;
    hide Smooth;
    hide FromTop;
    var files, s := Files(q, listing), Fresh(q, memo);
    SelectedFiles(q, listing);
    if files != [] {
      var f, newest := files[0], |files| == 1;
      var t := ScanOne(q, f, newest, s);
      FirstFileMoves(q, listing, f, newest, memo);
      if t.flow != Stop {
        if newest {
          assert files[1..] == [];
        }
        FilesMove(q, listing, files[1..], t.scan);
      }
    }
  }

  lemma RestFromTop(q: Query, listing: seq<Day>, files: seq<Day>)
    requires files != [] && CompleteButLast(files)
    requires forall f :: f in files ==> f in listing && Selected(q, f)
    requires forall i :: 1 <= i < |files| ==> !Resuming(q, files[i])
    ensures FromTop(q, listing, files[1..]) && (|files| == 1 || EndsInNewline(files[0]))
  {
    hide EndsInNewline;
    hide Selected;
    hide Resuming;
    assert forall i :: 0 <= i < |files[1..]| ==> files[1..][i] == files[i + 1];
  }

  lemma SelectedFiles(q: Query, listing: seq<Day>)
    requires RecordLog(q, listing)
    ensures var files := Files(q, listing);
      files != [] ==>
        && files[0] in listing && Selected(q, files[0])
        && (|files| == 1 || EndsInNewline(files[0]))
        && FromTop(q, listing, files[1..])
  {
    hide RecordLines;
    hide SoundFile;
    hide CompleteButLast;
    hide FromTop;
    hide Files;
    hide Selected;
    var files := Files(q, listing);
    FilesKeep(q, listing);
    FilesAreComplete(q, listing);
    OnlyFirstResumes(q, files);
    if files != [] {
      RestFromTop(q, listing, files);
    }
  }

  lemma FirstFileMoves(q: Query, listing: seq<Day>, f: Day, newest: bool, memo: Memo)
    requires RecordLog(q, listing) && Smooth(q, listing, memo) && q.budget >= 1
    requires q.after == NO_ID || q.dayOf(q.after).Some?
    requires f in listing && Selected(q, f) && (newest || EndsInNewline(f))
    ensures var t := ScanOne(q, f, newest, Fresh(q, memo));
      && t.scan.corrupt == [] && t.scan.lastId >= q.after
      && (t.scan.truncated ==> t.scan.lastId > q.after)
      && (t.flow == NextFile ==> !t.scan.truncated && (newest || Underway(q, t.scan)))
  {
    hide ScanFile;
    hide StartOf;
    hide RecordLines;
    hide AllBeyond;
    hide Moved;
    hide Took;
    hide IdsInOrder;
    hide StrictIds;
    hide NoRowInsideLine;
    var s := Fresh(q, memo);
    var start := StartOf(q, f, s);
    StartIsBeyond(q, listing, f, s);
    StartIsCharged(q, f, s);
    StartTakesNothing(q, f, s);
    assert SoundFile(q.parse, q.dayOf, f) && RecordLines(q.parse, f.data);
    FromStartMoves(q, f, newest, start.offset, start.scan);
  }

  lemma FromStartMoves(q: Query, f: Day, newest: bool, off: nat, s: Scan)
    requires RecordLines(q.parse, f.data) && NoRowInsideLine(q.parse, f.data) && AllBeyond(q, f, off)
    requires newest || EndsInNewline(f)
    requires off <= |f.data| && s.scanned <= q.budget && !s.truncated && s.skippedBytes == 0
    ensures var t := ScanFile(q, f, newest, off, s);
      && t.scan.corrupt == s.corrupt && t.scan.lastId >= s.lastId
      && (t.scan.truncated ==> t.scan.lastId > q.after)
      && (t.flow == NextFile ==> !t.scan.truncated && (newest || Underway(q, t.scan)))
  {
    hide ScanFile;
    hide RecordLines;
    hide AllBeyond;
    hide Moved;
    hide NoRowInsideLine;
    ResumeMoves(q, f, newest, off, s);
    StopsEarlyOnlyInNewest(q, f, newest, off, s);
    var taken := ScanFileTakes(q, f, newest, off, s);
    MovedIsUnderway(q, s, ScanFile(q, f, newest, off, s), newest);
  }

  // ----- following the continuation -----

  /** All rows a caller receives who follows `next`, one memo per page. */
  function Follow(q: Query, listing: seq<Day>, memos: seq<Memo>): seq<Parsed>
    decreases memos
  {
    if memos == [] then []
    else
      var page := ReadPage(q, listing, memos[0]);
      var next := NextCursor(q, page);
      if next.None? then page.items
      else page.items + Follow(q.(after := next.value), listing, memos[1..])
  }

  /** The walk comes to a page that hands back no cursor. */
  predicate Ends(q: Query, listing: seq<Day>, memos: seq<Memo>)
    decreases memos
  {
    && memos != []
    && var next := NextCursor(q, ReadPage(q, listing, memos[0]));
       (next.Some? ==> Ends(q.(after := next.value), listing, memos[1..]))
  }

  /** Every page of the walk starts smoothly. */
  ghost predicate SmoothWalk(q: Query, listing: seq<Day>, memos: seq<Memo>)
    decreases memos
  {
    memos != [] ==>
      && Smooth(q, listing, memos[0])
      && var next := NextCursor(q, ReadPage(q, listing, memos[0]));
         (next.Some? ==> SmoothWalk(q.(after := next.value), listing, memos[1..]))
  }

  ghost function Past(after: Id): Parsed -> bool {
    row => IdOf(row) > after
  }

  /** The rows still ahead of a cursor. */
  ghost function Ahead(q: Query, listing: seq<Day>): seq<Parsed> {
    Pick(Past(q.after), AllRows(q.parse, listing))
  }

  lemma {:induction false} FewerAhead(rows: seq<Parsed>, after: Id, later: Id)
    requires after < later
    ensures |Pick(Past(later), rows)| <= |Pick(Past(after), rows)|
    ensures (exists r :: r in rows && IdOf(r) == later)
            ==> |Pick(Past(later), rows)| < |Pick(Past(after), rows)|
  {
    if rows != [] {
      FewerAhead(rows[1..], after, later);
      assert forall r :: r in rows <==> r == rows[0] || r in rows[1..];
    }
  }

  lemma {:induction false} PickIncreases(want: Parsed -> bool, rows: seq<Parsed>)
    requires Increasing(rows)
    ensures Increasing(Pick(want, rows))
    ensures forall r :: r in Pick(want, rows) ==> r in rows
  {
    if rows != [] {
      IncreasingParts(rows[..1], rows[1..]);
      assert rows == rows[..1] + rows[1..];
      PickIncreases(want, rows[1..]);
    }
  }

  /**
   Paging is lossless: following `next` returns every wanted row exactly once, in id order,
   in at most one page more than there are rows ahead of the cursor, for every page limit,
   every byte budget of at least one and every choice of sound memos.
   */
  lemma {:induction false} PagingIsLossless(q: Query, listing: seq<Day>, memos: seq<Memo>)
    requires RecordLog(q, listing) && q.budget >= 1
    requires q.after == NO_ID || q.dayOf(q.after).Some?
    requires SmoothWalk(q, listing, memos) && |memos| > |Ahead(q, listing)|
    ensures Follow(q, listing, memos) == Pick(Wants(q), AllRows(q.parse, listing))
    ensures Increasing(Follow(q, listing, memos))
    ensures Ends(q, listing, memos)
    decreases memos
  {
    hide ReadPage;
    hide Pick;
    hide Smooth;
    hide RecordLog;
    var page, rows := ReadPage(q, listing, memos[0]), AllRows(q.parse, listing);
    SoundOf(q, listing, memos[0]);
    PageMoves(q, listing, memos[0]);
    NothingCorruptIff(q, listing, memos[0]);
    PageIsExact(q, listing, memos[0]);
    LogIncreases(q, listing);
    PickIncreases(Wants(q), rows);
    if page.truncated {
      var q' := q.(after := page.lastId);
      FewerAhead(rows, q.after, page.lastId);
      ServedThenWanted(q, page.lastId, rows);
      NextStillSound(q, listing, page.lastId);
      PagingIsLossless(q', listing, memos[1..]);
    }
  }

  // ----- what a follower gets, said of the files alone -----

  lemma {:induction false} LineHasRow(parse: Parser, data: Bytes, from: nat, p: nat)
    requires IsLineStart(data, from) && from <= p && WholeLineAt(data, p) && Pageable(ParsedAt(parse, data, p))
    ensures ParsedAt(parse, data, p) in RowsFrom(parse, data, from)
    decreases |data| - from
  {
    if from < p {
      var e := LineEnd(data, from);
      if p < e {
        NoStartInside(data, from, p);
      }
      LineHasRow(parse, data, e, p);
    }
  }

  lemma {:induction false} FileHasRow(parse: Parser, files: seq<Day>, f: Day, r: Parsed)
    requires f in files && r in RowsFrom(parse, f.data, 0)
    ensures r in AllRows(parse, files)
  {
    if files[0] != f {
      FileHasRow(parse, files[1..], f, r);
    }
  }

  lemma {:induction false} PickIff(want: Parsed -> bool, rows: seq<Parsed>, r: Parsed)
    ensures r in Pick(want, rows) <==> r in rows && want(r)
  {
    if rows != [] {
      PickIff(want, rows[1..], r);
      assert r in rows <==> r == rows[0] || r in rows[1..];
    }
  }

  /** The row stands on a whole line of a file, is a record with a time and a well-formed id, in the window, past the cursor. */
  ghost predicate DueIn(q: Query, f: Day, p: nat, r: Parsed) {
    && WholeLineAt(f.data, p) && q.parse(f.data[p..LineEnd(f.data, p)]) == r
    && r.Object? && r.kind == Record && r.shaped && r.id.Some? && r.ts.Some?
    && q.since <= r.ts.value <= q.until && r.id.value > q.after
  }

  /** Following `next` yields a row if and only if it stands on a line of some file and is due. */
  lemma FollowedIff(q: Query, listing: seq<Day>, memos: seq<Memo>, r: Parsed)
    requires RecordLog(q, listing) && q.budget >= 1
    requires q.after == NO_ID || q.dayOf(q.after).Some?
    requires SmoothWalk(q, listing, memos) && |memos| > |Ahead(q, listing)|
    ensures r in Follow(q, listing, memos) <==> exists f, p :: f in listing && 0 <= p && DueIn(q, f, p, r)
  {
    hide RecordLog;
    hide SmoothWalk;
    hide Follow;
    hide Ahead;
    PagingIsLossless(q, listing, memos);
    PickIff(Wants(q), AllRows(q.parse, listing), r);
    if r in Follow(q, listing, memos) {
      var f := RowHasFile(q.parse, listing, r);
      var p := RowHasLine(q.parse, f.data, 0, r);
      assert DueIn(q, f, p, r);
    }
    if f, p :| f in listing && 0 <= p && DueIn(q, f, p, r) {
      LineHasRow(q.parse, f.data, 0, p);
      FileHasRow(q.parse, listing, f, r);
    }
  }

  lemma SoundOf(q: Query, listing: seq<Day>, memo: Memo)
    requires RecordLog(q, listing) && Smooth(q, listing, memo)
    ensures SoundLog(q, listing) && MemoSound(q.parse, listing, memo)
  {
  }

  lemma NextStillSound(q: Query, listing: seq<Day>, last: Id)
    requires RecordLog(q, listing)
    requires exists r :: r in AllRows(q.parse, listing) && IdOf(r) == last
    ensures RecordLog(q.(after := last), listing) && q.dayOf(last).Some?
  {
    hide RecordLines;
    var r :| r in AllRows(q.parse, listing) && IdOf(r) == last;
    var f := RowHasFile(q.parse, listing, r);
    RowIsStamped(q, f, r);
  }

  // ----- a lone follower needs no search -----

  /** The cursor has not moved, or the memo knows where the row with its id ends. */
  ghost predicate Remembered(q: Query, listing: seq<Day>, s: Scan, day: int) {
    || s.lastId == q.after
    || (exists f :: f in listing && f.day <= day && q.dayOf(s.lastId) == Some(f.day)
                    && Get(s.memo, Key(f.day, f.inode, s.lastId)).Some?)
  }

  /** Every whole line from `off` on is past the cursor of the scan. */
  ghost predicate AllNew(q: Query, f: Day, off: nat, last: Id) {
    forall p :: off <= p && WholeLineAt(f.data, p) ==> IdOf(ParsedAt(q.parse, f.data, p)) > last
  }

  /** Reading a record moves the cursor to it and puts its end in the memo. */
  lemma OverRecord(q: Query, f: Day, newest: bool, off: nat, s: Scan)
    requires RecordLines(q.parse, f.data) && WholeLineAt(f.data, off)
    requires IdOf(ParsedAt(q.parse, f.data, off)) > s.lastId
    ensures var r, id := ReadAt(q, f, newest, off, s), IdOf(ParsedAt(q.parse, f.data, off));
      && r.scan.lastId == id && r.scan.memo == Put(s.memo, Key(f.day, f.inode, id), LineEnd(f.data, off))
      && NextOffset(f, off) == LineEnd(f.data, off)
  {
    hide Put;
    hide LineEnd;
    assert LineEnd(f.data, off) - off <= MAX_LINE_BYTES;
    ReadWhole(f.data, off, MAX_LINE_BYTES);
  }

  /** Without a whole line there, a read changes neither cursor nor memo, and does not go on. */
  lemma OverNoLine(q: Query, f: Day, newest: bool, off: nat, s: Scan)
    requires off <= |f.data| && !Terminated(f.data, off)
    ensures var r := ReadAt(q, f, newest, off, s);
      r.scan.lastId == s.lastId && r.scan.memo == s.memo && r.flow != Continue
  {
  }

  lemma ReadRemembers(q: Query, listing: seq<Day>, f: Day, newest: bool, off: nat, s: Scan)
    requires RecordLines(q.parse, f.data) && SoundFile(q.parse, q.dayOf, f) && f in listing
    requires IsLineStart(f.data, off) && AllNew(q, f, off, s.lastId) && Remembered(q, listing, s, f.day)
    ensures var r := ReadAt(q, f, newest, off, s);
      && Remembered(q, listing, r.scan, f.day)
      && (r.flow == Continue ==> IsLineStart(f.data, NextOffset(f, off)) && AllNew(q, f, NextOffset(f, off), r.scan.lastId))
  {
    hide Put;
    hide LineEnd;
    hide ReadAt;
    hide NextOffset;
    hide RecordLines;
    hide IdsInOrder;
    hide NoRowInsideLine;
    if !Terminated(f.data, off) {
      OverNoLine(q, f, newest, off, s);
    } else {
      var row, end := ParsedAt(q.parse, f.data, off), LineEnd(f.data, off);
      OverRecord(q, f, newest, off, s);
      RowOfLine(q, f, off);
      PutThenGet(s.memo, Key(f.day, f.inode, IdOf(row)), end, Key(f.day, f.inode, IdOf(row)));
      forall p | end <= p && WholeLineAt(f.data, p) ensures IdOf(ParsedAt(q.parse, f.data, p)) > IdOf(row) {
        RowOfLine(q, f, p);
        StrictlyLater(q.parse, f.data, off, p);
      }
    }
  }

  lemma RowOfLine(q: Query, f: Day, p: nat)
    requires RecordLines(q.parse, f.data) && SoundFile(q.parse, q.dayOf, f) && WholeLineAt(f.data, p)
    ensures Pageable(ParsedAt(q.parse, f.data, p)) && Stamped(q.dayOf, f.day, ParsedAt(q.parse, f.data, p))
  {
  }

  lemma {:induction false} ScanRemembers(q: Query, listing: seq<Day>, f: Day, newest: bool, off: nat, s: Scan)
    requires RecordLines(q.parse, f.data) && SoundFile(q.parse, q.dayOf, f) && f in listing
    requires IsLineStart(f.data, off) && AllNew(q, f, off, s.lastId) && Remembered(q, listing, s, f.day)
    ensures Remembered(q, listing, ScanFile(q, f, newest, off, s).scan, f.day)
    decreases |f.data| - off
  {
    hide RecordLines;
    hide SoundFile;
    hide AllNew;
    hide ReadAt;
    if s.scanned <= q.budget {
      ReadRemembers(q, listing, f, newest, off, s);
      var r := ReadAt(q, f, newest, off, s);
      if r.flow == Continue {
        ScanRemembers(q, listing, f, newest, NextOffset(f, off), r.scan);
      }
    }
  }

  /** A scan that starts where the cursor stands, perhaps inside the last line read. */
  lemma ResumeRemembers(q: Query, listing: seq<Day>, f: Day, newest: bool, off: nat, s: Scan)
    requires RecordLines(q.parse, f.data) && SoundFile(q.parse, q.dayOf, f) && f in listing
    requires off <= |f.data| && AllBeyond(q, f, off) && s.lastId == q.after && s.skippedBytes == 0 && !s.truncated
    ensures Remembered(q, listing, ScanFile(q, f, newest, off, s).scan, f.day)
  {
    hide RecordLines;
    hide SoundFile;
    hide ReadAt;
    assert AllNew(q, f, off, s.lastId);
    if IsLineStart(f.data, off) {
      ScanRemembers(q, listing, f, newest, off, s);
    } else if s.scanned <= q.budget {
      InsideOf(q, f);
      OverSuffix(q, f, newest, off, s);
      var r := ReadAt(q, f, newest, off, s);
      if r.flow == Continue {
        ScanRemembers(q, listing, f, newest, NextOffset(f, off), r.scan);
      }
    }
  }

  lemma InsideOf(q: Query, f: Day)
    requires SoundFile(q.parse, q.dayOf, f)
    ensures NoRowInsideLine(q.parse, f.data)
  {
  }

  /** What is remembered lies on an earlier day, so every row of a later file is new. */
  lemma NextFileIsNew(q: Query, listing: seq<Day>, f: Day, s: Scan, day: int)
    requires RecordLines(q.parse, f.data) && SoundFile(q.parse, q.dayOf, f) && DaysOrderIds(q.dayOf)
    requires Selected(q, f) && !Resuming(q, f) && (q.after == NO_ID || q.dayOf(q.after).Some?)
    requires Remembered(q, listing, s, day) && day < f.day
    ensures AllNew(q, f, 0, s.lastId)
  {
    if s.lastId == q.after {
      TopIsBeyond(q, f);
    } else {
      forall p | 0 <= p && WholeLineAt(f.data, p) ensures IdOf(ParsedAt(q.parse, f.data, p)) > s.lastId {
        assert Stamped(q.dayOf, f.day, ParsedAt(q.parse, f.data, p));
      }
    }
  }

  lemma {:induction false} FilesRemember(q: Query, listing: seq<Day>, files: seq<Day>, s: Scan, day: int)
    requires RecordLog(q, listing) && FromTop(q, listing, files) && SortedDays(files)
    requires q.after == NO_ID || q.dayOf(q.after).Some?
    requires Remembered(q, listing, s, day) && (files != [] ==> day < files[0].day)
    ensures exists last :: Remembered(q, listing, ScanFiles(q, files, s), last)
    decreases files
  {
    hide ScanFile;
    hide RecordLines;
    hide SoundFile;
    hide AllNew;
    hide Remembered;
    hide Selected;
    if files == [] {
      assert Remembered(q, listing, ScanFiles(q, files, s), day);
    } else {
      var f, newest := files[0], |files| == 1;
      assert f in listing;
      NextFileIsNew(q, listing, f, s, day);
      Later(q, listing, s, day, f.day);
      ScanRemembers(q, listing, f, newest, 0, s);
      var t := ScanOne(q, f, newest, s);
      assert t == ScanFile(q, f, newest, 0, s);
      if t.flow != Stop {
        FromTopRest(q, listing, files);
        FilesRemember(q, listing, files[1..], t.scan, f.day);
        var last :| Remembered(q, listing, ScanFiles(q, files[1..], t.scan), last);
        assert ScanFiles(q, files, s) == ScanFiles(q, files[1..], t.scan);
      } else {
        assert Remembered(q, listing, ScanFiles(q, files, s), f.day);
      }
    }
  }

  lemma Later(q: Query, listing: seq<Day>, s: Scan, day: int, later: int)
    requires Remembered(q, listing, s, day) && day <= later
    ensures Remembered(q, listing, s, later)
  {
  }

  /** A page over record lines knows the end of the row at the cursor it hands back. */
  lemma PageRemembers(q: Query, listing: seq<Day>, memo: Memo)
    requires RecordLog(q, listing) && Smooth(q, listing, memo)
    requires q.after == NO_ID || q.dayOf(q.after).Some?
    ensures exists last :: Remembered(q, listing, ReadPage(q, listing, memo), last)
  {
    hide ScanFile;
    hide RecordLines;
    hide SoundFile;
    hide AllBeyond;
    hide Remembered;
    hide FromTop;
    hide StartOf;
    var files, s := Files(q, listing), Fresh(q, memo);
    SelectedFiles(q, listing);
    FilesKeep(q, listing);
    if files == [] {
      CursorStands(q, listing, s, 0);
      assert ReadPage(q, listing, memo) == s;
    } else {
      var f, newest := files[0], |files| == 1;
      var start := StartOf(q, f, s);
      StartIsBeyond(q, listing, f, s);
      StartTakesNothing(q, f, s);
      StartIsCharged(q, f, s);
      ResumeRemembers(q, listing, f, newest, start.offset, start.scan);
      var t := ScanOne(q, f, newest, s);
      if t.flow != Stop {
        FilesRemember(q, listing, files[1..], t.scan, f.day);
        var last :| Remembered(q, listing, ScanFiles(q, files[1..], t.scan), last);
        assert ReadPage(q, listing, memo) == ScanFiles(q, files[1..], t.scan);
      } else {
        assert Remembered(q, listing, ReadPage(q, listing, memo), f.day);
      }
    }
  }

  lemma CursorStands(q: Query, listing: seq<Day>, s: Scan, day: int)
    requires s.lastId == q.after
    ensures Remembered(q, listing, s, day)
  {
  }

  /** Each page is given the memo that the one before it left. */
  ghost predicate Threaded(q: Query, listing: seq<Day>, memos: seq<Memo>)
    decreases memos
  {
    |memos| > 1 ==>
      && memos[1] == ReadPage(q, listing, memos[0]).memo
      && var next := NextCursor(q, ReadPage(q, listing, memos[0]));
         (next.Some? ==> Threaded(q.(after := next.value), listing, memos[1..]))
  }

  /** The next page finds its start in the memo. */
  lemma NextIsSmooth(q: Query, listing: seq<Day>, memo: Memo)
    requires RecordLog(q, listing) && Smooth(q, listing, memo) && |memo| <= MEMO_CAP
    requires q.after == NO_ID || q.dayOf(q.after).Some?
    requires NextCursor(q, ReadPage(q, listing, memo)).Some?
    ensures var page := ReadPage(q, listing, memo); Smooth(q.(after := page.lastId), listing, page.memo)
  {
    hide ReadPage;
    hide SoundFile;
    hide RecordLines;
    hide MemoSound;
    var page := ReadPage(q, listing, memo);
    PageRemembers(q, listing, memo);
    PageKeepsMemo(q, listing, memo);
    var last :| Remembered(q, listing, page, last);
    var g :| g in listing && q.dayOf(page.lastId) == Some(g.day)
             && Get(page.memo, Key(g.day, g.inode, page.lastId)).Some?;
    forall f | f in listing && Resuming(q.(after := page.lastId), f)
      ensures NotCutOff(q.(after := page.lastId), f, page.memo)
    {
      SameDay(listing, f, g);
    }
  }

  lemma SameDay(listing: seq<Day>, f: Day, g: Day)
    requires SortedDays(listing) && f in listing && g in listing && f.day == g.day
    ensures f == g
  {
    var i :| 0 <= i < |listing| && listing[i] == f;
    var j :| 0 <= j < |listing| && listing[j] == g;
    assert !(i < j) && !(j < i);
  }

  lemma {:induction false} ThreadedIsSmooth(q: Query, listing: seq<Day>, memos: seq<Memo>)
    requires RecordLog(q, listing) && Threaded(q, listing, memos) && q.budget >= 1
    requires q.after == NO_ID || q.dayOf(q.after).Some?
    requires memos != [] ==> Smooth(q, listing, memos[0]) && |memos[0]| <= MEMO_CAP
    ensures SmoothWalk(q, listing, memos)
    decreases memos
  {
    hide ReadPage;
    hide Smooth;
    hide RecordLog;
    if |memos| > 1 {
      var page := ReadPage(q, listing, memos[0]);
      var next := NextCursor(q, page);
      if next.Some? {
        SoundOf(q, listing, memos[0]);
        NextIsSmooth(q, listing, memos[0]);
        PageKeepsMemo(q, listing, memos[0]);
        PageMoves(q, listing, memos[0]);
        NextStillSound(q, listing, page.lastId);
        ThreadedIsSmooth(q.(after := page.lastId), listing, memos[1..]);
      }
    }
  }

  /**
   A follower alone with the memo, from the empty cursor and any sound memo: every page after the
   first starts from what the one before remembered, so nothing is assumed of the search.
   */
  lemma LoneFollowerLosesNothing(q: Query, listing: seq<Day>, memos: seq<Memo>)
    requires RecordLog(q, listing) && q.budget >= 1 && q.after == NO_ID
    requires Threaded(q, listing, memos) && |memos| > |Ahead(q, listing)|
    requires MemoSound(q.parse, listing, memos[0]) && |memos[0]| <= MEMO_CAP
    ensures Follow(q, listing, memos) == Pick(Wants(q), AllRows(q.parse, listing))
    ensures Ends(q, listing, memos)
  {
    hide RecordLog;
    hide MemoSound;
    hide Ahead;
    ThreadedIsSmooth(q, listing, memos);
    PagingIsLossless(q, listing, memos);
  }
}
