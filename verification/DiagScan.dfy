/**
 One bounded pass over the day files (`_Scan`) and the page built from it
 (`read_page`), first as functions of a scan state.
 */
module DiagScan {
  import opened Wrappers
  import opened Numbers
  import opened DayFile
  import opened Locator
  import opened PositionMemo

  const SKIP_BYTE_BUDGET: nat := 2 * 1024 * 1024
  const SHANGHAI_MS := 28_800_000
  const DAY_MS := 86_400_000

  datatype Day = Day(day: int, inode: int, data: Bytes)

  datatype Query = Query(since: int, until: int, after: Id, limit: int, budget: nat,
                         parse: Parser, dayOf: Id -> Option<int>)

  /** `read` counts every byte the file handles delivered; the other fields are the program's. */
  datatype Scan = Scan(scanned: nat, skippedBytes: nat, located: nat, read: nat,
                       unreadable: nat, unpageable: nat, skipped: nat,
                       truncated: bool, lastId: Id, corrupt: seq<int>,
                       memo: Memo, items: seq<Parsed>)

  datatype Flow = Continue | NextFile | Stop
  datatype Turn = Turn(scan: Scan, flow: Flow)

  function Fresh(q: Query, memo: Memo): Scan {
    Scan(0, 0, 0, 0, 0, 0, 0, false, q.after, [], memo, [])
  }

  // ----- which files -----

  function DayOfMs(ms: int): int {
    (ms + SHANGHAI_MS) / DAY_MS
  }

  predicate Selected(q: Query, f: Day) {
    && DayOfMs(q.since) - 1 <= f.day <= DayOfMs(q.until) + 1
    && (q.after != NO_ID && q.dayOf(q.after).Some? ==> q.dayOf(q.after).value <= f.day)
  }

  /** `_files`, on the sorted listing. */
  function Files(q: Query, listing: seq<Day>): seq<Day> {
    if listing == [] then []
    else (if Selected(q, listing[0]) then [listing[0]] else []) + Files(q, listing[1..])
  }

  // ----- one line -----

  function ChargeSkip(f: Day, s: Scan, consumed: nat): Turn {
    var t := s.(skippedBytes := s.skippedBytes + consumed);
    if t.skippedBytes <= SKIP_BYTE_BUDGET then Turn(t, Continue)
    else Turn(t.(corrupt := if f.day in t.corrupt then t.corrupt else t.corrupt + [f.day]), NextFile)
  }

  predicate InWindow(q: Query, row: Parsed) {
    row.Object? && row.ts.Some? && q.since <= row.ts.value <= q.until
  }

  /** The cursor predicate: in the window and past the cursor. */
  predicate Wanted(q: Query, row: Parsed) {
    InWindow(q, row) && IdOf(row) > q.after
  }

  /** A pageable row moves the cursor and the memo; a wanted one is served. */
  function OnRow(q: Query, f: Day, s: Scan, row: Parsed, next: nat): Turn {
    var t := s.(lastId := Max(s.lastId, IdOf(row)),
                memo := Put(s.memo, Key(f.day, f.inode, IdOf(row)), next));
    if !Wanted(q, row) then Turn(t, Continue)
    else if |t.items| + 1 >= q.limit then
      Turn(t.(items := t.items + [row], truncated := true), Stop)
    else Turn(t.(items := t.items + [row]), Continue)
  }

  /** What a whole line does to a scan that has just read it. */
  function OnLine(q: Query, f: Day, s: Scan, row: Parsed, consumed: nat, next: nat): Turn
    requires s.scanned >= consumed
  {
    if row == Garbage || row.ts.None? || row.kind == NotText then
      ChargeSkip(f, s.(unreadable := s.unreadable + 1, scanned := s.scanned - consumed), consumed)
    else if row.kind == Ignored then Turn(s.(skipped := s.skipped + 1), Continue)
    else if row.id.None? || !row.shaped then
      ChargeSkip(f, s.(unpageable := s.unpageable + 1, scanned := s.scanned - consumed), consumed)
    else OnRow(q, f, s, row, next)
  }

  /** One read at `off` and what follows from it. */
  function ReadAt(q: Query, f: Day, newest: bool, off: nat, s: Scan): (r: Turn)
    requires off <= |f.data|
    ensures r.flow == Continue ==> off < |f.data|
  {
    var r := ReadLine(f.data, off, MAX_LINE_BYTES);
    var t := s.(scanned := s.scanned + r.consumed, read := s.read + r.consumed);
    match r.kind
    case Eof => Turn(t, NextFile)
    case Partial =>
      if newest then Turn(t, Stop) else Turn(t.(unreadable := t.unreadable + 1), NextFile)
    case Oversize =>
      Turn(t.(unreadable := t.unreadable + 1, corrupt := t.corrupt + [f.day]), NextFile)
    case Line => OnLine(q, f, t, ParsedAt(q.parse, f.data, off), r.consumed, off + r.consumed)
  }

  /** The lines of one file from `off` until the file or the request is left. */
  function ScanFile(q: Query, f: Day, newest: bool, off: nat, s: Scan): (t: Turn)
    requires off <= |f.data|
    ensures t.flow != Continue
    decreases |f.data| - off
  {
    if s.scanned > q.budget then Turn(s.(truncated := true), Stop)
    else
      var r := ReadAt(q, f, newest, off, s);
      if r.flow != Continue then r
      else ScanFile(q, f, newest, NextOffset(f, off), r.scan)
  }

  function NextOffset(f: Day, off: nat): (next: nat)
    requires off <= |f.data|
    ensures off <= next <= |f.data| && (off < |f.data| ==> off < next)
  {
    off + ReadLine(f.data, off, MAX_LINE_BYTES).consumed
  }

  // ----- where a file's scan starts -----

  datatype Start = Start(offset: nat, scan: Scan)

  function Locating(q: Query, f: Day, s: Scan): (r: Start)
    ensures r.offset <= |f.data|
  {
    var place := Located(q.parse, f.data, q.after);
    Start(place.offset, s.(located := s.located + place.located, read := s.read + place.located))
  }

  predicate Resuming(q: Query, f: Day) {
    q.after != NO_ID && q.dayOf(q.after) == Some(f.day)
  }

  /** `_start_of`: the remembered offset if a newline precedes it, else a search. */
  function StartOf(q: Query, f: Day, s: Scan): (r: Start)
    ensures r.offset <= |f.data|
  {
    if !Resuming(q, f) then Start(0, s)
    else
      var remembered := Get(s.memo, Key(f.day, f.inode, q.after));
      if remembered.Some? && 0 < remembered.value <= |f.data| then
        var t := s.(scanned := s.scanned + 1, read := s.read + 1);
        if f.data[remembered.value - 1] == NEWLINE then Start(remembered.value, t)
        else Locating(q, f, t)
      else Locating(q, f, s)
  }

  function ScanOne(q: Query, f: Day, newest: bool, s: Scan): (t: Turn)
    ensures t.flow != Continue
  {
    var start := StartOf(q, f, s);
    ScanFile(q, f, newest, start.offset, start.scan)
  }

  function ScanFiles(q: Query, files: seq<Day>, s: Scan): Scan {
    if files == [] then s
    else
      var t := ScanOne(q, files[0], |files| == 1, s);
      if t.flow == Stop then t.scan else ScanFiles(q, files[1..], t.scan)
  }

  /** `read_page`: the state at the end of the request. */
  function ReadPage(q: Query, listing: seq<Day>, memo: Memo): Scan {
    ScanFiles(q, Files(q, listing), Fresh(q, memo))
  }

  /** The continuation handed to the caller. */
  function NextCursor(q: Query, s: Scan): Option<Id> {
    if s.truncated && s.lastId != q.after then Some(s.lastId) else None
  }

  // ----- the rows a scan takes -----

  function LastOf(last: Id, rows: seq<Parsed>): (r: Id)
    ensures r >= last
    ensures forall i :: 0 <= i < |rows| ==> IdOf(rows[i]) <= r
    ensures r == last || exists i :: 0 <= i < |rows| && IdOf(rows[i]) == r
    decreases rows
  {
    if rows == [] then last else
      var r := LastOf(Max(last, IdOf(rows[0])), rows[1..]);
      assert forall i :: 1 <= i < |rows| ==> rows[i] == rows[1..][i - 1];
      r
  }

  lemma {:induction false} LastOfConcat(last: Id, a: seq<Parsed>, b: seq<Parsed>)
    ensures LastOf(last, a + b) == LastOf(LastOf(last, a), b)
    decreases a
  {
    if a == [] {
      assert a + b == b;
    } else {
      assert (a + b)[1..] == a[1..] + b;
      LastOfConcat(Max(last, IdOf(a[0])), a[1..], b);
    }
  }

  ghost function Wants(q: Query): Parsed -> bool {
    row => Wanted(q, row)
  }

  /** The state `t` is `s` after taking exactly `rows`: served what is wanted, cursor at the furthest. */
  ghost predicate Took(q: Query, s: Scan, t: Scan, rows: seq<Parsed>) {
    && t.items == s.items + Pick(Wants(q), rows)
    && t.lastId == LastOf(s.lastId, rows)
    && (t.corrupt == [] ==> s.corrupt == [])
  }

  lemma TookNothing(q: Query, s: Scan, t: Scan)
    requires t.items == s.items && t.lastId == s.lastId && (t.corrupt == [] ==> s.corrupt == [])
    ensures Took(q, s, t, [])
  {
  }

  lemma TookBoth(q: Query, s: Scan, t: Scan, u: Scan, a: seq<Parsed>, b: seq<Parsed>)
    requires Took(q, s, t, a) && Took(q, t, u, b)
    ensures Took(q, s, u, a + b)
  {
    hide Pick;
    hide LastOf;
    PickConcat(Wants(q), a, b);
    LastOfConcat(s.lastId, a, b);
    assert (s.items + Pick(Wants(q), a)) + Pick(Wants(q), b)
        == s.items + (Pick(Wants(q), a) + Pick(Wants(q), b));
  }

  lemma OnRowTakes(q: Query, f: Day, s: Scan, row: Parsed, next: nat)
    ensures Took(q, s, OnRow(q, f, s, row, next).scan, [row])
  {
    assert [row][1..] == [];
    assert LastOf(s.lastId, [row]) == LastOf(Max(s.lastId, IdOf(row)), []);
    assert Wants(q)(row) == Wanted(q, row);
    assert Pick(Wants(q), [row]) == if Wanted(q, row) then [row] + Pick(Wants(q), []) else [];
  }

  /** What one read takes: the row of the line, if it is pageable. */
  function RowAt(q: Query, f: Day, off: nat): seq<Parsed>
    requires off <= |f.data|
  {
    if Terminated(f.data, off) then Single(ParsedAt(q.parse, f.data, off)) else []
  }

  lemma OnLineTakes(q: Query, f: Day, s: Scan, row: Parsed, consumed: nat, next: nat)
    requires s.scanned >= consumed
    ensures Took(q, s, OnLine(q, f, s, row, consumed, next).scan, Single(row))
  {
    var t := OnLine(q, f, s, row, consumed, next);
    if Pageable(row) {
      OnRowTakes(q, f, s, row, next);
    } else {
      TookNothing(q, s, t.scan);
    }
  }

  /** A read takes the row of its line, or nothing. */
  lemma ReadAtTakes(q: Query, f: Day, newest: bool, off: nat, s: Scan)
    requires off <= |f.data|
    ensures var r := ReadAt(q, f, newest, off, s);
      && (r.flow == Continue ==> Took(q, s, r.scan, RowAt(q, f, off)))
      && (Took(q, s, r.scan, []) || Took(q, s, r.scan, RowAt(q, f, off)))
  {
    hide Took;
    hide OnLine;
    var r := ReadLine(f.data, off, MAX_LINE_BYTES);
    var t := s.(scanned := s.scanned + r.consumed, read := s.read + r.consumed);
    var u := ReadAt(q, f, newest, off, s).scan;
    if r.kind == Line {
      var row := ParsedAt(q.parse, f.data, off);
      OnLineTakes(q, f, t, row, r.consumed, off + r.consumed);
      TookFrom(q, s, t, u, Single(row));
    } else {
      TookNothing(q, s, u);
    }
  }

  lemma TookFrom(q: Query, s: Scan, t: Scan, u: Scan, rows: seq<Parsed>)
    requires Took(q, t, u, rows)
    requires t.items == s.items && t.lastId == s.lastId && t.corrupt == s.corrupt
    ensures Took(q, s, u, rows)
  {
  }

  /** Reading on happens only past a whole line; leaving a sound file means no row is left. */
  lemma ReadAtLeaves(q: Query, f: Day, newest: bool, off: nat, s: Scan)
    requires off <= |f.data| && !s.truncated
    ensures var r := ReadAt(q, f, newest, off, s);
      && (r.flow == Continue ==>
            Terminated(f.data, off) && NextOffset(f, off) == LineEnd(f.data, off) && !r.scan.truncated)
      && (r.flow != Continue && !r.scan.truncated && r.scan.corrupt == [] ==> !Terminated(f.data, off))
  {
  }

  /** One file: the scan takes a prefix of the rows from `off`, all of them if it ends undisturbed. */
  lemma {:induction false} ScanFileTakes(q: Query, f: Day, newest: bool, off: nat, s: Scan)
    returns (taken: seq<Parsed>)
    requires off <= |f.data| && !s.truncated
    ensures var t := ScanFile(q, f, newest, off, s).scan;
      && taken <= RowsFrom(q.parse, f.data, off)
      && Took(q, s, t, taken)
      && (!t.truncated && t.corrupt == [] ==> taken == RowsFrom(q.parse, f.data, off))
    decreases |f.data| - off
  {
    hide Took;
    hide ReadAt;
    var t := ScanFile(q, f, newest, off, s).scan;
    taken := [];
    if s.scanned > q.budget {
      TookNothing(q, s, t);
    } else {
      ReadAtTakes(q, f, newest, off, s);
      ReadAtLeaves(q, f, newest, off, s);
      var r := ReadAt(q, f, newest, off, s);
      if r.flow == Continue {
        var rest := ScanFileTakes(q, f, newest, NextOffset(f, off), r.scan);
        TookBoth(q, s, r.scan, t, RowAt(q, f, off), rest);
        taken := RowAt(q, f, off) + rest;
      } else if !Took(q, s, r.scan, []) {
        taken := RowAt(q, f, off);
      }
    }
  }
}
