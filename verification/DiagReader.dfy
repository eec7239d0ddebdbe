/**
 The reader itself: `_Scan` as an object whose methods update its counters, the shared
 memo and the page, proved against the functions of `DiagScan`.
 */
module DiagReader {
  import opened Wrappers
  import opened Numbers
  import opened DayFile
  import Locator
  import M = PositionMemo
  import S = DiagScan

  class Scanner {
    const q: S.Query
    const memo: M.Shared
    var scanned: nat
    var skippedBytes: nat
    var located: nat
    var unreadable: nat
    var unpageable: nat
    var skipped: nat
    var truncated: bool
    var lastId: Id
    var corrupt: seq<int>
    var items: seq<Parsed>
    ghost var read: nat

    ghost function View(): S.Scan
      reads this, memo
    {
      S.Scan(scanned, skippedBytes, located, read, unreadable, unpageable, skipped,
             truncated, lastId, corrupt, memo.entries, items)
    }

    constructor (q: S.Query, memo: M.Shared)
      ensures this.q == q && this.memo == memo
      ensures View() == S.Fresh(q, memo.entries)
    {
      this.q, this.memo := q, memo;
      scanned, skippedBytes, located, read := 0, 0, 0, 0;
      unreadable, unpageable, skipped := 0, 0, 0;
      truncated, lastId, corrupt, items := false, q.after, [], [];
    }

    method ChargeSkip(f: S.Day, consumed: nat) returns (leave: bool)
      modifies this
      ensures var t := S.ChargeSkip(f, old(View()), consumed);
        View() == t.scan && leave == (t.flow == S.NextFile)
    {
      skippedBytes := skippedBytes + consumed;
      leave := skippedBytes > S.SKIP_BYTE_BUDGET;
      if leave && f.day !in corrupt {
        corrupt := corrupt + [f.day];
      }
    }

    method Advance(id: Id)
      modifies this`lastId
      ensures lastId == Max(old(lastId), id)
    {
      if id > lastId {
        lastId := id;
      }
    }

    /** A pageable row; `stop` when the page is full. */
    method OnRow(f: S.Day, row: Parsed, next: nat) returns (stop: bool)
      requires Pageable(row)
      modifies this, memo
      ensures var t := S.OnRow(q, f, old(View()), row, next);
        View() == t.scan && stop == (t.flow == S.Stop)
    {
      stop := false;
      Advance(row.id.value);
      memo.Store(M.Key(f.day, f.inode, row.id.value), next);
      if q.since <= row.ts.value <= q.until && row.id.value > q.after {
        items := items + [row];
        if |items| >= q.limit {
          truncated := true;
          stop := true;
        }
      }
    }

    method OnLine(f: S.Day, row: Parsed, consumed: nat, next: nat) returns (flow: S.Flow)
      requires scanned >= consumed
      modifies this, memo
      ensures var t := S.OnLine(q, f, old(View()), row, consumed, next);
        View() == t.scan && flow == t.flow
    {
      hide M.Put;
      flow := S.Continue;
      if row == Garbage || row.ts.None? || row.kind == NotText {
        unreadable := unreadable + 1;
        scanned := scanned - consumed;
        var leave := ChargeSkip(f, consumed);
        if leave { flow := S.NextFile; }
      } else if row.kind == Ignored {
        skipped := skipped + 1;
      } else if row.id.None? || !row.shaped {
        unpageable := unpageable + 1;
        scanned := scanned - consumed;
        var leave := ChargeSkip(f, consumed);
        if leave { flow := S.NextFile; }
      } else {
        var stop := OnRow(f, row, next);
        if stop { flow := S.Stop; }
      }
    }

    /** One bounded read at `at` and what follows from it. */
    method ReadAt(f: S.Day, newest: bool, at: nat) returns (flow: S.Flow, offset: nat)
      requires at <= |f.data|
      modifies this, memo
      ensures S.ReadAt(q, f, newest, at, old(View())) == S.Turn(View(), flow)
      ensures offset == S.NextOffset(f, at)
    {
      hide S.OnLine;
      var r := ReadLine(f.data, at, MAX_LINE_BYTES);
      scanned := scanned + r.consumed;
      read := read + r.consumed;
      offset := at + r.consumed;
      match r.kind {
        case Eof =>
          flow := S.NextFile;
        case Partial =>
          if newest { return S.Stop, offset; }
          unreadable := unreadable + 1;
          flow := S.NextFile;
        case Oversize =>
          unreadable := unreadable + 1;
          corrupt := corrupt + [f.day];
          flow := S.NextFile;
        case Line =>
          flow := OnLine(f, ParsedAt(q.parse, f.data, at), r.consumed, offset);
      }
    }

    /** The lines of one file; `stop` when the request is over. */
    method ScanFile(f: S.Day, newest: bool, start: nat) returns (stop: bool)
      requires start <= |f.data|
      modifies this, memo
      ensures var t := S.ScanFile(q, f, newest, start, old(View()));
        View() == t.scan && stop == (t.flow == S.Stop)
    {
      hide S.ReadAt;
      var offset, flow := start, S.Continue;
      while flow == S.Continue
        invariant offset <= |f.data|
        invariant flow == S.Continue ==>
          S.ScanFile(q, f, newest, offset, View()) == S.ScanFile(q, f, newest, start, old(View()))
        invariant flow != S.Continue ==>
          S.Turn(View(), flow) == S.ScanFile(q, f, newest, start, old(View()))
        decreases |f.data| - offset, flow == S.Continue
      {
        if scanned > q.budget {
          truncated := true;
          flow := S.Stop;
        } else {
          flow, offset := ReadAt(f, newest, offset);
        }
      }
      stop := flow == S.Stop;
    }

    /** Where the scan of a file starts. */
    method StartOf(f: S.Day) returns (offset: nat)
      modifies this
      ensures S.Start(offset, View()) == S.StartOf(q, f, old(View()))
    {
      hide Locator.Located;
      if q.after == NO_ID || q.dayOf(q.after) != Some(f.day) {
        return 0;
      }
      var remembered := memo.Lookup(M.Key(f.day, f.inode, q.after));
      if remembered.Some? && 0 < remembered.value <= |f.data| {
        scanned := scanned + 1;
        read := read + 1;
        if f.data[remembered.value - 1] == NEWLINE {
          return remembered.value;
        }
      }
      var spent;
      offset, spent := Locator.Locate(q.parse, f.data, q.after);
      located := located + spent;
      read := read + spent;
    }

    /** The listed files that the window and the cursor leave in. */
    method SelectFiles(listing: seq<S.Day>) returns (files: seq<S.Day>)
      ensures files == S.Files(q, listing)
    {
      files := [];
      var i := 0;
      while i < |listing|
        invariant 0 <= i <= |listing|
        invariant files + S.Files(q, listing[i..]) == S.Files(q, listing)
      {
        ghost var rest := S.Files(q, listing[i + 1..]);
        assert listing[i..][1..] == listing[i + 1..];
        if S.Selected(q, listing[i]) {
          assert files + ([listing[i]] + rest) == (files + [listing[i]]) + rest;
          files := files + [listing[i]];
        }
        i := i + 1;
      }
    }

    /** `read_page`: scan the files until the page is full, the budget is spent or the log ends. */
    method ReadPage(listing: seq<S.Day>) returns (next: Option<Id>)
      requires View() == S.Fresh(q, memo.entries)
      modifies this, memo
      ensures View() == S.ReadPage(q, listing, old(memo.entries))
      ensures next == S.NextCursor(q, View())
    {
      hide S.StartOf;
      hide S.ScanFile;
      var files := SelectFiles(listing);
      var i, stop := 0, false;
      while i < |files| && !stop
        invariant 0 <= i <= |files|
        invariant !stop ==> S.ScanFiles(q, files[i..], View()) == S.ScanFiles(q, files, old(View()))
        invariant stop ==> View() == S.ScanFiles(q, files, old(View()))
      {
        assert files[i..][1..] == files[i + 1..];
        var offset := StartOf(files[i]);
        stop := ScanFile(files[i], i == |files| - 1, offset);
        i := i + 1;
      }
      next := if truncated && lastId != q.after then Some(lastId) else None;
    }
  }
}
