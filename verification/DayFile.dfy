/**
 A day file of the diagnostics log, at the level of its bytes: where lines begin
 and end, what one bounded read returns, and which lines hold rows.

 What `json.loads` and the field checks make of a line is a function parameter.
 Row ids are strings that the program only ever compares, so an id is represented
 by its rank in string order; the empty string is rank 0.
 */
module DayFile {
  import opened Wrappers
  import opened Numbers

  type Bytes = seq<bv8>
  type Id = int

  const NEWLINE: bv8 := 10
  const NO_ID: Id := 0
  const MAX_LINE_BYTES: nat := 1024 * 1024

  datatype Kind = NotText | Ignored | Record

  datatype Parsed =
    | Garbage
    | Object(id: Option<Id>, shaped: bool, ts: Option<int>, kind: Kind, body: string)

  type Parser = Bytes -> Parsed

  predicate HasId(p: Parsed) {
    p.Object? && p.id.Some?
  }

  /** A row the cursor can address: timestamped, a record, with a well-shaped id. */
  predicate Pageable(p: Parsed) {
    HasId(p) && p.shaped && p.ts.Some? && p.kind == Record
  }

  /** The offset just past the first newline at or after `p`, or the end of the file. */
  function LineEnd(data: Bytes, p: nat): (e: nat)
    requires p <= |data|
    ensures p <= e <= |data|
    ensures p < |data| ==> p < e
    ensures forall k :: p <= k < e - 1 ==> data[k] != NEWLINE
    ensures e < |data| ==> data[e - 1] == NEWLINE
    decreases |data| - p
  {
    if p == |data| then p
    else if data[p] == NEWLINE then p + 1
    else LineEnd(data, p + 1)
  }

  predicate IsLineStart(data: Bytes, p: nat) {
    p <= |data| && (p == 0 || data[p - 1] == NEWLINE)
  }

  /** A newline ends the read that starts at `p`; `p` need not start a line. */
  predicate Terminated(data: Bytes, p: nat) {
    p < |data| && data[LineEnd(data, p) - 1] == NEWLINE
  }

  predicate WholeLineAt(data: Bytes, p: nat) {
    IsLineStart(data, p) && Terminated(data, p)
  }

  function Chunk(data: Bytes, p: nat): Bytes
    requires p <= |data|
  {
    data[p..LineEnd(data, p)]
  }

  /** What parsing the chunk from `p` to the next newline gives. */
  function ParsedAt(parse: Parser, data: Bytes, p: nat): Parsed
    requires p <= |data|
  {
    parse(Chunk(data, p))
  }

  /** Inside one line, every position sees the same end. */
  lemma SameLineEnd(data: Bytes, p: nat, m: nat)
    requires p <= |data| && p <= m < LineEnd(data, p)
    ensures LineEnd(data, m) == LineEnd(data, p)
    decreases m - p
  {
    if p < m {
      SameLineEnd(data, p + 1, m);
    }
  }

  /** No line starts strictly inside another. */
  lemma NoStartInside(data: Bytes, p: nat, m: nat)
    requires p <= |data| && p < m < LineEnd(data, p)
    ensures !IsLineStart(data, m)
  {
    SameLineEnd(data, p, m - 1);
  }

  /** Growing a file at its end moves no newline already in it. */
  lemma {:induction false} LineEndAppend(data: Bytes, more: Bytes, p: nat)
    requires p <= |data| && Terminated(data, p)
    ensures Terminated(data + more, p)
    ensures LineEnd(data + more, p) == LineEnd(data, p)
    ensures Chunk(data + more, p) == Chunk(data, p)
    decreases |data| - p
  {
    if data[p] != NEWLINE {
      assert p + 1 < |data|;
      LineEndAppend(data, more, p + 1);
    }
    assert (data + more)[p] == data[p];
    assert Chunk(data + more, p) == Chunk(data, p);
  }

  // ----- one bounded read -----

  datatype ReadKind = Line | Eof | Partial | Oversize
  datatype Read = Read(kind: ReadKind, consumed: nat)

  /** How many bytes `readline(limit)` returns at `p`. */
  function ReadlineLength(data: Bytes, p: nat, limit: nat): (n: nat)
    requires p <= |data|
    ensures n <= limit && p + n <= |data|
  {
    Min(LineEnd(data, p) - p, limit)
  }

  /** `_read_line`: the bounded read and its verdict. */
  function ReadLine(data: Bytes, p: nat, cap: int): (r: Read)
    requires p <= |data|
    ensures p + r.consumed <= |data|
    ensures r.consumed <= Max(1, Min(MAX_LINE_BYTES, cap))
    ensures r.kind == Eof <==> p == |data|
    ensures r.kind == Eof <==> r.consumed == 0
    ensures r.kind == Line ==> Terminated(data, p) && p + r.consumed == LineEnd(data, p)
    ensures r.kind == Partial ==> !Terminated(data, p) && p + r.consumed == |data|
    ensures r.kind == Oversize ==>
      r.consumed == Max(1, Min(MAX_LINE_BYTES, cap)) && p + r.consumed <= LineEnd(data, p)
  {
    var limit := Max(1, Min(MAX_LINE_BYTES, cap));
    var n := ReadlineLength(data, p, limit);
    if n == 0 then Read(Eof, 0)
    else if data[p + n - 1] == NEWLINE then Read(Line, n)
    else if n >= limit then Read(Oversize, n)
    else Read(Partial, n)
  }

  /** A terminated line that fits the cap is read whole unless the budget is used up. */
  lemma ReadWhole(data: Bytes, p: nat, cap: int)
    requires Terminated(data, p) && LineEnd(data, p) - p <= MAX_LINE_BYTES && cap >= 1
    ensures var r := ReadLine(data, p, cap); r.kind == Line || r.consumed >= cap
  {
  }

  // ----- rows of a file -----

  /** The pageable rows read from `p` to the end of the file, in file order. */
  function RowsFrom(parse: Parser, data: Bytes, p: nat): seq<Parsed>
    requires p <= |data|
    decreases |data| - p
  {
    if !Terminated(data, p) then []
    else Single(ParsedAt(parse, data, p)) + RowsFrom(parse, data, LineEnd(data, p))
  }

  function Single(row: Parsed): seq<Parsed> {
    if Pageable(row) then [row] else []
  }

  /** Every id-bearing line carries an id at least as large as those before it. */
  ghost predicate IdsInOrder(parse: Parser, data: Bytes) {
    forall p, p' :: 0 <= p < p' && WholeLineAt(data, p) && WholeLineAt(data, p')
      && HasId(ParsedAt(parse, data, p)) && HasId(ParsedAt(parse, data, p'))
      ==> ParsedAt(parse, data, p).id.value <= ParsedAt(parse, data, p').id.value
  }

  /** No proper suffix of an id-bearing line parses as an object; of other lines one may. */
  ghost predicate NoRowInsideLine(parse: Parser, data: Bytes) {
    forall p, m :: 0 <= p && WholeLineAt(data, p) && HasId(ParsedAt(parse, data, p)) && p < m < LineEnd(data, p)
      ==> ParsedAt(parse, data, m) == Garbage
  }

  ghost predicate InsideIdLine(parse: Parser, data: Bytes, off: nat) {
    exists p :: 0 <= p && WholeLineAt(data, p) && HasId(ParsedAt(parse, data, p)) && p < off < LineEnd(data, p)
  }

  /** Where a scan may start: at a line, at the end of the file, or inside an id-bearing line. */
  ghost predicate Spot(parse: Parser, data: Bytes, off: nat) {
    off <= |data| && (off == |data| || IsLineStart(data, off) || InsideIdLine(parse, data, off))
  }

  /** The line around a spot that starts no line carries an id. */
  lemma SpotInside(parse: Parser, data: Bytes, p: nat, off: nat)
    requires Spot(parse, data, off) && WholeLineAt(data, p) && p < off < LineEnd(data, p)
    ensures HasId(ParsedAt(parse, data, p))
  {
    NoStartInside(data, p, off);
    var p' :| 0 <= p' && WholeLineAt(data, p') && HasId(ParsedAt(parse, data, p')) && p' < off < LineEnd(data, p');
    assert p == p';
  }

  /** A scan that starts at `off` cannot miss a row beyond `after`. */
  ghost predicate NothingSkipped(parse: Parser, data: Bytes, after: Id, off: nat) {
    && off <= |data|
    && forall p :: 0 <= p < off && WholeLineAt(data, p) && HasId(ParsedAt(parse, data, p))
         ==> ParsedAt(parse, data, p).id.value <= after
  }

  function IdOf(r: Parsed): Id {
    if HasId(r) then r.id.value else NO_ID
  }

  /** The rows that satisfy `want`, in order. */
  function Pick(want: Parsed -> bool, rows: seq<Parsed>): seq<Parsed> {
    if rows == [] then []
    else if want(rows[0]) then [rows[0]] + Pick(want, rows[1..])
    else Pick(want, rows[1..])
  }

  lemma {:induction false} PickConcat(want: Parsed -> bool, a: seq<Parsed>, b: seq<Parsed>)
    ensures Pick(want, a + b) == Pick(want, a) + Pick(want, b)
  {
    if a == [] {
      assert a + b == b;
    } else {
      var tail := Pick(want, a[1..]);
      PickConcat(want, a[1..], b);
      assert (a + b)[1..] == a[1..] + b;
      assert ([a[0]] + tail) + Pick(want, b) == [a[0]] + (tail + Pick(want, b));
    }
  }

  lemma {:induction false} PickNone(want: Parsed -> bool, rows: seq<Parsed>)
    requires forall i :: 0 <= i < |rows| ==> !want(rows[i])
    ensures Pick(want, rows) == []
  {
    if rows != [] {
      assert forall i :: 0 <= i < |rows[1..]| ==> rows[1..][i] == rows[i + 1];
      PickNone(want, rows[1..]);
    }
  }

  lemma {:induction false} PickSame(want: Parsed -> bool, want': Parsed -> bool, rows: seq<Parsed>)
    requires forall i :: 0 <= i < |rows| ==> want(rows[i]) == want'(rows[i])
    ensures Pick(want, rows) == Pick(want', rows)
  {
    if rows != [] {
      assert forall i :: 0 <= i < |rows[1..]| ==> rows[1..][i] == rows[i + 1];
      PickSame(want, want', rows[1..]);
    }
  }

  /** `part` is `whole` without its first `j` rows, none of which is beyond the cursor. */
  ghost predicate Leftover(whole: seq<Parsed>, part: seq<Parsed>, j: nat, after: Id) {
    && j <= |whole| && part == whole[j..]
    && forall i :: 0 <= i < j ==> IdOf(whole[i]) <= after
  }

  lemma LeftoverPastHead(row: Parsed, rest: seq<Parsed>, part: seq<Parsed>, k: nat, after: Id)
    requires Leftover(rest, part, k, after) && (Pageable(row) ==> IdOf(row) <= after)
    ensures Leftover(Single(row) + rest, part, |Single(row)| + k, after)
  {
    var whole := Single(row) + rest;
    assert whole[|Single(row)| + k..] == rest[k..];
  }

  lemma InsideLineReadsNothing(parse: Parser, data: Bytes, p: nat, off: nat)
    requires NoRowInsideLine(parse, data) && WholeLineAt(data, p) && p < off < LineEnd(data, p)
    requires HasId(ParsedAt(parse, data, p))
    ensures RowsFrom(parse, data, off) == RowsFrom(parse, data, LineEnd(data, p))
  {
    SameLineEnd(data, p, off);
    assert RowsFrom(parse, data, off) == Single(Garbage) + RowsFrom(parse, data, LineEnd(data, p));
  }

  /**
   A scan that starts at `off` reads a suffix of what a scan from line start `p` reads,
   and what it leaves out is not beyond the cursor.
   */
  lemma {:induction false} ResumeReadsSuffix(parse: Parser, data: Bytes, after: Id, off: nat, p: nat)
    returns (j: nat)
    requires NoRowInsideLine(parse, data) && NothingSkipped(parse, data, after, off) && Spot(parse, data, off)
    requires p <= off <= |data| && IsLineStart(data, p)
    ensures Leftover(RowsFrom(parse, data, p), RowsFrom(parse, data, off), j, after)
    decreases off - p
  {
    hide NoRowInsideLine;
    hide Spot;
    hide NothingSkipped;
    hide Leftover;
    if p == off || !Terminated(data, p) {
      NothingLeftOut(parse, data, after, off, p);
      j := 0;
    } else {
      var e := LineEnd(data, p);
      var rest, part := RowsFrom(parse, data, e), RowsFrom(parse, data, off);
      var k: nat := 0;
      if e <= off {
        k := ResumeReadsSuffix(parse, data, after, off, e);
      } else {
        SpotInside(parse, data, p, off);
        InsideLineReadsNothing(parse, data, p, off);
        NothingLeftOut(parse, data, after, e, e);
      }
      var row := ParsedAt(parse, data, p);
      HeadIsBehind(parse, data, after, off, p);
      LeftoverPastHead(row, rest, part, k, after);
      j := |Single(row)| + k;
    }
  }

  lemma HeadIsBehind(parse: Parser, data: Bytes, after: Id, off: nat, p: nat)
    requires NothingSkipped(parse, data, after, off) && p < off && WholeLineAt(data, p)
    ensures Pageable(ParsedAt(parse, data, p)) ==> IdOf(ParsedAt(parse, data, p)) <= after
  {
  }

  lemma NothingLeftOut(parse: Parser, data: Bytes, after: Id, off: nat, p: nat)
    requires p <= off <= |data| && (p == off || !Terminated(data, p))
    ensures Leftover(RowsFrom(parse, data, p), RowsFrom(parse, data, off), 0, after)
  {
    if p < off < |data| {
      SameLineEnd(data, p, off);
    }
  }
}
