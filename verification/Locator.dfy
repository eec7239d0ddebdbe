/**
 `_locate`: the byte-offset binary search for the first line whose id is past the
 cursor, with its probe budget and its step guard.
 */
module Locator {
  import opened Wrappers
  import opened Numbers
  import opened DayFile

  const LOCATE_BYTE_CAP: nat := 2 * 1024 * 1024
  const STEP_GUARD: nat := 64

  datatype Probe = Probe(start: int, row: Parsed, consumed: nat)

  /** `_line_at`: the first whole line at or after `offset`, if it can be read within the budget. */
  function LineAt(parse: Parser, data: Bytes, offset: nat, budgetLeft: int): (r: Probe)
    requires offset <= |data|
    ensures r.consumed <= Max(0, budgetLeft)
    ensures -1 <= r.start < |data|
  {
    if budgetLeft <= 0 then Probe(-1, Garbage, 0)
    else
      var skip := if offset == 0 then 0
                  else ReadlineLength(data, offset - 1, Min(MAX_LINE_BYTES, budgetLeft));
      var start := if offset == 0 then 0 else offset - 1 + skip;
      if offset > 0 && data[start - 1] != NEWLINE then Probe(-1, Garbage, skip)
      else if skip >= budgetLeft then Probe(-1, Garbage, skip)
      else
        var r := ReadLine(data, start, budgetLeft - skip);
        if r.kind != Line then Probe(-1, Garbage, skip + r.consumed)
        else Probe(start, ParsedAt(parse, data, start), skip + r.consumed)
  }

  ghost predicate NoWholeLineIn(data: Bytes, from: int, to: int) {
    forall p :: 0 <= p && from <= p < to ==> !WholeLineAt(data, p)
  }

  /** No line is longer than the cap on one read. */
  ghost predicate LinesFit(data: Bytes) {
    forall p :: 0 <= p && WholeLineAt(data, p) ==> LineEnd(data, p) - p <= MAX_LINE_BYTES
  }

  /** The probe found the first whole line at or after `offset`. */
  ghost predicate Found(parse: Parser, data: Bytes, offset: nat, probe: Probe) {
    && offset <= probe.start && WholeLineAt(data, probe.start)
    && probe.row == ParsedAt(parse, data, probe.start)
    && NoWholeLineIn(data, offset, probe.start)
  }

  /** A probe that finds a line finds the first one at or after its offset. */
  lemma LineAtFinds(parse: Parser, data: Bytes, offset: nat, budgetLeft: int)
    requires offset <= |data|
    ensures var r := LineAt(parse, data, offset, budgetLeft);
      r.start >= 0 ==> Found(parse, data, offset, r)
  {
    var r := LineAt(parse, data, offset, budgetLeft);
    if r.start >= 0 && offset > 0 {
      forall p | offset <= p < r.start ensures !IsLineStart(data, p) {
        NoStartInside(data, offset - 1, p);
      }
    }
  }

  /** A probe that finds nothing, without having used up its budget, means no line is there. */
  lemma LineAtMisses(parse: Parser, data: Bytes, offset: nat, budgetLeft: int)
    requires offset <= |data| && LinesFit(data)
    ensures var r := LineAt(parse, data, offset, budgetLeft);
      r.start < 0 && r.consumed < budgetLeft ==> NoWholeLineIn(data, offset, |data|)
  {
    var r := LineAt(parse, data, offset, budgetLeft);
    if r.start < 0 && r.consumed < budgetLeft {
      forall p | offset <= p < |data| && WholeLineAt(data, p) ensures false {
        LineAtReachable(parse, data, offset, budgetLeft, p);
      }
    }
  }

  /** If a whole line starts at or after `offset`, only the budget can stop the probe. */
  lemma LineAtReachable(parse: Parser, data: Bytes, offset: nat, budgetLeft: int, p: nat)
    requires offset <= p && WholeLineAt(data, p) && LinesFit(data)
    ensures var r := LineAt(parse, data, offset, budgetLeft);
      r.start >= 0 || r.consumed >= budgetLeft
  {
    var s := FirstStart(data, offset, p);
    assert LineEnd(data, s) - s <= MAX_LINE_BYTES;
    if offset > 0 {
      SkipFits(data, offset - 1);
    } else {
      assert IsLineStart(data, 0);
    }
    LineAtReads(parse, data, offset, budgetLeft, s);
  }

  lemma LineAtReads(parse: Parser, data: Bytes, offset: nat, budgetLeft: int, s: nat)
    requires offset <= s && Terminated(data, s) && LineEnd(data, s) - s <= MAX_LINE_BYTES
    requires offset == 0 ==> s == 0
    requires offset > 0 ==> LineEnd(data, offset - 1) == s <= offset - 1 + MAX_LINE_BYTES
                            && data[s - 1] == NEWLINE
    ensures var r := LineAt(parse, data, offset, budgetLeft);
      r.start >= 0 || r.consumed >= budgetLeft
  {
    hide LineEnd;
    hide ParsedAt;
    var skip := s - (if offset == 0 then 0 else offset - 1);
    if skip < budgetLeft {
      ReadWhole(data, s, budgetLeft - skip);
    }
  }

  /** The rest of a terminated line fits in one read. */
  lemma SkipFits(data: Bytes, m: nat)
    requires LinesFit(data) && Terminated(data, m)
    ensures LineEnd(data, m) - m <= MAX_LINE_BYTES
  {
    var b := LineBefore(data, m);
    SameLineEnd(data, b, m);
    assert WholeLineAt(data, b);
  }

  /** The first line start at or after `offset` is a whole line if any later line is. */
  lemma {:induction false} FirstStart(data: Bytes, offset: nat, p: nat) returns (s: nat)
    requires offset <= p && WholeLineAt(data, p)
    ensures offset <= s <= p && WholeLineAt(data, s)
    ensures forall k :: offset <= k < s ==> !IsLineStart(data, k)
    ensures offset > 0 ==> LineEnd(data, offset - 1) == s
    decreases p - offset
  {
    if IsLineStart(data, offset) {
      s := offset;
      if s < p {
        if LineEnd(data, s) > p {
          NoStartInside(data, s, p);
        }
      }
    } else {
      s := FirstStart(data, offset + 1, p);
    }
  }

  /** The start of the line that holds byte `m`. */
  lemma {:induction false} LineBefore(data: Bytes, m: nat) returns (b: nat)
    requires m < |data|
    ensures b <= m < LineEnd(data, b) && IsLineStart(data, b)
    decreases m
  {
    if IsLineStart(data, m) {
      b := m;
    } else {
      b := LineBefore(data, m - 1);
      assert data[m - 1] != NEWLINE;
      SameLineEnd(data, b, m - 1);
    }
  }

  // ----- the search -----

  datatype Search = Search(lo: nat, hi: nat, guard: nat, spent: nat, foundBeyond: bool)

  predicate Going(s: Search) {
    s.lo < s.hi && s.guard < STEP_GUARD && s.spent < LOCATE_BYTE_CAP
  }

  predicate InBounds(data: Bytes, s: Search) {
    s.lo <= |data| && s.hi <= |data| && s.spent <= LOCATE_BYTE_CAP
  }

  function Middle(s: Search): nat {
    (s.lo + s.hi) / 2
  }

  function ProbeMiddle(parse: Parser, data: Bytes, s: Search): (r: Probe)
    requires InBounds(data, s) && Going(s)
    ensures r.consumed <= LOCATE_BYTE_CAP - s.spent && -1 <= r.start < |data|
  {
    LineAt(parse, data, Middle(s), LOCATE_BYTE_CAP - s.spent)
  }

  /** How a probe of the middle moves the interval. */
  function Decide(after: Id, s: Search, probe: Probe): Search
    requires probe.start >= -1
  {
    var next := s.(guard := s.guard + 1, spent := s.spent + probe.consumed);
    if probe.start < 0 then next.(hi := Middle(s))
    else if HasId(probe.row) && probe.row.id.value <= after then
      next.(lo := Max(probe.start + 1, Middle(s) + 1))
    else next.(hi := Min(Middle(s), probe.start), foundBeyond := true)
  }

  /** One turn of the loop. */
  function Narrow(parse: Parser, data: Bytes, after: Id, s: Search): (r: Search)
    requires InBounds(data, s) && Going(s)
    ensures InBounds(data, r)
    ensures r.guard == s.guard + 1 && r.spent >= s.spent
  {
    Decide(after, s, ProbeMiddle(parse, data, s))
  }

  function Searched(parse: Parser, data: Bytes, after: Id, s: Search): (r: Search)
    requires InBounds(data, s)
    ensures InBounds(data, r) && !Going(r) && r.spent >= s.spent
    decreases STEP_GUARD - s.guard
  {
    if Going(s) then Searched(parse, data, after, Narrow(parse, data, after, s)) else s
  }

  function Begin(data: Bytes): Search {
    Search(0, |data|, 0, 0, false)
  }

  datatype Place = Place(offset: nat, located: nat)

  /** Where the scan resumes, and the bytes spent finding it. */
  function Located(parse: Parser, data: Bytes, after: Id): (r: Place)
    ensures r.offset <= |data|
    ensures r.located <= LOCATE_BYTE_CAP
  {
    Settle(parse, data, Searched(parse, data, after, Begin(data)))
  }

  function Settle(parse: Parser, data: Bytes, s: Search): (r: Place)
    requires InBounds(data, s)
    ensures r.offset <= |data|
    ensures s.spent <= r.located <= LOCATE_BYTE_CAP
  {
    if s.lo >= |data| && !s.foundBeyond then Place(|data|, s.spent)
    else
      var probe := LineAt(parse, data, s.lo, Max(0, LOCATE_BYTE_CAP - s.spent));
      Place(if probe.start >= 0 then probe.start else Min(s.lo, |data|), s.spent + probe.consumed)
  }

  method Locate(parse: Parser, data: Bytes, after: Id) returns (offset: nat, located: nat)
    ensures Place(offset, located) == Located(parse, data, after)
  {
    var s := Begin(data);
    while s.lo < s.hi && s.guard < STEP_GUARD && s.spent < LOCATE_BYTE_CAP
      invariant InBounds(data, s)
      invariant Searched(parse, data, after, s) == Searched(parse, data, after, Begin(data))
      decreases STEP_GUARD - s.guard
    {
      var probe := ProbeMiddle(parse, data, s);
      s := Decide(after, s, probe);
    }
    var place := Settle(parse, data, s);
    return place.offset, place.located;
  }

  // ----- it never skips an unread row, however the search ended -----

  /** If the line at `start` is not beyond the cursor, neither is any line up to it. */
  lemma UpToSkipsNothing(parse: Parser, data: Bytes, after: Id, start: nat)
    requires IdsInOrder(parse, data) && WholeLineAt(data, start)
    requires HasId(ParsedAt(parse, data, start)) && ParsedAt(parse, data, start).id.value <= after
    ensures NothingSkipped(parse, data, after, start + 1)
  {
  }

  lemma DecideSkipsNothing(parse: Parser, data: Bytes, after: Id, s: Search, probe: Probe)
    requires IdsInOrder(parse, data) && NothingSkipped(parse, data, after, s.lo)
    requires probe.start >= -1 && (probe.start >= 0 ==> Found(parse, data, Middle(s), probe))
    ensures NothingSkipped(parse, data, after, Decide(after, s, probe).lo)
  {
    if probe.start >= 0 && HasId(probe.row) && probe.row.id.value <= after {
      UpToSkipsNothing(parse, data, after, probe.start);
    }
  }

  lemma {:induction false} SearchSkipsNothing(parse: Parser, data: Bytes, after: Id, s: Search)
    requires IdsInOrder(parse, data) && InBounds(data, s)
    requires NothingSkipped(parse, data, after, s.lo)
    ensures NothingSkipped(parse, data, after, Searched(parse, data, after, s).lo)
    decreases STEP_GUARD - s.guard
  {
    if Going(s) {
      LineAtFinds(parse, data, Middle(s), LOCATE_BYTE_CAP - s.spent);
      DecideSkipsNothing(parse, data, after, s, ProbeMiddle(parse, data, s));
      SearchSkipsNothing(parse, data, after, Narrow(parse, data, after, s));
    }
  }

  /** Moving on to the next line start skips no line. */
  lemma ToNextStartSkipsNothing(parse: Parser, data: Bytes, after: Id, lo: nat, start: nat)
    requires NothingSkipped(parse, data, after, lo)
    requires lo <= start <= |data| && NoWholeLineIn(data, lo, start)
    ensures NothingSkipped(parse, data, after, start)
  {
  }

  lemma SettleSkipsNothing(parse: Parser, data: Bytes, after: Id, s: Search)
    requires InBounds(data, s) && NothingSkipped(parse, data, after, s.lo)
    ensures NothingSkipped(parse, data, after, Settle(parse, data, s).offset)
  {
    var probe := LineAt(parse, data, s.lo, Max(0, LOCATE_BYTE_CAP - s.spent));
    LineAtFinds(parse, data, s.lo, Max(0, LOCATE_BYTE_CAP - s.spent));
    if probe.start >= 0 {
      ToNextStartSkipsNothing(parse, data, after, s.lo, probe.start);
    }
  }

  /** Whatever cut the search short, every id-bearing line before the result is at most the cursor. */
  lemma LocateSkipsNothing(parse: Parser, data: Bytes, after: Id)
    requires IdsInOrder(parse, data)
    ensures NothingSkipped(parse, data, after, Located(parse, data, after).offset)
  {
    SearchSkipsNothing(parse, data, after, Begin(data));
    SettleSkipsNothing(parse, data, after, Searched(parse, data, after, Begin(data)));
  }

  // ----- the result is a spot from which a scan may start -----

  lemma AfterIdIsSpot(parse: Parser, data: Bytes, start: nat)
    requires WholeLineAt(data, start) && HasId(ParsedAt(parse, data, start))
    ensures Spot(parse, data, start + 1)
  {
    if start + 1 < LineEnd(data, start) {
      assert InsideIdLine(parse, data, start + 1);
    }
  }

  lemma {:induction false} SearchKeepsSpot(parse: Parser, data: Bytes, after: Id, s: Search)
    requires InBounds(data, s) && Spot(parse, data, s.lo)
    ensures Spot(parse, data, Searched(parse, data, after, s).lo)
    decreases STEP_GUARD - s.guard
  {
    hide Spot;
    if Going(s) {
      LineAtFinds(parse, data, Middle(s), LOCATE_BYTE_CAP - s.spent);
      var probe := ProbeMiddle(parse, data, s);
      if probe.start >= 0 && HasId(probe.row) {
        AfterIdIsSpot(parse, data, probe.start);
      }
      SearchKeepsSpot(parse, data, after, Narrow(parse, data, after, s));
    }
  }

  /** The search ends at a line, at the end of the file, or inside a line that carries an id. */
  lemma LocatedIsSpot(parse: Parser, data: Bytes, after: Id)
    ensures Spot(parse, data, Located(parse, data, after).offset)
  {
    hide Searched;
    hide Settle;
    SearchKeepsSpot(parse, data, after, Begin(data));
    SettleIsSpot(parse, data, Searched(parse, data, after, Begin(data)));
  }

  lemma SettleIsSpot(parse: Parser, data: Bytes, s: Search)
    requires InBounds(data, s) && Spot(parse, data, s.lo)
    ensures Spot(parse, data, Settle(parse, data, s).offset)
  {
    hide InsideIdLine;
    hide LineAt;
    LineAtFinds(parse, data, s.lo, Max(0, LOCATE_BYTE_CAP - s.spent));
  }

  // ----- it is exact when no read was cut off -----

  /** Every whole line carries an id. */
  ghost predicate AllLinesHaveIds(parse: Parser, data: Bytes) {
    forall p :: 0 <= p && WholeLineAt(data, p) ==> HasId(ParsedAt(parse, data, p))
  }

  /** `t` is the start of the first line beyond the cursor, or the end of the file if there is none. */
  ghost predicate FirstBeyond(parse: Parser, data: Bytes, after: Id, t: nat) {
    && t <= |data|
    && NothingSkipped(parse, data, after, t)
    && (t < |data| ==> WholeLineAt(data, t) && HasId(ParsedAt(parse, data, t))
                       && ParsedAt(parse, data, t).id.value > after)
  }

  ghost predicate Closing(parse: Parser, data: Bytes, t: nat, s: Search) {
    && s.lo <= t
    && NoWholeLineIn(data, s.hi, t)
  }

  lemma DecideCloses(parse: Parser, data: Bytes, after: Id, t: nat, s: Search, probe: Probe)
    requires IdsInOrder(parse, data) && AllLinesHaveIds(parse, data)
    requires FirstBeyond(parse, data, after, t) && Closing(parse, data, t, s)
    requires probe.start >= -1
    requires if probe.start >= 0 then Found(parse, data, Middle(s), probe)
             else NoWholeLineIn(data, Middle(s), |data|)
    ensures Closing(parse, data, t, Decide(after, s, probe))
  {
    if probe.start >= 0 {
      assert HasId(probe.row);
    }
  }

  function Pow2(n: nat): (r: nat)
    ensures r >= 1
  {
    if n == 0 then 1 else 2 * Pow2(n - 1)
  }

  lemma Pow2Ten(n: nat)
    ensures Pow2(n + 10) == 1024 * Pow2(n)
  {
    assert Pow2(n + 2) == 4 * Pow2(n);
    assert Pow2(n + 4) == 4 * Pow2(n + 2);
    assert Pow2(n + 6) == 4 * Pow2(n + 4);
    assert Pow2(n + 8) == 4 * Pow2(n + 6);
    assert Pow2(n + 10) == 4 * Pow2(n + 8);
  }

  lemma Pow2SixtyFour()
    ensures Pow2(64) == 0x1_0000_0000_0000_0000
  {
    Pow2Ten(4); Pow2Ten(14); Pow2Ten(24); Pow2Ten(34); Pow2Ten(44); Pow2Ten(54);
  }

  /** The interval is small enough for the turns that are left. */
  predicate Affordable(s: Search) {
    s.guard <= STEP_GUARD && s.hi - s.lo < Pow2(STEP_GUARD - s.guard)
  }

  lemma BeginIsAffordable(data: Bytes)
    requires |data| < 0x1_0000_0000_0000_0000
    ensures Affordable(Begin(data))
  {
    Pow2SixtyFour();
  }

  /** Each turn at least halves the interval. */
  lemma DecideHalves(after: Id, s: Search, probe: Probe)
    requires s.lo < s.hi && s.guard < STEP_GUARD && probe.start >= -1 && Affordable(s)
    ensures Affordable(Decide(after, s, probe))
  {
    var r := Decide(after, s, probe);
    assert r.lo >= r.hi || 2 * (r.hi - r.lo) <= s.hi - s.lo;
    assert Pow2(STEP_GUARD - s.guard) == 2 * Pow2(STEP_GUARD - s.guard - 1);
  }

  lemma NarrowCloses(parse: Parser, data: Bytes, after: Id, t: nat, s: Search)
    requires IdsInOrder(parse, data) && AllLinesHaveIds(parse, data) && LinesFit(data)
    requires FirstBeyond(parse, data, after, t) && InBounds(data, s) && Going(s)
    requires Closing(parse, data, t, s)
    requires Narrow(parse, data, after, s).spent < LOCATE_BYTE_CAP
    ensures Closing(parse, data, t, Narrow(parse, data, after, s))
  {
    var probe := ProbeMiddle(parse, data, s);
    ProbeTells(parse, data, s);
    DecideCloses(parse, data, after, t, s, probe);
  }

  /** What a probe that stayed within its budget tells about the lines from the middle on. */
  lemma ProbeTells(parse: Parser, data: Bytes, s: Search)
    requires LinesFit(data) && InBounds(data, s) && Going(s)
    requires s.spent + ProbeMiddle(parse, data, s).consumed < LOCATE_BYTE_CAP
    ensures var probe := ProbeMiddle(parse, data, s);
      if probe.start >= 0 then Found(parse, data, Middle(s), probe)
      else NoWholeLineIn(data, Middle(s), |data|)
  {
    hide LineAt;
    LineAtFinds(parse, data, Middle(s), LOCATE_BYTE_CAP - s.spent);
    LineAtMisses(parse, data, Middle(s), LOCATE_BYTE_CAP - s.spent);
  }

  lemma {:induction false} SearchCloses(parse: Parser, data: Bytes, after: Id, t: nat, s: Search)
    requires IdsInOrder(parse, data) && AllLinesHaveIds(parse, data) && LinesFit(data)
    requires FirstBeyond(parse, data, after, t) && InBounds(data, s)
    requires Closing(parse, data, t, s) && Affordable(s)
    requires Searched(parse, data, after, s).spent < LOCATE_BYTE_CAP
    ensures var r := Searched(parse, data, after, s); Closing(parse, data, t, r) && r.lo >= r.hi
    decreases STEP_GUARD - s.guard
  {
    if Going(s) {
      NarrowCloses(parse, data, after, t, s);
      DecideHalves(after, s, ProbeMiddle(parse, data, s));
      SearchCloses(parse, data, after, t, Narrow(parse, data, after, s));
    }
  }

  /**
   On a file of id-bearing lines, a search that stayed under its byte budget ends with no
   line between the result and the first line beyond the cursor; the 64-step guard never
   cuts it short. If such a line exists, the result is exactly its start.
   */
  lemma LocateIsExact(parse: Parser, data: Bytes, after: Id, t: nat)
    requires IdsInOrder(parse, data) && AllLinesHaveIds(parse, data) && LinesFit(data)
    requires FirstBeyond(parse, data, after, t)
    requires |data| < 0x1_0000_0000_0000_0000
    requires Located(parse, data, after).located < LOCATE_BYTE_CAP
    ensures var r := Located(parse, data, after).offset;
      && NoWholeLineIn(data, r, t)
      && r <= t
      && (t < |data| ==> r == t)
  {
    BeginIsAffordable(data);
    SearchCloses(parse, data, after, t, Begin(data));
    SettleIsExact(parse, data, t, Searched(parse, data, after, Begin(data)));
  }

  lemma SettleIsExact(parse: Parser, data: Bytes, t: nat, s: Search)
    requires LinesFit(data) && InBounds(data, s) && Settle(parse, data, s).located < LOCATE_BYTE_CAP
    requires s.lo <= t <= |data| && NoWholeLineIn(data, s.lo, t)
    requires t < |data| ==> WholeLineAt(data, t)
    ensures var r := Settle(parse, data, s).offset;
      r <= t && NoWholeLineIn(data, r, t) && (t < |data| ==> r == t)
  {
    hide LineAt;
    LineAtFinds(parse, data, s.lo, Max(0, LOCATE_BYTE_CAP - s.spent));
    LineAtMisses(parse, data, s.lo, Max(0, LOCATE_BYTE_CAP - s.spent));
  }

  // ----- and at the tail, where nothing lies beyond the cursor -----

  /** `e` is just past the first byte of the last whole line, or 0 if there is no whole line. */
  ghost predicate Tail(data: Bytes, e: nat) {
    e <= |data| && NoWholeLineIn(data, e, |data|) && (e > 0 ==> WholeLineAt(data, e - 1))
  }

  ghost predicate AtTail(e: nat, s: Search) {
    s.lo <= e <= s.hi && !s.foundBeyond
  }

  /** A probe at or before the last line raises `lo` up to it; one past the last line lowers `hi` to it. */
  lemma NarrowStaysAtTail(parse: Parser, data: Bytes, after: Id, e: nat, s: Search)
    requires AllLinesHaveIds(parse, data) && LinesFit(data) && NothingSkipped(parse, data, after, |data|)
    requires Tail(data, e) && InBounds(data, s) && Going(s) && AtTail(e, s)
    requires Narrow(parse, data, after, s).spent < LOCATE_BYTE_CAP
    ensures AtTail(e, Narrow(parse, data, after, s))
  {
    hide LineAt;
    ProbeTells(parse, data, s);
    var probe := ProbeMiddle(parse, data, s);
    if probe.start >= 0 {
      assert probe.start < e;
    }
  }

  lemma {:induction false} SearchEndsAtTail(parse: Parser, data: Bytes, after: Id, e: nat, s: Search)
    requires AllLinesHaveIds(parse, data) && LinesFit(data) && NothingSkipped(parse, data, after, |data|)
    requires Tail(data, e) && InBounds(data, s) && AtTail(e, s) && Affordable(s)
    requires Searched(parse, data, after, s).spent < LOCATE_BYTE_CAP
    ensures var r := Searched(parse, data, after, s); r.lo == e && !r.foundBeyond
    decreases STEP_GUARD - s.guard
  {
    hide Tail;
    if Going(s) {
      NarrowStaysAtTail(parse, data, after, e, s);
      DecideHalves(after, s, ProbeMiddle(parse, data, s));
      SearchEndsAtTail(parse, data, after, e, Narrow(parse, data, after, s));
    }
  }

  /**
   With no line beyond the cursor, an uncut search returns the second byte of the last whole line, or
   0 if the file has no whole line: not the size of the file, and no line start unless that last line
   is a bare newline.
   */
  lemma LocateAtTail(parse: Parser, data: Bytes, after: Id, e: nat)
    requires AllLinesHaveIds(parse, data) && LinesFit(data) && NothingSkipped(parse, data, after, |data|)
    requires e <= |data| && Tail(data, e) && |data| < 0x1_0000_0000_0000_0000
    requires Located(parse, data, after).located < LOCATE_BYTE_CAP
    ensures Located(parse, data, after).offset == e
    ensures IsLineStart(data, e) <==> e == 0 || LineEnd(data, e - 1) == e
  {
    hide Searched;
    hide Settle;
    hide Tail;
    hide Affordable;
    hide LineEnd;
    BeginIsAffordable(data);
    TailBounds(data, e);
    SearchEndsAtTail(parse, data, after, e, Begin(data));
    SettleAtTail(parse, data, e, Searched(parse, data, after, Begin(data)));
  }

  lemma TailBounds(data: Bytes, e: nat)
    requires Tail(data, e)
    ensures e <= |data| && (IsLineStart(data, e) <==> e == 0 || LineEnd(data, e - 1) == e)
  {
  }

  lemma SettleAtTail(parse: Parser, data: Bytes, e: nat, s: Search)
    requires InBounds(data, s) && Tail(data, e) && s.lo == e && !s.foundBeyond
    ensures Settle(parse, data, s).offset == e
  {
    hide LineAt;
    LineAtFinds(parse, data, s.lo, Max(0, LOCATE_BYTE_CAP - s.spent));
  }

  /**
   So an uncut search of id-bearing lines returns a line start if and only if a line lies beyond the
   cursor, or there is no whole line, or the last one is a bare newline.
   */
  lemma LocateIsLineStartIff(parse: Parser, data: Bytes, after: Id, t: nat, e: nat)
    requires IdsInOrder(parse, data) && AllLinesHaveIds(parse, data) && LinesFit(data)
    requires FirstBeyond(parse, data, after, t) && e <= |data| && Tail(data, e) && |data| < 0x1_0000_0000_0000_0000
    requires Located(parse, data, after).located < LOCATE_BYTE_CAP
    ensures IsLineStart(data, Located(parse, data, after).offset) <==> t < |data| || e == 0 || LineEnd(data, e - 1) == e
  {
    hide Located;
    hide LineEnd;
    if t < |data| {
      LocateIsExact(parse, data, after, t);
    } else {
      LocateAtTail(parse, data, after, e);
    }
  }

  // ----- short files are never cut off -----

  lemma ProbeIsShort(parse: Parser, data: Bytes, offset: nat, budgetLeft: int)
    requires offset <= |data|
    ensures LineAt(parse, data, offset, budgetLeft).consumed <= |data|
  {
  }

  /** What so many probes of a file of so many bytes cost at most. */
  function Turns(turns: nat, bytes: nat): nat {
    turns * bytes
  }

  lemma TurnsGrow(turns: nat, more: nat, bytes: nat)
    requires turns <= more
    ensures Turns(turns, bytes) <= Turns(more, bytes)
    ensures Turns(turns + 1, bytes) == Turns(turns, bytes) + bytes
  {
  }

  lemma {:induction false} SearchIsShort(parse: Parser, data: Bytes, after: Id, s: Search)
    requires InBounds(data, s) && s.guard <= STEP_GUARD && s.spent <= Turns(s.guard, |data|)
    ensures Searched(parse, data, after, s).spent <= Turns(STEP_GUARD, |data|)
    decreases STEP_GUARD - s.guard
  {
    hide LineAt;
    hide Turns;
    TurnsGrow(s.guard, STEP_GUARD, |data|);
    if Going(s) {
      ProbeIsShort(parse, data, Middle(s), LOCATE_BYTE_CAP - s.spent);
      SearchIsShort(parse, data, after, Narrow(parse, data, after, s));
    }
  }

  /** A search of a file of less than 32 KB never uses up its byte budget. */
  lemma ShortFilesAreUncut(parse: Parser, data: Bytes, after: Id)
    requires |data| < 32_000
    ensures Located(parse, data, after).located < LOCATE_BYTE_CAP
  {
    hide Searched;
    hide LineAt;
    var s := Searched(parse, data, after, Begin(data));
    SearchIsShort(parse, data, after, Begin(data));
    ProbeIsShort(parse, data, s.lo, Max(0, LOCATE_BYTE_CAP - s.spent));
  }

  /** For instance, in every short file of one line whose id is not beyond the cursor, the search ends inside it. */
  lemma OneLineFile(parse: Parser, data: Bytes, after: Id)
    requires 2 <= |data| < 32_000 && WholeLineAt(data, 0) && LineEnd(data, 0) == |data|
    requires HasId(parse(data)) && parse(data).id.value <= after
    ensures Located(parse, data, after).offset == 1 && !IsLineStart(data, 1)
  {
    hide Located;
    hide LineEnd;
    assert Chunk(data, 0) == data;
    forall p | 0 < p < |data| ensures !IsLineStart(data, p) {
      NoStartInside(data, 0, p);
    }
    ShortFilesAreUncut(parse, data, after);
    LocateAtTail(parse, data, after, 1);
  }

  /** Such files exist. */
  lemma TailIsInsideTheLine()
    ensures var line, row := [123 as bv8, 125 as bv8, NEWLINE], Object(Some(7), true, Some(0), Record, "");
      Located((_: Bytes) => row, line, 7).offset == 1 && !IsLineStart(line, 1) && |line| == 3
  {
    hide Located;
    var line, row := [123 as bv8, 125 as bv8, NEWLINE], Object(Some(7), true, Some(0), Record, "");
    assert LineEnd(line, 2) == 3;
    assert LineEnd(line, 1) == 3;
    assert LineEnd(line, 0) == 3;
    OneLineFile((_: Bytes) => row, line, 7);
  }
}
