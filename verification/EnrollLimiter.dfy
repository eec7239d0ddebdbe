/**
 `_EnrollRateLimiter`: per-address and global sliding windows over enrolment requests, and
 the audit summaries of what was rejected.
 */
module EnrollLimiter {
  import opened Wrappers
  import opened Numbers
  import opened SlidingWindow

  const PER_ADDRESS: nat := 10
  const GLOBAL: nat := 120
  const WINDOW: real := 60.0
  const DISTINCT_KEY_CAP: nat := 4096

  /** `table` is the per-address dictionary of deques. */
  datatype Limiter = Limiter(global: seq<real>, table: map<string, seq<real>>,
                             rejected: nat, rejectedKeys: set<string>, lastSummary: Option<real>)

  const NEW := Limiter([], map[], 0, {}, None)

  function Hits(table: map<string, seq<real>>, ip: string): seq<real> {
    if ip in table then table[ip] else []
  }

  predicate StaleDeque(s: seq<real>, cutoff: real) {
    s == [] || s[|s| - 1] <= cutoff
  }

  /** The dictionary without the addresses whose last hit is too old. */
  function Evict(table: map<string, seq<real>>, cutoff: real): map<string, seq<real>> {
    map ip | ip in table && !StaleDeque(table[ip], cutoff) :: table[ip]
  }

  /** The dictionary after eviction and after trimming the caller's own deque. */
  function Trim(table: map<string, seq<real>>, ip: string, cutoff: real): map<string, seq<real>> {
    var t := Evict(table, cutoff);
    if ip in t then t[ip := Keep(t[ip], cutoff)] else t
  }

  predicate Admits(global: seq<real>, table: map<string, seq<real>>, ip: string) {
    |global| < GLOBAL && |Hits(table, ip)| < PER_ADDRESS
  }

  /** `_allow_locked` */
  function Decide(l: Limiter, ip: string, now: real): (Limiter, bool) {
    var cutoff := now - WINDOW;
    var global, table := Keep(l.global, cutoff), Trim(l.table, ip, cutoff);
    if !Admits(global, table, ip) then (l.(global := global, table := table), false)
    else (l.(global := global + [now], table := table[ip := Hits(table, ip) + [now]]), true)
  }

  /** The audit line: how many were rejected, of how many addresses, and who asked last. */
  datatype Summary = Summary(count: nat, keys: nat, lastKey: string)

  /** `_take_summary_locked`: the line it reports, if it is due. */
  function Summarise(l: Limiter, ip: string, now: real): (Limiter, Option<Summary>) {
    if l.rejected == 0 then (l, None)
    else if l.lastSummary.Some? && now - l.lastSummary.value < WINDOW then (l, None)
    else (l.(rejected := 0, rejectedKeys := {}, lastSummary := Some(now)),
          Some(Summary(l.rejected, |l.rejectedKeys|, ip)))
  }

  function CountRejection(l: Limiter, ip: string): Limiter {
    l.(rejected := l.rejected + 1,
       rejectedKeys := if |l.rejectedKeys| < DISTINCT_KEY_CAP then l.rejectedKeys + {ip} else l.rejectedKeys)
  }

  datatype Verdict = Verdict(allowed: bool, summary: Option<Summary>)

  /** `allow`: the clock is read once for the decision and once for the summary. */
  function Handle(l: Limiter, ip: string, now: real, later: real): (Limiter, Verdict) {
    var (l1, allowed) := Decide(l, ip, now);
    var l2 := if allowed then l1 else CountRejection(l1, ip);
    var (l3, summary) := Summarise(l2, ip, later);
    (l3, Verdict(allowed, summary))
  }

  // ----- the admission history the limiter stands for -----

  datatype Hit = Hit(time: real, ip: string)
  /** A summary that was taken, and how many addresses had really been rejected since the one before. */
  datatype Report = Report(time: real, summary: Summary, distinct: nat)

  /** Everything that happened, beside the limiter: it forgets, the history does not. */
  datatype History = History(limiter: Limiter, hits: seq<Hit>, rejections: nat, refused: set<string>,
                             reports: seq<Report>, last: real)

  function Times(hits: seq<Hit>): (r: seq<real>)
    ensures |r| == |hits| && forall i :: 0 <= i < |hits| ==> r[i] == hits[i].time
  {
    if hits == [] then [] else Times(hits[..|hits| - 1]) + [hits[|hits| - 1].time]
  }

  function TimesOf(hits: seq<Hit>, ip: string): (r: seq<real>) {
    if hits == [] then []
    else TimesOf(hits[..|hits| - 1], ip)
         + (if hits[|hits| - 1].ip == ip then [hits[|hits| - 1].time] else [])
  }

  /** The decision on the whole history: fewer than 120 and fewer than 10 in the last minute. */
  predicate MayEnter(hits: seq<Hit>, ip: string, now: real) {
    && |Keep(Times(hits), now - WINDOW)| < GLOBAL
    && |Keep(TimesOf(hits, ip), now - WINDOW)| < PER_ADDRESS
  }

  function Next(h: History, ip: string, now: real, later: real): History {
    var (l, v) := Handle(h.limiter, ip, now, later);
    var refused := if v.allowed then h.refused else h.refused + {ip};
    History(l, if v.allowed then h.hits + [Hit(now, ip)] else h.hits,
            if v.allowed then h.rejections else h.rejections + 1,
            if v.summary.Some? then {} else refused,
            if v.summary.Some? then h.reports + [Report(later, v.summary.value, |refused|)] else h.reports,
            later)
  }

  function Start(clock: real): History {
    History(NEW, [], 0, {}, [], clock)
  }

  // ----- the limiter agrees with the history -----

  ghost predicate TableAgrees(hits: seq<Hit>, table: map<string, seq<real>>, since: real) {
    forall ip :: Agrees(TimesOf(hits, ip), Hits(table, ip), since)
  }

  ghost predicate TableSorted(table: map<string, seq<real>>, last: real) {
    forall ip :: ip in table ==> Sorted(table[ip]) && UpTo(table[ip], last)
  }

  ghost predicate HistorySpaced(hits: seq<Hit>) {
    && Sorted(Times(hits)) && Spaced(Times(hits), GLOBAL, WINDOW)
    && forall ip :: Sorted(TimesOf(hits, ip)) && Spaced(TimesOf(hits, ip), PER_ADDRESS, WINDOW)
  }

  ghost predicate HistoryUpTo(hits: seq<Hit>, last: real) {
    UpTo(Times(hits), last) && forall ip :: UpTo(TimesOf(hits, ip), last)
  }

  lemma TimesAppend(hits: seq<Hit>, h: Hit, ip: string)
    ensures Times(hits + [h]) == Times(hits) + [h.time]
    ensures TimesOf(hits + [h], ip) == TimesOf(hits, ip) + (if h.ip == ip then [h.time] else [])
  {
    assert (hits + [h])[..|hits|] == hits;
  }

  /** Eviction and trimming change no window from the cutoff on. */
  lemma TrimAgrees(hits: seq<Hit>, table: map<string, seq<real>>, ip: string, since: real, cutoff: real, last: real)
    requires TableAgrees(hits, table, since) && since <= cutoff && TableSorted(table, last)
    ensures TableAgrees(hits, Trim(table, ip, cutoff), cutoff)
    ensures TableSorted(Trim(table, ip, cutoff), last)
  {
    var t := Trim(table, ip, cutoff);
    forall a ensures Agrees(TimesOf(hits, a), Hits(t, a), cutoff) {
      assert Agrees(TimesOf(hits, a), Hits(table, a), since);
      if a !in Evict(table, cutoff) {
        if a in table {
          assert UpTo(table[a], cutoff);
        }
        AgreesEmpty(TimesOf(hits, a), Hits(table, a), since, cutoff);
      } else if a == ip {
        AgreesAfterTrim(TimesOf(hits, a), table[a], since, cutoff);
      }
    }
    if ip in Evict(table, cutoff) {
      KeepIsSuffix(table[ip], cutoff);
    }
  }

  ghost predicate Inv(h: History) {
    && Agrees(Times(h.hits), h.limiter.global, h.last - WINDOW) && Sorted(h.limiter.global)
    && TableAgrees(h.hits, h.limiter.table, h.last - WINDOW) && TableSorted(h.limiter.table, h.last)
    && HistorySpaced(h.hits) && HistoryUpTo(h.hits, h.last)
  }

  /** The limiter decides exactly as the whole history would. */
  lemma DecidesAsHistory(h: History, ip: string, now: real)
    requires Inv(h) && h.last <= now
    ensures Decide(h.limiter, ip, now).1 <==> MayEnter(h.hits, ip, now)
  {
    var cutoff := now - WINDOW;
    var t := Trim(h.limiter.table, ip, cutoff);
    TrimAgrees(h.hits, h.limiter.table, ip, h.last - WINDOW, cutoff, h.last);
    assert Agrees(TimesOf(h.hits, ip), Hits(t, ip), cutoff);
    assert Keep(Hits(t, ip), cutoff) == Keep(TimesOf(h.hits, ip), cutoff);
    TrimmedIsKept(h.limiter.table, ip, cutoff);
  }

  /** The admissions of an address after `cutoff`, by position. */
  ghost function RecentOf(hits: seq<Hit>, ip: string, cutoff: real): set<int> {
    set i | 0 <= i < |hits| && hits[i].ip == ip && hits[i].time > cutoff
  }

  lemma {:induction false} OwnNumber(hits: seq<Hit>, ip: string, cutoff: real)
    ensures |Keep(TimesOf(hits, ip), cutoff)| == |RecentOf(hits, ip, cutoff)|
  {
    if hits != [] {
      var n := |hits| - 1;
      OwnNumber(hits[..n], ip, cutoff);
      KeepAppend(TimesOf(hits[..n], ip), hits[n].time, cutoff);
      assert TimesOf(hits[..n], ip) + [] == TimesOf(hits[..n], ip);
      RecentLast(hits, ip, cutoff);
      assert n !in RecentOf(hits[..n], ip, cutoff);
    }
  }

  lemma RecentLast(hits: seq<Hit>, ip: string, cutoff: real)
    requires hits != []
    ensures var n := |hits| - 1;
      RecentOf(hits, ip, cutoff) == RecentOf(hits[..n], ip, cutoff)
        + if hits[n].ip == ip && hits[n].time > cutoff then {n} else {}
  {
  }

  /**
   A request is admitted if and only if fewer than 120 admissions of anybody and fewer than 10 of its
   address lie in the last 60 seconds, and only then is it added to the admissions, with its time.
   */
  lemma AdmittedIff(h: History, ip: string, now: real, later: real)
    requires Inv(h) && h.last <= now
    ensures var admitted := Handle(h.limiter, ip, now, later).1.allowed;
      && (admitted <==>
            |set i | 0 <= i < |h.hits| && h.hits[i].time > now - 60.0| < 120
            && |set i | 0 <= i < |h.hits| && h.hits[i].ip == ip && h.hits[i].time > now - 60.0| < 10)
      && Next(h, ip, now, later).hits == (if admitted then h.hits + [Hit(now, ip)] else h.hits)
      && Next(h, ip, now, later).rejections == h.rejections + (if admitted then 0 else 1)
  {
    hide Decide;
    hide Keep;
    DecidesAsHistory(h, ip, now);
    KeepNumber(Times(h.hits), now - 60.0);
    OwnNumber(h.hits, ip, now - 60.0);
    assert Recent(Times(h.hits), now - 60.0) == set i | 0 <= i < |h.hits| && h.hits[i].time > now - 60.0;
    assert RecentOf(h.hits, ip, now - 60.0)
        == set i | 0 <= i < |h.hits| && h.hits[i].ip == ip && h.hits[i].time > now - 60.0;
  }

  /** A summary is taken exactly if something was rejected and none was taken in the last 60 seconds. */
  lemma SummaryIff(l: Limiter, ip: string, now: real)
    ensures var (b, s) := Summarise(l, ip, now);
      && (s.Some? <==> l.rejected > 0 && (l.lastSummary.Some? ==> now - l.lastSummary.value >= 60.0))
      && (s.Some? ==> s.value == Summary(l.rejected, |l.rejectedKeys|, ip) && b.rejected == 0 && b.rejectedKeys == {}
                      && b.lastSummary == Some(now))
      && (s.None? ==> b == l)
  {
  }

  /** After trimming, the caller's own deque lies inside the window. */
  lemma TrimmedIsKept(table: map<string, seq<real>>, ip: string, cutoff: real)
    ensures var d := Hits(Trim(table, ip, cutoff), ip); Keep(d, cutoff) == d
  {
    var d := Hits(Evict(table, cutoff), ip);
    KeepKeep(d, cutoff, cutoff);
  }

  lemma GlobalStep(full: seq<real>, global: seq<real>, since: real, now: real, later: real)
    requires Agrees(full, global, since) && Sorted(global) && since <= now - WINDOW && now <= later
    requires UpTo(full, now)
    ensures var kept := Keep(global, now - WINDOW);
      && Agrees(full, kept, later - WINDOW) && Sorted(kept)
      && Agrees(full + [now], kept + [now], later - WINDOW) && Sorted(kept + [now])
  {
    var kept := Keep(global, now - WINDOW);
    KeepIsSuffix(global, now - WINDOW);
    AgreesAfterTrim(full, global, since, now - WINDOW);
    AgreesAfterAppend(full, kept, now - WINDOW, now);
    assert kept == Keep(full, now - WINDOW);
    forall i | 0 <= i < |kept| ensures kept[i] <= now {
      assert kept[i] in full;
    }
  }

  lemma AdmitAgrees(hits: seq<Hit>, t: map<string, seq<real>>, ip: string, since: real, now: real)
    requires TableAgrees(hits, t, since)
    ensures TableAgrees(hits + [Hit(now, ip)], t[ip := Hits(t, ip) + [now]], since)
  {
    hide Agrees;
    var u := t[ip := Hits(t, ip) + [now]];
    forall a ensures Agrees(TimesOf(hits + [Hit(now, ip)], a), Hits(u, a), since) {
      hide TimesOf;
      TimesAppend(hits, Hit(now, ip), a);
      assert Agrees(TimesOf(hits, a), Hits(t, a), since);
      if a == ip {
        AgreesAfterAppend(TimesOf(hits, a), Hits(t, a), since, now);
      } else {
        assert TimesOf(hits, a) + [] == TimesOf(hits, a);
      }
    }
  }

  lemma AgreesLater(hits: seq<Hit>, t: map<string, seq<real>>, since: real, later: real)
    requires TableAgrees(hits, t, since) && since <= later
    ensures TableAgrees(hits, t, later)
  {
    forall a ensures Agrees(TimesOf(hits, a), Hits(t, a), later) {
      assert Agrees(TimesOf(hits, a), Hits(t, a), since);
    }
  }

  lemma AdmitSorted(t: map<string, seq<real>>, ip: string, now: real, later: real)
    requires TableSorted(t, now) && now <= later
    ensures TableSorted(t, later) && TableSorted(t[ip := Hits(t, ip) + [now]], later)
  {
  }

  lemma TableStep(hits: seq<Hit>, table: map<string, seq<real>>, ip: string, since: real, now: real, later: real)
    requires TableAgrees(hits, table, since) && TableSorted(table, now)
    requires since <= now - WINDOW && now <= later
    ensures var t := Trim(table, ip, now - WINDOW);
      && TableAgrees(hits, t, later - WINDOW) && TableSorted(t, later)
      && TableAgrees(hits + [Hit(now, ip)], t[ip := Hits(t, ip) + [now]], later - WINDOW)
      && TableSorted(t[ip := Hits(t, ip) + [now]], later)
  {
    hide TableAgrees;
    hide TableSorted;
    hide Trim;
    var t := Trim(table, ip, now - WINDOW);
    TrimAgrees(hits, table, ip, since, now - WINDOW, now);
    AgreesLater(hits, t, now - WINDOW, later - WINDOW);
    AdmitAgrees(hits, t, ip, later - WINDOW, now);
    AdmitSorted(t, ip, now, later);
  }

  /** Admitting one more keeps each address's own hits sorted, spaced and past. */
  lemma AddressStep(hits: seq<Hit>, ip: string, now: real, later: real, a: string)
    requires Sorted(TimesOf(hits, a)) && Spaced(TimesOf(hits, a), PER_ADDRESS, WINDOW) && UpTo(TimesOf(hits, a), now)
    requires |Keep(TimesOf(hits, ip), now - WINDOW)| < PER_ADDRESS && now <= later
    ensures var r := TimesOf(hits + [Hit(now, ip)], a);
      Sorted(r) && Spaced(r, PER_ADDRESS, WINDOW) && UpTo(r, later)
  {
    hide TimesOf;
    hide Spaced;
    hide Sorted;
    TimesAppend(hits, Hit(now, ip), a);
    if a == ip {
      AdmittingKeepsSpacing(TimesOf(hits, ip), PER_ADDRESS, WINDOW, now);
    } else {
      assert TimesOf(hits, a) + [] == TimesOf(hits, a);
    }
  }

  lemma HistoryStep(hits: seq<Hit>, ip: string, now: real, later: real)
    requires HistorySpaced(hits) && HistoryUpTo(hits, now) && now <= later && MayEnter(hits, ip, now)
    ensures HistorySpaced(hits + [Hit(now, ip)]) && HistoryUpTo(hits + [Hit(now, ip)], later)
  {
    hide TimesOf;
    hide Spaced;
    hide Sorted;
    var more := hits + [Hit(now, ip)];
    AdmittingKeepsSpacing(Times(hits), GLOBAL, WINDOW, now);
    TimesAppend(hits, Hit(now, ip), ip);
    forall a
      ensures Sorted(TimesOf(more, a)) && Spaced(TimesOf(more, a), PER_ADDRESS, WINDOW) && UpTo(TimesOf(more, a), later)
    {
      AddressStep(hits, ip, now, later, a);
    }
  }

  /** Every call keeps the limiter in step with the history, and the history within the limits. */
  lemma NextKeeps(h: History, ip: string, now: real, later: real)
    requires Inv(h) && h.last <= now <= later
    ensures Inv(Next(h, ip, now, later))
  {
    hide Keep;
    hide Trim;
    hide Agrees;
    hide TableAgrees;
    hide TableSorted;
    hide HistorySpaced;
    hide Sorted;
    StillUpTo(h, now);
    DecidesAsHistory(h, ip, now);
    GlobalStep(Times(h.hits), h.limiter.global, h.last - WINDOW, now, later);
    TableStep(h.hits, h.limiter.table, ip, h.last - WINDOW, now, later);
    if MayEnter(h.hits, ip, now) {
      HistoryStep(h.hits, ip, now, later);
      TimesAppend(h.hits, Hit(now, ip), ip);
    }
  }

  lemma StillUpTo(h: History, now: real)
    requires HistoryUpTo(h.hits, h.last) && TableSorted(h.limiter.table, h.last) && h.last <= now
    ensures HistoryUpTo(h.hits, now) && TableSorted(h.limiter.table, now) && UpTo(Times(h.hits), now)
    ensures forall later :: now <= later ==> HistoryUpTo(h.hits, later)
  {
    forall ip ensures UpTo(TimesOf(h.hits, ip), now) {
      assert UpTo(TimesOf(h.hits, ip), h.last);
    }
    forall later | now <= later ensures HistoryUpTo(h.hits, later) {
      forall ip ensures UpTo(TimesOf(h.hits, ip), later) {
        assert UpTo(TimesOf(h.hits, ip), h.last);
      }
    }
  }

  // ----- the table stays small -----

  lemma {:induction false} TimeHasHit(hits: seq<Hit>, ip: string, t: real) returns (i: nat)
    requires t in TimesOf(hits, ip)
    ensures i < |hits| && hits[i] == Hit(t, ip)
  {
    var n := |hits| - 1;
    if hits[n] == Hit(t, ip) {
      i := n;
    } else {
      i := TimeHasHit(hits[..n], ip, t);
    }
  }

  lemma {:induction false} FewDistinct(ips: seq<string>)
    ensures |set x | x in ips| <= |ips|
  {
    if ips != [] {
      FewDistinct(ips[1..]);
      assert (set x | x in ips) == (set x | x in ips[1..]) + {ips[0]};
    }
  }

  /** If every deque in the table reaches into the window, there are no more addresses than hits in it. */
  lemma TableIsSmall(hits: seq<Hit>, table: map<string, seq<real>>, cutoff: real)
    requires TableAgrees(hits, table, cutoff) && Sorted(Times(hits))
    requires forall ip :: ip in table ==> Keep(table[ip], cutoff) != []
    ensures |table| <= |Keep(Times(hits), cutoff)|
  {
    var n := |hits| - |Keep(Times(hits), cutoff)|;
    var ips := seq(|hits| - n, i requires 0 <= i < |hits| - n => hits[n + i].ip);
    forall ip | ip in table ensures ip in ips {
      assert Agrees(TimesOf(hits, ip), Hits(table, ip), cutoff);
      var kept := Keep(TimesOf(hits, ip), cutoff);
      assert kept == Keep(table[ip], cutoff);
      assert kept[0] in kept;
      var i := TimeHasHit(hits, ip, kept[0]);
      if i < n {
        DroppedIsOld(Times(hits), cutoff, i);
      }
      assert ips[i - n] == ip;
    }
    FewDistinct(ips);
    var all := set x | x in ips;
    assert table.Keys <= all;
    SubsetSize(table.Keys, all);
  }

  lemma {:induction false} SubsetSize(a: set<string>, b: set<string>)
    requires a <= b
    ensures |a| <= |b|
    decreases a
  {
    if a != {} {
      var x :| x in a;
      SubsetSize(a - {x}, b - {x});
    }
  }

  /** After any call the per-address table holds at most 120 addresses. */
  lemma TableBounded(h: History, ip: string, now: real, later: real)
    requires Inv(h) && h.last <= now <= later
    ensures |Next(h, ip, now, later).limiter.table| <= 120
  {
    hide Keep;
    hide Trim;
    hide Agrees;
    hide TableAgrees;
    hide TableSorted;
    hide Sorted;
    hide Spaced;
    hide UpTo;
    hide Next;
    var cutoff, n := now - WINDOW, Next(h, ip, now, now);
    NextKeeps(h, ip, now, now);
    NextLast(h, ip, now, now);
    SameTable(h, ip, now, later);
    forall a | a in n.limiter.table ensures Keep(n.limiter.table[a], cutoff) != [] {
      DequeReaches(h, ip, now, a);
    }
    TableIsSmall(n.hits, n.limiter.table, cutoff);
    SpacingBoundsWindow(Times(n.hits), GLOBAL, WINDOW, now);
  }

  /** The second reading of the clock has no part in the table. */
  lemma SameTable(h: History, ip: string, now: real, later: real)
    ensures Next(h, ip, now, now).limiter.table == Next(h, ip, now, later).limiter.table
  {
    hide Decide;
  }

  lemma TrimReaches(table: map<string, seq<real>>, ip: string, cutoff: real, a: string)
    requires a in Trim(table, ip, cutoff)
    ensures Keep(Trim(table, ip, cutoff)[a], cutoff) != []
  {
    var d := table[a];
    var n := |d| - 1;
    assert d == d[..n] + [d[n]];
    KeepAppend(d[..n], d[n], cutoff);
    KeepKeep(d, cutoff, cutoff);
  }

  lemma DequeReaches(h: History, ip: string, now: real, a: string)
    requires a in Next(h, ip, now, now).limiter.table
    ensures Keep(Next(h, ip, now, now).limiter.table[a], now - WINDOW) != []
  {
    hide Keep;
    hide Trim;
    var t := Trim(h.limiter.table, ip, now - WINDOW);
    if a in t {
      TrimReaches(h.limiter.table, ip, now - WINDOW, a);
    }
    KeepAppend(Hits(t, a), now, now - WINDOW);
  }

  // ----- the summaries account for every rejection -----

  function Reported(reports: seq<Report>): nat {
    if reports == [] then 0 else Reported(reports[..|reports| - 1]) + reports[|reports| - 1].summary.count
  }

  /** The keys counted are those rejected since the last summary, up to the cap. */
  ghost predicate KeysOk(keys: set<string>, refused: set<string>) {
    keys <= refused && |keys| == Min(DISTINCT_KEY_CAP, |refused|)
  }

  /** Counting one more key keeps them so. */
  lemma KeyCounted(keys: set<string>, refused: set<string>, ip: string)
    requires KeysOk(keys, refused)
    ensures KeysOk(if |keys| < DISTINCT_KEY_CAP then keys + {ip} else keys, refused + {ip})
  {
    if |keys| < DISTINCT_KEY_CAP {
      SubsetSize(refused - keys, refused);
      assert refused == keys + (refused - keys);
      assert |refused - keys| == 0;
      assert refused == keys;
    } else {
      SubsetSize(refused, refused + {ip});
    }
  }

  /** Rejections reported and pending add up; reports are a window apart. */
  ghost predicate Audited(h: History) {
    && h.rejections == Reported(h.reports) + h.limiter.rejected
    && (forall i, j :: 0 <= i < |h.reports| && j == i + 1 < |h.reports| ==>
          h.reports[j].time - h.reports[i].time >= WINDOW)
    && (h.reports == [] <==> h.limiter.lastSummary == None)
    && (h.reports != [] ==> h.limiter.lastSummary == Some(h.reports[|h.reports| - 1].time))
  }

  /** Each summary counts the distinct addresses that were rejected since the one before, up to the cap. */
  ghost predicate KeysAudited(h: History) {
    && KeysOk(h.limiter.rejectedKeys, h.refused)
    && forall r :: r in h.reports ==> r.summary.keys == Min(DISTINCT_KEY_CAP, r.distinct)
  }

  lemma DecideKeepsKeys(l: Limiter, ip: string, now: real)
    ensures var b := Decide(l, ip, now).0;
      b.rejectedKeys == l.rejectedKeys && b.rejected == l.rejected && b.lastSummary == l.lastSummary
  {
  }

  lemma NextCountsKeys(h: History, ip: string, now: real, later: real)
    requires KeysAudited(h)
    ensures KeysAudited(Next(h, ip, now, later))
  {
    hide Decide;
    hide KeysOk;
    DecideKeepsKeys(h.limiter, ip, now);
    KeyCounted(h.limiter.rejectedKeys, h.refused, ip);
    NoKeys();
    KeysNumber(h.limiter.rejectedKeys, h.refused);
    KeysNumber(if |h.limiter.rejectedKeys| < DISTINCT_KEY_CAP then h.limiter.rejectedKeys + {ip} else h.limiter.rejectedKeys,
               h.refused + {ip});
  }

  lemma NoKeys()
    ensures KeysOk({}, {})
  {
  }

  lemma KeysNumber(keys: set<string>, refused: set<string>)
    requires KeysOk(keys, refused)
    ensures |keys| == Min(DISTINCT_KEY_CAP, |refused|)
  {
  }

  lemma NextAudits(h: History, ip: string, now: real, later: real)
    requires Audited(h)
    ensures Audited(Next(h, ip, now, later))
  {
    hide Decide;
    DecideKeepsKeys(h.limiter, ip, now);
    var n := Next(h, ip, now, later);
    if n.reports != h.reports {
      assert n.reports[..|h.reports|] == h.reports;
    }
  }

  // ----- whole runs -----

  datatype Request = Request(ip: string, now: real, later: real)

  predicate Forward(last: real, rs: seq<Request>)
    decreases rs
  {
    rs != [] ==> last <= rs[0].now <= rs[0].later && Forward(rs[0].later, rs[1..])
  }

  function Run(h: History, rs: seq<Request>): History
    decreases rs
  {
    if rs == [] then h else Run(Next(h, rs[0].ip, rs[0].now, rs[0].later), rs[1..])
  }

  /**
   With a clock that never goes back, every run admits at most 120 requests, and at most 10 of
   one address, in any window shorter than a minute, and its summaries account for all rejections.
   */
  lemma {:induction false} RunKeeps(h: History, rs: seq<Request>)
    requires Inv(h) && Audited(h) && KeysAudited(h) && Forward(h.last, rs)
    ensures var end := Run(h, rs); Inv(end) && Audited(end) && KeysAudited(end)
    ensures forall ip ::
      Spaced(Times(Run(h, rs).hits), GLOBAL, WINDOW) && Spaced(TimesOf(Run(h, rs).hits, ip), PER_ADDRESS, WINDOW)
    decreases rs
  {
    hide Audited;
    hide KeysAudited;
    hide Next;
    if rs != [] {
      NextKeeps(h, rs[0].ip, rs[0].now, rs[0].later);
      NextAudits(h, rs[0].ip, rs[0].now, rs[0].later);
      NextCountsKeys(h, rs[0].ip, rs[0].now, rs[0].later);
      NextLast(h, rs[0].ip, rs[0].now, rs[0].later);
      RunKeeps(Next(h, rs[0].ip, rs[0].now, rs[0].later), rs[1..]);
    }
  }

  lemma NextLast(h: History, ip: string, now: real, later: real)
    ensures Next(h, ip, now, later).last == later
  {
  }

  lemma StartIsSound(clock: real)
    ensures Inv(Start(clock)) && Audited(Start(clock)) && KeysAudited(Start(clock))
  {
  }

  /** The deques are in order and hold nothing later than `last`. */
  ghost predicate SortedUpTo(l: Limiter, last: real) {
    Sorted(l.global) && UpTo(l.global, last) && TableSorted(l.table, last)
  }

  lemma KeepThenAppend(s: seq<real>, cutoff: real, now: real)
    requires Sorted(s) && UpTo(s, now)
    ensures Sorted(Keep(s, cutoff)) && UpTo(Keep(s, cutoff), now)
    ensures Sorted(Keep(s, cutoff) + [now]) && UpTo(Keep(s, cutoff) + [now], now)
  {
    KeepIsSuffix(s, cutoff);
  }

  lemma StaysSorted(l: Limiter, ip: string, last: real, now: real)
    requires SortedUpTo(l, last) && last <= now
    ensures SortedUpTo(Decide(l, ip, now).0, now)
  {
    hide Keep;
    hide Sorted;
    var cutoff := now - WINDOW;
    KeepThenAppend(l.global, cutoff, now);
    if ip in l.table {
      KeepThenAppend(l.table[ip], cutoff, now);
    }
    OneIsSorted(now);
  }

  lemma OneIsSorted(now: real)
    ensures Sorted([] + [now]) && UpTo([] + [now], now)
  {
  }

  /** The limiter object; `last` is the clock at the last call. */
  class RateLimiter {
    var global: seq<real>
    var table: map<string, seq<real>>
    var rejected: nat
    var rejectedKeys: set<string>
    var lastSummary: Option<real>

    ghost function View(): Limiter
      reads this
    {
      Limiter(global, table, rejected, rejectedKeys, lastSummary)
    }

    ghost var last: real

    ghost predicate Valid()
      reads this
    {
      SortedUpTo(View(), last)
    }

    constructor (clock: real)
      ensures View() == NEW && Valid() && last == clock
    {
      global, table, rejected, rejectedKeys, lastSummary := [], map[], 0, {}, None;
      last := clock;
    }

    method AllowLocked(ip: string, now: real) returns (allowed: bool)
      requires Valid() && last <= now
      modifies this
      ensures (View(), allowed) == Decide(old(View()), ip, now)
      ensures Valid() && last == now
    {
      StaysSorted(View(), ip, last, now);
      last := now;
      var cutoff := now - WINDOW;
      global := PopOld(global, cutoff);
      table := map k | k in table && !StaleDeque(table[k], cutoff) :: table[k];
      if ip in table {
        var hits := PopOld(table[ip], cutoff);
        table := table[ip := hits];
      }
      if |global| >= GLOBAL {
        return false;
      }
      if ip in table && |table[ip]| >= PER_ADDRESS {
        return false;
      }
      global := global + [now];
      table := table[ip := (if ip in table then table[ip] else []) + [now]];
      allowed := true;
    }

    method TakeSummary(ip: string, now: real) returns (summary: Option<Summary>)
      modifies this`rejected, this`rejectedKeys, this`lastSummary
      ensures (View(), summary) == Summarise(old(View()), ip, now)
    {
      if rejected == 0 {
        return None;
      }
      if lastSummary.Some? && now - lastSummary.value < WINDOW {
        return None;
      }
      summary := Some(Summary(rejected, |rejectedKeys|, ip));
      rejected, rejectedKeys, lastSummary := 0, {}, Some(now);
    }

    method Allow(ip: string, now: real, later: real) returns (verdict: Verdict)
      requires Valid() && last <= now
      modifies this
      ensures (View(), verdict) == Handle(old(View()), ip, now, later)
      ensures Valid() && last == now
    {
      var allowed := AllowLocked(ip, now);
      if !allowed {
        rejected := rejected + 1;
        if |rejectedKeys| < DISTINCT_KEY_CAP {
          rejectedKeys := rejectedKeys + {ip};
        }
      }
      var summary := TakeSummary(ip, later);
      verdict := Verdict(allowed, summary);
    }
  }
}
