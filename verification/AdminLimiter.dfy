/** `RateLimiter.check`: per-key limits per second and per hour on the admin plane. */
module AdminLimiter {
  import opened Wrappers
  import opened SlidingWindow

  const HOUR: real := 3600.0
  const SECOND: real := 1.0
  const MAX_KEYS: nat := 256

  datatype Limits = Limits(perSecond: nat, perHour: nat)
  type Table = map<string, seq<real>>

  function Hits(table: Table, key: string): seq<real> {
    if key in table then table[key] else []
  }

  predicate StaleKey(s: seq<real>, now: real) {
    s == [] || now - s[|s| - 1] > HOUR
  }

  function Evict(table: Table, now: real): Table {
    map k | k in table && !StaleKey(table[k], now) :: table[k]
  }

  function RetryAfter(hits: seq<real>, now: real): nat
    requires hits != []
  {
    var left := (HOUR - (now - hits[0])).Floor + 1;
    if left > 1 then left else 1
  }

  datatype Refusal = PerSecond | PerHour(seconds: nat)

  /** The decision on the times of one key: no refusal, or which limit and how long to wait. */
  function Decision(limits: Limits, hits: seq<real>, now: real): Option<Refusal> {
    var hour := Keep(hits, now - HOUR);
    if |Keep(hour, now - SECOND)| >= limits.perSecond then Some(PerSecond)
    else if |hour| >= limits.perHour then Some(PerHour(if hour == [] then 1 else RetryAfter(hour, now)))
    else None
  }

  function Checked(limits: Limits, table: Table, key: string, now: real): (Table, Option<Refusal>) {
    var hour, refusal := Keep(Hits(table, key), now - HOUR), Decision(limits, Hits(table, key), now);
    if refusal.Some? then (table[key := hour], refusal)
    else
      var t := table[key := hour + [now]];
      (if |t| > MAX_KEYS then Evict(t, now) else t, None)
  }

  // ----- eviction is invisible -----

  lemma EvictKeeps(table: Table, key: string, now: real, cutoff: real)
    requires Sorted(Hits(table, key)) && now - HOUR <= cutoff
    ensures Keep(Hits(Evict(table, now), key), cutoff) == Keep(Hits(table, key), cutoff)
  {
    if key in table && StaleKey(table[key], now) {
      KeepNothing(table[key], cutoff);
    }
  }

  /** Dropping stale keys never changes a later decision. */
  lemma EvictionChangesNoDecision(limits: Limits, table: Table, key: string, now: real, later: real)
    requires Sorted(Hits(table, key)) && now <= later
    ensures Decision(limits, Hits(Evict(table, now), key), later) == Decision(limits, Hits(table, key), later)
  {
    EvictKeeps(table, key, now, later - HOUR);
  }

  // ----- the limiter agrees with the full history -----

  /** Every admission ever, by key, beside the table that forgets. */
  datatype History = History(table: Table, full: Table, last: real)

  ghost predicate KeyOk(limits: Limits, full: seq<real>, part: seq<real>, last: real) {
    && Agrees(full, part, last - HOUR) && Sorted(part) && UpTo(part, last)
    && Sorted(full) && UpTo(full, last)
    && Spaced(full, limits.perSecond, SECOND) && Spaced(full, limits.perHour, HOUR)
  }

  ghost predicate Inv(limits: Limits, h: History) {
    forall key :: KeyOk(limits, Hits(h.full, key), Hits(h.table, key), h.last)
  }

  function Next(limits: Limits, h: History, key: string, now: real): History {
    var (t, refusal) := Checked(limits, h.table, key, now);
    History(t, if refusal.None? then h.full[key := Hits(h.full, key) + [now]] else h.full, now)
  }

  lemma DecidesAsHistory(limits: Limits, full: seq<real>, part: seq<real>, last: real, now: real)
    requires KeyOk(limits, full, part, last) && last <= now
    ensures Decision(limits, part, now) == Decision(limits, full, now)
    ensures Decision(limits, part, now).None? <==>
      |Keep(full, now - SECOND)| < limits.perSecond && |Keep(full, now - HOUR)| < limits.perHour
  {
    assert Keep(part, now - HOUR) == Keep(full, now - HOUR);
    KeepKeep(full, now - HOUR, now - SECOND);
  }

  /**
   A check refuses if and only if the key's admissions in the last second reach the one limit or
   those in the last hour the other, the first taking precedence; the wait it returns for the hour
   runs until the oldest of those is an hour old, rounded up and at least a second.
   */
  lemma RefusedIff(limits: Limits, full: seq<real>, part: seq<real>, last: real, now: real)
    requires KeyOk(limits, full, part, last) && last <= now && limits.perHour >= 1
    ensures var d := Decision(limits, part, now);
      var second, hour := set i | 0 <= i < |full| && full[i] > now - 1.0, set i | 0 <= i < |full| && full[i] > now - 3600.0;
      && (d == Some(PerSecond) <==> |second| >= limits.perSecond)
      && (d.None? <==> |second| < limits.perSecond && |hour| < limits.perHour)
      && (d.Some? && d.value.PerHour? ==>
            && 0 <= |full| - |hour| < |full|
            && var oldest := full[|full| - |hour|];
            d.value.seconds == if (3600.0 - (now - oldest)).Floor + 1 > 1 then (3600.0 - (now - oldest)).Floor + 1 else 1)
  {
    DecidesAsHistory(limits, full, part, last, now);
    KeepNumber(full, now - 1.0);
    KeepNumber(full, now - 3600.0);
    KeepKeep(full, now - HOUR, now - SECOND);
    KeepIsSuffix(full, now - 3600.0);
    assert Recent(full, now - 1.0) == set i | 0 <= i < |full| && full[i] > now - 1.0;
    assert Recent(full, now - 3600.0) == set i | 0 <= i < |full| && full[i] > now - 3600.0;
  }

  lemma KeyStays(limits: Limits, full: seq<real>, part: seq<real>, last: real, now: real)
    requires KeyOk(limits, full, part, last) && last <= now
    ensures KeyOk(limits, full, part, now)
  {
  }

  lemma KeyTrimmed(limits: Limits, full: seq<real>, part: seq<real>, now: real)
    requires KeyOk(limits, full, part, now)
    ensures KeyOk(limits, full, Keep(part, now - HOUR), now)
  {
    AgreesAfterTrim(full, part, now - HOUR, now - HOUR);
    KeepIsSuffix(part, now - HOUR);
  }

  lemma KeyAdmits(limits: Limits, full: seq<real>, part: seq<real>, now: real)
    requires KeyOk(limits, full, part, now) && Decision(limits, part, now).None?
    ensures KeyOk(limits, full + [now], Keep(part, now - HOUR) + [now], now)
  {
    DecidesAsHistory(limits, full, part, now, now);
    KeyTrimmed(limits, full, part, now);
    var kept := Keep(part, now - HOUR);
    AgreesAfterAppend(full, kept, now - HOUR, now);
    AdmittingKeepsSpacing(full, limits.perSecond, SECOND, now);
    AdmittingKeepsSpacing(full, limits.perHour, HOUR, now);
  }

  lemma KeyEvicted(limits: Limits, full: seq<real>, part: seq<real>, now: real)
    requires KeyOk(limits, full, part, now) && StaleKey(part, now)
    ensures KeyOk(limits, full, [], now)
  {
    AgreesEmpty(full, part, now - HOUR, now - HOUR);
  }

  /** Every check keeps the table in step with the history, and the history within both limits. */
  lemma NextKeeps(limits: Limits, h: History, key: string, now: real)
    requires Inv(limits, h) && h.last <= now
    ensures Inv(limits, Next(limits, h, key, now))
  {
    hide Keep;
    hide KeyOk;
    hide Decision;
    var n := Next(limits, h, key, now);
    var kept, refused := Keep(Hits(h.table, key), now - HOUR), Decision(limits, Hits(h.table, key), now).Some?;
    forall k ensures KeyOk(limits, Hits(n.full, k), Hits(n.table, k), now) {
      KeyStays(limits, Hits(h.full, k), Hits(h.table, k), h.last, now);
      var mine := if k != key then Hits(h.table, k) else if refused then kept else kept + [now];
      if k == key {
        if refused {
          KeyTrimmed(limits, Hits(h.full, k), Hits(h.table, k), now);
        } else {
          KeyAdmits(limits, Hits(h.full, k), Hits(h.table, k), now);
        }
      }
      assert KeyOk(limits, Hits(n.full, k), mine, now);
      if Hits(n.table, k) != mine {
        KeyEvicted(limits, Hits(n.full, k), mine, now);
      }
    }
  }

  datatype Request = Request(key: string, now: real)

  predicate Forward(last: real, rs: seq<Request>)
    decreases rs
  {
    rs != [] ==> last <= rs[0].now && Forward(rs[0].now, rs[1..])
  }

  function Run(limits: Limits, h: History, rs: seq<Request>): History
    decreases rs
  {
    if rs == [] then h else Run(limits, Next(limits, h, rs[0].key, rs[0].now), rs[1..])
  }

  /** With a clock that never goes back, no key ever gets more than its limits in a second or an hour. */
  lemma {:induction false} RunKeeps(limits: Limits, h: History, rs: seq<Request>)
    requires Inv(limits, h) && Forward(h.last, rs)
    ensures Inv(limits, Run(limits, h, rs))
    ensures forall key :: Spaced(Hits(Run(limits, h, rs).full, key), limits.perSecond, SECOND)
                       && Spaced(Hits(Run(limits, h, rs).full, key), limits.perHour, HOUR)
    decreases rs
  {
    if rs != [] {
      NextKeeps(limits, h, rs[0].key, rs[0].now);
      RunKeeps(limits, Next(limits, h, rs[0].key, rs[0].now), rs[1..]);
    } else {
      forall key ensures Spaced(Hits(h.full, key), limits.perSecond, SECOND) && Spaced(Hits(h.full, key), limits.perHour, HOUR) {
        assert KeyOk(limits, Hits(h.full, key), Hits(h.table, key), h.last);
      }
    }
  }

  const EMPTY: Table := map[]

  /** A new limiter agrees with its empty history. */
  lemma StartIsSound(limits: Limits, clock: real)
    ensures Inv(limits, History(EMPTY, EMPTY, clock))
  {
  }

  /** Other callers' checks, and the evictions they cause, leave a key's history alone. */
  lemma {:induction false} OthersLeaveMine(limits: Limits, h: History, rs: seq<Request>, key: string, later: real)
    requires forall r :: r in rs ==> r.key != key
    requires Forward(h.last, rs + [Request(key, later)])
    ensures Hits(Run(limits, h, rs).full, key) == Hits(h.full, key)
    ensures Forward(h.last, rs) && Run(limits, h, rs).last <= later
    decreases rs
  {
    hide Checked;
    if rs != [] {
      assert (rs + [Request(key, later)])[1..] == rs[1..] + [Request(key, later)];
      OthersLeaveMine(limits, Next(limits, h, rs[0].key, rs[0].now), rs[1..], key, later);
    }
  }

  /**
   A caller refused by the hourly limit that waits as told and sends nothing else is admitted,
   whatever other callers send in between and whichever keys are evicted for it.
   */
  lemma WaitingIsRewarded(limits: Limits, h: History, key: string, now: real, rs: seq<Request>, later: real)
    requires Inv(limits, h) && h.last <= now && limits.perSecond >= 1 && limits.perHour >= 1
    requires var d := Checked(limits, h.table, key, now).1;
      d.Some? && d.value.PerHour? && later >= now + d.value.seconds as real
    requires forall r :: r in rs ==> r.key != key
    requires Forward(now, rs + [Request(key, later)])
    ensures var retry := Run(limits, Next(limits, h, key, now), rs);
      Checked(limits, retry.table, key, later).1 == None
  {
    hide Keep;
    hide Evict;
    hide RetryAfter;
    var h1 := Next(limits, h, key, now);
    var h2 := Run(limits, h1, rs);
    var full, part := Hits(h.full, key), Hits(h.table, key);
    assert KeyOk(limits, full, part, h.last);
    NextKeeps(limits, h, key, now);
    OthersLeaveMine(limits, h1, rs, key, later);
    RunKeeps(limits, h1, rs);
    assert KeyOk(limits, full, Hits(h2.table, key), h2.last);
    WaitingKey(limits, full, part, h.last, now, later);
    KeyStays(limits, full, part, h.last, now);
    KeyTrimmed(limits, full, part, now);
    DecidesAsHistory(limits, full, Keep(part, now - HOUR), now, later);
    DecidesAsHistory(limits, full, Hits(h2.table, key), h2.last, later);
  }

  /** The same of one key's list alone. */
  lemma WaitingKey(limits: Limits, full: seq<real>, part: seq<real>, last: real, now: real, later: real)
    requires KeyOk(limits, full, part, last) && last <= now && limits.perSecond >= 1 && limits.perHour >= 1
    requires var d := Decision(limits, part, now); d.Some? && d.value.PerHour? && later >= now + d.value.seconds as real
    ensures Decision(limits, Keep(part, now - HOUR), later).None?
  {
    var hour := Keep(part, now - HOUR);
    KeyStays(limits, full, part, last, now);
    SpacingBoundsWindow(full, limits.perHour, HOUR, now);
    assert hour == Keep(full, now - HOUR);
    assert |hour| == limits.perHour;
    KeepIsSuffix(part, now - HOUR);
    FirstExpires(hour, now, later);
    UpToKept(part, now - HOUR, now);
    KeepNothing(hour, later - SECOND);
    KeepKeep(hour, later - HOUR, later - SECOND);
  }

  lemma UpToKept(s: seq<real>, cutoff: real, now: real)
    requires UpTo(s, now)
    ensures UpTo(Keep(s, cutoff), now)
  {
    forall i | 0 <= i < |Keep(s, cutoff)| ensures Keep(s, cutoff)[i] <= now {
      assert Keep(s, cutoff)[i] in s;
    }
  }

  lemma FirstExpires(hour: seq<real>, now: real, later: real)
    requires hour != [] && later >= now + RetryAfter(hour, now) as real
    ensures |Keep(hour, later - HOUR)| < |hour|
  {
    assert hour[0] <= later - HOUR;
    assert Keep(hour, later - HOUR) == Keep(hour[1..], later - HOUR);
  }

  /** The limiter object. */
  class RateLimiter {
    const limits: Limits
    var hits: Table

    constructor (perSecond: int, perHour: int)
      ensures limits.perSecond >= 1 && limits.perHour >= 1 && hits == map[]
    {
      limits := Limits(if perSecond > 1 then perSecond else 1, if perHour > 1 then perHour else 1);
      hits := map[];
    }

    method Filtered(s: seq<real>, cutoff: real) returns (r: seq<real>)
      ensures r == Keep(s, cutoff)
    {
      r := [];
      for i := 0 to |s|
        invariant r == Keep(s[..i], cutoff)
      {
        assert s[..i + 1] == s[..i] + [s[i]];
        KeepAppend(s[..i], s[i], cutoff);
        if s[i] > cutoff {
          r := r + [s[i]];
        }
      }
      assert s[..|s|] == s;
    }

    method Check(key: string, now: real) returns (refusal: Option<Refusal>)
      modifies this
      ensures (hits, refusal) == Checked(limits, old(hits), key, now)
    {
      var mine := Filtered(if key in hits then hits[key] else [], now - HOUR);
      var second := Filtered(mine, now - SECOND);
      if |second| >= limits.perSecond {
        hits := hits[key := mine];
        return Some(PerSecond);
      }
      if |mine| >= limits.perHour {
        hits := hits[key := mine];
        return Some(PerHour(if mine == [] then 1 else RetryAfter(mine, now)));
      }
      hits := hits[key := mine + [now]];
      if |hits| > MAX_KEYS {
        hits := map k | k in hits && !StaleKey(hits[k], now) :: hits[k];
      }
      refusal := None;
    }
  }
}
