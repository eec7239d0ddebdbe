/** Admission times and what a window over them holds; shared by both limiters. */
module SlidingWindow {
  import opened Numbers

  predicate Sorted(s: seq<real>) {
    forall i, j :: 0 <= i < j < |s| ==> s[i] <= s[j]
  }

  predicate UpTo(s: seq<real>, now: real) {
    forall i :: 0 <= i < |s| ==> s[i] <= now
  }

  /** The times after `cutoff`, in order. */
  function Keep(s: seq<real>, cutoff: real): (r: seq<real>)
    ensures |r| <= |s|
    ensures forall t :: t in r ==> t > cutoff && t in s
  {
    if s == [] then []
    else (if s[0] > cutoff then [s[0]] else []) + Keep(s[1..], cutoff)
  }

  /** The positions of the times after `cutoff`. */
  ghost function Recent(s: seq<real>, cutoff: real): set<int> {
    set i | 0 <= i < |s| && s[i] > cutoff
  }

  /** A window keeps as many times as there are after its cutoff. */
  lemma {:induction false} KeepNumber(s: seq<real>, cutoff: real)
    ensures |Keep(s, cutoff)| == |Recent(s, cutoff)|
  {
    if s != [] {
      var n := |s| - 1;
      assert s == s[..n] + [s[n]];
      KeepAppend(s[..n], s[n], cutoff);
      KeepNumber(s[..n], cutoff);
      assert Recent(s, cutoff) == Recent(s[..n], cutoff) + if s[n] > cutoff then {n} else {};
      assert n !in Recent(s[..n], cutoff);
    }
  }

  lemma {:induction false} KeepAppend(s: seq<real>, x: real, cutoff: real)
    ensures Keep(s + [x], cutoff) == Keep(s, cutoff) + (if x > cutoff then [x] else [])
  {
    if s == [] {
      assert s + [x] == [x] && [x][1..] == [];
    } else {
      var head, last := if s[0] > cutoff then [s[0]] else [], if x > cutoff then [x] else [];
      assert (s + [x])[1..] == s[1..] + [x];
      KeepAppend(s[1..], x, cutoff);
      assert head + (Keep(s[1..], cutoff) + last) == (head + Keep(s[1..], cutoff)) + last;
    }
  }

  lemma {:induction false} KeepPrepend(x: real, s: seq<real>, cutoff: real)
    ensures Keep([x] + s, cutoff) == (if x > cutoff then [x] else []) + Keep(s, cutoff)
  {
    assert ([x] + s)[1..] == s;
  }

  lemma {:induction false} KeepKeep(s: seq<real>, early: real, late: real)
    requires early <= late
    ensures Keep(Keep(s, early), late) == Keep(s, late)
  {
    if s != [] {
      KeepKeep(s[1..], early, late);
      if s[0] > early {
        KeepPrepend(s[0], Keep(s[1..], early), late);
      } else {
        assert Keep(s, early) == Keep(s[1..], early);
      }
    }
  }

  lemma {:induction false} KeepNothing(s: seq<real>, cutoff: real)
    requires UpTo(s, cutoff)
    ensures Keep(s, cutoff) == []
  {
    if s != [] {
      KeepNothing(s[1..], cutoff);
    }
  }

  lemma {:induction false} KeepEverything(s: seq<real>, cutoff: real)
    requires Sorted(s) && (s != [] ==> s[0] > cutoff)
    ensures Keep(s, cutoff) == s
  {
    if s != [] {
      KeepEverything(s[1..], cutoff);
    }
  }

  /** Of sorted times, a window keeps a suffix. */
  lemma {:induction false} KeepIsSuffix(s: seq<real>, cutoff: real)
    requires Sorted(s)
    ensures Keep(s, cutoff) == s[|s| - |Keep(s, cutoff)|..]
    ensures Sorted(Keep(s, cutoff))
  {
    if s != [] {
      if s[0] > cutoff {
        KeepEverything(s, cutoff);
      } else {
        KeepIsSuffix(s[1..], cutoff);
      }
    }
  }

  /** Any `n + 1` consecutive admissions span at least `w`: no window shorter than `w` holds more than `n`. */
  predicate Spaced(s: seq<real>, n: nat, w: real) {
    forall i, j :: 0 <= i < |s| && j == i + n < |s| ==> s[j] - s[i] >= w
  }

  /** Admitting only while fewer than `n` lie in the window keeps the spacing. */
  lemma AdmittingKeepsSpacing(s: seq<real>, n: nat, w: real, now: real)
    requires Sorted(s) && UpTo(s, now) && Spaced(s, n, w) && |Keep(s, now - w)| < n
    ensures Sorted(s + [now]) && Spaced(s + [now], n, w)
  {
    hide Keep;
    var t := s + [now];
    forall i, j | 0 <= i < |t| && j == i + n < |t| ensures t[j] - t[i] >= w {
      if j == |s| {
        DroppedIsOld(s, now - w, i);
      } else {
        assert t[j] == s[j] && t[i] == s[i];
      }
    }
  }

  lemma {:induction false} DroppedIsOld(s: seq<real>, cutoff: real, i: nat)
    requires Sorted(s) && i < |s| - |Keep(s, cutoff)|
    ensures s[i] <= cutoff
  {
    if s[0] > cutoff {
      KeepEverything(s, cutoff);
    } else if i > 0 {
      DroppedIsOld(s[1..], cutoff, i - 1);
    }
  }

  /** Spaced admissions never overfill the window. */
  lemma SpacingBoundsWindow(s: seq<real>, n: nat, w: real, now: real)
    requires Sorted(s) && UpTo(s, now) && Spaced(s, n, w)
    ensures |Keep(s, now - w)| <= n
  {
    var kept := Keep(s, now - w);
    KeepIsSuffix(s, now - w);
    if kept != [] {
      var first, last := |s| - |kept|, Min(|s| - |kept| + n, |s| - 1);
      assert kept[0] in kept;
      assert s[last] - s[first] < w;
    }
  }


  /** From some reading on, `part` answers every window as the full history does. */
  ghost predicate Agrees(full: seq<real>, part: seq<real>, since: real) {
    forall c :: c >= since ==> Keep(part, c) == Keep(full, c)
  }

  lemma AgreesAfterTrim(full: seq<real>, part: seq<real>, since: real, cutoff: real)
    requires Agrees(full, part, since) && since <= cutoff
    ensures Agrees(full, Keep(part, cutoff), cutoff)
  {
    forall c | c >= cutoff ensures Keep(Keep(part, cutoff), c) == Keep(full, c) {
      KeepKeep(part, cutoff, c);
    }
  }

  lemma AgreesAfterAppend(full: seq<real>, part: seq<real>, since: real, x: real)
    requires Agrees(full, part, since)
    ensures Agrees(full + [x], part + [x], since)
  {
    forall c | c >= since ensures Keep(part + [x], c) == Keep(full + [x], c) {
      KeepAppend(part, x, c);
      KeepAppend(full, x, c);
    }
  }

  lemma AgreesEmpty(full: seq<real>, part: seq<real>, since: real, cutoff: real)
    requires Agrees(full, part, since) && since <= cutoff && UpTo(part, cutoff)
    ensures Agrees(full, [], cutoff)
  {
    forall c | c >= cutoff ensures Keep([], c) == Keep(full, c) {
      KeepNothing(part, c);
    }
  }

  /** Popping from the front while the first time is old, as the deques do. */
  method PopOld(s: seq<real>, cutoff: real) returns (r: seq<real>)
    requires Sorted(s)
    ensures r == Keep(s, cutoff)
  {
    hide Keep;
    hide Sorted;
    r := s;
    while r != [] && r[0] <= cutoff
      invariant Sorted(r) && Keep(r, cutoff) == Keep(s, cutoff)
    {
      DropFirst(r, cutoff);
      r := r[1..];
    }
    KeepEverything(r, cutoff);
  }

  lemma DropFirst(s: seq<real>, cutoff: real)
    requires s != [] && s[0] <= cutoff && Sorted(s)
    ensures Keep(s, cutoff) == Keep(s[1..], cutoff) && Sorted(s[1..])
  {
  }
}
