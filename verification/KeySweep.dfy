/**
 The maintenance pass over a cohort (`sweep_cohort`) together with the decision and the storing
 it is given: who needs a key, how many are asked for, and what a pass leaves in the stores.
 Every decision and every adoption happens at its own time.
 */
module KeySweep {
  import opened Wrappers
  import opened Numbers
  import opened Billing
  import opened BillingRaces

  const REFRESH_LEAD_MS: int := 86_400_000

  /** How long a key that was just stored stays out of its refresh window, at the least. */
  const SPARE_MS: int := MIN_LIFETIME_MS - REFRESH_LEAD_MS

  /** `needs_new_key` */
  predicate NeedsNewKey(stored: Option<Payload>, now: int) {
    stored.None? || stored.value.invalid || stored.value.expiresAt - now <= REFRESH_LEAD_MS
  }

  /** What one payer has in the vault and in the identity store. */
  datatype Stores = Stores(vault: Option<Payload>, identity: Option<Payload>)
  type Book = map<Owner, Stores>

  function At(book: Book, payer: Owner): Stores {
    if payer in book then book[payer] else Stores(None, None)
  }

  /**
   What the outside answers for one member. `readable` is false when `needs` itself raises; `told`
   and `toldFailure` are false when the event callback raises on the news.
   */
  datatype Reply = Reply(readable: bool, decidedAt: int, key: Option<IssuedKey>, adoptedAt: int, probe: bool,
                         identityWrites: bool, told: bool, toldFailure: bool)

  datatype Stage = AtNeeds | AtIssue | AtStore

  /** `Untold`: the key is stored and counted, but its callback raised. `Unreached`: the pass broke off before. */
  datatype Fate = Current | Deferred | KeyIssued | Untold | Failed(stage: Stage) | Unreached

  predicate GotKey(fate: Fate) {
    fate.KeyIssued? || fate.Untold?
  }

  predicate Fails(fate: Fate) {
    fate.Failed? || fate.Untold?
  }

  predicate Storable(s: Stores, payer: Owner, r: Reply) {
    && r.key.Some? && r.identityWrites
    && Adopted(payer, r.key.value, s.vault, r.adoptedAt, r.probe).Some?
  }

  predicate Attempts(s: Stores, r: Reply, room: bool) {
    r.readable && NeedsNewKey(s.vault, r.decidedAt) && room
  }

  function FateOf(s: Stores, payer: Owner, r: Reply, room: bool): Fate {
    if !r.readable then Failed(AtNeeds)
    else if !NeedsNewKey(s.vault, r.decidedAt) then Current
    else if !room then Deferred
    else if r.key.None? then Failed(AtIssue)
    else if !Storable(s, payer, r) then Failed(AtStore)
    else if r.told then KeyIssued
    else Untold
  }

  function Renewed(s: Stores, payer: Owner, r: Reply): Stores {
    if Storable(s, payer, r)
    then var a := Adopted(payer, r.key.value, s.vault, r.adoptedAt, r.probe); Stores(a, a)
    else s
  }

  /** `aborted`: the callback raised on a failure, and the exception left the loop. */
  datatype Pass = Pass(book: Book, attempted: nat, aborted: bool, fates: seq<Fate>)

  function FateIn(p: Pass, payer: Owner, r: Reply, most: int): Fate {
    if p.aborted then Unreached else FateOf(At(p.book, payer), payer, r, p.attempted < most)
  }

  /** The pass goes on to one more member. */
  function Visit(p: Pass, payer: Owner, r: Reply, most: int): Pass {
    var s, fate := At(p.book, payer), FateIn(p, payer, r, most);
    Pass(if GotKey(fate) then p.book[payer := Renewed(s, payer, r)] else p.book,
         if !p.aborted && Attempts(s, r, p.attempted < most) then p.attempted + 1 else p.attempted,
         p.aborted || (Fails(fate) && !r.toldFailure),
         p.fates + [fate])
  }

  /** The pass over a cohort; `w` answers by position. */
  function Swept(cohort: seq<Owner>, w: nat -> Reply, most: int, book: Book): (p: Pass)
    ensures |p.fates| == |cohort|
  {
    if cohort == [] then Pass(book, 0, false, [])
    else
      var n := |cohort| - 1;
      Visit(Swept(cohort[..n], w, most, book), cohort[n], w(n), most)
  }

  // ----- counting fates -----

  /** How many members met each fate. `issued` includes the untold. */
  datatype Score = Score(issued: nat, untold: nat, current: nat, deferred: nat, unread: nat, refused: nat,
                         unstored: nat, unreached: nat)
  {
    function Failed(): nat {
      unread + refused + unstored + untold
    }
  }

  function Add(s: Score, fate: Fate): Score {
    match fate
    case KeyIssued => s.(issued := s.issued + 1)
    case Untold => s.(issued := s.issued + 1, untold := s.untold + 1)
    case Current => s.(current := s.current + 1)
    case Deferred => s.(deferred := s.deferred + 1)
    case Failed(AtNeeds) => s.(unread := s.unread + 1)
    case Failed(AtIssue) => s.(refused := s.refused + 1)
    case Failed(AtStore) => s.(unstored := s.unstored + 1)
    case Unreached => s.(unreached := s.unreached + 1)
  }

  function ScoreOf(fates: seq<Fate>): Score {
    if fates == [] then Score(0, 0, 0, 0, 0, 0, 0, 0)
    else Add(ScoreOf(fates[..|fates| - 1]), fates[|fates| - 1])
  }

  lemma VisitScores(p: Pass, payer: Owner, r: Reply, most: int)
    ensures ScoreOf(Visit(p, payer, r, most).fates) == Add(ScoreOf(p.fates), FateIn(p, payer, r, most))
  {
    var last := FateIn(p, payer, r, most);
    assert (p.fates + [last])[..|p.fates|] == p.fates;
  }

  predicate Capped(p: Pass, most: int) {
    var score := ScoreOf(p.fates);
    && (p.attempted == 0 || p.attempted <= most)
    && p.attempted == score.issued + score.refused + score.unstored
    && (score.deferred > 0 ==> p.attempted >= most)
  }

  lemma VisitStaysCapped(p: Pass, payer: Owner, r: Reply, most: int)
    requires Capped(p, most)
    ensures Capped(Visit(p, payer, r, most), most)
  {
    hide Storable;
    hide NeedsNewKey;
    hide Renewed;
    hide ScoreOf;
    VisitScores(p, payer, r, most);
  }

  /** Never more than the cap are asked for, failed attempts included, and nobody is put off before. */
  lemma {:induction false} AttemptsBounded(cohort: seq<Owner>, w: nat -> Reply, most: int, book: Book)
    ensures Capped(Swept(cohort, w, most, book), most)
  {
    hide Visit;
    if cohort != [] {
      var n := |cohort| - 1;
      AttemptsBounded(cohort[..n], w, most, book);
      VisitStaysCapped(Swept(cohort[..n], w, most, book), cohort[n], w(n), most);
    }
  }

  // ----- members do not disturb each other -----

  predicate NoRepeat(cohort: seq<Owner>) {
    forall i, j :: 0 <= i < j < |cohort| ==> cohort[i] != cohort[j]
  }

  lemma NoRepeatInit(cohort: seq<Owner>)
    requires cohort != [] && NoRepeat(cohort)
    ensures var n := |cohort| - 1; NoRepeat(cohort[..n]) && cohort[n] !in cohort[..n]
  {
  }

  /**
   Whoever was issued a key has it in both stores, everybody else has exactly what was there
   before, and so does whoever is not in the cohort.
   */
  lemma {:induction false} SweepIsolates(cohort: seq<Owner>, w: nat -> Reply, most: int, book: Book, payer: Owner)
    requires NoRepeat(cohort)
    ensures var p := Swept(cohort, w, most, book);
      && (payer !in cohort ==> At(p.book, payer) == At(book, payer))
      && (forall i :: 0 <= i < |cohort| && cohort[i] == payer ==>
            At(p.book, payer) == if GotKey(p.fates[i]) then Renewed(At(book, payer), payer, w(i)) else At(book, payer))
  {
    hide FateOf;
    hide Attempts;
    hide Renewed;
    hide NoRepeat;
    if cohort != [] {
      var n := |cohort| - 1;
      NoRepeatInit(cohort);
      SweepIsolates(cohort[..n], w, most, book, payer);
      assert forall i :: 0 <= i < n ==> cohort[..n][i] == cohort[i];
    }
  }

  lemma NotYetTouched(cohort: seq<Owner>, w: nat -> Reply, most: int, book: Book, payer: Owner)
    requires NoRepeat(cohort) && payer !in cohort
    ensures At(Swept(cohort, w, most, book).book, payer) == At(book, payer)
  {
    SweepIsolates(cohort, w, most, book, payer);
  }

  /** Whoever was issued a key holds that very key in both stores, and nothing is pending. */
  lemma IssuedHoldsItsKey(cohort: seq<Owner>, w: nat -> Reply, most: int, book: Book, i: nat)
    requires NoRepeat(cohort) && i < |cohort| && GotKey(Swept(cohort, w, most, book).fates[i])
    ensures var s := At(Swept(cohort, w, most, book).book, cohort[i]);
      && w(i).key.Some? && s.vault.Some? && s.identity == s.vault && IsKeyOf(s.vault.value, w(i).key.value, cohort[i])
  {
    hide Swept;
    SweepIsolates(cohort, w, most, book, cohort[i]);
    FateMeans(cohort, w, most, book, i);
    var before := At(book, cohort[i]);
    AdoptedIff(cohort[i], w(i).key.value, before.vault, w(i).adoptedAt, w(i).probe);
  }

  /** In the fields of row and reply: who needs a key, who is put off, who fails where, and who is served. */
  ghost predicate Means(fate: Fate, s: Stores, payer: Owner, r: Reply) {
    var needs := s.vault.None? || s.vault.value.invalid || s.vault.value.expiresAt - r.decidedAt <= 86_400_000;
    match fate
    case Current => r.readable && !needs
    case Deferred => r.readable && needs
    case Failed(AtNeeds) => !r.readable
    case Failed(AtIssue) => r.readable && needs && r.key.None?
    case Failed(AtStore) => r.readable && needs && r.key.Some? && !Stored(s, payer, r)
    case KeyIssued => r.readable && needs && r.key.Some? && Stored(s, payer, r) && r.told
    case Untold => r.readable && needs && r.key.Some? && Stored(s, payer, r) && !r.told
    case Unreached => true
  }

  /** The key can be stored: it is the payer's, verified, long-lived, on the same account, works, and the identity write succeeds. */
  predicate Stored(s: Stores, payer: Owner, r: Reply)
    requires r.key.Some?
  {
    var k := r.key.value;
    && k.employee == payer.employee && k.email == payer.email && k.verified && payer.profile != "" && r.probe
    && k.expiresAt - r.adoptedAt >= 172_800_000 && r.identityWrites
    && (s.vault.Some? && s.vault.value.verified && s.vault.value.account.user != ""
        ==> s.vault.value.account.user == k.account.user)
  }

  lemma FateOfMeans(s: Stores, payer: Owner, r: Reply, room: bool)
    ensures Means(FateOf(s, payer, r, room), s, payer, r)
    ensures FateOf(s, payer, r, room) == Deferred ==> !room
    ensures FateOf(s, payer, r, room) != Unreached
    ensures GotKey(FateOf(s, payer, r, room)) ==> Storable(s, payer, r)
  {
    if r.key.Some? {
      AdoptedIff(payer, r.key.value, s.vault, r.adoptedAt, r.probe);
    }
  }

  /** Each member's fate is what its own row and replies say, with the row as it was before the pass. */
  lemma {:induction false} FateMeans(cohort: seq<Owner>, w: nat -> Reply, most: int, book: Book, i: nat)
    requires NoRepeat(cohort) && i < |cohort|
    ensures var fate := Swept(cohort, w, most, book).fates[i];
      Means(fate, At(book, cohort[i]), cohort[i], w(i)) && (GotKey(fate) ==> Storable(At(book, cohort[i]), cohort[i], w(i)))
    decreases |cohort|
  {
    hide Means;
    hide FateOf;
    hide Storable;
    hide NoRepeat;
    hide At;
    var n := |cohort| - 1;
    NoRepeatInit(cohort);
    if i < n {
      FateMeans(cohort[..n], w, most, book, i);
    } else {
      var p := Swept(cohort[..n], w, most, book);
      NotYetTouched(cohort[..n], w, most, book, cohort[n]);
      FateOfMeans(At(p.book, cohort[n]), cohort[n], w(n), p.attempted < most);
      UnreachedMeans(At(book, cohort[n]), cohort[n], w(n));
    }
  }

  lemma UnreachedMeans(s: Stores, payer: Owner, r: Reply)
    ensures Means(Unreached, s, payer, r)
  {
  }

  // ----- who needs a key, and when -----

  /** How many of the cohort need a key at a given time. */
  function Needy(cohort: seq<Owner>, book: Book, at: int): nat {
    if cohort == [] then 0
    else Needy(cohort[..|cohort| - 1], book, at)
         + if NeedsNewKey(At(book, cohort[|cohort| - 1]).vault, at) then 1 else 0
  }

  lemma {:induction false} NeedySame(cohort: seq<Owner>, book: Book, payer: Owner, s: Stores, at: int)
    requires payer !in cohort
    ensures Needy(cohort, book[payer := s], at) == Needy(cohort, book, at)
  {
    hide NeedsNewKey;
    if cohort != [] {
      NeedySame(cohort[..|cohort| - 1], book, payer, s, at);
    }
  }

  /** With time, more keys come due. */
  lemma {:induction false} NeedyGrows(cohort: seq<Owner>, book: Book, at: int, later: int)
    requires at <= later
    ensures Needy(cohort, book, at) <= Needy(cohort, book, later)
  {
    if cohort != [] {
      NeedyGrows(cohort[..|cohort| - 1], book, at, later);
    }
  }

  /** A freshly stored key stays out of its refresh window for at least a day. */
  lemma RenewedIsCurrent(s: Stores, payer: Owner, r: Reply, at: int)
    requires Storable(s, payer, r) && at < r.adoptedAt + SPARE_MS
    ensures !NeedsNewKey(Renewed(s, payer, r).vault, at)
  {
  }

  lemma VisitServes(init: seq<Owner>, p: Pass, payer: Owner, r: Reply, most: int, at: int)
    requires payer !in init
    ensures var q, fate := Visit(p, payer, r, most), FateIn(p, payer, r, most);
      && Needy(init, q.book, at) == Needy(init, p.book, at)
      && (!GotKey(fate) ==> q.book == p.book)
      && (GotKey(fate) && r.decidedAt <= at ==> NeedsNewKey(At(p.book, payer).vault, at))
      && (GotKey(fate) && at < r.adoptedAt + SPARE_MS ==> !NeedsNewKey(At(q.book, payer).vault, at))
  {
    hide Needy;
    hide Renewed;
    var s := At(p.book, payer);
    if GotKey(FateIn(p, payer, r, most)) {
      NeedySame(init, p.book, payer, Renewed(s, payer, r), at);
      if at < r.adoptedAt + SPARE_MS {
        RenewedIsCurrent(s, payer, r, at);
      }
    }
  }

  /** The decision was made by then, and what was adopted is still fresh. */
  predicate Timely(r: Reply, at: int) {
    r.decidedAt <= at < r.adoptedAt + SPARE_MS
  }

  ghost predicate AllTimely(n: nat, w: nat -> Reply, at: int) {
    forall i :: 0 <= i < n ==> Timely(w(i), at)
  }

  /**
   Whatever the outside answers, at every time up to a day after the pass exactly as many fewer
   payers need a key as were issued one.
   */
  lemma {:induction false} PassServes(cohort: seq<Owner>, w: nat -> Reply, most: int, book: Book, at: int)
    requires NoRepeat(cohort) && AllTimely(|cohort|, w, at)
    ensures var p := Swept(cohort, w, most, book);
      Needy(cohort, p.book, at) + ScoreOf(p.fates).issued == Needy(cohort, book, at)
  {
    hide NeedsNewKey;
    hide Visit;
    hide FateIn;
    hide At;
    hide NoRepeat;
    if cohort != [] {
      var n := |cohort| - 1;
      var init, payer := cohort[..n], cohort[n];
      var p := Swept(init, w, most, book);
      NoRepeatInit(cohort);
      PassServes(init, w, most, book, at);
      NotYetTouched(init, w, most, book, payer);
      assert Timely(w(n), at);
      VisitServes(init, p, payer, w(n), most, at);
      VisitScores(p, payer, w(n), most);
    }
  }

  /** Nobody's key is adopted before it was decided on. */
  ghost predicate InOrder(n: nat, w: nat -> Reply) {
    forall i :: 0 <= i < n ==> w(i).decidedAt <= w(i).adoptedAt
  }

  /** At no time whatsoever does a pass leave more payers in need than there would have been without it. */
  lemma {:induction false} PassNeverHarms(cohort: seq<Owner>, w: nat -> Reply, most: int, book: Book, at: int)
    requires NoRepeat(cohort) && InOrder(|cohort|, w)
    ensures Needy(cohort, Swept(cohort, w, most, book).book, at) <= Needy(cohort, book, at)
  {
    hide NeedsNewKey;
    hide Visit;
    hide FateIn;
    hide At;
    hide NoRepeat;
    if cohort != [] {
      var n := |cohort| - 1;
      var init, payer := cohort[..n], cohort[n];
      NoRepeatInit(cohort);
      PassNeverHarms(init, w, most, book, at);
      NotYetTouched(init, w, most, book, payer);
      VisitServes(init, Swept(init, w, most, book), payer, w(n), most, at);
      assert w(n).decidedAt <= w(n).adoptedAt;
    }
  }

  // ----- passes make progress -----

  /** Every member can be read and reported, and whoever needs a key would get one that can be stored. */
  ghost predicate Cooperative(cohort: seq<Owner>, w: nat -> Reply, book: Book) {
    forall i :: 0 <= i < |cohort| ==>
      && w(i).readable && w(i).told
      && (NeedsNewKey(At(book, cohort[i]).vault, w(i).decidedAt) ==> Storable(At(book, cohort[i]), cohort[i], w(i)))
  }

  lemma CooperativeInit(cohort: seq<Owner>, w: nat -> Reply, book: Book)
    requires cohort != [] && Cooperative(cohort, w, book)
    ensures var n := |cohort| - 1;
      && Cooperative(cohort[..n], w, book) && w(n).readable && w(n).told
      && (NeedsNewKey(At(book, cohort[n]).vault, w(n).decidedAt) ==> Storable(At(book, cohort[n]), cohort[n], w(n)))
  {
    hide NeedsNewKey;
    hide Storable;
    hide At;
    var n := |cohort| - 1;
    assert forall i :: 0 <= i < n ==> cohort[..n][i] == cohort[i];
  }

  /** So far nobody failed, and all that was asked for was issued. */
  predicate AllWell(p: Pass) {
    var score := ScoreOf(p.fates);
    !p.aborted && p.attempted == score.issued && score.Failed() == 0
  }

  lemma WillingMember(p: Pass, payer: Owner, r: Reply, most: int)
    requires AllWell(p) && r.readable && r.told
    requires NeedsNewKey(At(p.book, payer).vault, r.decidedAt) ==> Storable(At(p.book, payer), payer, r)
    ensures var needs := NeedsNewKey(At(p.book, payer).vault, r.decidedAt);
      FateIn(p, payer, r, most) == if !needs then Current else if p.attempted < most then KeyIssued else Deferred
    ensures AllWell(Visit(p, payer, r, most))
  {
    hide NeedsNewKey;
    hide Renewed;
    hide ScoreOf;
    VisitScores(p, payer, r, most);
  }

  /** With nobody put off, a willing member is left without need at any time before its decision. */
  lemma WillingIsServed(p: Pass, payer: Owner, r: Reply, most: int, at: int)
    requires FateIn(p, payer, r, most) in {Current, KeyIssued} && at <= r.decidedAt <= r.adoptedAt
    ensures !NeedsNewKey(At(Visit(p, payer, r, most).book, payer).vault, at)
  {
    hide Renewed;
    if FateIn(p, payer, r, most) == KeyIssued {
      RenewedIsCurrent(At(p.book, payer), payer, r, at);
    }
  }

  /** Nobody decides before `start`. */
  ghost predicate Starts(n: nat, w: nat -> Reply, start: int) {
    forall i :: 0 <= i < n ==> start <= w(i).decidedAt
  }

  lemma {:induction false} WillingCohort(cohort: seq<Owner>, w: nat -> Reply, most: int, book: Book, start: int)
    requires NoRepeat(cohort) && Cooperative(cohort, w, book) && InOrder(|cohort|, w) && Starts(|cohort|, w, start)
    ensures var p := Swept(cohort, w, most, book);
      AllWell(p) && (ScoreOf(p.fates).deferred == 0 ==> Needy(cohort, p.book, start) == 0)
  {
    hide NeedsNewKey;
    hide Storable;
    hide Visit;
    hide FateIn;
    hide At;
    hide NoRepeat;
    hide Cooperative;
    if cohort == [] {
      NobodyYet(book);
    } else {
      hide AllWell;
      var n := |cohort| - 1;
      var init, payer := cohort[..n], cohort[n];
      var p := Swept(init, w, most, book);
      NoRepeatInit(cohort);
      CooperativeInit(cohort, w, book);
      WillingCohort(init, w, most, book, start);
      NotYetTouched(init, w, most, book, payer);
      WillingMember(p, payer, w(n), most);
      VisitScores(p, payer, w(n), most);
      VisitServes(init, p, payer, w(n), most, start);
      assert start <= w(n).decidedAt <= w(n).adoptedAt;
      if FateIn(p, payer, w(n), most) != Deferred {
        WillingIsServed(p, payer, w(n), most, start);
      }
    }
  }

  lemma NobodyYet(book: Book)
    ensures AllWell(Pass(book, 0, false, []))
  {
  }

  /** If everybody can be served, a pass issues as many keys as the cap allows or serves all who were due. */
  lemma CooperativePass(cohort: seq<Owner>, w: nat -> Reply, most: nat, book: Book, start: int)
    requires NoRepeat(cohort) && Cooperative(cohort, w, book) && InOrder(|cohort|, w) && Starts(|cohort|, w, start)
    ensures var p := Swept(cohort, w, most, book);
      && ScoreOf(p.fates).Failed() == 0
      && (ScoreOf(p.fates).issued == most || Needy(cohort, p.book, start) == 0)
  {
    hide Swept;
    hide Needy;
    hide ScoreOf;
    hide NoRepeat;
    AttemptsBounded(cohort, w, most, book);
    WillingCohort(cohort, w, most, book, start);
  }

  // ----- series of passes -----

  /** The stores after a series of passes, each with its own answers and times. */
  function Passes(cohort: seq<Owner>, ws: seq<nat -> Reply>, most: int, book: Book): Book
    decreases |ws|
  {
    if ws == [] then book else Passes(cohort, ws[1..], most, Swept(cohort, ws[0], most, book).book)
  }

  ghost predicate AllCooperative(cohort: seq<Owner>, ws: seq<nat -> Reply>, most: int, book: Book)
    decreases |ws|
  {
    ws != [] ==>
      && Cooperative(cohort, ws[0], book)
      && AllCooperative(cohort, ws[1..], most, Swept(cohort, ws[0], most, book).book)
  }

  /** However badly the outside answers, at no time do passes leave more payers in need. */
  lemma {:induction false} PassesNeverHarm(cohort: seq<Owner>, ws: seq<nat -> Reply>, most: int, book: Book, at: int)
    requires NoRepeat(cohort) && forall w :: w in ws ==> InOrder(|cohort|, w)
    ensures Needy(cohort, Passes(cohort, ws, most, book), at) <= Needy(cohort, book, at)
    decreases |ws|
  {
    hide Swept;
    hide Needy;
    hide NoRepeat;
    hide InOrder;
    if ws != [] {
      assert ws[0] in ws;
      PassNeverHarms(cohort, ws[0], most, book, at);
      PassesNeverHarm(cohort, ws[1..], most, Swept(cohort, ws[0], most, book).book, at);
    }
  }

  /** A pass that keeps its times: nothing is decided before `start`, and by `end` all of it is still fresh. */
  ghost predicate Within(n: nat, w: nat -> Reply, start: int, end: int) {
    InOrder(n, w) && Starts(n, w, start) && AllTimely(n, w, end)
  }

  /**
   Pass after pass the remainder is picked up. Over passes within a day of each other, `k` passes
   leave of those who were due at the beginning at most the ones by which the number due by the end
   exceeds `k` times the cap; so nobody once the caps add up to that number.
   */
  lemma {:induction false} PassesConverge(
    cohort: seq<Owner>, ws: seq<nat -> Reply>, most: nat, book: Book, start: int, end: int)
    requires NoRepeat(cohort) && AllCooperative(cohort, ws, most, book) && start <= end
    requires forall w :: w in ws ==> Within(|cohort|, w, start, end)
    ensures Needy(cohort, Passes(cohort, ws, most, book), start)
         <= Needy(cohort, book, end) - Min(|ws| * most, Needy(cohort, book, end))
    decreases |ws|
  {
    hide Swept;
    hide Needy;
    hide NoRepeat;
    hide Cooperative;
    hide InOrder;
    hide Starts;
    hide AllTimely;
    if ws == [] {
      NeedyGrows(cohort, book, start, end);
    } else {
      var next := Swept(cohort, ws[0], most, book).book;
      assert Within(|cohort|, ws[0], start, end);
      CooperativePass(cohort, ws[0], most, book, start);
      PassServes(cohort, ws[0], most, book, end);
      if Needy(cohort, next, start) == 0 {
        forall w | w in ws[1..] ensures InOrder(|cohort|, w) {
          assert Within(|cohort|, w, start, end);
        }
        PassesNeverHarm(cohort, ws[1..], most, next, start);
      } else {
        PassesConverge(cohort, ws[1..], most, next, start, end);
        OneMorePass(|ws[1..]|, most, Needy(cohort, book, end));
      }
    }
  }

  lemma OneMorePass(k: nat, most: nat, needy: nat)
    requires most <= needy
    ensures (needy - most) - Min(k * most, needy - most) == needy - Min((k + 1) * most, needy)
  {
    assert (k + 1) * most == k * most + most;
  }

  // ----- the loop -----

  datatype SweepResult = SweepResult(
    checked: nat, issued: nat, current: nat, failed: nat, deferred: nat, failures: seq<(Owner, Stage)>)

  /**
   The counters say what happened to the members. They add up to those checked exactly as far as
   no callback raised on an issued key: such a member is counted as issued and as failed.
   */
  predicate CountersMatch(result: SweepResult, score: Score) {
    && result.issued + result.current + result.failed + result.deferred == result.checked + score.untold
    && result.issued == score.issued && result.current == score.current && result.deferred == score.deferred
    && result.failed == score.Failed() == |result.failures|
  }

  ghost predicate Reports(result: SweepResult, p: Pass) {
    result.checked + ScoreOf(p.fates).unreached == |p.fates| && CountersMatch(result, ScoreOf(p.fates))
  }

  function Count(r: SweepResult, payer: Owner, fate: Fate): SweepResult {
    match fate
    case KeyIssued => r.(checked := r.checked + 1, issued := r.issued + 1)
    case Untold =>
      r.(checked := r.checked + 1, issued := r.issued + 1, failed := r.failed + 1,
         failures := r.failures + [(payer, AtStore)])
    case Current => r.(checked := r.checked + 1, current := r.current + 1)
    case Deferred => r.(checked := r.checked + 1, deferred := r.deferred + 1)
    case Failed(stage) =>
      r.(checked := r.checked + 1, failed := r.failed + 1, failures := r.failures + [(payer, stage)])
    case Unreached => r
  }

  lemma CountMatches(result: SweepResult, score: Score, payer: Owner, fate: Fate)
    requires CountersMatch(result, score)
    ensures var r, s := Count(result, payer, fate), Add(score, fate);
      CountersMatch(r, s) && r.checked + s.unreached == result.checked + score.unreached + 1
  {
  }

  lemma ReportsOn(result: SweepResult, p: Pass, payer: Owner, r: Reply, most: int)
    requires Reports(result, p)
    ensures Reports(Count(result, payer, FateIn(p, payer, r, most)), Visit(p, payer, r, most))
  {
    hide FateOf;
    hide Renewed;
    hide Attempts;
    hide CountersMatch;
    hide Count;
    hide Add;
    hide ScoreOf;
    VisitScores(p, payer, r, most);
    CountMatches(result, ScoreOf(p.fates), payer, FateIn(p, payer, r, most));
  }

  lemma SweptOn(cohort: seq<Owner>, i: nat, w: nat -> Reply, most: int, book: Book)
    requires i < |cohort|
    ensures Swept(cohort[..i + 1], w, most, book) == Visit(Swept(cohort[..i], w, most, book), cohort[i], w(i), most)
  {
    assert cohort[..i + 1][..i] == cohort[..i];
  }

  /** Once the pass has broken off, nothing changes any more. */
  lemma {:induction false} AbortedStays(cohort: seq<Owner>, i: nat, w: nat -> Reply, most: int, book: Book)
    requires i <= |cohort| && Swept(cohort[..i], w, most, book).aborted
    ensures var p := Swept(cohort, w, most, book); p.aborted && p.book == Swept(cohort[..i], w, most, book).book
    decreases |cohort|
  {
    hide FateOf;
    if i == |cohort| {
      assert cohort[..i] == cohort;
    } else {
      var n := |cohort| - 1;
      assert cohort[..n][..i] == cohort[..i];
      AbortedStays(cohort[..n], i, w, most, book);
    }
  }

  /** No result is returned when the callback's exception ends the pass; the stores keep what was done. */
  method Sweep(cohort: seq<Owner>, w: nat -> Reply, most: int, book: Book)
    returns (outcome: Option<SweepResult>, after: Book)
    ensures after == Swept(cohort, w, most, book).book
    ensures outcome.None? <==> Swept(cohort, w, most, book).aborted
    ensures outcome.Some? ==> Reports(outcome.value, Swept(cohort, w, most, book))
    ensures outcome.Some? ==> forall k :: k in outcome.value.failures ==> k.0 in cohort
  {
    hide FateOf;
    hide Attempts;
    hide Renewed;
    hide Reports;
    var result := SweepResult(0, 0, 0, 0, 0, []);
    after := book;
    var attempted := 0;
    ghost var p := Swept([], w, most, book);
    ReportsNothing(p);
    for i := 0 to |cohort|
      invariant p == Swept(cohort[..i], w, most, book) && !p.aborted
      invariant after == p.book && attempted == p.attempted
      invariant Reports(result, p)
      invariant forall k :: k in result.failures ==> k.0 in cohort
    {
      hide Swept;
      var payer := cohort[i];
      var fate, tried, stores := Serve(payer, At(after, payer), w(i), attempted < most);
      ReportsOn(result, p, payer, w(i), most);
      SweptOn(cohort, i, w, most, book);
      if tried {
        attempted := attempted + 1;
      }
      if GotKey(fate) {
        after := after[payer := stores];
      }
      result := Count(result, payer, fate);
      p := Visit(p, payer, w(i), most);
      if Fails(fate) && !w(i).toldFailure {
        AbortedStays(cohort, i + 1, w, most, book);
        return None, after;
      }
    }
    assert cohort[..|cohort|] == cohort;
    outcome := Some(result);
  }

  lemma ReportsNothing(p: Pass)
    requires p.fates == []
    ensures Reports(SweepResult(0, 0, 0, 0, 0, []), p)
  {
  }

  /** One member: decide, issue, store, and tell. */
  method Serve(payer: Owner, s: Stores, r: Reply, room: bool) returns (fate: Fate, tried: bool, after: Stores)
    ensures fate == FateOf(s, payer, r, room) && tried == Attempts(s, r, room)
    ensures after == if GotKey(fate) then Renewed(s, payer, r) else s
  {
    tried, after := false, s;
    if !r.readable {
      return Failed(AtNeeds), tried, after;
    }
    if !NeedsNewKey(s.vault, r.decidedAt) {
      return Current, tried, after;
    }
    if !room {
      return Deferred, tried, after;
    }
    tried := true;
    if r.key.None? {
      return Failed(AtIssue), tried, after;
    }
    var stores := new BindingStores(s.vault, s.identity);
    var binding := stores.StoreBinding(payer, r.key.value, r.adoptedAt, r.probe, r.identityWrites);
    after := Stores(stores.vault, stores.identity);
    fate := if binding.None? then Failed(AtStore) else if r.told then KeyIssued else Untold;
  }
}
