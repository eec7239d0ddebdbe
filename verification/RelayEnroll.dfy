/**
 Enrolment in the relay: a handshake row, the token minted for it, and the one claim that
 hands the token out. Hashes are injective, so rows are keyed by the ids themselves.
 */
module RelayEnroll {
  import opened Wrappers

  const ENROLL_TTL_MS: int := 600_000
  const STALE_GRACE_MS: int := 86_400_000
  const COMPLETED_RETENTION_MS: int := 2_592_000_000

  datatype Status = Pending | Authorizing | Completed | Claimed | Failed | Expired

  datatype Row = Row(state: string, status: Status, sealed: Option<string>, tokenId: Option<string>,
                     expiresAt: int, updatedAt: int)
  datatype Token = Token(secret: string, actor: string, active: bool, issuedAt: int)

  /** `drawn` records every random id ever drawn, so that new ones are new. */
  datatype Db = Db(rows: map<string, Row>, tokens: map<string, Token>, drawn: set<string>)

  datatype Call =
    | Create(enroll: string, state: string, now: int)
    | Begin(state: string, now: int)
    | Fail(state: string, now: int)
    | Complete(state: string, actor: string, name: string, tokenId: string, secret: string, now: int)
    | Claim(enroll: string, now: int)
    | Revoke(tokenId: string)
    | Prune(now: int)

  datatype Answer = Nothing | Done(ok: bool) | StatusIs(status: Status) | Handed(tokenId: string, secret: string)

  /** Random draws are new. */
  predicate Enabled(db: Db, c: Call) {
    match c
    case Create(enroll, state, _) => enroll !in db.drawn && state !in db.drawn && enroll != state
    case Complete(_, _, _, tokenId, _, _) => tokenId !in db.drawn
    case _ => true
  }

  /** `UPDATE … WHERE state_hash = ? AND …` */
  function UpdateState(rows: map<string, Row>, state: string, when: Row -> bool, set': Row -> Row): map<string, Row> {
    map e | e in rows :: if rows[e].state == state && when(rows[e]) then set'(rows[e]) else rows[e]
  }

  predicate CanComplete(rows: map<string, Row>, state: string, now: int) {
    exists e :: e in rows && rows[e].state == state && rows[e].status == Authorizing && rows[e].expiresAt > now
  }

  predicate CanBegin(rows: map<string, Row>, state: string, now: int) {
    exists e :: e in rows && rows[e].state == state && rows[e].status == Pending && rows[e].expiresAt > now
  }

  predicate IsActor(actor: string) {
    |actor| >= 3 && actor[..3] == "ou_"
  }

  predicate Stale(r: Row, now: int) {
    if r.status == Completed then r.updatedAt <= now - COMPLETED_RETENTION_MS
    else r.expiresAt <= now - STALE_GRACE_MS
  }

  function Mint(db: Db, c: Call): Db
    requires c.Complete?
  {
    var minted := UpdateState(db.rows, c.state, (r: Row) => r.status == Authorizing,
      (r: Row) => r.(status := Completed, sealed := Some(c.secret), tokenId := Some(c.tokenId), updatedAt := c.now));
    Db(minted, db.tokens[c.tokenId := Token(c.secret, c.actor, true, c.now)], db.drawn + {c.tokenId})
  }

  function ClaimRow(db: Db, enroll: string, now: int): (Db, Answer) {
    if enroll !in db.rows then (db, Nothing)
    else
      var r := db.rows[enroll];
      if r.expiresAt <= now && r.status == Pending then
        (db.(rows := db.rows[enroll := r.(status := Expired, updatedAt := now)]), StatusIs(Expired))
      else if r.status != Completed || r.sealed.None? || r.tokenId.None? then (db, StatusIs(r.status))
      else (db.(rows := db.rows[enroll := r.(status := Claimed, sealed := None, updatedAt := now)]),
            Handed(r.tokenId.value, r.sealed.value))
  }

  /** One lock-atomic call. */
  function Step(db: Db, c: Call): (Db, Answer) {
    match c
    case Create(enroll, state, now) =>
      (Db(db.rows[enroll := Row(state, Pending, None, None, now + ENROLL_TTL_MS, now)], db.tokens,
          db.drawn + {enroll, state}), Done(true))
    case Begin(state, now) =>
      (db.(rows := UpdateState(db.rows, state, (r: Row) => r.status == Pending && r.expiresAt > now,
                               (r: Row) => r.(status := Authorizing, updatedAt := now))),
       Done(CanBegin(db.rows, state, now)))
    case Fail(state, now) =>
      (db.(rows := UpdateState(db.rows, state, (r: Row) => r.status == Authorizing,
                               (r: Row) => r.(status := Failed, updatedAt := now))), Nothing)
    case Complete(state, actor, name, _, _, now) =>
      if !IsActor(actor) || name == "" || !CanComplete(db.rows, state, now) then (db, Done(false))
      else (Mint(db, c), Done(true))
    case Claim(enroll, now) => ClaimRow(db, enroll, now)
    case Revoke(tokenId) =>
      if tokenId in db.tokens && db.tokens[tokenId].active
      then (db.(tokens := db.tokens[tokenId := db.tokens[tokenId].(active := false)]), Done(true))
      else (db, Done(false))
    case Prune(now) =>
      (db.(rows := map e | e in db.rows && !Stale(db.rows[e], now) :: db.rows[e]), Nothing)
  }

  // ----- what every call keeps -----

  predicate RowOk(db: Db, r: Row) {
    && (r.sealed.Some? <==> r.status == Completed)
    && (r.tokenId.Some? <==> r.status in {Completed, Claimed})
    && (r.tokenId.Some? ==>
          && r.tokenId.value in db.tokens && r.tokenId.value in db.drawn
          && db.tokens[r.tokenId.value].issuedAt < r.expiresAt
          && (r.sealed.Some? ==> r.sealed.value == db.tokens[r.tokenId.value].secret))
  }

  ghost predicate UniqueStates(rows: map<string, Row>) {
    forall e, e' :: e in rows && e' in rows && rows[e].state == rows[e'].state ==> e == e'
  }

  ghost predicate UniqueTokens(rows: map<string, Row>) {
    forall e, e' ::
      (e in rows && e' in rows && rows[e].tokenId.Some? && rows[e].tokenId == rows[e'].tokenId) ==> e == e'
  }

  ghost predicate Inv(db: Db) {
    && (forall e :: e in db.rows ==> e in db.drawn && db.rows[e].state in db.drawn && RowOk(db, db.rows[e]))
    && UniqueStates(db.rows) && UniqueTokens(db.rows)
    && db.tokens.Keys <= db.drawn
  }

  /** What one call may do to a status. */
  predicate MovesOnce(a: Status, b: Status) {
    || a == b
    || (a == Pending && b in {Authorizing, Expired})
    || (a == Authorizing && b in {Completed, Failed})
    || (a == Completed && b == Claimed)
  }

  /** Where any number of such moves may lead. */
  predicate Moves(a: Status, b: Status) {
    || a == b
    || (a == Pending && b != Pending)
    || (a == Authorizing && b in {Completed, Claimed, Failed})
    || (a == Completed && b == Claimed)
  }

  /** What never changes about an enrolment while its row exists. */
  ghost predicate Evolves(a: Db, b: Db) {
    && a.drawn <= b.drawn
    && (forall e :: e in b.rows && e in a.drawn ==> e in a.rows)
    && (forall e :: e in a.rows && e in b.rows ==>
          && b.rows[e].state == a.rows[e].state && b.rows[e].expiresAt == a.rows[e].expiresAt
          && Moves(a.rows[e].status, b.rows[e].status)
          && (a.rows[e].tokenId.Some? ==> b.rows[e].tokenId == a.rows[e].tokenId))
    && (forall e :: e in b.rows && e !in a.rows ==> b.rows[e].state !in a.drawn)
    && (forall t :: t in a.tokens ==>
          && t in b.tokens
          && b.tokens[t].secret == a.tokens[t].secret && b.tokens[t].actor == a.tokens[t].actor
          && b.tokens[t].issuedAt == a.tokens[t].issuedAt)
  }

  /** A change that moves some rows along and drops others. */
  predicate RowMoves(a: Row, b: Row) {
    && b.state == a.state && b.expiresAt == a.expiresAt && b.tokenId == a.tokenId
    && Moves(a.status, b.status)
    && (b.status == Completed <==> a.status == Completed && b.sealed.Some?)
    && (b.sealed.Some? ==> b.sealed == a.sealed && b.status == Completed)
    && (b.status == Claimed ==> a.status in {Completed, Claimed})
    && (a.status == Completed ==> b.status in {Completed, Claimed})
  }

  lemma RowwiseKeeps(db: Db, rows: map<string, Row>)
    requires Inv(db) && forall e :: e in rows ==> e in db.rows && RowMoves(db.rows[e], rows[e])
    ensures Inv(db.(rows := rows)) && Evolves(db, db.(rows := rows))
  {
  }

  lemma CreateKeeps(db: Db, c: Call)
    requires Inv(db) && c.Create? && Enabled(db, c)
    ensures Inv(Step(db, c).0) && Evolves(db, Step(db, c).0)
  {
  }

  lemma RevokeKeeps(db: Db, c: Call)
    requires Inv(db) && c.Revoke?
    ensures Inv(Step(db, c).0) && Evolves(db, Step(db, c).0)
  {
  }

  lemma MintKeeps(db: Db, c: Call)
    requires Inv(db) && c.Complete? && Enabled(db, c) && CanComplete(db.rows, c.state, c.now)
    ensures Inv(Mint(db, c)) && Evolves(db, Mint(db, c))
  {
    var b := Mint(db, c);
    var e0 :| e0 in db.rows && db.rows[e0].state == c.state && db.rows[e0].status == Authorizing
              && db.rows[e0].expiresAt > c.now;
    MintOne(db, c, e0);
    MintOneKeeps(db, c, e0);
  }

  /** Since states are unique, minting changes one row. */
  lemma MintOne(db: Db, c: Call, e0: string)
    requires UniqueStates(db.rows) && c.Complete? && e0 in db.rows
    requires db.rows[e0].state == c.state && db.rows[e0].status == Authorizing
    ensures Mint(db, c).rows == db.rows[e0 := MintedRow(db.rows[e0], c)]
  {
  }

  function MintedRow(r: Row, c: Call): Row
    requires c.Complete?
  {
    r.(status := Completed, sealed := Some(c.secret), tokenId := Some(c.tokenId), updatedAt := c.now)
  }

  lemma MintOneKeeps(db: Db, c: Call, e0: string)
    requires Inv(db) && c.Complete? && c.tokenId !in db.drawn && e0 in db.rows
    requires db.rows[e0].status == Authorizing && db.rows[e0].expiresAt > c.now
    ensures var b := Db(db.rows[e0 := MintedRow(db.rows[e0], c)],
                        db.tokens[c.tokenId := Token(c.secret, c.actor, true, c.now)], db.drawn + {c.tokenId});
      Inv(b) && Evolves(db, b)
  {
  }

  lemma StepKeeps(db: Db, c: Call)
    requires Inv(db) && Enabled(db, c)
    ensures Inv(Step(db, c).0) && Evolves(db, Step(db, c).0)
  {
    hide Evolves;
    hide UniqueStates;
    hide UniqueTokens;
    hide Mint;
    match c {
      case Create(_, _, _) => CreateKeeps(db, c);
      case Revoke(_) => RevokeKeeps(db, c);
      case Complete(_, _, _, _, _, _) =>
        if CanComplete(db.rows, c.state, c.now) {
          MintKeeps(db, c);
        }
        RowwiseKeeps(db, db.rows);
      case Begin(_, _) => UpdateKeeps(db, c);
      case Fail(_, _) => UpdateKeeps(db, c);
      case Claim(_, _) => ClaimOrPruneKeeps(db, c);
      case Prune(_) => ClaimOrPruneKeeps(db, c);
    }
  }

  /** The calls that only move rows along. */
  lemma UpdateKeeps(db: Db, c: Call)
    requires Inv(db) && (c.Begin? || c.Fail?)
    ensures Inv(Step(db, c).0) && Evolves(db, Step(db, c).0)
  {
    hide Evolves;
    hide UniqueStates;
    hide UniqueTokens;
    var rows := Step(db, c).0.rows;
    forall e | e in rows ensures e in db.rows && RowMoves(db.rows[e], rows[e]) {
      assert RowOk(db, db.rows[e]);
    }
    RowwiseKeeps(db, rows);
  }

  lemma ClaimOrPruneKeeps(db: Db, c: Call)
    requires Inv(db) && (c.Claim? || c.Prune?)
    ensures Inv(Step(db, c).0) && Evolves(db, Step(db, c).0)
  {
    hide Evolves;
    hide UniqueStates;
    hide UniqueTokens;
    var rows := Step(db, c).0.rows;
    forall e | e in rows ensures e in db.rows && RowMoves(db.rows[e], rows[e]) {
      assert RowOk(db, db.rows[e]);
    }
    RowwiseKeeps(db, rows);
  }

  // ----- what each call does, in the fields of the rows -----

  /** The one row with this state. */
  ghost predicate RowOf(db: Db, state: string, e: string) {
    e in db.rows && db.rows[e].state == state
  }

  /** A new enrolment is pending for ten minutes, without a token. */
  lemma CreateDoes(db: Db, c: Call)
    requires c.Create?
    ensures var b := Step(db, c).0;
      && b.rows == db.rows[c.enroll := Row(c.state, Pending, None, None, c.now + 600_000, c.now)] && b.tokens == db.tokens
  {
  }

  /** Authorization begins exactly for a pending, unexpired enrolment with this state. */
  lemma BeginDoes(db: Db, c: Call, e: string)
    requires Inv(db) && c.Begin? && RowOf(db, c.state, e)
    ensures var (b, answer) := Step(db, c);
      if db.rows[e].status == Pending && c.now < db.rows[e].expiresAt
      then answer == Done(true) && b == db.(rows := db.rows[e := db.rows[e].(status := Authorizing, updatedAt := c.now)])
      else answer == Done(false) && b == db
  {
    assert forall x :: RowOf(db, c.state, x) ==> x == e;
    assert Step(db, c).0.rows.Keys == db.rows.Keys;
  }

  /**
   A token is minted exactly for an open id with a name and an authorizing, unexpired enrolment with
   this state: active, for that actor, issued now, sealed in that row and nowhere else.
   */
  lemma CompleteDoes(db: Db, c: Call, e: string)
    requires Inv(db) && c.Complete? && RowOf(db, c.state, e)
    ensures var (b, answer) := Step(db, c);
      if "ou_" <= c.actor && c.name != "" && db.rows[e].status == Authorizing && c.now < db.rows[e].expiresAt
      then
        && answer == Done(true) && b.tokens == db.tokens[c.tokenId := Token(c.secret, c.actor, true, c.now)]
        && b.rows == db.rows[e := db.rows[e].(status := Completed, sealed := Some(c.secret), tokenId := Some(c.tokenId),
                                              updatedAt := c.now)]
      else answer == Done(false) && b == db
  {
    if db.rows[e].status == Authorizing {
      MintOne(db, c, e);
    }
  }

  /** Without such a row nothing begins and nothing is minted. */
  lemma UnknownStateDoesNothing(db: Db, c: Call)
    requires (c.Begin? || c.Complete?) && !(exists e :: RowOf(db, c.state, e))
    ensures Step(db, c).0 == db && Step(db, c).1 == Done(false)
  {
    forall e | e in db.rows ensures db.rows[e].state != c.state {
      assert !RowOf(db, c.state, e);
    }
    assert Step(db, c).0.rows.Keys == db.rows.Keys;
  }

  /** A claim hands a completed enrolment's token out once, expires an overdue pending one, and else shows the status. */
  lemma ClaimDoes(db: Db, c: Call)
    requires Inv(db) && c.Claim?
    ensures var (b, answer) := Step(db, c);
      if c.enroll !in db.rows then answer == Nothing && b == db
      else
        var r := db.rows[c.enroll];
        if r.status == Pending && r.expiresAt <= c.now
        then answer == StatusIs(Expired) && b == db.(rows := db.rows[c.enroll := r.(status := Expired, updatedAt := c.now)])
        else if r.status == Completed
        then
          && r.tokenId.Some? && r.sealed.Some? && answer == Handed(r.tokenId.value, r.sealed.value)
          && b == db.(rows := db.rows[c.enroll := r.(status := Claimed, sealed := None, updatedAt := c.now)])
        else answer == StatusIs(r.status) && b == db
  {
    if c.enroll in db.rows {
      assert RowOk(db, db.rows[c.enroll]);
    }
  }

  /** Only an authorizing enrolment with this state fails. */
  lemma FailDoes(db: Db, c: Call, e: string)
    requires c.Fail? && e in db.rows
    ensures var b := Step(db, c).0;
      && b == db.(rows := b.rows) && b.rows.Keys == db.rows.Keys
      && b.rows[e] == if db.rows[e].state == c.state && db.rows[e].status == Authorizing
                      then db.rows[e].(status := Failed, updatedAt := c.now) else db.rows[e]
  {
  }

  /** Pruning drops a completed enrolment after thirty days, any other a day after its expiry, and no token. */
  lemma PruneDoes(db: Db, now: int, e: string)
    requires e in db.rows
    ensures var b, r := Step(db, Prune(now)).0, db.rows[e];
      && b.tokens == db.tokens && (e in b.rows ==> b.rows[e] == r)
      && (e in b.rows <==> if r.status == Completed then r.updatedAt > now - 2_592_000_000
                           else r.expiresAt > now - 86_400_000)
  {
  }

  // ----- whole runs -----

  function Exec(db: Db, calls: seq<Call>): Db
    decreases |calls|
  {
    if calls == [] then db else Exec(Step(db, calls[0]).0, calls[1..])
  }

  ghost predicate AllEnabled(db: Db, calls: seq<Call>)
    decreases |calls|
  {
    calls != [] ==> Enabled(db, calls[0]) && AllEnabled(Step(db, calls[0]).0, calls[1..])
  }

  const EMPTY := Db(map[], map[], {})

  lemma EvolvesTransitive(a: Db, b: Db, c: Db)
    requires Evolves(a, b) && Evolves(b, c) && Inv(a)
    ensures Evolves(a, c)
  {
  }

  /**
   Every state a run reaches satisfies the invariant (the sealed token is present exactly while
   the status is completed, tokens were minted before expiry, no two enrolments share one), and
   what is left of earlier rows has only moved on.
   */
  lemma {:induction false} RunKeeps(db: Db, calls: seq<Call>)
    requires Inv(db) && AllEnabled(db, calls)
    ensures Inv(Exec(db, calls)) && Evolves(db, Exec(db, calls))
    decreases |calls|
  {
    hide Inv;
    hide Step;
    hide Enabled;
    if calls == [] {
      EvolvesSelf(db);
    } else {
      var b := Step(db, calls[0]).0;
      StepKeeps(db, calls[0]);
      RunKeeps(b, calls[1..]);
      EvolvesTransitive(db, b, Exec(db, calls));
    }
  }

  lemma EvolvesSelf(db: Db)
    ensures Evolves(db, db)
  {
  }

  lemma EmptyIsSound()
    ensures Inv(EMPTY)
  {
  }

  // ----- no status is skipped -----

  /** One call moves every row by at most one status, and adds only pending rows. */
  lemma StepMovesOnce(db: Db, c: Call)
    requires Enabled(db, c) && Inv(db)
    ensures forall e :: e in Step(db, c).0.rows ==>
      if e in db.rows then MovesOnce(db.rows[e].status, Step(db, c).0.rows[e].status)
      else Step(db, c).0.rows[e].status == Pending
  {
  }

  lemma {:induction false} ExecLast(db: Db, calls: seq<Call>, c: Call)
    ensures Exec(db, calls + [c]) == Step(Exec(db, calls), c).0
    ensures AllEnabled(db, calls + [c]) <==> AllEnabled(db, calls) && Enabled(Exec(db, calls), c)
    decreases |calls|
  {
    hide Step;
    hide Enabled;
    if calls == [] {
      assert ([] + [c])[1..] == [];
      assert Exec(db, [] + [c]) == Exec(Step(db, c).0, []);
    } else {
      assert (calls + [c])[1..] == calls[1..] + [c];
      ExecLast(Step(db, calls[0]).0, calls[1..], c);
    }
  }

  lemma Prefixes(db: Db, calls: seq<Call>, i: nat)
    requires i < |calls| && AllEnabled(db, calls)
    ensures AllEnabled(db, calls[..i]) && Enabled(Exec(db, calls[..i]), calls[i])
    ensures Exec(db, calls[..i + 1]) == Step(Exec(db, calls[..i]), calls[i]).0
    decreases |calls|
  {
    hide Step;
    hide Enabled;
    var n := |calls| - 1;
    assert calls == calls[..n] + [calls[n]];
    ExecLast(db, calls[..n], calls[n]);
    assert calls[..i + 1] == calls[..i] + [calls[i]];
    if i < n {
      Prefixes(db, calls[..n], i);
      assert calls[..n][..i] == calls[..i] && calls[..n][..i + 1] == calls[..i + 1] && calls[..n][i] == calls[i];
    } else {
      assert calls[..n + 1] == calls;
    }
  }

  /** Along a whole run each row goes from status to status one move at a time. */
  lemma StatusesArePaths(db: Db, calls: seq<Call>, i: nat, e: string)
    requires Inv(db) && AllEnabled(db, calls) && i < |calls|
    requires e in Exec(db, calls[..i]).rows && e in Exec(db, calls[..i + 1]).rows
    ensures MovesOnce(Exec(db, calls[..i]).rows[e].status, Exec(db, calls[..i + 1]).rows[e].status)
  {
    hide Inv;
    hide Step;
    hide Enabled;
    Prefixes(db, calls, i);
    RunKeeps(db, calls[..i]);
    StepMovesOnce(Exec(db, calls[..i]), calls[i]);
  }

  /** No row with this state is being authorized. */
  ghost predicate NotBegun(db: Db, state: string) {
    forall e :: e in db.rows && db.rows[e].state == state ==> db.rows[e].status != Authorizing
  }

  predicate Begins(db: Db, c: Call, state: string) {
    c.Begin? && c.state == state && Step(db, c).1 == Done(true)
  }

  lemma OnlyBeginBegins(db: Db, c: Call, state: string)
    requires Inv(db) && Enabled(db, c) && NotBegun(db, state) && !Begins(db, c, state)
    ensures NotBegun(Step(db, c).0, state)
  {
  }

  lemma MintNeedsBegun(db: Db, c: Call, state: string)
    requires MintsFor(db, c, state)
    ensures !NotBegun(db, state)
  {
  }

  /** A token is minted only after `begin_enrollment` has succeeded for its state, earlier in the run. */
  lemma {:induction false} MintedWasBegun(db: Db, calls: seq<Call>, c: Call, state: string) returns (i: nat)
    requires Inv(db) && AllEnabled(db, calls) && NotBegun(db, state)
    requires MintsFor(Exec(db, calls), c, state)
    ensures i < |calls| && Begins(Exec(db, calls[..i]), calls[i], state)
    decreases |calls|
  {
    hide Inv;
    hide Enabled;
    if calls == [] {
      MintNeedsBegun(db, c, state);
    } else {
      hide Step;
      hide NotBegun;
      if Begins(db, calls[0], state) {
        i := 0;
        assert calls[..0] == [];
      } else {
        var b := Step(db, calls[0]).0;
        StepKeeps(db, calls[0]);
        OnlyBeginBegins(db, calls[0], state);
        i := MintedWasBegun(b, calls[1..], c, state);
        assert calls[..i + 1][1..] == calls[1..][..i];
        i := i + 1;
      }
    }
  }

  // ----- at most once -----

  /** The state was drawn before and no row with it can be completed any more. */
  ghost predicate StateSpent(db: Db, state: string) {
    && state in db.drawn
    && forall e :: e in db.rows && db.rows[e].state == state ==> db.rows[e].status !in {Pending, Authorizing}
  }

  predicate MintsFor(db: Db, c: Call, state: string) {
    c.Complete? && c.state == state && Step(db, c).1 == Done(true)
  }

  function Mints(db: Db, calls: seq<Call>, state: string): nat
    decreases |calls|
  {
    if calls == [] then 0
    else (if MintsFor(db, calls[0], state) then 1 else 0) + Mints(Step(db, calls[0]).0, calls[1..], state)
  }

  lemma SpentStays(a: Db, b: Db, state: string)
    requires Evolves(a, b) && StateSpent(a, state)
    ensures StateSpent(b, state)
  {
  }

  lemma MintSpends(db: Db, c: Call, state: string)
    requires Inv(db) && MintsFor(db, c, state)
    ensures !StateSpent(db, state) && StateSpent(Step(db, c).0, state)
  {
    var e0 :| e0 in db.rows && db.rows[e0].state == state && db.rows[e0].status == Authorizing
              && db.rows[e0].expiresAt > c.now;
    MintOne(db, c, e0);
  }

  /** No state is ever completed twice, whatever is pruned in between. */
  lemma {:induction false} MintsAtMostOnce(db: Db, calls: seq<Call>, state: string)
    requires Inv(db) && AllEnabled(db, calls)
    ensures Mints(db, calls, state) <= if StateSpent(db, state) then 0 else 1
    decreases |calls|
  {
    hide Inv;
    hide Step;
    hide Enabled;
    hide StateSpent;
    hide Evolves;
    if calls != [] {
      var b := Step(db, calls[0]).0;
      StepKeeps(db, calls[0]);
      MintsAtMostOnce(b, calls[1..], state);
      if MintsFor(db, calls[0], state) {
        MintSpends(db, calls[0], state);
      } else if StateSpent(db, state) {
        SpentStays(db, b, state);
      }
    }
  }

  /** The enrolment was drawn before and its row cannot hold a token to hand out any more. */
  ghost predicate ClaimSpent(db: Db, enroll: string) {
    enroll in db.drawn && (enroll in db.rows ==> db.rows[enroll].status in {Claimed, Failed, Expired})
  }

  predicate HandsOut(db: Db, c: Call, enroll: string) {
    c.Claim? && c.enroll == enroll && Step(db, c).1.Handed?
  }

  function Handouts(db: Db, calls: seq<Call>, enroll: string): nat
    decreases |calls|
  {
    if calls == [] then 0
    else (if HandsOut(db, calls[0], enroll) then 1 else 0) + Handouts(Step(db, calls[0]).0, calls[1..], enroll)
  }

  lemma ClaimSpentStays(a: Db, b: Db, enroll: string)
    requires Evolves(a, b) && ClaimSpent(a, enroll)
    ensures ClaimSpent(b, enroll)
  {
  }

  /** A claim hands out exactly the token that was minted for this enrolment. */
  lemma ClaimSpends(db: Db, c: Call, enroll: string)
    requires Inv(db) && HandsOut(db, c, enroll)
    ensures !ClaimSpent(db, enroll) && ClaimSpent(Step(db, c).0, enroll)
    ensures var h := Step(db, c).1;
      h.tokenId in db.tokens && h.secret == db.tokens[h.tokenId].secret && Some(h.tokenId) == db.rows[enroll].tokenId
  {
    assert RowOk(db, db.rows[enroll]);
  }

  /** No enrolment ever hands its token out twice. */
  lemma {:induction false} HandsOutAtMostOnce(db: Db, calls: seq<Call>, enroll: string)
    requires Inv(db) && AllEnabled(db, calls)
    ensures Handouts(db, calls, enroll) <= if ClaimSpent(db, enroll) then 0 else 1
    decreases |calls|
  {
    hide Inv;
    hide Step;
    hide Enabled;
    hide ClaimSpent;
    hide Evolves;
    if calls != [] {
      var b := Step(db, calls[0]).0;
      StepKeeps(db, calls[0]);
      HandsOutAtMostOnce(b, calls[1..], enroll);
      if HandsOut(db, calls[0], enroll) {
        ClaimSpends(db, calls[0], enroll);
      } else if ClaimSpent(db, enroll) {
        ClaimSpentStays(db, b, enroll);
      }
    }
  }

  /** The tables, changed in place by lock-atomic methods. */
  class EnrollmentStore {
    var rows: map<string, Row>
    var tokens: map<string, Token>
    ghost var drawn: set<string>

    ghost function View(): Db
      reads this
    {
      Db(rows, tokens, drawn)
    }

    constructor ()
      ensures View() == EMPTY && Inv(View())
    {
      rows, tokens, drawn := map[], map[], {};
    }

    method CreateEnrollment(enroll: string, state: string, now: int)
      modifies this
      ensures View() == Step(old(View()), Create(enroll, state, now)).0
    {
      rows := rows[enroll := Row(state, Pending, None, None, now + ENROLL_TTL_MS, now)];
      drawn := drawn + {enroll, state};
    }

    method BeginEnrollment(state: string, now: int) returns (ok: bool)
      modifies this
      ensures (View(), Done(ok)) == Step(old(View()), Call.Begin(state, now))
    {
      ok := CanBegin(rows, state, now);
      rows := UpdateState(rows, state, (r: Row) => r.status == Pending && r.expiresAt > now,
                          (r: Row) => r.(status := Authorizing, updatedAt := now));
    }

    method FailEnrollment(state: string, now: int)
      modifies this
      ensures View() == Step(old(View()), Call.Fail(state, now)).0
    {
      rows := UpdateState(rows, state, (r: Row) => r.status == Authorizing,
                          (r: Row) => r.(status := Failed, updatedAt := now));
    }

    method CompleteEnrollment(state: string, actor: string, name: string, tokenId: string, secret: string, now: int)
      returns (ok: bool)
      modifies this
      ensures (View(), Done(ok)) == Step(old(View()), Call.Complete(state, actor, name, tokenId, secret, now))
    {
      if !IsActor(actor) || name == "" || !CanComplete(rows, state, now) {
        return false;
      }
      tokens := tokens[tokenId := Token(secret, actor, true, now)];
      rows := UpdateState(rows, state, (r: Row) => r.status == Authorizing,
        (r: Row) => r.(status := Completed, sealed := Some(secret), tokenId := Some(tokenId), updatedAt := now));
      drawn := drawn + {tokenId};
      ok := true;
    }

    method ClaimEnrollment(enroll: string, now: int) returns (answer: Answer)
      modifies this
      ensures (View(), answer) == Step(old(View()), Call.Claim(enroll, now))
    {
      if enroll !in rows {
        return Nothing;
      }
      var r := rows[enroll];
      if r.expiresAt <= now && r.status == Pending {
        rows := rows[enroll := r.(status := Expired, updatedAt := now)];
        return StatusIs(Expired);
      }
      if r.status != Completed || r.sealed.None? || r.tokenId.None? {
        return StatusIs(r.status);
      }
      answer := Handed(r.tokenId.value, r.sealed.value);
      rows := rows[enroll := r.(status := Claimed, sealed := None, updatedAt := now)];
    }

    method Prune(now: int)
      modifies this
      ensures View() == Step(old(View()), Call.Prune(now)).0
    {
      rows := map e | e in rows && !Stale(rows[e], now) :: rows[e];
    }

    method RevokeToken(tokenId: string) returns (ok: bool)
      modifies this
      ensures (View(), Done(ok)) == Step(old(View()), Call.Revoke(tokenId))
    {
      ok := tokenId in tokens && tokens[tokenId].active;
      if ok {
        tokens := tokens[tokenId := tokens[tokenId].(active := false)];
      }
    }
  }
}
