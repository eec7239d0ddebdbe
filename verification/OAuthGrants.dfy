/**
 The OAuth grant chain of the MCP client server: a pending request, an authorization code,
 then refresh tokens, each consumed once; single use of codes and rotation of refresh tokens
 as in sections 4.1.2, 6 and 10.4 of RFC 6749. Consuming a grant and storing its successor
 are separate lock-atomic steps, so requests in flight are part of the state.
 */
module OAuthGrants {
  import opened Wrappers

  const ALLOWED_SCOPES: set<string> := {"mcp:tools"}
  const PENDING_TTL := 300
  const CODE_TTL := 120
  const ACCESS_TTL := 300
  const REFRESH_TTL := 1_209_600
  const TOKEN_RETENTION := 86_400

  datatype Kind = PendingGrant | CodeGrant | RefreshGrant

  /** Who the chain speaks for; empty for a request nobody has approved yet. */
  datatype Rights = Rights(client: string, profile: string, subject: string, scopes: set<string>)

  /**
   `root` is the authorization request the chain began with, `parent` and `source` the grant that
   was consumed for this row. The program stores neither; they say where a row comes from.
   */
  datatype Grant = Grant(kind: Kind, rights: Rights, root: string, parent: Option<string>, expiresAt: int, consumed: bool)
  datatype Access = Access(rights: Rights, root: string, source: string, expiresAt: int, revokedAt: Option<int>)

  /** A request between two lock-atomic steps; `source` is the grant value it consumed. */
  datatype Stage = PutCode | MintAccess | PutRefresh
  datatype Flight = Flight(stage: Stage, rights: Rights, root: string, source: string)

  datatype Db = Db(grants: map<string, Grant>, tokens: map<string, Access>,
                   flights: map<nat, Flight>, approvals: map<string, Rights>, drawn: set<string>)

  const EMPTY := Db(map[], map[], map[], map[], {})

  /** `value` and `token` are fresh random draws; `thread` names the request being served. */
  datatype Call =
    | Authorize(value: string, client: string, scopes: set<string>, now: int)
    | BeginApprove(thread: nat, value: string, profile: string, subject: string, now: int)
    | BeginExchange(thread: nat, value: string, client: string, now: int)
    | BeginRefresh(thread: nat, value: string, client: string, scopes: set<string>, now: int)
    | Store(thread: nat, value: string, now: int)
    | Mint(thread: nat, value: string, now: int)
    | RevokeAccess(value: string, now: int)
    | RevokeRefresh(value: string, now: int)
    | Abandon(thread: nat)

  /** Draws are new, a new request is a new thread, and clients are registered, hence named. */
  predicate Enabled(db: Db, c: Call) {
    match c
    case Authorize(value, client, _, _) => value !in db.drawn && client != ""
    case BeginApprove(thread, _, _, _, _) => thread !in db.flights
    case BeginExchange(thread, _, client, _) => thread !in db.flights && client != ""
    case BeginRefresh(thread, _, client, _, _) => thread !in db.flights && client != ""
    case Store(_, value, _) => value !in db.drawn
    case Mint(_, value, _) => value !in db.drawn
    case _ => true
  }

  /** `_load_grant`: the row a value can still be used as. */
  predicate Usable(db: Db, kind: Kind, value: string, client: string, now: int) {
    && value in db.grants && db.grants[value].kind == kind && !db.grants[value].consumed
    && db.grants[value].expiresAt > now
    && (client == "" || db.grants[value].rights.client == client)
  }

  function Consumed(db: Db, value: string): map<string, Grant>
    requires value in db.grants
  {
    db.grants[value := db.grants[value].(consumed := true)]
  }

  /** Consume a grant and take its rights in flight. */
  function TakeOff(db: Db, thread: nat, value: string, stage: Stage, rights: Rights): Db
    requires value in db.grants
  {
    db.(grants := Consumed(db, value),
        flights := db.flights[thread := Flight(stage, rights, db.grants[value].root, value)])
  }

  function Landed(db: Db, thread: nat): map<nat, Flight> {
    db.flights - {thread}
  }

  predicate Mintable(scopes: set<string>) {
    scopes != {} && scopes <= ALLOWED_SCOPES
  }

  predicate Expired(a: Access, now: int) {
    a.expiresAt < now - TOKEN_RETENTION
    || (a.revokedAt.Some? && a.revokedAt.value < now - TOKEN_RETENTION)
  }

  function Collected(tokens: map<string, Access>, now: int): map<string, Access> {
    map t | t in tokens && !Expired(tokens[t], now) :: tokens[t]
  }

  predicate StageIs(db: Db, thread: nat, s: Stage) {
    thread in db.flights && db.flights[thread].stage == s
  }

  function StoreGrant(db: Db, thread: nat, value: string, kind: Kind, expiresAt: int): Db
    requires thread in db.flights
  {
    var f := db.flights[thread];
    db.(grants := db.grants[value := Grant(kind, f.rights, f.root, Some(f.source), expiresAt, false)],
        flights := Landed(db, thread), drawn := db.drawn + {value})
  }

  /** One lock-atomic step. */
  function Step(db: Db, c: Call): Db {
    match c
    case Authorize(value, client, scopes, now) =>
      db.(grants := db.grants[value := Grant(PendingGrant, Rights(client, "", "", scopes), value, None, now + PENDING_TTL, false)],
          drawn := db.drawn + {value})
    case BeginApprove(thread, value, profile, subject, now) =>
      if !Usable(db, PendingGrant, value, "", now) then db
      else
        var g := db.grants[value];
        var rights := g.rights.(profile := profile, subject := subject);
        TakeOff(db, thread, value, PutCode, rights).(approvals := db.approvals[g.root := rights])
    case BeginExchange(thread, value, client, now) =>
      if !Usable(db, CodeGrant, value, client, now) then db
      else TakeOff(db, thread, value, MintAccess, db.grants[value].rights)
    case BeginRefresh(thread, value, client, scopes, now) =>
      if !Usable(db, RefreshGrant, value, client, now) then db
      else if !(scopes <= db.grants[value].rights.scopes) then db.(grants := Consumed(db, value))
      else TakeOff(db, thread, value, MintAccess, db.grants[value].rights.(scopes := scopes))
    case Store(thread, value, now) =>
      if StageIs(db, thread, PutCode) then StoreGrant(db, thread, value, CodeGrant, now + CODE_TTL)
      else if StageIs(db, thread, PutRefresh) then StoreGrant(db, thread, value, RefreshGrant, now + REFRESH_TTL)
      else db
    case Mint(thread, value, now) =>
      if !StageIs(db, thread, MintAccess) then db
      else if !Mintable(db.flights[thread].rights.scopes) then db.(flights := Landed(db, thread))
      else
        var f := db.flights[thread];
        db.(tokens := Collected(db.tokens, now)[value := Access(f.rights, f.root, f.source, now + ACCESS_TTL, None)],
            flights := db.flights[thread := f.(stage := PutRefresh)], drawn := db.drawn + {value})
    case RevokeAccess(value, now) =>
      if value in db.tokens && db.tokens[value].revokedAt.None?
      then db.(tokens := db.tokens[value := db.tokens[value].(revokedAt := Some(now))]) else db
    case RevokeRefresh(value, now) =>
      if Usable(db, RefreshGrant, value, "", now) then db.(grants := Consumed(db, value)) else db
    case Abandon(thread) => db.(flights := Landed(db, thread))
  }

  // ----- what every step keeps -----

  /** The rights are those the approver gave to this chain, with scopes among the approved ones. */
  predicate Within(approvals: map<string, Rights>, root: string, r: Rights) {
    && root in approvals && r.client == approvals[root].client && r.profile == approvals[root].profile
    && r.subject == approvals[root].subject && r.scopes <= approvals[root].scopes
  }

  predicate GrantOk(db: Db, value: string, g: Grant) {
    && value in db.drawn && g.root in db.drawn
    && (g.kind == PendingGrant ==> g.root == value && (!g.consumed ==> g.root !in db.approvals))
    && (g.kind != PendingGrant ==> Within(db.approvals, g.root, g.rights))
  }

  ghost predicate GrantsOk(db: Db) {
    forall v :: v in db.grants ==> GrantOk(db, v, db.grants[v])
  }

  ghost predicate FlightsOk(db: Db) {
    forall t :: t in db.flights ==>
      && Within(db.approvals, db.flights[t].root, db.flights[t].rights)
      && db.flights[t].source in db.grants && db.grants[db.flights[t].source].consumed
      && db.grants[db.flights[t].source].root == db.flights[t].root
      && (db.flights[t].stage == MintAccess ==> db.grants[db.flights[t].source].kind != PendingGrant)
  }

  ghost predicate TokensOk(db: Db) {
    forall t :: t in db.tokens ==> Within(db.approvals, db.tokens[t].root, db.tokens[t].rights)
  }

  ghost predicate ApprovalsOk(db: Db) {
    forall r :: r in db.approvals ==> r in db.drawn
  }

  /** A chain continues in at most one place: one unconsumed grant, or one request in flight. */
  ghost predicate OneGrant(db: Db) {
    forall v, v' ::
      (v in db.grants && v' in db.grants && !db.grants[v].consumed && !db.grants[v'].consumed
       && db.grants[v].root == db.grants[v'].root) ==> v == v'
  }

  ghost predicate OneFlight(db: Db) {
    forall t, t' :: t in db.flights && t' in db.flights && db.flights[t].root == db.flights[t'].root ==> t == t'
  }

  ghost predicate NotBoth(db: Db) {
    forall v, t :: v in db.grants && t in db.flights && db.grants[v].root == db.flights[t].root
      ==> db.grants[v].consumed
  }

  ghost predicate Inv(db: Db) {
    && GrantsOk(db) && FlightsOk(db) && TokensOk(db) && ApprovalsOk(db)
    && OneGrant(db) && OneFlight(db) && NotBoth(db)
  }

  /** Grants are kept, only ever consumed; approvals stand. */
  ghost predicate Evolves(a: Db, b: Db) {
    && a.drawn <= b.drawn
    && (forall v :: v in a.grants ==>
          && v in b.grants
          && b.grants[v] == a.grants[v].(consumed := b.grants[v].consumed)
          && (a.grants[v].consumed ==> b.grants[v].consumed))
    && (forall v :: v in b.grants && v in a.drawn ==> v in a.grants)
    && (forall r :: r in a.approvals ==> r in b.approvals && b.approvals[r] == a.approvals[r])
  }

  lemma EvolvesTransitive(a: Db, b: Db, c: Db)
    requires Evolves(a, b) && Evolves(b, c)
    ensures Evolves(a, c)
  {
  }

  lemma Unchanged(db: Db)
    ensures Evolves(db, db)
  {
  }

  lemma AuthorizeKeeps(db: Db, c: Call)
    requires Inv(db) && Enabled(db, c) && c.Authorize?
    ensures Inv(Step(db, c)) && Evolves(db, Step(db, c))
  {
    assert forall v :: v in db.grants ==> GrantOk(db, v, db.grants[v]);
  }

  /** Nothing of the chain is usable or in flight. */
  ghost predicate Quiet(db: Db, root: string) {
    && (forall v :: v in db.grants && db.grants[v].root == root ==> db.grants[v].consumed)
    && (forall t :: t in db.flights ==> db.flights[t].root != root)
  }

  lemma FlightAdded(db: Db, thread: nat, f: Flight)
    requires Inv(db) && thread !in db.flights && Quiet(db, f.root) && Within(db.approvals, f.root, f.rights)
    requires f.source in db.grants && db.grants[f.source].consumed && db.grants[f.source].root == f.root
    requires f.stage == MintAccess ==> db.grants[f.source].kind != PendingGrant
    ensures var b := db.(flights := db.flights[thread := f]); Inv(b) && Evolves(db, b)
  {
  }

  lemma ConsumeQuiets(db: Db, value: string)
    requires Inv(db) && value in db.grants && !db.grants[value].consumed
    ensures Quiet(db.(grants := Consumed(db, value)), db.grants[value].root)
  {
  }

  lemma TakeOffKeeps(db: Db, thread: nat, value: string, stage: Stage, rights: Rights)
    requires Inv(db) && thread !in db.flights && value in db.grants && !db.grants[value].consumed
    requires Within(db.approvals, db.grants[value].root, rights) && db.grants[value].kind != PendingGrant
    ensures var b := TakeOff(db, thread, value, stage, rights); Inv(b) && Evolves(db, b)
  {
    hide Inv;
    hide Evolves;
    hide Quiet;
    var a := db.(grants := Consumed(db, value));
    ConsumeKeeps(db, value);
    ConsumeQuiets(db, value);
    var f := Flight(stage, rights, db.grants[value].root, value);
    FlightAdded(a, thread, f);
    EvolvesTransitive(db, a, a.(flights := a.flights[thread := f]));
  }

  lemma ApprovalAdded(db: Db, value: string, rights: Rights)
    requires Inv(db) && value in db.grants && db.grants[value].kind == PendingGrant && db.grants[value].consumed
    requires value !in db.approvals
    ensures var b := db.(approvals := db.approvals[value := rights]); Inv(b) && Evolves(db, b)
  {
    assert forall v :: v in db.grants ==> GrantOk(db, v, db.grants[v]);
  }

  lemma ApproveKeeps(db: Db, c: Call)
    requires Inv(db) && Enabled(db, c) && c.BeginApprove? && Usable(db, PendingGrant, c.value, "", c.now)
    ensures Inv(Step(db, c)) && Evolves(db, Step(db, c))
  {
    assert GrantOk(db, c.value, db.grants[c.value]);
    hide Inv;
    hide Evolves;
    hide Quiet;
    var g := db.grants[c.value];
    var rights := g.rights.(profile := c.profile, subject := c.subject);
    var a := db.(grants := Consumed(db, c.value));
    ConsumeKeeps(db, c.value);
    ConsumeQuiets(db, c.value);
    ApprovalAdded(a, c.value, rights);
    var b := a.(approvals := a.approvals[c.value := rights]);
    QuietStays(a, b, g.root);
    var f := Flight(PutCode, rights, g.root, c.value);
    FlightAdded(b, c.thread, f);
    EvolvesTransitive(db, a, b);
    EvolvesTransitive(db, b, b.(flights := b.flights[c.thread := f]));
  }

  lemma QuietStays(a: Db, b: Db, root: string)
    requires Quiet(a, root) && a.grants == b.grants && a.flights == b.flights
    ensures Quiet(b, root)
  {
  }

  lemma ConsumeKeeps(db: Db, value: string)
    requires Inv(db) && value in db.grants
    ensures var b := db.(grants := Consumed(db, value)); Inv(b) && Evolves(db, b)
  {
    assert GrantOk(db, value, db.grants[value]);
  }

  lemma LandKeeps(db: Db, thread: nat)
    requires Inv(db)
    ensures var b := db.(flights := Landed(db, thread)); Inv(b) && Evolves(db, b)
  {
  }

  lemma StoreKeeps(db: Db, thread: nat, value: string, kind: Kind, expiresAt: int)
    requires Inv(db) && thread in db.flights && value !in db.drawn && kind != PendingGrant
    ensures var b := StoreGrant(db, thread, value, kind, expiresAt); Inv(b) && Evolves(db, b)
  {
  }

  lemma MintKeeps(db: Db, c: Call)
    requires Inv(db) && Enabled(db, c) && c.Mint? && StageIs(db, c.thread, MintAccess)
    requires Mintable(db.flights[c.thread].rights.scopes)
    ensures Inv(Step(db, c)) && Evolves(db, Step(db, c))
  {
  }

  lemma RevokeAccessKeeps(db: Db, c: Call)
    requires Inv(db) && c.RevokeAccess?
    ensures Inv(Step(db, c)) && Evolves(db, Step(db, c))
  {
  }

  lemma RightsAreWithin(db: Db, value: string)
    requires Inv(db) && value in db.grants && db.grants[value].kind != PendingGrant
    ensures Within(db.approvals, db.grants[value].root, db.grants[value].rights)
  {
    assert GrantOk(db, value, db.grants[value]);
  }

  lemma StepKeeps(db: Db, c: Call)
    requires Inv(db) && Enabled(db, c)
    ensures Inv(Step(db, c)) && Evolves(db, Step(db, c))
  {
    hide Inv;
    hide Evolves;
    hide TakeOff;
    hide StoreGrant;
    Unchanged(db);
    match c {
      case Authorize(_, _, _, _) => AuthorizeKeeps(db, c);
      case BeginApprove(_, value, _, _, now) =>
        if Usable(db, PendingGrant, value, "", now) { ApproveKeeps(db, c); }
      case BeginExchange(thread, value, client, now) =>
        if Usable(db, CodeGrant, value, client, now) {
          RightsAreWithin(db, value);
          TakeOffKeeps(db, thread, value, MintAccess, db.grants[value].rights);
        }
      case BeginRefresh(thread, value, client, scopes, now) =>
        if Usable(db, RefreshGrant, value, client, now) {
          ConsumeKeeps(db, value);
          RightsAreWithin(db, value);
          if scopes <= db.grants[value].rights.scopes {
            TakeOffKeeps(db, thread, value, MintAccess, db.grants[value].rights.(scopes := scopes));
          }
        }
      case Store(thread, value, now) =>
        if StageIs(db, thread, PutCode) {
          StoreKeeps(db, thread, value, CodeGrant, now + CODE_TTL);
        } else if StageIs(db, thread, PutRefresh) {
          StoreKeeps(db, thread, value, RefreshGrant, now + REFRESH_TTL);
        }
      case Mint(thread, _, _) =>
        LandKeeps(db, thread);
        if StageIs(db, thread, MintAccess) && Mintable(db.flights[thread].rights.scopes) {
          MintKeeps(db, c);
        }
      case RevokeAccess(_, _) => RevokeAccessKeeps(db, c);
      case RevokeRefresh(value, now) =>
        if Usable(db, RefreshGrant, value, "", now) { ConsumeKeeps(db, value); }
      case Abandon(thread) => LandKeeps(db, thread);
    }
  }

  // ----- lineage: every row narrows the grant it was bought with -----

  /** Rights of this chain bought with the consumed grant `source`: same holder, no scope it lacked. */
  predicate Heir(grants: map<string, Grant>, source: string, root: string, r: Rights) {
    && source in grants && grants[source].consumed && grants[source].root == root
    && r.client == grants[source].rights.client && r.scopes <= grants[source].rights.scopes
    && (grants[source].kind != PendingGrant ==>
          r.profile == grants[source].rights.profile && r.subject == grants[source].rights.subject)
  }

  /** A request has no parent, a code comes from a request, a refresh token from a code or its predecessor. */
  predicate Descends(grants: map<string, Grant>, g: Grant) {
    && (g.kind == PendingGrant <==> g.parent.None?)
    && (g.parent.Some? ==>
          && Heir(grants, g.parent.value, g.root, g.rights)
          && (g.kind == CodeGrant <==> grants[g.parent.value].kind == PendingGrant))
  }

  predicate FlightDescends(grants: map<string, Grant>, f: Flight) {
    Heir(grants, f.source, f.root, f.rights) && (f.stage == PutCode <==> grants[f.source].kind == PendingGrant)
  }

  predicate TokenDescends(grants: map<string, Grant>, a: Access) {
    Heir(grants, a.source, a.root, a.rights) && grants[a.source].kind != PendingGrant
  }

  ghost predicate Lineage(db: Db) {
    && (forall v :: v in db.grants ==> Descends(db.grants, db.grants[v]))
    && (forall t :: t in db.flights ==> FlightDescends(db.grants, db.flights[t]))
    && (forall t :: t in db.tokens ==> TokenDescends(db.grants, db.tokens[t]))
  }

  /** Rows already there keep their lineage while grants are only consumed. */
  lemma LineageStays(a: Db, b: Db)
    requires Lineage(a) && Evolves(a, b)
    ensures forall v :: v in a.grants ==> Descends(b.grants, b.grants[v])
    ensures forall t :: t in a.flights ==> FlightDescends(b.grants, a.flights[t])
    ensures forall t :: t in a.tokens ==> TokenDescends(b.grants, a.tokens[t])
  {
    forall v | v in a.grants ensures Descends(b.grants, b.grants[v]) {
      assert Descends(a.grants, a.grants[v]);
    }
    forall t | t in a.flights ensures FlightDescends(b.grants, a.flights[t]) {
      assert FlightDescends(a.grants, a.flights[t]);
    }
    forall t | t in a.tokens ensures TokenDescends(b.grants, a.tokens[t]) {
      assert TokenDescends(a.grants, a.tokens[t]);
    }
  }

  /** What `b` has and `a` has not, or has otherwise, descends. */
  ghost predicate NewRowsDescend(a: Db, b: Db) {
    && (forall v :: v in b.grants && v !in a.grants ==> Descends(b.grants, b.grants[v]))
    && (forall t :: t in b.flights && !(t in a.flights && b.flights[t] == a.flights[t]) ==>
          FlightDescends(b.grants, b.flights[t]))
    && (forall t :: t in b.tokens && !(t in a.tokens && b.tokens[t] == a.tokens[t]) ==>
          TokenDescends(b.grants, b.tokens[t]))
  }

  lemma LandingDescends(db: Db, c: Call)
    requires Lineage(db) && Enabled(db, c) && (c.Store? || c.Mint?)
    ensures NewRowsDescend(db, Step(db, c))
  {
    hide Lineage;
    if c.thread in db.flights {
      FlightOf(db, c.thread);
    }
  }

  lemma TakeOffDescends(db: Db, c: Call)
    requires c.Authorize? || c.BeginApprove? || c.BeginExchange? || c.BeginRefresh?
    ensures NewRowsDescend(db, Step(db, c))
  {
  }

  lemma StepDescends(db: Db, c: Call)
    requires Lineage(db) && Enabled(db, c)
    ensures NewRowsDescend(db, Step(db, c))
  {
    hide Lineage;
    if c.Store? || c.Mint? {
      LandingDescends(db, c);
    } else if c.Authorize? || c.BeginApprove? || c.BeginExchange? || c.BeginRefresh? {
      TakeOffDescends(db, c);
    } else if c.RevokeAccess? && c.value in db.tokens {
      TokenOf(db, c.value);
    }
  }

  lemma FlightOf(db: Db, thread: nat)
    requires Lineage(db) && thread in db.flights
    ensures FlightDescends(db.grants, db.flights[thread])
  {
  }

  lemma TokenOf(db: Db, token: string)
    requires Lineage(db) && token in db.tokens
    ensures TokenDescends(db.grants, db.tokens[token])
  {
  }

  lemma StepKeepsLineage(db: Db, c: Call)
    requires Lineage(db) && Inv(db) && Enabled(db, c)
    ensures Lineage(Step(db, c))
  {
    hide Inv;
    hide Step;
    hide Enabled;
    hide Descends;
    hide FlightDescends;
    hide TokenDescends;
    StepKeeps(db, c);
    LineageStays(db, Step(db, c));
    StepDescends(db, c);
  }

  /** A path of grants, each bought with the one before. */
  ghost predicate Path(db: Db, path: seq<string>) {
    && (forall i :: 0 <= i < |path| ==> path[i] in db.grants)
    && (forall i, j :: 0 <= i && j == i + 1 < |path| ==> db.grants[path[j]].parent == Some(path[i]))
  }

  /** Scopes never widen again along a chain, and from the code on its holder stays the same. */
  lemma {:induction false} ScopesOnlyNarrow(db: Db, path: seq<string>, i: nat, j: nat)
    requires Lineage(db) && Path(db, path) && i <= j < |path|
    ensures db.grants[path[j]].rights.scopes <= db.grants[path[i]].rights.scopes
    ensures db.grants[path[j]].rights.client == db.grants[path[i]].rights.client
    ensures db.grants[path[i]].kind != PendingGrant ==>
      && db.grants[path[j]].rights.profile == db.grants[path[i]].rights.profile
      && db.grants[path[j]].rights.subject == db.grants[path[i]].rights.subject
      && db.grants[path[j]].kind != PendingGrant
    decreases j
  {
    if i < j {
      ScopesOnlyNarrow(db, path, i, j - 1);
      assert Descends(db.grants, db.grants[path[j]]);
      assert db.grants[path[j]].parent == Some(path[j - 1]);
    }
  }

  /** An access token has no scope that any grant on the way to it lacked. */
  lemma TokenNarrowsItsChain(db: Db, path: seq<string>, token: string, i: nat)
    requires Lineage(db) && Path(db, path) && i < |path|
    requires token in db.tokens && db.tokens[token].source == path[|path| - 1]
    ensures db.tokens[token].rights.scopes <= db.grants[path[i]].rights.scopes
  {
    hide Lineage;
    ScopesOnlyNarrow(db, path, i, |path| - 1);
    TokenOf(db, token);
  }

  // ----- whole runs -----

  function Exec(db: Db, calls: seq<Call>): Db
    decreases |calls|
  {
    if calls == [] then db else Exec(Step(db, calls[0]), calls[1..])
  }

  ghost predicate AllEnabled(db: Db, calls: seq<Call>)
    decreases |calls|
  {
    calls != [] ==> Enabled(db, calls[0]) && AllEnabled(Step(db, calls[0]), calls[1..])
  }

  /**
   In every reachable state each chain has at most one unconsumed grant and never one beside a
   request in flight, every code, refresh token and access token keeps the approver's profile,
   subject and client, and none has a scope that the grant it was bought with lacked.
   */
  lemma {:induction false} RunKeeps(db: Db, calls: seq<Call>)
    requires Inv(db) && Lineage(db) && AllEnabled(db, calls)
    ensures Inv(Exec(db, calls)) && Lineage(Exec(db, calls)) && Evolves(db, Exec(db, calls))
    decreases |calls|
  {
    hide Inv;
    hide Lineage;
    hide Evolves;
    hide Step;
    hide Enabled;
    if calls == [] {
      Unchanged(db);
    } else {
      var b := Step(db, calls[0]);
      StepKeeps(db, calls[0]);
      StepKeepsLineage(db, calls[0]);
      RunKeeps(b, calls[1..]);
      EvolvesTransitive(db, b, Exec(db, calls));
    }
  }

  lemma {:induction false} ExecLast(db: Db, calls: seq<Call>, c: Call)
    ensures Exec(db, calls + [c]) == Step(Exec(db, calls), c)
    ensures AllEnabled(db, calls + [c]) <==> AllEnabled(db, calls) && Enabled(Exec(db, calls), c)
    decreases |calls|
  {
    hide Step;
    hide Enabled;
    if calls == [] {
      assert ([] + [c])[1..] == [];
      assert Exec(db, [] + [c]) == Exec(Step(db, c), []);
    } else {
      assert (calls + [c])[1..] == calls[1..] + [c];
      ExecLast(Step(db, calls[0]), calls[1..], c);
    }
  }

  /** The state before the last call of a run, with what is known of it. */
  lemma BeforeLast(calls: seq<Call>)
    requires calls != [] && AllEnabled(EMPTY, calls)
    ensures var n := |calls| - 1; var b := Exec(EMPTY, calls[..n]);
      && AllEnabled(EMPTY, calls[..n]) && Enabled(b, calls[n]) && Exec(EMPTY, calls) == Step(b, calls[n])
      && Inv(b) && Evolves(b, Step(b, calls[n]))
  {
    hide Inv;
    hide Evolves;
    hide Step;
    hide Enabled;
    var n := |calls| - 1;
    assert calls == calls[..n] + [calls[n]];
    ExecLast(EMPTY, calls[..n], calls[n]);
    EmptyIsSound();
    RunKeeps(EMPTY, calls[..n]);
    StepKeeps(Exec(EMPTY, calls[..n]), calls[n]);
  }

  lemma EmptyIsSound()
    ensures Inv(EMPTY) && Lineage(EMPTY)
  {
  }

  /** Only `authorize` makes a request. */
  lemma NewRequest(db: Db, c: Call, v: string)
    requires v !in db.grants && v in Step(db, c).grants && Step(db, c).grants[v].kind == PendingGrant
    ensures c.Authorize? && c.value == v && Step(db, c).grants[v].rights == Rights(c.client, "", "", c.scopes)
  {
  }

  /** A request stands for the client and the scopes it was made with. */
  lemma {:induction false} RequestWasMade(calls: seq<Call>, v: string) returns (j: nat)
    requires AllEnabled(EMPTY, calls)
    requires v in Exec(EMPTY, calls).grants && Exec(EMPTY, calls).grants[v].kind == PendingGrant
    ensures j < |calls| && calls[j].Authorize? && calls[j].value == v
    ensures Exec(EMPTY, calls).grants[v].rights == Rights(calls[j].client, "", "", calls[j].scopes)
    decreases |calls|
  {
    hide Inv;
    hide Step;
    hide Enabled;
    var n := |calls| - 1;
    BeforeLast(calls);
    var b := Exec(EMPTY, calls[..n]);
    if v in b.grants {
      j := RequestWasMade(calls[..n], v);
    } else {
      j := n;
      NewRequest(b, calls[n], v);
    }
  }

  /** Only `approve` approves, and then in the name of its principal. */
  lemma NewApproval(db: Db, c: Call, root: string)
    requires Inv(db) && root !in db.approvals && root in Step(db, c).approvals
    ensures c.BeginApprove? && c.value == root && root in db.grants && db.grants[root].kind == PendingGrant
    ensures !db.grants[root].consumed && db.grants[root].expiresAt > c.now
    ensures var r := Step(db, c).approvals[root];
      && r.profile == c.profile && r.subject == c.subject
      && r.client == db.grants[root].rights.client && r.scopes == db.grants[root].rights.scopes
  {
    if c.BeginApprove? && c.value in db.grants {
      assert GrantOk(db, c.value, db.grants[c.value]);
    }
  }

  /** What is approved is what one call of the run asked for and a later one approved. */
  lemma {:induction false} ApprovalWasGiven(calls: seq<Call>, root: string) returns (j: nat, i: nat)
    requires AllEnabled(EMPTY, calls) && root in Exec(EMPTY, calls).approvals
    ensures j < i < |calls| && calls[j].Authorize? && calls[j].value == root
    ensures calls[i].BeginApprove? && calls[i].value == root
    ensures Exec(EMPTY, calls).approvals[root]
         == Rights(calls[j].client, calls[i].profile, calls[i].subject, calls[j].scopes)
    decreases |calls|
  {
    hide Step;
    hide Enabled;
    var n := |calls| - 1;
    BeforeLast(calls);
    var b := Exec(EMPTY, calls[..n]);
    if root in b.approvals {
      hide Inv;
      j, i := ApprovalWasGiven(calls[..n], root);
    } else {
      i := n;
      NewApproval(b, calls[n], root);
      j := RequestWasMade(calls[..n], root);
    }
  }

  /**
   Every access token of a run that started empty goes back to one `authorize` call and a later
   approval of that request: its client is the one that asked, its scopes are among those asked for,
   and its profile and subject are those of the principal that approved.
   */
  lemma TokensSpeakForTheApprover(calls: seq<Call>, token: string) returns (j: nat, i: nat)
    requires AllEnabled(EMPTY, calls) && token in Exec(EMPTY, calls).tokens
    ensures j < i < |calls| && calls[j].Authorize? && calls[i].BeginApprove? && calls[i].value == calls[j].value
    ensures var rights := Exec(EMPTY, calls).tokens[token].rights;
      && rights.client == calls[j].client && rights.scopes <= calls[j].scopes
      && rights.profile == calls[i].profile && rights.subject == calls[i].subject
  {
    EmptyIsSound();
    RunKeeps(EMPTY, calls);
    var db := Exec(EMPTY, calls);
    assert Within(db.approvals, db.tokens[token].root, db.tokens[token].rights);
    j, i := ApprovalWasGiven(calls, db.tokens[token].root);
  }

  /** The step issues an access token bought with `value`. */
  predicate Buys(db: Db, c: Call, value: string) {
    && c.Mint? && StageIs(db, c.thread, MintAccess) && db.flights[c.thread].source == value
    && Mintable(db.flights[c.thread].rights.scopes)
  }

  function Purchases(db: Db, calls: seq<Call>, value: string): nat
    decreases |calls|
  {
    if calls == [] then 0
    else (if Buys(db, calls[0], value) then 1 else 0) + Purchases(Step(db, calls[0]), calls[1..], value)
  }

  /** `value` is used up: consumed, with no request in flight that has yet to mint for it. */
  ghost predicate Spent(db: Db, value: string) {
    && value in db.drawn && (value in db.grants ==> db.grants[value].consumed)
    && forall t :: t in db.flights && db.flights[t].stage == MintAccess ==> db.flights[t].source != value
  }

  lemma BuyingSpends(db: Db, c: Call, value: string)
    requires Inv(db) && Buys(db, c, value)
    ensures !Spent(db, value) && Spent(Step(db, c), value)
  {
    var b, f := Step(db, c), db.flights[c.thread];
    assert GrantOk(db, value, db.grants[value]);
    forall t | t in b.flights && b.flights[t].stage == MintAccess ensures b.flights[t].source != value {
      if b.flights[t].source == value {
        SameSourceSameRoot(db, t, c.thread);
      }
    }
  }

  lemma SameSourceSameRoot(db: Db, t: nat, t': nat)
    requires Inv(db) && t in db.flights && t' in db.flights && db.flights[t].source == db.flights[t'].source
    ensures t == t'
  {
  }

  lemma SpentStays(db: Db, c: Call, value: string)
    requires Enabled(db, c) && Spent(db, value)
    ensures Spent(Step(db, c), value)
  {
  }

  /** Each code or refresh value buys at most one token pair in any run. */
  lemma {:induction false} BuysAtMostOnce(db: Db, calls: seq<Call>, value: string)
    requires Inv(db) && AllEnabled(db, calls)
    ensures Purchases(db, calls, value) <= if Spent(db, value) then 0 else 1
    decreases |calls|
  {
    hide Inv;
    hide Evolves;
    hide Step;
    hide Enabled;
    hide Spent;
    if calls != [] {
      var b := Step(db, calls[0]);
      StepKeeps(db, calls[0]);
      BuysAtMostOnce(b, calls[1..], value);
      if Buys(db, calls[0], value) {
        BuyingSpends(db, calls[0], value);
      } else if Spent(db, value) {
        SpentStays(db, calls[0], value);
      }
    }
  }

  // ----- what the requests do, in the fields of the rows -----

  /** A grant of this kind, unused and unexpired, held by this client. */
  predicate Good(db: Db, kind: Kind, value: string, client: string, now: int) {
    && value in db.grants && db.grants[value].kind == kind && !db.grants[value].consumed
    && db.grants[value].expiresAt > now && db.grants[value].rights.client == client
  }

  /** An approval turns an unused request of at most five minutes into a code of two, in the principal's name. */
  lemma ApprovalDoes(db: Db, thread: nat, request: string, profile: string, subject: string, code: string, now: int)
    requires thread !in db.flights && code !in db.grants
    ensures var b := Exec(db, [BeginApprove(thread, request, profile, subject, now), Store(thread, code, now)]);
      if request in db.grants && db.grants[request].kind == PendingGrant && !db.grants[request].consumed
         && db.grants[request].expiresAt > now
      then
        && b.grants.Keys == db.grants.Keys + {code} && b.grants[request] == db.grants[request].(consumed := true)
        && b.grants[code].kind == CodeGrant && b.grants[code].expiresAt == now + 120 && !b.grants[code].consumed
        && b.grants[code].rights == Rights(db.grants[request].rights.client, profile, subject, db.grants[request].rights.scopes)
        && b.tokens == db.tokens
      else b == db
  {
    Two(db, BeginApprove(thread, request, profile, subject, now), Store(thread, code, now));
  }

  lemma RequestDoes(db: Db, request: string, client: string, scopes: set<string>, now: int)
    requires request !in db.grants
    ensures var b := Step(db, Authorize(request, client, scopes, now));
      && b.grants.Keys == db.grants.Keys + {request} && b.grants[request].kind == PendingGrant
      && b.grants[request].expiresAt == now + 300 && !b.grants[request].consumed
      && b.grants[request].rights.client == client && b.grants[request].rights.scopes == scopes && b.tokens == db.tokens
  {
  }

  /** What an issued pair must be: five minutes of access and fourteen days to refresh, with these rights. */
  predicate PairIssued(b: Db, rights: Rights, token: string, refresh: string, now: int) {
    && token in b.tokens && b.tokens[token].rights == rights && b.tokens[token].expiresAt == now + 300
    && b.tokens[token].revokedAt == None
    && refresh in b.grants && b.grants[refresh].kind == RefreshGrant && b.grants[refresh].rights == rights
    && b.grants[refresh].expiresAt == now + 1_209_600 && !b.grants[refresh].consumed
  }

  /** Minting for a request in flight and storing its refresh token. */
  lemma PairDoes(db: Db, thread: nat, token: string, refresh: string, now: int)
    requires thread in db.flights && db.flights[thread].stage == MintAccess
    requires refresh !in db.grants && token !in db.tokens
    ensures var b := Step(Step(db, Mint(thread, token, now)), Store(thread, refresh, now));
      && (forall v :: v in db.grants ==> v in b.grants && b.grants[v] == db.grants[v])
      && if db.flights[thread].rights.scopes == {"mcp:tools"}
         then PairIssued(b, db.flights[thread].rights, token, refresh, now)
         else token !in b.tokens && b.grants.Keys == db.grants.Keys
  {
    OneScope(db.flights[thread].rights.scopes);
  }

  /** A code buys its pair exactly if it is unused, unexpired and this client's and asks for the one scope there is. */
  lemma ExchangeDoes(db: Db, thread: nat, client: string, code: string, token: string, refresh: string, now: int)
    requires thread !in db.flights && refresh !in db.grants && token !in db.tokens && client != ""
    ensures var b := Exec(db, [BeginExchange(thread, code, client, now), Mint(thread, token, now), Store(thread, refresh, now)]);
      if !Good(db, CodeGrant, code, client, now) then b == db
      else
        && code in b.grants && b.grants[code] == db.grants[code].(consumed := true)
        && if db.grants[code].rights.scopes == {"mcp:tools"}
           then PairIssued(b, db.grants[code].rights, token, refresh, now)
           else token !in b.tokens && b.grants.Keys == db.grants.Keys
  {
    Three(db, BeginExchange(thread, code, client, now), Mint(thread, token, now), Store(thread, refresh, now));
    if Good(db, CodeGrant, code, client, now) {
      hide PairIssued;
      PairDoes(Step(db, BeginExchange(thread, code, client, now)), thread, token, refresh, now);
    }
  }

  lemma OneScope(scopes: set<string>)
    ensures scopes != {} && scopes <= {"mcp:tools"} <==> scopes == {"mcp:tools"}
  {
    if scopes != {} && scopes <= {"mcp:tools"} {
      var x :| x in scopes;
      assert x == "mcp:tools";
    }
  }

  /** A refresh token buys a new pair for scopes it holds; it is used up also when the scopes are refused. */
  lemma RefreshDoes(db: Db, thread: nat, client: string, value: string, scopes: set<string>, token: string,
                    refresh: string, now: int)
    requires thread !in db.flights && refresh !in db.grants && token !in db.tokens && client != ""
    ensures var b := Exec(db, [BeginRefresh(thread, value, client, scopes, now), Mint(thread, token, now),
                               Store(thread, refresh, now)]);
      if !Good(db, RefreshGrant, value, client, now) then b == db
      else
        && value in b.grants && b.grants[value] == db.grants[value].(consumed := true)
        && if scopes == {"mcp:tools"} && "mcp:tools" in db.grants[value].rights.scopes
           then PairIssued(b, db.grants[value].rights.(scopes := scopes), token, refresh, now)
           else token !in b.tokens && b.grants.Keys == db.grants.Keys
  {
    Three(db, BeginRefresh(thread, value, client, scopes, now), Mint(thread, token, now), Store(thread, refresh, now));
    if Good(db, RefreshGrant, value, client, now) && scopes <= db.grants[value].rights.scopes {
      hide PairIssued;
      PairDoes(Step(db, BeginRefresh(thread, value, client, scopes, now)), thread, token, refresh, now);
    }
  }

  /** Revoking an access token marks it once; revoking a refresh token uses it up if it is still good. */
  lemma RevokeDoes(db: Db, value: string, now: int)
    ensures Step(db, RevokeAccess(value, now)) ==
      if value in db.tokens && db.tokens[value].revokedAt == None
      then db.(tokens := db.tokens[value := db.tokens[value].(revokedAt := Some(now))]) else db
    ensures Step(db, RevokeRefresh(value, now)) ==
      if value in db.grants && db.grants[value].kind == RefreshGrant && !db.grants[value].consumed
         && db.grants[value].expiresAt > now
      then db.(grants := db.grants[value := db.grants[value].(consumed := true)]) else db
  {
  }

  /** Minting forgets exactly the tokens that expired or were revoked more than a day ago. */
  lemma MintForgets(db: Db, thread: nat, token: string, now: int, t: string)
    requires thread in db.flights && db.flights[thread].stage == MintAccess && db.flights[thread].rights.scopes == {"mcp:tools"}
    requires t in db.tokens && t != token
    ensures t in Step(db, Mint(thread, token, now)).tokens <==>
      && db.tokens[t].expiresAt >= now - 86_400
      && (db.tokens[t].revokedAt.Some? ==> db.tokens[t].revokedAt.value >= now - 86_400)
  {
    OneScope(db.flights[thread].rights.scopes);
  }

  /** The provider: tables changed in place, a request's rights held in local variables. */
  class Provider {
    var grants: map<string, Grant>
    var tokens: map<string, Access>
    ghost var flights: map<nat, Flight>
    ghost var approvals: map<string, Rights>
    ghost var drawn: set<string>

    ghost function View(): Db
      reads this
    {
      Db(grants, tokens, flights, approvals, drawn)
    }

    constructor ()
      ensures View() == EMPTY && Inv(View()) && Lineage(View())
    {
      grants, tokens, flights, approvals, drawn := map[], map[], map[], map[], {};
    }

    method Authorize(value: string, client: string, scopes: set<string>, now: int)
      modifies this
      ensures View() == Step(old(View()), Call.Authorize(value, client, scopes, now))
    {
      grants := grants[value := Grant(PendingGrant, Rights(client, "", "", scopes), value, None, now + PENDING_TTL, false)];
      drawn := drawn + {value};
    }

    method ConsumeGrant(kind: Kind, value: string, client: string, now: int) returns (row: Option<Grant>)
      modifies this`grants
      ensures row.Some? <==> Usable(old(View()), kind, value, client, now)
      ensures row.Some? ==> row.value == old(grants)[value] && grants == Consumed(old(View()), value)
      ensures row.None? ==> grants == old(grants)
    {
      if value !in grants || grants[value].kind != kind || grants[value].consumed
         || grants[value].expiresAt <= now || (client != "" && grants[value].rights.client != client) {
        return None;
      }
      row := Some(grants[value]);
      grants := grants[value := grants[value].(consumed := true)];
    }

    method Approve(thread: nat, value: string, profile: string, subject: string, code: string, now: int)
      returns (ok: bool)
      requires thread !in flights
      modifies this
      ensures ok <==> Usable(old(View()), PendingGrant, value, "", now)
      ensures View() == Exec(old(View()), [BeginApprove(thread, value, profile, subject, now), Store(thread, code, now)])
    {
      ghost var start := View();
      ghost var begin := BeginApprove(thread, value, profile, subject, now);
      var row := ConsumeGrant(PendingGrant, value, "", now);
      ok := row.Some?;
      if ok {
        var rights := row.value.rights.(profile := profile, subject := subject);
        approvals := approvals[row.value.root := rights];
        flights := flights[thread := Flight(PutCode, rights, row.value.root, value)];
        assert View() == Step(start, begin);
        PutGrant(thread, code, CodeGrant, rights, row.value.root, value, now + CODE_TTL);
      }
      Two(start, begin, Store(thread, code, now));
    }

    /** Store the successor of a consumed grant; the request is over. */
    method PutGrant(ghost thread: nat, value: string, kind: Kind, rights: Rights, root: string, source: string, expiresAt: int)
      requires thread in flights && flights[thread] == Flight(flights[thread].stage, rights, root, source)
      modifies this
      ensures View() == StoreGrant(old(View()), thread, value, kind, expiresAt)
    {
      grants := grants[value := Grant(kind, rights, root, Some(source), expiresAt, false)];
      flights := flights - {thread};
      drawn := drawn + {value};
    }

    /** Mint an access token and a refresh token for a request in flight. */
    method IssuePair(ghost thread: nat, rights: Rights, root: string, source: string, token: string, refresh: string, now: int)
      returns (ok: bool)
      requires thread in flights && flights[thread] == Flight(MintAccess, rights, root, source)
      modifies this
      ensures ok <==> Mintable(rights.scopes)
      ensures View() == Step(Step(old(View()), Mint(thread, token, now)), Store(thread, refresh, now))
    {
      ghost var start := View();
      ok := Mintable(rights.scopes);
      if ok {
        tokens := (map t | t in tokens && !Expired(tokens[t], now) :: tokens[t])
                  [token := Access(rights, root, source, now + ACCESS_TTL, None)];
        flights := flights[thread := flights[thread].(stage := PutRefresh)];
        drawn := drawn + {token};
        assert View() == Step(start, Mint(thread, token, now));
        PutGrant(thread, refresh, RefreshGrant, rights, root, source, now + REFRESH_TTL);
      } else {
        flights := flights - {thread};
      }
    }

    method ExchangeAuthorizationCode(thread: nat, client: string, code: string, token: string, refresh: string, now: int)
      returns (ok: bool)
      requires thread !in flights
      modifies this
      ensures ok <==> Usable(old(View()), CodeGrant, code, client, now) && Mintable(old(grants)[code].rights.scopes)
      ensures View() == Exec(old(View()), [BeginExchange(thread, code, client, now), Mint(thread, token, now),
                                           Store(thread, refresh, now)])
    {
      ghost var start := View();
      ghost var begin := BeginExchange(thread, code, client, now);
      var row := ConsumeGrant(CodeGrant, code, client, now);
      ok := false;
      if row.Some? {
        flights := flights[thread := Flight(MintAccess, row.value.rights, row.value.root, code)];
        assert View() == Step(start, begin);
        ok := IssuePair(thread, row.value.rights, row.value.root, code, token, refresh, now);
      }
      Three(start, begin, Mint(thread, token, now), Store(thread, refresh, now));
    }

    /** Rotation: the old refresh token is consumed even when the new scopes are refused. */
    method ExchangeRefreshToken(thread: nat, client: string, value: string, scopes: set<string>,
                                token: string, refresh: string, now: int)
      returns (ok: bool)
      requires thread !in flights
      modifies this
      ensures ok <==> && Usable(old(View()), RefreshGrant, value, client, now)
                      && scopes <= old(grants)[value].rights.scopes && Mintable(scopes)
      ensures View() == Exec(old(View()), [BeginRefresh(thread, value, client, scopes, now), Mint(thread, token, now),
                                           Store(thread, refresh, now)])
    {
      ghost var start := View();
      ghost var begin := BeginRefresh(thread, value, client, scopes, now);
      var row := ConsumeGrant(RefreshGrant, value, client, now);
      ok := false;
      if row.Some? && scopes <= row.value.rights.scopes {
        var rights := row.value.rights.(scopes := scopes);
        flights := flights[thread := Flight(MintAccess, rights, row.value.root, value)];
        assert View() == Step(start, begin);
        ok := IssuePair(thread, rights, row.value.root, value, token, refresh, now);
      }
      Three(start, begin, Mint(thread, token, now), Store(thread, refresh, now));
    }

    method RevokeToken(value: string, now: int)
      modifies this
      ensures View() == if value in old(tokens) && old(tokens)[value].revokedAt.None?
                        then Step(old(View()), RevokeAccess(value, now))
                        else Step(old(View()), RevokeRefresh(value, now))
    {
      if value in tokens && tokens[value].revokedAt.None? {
        tokens := tokens[value := tokens[value].(revokedAt := Some(now))];
      } else {
        var row := ConsumeGrant(RefreshGrant, value, "", now);
      }
    }
  }

  lemma Two(db: Db, a: Call, b: Call)
    ensures Exec(db, [a, b]) == Step(Step(db, a), b)
  {
    assert [a, b][1..] == [b] && [b][1..] == [];
    assert Exec(Step(db, a), [b]) == Exec(Step(Step(db, a), b), []);
  }

  lemma Three(db: Db, a: Call, b: Call, c: Call)
    ensures Exec(db, [a, b, c]) == Step(Step(Step(db, a), b), c)
  {
    assert [a, b, c][1..] == [b, c];
    Two(Step(db, a), b, c);
  }
}
