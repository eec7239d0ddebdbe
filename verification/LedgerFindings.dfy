/**
 Each finding of the audit, and each number of its report, said of the rows themselves: which
 subject is reported for what, in the fields of the rows.
 */
module LedgerFindings {
  import opened Wrappers
  import opened Ledger
  import opened LedgerVerdict

  // ----- live rows of a subject, by position -----

  /** A row that is live, spelt out a layer at a time. */
  predicate Works(layer: Layer, row: Row, now: int) {
    && row.active == Some(true) && Strip(row.profile) != ""
    && (layer == Routes ==> row.kind == "user" && row.provenance == "sync" && "ou_" <= row.openId)
    && (layer == Accounts ==> row.migrationState == "enforced" && Strip(row.account) != "")
    && (layer == Keys ==> row.expiresAt.Some? && now < row.expiresAt.value && Strip(row.account) != "" && Strip(row.keyId) != "")
  }

  /** The `i`-th row of the layer is live and names the subject. */
  predicate Hit(layer: Layer, rows: seq<Row>, now: int, subject: string, i: int) {
    0 <= i < |rows| && Works(layer, rows[i], now) && Subject(rows[i]) == subject
  }

  ghost predicate Without(layer: Layer, rows: seq<Row>, now: int, subject: string) {
    forall i :: !Hit(layer, rows, now, subject, i)
  }

  ghost predicate Several(layer: Layer, rows: seq<Row>, now: int, subject: string) {
    exists i, j :: i < j && Hit(layer, rows, now, subject, i) && Hit(layer, rows, now, subject, j)
  }

  /** `row` is the one live row of the subject. */
  ghost predicate Sole(layer: Layer, rows: seq<Row>, now: int, subject: string, row: Row) {
    exists i :: Hit(layer, rows, now, subject, i) && rows[i] == row
                && forall j :: Hit(layer, rows, now, subject, j) ==> j == i
  }

  lemma WorksIsLive(layer: Layer, row: Row, now: int)
    ensures Works(layer, row, now) <==> Live(layer, row, now)
  {
  }

  function Mine(layer: Layer, rows: seq<Row>, now: int, subject: string): seq<Row> {
    OfSubject(LiveRows(layer, rows, now), subject)
  }

  lemma MineLast(layer: Layer, rows: seq<Row>, now: int, subject: string)
    requires rows != []
    ensures var n := |rows| - 1;
      Mine(layer, rows, now, subject) == Mine(layer, rows[..n], now, subject)
        + if Hit(layer, rows, now, subject, n) then [rows[n]] else []
  {
    hide Subject;
    hide Live;
    hide Works;
    var n := |rows| - 1;
    WorksIsLive(layer, rows[n], now);
    var live := LiveRows(layer, rows[..n], now);
    if Live(layer, rows[n], now) {
      assert (live + [rows[n]])[..|live|] == live;
    } else {
      assert live + [] == live;
    }
  }

  /** The positions of the subject's live rows, in order. */
  function Places(layer: Layer, rows: seq<Row>, now: int, subject: string): seq<int> {
    if rows == [] then []
    else Places(layer, rows[..|rows| - 1], now, subject)
         + if Hit(layer, rows, now, subject, |rows| - 1) then [|rows| - 1] else []
  }

  lemma {:induction false} PlacesAre(layer: Layer, rows: seq<Row>, now: int, subject: string)
    ensures var ps, mine := Places(layer, rows, now, subject), Mine(layer, rows, now, subject);
      && |ps| == |mine|
      && (forall k :: 0 <= k < |ps| ==> Hit(layer, rows, now, subject, ps[k]) && rows[ps[k]] == mine[k])
      && (forall k, l :: 0 <= k < l < |ps| ==> ps[k] < ps[l])
      && (forall i :: Hit(layer, rows, now, subject, i) ==> i in ps)
  {
    hide Mine;
    hide Works;
    hide Subject;
    if rows == [] {
      assert Mine(layer, rows, now, subject) == [] by {
        NoRows(layer, now, subject);
      }
    } else {
      var n := |rows| - 1;
      PlacesAre(layer, rows[..n], now, subject);
      MineLast(layer, rows, now, subject);
    }
  }

  lemma NoRows(layer: Layer, now: int, subject: string)
    ensures Mine(layer, [], now, subject) == []
  {
  }

  /** No live row, one, or several: as many as the subject's group holds. */
  lemma MineCounts(layer: Layer, rows: seq<Row>, now: int, subject: string)
    ensures var mine := Mine(layer, rows, now, subject);
      && (mine == [] <==> Without(layer, rows, now, subject))
      && (|mine| > 1 <==> Several(layer, rows, now, subject))
      && (forall row :: Sole(layer, rows, now, subject, row) <==> mine == [row])
  {
    hide Mine;
    PlacesAre(layer, rows, now, subject);
    var ps, mine := Places(layer, rows, now, subject), Mine(layer, rows, now, subject);
    hide Places;
    hide Works;
    if |ps| > 1 {
      assert ps[0] < ps[1] && Hit(layer, rows, now, subject, ps[0]) && Hit(layer, rows, now, subject, ps[1]);
    }
    if |ps| == 1 {
      assert forall j :: Hit(layer, rows, now, subject, j) ==> j == ps[0];
      assert Sole(layer, rows, now, subject, mine[0]);
    }
    forall row | Sole(layer, rows, now, subject, row) ensures mine == [row] {
      var i :| Hit(layer, rows, now, subject, i) && rows[i] == row
               && forall j :: Hit(layer, rows, now, subject, j) ==> j == i;
      assert i in ps;
      assert forall k :: 0 <= k < |ps| ==> ps[k] == i;
      assert |ps| == 1;
    }
  }

  // ----- every kind of finding -----

  ghost predicate OnRoster(s: Snapshot, x: string) {
    exists e :: e in s.employees && Subject(e) == x
  }

  /** A live row of the layer that the field is compared in. */
  predicate LiveIn(s: Snapshot, field: Field, row: Row) {
    match field
    case Profile => row in s.routes && Works(Routes, row, s.now)
    case OpenId => row in s.routes && Works(Routes, row, s.now)
    case Account => row in s.accounts && Works(Accounts, row, s.now)
    case KeyId => row in s.keys && Works(Keys, row, s.now)
  }

  function ComparedIn(row: Row, field: Field): string {
    Strip(match field
          case Profile => row.profile
          case OpenId => row.openId
          case Account => row.account
          case KeyId => row.keyId)
  }

  /** What must be so of the rows for a subject to be reported under a kind. */
  ghost predicate Deserved(s: Snapshot, kind: Kind, x: string) {
    match kind
    case NotLive(layer) => exists row :: row in s.Rows(layer) && Subject(row) == x && !Works(layer, row, s.now)
    case Missing(layer) => OnRoster(s, x) && Without(layer, s.Rows(layer), s.now, x)
    case Duplicate(layer) => OnRoster(s, x) && Several(layer, s.Rows(layer), s.now, x)
    case RosterRouteMismatch =>
      exists e, r :: e in s.employees && Subject(e) == x && Sole(Routes, s.routes, s.now, x, r)
                     && (r.openId != e.openId || r.profile != e.profile)
    case KeyAccountMismatch =>
      OnRoster(s, x) &&
      exists a, k :: Sole(Accounts, s.accounts, s.now, x, a) && Sole(Keys, s.keys, s.now, x, k)
                     && (a.account != k.account || a.profile != k.profile
                         || exists r :: Sole(Routes, s.routes, s.now, x, r) && (r.profile != a.profile || r.profile != k.profile))
    case Shared(field) =>
      exists row, other :: LiveIn(s, field, row) && LiveIn(s, field, other) && Subject(row) == x && Subject(other) != x
                           && ComparedIn(row, field) == ComparedIn(other, field)
    case MissingField(_) => false
    case UnexpectedSubject =>
      !OnRoster(s, x) && exists row :: row in s.routes + s.accounts + s.keys && Subject(row) == x
  }

  lemma OfIsMine(s: Snapshot, layer: Layer, x: string)
    ensures s.Of(layer, x) == Mine(layer, s.Rows(layer), s.now, x)
  {
  }

  lemma DeadIffDeserved(s: Snapshot, layer: Layer, x: string)
    ensures Finding(NotLive(layer), x) in Dead(layer, s.Rows(layer), s.now) <==> Deserved(s, NotLive(layer), x)
  {
    hide Live;
    hide Works;
    hide Subject;
    forall row ensures Works(layer, row, s.now) <==> Live(layer, row, s.now) {
      WorksIsLive(layer, row, s.now);
    }
  }

  function OfLayer(layer: Layer, rs: seq<Row>, xs: seq<Row>, ks: seq<Row>): seq<Row> {
    match layer case Routes => rs case Accounts => xs case Keys => ks
  }

  /** What one employee's own rows give rise to, by kind. */
  lemma OwnIffKind(e: Row, rs: seq<Row>, xs: seq<Row>, ks: seq<Row>, kind: Kind, x: string)
    ensures Finding(kind, x) in Own(e, rs, xs, ks) <==>
      && x == Subject(e)
      && match kind
         case Missing(layer) => OfLayer(layer, rs, xs, ks) == []
         case Duplicate(layer) => |OfLayer(layer, rs, xs, ks)| > 1
         case RosterRouteMismatch => |rs| == 1 && (rs[0].openId != e.openId || rs[0].profile != e.profile)
         case KeyAccountMismatch =>
           && |xs| == 1 && |ks| == 1
           && (xs[0].account != ks[0].account || xs[0].profile != ks[0].profile
               || (|rs| == 1 && (rs[0].profile != xs[0].profile || rs[0].profile != ks[0].profile)))
         case _ => false
  {
    hide Subject;
  }

  lemma ReconciledKindIff(s: Snapshot, kind: Kind, x: string)
    ensures Finding(kind, x) in Reconciled(s) <==> exists e :: e in s.employees && Finding(kind, x) in OwnOf(s, e)
  {
    hide OwnOf;
  }

  lemma CountedIffDeserved(s: Snapshot, kind: Kind, x: string)
    requires kind.Missing? || kind.Duplicate?
    ensures Finding(kind, x) in Reconciled(s) <==> Deserved(s, kind, x)
  {
    hide Subject;
    hide Own;
    hide OfSubject;
    hide LiveRows;
    hide Without;
    hide Several;
    hide Sole;
    hide Mine;
    ReconciledKindIff(s, kind, x);
    forall e | e in s.employees
      ensures Finding(kind, x) in OwnOf(s, e) <==>
        x == Subject(e) && if kind.Missing? then s.Of(kind.layer, x) == [] else |s.Of(kind.layer, x)| > 1
    {
      OwnIffKind(e, s.Of(Routes, Subject(e)), s.Of(Accounts, Subject(e)), s.Of(Keys, Subject(e)), kind, x);
    }
    OfIsMine(s, kind.layer, x);
    MineCounts(kind.layer, s.Rows(kind.layer), s.now, x);
  }

  lemma RouteIffDeserved(s: Snapshot, x: string)
    ensures Finding(RosterRouteMismatch, x) in Reconciled(s) <==> Deserved(s, RosterRouteMismatch, x)
  {
    hide Subject;
    hide Own;
    hide OfSubject;
    hide LiveRows;
    hide Sole;
    hide Mine;
    var rs := s.Of(Routes, x);
    ReconciledKindIff(s, RosterRouteMismatch, x);
    OfIsMine(s, Routes, x);
    MineCounts(Routes, s.routes, s.now, x);
    forall e | e in s.employees
      ensures Finding(RosterRouteMismatch, x) in OwnOf(s, e) <==>
        x == Subject(e) && |rs| == 1 && (rs[0].openId != e.openId || rs[0].profile != e.profile)
    {
      OwnIffKind(e, s.Of(Routes, Subject(e)), s.Of(Accounts, Subject(e)), s.Of(Keys, Subject(e)), RosterRouteMismatch, x);
    }
    if |rs| == 1 {
      assert rs == [rs[0]];
      assert Sole(Routes, s.routes, s.now, x, rs[0]);
    }
  }

  /** The accounts and keys disagree, or the route with one of them. */
  ghost predicate Disagrees(s: Snapshot, x: string) {
    exists a, k :: Sole(Accounts, s.accounts, s.now, x, a) && Sole(Keys, s.keys, s.now, x, k)
                   && (a.account != k.account || a.profile != k.profile
                       || exists r :: Sole(Routes, s.routes, s.now, x, r) && (r.profile != a.profile || r.profile != k.profile))
  }

  /** The subject's rows of a layer are one row exactly if that is its sole live row. */
  lemma SoleIff(s: Snapshot, layer: Layer, x: string)
    ensures forall row :: Sole(layer, s.Rows(layer), s.now, x, row) <==> s.Of(layer, x) == [row]
  {
    hide Sole;
    hide Mine;
    OfIsMine(s, layer, x);
    MineCounts(layer, s.Rows(layer), s.now, x);
  }

  predicate Unequal(rs: seq<Row>, xs: seq<Row>, ks: seq<Row>) {
    && |xs| == 1 && |ks| == 1
    && (xs[0].account != ks[0].account || xs[0].profile != ks[0].profile
        || (|rs| == 1 && (rs[0].profile != xs[0].profile || rs[0].profile != ks[0].profile)))
  }

  lemma DisagreesIff(s: Snapshot, x: string)
    ensures Disagrees(s, x) <==> Unequal(s.Of(Routes, x), s.Of(Accounts, x), s.Of(Keys, x))
  {
    hide Sole;
    hide OfSubject;
    hide LiveRows;
    var rs, xs, ks := s.Of(Routes, x), s.Of(Accounts, x), s.Of(Keys, x);
    SoleIff(s, Routes, x);
    SoleIff(s, Accounts, x);
    SoleIff(s, Keys, x);
    if Unequal(rs, xs, ks) {
      assert xs == [xs[0]] && ks == [ks[0]];
      assert Sole(Accounts, s.accounts, s.now, x, xs[0]) && Sole(Keys, s.keys, s.now, x, ks[0]);
      if |rs| == 1 {
        assert rs == [rs[0]];
        assert Sole(Routes, s.routes, s.now, x, rs[0]);
      }
    }
    if Disagrees(s, x) {
      var a, k :| Sole(Accounts, s.accounts, s.now, x, a) && Sole(Keys, s.keys, s.now, x, k)
        && (a.account != k.account || a.profile != k.profile
            || exists r :: Sole(Routes, s.routes, s.now, x, r) && (r.profile != a.profile || r.profile != k.profile));
      assert xs == [a] && ks == [k];
    }
  }

  lemma KeyIffDeserved(s: Snapshot, x: string)
    ensures Finding(KeyAccountMismatch, x) in Reconciled(s) <==> Deserved(s, KeyAccountMismatch, x)
  {
    hide Subject;
    hide Own;
    hide OfSubject;
    hide LiveRows;
    hide Sole;
    ReconciledKindIff(s, KeyAccountMismatch, x);
    assert Deserved(s, KeyAccountMismatch, x) <==> OnRoster(s, x) && Disagrees(s, x);
    DisagreesIff(s, x);
    hide Disagrees;
    forall e | e in s.employees
      ensures Finding(KeyAccountMismatch, x) in OwnOf(s, e) <==> x == Subject(e) && Disagrees(s, x)
    {
      OwnIffKind(e, s.Of(Routes, Subject(e)), s.Of(Accounts, Subject(e)), s.Of(Keys, Subject(e)), KeyAccountMismatch, x);
    }
  }

  function LayerOf(field: Field): Layer {
    match field case Profile => Routes case OpenId => Routes case Account => Accounts case KeyId => Keys
  }

  lemma SharedIffDeserved(s: Snapshot, field: Field, x: string)
    ensures Finding(Shared(field), x) in SharedBy(s.Current(LayerOf(field)), field) <==> Deserved(s, Shared(field), x)
  {
    hide Subject;
    hide Strip;
    hide Works;
    hide Live;
    var layer, rows := LayerOf(field), s.Current(LayerOf(field));
    LiveMembers(layer, s.Rows(layer), s.now);
    forall row ensures row in rows <==> LiveIn(s, field, row) {
      WorksIsLive(layer, row, s.now);
    }
    forall row | LiveIn(s, field, row) ensures Value(row, field) != "" && Value(row, field) == ComparedIn(row, field) {
      WorksIsLive(layer, row, s.now);
      LiveHasValue(layer, row, s.now);
    }
  }

  lemma StrangerIffDeserved(s: Snapshot, x: string)
    ensures x in Strangers(s) <==> Deserved(s, UnexpectedSubject, x)
  {
    hide Subject;
  }

  lemma InFieldsIff(s: Snapshot, f: Finding)
    ensures f in AllFields(s) <==>
      f.kind.Shared? && f in SharedBy(s.Current(LayerOf(f.kind.field)), f.kind.field)
  {
    hide SharedRow;
    hide LiveRows;
    NoBlanks(s, Routes, Profile);
    NoBlanks(s, Routes, OpenId);
    NoBlanks(s, Accounts, Account);
    NoBlanks(s, Keys, KeyId);
    hide Blanks;
  }

  lemma KindsApart(s: Snapshot, f: Finding)
    ensures f in AllDead(s) <==> f.kind.NotLive? && f in Dead(f.kind.layer, s.Rows(f.kind.layer), s.now)
    ensures f in Reconciled(s) ==>
      f.kind.Missing? || f.kind.Duplicate? || f.kind.RosterRouteMismatch? || f.kind.KeyAccountMismatch?
  {
    hide Subject;
    hide Own;
    hide Live;
    ReconciledKindIff(s, f.kind, f.subject);
    if e :| e in s.employees && f in OwnOf(s, e) {
      OwnIffKind(e, s.Of(Routes, Subject(e)), s.Of(Accounts, Subject(e)), s.Of(Keys, Subject(e)), f.kind, f.subject);
    }
  }

  /** A subject is reported under a kind if and only if its rows deserve it. */
  lemma FindingIff(s: Snapshot, kind: Kind, x: string)
    ensures Finding(kind, x) in ReportOf(s).findings <==> Deserved(s, kind, x)
  {
    hide AllDead;
    hide Reconciled;
    hide AllFields;
    hide Strangers;
    hide CountsOf;
    hide Dead;
    hide SharedBy;
    hide Deserved;
    var f := Finding(kind, x);
    KindsApart(s, f);
    InFieldsIff(s, f);
    StrangerIffDeserved(s, x);
    match kind {
      case NotLive(layer) => DeadIffDeserved(s, layer, x);
      case Missing(_) => CountedIffDeserved(s, kind, x);
      case Duplicate(_) => CountedIffDeserved(s, kind, x);
      case RosterRouteMismatch => RouteIffDeserved(s, x);
      case KeyAccountMismatch => KeyIffDeserved(s, x);
      case Shared(field) => SharedIffDeserved(s, field, x);
      case MissingField(_) => NoneMissing(s, kind, x);
      case UnexpectedSubject =>
    }
  }

  lemma NoneMissing(s: Snapshot, kind: Kind, x: string)
    requires kind.MissingField?
    ensures !Deserved(s, kind, x)
  {
  }

  // ----- the numbers of the report -----

  lemma {:induction false} ImageSize(xs: set<string>, kind: Kind)
    ensures |set x | x in xs :: Finding(kind, x)| == |xs|
  {
    var image := set x | x in xs :: Finding(kind, x);
    if xs != {} {
      var x :| x in xs;
      var rest := xs - {x};
      ImageSize(rest, kind);
      assert image == (set y | y in rest :: Finding(kind, y)) + {Finding(kind, x)};
    }
  }

  ghost function Under(s: Snapshot, kind: Kind): set<Finding> {
    set f | f in ReportOf(s).findings && f.kind == kind
  }

  lemma NumberOf(s: Snapshot, kind: Kind, xs: set<string>)
    requires forall x :: x in xs <==> Deserved(s, kind, x)
    ensures |Under(s, kind)| == |xs|
  {
    hide Deserved;
    hide ReportOf;
    var image := set x | x in xs :: Finding(kind, x);
    forall f ensures f in Under(s, kind) <==> f in image {
      FindingIff(s, f.kind, f.subject);
      if f.kind == kind {
        FindingIff(s, kind, f.subject);
      }
    }
    assert Under(s, kind) == image;
    ImageSize(xs, kind);
  }

  /** The positions of the live rows. */
  ghost function LivePlaces(layer: Layer, rows: seq<Row>, now: int): set<int> {
    set i | 0 <= i < |rows| && Works(layer, rows[i], now)
  }

  lemma LivePlacesLast(layer: Layer, rows: seq<Row>, now: int)
    requires rows != []
    ensures var n := |rows| - 1;
      LivePlaces(layer, rows, now) == LivePlaces(layer, rows[..n], now) + if Works(layer, rows[n], now) then {n} else {}
  {
    hide Works;
  }

  lemma {:induction false} LiveNumber(layer: Layer, rows: seq<Row>, now: int)
    ensures |LiveRows(layer, rows, now)| == |LivePlaces(layer, rows, now)|
  {
    hide Works;
    hide Live;
    if rows != [] {
      var n := |rows| - 1;
      LiveNumber(layer, rows[..n], now);
      WorksIsLive(layer, rows[n], now);
      LivePlacesLast(layer, rows, now);
      assert n !in LivePlaces(layer, rows[..n], now);
    }
  }

  /** The numbers of a layer: its live rows, and as many missing and duplicate subjects as are reported. */
  lemma LayerNumbers(s: Snapshot, layer: Layer)
    ensures var c := CountsOf(s, layer);
      && c.live == |LivePlaces(layer, s.Rows(layer), s.now)|
      && c.missing == |Under(s, Missing(layer))| && c.duplicate == |Under(s, Duplicate(layer))|
  {
    hide Deserved;
    hide OfSubject;
    hide LiveRows;
    hide Under;
    hide LivePlaces;
    LiveNumber(layer, s.Rows(layer), s.now);
    MissingNumber(s, layer);
    NumberOf(s, Missing(layer), set x | x in s.Expected() && s.Of(layer, x) == []);
    NumberOf(s, Duplicate(layer), set x | x in s.Expected() && |s.Of(layer, x)| > 1);
  }

  /** The other numbers: the unexpected subjects, the findings across identities, and the roster. */
  lemma ReportNumbers(s: Snapshot)
    ensures var r := ReportOf(s);
      && r.unexpected == |Under(s, UnexpectedSubject)|
      && r.cross == |set f | f in r.findings
           && (f.kind.RosterRouteMismatch? || f.kind.KeyAccountMismatch? || f.kind.Shared?)|
      && (r.pass <==> r.findings == {})
      && (Accepts(s) ==> r.employees == |s.employees|)
  {
    hide Deserved;
    hide Findings;
    hide CountsOf;
    hide Strangers;
    hide Distinct;
    forall x ensures x in Strangers(s) <==> Deserved(s, UnexpectedSubject, x) {
      StrangerIffDeserved(s, x);
    }
    NumberOf(s, UnexpectedSubject, Strangers(s));
    assert (set f | f in Findings(s) && Cross(f.kind))
        == set f | f in Findings(s) && (f.kind.RosterRouteMismatch? || f.kind.KeyAccountMismatch? || f.kind.Shared?);
    if Accepts(s) {
      ExpectedSize(s);
    }
  }

  lemma MissingNumber(s: Snapshot, layer: Layer)
    ensures forall x :: x in s.Expected() && s.Of(layer, x) == [] <==> Deserved(s, Missing(layer), x)
    ensures forall x :: x in s.Expected() && |s.Of(layer, x)| > 1 <==> Deserved(s, Duplicate(layer), x)
  {
    hide OfSubject;
    hide LiveRows;
    hide Without;
    hide Several;
    hide Sole;
    hide Mine;
    forall x
      ensures x in s.Expected() && s.Of(layer, x) == [] <==> Deserved(s, Missing(layer), x)
      ensures x in s.Expected() && |s.Of(layer, x)| > 1 <==> Deserved(s, Duplicate(layer), x)
    {
      OfIsMine(s, layer, x);
      MineCounts(layer, s.Rows(layer), s.now, x);
    }
  }

  // ----- what is refused -----

  /** One to 64 letters, digits, dots, underscores and hyphens, beginning with a letter or digit, and no open id. */
  predicate GoodId(id: string) {
    && 1 <= |id| <= 64 && !("ou_" <= id)
    && ('A' <= id[0] <= 'Z' || 'a' <= id[0] <= 'z' || '0' <= id[0] <= '9')
    && forall i :: 0 <= i < |id| ==>
         'A' <= id[i] <= 'Z' || 'a' <= id[i] <= 'z' || '0' <= id[i] <= '9' || id[i] == '.' || id[i] == '_' || id[i] == '-'
  }

  predicate Readable(layer: Layer, row: Row) {
    GoodId(Strip(row.employeeId)) && row.active.Some? && (layer == Keys ==> row.expiresAt.Some?)
  }

  /** Two positions of the roster that agree in subject, in profile or in open id. */
  ghost predicate Clash(es: seq<Row>) {
    exists i, j :: 0 <= i < j < |es|
      && (Subject(es[i]) == Subject(es[j]) || es[i].profile == es[j].profile || es[i].openId == es[j].openId)
  }

  /**
   The input is refused if and only if the fingerprint key is short, the roster is empty, holds a bad
   row or clashes with itself, or a row of another layer cannot be read.
   */
  lemma RefusedIff(s: Snapshot)
    ensures Verdict(s).None? <==>
      || s.keyLength < 16 || s.employees == [] || Clash(s.employees)
      || (exists e :: e in s.employees
            && (!GoodId(Strip(e.employeeId)) || Strip(e.profile) == "" || !("ou_" <= e.openId)))
      || (exists row :: row in s.routes && !Readable(Routes, row))
      || (exists row :: row in s.accounts && !Readable(Accounts, row))
      || (exists row :: row in s.keys && !Readable(Keys, row))
  {
    hide Strip;
    hide Subject;
    hide ReportOf;
    forall row ensures HasSubject(row) <==> GoodId(Strip(row.employeeId)) {}
    hide HasSubject;
    hide GoodId;
    ClashIff(s.employees);
  }

  lemma ClashIff(es: seq<Row>)
    ensures Clash(es) <==> !(Distinct(Subjects(es)) && Distinct(Profiles(es)) && Distinct(OpenIds(es)))
  {
    hide Subject;
    hide Subjects;
    hide Profiles;
    hide OpenIds;
  }
}
