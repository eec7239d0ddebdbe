/**
 * The reconciliation of four billing snapshots: roster, routes, accounts and keys.
 * Rows are dictionaries in the source; an absent or empty field is the empty string here.
 */
module Ledger {
  import opened Wrappers

  // ----- rows and subjects -----

  /** `active` and `expiresAt` are `None` where the source's value is not a bool, or no integer. */
  datatype Row = Row(
    employeeId: string, active: Option<bool>, kind: string, provenance: string, migrationState: string,
    profile: string, openId: string, account: string, keyId: string, expiresAt: Option<int>)

  /** The characters `str.strip` removes. */
  predicate Space(c: char) {
    var n := c as int;
    || 0x09 <= n <= 0x0d || 0x1c <= n <= 0x20 || n == 0x85 || n == 0xa0 || n == 0x1680
    || 0x2000 <= n <= 0x200a || n == 0x2028 || n == 0x2029 || n == 0x202f || n == 0x205f || n == 0x3000
  }

  function StripLeft(s: string): string {
    if s != "" && Space(s[0]) then StripLeft(s[1..]) else s
  }

  function StripRight(s: string): string {
    if s != "" && Space(s[|s| - 1]) then StripRight(s[..|s| - 1]) else s
  }

  function Strip(s: string): string {
    StripRight(StripLeft(s))
  }

  predicate AllSpace(s: string) {
    forall i :: 0 <= i < |s| ==> Space(s[i])
  }

  predicate Alnum(c: char) {
    'A' <= c <= 'Z' || 'a' <= c <= 'z' || '0' <= c <= '9'
  }

  predicate IdChar(c: char) {
    Alnum(c) || c == '.' || c == '_' || c == '-'
  }

  predicate IsOpenId(s: string) {
    "ou_" <= s
  }

  /** `_is_canonical_employee_id` */
  predicate Canonical(s: string) {
    1 <= |s| <= 64 && Alnum(s[0]) && (forall i :: 0 <= i < |s| ==> IdChar(s[i])) && !IsOpenId(s)
  }

  function Lower(c: char): (r: char)
    ensures Alnum(r) <==> Alnum(c)
    ensures IdChar(r) <==> IdChar(c)
    ensures !('A' <= r <= 'Z')
  {
    if 'A' <= c <= 'Z' then (c as int + 32) as char else c
  }

  /** Case folding on the ASCII identifiers that pass the shape test. */
  function Fold(s: string): (r: string)
    ensures |r| == |s| && forall i :: 0 <= i < |s| ==> r[i] == Lower(s[i])
  {
    if s == "" then "" else Fold(s[..|s| - 1]) + [Lower(s[|s| - 1])]
  }

  predicate HasSubject(row: Row) {
    Canonical(Strip(row.employeeId))
  }

  function Subject(row: Row): string {
    Fold(Strip(row.employeeId))
  }

  /** Stripping removes all surrounding whitespace and nothing else. */
  lemma StripIsExact(s: string) returns (before: string, after: string)
    ensures s == before + Strip(s) + after && AllSpace(before) && AllSpace(after)
    ensures Strip(s) != "" ==> !Space(Strip(s)[0]) && !Space(Strip(s)[|Strip(s)| - 1])
  {
    before := StripLeftIsExact(s);
    after := StripRightIsExact(StripLeft(s));
  }

  lemma {:induction false} StripLeftIsExact(s: string) returns (before: string)
    ensures s == before + StripLeft(s) && AllSpace(before)
    ensures StripLeft(s) != "" ==> !Space(StripLeft(s)[0])
  {
    before := "";
    if s != "" && Space(s[0]) {
      before := StripLeftIsExact(s[1..]);
      before := [s[0]] + before;
    }
  }

  lemma {:induction false} StripRightIsExact(s: string) returns (after: string)
    ensures s == StripRight(s) + after && AllSpace(after)
    ensures StripRight(s) != "" ==> !Space(StripRight(s)[|StripRight(s)| - 1])
  {
    after := "";
    if s != "" && Space(s[|s| - 1]) {
      after := StripRightIsExact(s[..|s| - 1]);
      after := after + [s[|s| - 1]];
    }
  }

  lemma {:induction false} StripRightNothing(s: string)
    requires s != "" ==> !Space(s[|s| - 1])
    ensures StripRight(s) == s
  {
  }

  /** A subject, read again as an id, is itself, and is refused exactly when folding made it an open id. */
  lemma RefoldIff(row: Row)
    requires HasSubject(row)
    ensures Strip(Subject(row)) == Subject(row) && Fold(Subject(row)) == Subject(row)
    ensures HasSubject(row.(employeeId := Subject(row))) <==> !IsOpenId(Subject(row))
  {
    var s := Subject(row);
    forall i | 0 <= i < |s| ensures !Space(s[i]) && Lower(s[i]) == s[i] {
      assert IdChar(Strip(row.employeeId)[i]);
    }
    assert StripLeft(s) == s;
    StripRightNothing(s);
    assert Fold(s) == s;
  }

  /** For instance `OU_1`: accepted at the first reading, refused at the second. */
  lemma RefoldedIdIsRefused(row: Row)
    requires row.employeeId == "OU_1"
    ensures HasSubject(row) && Subject(row) == "ou_1" && !HasSubject(row.(employeeId := Subject(row)))
  {
    var id := row.employeeId;
    assert StripLeft(id) == id;
    assert StripRight(id) == id;
    assert Fold(id) == "ou_1";
    RefoldIff(row);
  }

  // ----- layers and findings -----

  datatype Layer = Routes | Accounts | Keys
  datatype Field = Profile | OpenId | Account | KeyId
  datatype Kind =
    | NotLive(layer: Layer)
    | Missing(layer: Layer)
    | Duplicate(layer: Layer)
    | RosterRouteMismatch
    | KeyAccountMismatch
    | Shared(field: Field)
    | MissingField(field: Field)
    | UnexpectedSubject
  datatype Finding = Finding(kind: Kind, subject: string)

  predicate Cross(kind: Kind) {
    kind.RosterRouteMismatch? || kind.KeyAccountMismatch? || kind.Shared?
  }

  /** An active trusted route, an active enforced account, or an active unexpired key. */
  predicate Live(layer: Layer, row: Row, now: int) {
    && row.active == Some(true) && Strip(row.profile) != ""
    && match layer
       case Routes => row.kind == "user" && row.provenance == "sync" && IsOpenId(row.openId)
       case Accounts => row.migrationState == "enforced" && Strip(row.account) != ""
       case Keys => row.expiresAt.Some? && row.expiresAt.value > now && Strip(row.account) != "" && Strip(row.keyId) != ""
  }

  predicate WellFormed(layer: Layer, row: Row) {
    HasSubject(row) && row.active.Some? && (layer.Keys? ==> row.expiresAt.Some?)
  }

  function Value(row: Row, field: Field): string {
    Strip(match field
          case Profile => row.profile
          case OpenId => row.openId
          case Account => row.account
          case KeyId => row.keyId)
  }

  datatype Snapshot = Snapshot(
    employees: seq<Row>, routes: seq<Row>, accounts: seq<Row>, keys: seq<Row>, keyLength: nat, now: int)
  {
    function Rows(layer: Layer): seq<Row> {
      match layer
      case Routes => routes
      case Accounts => accounts
      case Keys => keys
    }

    function Current(layer: Layer): seq<Row> {
      LiveRows(layer, Rows(layer), now)
    }

    /** The live rows of one layer that name one subject. */
    function Of(layer: Layer, subject: string): seq<Row> {
      OfSubject(Current(layer), subject)
    }

    function Expected(): set<string> {
      set e | e in employees :: Subject(e)
    }
  }

  function LiveRows(layer: Layer, rows: seq<Row>, now: int): seq<Row> {
    if rows == [] then []
    else LiveRows(layer, rows[..|rows| - 1], now)
         + (if Live(layer, rows[|rows| - 1], now) then [rows[|rows| - 1]] else [])
  }

  function OfSubject(rows: seq<Row>, subject: string): seq<Row> {
    if rows == [] then []
    else OfSubject(rows[..|rows| - 1], subject)
         + (if Subject(rows[|rows| - 1]) == subject then [rows[|rows| - 1]] else [])
  }

  function Subjects(rows: seq<Row>): (r: seq<string>)
    ensures |r| == |rows| && forall i :: 0 <= i < |rows| ==> r[i] == Subject(rows[i])
  {
    if rows == [] then [] else Subjects(rows[..|rows| - 1]) + [Subject(rows[|rows| - 1])]
  }

  predicate Distinct(s: seq<string>) {
    forall i, j :: 0 <= i < j < |s| ==> s[i] != s[j]
  }

  // ----- what the audit refuses to read -----

  predicate RosterRow(row: Row) {
    HasSubject(row) && Strip(row.profile) != "" && IsOpenId(row.openId)
  }

  function Profiles(rows: seq<Row>): (r: seq<string>)
    ensures |r| == |rows| && forall i :: 0 <= i < |rows| ==> r[i] == rows[i].profile
  {
    seq(|rows|, i requires 0 <= i < |rows| => rows[i].profile)
  }

  function OpenIds(rows: seq<Row>): (r: seq<string>)
    ensures |r| == |rows| && forall i :: 0 <= i < |rows| ==> r[i] == rows[i].openId
  {
    seq(|rows|, i requires 0 <= i < |rows| => rows[i].openId)
  }

  ghost predicate AllWellFormed(layer: Layer, rows: seq<Row>) {
    forall row :: row in rows ==> WellFormed(layer, row)
  }

  ghost predicate Accepts(s: Snapshot) {
    && s.keyLength >= 16 && s.employees != []
    && (forall e :: e in s.employees ==> RosterRow(e))
    && Distinct(Subjects(s.employees)) && Distinct(Profiles(s.employees)) && Distinct(OpenIds(s.employees))
    && AllWellFormed(Routes, s.routes) && AllWellFormed(Accounts, s.accounts) && AllWellFormed(Keys, s.keys)
  }

  // ----- what it reports -----

  ghost function Dead(layer: Layer, rows: seq<Row>, now: int): set<Finding> {
    set row | row in rows && !Live(layer, row, now) :: Finding(NotLive(layer), Subject(row))
  }

  function Counted(layer: Layer, subject: string, rows: seq<Row>): set<Finding> {
    if rows == [] then {Finding(Missing(layer), subject)}
    else if |rows| > 1 then {Finding(Duplicate(layer), subject)}
    else {}
  }

  predicate RouteDiffers(e: Row, routes: seq<Row>) {
    |routes| == 1 && (routes[0].openId != e.openId || routes[0].profile != e.profile)
  }

  predicate KeyDiffers(routes: seq<Row>, accounts: seq<Row>, keys: seq<Row>) {
    && |accounts| == 1 && |keys| == 1
    && (|| accounts[0].account != keys[0].account || accounts[0].profile != keys[0].profile
        || (|routes| == 1 && (routes[0].profile != accounts[0].profile || routes[0].profile != keys[0].profile)))
  }

  /** What one employee's own live rows give rise to. */
  function Own(e: Row, routes: seq<Row>, accounts: seq<Row>, keys: seq<Row>): set<Finding> {
    var subject := Subject(e);
    Counted(Routes, subject, routes) + Counted(Accounts, subject, accounts) + Counted(Keys, subject, keys)
    + (if RouteDiffers(e, routes) then {Finding(RosterRouteMismatch, subject)} else {})
    + (if KeyDiffers(routes, accounts, keys) then {Finding(KeyAccountMismatch, subject)} else {})
  }

  ghost function OwnOf(s: Snapshot, e: Row): set<Finding> {
    Own(e, s.Of(Routes, Subject(e)), s.Of(Accounts, Subject(e)), s.Of(Keys, Subject(e)))
  }

  ghost function Reconciled(s: Snapshot): set<Finding> {
    set e, f | e in s.employees && f in OwnOf(s, e) :: f
  }

  ghost predicate SharedRow(rows: seq<Row>, field: Field, row: Row) {
    && Value(row, field) != ""
    && exists other :: other in rows && Value(other, field) == Value(row, field) && Subject(other) != Subject(row)
  }

  ghost function Blanks(rows: seq<Row>, field: Field): set<Finding> {
    set row | row in rows && Value(row, field) == "" :: Finding(MissingField(field), Subject(row))
  }

  ghost function SharedBy(rows: seq<Row>, field: Field): set<Finding> {
    set row | row in rows && SharedRow(rows, field, row) :: Finding(Shared(field), Subject(row))
  }

  ghost function FieldFindings(rows: seq<Row>, field: Field): set<Finding> {
    Blanks(rows, field) + SharedBy(rows, field)
  }

  ghost function Strangers(s: Snapshot): set<string> {
    (set row | row in s.routes + s.accounts + s.keys :: Subject(row)) - s.Expected()
  }

  ghost function AllDead(s: Snapshot): set<Finding> {
    Dead(Routes, s.routes, s.now) + Dead(Accounts, s.accounts, s.now) + Dead(Keys, s.keys, s.now)
  }

  ghost function AllFields(s: Snapshot): set<Finding> {
    FieldFindings(s.Current(Routes), Profile) + FieldFindings(s.Current(Routes), OpenId)
    + FieldFindings(s.Current(Accounts), Account) + FieldFindings(s.Current(Keys), KeyId)
  }

  ghost function Findings(s: Snapshot): set<Finding> {
    AllDead(s) + Reconciled(s) + AllFields(s) + (set x | x in Strangers(s) :: Finding(UnexpectedSubject, x))
  }

  datatype Counts = Counts(live: nat, missing: nat, duplicate: nat)
  datatype Report = Report(
    pass: bool, employees: nat, routes: Counts, accounts: Counts, keys: Counts,
    cross: nat, unexpected: nat, findings: set<Finding>)

  ghost function CountsOf(s: Snapshot, layer: Layer): Counts {
    Counts(|s.Current(layer)|,
           |set x | x in s.Expected() && s.Of(layer, x) == []|,
           |set x | x in s.Expected() && |s.Of(layer, x)| > 1|)
  }

  ghost function ReportOf(s: Snapshot): Report {
    var findings := Findings(s);
    Report(findings == {}, |s.Expected()|, CountsOf(s, Routes), CountsOf(s, Accounts), CountsOf(s, Keys),
           |set f | f in findings && Cross(f.kind)|, |Strangers(s)|, findings)
  }

  /** The verdict of a whole audit; `None` is the refusal of malformed input. */
  ghost function Verdict(s: Snapshot): Option<Report> {
    if Accepts(s) then Some(ReportOf(s)) else None
  }

  // ----- filtering, as multisets -----

  lemma {:induction false} LiveCounts(layer: Layer, rows: seq<Row>, now: int, row: Row)
    ensures multiset(LiveRows(layer, rows, now))[row] == if Live(layer, row, now) then multiset(rows)[row] else 0
  {
    if rows != [] {
      var n := |rows| - 1;
      assert rows == rows[..n] + [rows[n]];
      LiveCounts(layer, rows[..n], now, row);
    }
  }

  lemma {:induction false} OfSubjectCounts(rows: seq<Row>, subject: string, row: Row)
    ensures multiset(OfSubject(rows, subject))[row] == if Subject(row) == subject then multiset(rows)[row] else 0
  {
    if rows != [] {
      var n := |rows| - 1;
      assert rows == rows[..n] + [rows[n]];
      OfSubjectCounts(rows[..n], subject, row);
    }
  }

  lemma LiveMembers(layer: Layer, rows: seq<Row>, now: int)
    ensures forall row :: row in LiveRows(layer, rows, now) <==> row in rows && Live(layer, row, now)
  {
    forall row ensures row in LiveRows(layer, rows, now) <==> row in rows && Live(layer, row, now) {
      LiveCounts(layer, rows, now, row);
      assert row in LiveRows(layer, rows, now) <==> row in multiset(LiveRows(layer, rows, now));
      assert row in rows <==> row in multiset(rows);
    }
  }

  lemma OfSubjectMembers(rows: seq<Row>, subject: string)
    ensures forall row :: row in OfSubject(rows, subject) <==> row in rows && Subject(row) == subject
  {
    forall row ensures row in OfSubject(rows, subject) <==> row in rows && Subject(row) == subject {
      OfSubjectCounts(rows, subject, row);
      assert row in OfSubject(rows, subject) <==> row in multiset(OfSubject(rows, subject));
      assert row in rows <==> row in multiset(rows);
    }
  }

  lemma {:induction false} AllLive(layer: Layer, rows: seq<Row>, now: int)
    requires forall row :: row in rows ==> Live(layer, row, now)
    ensures LiveRows(layer, rows, now) == rows
  {
    hide Live;
    if rows != [] {
      AllLive(layer, rows[..|rows| - 1], now);
    }
  }

  /** A subject occurs among the subjects as often as it has rows. */
  lemma {:induction false} SubjectCount(rows: seq<Row>, subject: string)
    ensures multiset(Subjects(rows))[subject] == |OfSubject(rows, subject)|
  {
    if rows != [] {
      var n := |rows| - 1;
      assert Subjects(rows) == Subjects(rows[..n]) + [Subject(rows[n])];
      SubjectCount(rows[..n], subject);
    }
  }

  lemma {:induction false} DistinctCount(s: seq<string>, x: string)
    requires Distinct(s)
    ensures multiset(s)[x] == if x in s then 1 else 0
  {
    if s != [] {
      var n := |s| - 1;
      assert s == s[..n] + [s[n]];
      DistinctCount(s[..n], x);
    }
  }
}
