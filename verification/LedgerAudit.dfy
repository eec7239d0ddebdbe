/** The audit itself: successive loops that fill a set of findings, row lists and grouping dictionaries. */
module LedgerAudit {
  import opened Wrappers
  import opened Ledger

  function Bucket(groups: map<string, seq<Row>>, subject: string): seq<Row> {
    if subject in groups then groups[subject] else []
  }

  function Owners(owners: map<string, set<string>>, value: string): set<string> {
    if value in owners then owners[value] else {}
  }

  method ReadSubjects(rows: seq<Row>) returns (r: Option<seq<string>>)
    ensures r.Some? <==> forall row :: row in rows ==> HasSubject(row)
    ensures r.Some? ==> r.value == Subjects(rows)
  {
    var names := [];
    for i := 0 to |rows|
      invariant names == Subjects(rows[..i])
      invariant forall row :: row in rows[..i] ==> HasSubject(row)
    {
      if !HasSubject(rows[i]) {
        return None;
      }
      assert rows[..i + 1] == rows[..i] + [rows[i]];
      names := names + [Subject(rows[i])];
    }
    assert rows[..|rows|] == rows;
    return Some(names);
  }

  lemma DistinctLast(names: seq<string>)
    requires names != []
    ensures var n := |names| - 1; Distinct(names) <==> Distinct(names[..n]) && names[n] !in names[..n]
  {
    var n := |names| - 1;
    var init := names[..n];
    if Distinct(init) && names[n] !in init {
      forall i, j | 0 <= i < j < |names| ensures names[i] != names[j] {
        assert names[i] == init[i];
      }
    }
  }

  /** A duplicate shows as a set smaller than the list. */
  lemma {:induction false} NoRepeatIff(names: seq<string>)
    ensures |set x | x in names| <= |names|
    ensures |set x | x in names| == |names| <==> Distinct(names)
  {
    hide Distinct;
    if names == [] {
      assert Distinct(names) by {
        EmptyIsDistinct();
      }
    } else {
      var n := |names| - 1;
      NoRepeatIff(names[..n]);
      DistinctLast(names);
      assert (set x | x in names) == (set x | x in names[..n]) + {names[n]};
    }
  }

  lemma EmptyIsDistinct()
    ensures Distinct([])
  {
  }

  method ReadRoster(employees: seq<Row>) returns (roster: Option<map<string, Row>>)
    ensures roster.Some? <==>
      && employees != [] && (forall e :: e in employees ==> RosterRow(e))
      && Distinct(Subjects(employees)) && Distinct(Profiles(employees)) && Distinct(OpenIds(employees))
    ensures roster.Some? ==> roster.value.Keys == (set e | e in employees :: Subject(e))
    ensures roster.Some? ==> forall e :: e in employees ==> Subject(e) in roster.value && roster.value[Subject(e)] == e
  {
    var names := ReadSubjects(employees);
    if names.None? {
      return None;
    }
    var ids := names.value;
    NoRepeatIff(ids);
    NoRepeatIff(Profiles(employees));
    NoRepeatIff(OpenIds(employees));
    if ids == [] || |ids| != |set x | x in ids| {
      return None;
    }
    if exists e :: e in employees && (Strip(e.profile) == "" || !IsOpenId(e.openId)) {
      return None;
    }
    if |set x | x in Profiles(employees)| != |employees| || |set x | x in OpenIds(employees)| != |employees| {
      return None;
    }
    var found := FillRoster(employees, ids);
    return Some(found);
  }

  method FillRoster(employees: seq<Row>, ids: seq<string>) returns (roster: map<string, Row>)
    requires ids == Subjects(employees) && Distinct(ids)
    ensures roster.Keys == set e | e in employees :: Subject(e)
    ensures forall e :: e in employees ==> Subject(e) in roster && roster[Subject(e)] == e
  {
    hide Subject;
    roster := map[];
    for i := 0 to |ids|
      invariant roster.Keys == set e | e in employees[..i] :: Subject(e)
      invariant forall j :: 0 <= j < i ==> ids[j] in roster && roster[ids[j]] == employees[j]
    {
      assert employees[..i + 1] == employees[..i] + [employees[i]];
      roster := roster[ids[i] := employees[i]];
    }
    assert employees[..|ids|] == employees;
    forall e | e in employees ensures Subject(e) in roster && roster[Subject(e)] == e {
      var j :| 0 <= j < |employees| && employees[j] == e;
      assert ids[j] == Subject(e);
    }
  }

  /** Split one layer into its live rows and a finding for each of the others; refuse malformed rows. */
  method Classify(layer: Layer, rows: seq<Row>, now: int, findings: set<Finding>)
    returns (live: Option<seq<Row>>, more: set<Finding>)
    requires forall row :: row in rows ==> row.active.Some?
    ensures live.Some? <==> AllWellFormed(layer, rows)
    ensures live.Some? ==> live.value == LiveRows(layer, rows, now) && more == findings + Dead(layer, rows, now)
  {
    hide HasSubject;
    hide Subject;
    hide Live;
    hide LiveRows;
    hide Dead;
    more := findings;
    var kept := [];
    DeadNone(layer, now);
    for i := 0 to |rows|
      invariant AllWellFormed(layer, rows[..i])
      invariant kept == LiveRows(layer, rows[..i], now)
      invariant more == findings + Dead(layer, rows[..i], now)
    {
      var row := rows[i];
      if !HasSubject(row) || (layer.Keys? && row.expiresAt.None?) {
        assert row in rows && !WellFormed(layer, row);
        return None, more;
      }
      assert rows[..i + 1] == rows[..i] + [row];
      DeadAppend(layer, rows[..i], row, now);
      if Live(layer, row, now) {
        kept := kept + [row];
      } else {
        more := more + {Finding(NotLive(layer), Subject(row))};
      }
    }
    assert rows[..|rows|] == rows;
    return Some(kept), more;
  }

  lemma DeadNone(layer: Layer, now: int)
    ensures Dead(layer, [], now) == {} && LiveRows(layer, [], now) == []
  {
  }

  lemma DeadAppend(layer: Layer, rows: seq<Row>, row: Row, now: int)
    ensures Dead(layer, rows + [row], now)
      == Dead(layer, rows, now) + if Live(layer, row, now) then {} else {Finding(NotLive(layer), Subject(row))}
    ensures LiveRows(layer, rows + [row], now) == LiveRows(layer, rows, now) + if Live(layer, row, now) then [row] else []
  {
    hide Live;
    hide Subject;
    assert (rows + [row])[..|rows|] == rows;
  }

  method Group(rows: seq<Row>) returns (groups: map<string, seq<Row>>)
    ensures forall x :: Bucket(groups, x) == OfSubject(rows, x)
  {
    hide Subject;
    groups := map[];
    for i := 0 to |rows|
      invariant forall x :: Bucket(groups, x) == OfSubject(rows[..i], x)
    {
      var x := Subject(rows[i]);
      ghost var before := groups;
      groups := groups[x := Bucket(groups, x) + [rows[i]]];
      forall y ensures Bucket(groups, y) == OfSubject(rows[..i + 1], y) {
        assert rows[..i + 1][..i] == rows[..i];
        assert Bucket(before, y) == OfSubject(rows[..i], y);
      }
    }
    assert rows[..|rows|] == rows;
  }

  method Count(layer: Layer, rows: seq<Row>, subject: string, findings: set<Finding>) returns (more: set<Finding>)
    ensures more == findings + Counted(layer, subject, rows)
  {
    more := findings;
    if |rows| == 0 {
      more := more + {Finding(Missing(layer), subject)};
    } else if |rows| > 1 {
      more := more + {Finding(Duplicate(layer), subject)};
    }
  }

  method Compare(e: Row, rs: seq<Row>, xs: seq<Row>, ks: seq<Row>, findings: set<Finding>) returns (more: set<Finding>)
    requires forall a :: a in xs ==> a.account != ""
    ensures more == findings + Own(e, rs, xs, ks)
  {
    hide Subject;
    var subject := Subject(e);
    more := Count(Routes, rs, subject, findings);
    more := Count(Accounts, xs, subject, more);
    more := Count(Keys, ks, subject, more);
    ghost var counted := more;
    if |rs| == 1 && (rs[0].openId != e.openId || rs[0].profile != e.profile) {
      more := more + {Finding(RosterRouteMismatch, subject)};
    }
    if |xs| == 1 && |ks| == 1 {
      if xs[0].account == "" || xs[0].account != ks[0].account || xs[0].profile != ks[0].profile {
        more := more + {Finding(KeyAccountMismatch, subject)};
      }
      if |rs| == 1 {
        if rs[0].profile != xs[0].profile || rs[0].profile != ks[0].profile {
          more := more + {Finding(KeyAccountMismatch, subject)};
        }
      }
    }
    assert more == counted
      + (if RouteDiffers(e, rs) then {Finding(RosterRouteMismatch, subject)} else {})
      + (if KeyDiffers(rs, xs, ks) then {Finding(KeyAccountMismatch, subject)} else {});
  }

  /** The findings of the roster's subjects in `done`. */
  ghost function Described(
    roster: map<string, Row>, rs: map<string, seq<Row>>, xs: map<string, seq<Row>>, ks: map<string, seq<Row>>,
    done: set<string>): set<Finding>
  {
    set x, f | x in done && x in roster && f in Own(roster[x], Bucket(rs, x), Bucket(xs, x), Bucket(ks, x)) :: f
  }

  lemma DescribedStep(
    roster: map<string, Row>, rs: map<string, seq<Row>>, xs: map<string, seq<Row>>, ks: map<string, seq<Row>>,
    done: set<string>, x: string)
    requires x in roster
    ensures Described(roster, rs, xs, ks, done + {x})
      == Described(roster, rs, xs, ks, done) + Own(roster[x], Bucket(rs, x), Bucket(xs, x), Bucket(ks, x))
  {
    hide Own;
    hide Bucket;
  }

  /** The loop over the roster, in whatever order its subjects come. */
  method Reconcile(
    roster: map<string, Row>, rs: map<string, seq<Row>>, xs: map<string, seq<Row>>, ks: map<string, seq<Row>>,
    findings: set<Finding>) returns (more: set<Finding>)
    requires forall x, a :: a in Bucket(xs, x) ==> a.account != ""
    ensures more == findings + Described(roster, rs, xs, ks, roster.Keys)
  {
    hide Own;
    hide Bucket;
    more := findings;
    var todo := roster.Keys;
    assert Described(roster, rs, xs, ks, {}) == {};
    while todo != {}
      invariant todo <= roster.Keys
      invariant more == findings + Described(roster, rs, xs, ks, roster.Keys - todo)
      decreases |todo|
    {
      hide Described;
      var x :| x in todo;
      more := Compare(roster[x], Bucket(rs, x), Bucket(xs, x), Bucket(ks, x), more);
      DescribedStep(roster, rs, xs, ks, roster.Keys - todo, x);
      assert roster.Keys - (todo - {x}) == roster.Keys - todo + {x};
      todo := todo - {x};
    }
  }

  /** The subjects that hold one nonblank value. */
  ghost function Holders(rows: seq<Row>, field: Field, value: string): set<string> {
    set row | row in rows && Value(row, field) == value && value != "" :: Subject(row)
  }

  method CollectOwners(rows: seq<Row>, field: Field, findings: set<Finding>)
    returns (owners: map<string, set<string>>, more: set<Finding>)
    ensures forall v :: Owners(owners, v) == Holders(rows, field, v)
    ensures more == findings + Blanks(rows, field)
  {
    hide Value;
    hide Subject;
    owners, more := map[], findings;
    for i := 0 to |rows|
      invariant forall v :: Owners(owners, v) == Holders(rows[..i], field, v)
      invariant more == findings + Blanks(rows[..i], field)
    {
      var value := Value(rows[i], field);
      assert rows[..i + 1] == rows[..i] + [rows[i]];
      ghost var before := owners;
      if value == "" {
        more := more + {Finding(MissingField(field), Subject(rows[i]))};
      } else {
        owners := owners[value := Owners(owners, value) + {Subject(rows[i])}];
      }
      forall v ensures Owners(owners, v) == Holders(rows[..i + 1], field, v) {
        assert Owners(before, v) == Holders(rows[..i], field, v);
        HoldersAppend(rows[..i], rows[i], field, v);
      }
    }
    assert rows[..|rows|] == rows;
  }

  lemma HoldersAppend(rows: seq<Row>, row: Row, field: Field, v: string)
    ensures Holders(rows + [row], field, v)
      == Holders(rows, field, v) + if Value(row, field) == v && v != "" then {Subject(row)} else {}
  {
    hide Value;
    hide Subject;
  }

  method MarkShared(rows: seq<Row>, field: Field, findings: set<Finding>) returns (more: set<Finding>)
    ensures more == findings + FieldFindings(rows, field)
  {
    hide Value;
    hide Subject;
    hide Blanks;
    hide Holders;
    var owners;
    owners, more := CollectOwners(rows, field, findings);
    ghost var first := more;
    var todo := owners.Keys;
    while todo != {}
      invariant todo <= owners.Keys
      invariant more == first
        + set v, x | v in owners && v !in todo && |owners[v]| > 1 && x in owners[v] :: Finding(Shared(field), x)
      decreases |todo|
    {
      var v :| v in todo;
      if |owners[v]| > 1 {
        more := more + set x | x in owners[v] :: Finding(Shared(field), x);
      }
      todo := todo - {v};
    }
    OwnersAreShared(rows, field, owners);
  }

  lemma TwoMembers(s: set<string>, x: string)
    requires x in s
    ensures |s| > 1 <==> exists y :: y in s && y != x
  {
    var rest := s - {x};
    assert |rest| == |s| - 1;
    if |s| > 1 {
      assert rest != {};
      var y :| y in rest;
      assert y in s && y != x;
    }
  }

  lemma SharedRowIff(rows: seq<Row>, field: Field, row: Row)
    requires row in rows
    ensures SharedRow(rows, field, row) <==> |Holders(rows, field, Value(row, field))| > 1
  {
    hide Value;
    hide Subject;
    var v := Value(row, field);
    if v == "" {
      assert Holders(rows, field, v) == {};
    } else {
      assert Subject(row) in Holders(rows, field, v);
      TwoMembers(Holders(rows, field, v), Subject(row));
      if y :| y in Holders(rows, field, v) && y != Subject(row) {
        var other :| other in rows && Value(other, field) == v && Subject(other) == y;
      }
      if SharedRow(rows, field, row) {
        var other :| other in rows && Value(other, field) == v && Subject(other) != Subject(row);
        assert Subject(other) in Holders(rows, field, v);
      }
    }
  }

  /** The values with more than one owner name exactly the rows that share a value. */
  lemma OwnersAreShared(rows: seq<Row>, field: Field, owners: map<string, set<string>>)
    requires forall v :: Owners(owners, v) == Holders(rows, field, v)
    ensures (set v, x | v in owners && |owners[v]| > 1 && x in owners[v] :: Finding(Shared(field), x))
         == SharedBy(rows, field)
  {
    hide Value;
    hide Subject;
    hide SharedRow;
    var marked := set v, x | v in owners && |owners[v]| > 1 && x in owners[v] :: Finding(Shared(field), x);
    forall f | f in marked ensures f in SharedBy(rows, field) {
      var v, x :| v in owners && |owners[v]| > 1 && x in owners[v] && f == Finding(Shared(field), x);
      assert Owners(owners, v) == Holders(rows, field, v);
      var row :| row in rows && Value(row, field) == v && v != "" && Subject(row) == x;
      SharedRowIff(rows, field, row);
    }
    forall f | f in SharedBy(rows, field) ensures f in marked {
      var row :| row in rows && SharedRow(rows, field, row) && f == Finding(Shared(field), Subject(row));
      var v := Value(row, field);
      SharedRowIff(rows, field, row);
      HoldersNonblank(rows, field, v);
      assert Owners(owners, v) == Holders(rows, field, v);
      assert v in owners && Subject(row) in owners[v];
    }
  }

  lemma HoldersNonblank(rows: seq<Row>, field: Field, v: string)
    requires |Holders(rows, field, v)| > 0
    ensures v != ""
  {
    var x :| x in Holders(rows, field, v);
  }

  lemma DescribedIsReconciled(
    s: Snapshot, roster: map<string, Row>, rs: map<string, seq<Row>>, xs: map<string, seq<Row>>, ks: map<string, seq<Row>>)
    requires roster.Keys == s.Expected()
    requires forall e :: e in s.employees ==> Subject(e) in roster && roster[Subject(e)] == e
    requires forall x :: Bucket(rs, x) == s.Of(Routes, x)
    requires forall x :: Bucket(xs, x) == s.Of(Accounts, x)
    requires forall x :: Bucket(ks, x) == s.Of(Keys, x)
    ensures Described(roster, rs, xs, ks, roster.Keys) == Reconciled(s)
  {
    hide Own;
    hide Bucket;
    hide OfSubject;
    hide Subject;
    var described := Described(roster, rs, xs, ks, roster.Keys);
    forall f | f in described ensures f in Reconciled(s) {
      var x :| x in roster && f in Own(roster[x], Bucket(rs, x), Bucket(xs, x), Bucket(ks, x));
      var e :| e in s.employees && Subject(e) == x;
      assert f in OwnOf(s, e);
    }
    forall f | f in Reconciled(s) ensures f in described {
      var e :| e in s.employees && f in OwnOf(s, e);
      assert f in Own(roster[Subject(e)], Bucket(rs, Subject(e)), Bucket(xs, Subject(e)), Bucket(ks, Subject(e)));
    }
  }

  method ClassifyAll(s: Snapshot)
    returns (ok: bool, routes: seq<Row>, accounts: seq<Row>, keys: seq<Row>, findings: set<Finding>)
    ensures ok <==> AllWellFormed(Routes, s.routes) && AllWellFormed(Accounts, s.accounts) && AllWellFormed(Keys, s.keys)
    ensures ok ==> routes == s.Current(Routes) && accounts == s.Current(Accounts) && keys == s.Current(Keys)
    ensures ok ==> findings == AllDead(s)
  {
    hide LiveRows;
    hide Dead;
    hide HasSubject;
    ok, routes, accounts, keys, findings := false, [], [], [], {};
    if row :| row in s.routes + s.accounts + s.keys && row.active.None? {
      assert row in s.routes || row in s.accounts || row in s.keys;
      return;
    }
    forall row | row in s.routes || row in s.accounts || row in s.keys ensures row.active.Some? {
      assert row in s.routes + s.accounts + s.keys;
    }
    var live;
    live, findings := Classify(Routes, s.routes, s.now, findings);
    if live.None? {
      return;
    }
    routes := live.value;
    live, findings := Classify(Accounts, s.accounts, s.now, findings);
    if live.None? {
      return;
    }
    accounts := live.value;
    live, findings := Classify(Keys, s.keys, s.now, findings);
    if live.None? {
      return;
    }
    ok, keys := true, live.value;
  }

  method CountRows(s: Snapshot, layer: Layer, rows: seq<Row>, groups: map<string, seq<Row>>, expected: set<string>)
    returns (counts: Counts)
    requires rows == s.Current(layer) && expected == s.Expected()
    requires forall x :: Bucket(groups, x) == s.Of(layer, x)
    ensures counts == CountsOf(s, layer)
  {
    hide Bucket;
    hide OfSubject;
    hide LiveRows;
    var missing := set x | x in expected && |Bucket(groups, x)| == 0;
    var duplicate := set x | x in expected && |Bucket(groups, x)| > 1;
    assert missing == set x | x in s.Expected() && s.Of(layer, x) == [];
    assert duplicate == set x | x in s.Expected() && |s.Of(layer, x)| > 1;
    counts := Counts(|rows|, |missing|, |duplicate|);
  }

  lemma LiveAccountsNamed(s: Snapshot, x: string, row: Row)
    requires row in s.Of(Accounts, x)
    ensures row.account != ""
  {
    OfSubjectMembers(s.Current(Accounts), x);
    LiveMembers(Accounts, s.accounts, s.now);
  }

  method MarkAllShared(s: Snapshot, routes: seq<Row>, accounts: seq<Row>, keys: seq<Row>, findings: set<Finding>)
    returns (more: set<Finding>)
    requires routes == s.Current(Routes) && accounts == s.Current(Accounts) && keys == s.Current(Keys)
    ensures more == findings + AllFields(s)
  {
    hide FieldFindings;
    hide LiveRows;
    more := MarkShared(routes, Profile, findings);
    more := MarkShared(routes, OpenId, more);
    more := MarkShared(accounts, Account, more);
    more := MarkShared(keys, KeyId, more);
  }

  method Inspect(
    s: Snapshot, roster: map<string, Row>, routes: seq<Row>, accounts: seq<Row>, keys: seq<Row>, dead: set<Finding>)
    returns (report: Report)
    requires roster.Keys == s.Expected()
    requires forall e :: e in s.employees ==> Subject(e) in roster && roster[Subject(e)] == e
    requires routes == s.Current(Routes) && accounts == s.Current(Accounts) && keys == s.Current(Keys)
    requires dead == AllDead(s)
    ensures report == ReportOf(s)
  {
    hide LiveRows;
    hide OfSubject;
    hide AllDead;
    hide Reconciled;
    hide AllFields;
    hide Bucket;
    hide Described;
    hide CountsOf;
    hide Subject;
    var expected := roster.Keys;
    var rs := Group(routes);
    var xs := Group(accounts);
    var ks := Group(keys);
    forall x, a | a in Bucket(xs, x) ensures a.account != "" {
      LiveAccountsNamed(s, x, a);
    }
    var findings := Reconcile(roster, rs, xs, ks, dead);
    DescribedIsReconciled(s, roster, rs, xs, ks);
    findings := MarkAllShared(s, routes, accounts, keys, findings);
    var unexpected := (set row | row in s.routes + s.accounts + s.keys :: Subject(row)) - expected;
    findings := findings + set x | x in unexpected :: Finding(UnexpectedSubject, x);
    assert unexpected == Strangers(s);
    assert findings == Findings(s);
    var rc := CountRows(s, Routes, routes, rs, expected);
    var xc := CountRows(s, Accounts, accounts, xs, expected);
    var kc := CountRows(s, Keys, keys, ks, expected);
    var cross := set f | f in findings && Cross(f.kind);
    report := Report(findings == {}, |expected|, rc, xc, kc, |cross|, |unexpected|, findings);
  }

  /** `audit`: refuses malformed input, and otherwise reports exactly what the snapshots say. */
  method Audit(s: Snapshot) returns (r: Option<Report>)
    ensures r == Verdict(s)
  {
    hide Distinct;
    hide RosterRow;
    hide AllWellFormed;
    hide ReportOf;
    hide AllDead;
    hide LiveRows;
    if s.keyLength < 16 {
      return None;
    }
    var roster := ReadRoster(s.employees);
    if roster.None? {
      return None;
    }
    var ok, routes, accounts, keys, dead := ClassifyAll(s);
    if !ok {
      return None;
    }
    var report := Inspect(s, roster.value, routes, accounts, keys, dead);
    return Some(report);
  }
}
