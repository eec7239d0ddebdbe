/** What a PASS of the ledger audit means, and that the order of the rows never matters. */
module LedgerVerdict {
  import opened Ledger

  // ----- PASS means a clean book -----

  /** Every roster subject has exactly one row and no other subject has any. */
  ghost predicate OneToOne(s: Snapshot, layer: Layer) {
    multiset(Subjects(s.Rows(layer))) == multiset(Subjects(s.employees))
  }

  ghost predicate LayerLive(s: Snapshot, layer: Layer) {
    forall row :: row in s.Rows(layer) ==> Live(layer, row, s.now)
  }

  /** Where the four layers speak of the same employee they say the same. */
  ghost predicate Agree(s: Snapshot) {
    forall e, r, a, k ::
      (e in s.employees && r in s.routes && a in s.accounts && k in s.keys
       && Subject(r) == Subject(e) && Subject(a) == Subject(e) && Subject(k) == Subject(e))
      ==> r.openId == e.openId && r.profile == e.profile && a.profile == e.profile && k.profile == e.profile
          && a.account == k.account
  }

  ghost predicate Unshared(rows: seq<Row>, field: Field) {
    forall i, j :: 0 <= i < j < |rows| ==> Value(rows[i], field) != Value(rows[j], field)
  }

  ghost predicate Clean(s: Snapshot) {
    && LayerLive(s, Routes) && LayerLive(s, Accounts) && LayerLive(s, Keys)
    && OneToOne(s, Routes) && OneToOne(s, Accounts) && OneToOne(s, Keys)
    && Agree(s)
    && Unshared(s.routes, Profile) && Unshared(s.routes, OpenId)
    && Unshared(s.accounts, Account) && Unshared(s.keys, KeyId)
  }

  lemma DeadIff(s: Snapshot, layer: Layer)
    ensures Dead(layer, s.Rows(layer), s.now) == {} <==> LayerLive(s, layer)
  {
    if !LayerLive(s, layer) {
      var row :| row in s.Rows(layer) && !Live(layer, row, s.now);
      assert Finding(NotLive(layer), Subject(row)) in Dead(layer, s.Rows(layer), s.now);
    }
  }

  ghost predicate OneEach(s: Snapshot, layer: Layer) {
    forall e :: e in s.employees ==> |OfSubject(s.Rows(layer), Subject(e))| == 1
  }

  ghost predicate NoStranger(s: Snapshot, layer: Layer) {
    forall row :: row in s.Rows(layer) ==> Subject(row) in s.Expected()
  }

  lemma ExpectedIsSubjects(s: Snapshot, x: string)
    ensures x in s.Expected() <==> x in Subjects(s.employees)
  {
    if x in s.Expected() {
      var e :| e in s.employees && Subject(e) == x;
      var i :| 0 <= i < |s.employees| && s.employees[i] == e;
      assert Subjects(s.employees)[i] == x;
    }
    if x in Subjects(s.employees) {
      var i :| 0 <= i < |s.employees| && Subjects(s.employees)[i] == x;
      assert s.employees[i] in s.employees;
    }
  }

  lemma SubjectCounts(s: Snapshot, layer: Layer, x: string)
    requires Distinct(Subjects(s.employees))
    ensures multiset(Subjects(s.Rows(layer)))[x] == |OfSubject(s.Rows(layer), x)|
    ensures multiset(Subjects(s.employees))[x] == if x in s.Expected() then 1 else 0
  {
    hide Distinct;
    SubjectCount(s.Rows(layer), x);
    DistinctCount(Subjects(s.employees), x);
    ExpectedIsSubjects(s, x);
  }

  lemma OneToOneGives(s: Snapshot, layer: Layer)
    requires Distinct(Subjects(s.employees)) && OneToOne(s, layer)
    ensures OneEach(s, layer) && NoStranger(s, layer)
  {
    hide Distinct;
    hide OfSubject;
    hide Subjects;
    forall e | e in s.employees ensures |OfSubject(s.Rows(layer), Subject(e))| == 1 {
      SubjectCounts(s, layer, Subject(e));
    }
    forall row | row in s.Rows(layer) ensures Subject(row) in s.Expected() {
      SubjectCounts(s, layer, Subject(row));
      OfSubjectMembers(s.Rows(layer), Subject(row));
      assert row in OfSubject(s.Rows(layer), Subject(row));
    }
  }

  lemma OneToOneFrom(s: Snapshot, layer: Layer)
    requires Distinct(Subjects(s.employees)) && OneEach(s, layer) && NoStranger(s, layer)
    ensures OneToOne(s, layer)
  {
    hide Distinct;
    hide OfSubject;
    hide Subjects;
    var have, want := multiset(Subjects(s.Rows(layer))), multiset(Subjects(s.employees));
    forall x ensures have[x] == want[x] {
      SubjectCounts(s, layer, x);
      OfSubjectMembers(s.Rows(layer), x);
      if OfSubject(s.Rows(layer), x) != [] {
        assert OfSubject(s.Rows(layer), x)[0] in s.Rows(layer);
      }
    }
    assert have == want;
  }

  /** One row each and no stranger is the same as equal subject counts. */
  lemma OneToOneIff(s: Snapshot, layer: Layer)
    requires Distinct(Subjects(s.employees))
    ensures OneToOne(s, layer) <==> OneEach(s, layer) && NoStranger(s, layer)
  {
    hide Distinct;
    hide OneToOne;
    hide OneEach;
    hide NoStranger;
    if OneToOne(s, layer) {
      OneToOneGives(s, layer);
    }
    if OneEach(s, layer) && NoStranger(s, layer) {
      OneToOneFrom(s, layer);
    }
  }

  lemma StrangersIff(s: Snapshot)
    ensures Strangers(s) == {} <==> NoStranger(s, Routes) && NoStranger(s, Accounts) && NoStranger(s, Keys)
  {
    hide Subject;
    forall row | row in s.routes + s.accounts + s.keys ensures Subject(row) in Strangers(s) || Subject(row) in s.Expected() {
    }
  }

  lemma {:induction false} TwiceCounts<T>(s: seq<T>, i: nat, j: nat)
    requires i < j < |s| && s[i] == s[j]
    ensures multiset(s)[s[i]] >= 2
  {
    assert s == s[..j] + s[j..];
    assert s[i] == s[..j][i] && s[j] == s[j..][0];
    assert s[i] in multiset(s[..j]) && s[i] in multiset(s[j..]);
  }

  lemma SubjectsDistinct(s: Snapshot, layer: Layer)
    requires Distinct(Subjects(s.employees)) && OneToOne(s, layer)
    ensures Distinct(Subjects(s.Rows(layer)))
  {
    var names := Subjects(s.Rows(layer));
    forall i, j | 0 <= i < j < |names| ensures names[i] != names[j] {
      SubjectCounts(s, layer, names[i]);
      if names[i] == names[j] {
        TwiceCounts(names, i, j);
      }
    }
  }

  lemma SharedFound(rows: seq<Row>, field: Field, row: Row, other: Row)
    requires row in rows && other in rows && Subject(other) != Subject(row)
    requires Value(other, field) == Value(row, field) && Value(row, field) != ""
    ensures SharedBy(rows, field) != {}
  {
    hide Value;
    hide Subject;
    assert SharedRow(rows, field, row);
    assert Finding(Shared(field), Subject(row)) in SharedBy(rows, field);
  }

  lemma DistinctAt(names: seq<string>, i: nat, j: nat)
    requires Distinct(names) && i < j < |names|
    ensures names[i] != names[j]
  {
  }

  lemma SubjectsDiffer(rows: seq<Row>, i: nat, j: nat)
    requires Distinct(Subjects(rows)) && i < j < |rows|
    ensures Subject(rows[i]) != Subject(rows[j])
  {
    hide Subject;
    hide Distinct;
    hide Subjects;
    DistinctAt(Subjects(rows), i, j);
  }

  /** With one row a subject, no finding of sharing is the same as no two rows with one value. */
  lemma SharedIff(rows: seq<Row>, field: Field)
    requires Distinct(Subjects(rows)) && forall row :: row in rows ==> Value(row, field) != ""
    ensures FieldFindings(rows, field) == {} <==> Unshared(rows, field)
  {
    hide Value;
    hide Subject;
    hide Subjects;
    hide Distinct;
    hide SharedRow;
    assert Blanks(rows, field) == {};
    if !Unshared(rows, field) {
      var i, j :| 0 <= i < j < |rows| && Value(rows[i], field) == Value(rows[j], field);
      SubjectsDiffer(rows, i, j);
      SharedFound(rows, field, rows[i], rows[j]);
    } else {
      forall row | row in rows ensures !SharedRow(rows, field, row) {
        UnsharedRow(rows, field, row);
      }
    }
  }

  lemma UnsharedRow(rows: seq<Row>, field: Field, row: Row)
    requires row in rows && Unshared(rows, field)
    ensures !SharedRow(rows, field, row)
  {
    hide Value;
    hide Subject;
    var i :| 0 <= i < |rows| && rows[i] == row;
    forall other | other in rows && Value(other, field) == Value(row, field) ensures other == row {
      var j :| 0 <= j < |rows| && rows[j] == other;
      assert !(i < j) && !(j < i);
    }
  }

  lemma StripKeeps(s: string)
    requires s != "" && !Space(s[0])
    ensures Strip(s) != ""
  {
    var after := StripRightIsExact(s);
  }

  /** A live row has every field that is compared across subjects. */
  lemma LiveHasValue(layer: Layer, row: Row, now: int)
    requires Live(layer, row, now)
    ensures Value(row, Profile) != ""
    ensures layer.Routes? ==> Value(row, OpenId) != ""
    ensures layer.Accounts? ==> Value(row, Account) != ""
    ensures layer.Keys? ==> Value(row, KeyId) != ""
  {
    if layer.Routes? {
      StripKeeps(row.openId);
    }
  }

  ghost predicate AllLayersLive(s: Snapshot) {
    LayerLive(s, Routes) && LayerLive(s, Accounts) && LayerLive(s, Keys)
  }

  ghost predicate AllOneEach(s: Snapshot) {
    OneEach(s, Routes) && OneEach(s, Accounts) && OneEach(s, Keys)
  }

  lemma CurrentIsAll(s: Snapshot, layer: Layer)
    requires LayerLive(s, layer)
    ensures s.Current(layer) == s.Rows(layer)
  {
    AllLive(layer, s.Rows(layer), s.now);
  }

  /** Nothing to say of any employee exactly when each has one row a layer and the rows agree. */
  lemma ReconciledIff(s: Snapshot)
    requires AllLayersLive(s)
    ensures Reconciled(s) == {} <==> AllOneEach(s) && forall e :: e in s.employees ==> AgreesOn(s, e)
  {
    hide AgreesOn;
    hide LayerLive;
    hide OwnOf;
    hide OfSubject;
    forall e | e in s.employees
      ensures OwnOf(s, e) == {} <==> OneEachFor(s, e) && AgreesOn(s, e)
    {
      OwnIff(s, e);
    }
    if Reconciled(s) == {} {
      forall e | e in s.employees ensures OwnOf(s, e) == {} {
        if f :| f in OwnOf(s, e) {
          assert f in Reconciled(s);
        }
      }
      assert forall e :: e in s.employees ==> OneEachFor(s, e);
    }
    if AllOneEach(s) && forall e :: e in s.employees ==> AgreesOn(s, e) {
      assert forall e :: e in s.employees ==> OneEachFor(s, e);
    }
  }

  ghost predicate OneEachFor(s: Snapshot, e: Row) {
    && |OfSubject(s.routes, Subject(e))| == 1
    && |OfSubject(s.accounts, Subject(e))| == 1
    && |OfSubject(s.keys, Subject(e))| == 1
  }

  ghost predicate AgreesOn(s: Snapshot, e: Row) {
    forall r, a, k ::
      (r in s.routes && a in s.accounts && k in s.keys
       && Subject(r) == Subject(e) && Subject(a) == Subject(e) && Subject(k) == Subject(e))
      ==> r.openId == e.openId && r.profile == e.profile && a.profile == e.profile && k.profile == e.profile
          && a.account == k.account
  }

  lemma OwnIff(s: Snapshot, e: Row)
    requires AllLayersLive(s)
    ensures OwnOf(s, e) == {} <==> OneEachFor(s, e) && AgreesOn(s, e)
  {
    hide LayerLive;
    hide OfSubject;
    hide Subject;
    hide AgreesOn;
    CurrentIsAll(s, Routes);
    CurrentIsAll(s, Accounts);
    CurrentIsAll(s, Keys);
    OwnEmptyIff(e, OfSubject(s.routes, Subject(e)), OfSubject(s.accounts, Subject(e)), OfSubject(s.keys, Subject(e)));
    if OneEachFor(s, e) {
      AgreesOnIff(s, e);
    }
  }

  ghost predicate SameThroughout(e: Row, r: Row, a: Row, k: Row) {
    && r.openId == e.openId && r.profile == e.profile && a.profile == e.profile && k.profile == e.profile
    && a.account == k.account
  }

  lemma OwnEmptyIff(e: Row, routes: seq<Row>, accounts: seq<Row>, keys: seq<Row>)
    ensures Own(e, routes, accounts, keys) == {} <==>
      && |routes| == 1 && |accounts| == 1 && |keys| == 1
      && SameThroughout(e, routes[0], accounts[0], keys[0])
  {
    hide Subject;
    var own, x := Own(e, routes, accounts, keys), Subject(e);
    if RouteDiffers(e, routes) {
      assert Finding(RosterRouteMismatch, x) in own;
    } else if KeyDiffers(routes, accounts, keys) {
      assert Finding(KeyAccountMismatch, x) in own;
    } else {
      CountedEmptyIff(Routes, x, routes);
      CountedEmptyIff(Accounts, x, accounts);
      CountedEmptyIff(Keys, x, keys);
      assert own == Counted(Routes, x, routes) + Counted(Accounts, x, accounts) + Counted(Keys, x, keys);
    }
  }

  lemma CountedEmptyIff(layer: Layer, subject: string, rows: seq<Row>)
    ensures Counted(layer, subject, rows) == {} <==> |rows| == 1
  {
    if rows == [] {
      assert Finding(Missing(layer), subject) in Counted(layer, subject, rows);
    } else if |rows| > 1 {
      assert Finding(Duplicate(layer), subject) in Counted(layer, subject, rows);
    }
  }

  lemma AgreesOnIff(s: Snapshot, e: Row)
    requires OneEachFor(s, e)
    ensures AgreesOn(s, e) <==>
      SameThroughout(e, OfSubject(s.routes, Subject(e))[0], OfSubject(s.accounts, Subject(e))[0],
                     OfSubject(s.keys, Subject(e))[0])
  {
    hide OfSubject;
    hide Subject;
    var rs, xs, ks := OfSubject(s.routes, Subject(e)), OfSubject(s.accounts, Subject(e)), OfSubject(s.keys, Subject(e));
    OfSubjectMembers(s.routes, Subject(e));
    OfSubjectMembers(s.accounts, Subject(e));
    OfSubjectMembers(s.keys, Subject(e));
    assert rs[0] in rs && xs[0] in xs && ks[0] in ks;
    forall r | r in rs ensures r == rs[0] {}
    forall a | a in xs ensures a == xs[0] {}
    forall k | k in ks ensures k == ks[0] {}
  }

  lemma AgreeIff(s: Snapshot)
    ensures Agree(s) <==> forall e :: e in s.employees ==> AgreesOn(s, e)
  {
    hide Subject;
  }

  lemma FieldsIff(s: Snapshot)
    requires AllLayersLive(s) && Distinct(Subjects(s.employees))
    requires OneToOne(s, Routes) && OneToOne(s, Accounts) && OneToOne(s, Keys)
    ensures AllFields(s) == {} <==>
      && Unshared(s.routes, Profile) && Unshared(s.routes, OpenId)
      && Unshared(s.accounts, Account) && Unshared(s.keys, KeyId)
  {
    hide FieldFindings;
    hide Unshared;
    hide OneToOne;
    hide Distinct;
    FieldIff(s, Routes, Profile);
    FieldIff(s, Routes, OpenId);
    FieldIff(s, Accounts, Account);
    FieldIff(s, Keys, KeyId);
  }

  predicate Compared(layer: Layer, field: Field) {
    match layer
    case Routes => field.Profile? || field.OpenId?
    case Accounts => field.Account?
    case Keys => field.KeyId?
  }

  lemma FieldIff(s: Snapshot, layer: Layer, field: Field)
    requires LayerLive(s, layer) && Distinct(Subjects(s.employees)) && OneToOne(s, layer) && Compared(layer, field)
    ensures FieldFindings(s.Current(layer), field) == {} <==> Unshared(s.Rows(layer), field)
  {
    hide Value;
    hide OneToOne;
    hide Distinct;
    hide Live;
    CurrentIsAll(s, layer);
    SubjectsDistinct(s, layer);
    forall row | row in s.Rows(layer) ensures Value(row, field) != "" {
      LiveHasValue(layer, row, s.now);
    }
    SharedIff(s.Rows(layer), field);
  }

  /** Nothing is found exactly when the book is clean. */
  lemma NothingFoundIff(s: Snapshot)
    requires Accepts(s)
    ensures Findings(s) == {} <==> Clean(s)
  {
    hide Dead;
    hide Reconciled;
    hide AllFields;
    hide Strangers;
    hide LayerLive;
    hide OneToOne;
    hide OneEach;
    hide NoStranger;
    hide Agree;
    hide AgreesOn;
    hide Unshared;
    hide Distinct;
    DeadIff(s, Routes);
    DeadIff(s, Accounts);
    DeadIff(s, Keys);
    if AllLayersLive(s) {
      ReconciledIff(s);
      AgreeIff(s);
      StrangersIff(s);
      OneToOneIff(s, Routes);
      OneToOneIff(s, Accounts);
      OneToOneIff(s, Keys);
      if OneToOne(s, Routes) && OneToOne(s, Accounts) && OneToOne(s, Keys) {
        FieldsIff(s);
      }
    }
    NoneFound(s);
  }

  lemma NoneFound(s: Snapshot)
    ensures Findings(s) == {} <==> AllDead(s) == {} && Reconciled(s) == {} && AllFields(s) == {} && Strangers(s) == {}
  {
    hide AllDead;
    hide Reconciled;
    hide AllFields;
    hide Strangers;
    if x :| x in Strangers(s) {
      assert Finding(UnexpectedSubject, x) in Findings(s);
    }
  }

  lemma {:induction false} DistinctSize(names: seq<string>)
    requires Distinct(names)
    ensures |set x | x in names| == |names|
  {
    if names != [] {
      var n := |names| - 1;
      DistinctSize(names[..n]);
      assert (set x | x in names) == (set x | x in names[..n]) + {names[n]};
    }
  }

  lemma ExpectedSize(s: Snapshot)
    requires Distinct(Subjects(s.employees))
    ensures |s.Expected()| == |s.employees|
  {
    hide Distinct;
    DistinctSize(Subjects(s.employees));
    var names := set x | x in Subjects(s.employees);
    forall x ensures x in s.Expected() <==> x in names {
      ExpectedIsSubjects(s, x);
    }
    assert s.Expected() == names;
  }

  lemma OneToOneSize(s: Snapshot, layer: Layer)
    requires OneToOne(s, layer)
    ensures |s.Rows(layer)| == |s.employees|
  {
    assert |multiset(Subjects(s.Rows(layer)))| == |Subjects(s.Rows(layer))|;
    assert |multiset(Subjects(s.employees))| == |Subjects(s.employees)|;
  }

  lemma CleanCounts(s: Snapshot, layer: Layer)
    requires LayerLive(s, layer) && OneToOne(s, layer) && Distinct(Subjects(s.employees))
    ensures CountsOf(s, layer) == Counts(|s.employees|, 0, 0)
  {
    hide Distinct;
    hide OneToOne;
    hide LayerLive;
    hide OfSubject;
    CurrentIsAll(s, layer);
    OneToOneSize(s, layer);
    OneToOneGives(s, layer);
    forall x | x in s.Expected() ensures |s.Of(layer, x)| == 1 {
      var e :| e in s.employees && Subject(e) == x;
    }
    assert (set x | x in s.Expected() && s.Of(layer, x) == []) == {};
    assert (set x | x in s.Expected() && |s.Of(layer, x)| > 1) == {};
  }

  /** The audit passes exactly on a clean book, and then every layer counts the roster and nothing else is counted. */
  lemma PassIff(s: Snapshot)
    requires Accepts(s)
    ensures ReportOf(s).pass <==> Clean(s)
    ensures ReportOf(s).pass ==>
      var n := |s.employees|;
      ReportOf(s) == Report(true, n, Counts(n, 0, 0), Counts(n, 0, 0), Counts(n, 0, 0), 0, 0, {})
  {
    hide Findings;
    hide CountsOf;
    hide Distinct;
    hide OneToOne;
    hide LayerLive;
    hide Unshared;
    hide Agree;
    hide Strangers;
    NothingFoundIff(s);
    NoneFound(s);
    ExpectedSize(s);
    if Clean(s) {
      CleanCounts(s, Routes);
      CleanCounts(s, Accounts);
      CleanCounts(s, Keys);
      assert (set f | f in Findings(s) && Cross(f.kind)) == {};
    }
  }

  lemma NoBlanks(s: Snapshot, layer: Layer, field: Field)
    requires Compared(layer, field)
    ensures Blanks(s.Current(layer), field) == {}
  {
    hide Value;
    hide Live;
    LiveMembers(layer, s.Rows(layer), s.now);
    forall row | row in s.Current(layer) ensures Value(row, field) != "" {
      LiveHasValue(layer, row, s.now);
    }
  }

  lemma ReconciledKinds(s: Snapshot, f: Finding)
    requires f in Reconciled(s)
    ensures !f.kind.MissingField?
  {
    hide RouteDiffers;
    hide KeyDiffers;
    hide OfSubject;
    hide Subject;
    var e :| e in s.employees && f in OwnOf(s, e);
  }

  lemma FieldKinds(s: Snapshot, layer: Layer, field: Field, f: Finding)
    requires Compared(layer, field) && f in FieldFindings(s.Current(layer), field)
    ensures f.kind.Shared?
  {
    hide Blanks;
    hide SharedRow;
    NoBlanks(s, layer, field);
  }

  lemma DeadKinds(layer: Layer, rows: seq<Row>, now: int, f: Finding)
    requires f in Dead(layer, rows, now)
    ensures f.kind.NotLive?
  {
  }

  /** Live rows have every compared field, so a missing field is never reported. */
  lemma NoMissingField(s: Snapshot, f: Finding)
    requires f in Findings(s)
    ensures !f.kind.MissingField?
  {
    hide FieldFindings;
    hide Dead;
    hide Reconciled;
    hide Strangers;
    hide Compared;
    if f in Reconciled(s) {
      ReconciledKinds(s, f);
    } else if f in AllFields(s) {
      InFields(s, f);
    } else if layer: Layer :| f in Dead(layer, s.Rows(layer), s.now) {
      DeadKinds(layer, s.Rows(layer), s.now, f);
    }
  }

  lemma InFields(s: Snapshot, f: Finding)
    requires f in AllFields(s)
    ensures f.kind.Shared?
  {
    hide FieldFindings;
    if f in FieldFindings(s.Current(Routes), Profile) {
      FieldKinds(s, Routes, Profile, f);
    } else if f in FieldFindings(s.Current(Routes), OpenId) {
      FieldKinds(s, Routes, OpenId, f);
    } else if f in FieldFindings(s.Current(Accounts), Account) {
      FieldKinds(s, Accounts, Account, f);
    } else {
      FieldKinds(s, Keys, KeyId, f);
    }
  }

  // ----- the order of the rows -----

  ghost predicate Shuffled(a: seq<Row>, b: seq<Row>) {
    multiset(a) == multiset(b)
  }

  ghost predicate Reordered(s: Snapshot, t: Snapshot) {
    && Shuffled(s.employees, t.employees) && Shuffled(s.routes, t.routes)
    && Shuffled(s.accounts, t.accounts) && Shuffled(s.keys, t.keys)
    && s.keyLength == t.keyLength && s.now == t.now
  }

  lemma ShuffledMembers(a: seq<Row>, b: seq<Row>)
    requires Shuffled(a, b)
    ensures |a| == |b|
    ensures forall row :: row in a <==> row in b
  {
    assert |multiset(a)| == |multiset(b)|;
    forall row ensures row in a <==> row in b {
      assert row in a <==> row in multiset(a);
      assert row in b <==> row in multiset(b);
    }
  }

  lemma ShuffledLive(layer: Layer, a: seq<Row>, b: seq<Row>, now: int)
    requires Shuffled(a, b)
    ensures Shuffled(LiveRows(layer, a, now), LiveRows(layer, b, now))
  {
    var x, y := multiset(LiveRows(layer, a, now)), multiset(LiveRows(layer, b, now));
    forall row ensures x[row] == y[row] {
      LiveCounts(layer, a, now, row);
      LiveCounts(layer, b, now, row);
    }
    assert x == y;
  }

  lemma ShuffledOfSubject(a: seq<Row>, b: seq<Row>, subject: string)
    requires Shuffled(a, b)
    ensures Shuffled(OfSubject(a, subject), OfSubject(b, subject))
  {
    var x, y := multiset(OfSubject(a, subject)), multiset(OfSubject(b, subject));
    forall row ensures x[row] == y[row] {
      OfSubjectCounts(a, subject, row);
      OfSubjectCounts(b, subject, row);
    }
    assert x == y;
  }

  lemma ReorderedOf(s: Snapshot, t: Snapshot, layer: Layer, subject: string)
    requires Reordered(s, t)
    ensures Shuffled(s.Of(layer, subject), t.Of(layer, subject))
  {
    hide Shuffled;
    ShuffledLive(layer, s.Rows(layer), t.Rows(layer), s.now);
    ShuffledOfSubject(s.Current(layer), t.Current(layer), subject);
  }

  lemma ShuffledSingle(a: seq<Row>, b: seq<Row>)
    requires Shuffled(a, b) && |a| == 1
    ensures a == b
  {
    ShuffledMembers(a, b);
    assert a[0] in b;
  }

  /** As far as one employee's findings go, the rows are the same. */
  ghost predicate Alike(a: seq<Row>, b: seq<Row>) {
    |a| == |b| && (|a| == 1 ==> a == b)
  }

  lemma ShuffledAlike(a: seq<Row>, b: seq<Row>)
    requires Shuffled(a, b)
    ensures Alike(a, b)
  {
    ShuffledMembers(a, b);
    if |a| == 1 {
      ShuffledSingle(a, b);
    }
  }

  lemma OwnAlike(e: Row, rs: seq<Row>, xs: seq<Row>, ks: seq<Row>, rs': seq<Row>, xs': seq<Row>, ks': seq<Row>)
    requires Alike(rs, rs') && Alike(xs, xs') && Alike(ks, ks')
    ensures Own(e, rs, xs, ks) == Own(e, rs', xs', ks')
  {
    hide Subject;
    assert RouteDiffers(e, rs) == RouteDiffers(e, rs');
    assert KeyDiffers(rs, xs, ks) == KeyDiffers(rs', xs', ks');
  }

  lemma OwnSame(s: Snapshot, t: Snapshot, e: Row)
    requires Reordered(s, t)
    ensures OwnOf(s, e) == OwnOf(t, e)
  {
    hide Shuffled;
    hide Alike;
    hide Own;
    var x := Subject(e);
    forall layer: Layer ensures Alike(s.Of(layer, x), t.Of(layer, x)) {
      ReorderedOf(s, t, layer, x);
      ShuffledAlike(s.Of(layer, x), t.Of(layer, x));
    }
    OwnAlike(e, s.Of(Routes, x), s.Of(Accounts, x), s.Of(Keys, x), t.Of(Routes, x), t.Of(Accounts, x), t.Of(Keys, x));
  }

  lemma ExpectedSame(s: Snapshot, t: Snapshot)
    requires Shuffled(s.employees, t.employees)
    ensures s.Expected() == t.Expected()
  {
    ShuffledMembers(s.employees, t.employees);
  }

  lemma CountsSame(s: Snapshot, t: Snapshot, layer: Layer)
    requires Reordered(s, t)
    ensures CountsOf(s, layer) == CountsOf(t, layer)
  {
    hide Shuffled;
    hide OfSubject;
    ExpectedSame(s, t);
    ShuffledLive(layer, s.Rows(layer), t.Rows(layer), s.now);
    ShuffledMembers(s.Current(layer), t.Current(layer));
    forall x ensures |s.Of(layer, x)| == |t.Of(layer, x)| {
      ReorderedOf(s, t, layer, x);
      ShuffledMembers(s.Of(layer, x), t.Of(layer, x));
    }
    assert (set x | x in s.Expected() && s.Of(layer, x) == []) == (set x | x in t.Expected() && t.Of(layer, x) == []);
    assert (set x | x in s.Expected() && |s.Of(layer, x)| > 1) == (set x | x in t.Expected() && |t.Of(layer, x)| > 1);
  }

  lemma DeadSame(layer: Layer, a: seq<Row>, b: seq<Row>, now: int)
    requires Shuffled(a, b)
    ensures Dead(layer, a, now) == Dead(layer, b, now)
  {
    hide Live;
    hide Subject;
    ShuffledMembers(a, b);
  }

  lemma FieldSame(a: seq<Row>, b: seq<Row>, field: Field)
    requires Shuffled(a, b)
    ensures FieldFindings(a, field) == FieldFindings(b, field)
  {
    hide Value;
    hide Subject;
    ShuffledMembers(a, b);
    assert Blanks(a, field) == Blanks(b, field);
    forall row ensures SharedRow(a, field, row) <==> SharedRow(b, field, row) {}
    assert SharedBy(a, field) == SharedBy(b, field);
  }

  lemma ReconciledSame(s: Snapshot, t: Snapshot)
    requires Reordered(s, t)
    ensures Reconciled(s) == Reconciled(t)
  {
    hide OwnOf;
    ShuffledMembers(s.employees, t.employees);
    forall e ensures OwnOf(s, e) == OwnOf(t, e) {
      OwnSame(s, t, e);
    }
  }

  lemma StrangersSame(s: Snapshot, t: Snapshot)
    requires Reordered(s, t)
    ensures Strangers(s) == Strangers(t)
  {
    ExpectedSame(s, t);
    ShuffledMembers(s.routes, t.routes);
    ShuffledMembers(s.accounts, t.accounts);
    ShuffledMembers(s.keys, t.keys);
    forall row ensures row in s.routes + s.accounts + s.keys <==> row in t.routes + t.accounts + t.keys {}
  }

  lemma FieldsSame(s: Snapshot, t: Snapshot)
    requires Reordered(s, t)
    ensures AllFields(s) == AllFields(t)
  {
    hide Shuffled;
    hide FieldFindings;
    ShuffledLive(Routes, s.routes, t.routes, s.now);
    ShuffledLive(Accounts, s.accounts, t.accounts, s.now);
    ShuffledLive(Keys, s.keys, t.keys, s.now);
    FieldSame(s.Current(Routes), t.Current(Routes), Profile);
    FieldSame(s.Current(Routes), t.Current(Routes), OpenId);
    FieldSame(s.Current(Accounts), t.Current(Accounts), Account);
    FieldSame(s.Current(Keys), t.Current(Keys), KeyId);
  }

  lemma FindingsSame(s: Snapshot, t: Snapshot)
    requires Reordered(s, t)
    ensures Findings(s) == Findings(t)
  {
    hide Shuffled;
    hide Dead;
    hide Reconciled;
    hide AllFields;
    hide Strangers;
    DeadSame(Routes, s.routes, t.routes, s.now);
    DeadSame(Accounts, s.accounts, t.accounts, s.now);
    DeadSame(Keys, s.keys, t.keys, s.now);
    ReconciledSame(s, t);
    FieldsSame(s, t);
    StrangersSame(s, t);
  }

  // ----- distinctness does not depend on the order either -----

  datatype Name = ByEmployee | ByProfile | ByOpenId

  function Label(row: Row, name: Name): string {
    match name
    case ByEmployee => Subject(row)
    case ByProfile => row.profile
    case ByOpenId => row.openId
  }

  ghost predicate Labelled(rows: seq<Row>, name: Name, labels: seq<string>) {
    |labels| == |rows| && forall i :: 0 <= i < |rows| ==> labels[i] == Label(rows[i], name)
  }

  /** No row twice, and no two rows with one label. */
  ghost predicate Apart(rows: seq<Row>, name: Name) {
    && (forall row :: row in rows ==> multiset(rows)[row] == 1)
    && (forall a, b :: a in rows && b in rows && Label(a, name) == Label(b, name) ==> a == b)
  }

  lemma {:induction false} RowOnce(rows: seq<Row>, i: nat)
    requires i < |rows| && forall j, k :: 0 <= j < k < |rows| ==> rows[j] != rows[k]
    ensures multiset(rows)[rows[i]] == 1
  {
    assert rows == rows[..i] + [rows[i]] + rows[i + 1..];
    assert rows[i] !in rows[..i] && rows[i] !in rows[i + 1..];
    assert multiset(rows[..i])[rows[i]] == 0 && multiset(rows[i + 1..])[rows[i]] == 0;
  }

  lemma DistinctIff(rows: seq<Row>, name: Name, labels: seq<string>)
    requires Labelled(rows, name, labels)
    ensures Distinct(labels) <==> Apart(rows, name)
  {
    hide Label;
    if Distinct(labels) {
      DistinctApart(rows, name, labels);
    }
    if Apart(rows, name) {
      forall i, j | 0 <= i < j < |labels| ensures labels[i] != labels[j] {
        if labels[i] == labels[j] {
          assert rows[i] in rows && rows[j] in rows;
          TwiceCounts(rows, i, j);
        }
      }
    }
  }

  lemma DistinctApart(rows: seq<Row>, name: Name, labels: seq<string>)
    requires Labelled(rows, name, labels) && Distinct(labels)
    ensures Apart(rows, name)
  {
    hide Label;
    forall j, k | 0 <= j < k < |rows| ensures rows[j] != rows[k] {
      assert labels[j] != labels[k];
    }
    forall row | row in rows ensures multiset(rows)[row] == 1 {
      var i :| 0 <= i < |rows| && rows[i] == row;
      RowOnce(rows, i);
    }
    forall a, b | a in rows && b in rows && Label(a, name) == Label(b, name) ensures a == b {
      var i :| 0 <= i < |rows| && rows[i] == a;
      var j :| 0 <= j < |rows| && rows[j] == b;
      assert labels[i] == labels[j];
    }
  }

  lemma ApartSame(a: seq<Row>, b: seq<Row>, name: Name)
    requires Shuffled(a, b)
    ensures Apart(a, name) <==> Apart(b, name)
  {
    hide Label;
    ShuffledMembers(a, b);
  }

  lemma DistinctSame(a: seq<Row>, b: seq<Row>, name: Name, x: seq<string>, y: seq<string>)
    requires Shuffled(a, b) && Labelled(a, name, x) && Labelled(b, name, y)
    ensures Distinct(x) <==> Distinct(y)
  {
    hide *;
    DistinctIff(a, name, x);
    DistinctIff(b, name, y);
    ApartSame(a, b, name);
  }

  lemma AcceptsSame(s: Snapshot, t: Snapshot)
    requires Reordered(s, t)
    ensures Accepts(s) <==> Accepts(t)
  {
    hide Distinct;
    hide Shuffled;
    hide RosterRow;
    hide WellFormed;
    ShuffledMembers(s.employees, t.employees);
    ShuffledMembers(s.routes, t.routes);
    ShuffledMembers(s.accounts, t.accounts);
    ShuffledMembers(s.keys, t.keys);
    DistinctSame(s.employees, t.employees, ByEmployee, Subjects(s.employees), Subjects(t.employees));
    DistinctSame(s.employees, t.employees, ByProfile, Profiles(s.employees), Profiles(t.employees));
    DistinctSame(s.employees, t.employees, ByOpenId, OpenIds(s.employees), OpenIds(t.employees));
  }

  /** Reordering the rows of any layer changes neither the refusal nor any part of the report. */
  lemma OrderNeverMatters(s: Snapshot, t: Snapshot)
    requires Reordered(s, t)
    ensures Verdict(s) == Verdict(t)
  {
    hide Accepts;
    hide Findings;
    hide CountsOf;
    hide Shuffled;
    hide Strangers;
    AcceptsSame(s, t);
    FindingsSame(s, t);
    CountsSame(s, t, Routes);
    CountsSame(s, t, Accounts);
    CountsSame(s, t, Keys);
    StrangersSame(s, t);
    ExpectedSame(s, t);
  }
}
