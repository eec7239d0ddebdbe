/**
 Two processes on one vault row: the conditional writes of `mark_invalid` and of the
 `store_binding` rollback, under every interleaving with other writers.
 */
module BillingRaces {
  import opened Wrappers
  import opened Billing

  /** The pair a compare-and-set compares. */
  datatype Generation = Generation(version: int, keyId: string)

  function GenerationOf(p: Payload): Generation {
    Generation(p.version, p.keyId)
  }

  predicate Carries(row: Option<Payload>, g: Generation) {
    row.Some? && GenerationOf(row.value) == g
  }

  // ----- mark_invalid -----

  /** What the runtime metadata says about the credential that was answered with 401. */
  datatype Metadata = Metadata(employee: string, profile: string, account: Account, generation: Generation)

  predicate Matches(p: Payload, m: Metadata) {
    && p.complete && p.owner.employee == m.employee && p.owner.profile == m.profile
    && p.account == m.account && GenerationOf(p) == m.generation
  }

  /** Where `mark_invalid` stands between two atomic vault operations. */
  datatype Marker =
    | Begin
    | Holding(basis: Payload)
    | Missed(basis: Payload)
    | HoldingAgain(basis: Payload)
    | Done

  datatype Marking = Marking(row: Option<Payload>, marker: Marker)

  function Marked(p: Payload): Payload {
    p.(invalid := true)
  }

  /** One atomic operation of `mark_invalid`. */
  function MarkStep(m: Metadata, s: Marking): Marking {
    match s.marker
    case Begin =>
      if s.row.None? || !Matches(s.row.value, m) then s.(marker := Done)
      else s.(marker := Holding(s.row.value))
    case Holding(basis) =>
      if Carries(s.row, GenerationOf(basis)) then Marking(Some(Marked(basis)), Done)
      else s.(marker := Missed(basis))
    case Missed(basis) =>
      if s.row.None? || s.row.value.keyId != basis.keyId then s.(marker := Done)
      else s.(marker := HoldingAgain(s.row.value))
    case HoldingAgain(basis) =>
      if Carries(s.row, GenerationOf(basis)) then Marking(Some(Marked(basis)), Done)
      else s.(marker := Done)
    case Done => s
  }

  /** Either `mark_invalid` moves, or another process does anything to the row. */
  predicate MarkingNext(m: Metadata, s: Marking, t: Marking) {
    t == MarkStep(m, s) || t.marker == s.marker
  }

  ghost predicate MarkingRun(m: Metadata, run: seq<Marking>) {
    && run != [] && run[0].marker == Begin
    && forall i :: 0 <= i < |run| - 1 ==> MarkingNext(m, run[i], run[i + 1])
  }

  predicate HasBasis(k: Marker) {
    k.Holding? || k.Missed? || k.HoldingAgain?
  }

  lemma {:induction false} BasisHasTheKey(m: Metadata, run: seq<Marking>, i: nat)
    requires MarkingRun(m, run) && i < |run|
    ensures HasBasis(run[i].marker) ==> run[i].marker.basis.keyId == m.generation.keyId
    decreases i
  {
    if i > 0 {
      BasisHasTheKey(m, run, i - 1);
      assert MarkingNext(m, run[i - 1], run[i]);
    }
  }

  /**
   Under every interleaving, `mark_invalid` changes the row only while it carries the key the
   401 was about and the very generation the change was computed from, and keeps that generation.
   */
  lemma MarkTouchesOnlyItsKey(m: Metadata, run: seq<Marking>, i: nat)
    requires MarkingRun(m, run) && i < |run|
    requires MarkStep(m, run[i]).row != run[i].row
    ensures HasBasis(run[i].marker) && run[i].row.Some?
    ensures var basis, before := run[i].marker.basis, run[i].row.value;
      && before.keyId == m.generation.keyId && GenerationOf(before) == GenerationOf(basis)
      && MarkStep(m, run[i]).row == Some(Marked(basis))
  {
    BasisHasTheKey(m, run, i);
  }

  /** How far along the marker is; it only goes up, and only the last step writes. */
  function Stage(k: Marker): nat {
    match k case Begin => 0 case Holding(_) => 1 case Missed(_) => 2 case HoldingAgain(_) => 3 case Done => 4
  }

  lemma {:induction false} StageOnlyGrows(m: Metadata, run: seq<Marking>, i: nat, j: nat)
    requires MarkingRun(m, run) && i <= j < |run|
    ensures Stage(run[i].marker) <= Stage(run[j].marker)
    decreases j - i
  {
    if i < j {
      StageOnlyGrows(m, run, i, j - 1);
      assert MarkingNext(m, run[j - 1], run[j]);
    }
  }

  /** `mark_invalid` writes at most once in any run. */
  lemma MarksAtMostOnce(m: Metadata, run: seq<Marking>, i: nat, j: nat)
    requires MarkingRun(m, run) && i < j < |run|
    requires run[i + 1] == MarkStep(m, run[i]) && run[i + 1].row != run[i].row
    ensures MarkStep(m, run[j]).row == run[j].row
  {
    assert run[i + 1].marker == Done;
    StageOnlyGrows(m, run, i + 1, j);
  }

  /** What a marker holds is the row as one of its own loads found it, earlier in the run. */
  lemma {:induction false} BasisWasLoaded(m: Metadata, run: seq<Marking>, i: nat) returns (j: nat)
    requires MarkingRun(m, run) && i < |run| && (run[i].marker.Holding? || run[i].marker.HoldingAgain?)
    ensures j < i && run[j].row == Some(run[i].marker.basis)
    ensures run[j + 1] == MarkStep(m, run[j]) && run[j + 1].marker == run[i].marker
    ensures forall k :: j < k <= i ==> run[k].marker == run[i].marker
    decreases i
  {
    assert MarkingNext(m, run[i - 1], run[i]);
    if run[i - 1].marker == run[i].marker {
      j := BasisWasLoaded(m, run, i - 1);
    } else {
      j := i - 1;
    }
  }

  /**
   The comparison covers the generation only: within it, the copy loaded earlier is written back
   whole. In every interleaving, at the first attempt and at the retry, a write that takes place
   equals marking the row as it stands if and only if, apart from the mark, the row is what it was
   when that attempt loaded it, whatever was written in between.
   */
  lemma MarkIsFaithfulIff(m: Metadata, run: seq<Marking>, i: nat) returns (j: nat)
    requires MarkingRun(m, run) && i < |run| && (run[i].marker.Holding? || run[i].marker.HoldingAgain?)
    requires Carries(run[i].row, GenerationOf(run[i].marker.basis))
    ensures j < i && run[j].row.Some? && run[j + 1] == MarkStep(m, run[j]) && run[j + 1].marker == run[i].marker
    ensures MarkStep(m, run[i]).row == Some(Marked(run[j].row.value))
    ensures MarkStep(m, run[i]).row == Some(Marked(run[i].row.value))
        <==> Marked(run[i].row.value) == Marked(run[j].row.value)
  {
    j := BasisWasLoaded(m, run, i);
  }

  /**
   Undisturbed, a row that is complete and is the reported one in owner, account and generation gets
   the mark and keeps every other field; any other row is left alone.
   */
  lemma UndisturbedMark(m: Metadata, row: Option<Payload>)
    ensures var end := MarkStep(m, MarkStep(m, Marking(row, Begin)));
      if row.Some? && row.value.complete && row.value.owner.employee == m.employee && row.value.owner.profile == m.profile
         && row.value.account == m.account && row.value.version == m.generation.version
         && row.value.keyId == m.generation.keyId
      then end.row.Some? && end.row.value.invalid && end.row.value.(invalid := row.value.invalid) == row.value
      else end.row == row
  {
  }

  /**
   If the row was rewritten under the same key before the first attempt, the retry marks the row as
   it then stands; if the key is another, or the row is gone, nothing is touched.
   */
  lemma RetryMarks(m: Metadata, basis: Payload, row: Option<Payload>)
    requires row.None? || row.value.version != basis.version || row.value.keyId != basis.keyId
    ensures var end := MarkStep(m, MarkStep(m, MarkStep(m, Marking(row, Holding(basis)))));
      && end.marker == Done
      && if row.Some? && row.value.keyId == basis.keyId
         then end.row.Some? && end.row.value.invalid && end.row.value.(invalid := row.value.invalid) == row.value
         else end.row == row
  {
  }

  /** So an acknowledgement recorded in between is undone. */
  lemma MarkCanUndoAnAck(m: Metadata, p: Payload)
    requires Matches(p, m) && p.ackPending
    ensures var loaded := MarkStep(m, Marking(Some(p), Begin));
      var acked := loaded.(row := Some(p.(ackPending := false)));
      MarkStep(m, acked).row == Some(Marked(p))
  {
  }

  // ----- store_binding -----

  const MIN_LIFETIME_MS: int := 172_800_000

  datatype IssuedKey = IssuedKey(employee: string, email: string, apiKey: string, keyAlias: string,
                                 expiresAt: int, account: Account, verified: bool)

  function NextVersion(stored: Option<Payload>): (v: int)
    ensures v >= 1 && (stored.Some? ==> v > stored.value.version)
  {
    if stored.None? then 1 else (if stored.value.version > 0 then stored.value.version else 0) + 1
  }

  /** `check_account_drift`: the anchor is the verified account, never the team. */
  predicate Drifted(k: IssuedKey, stored: Option<Payload>) {
    && stored.Some? && k.verified && stored.value.verified
    && stored.value.account.user != "" && stored.value.account.user != k.account.user
  }

  function VaultPayload(payer: Owner, k: IssuedKey, version: int): Payload {
    Payload(version, k.keyAlias, k.apiKey, k.expiresAt, Owner(k.employee, payer.profile, k.email),
            k.account, true, true, k.verified, false, false, false, 0, 0, None)
  }

  /** What `adopt_employee_key` would store, or nothing if it refuses. */
  function Adopted(payer: Owner, k: IssuedKey, stored: Option<Payload>, now: int, probe: bool): Option<Payload> {
    if k.employee != payer.employee || k.email != payer.email || !k.verified
       || k.expiresAt - now < MIN_LIFETIME_MS || Drifted(k, stored) || payer.profile == "" || !probe
    then None
    else Some(VaultPayload(payer, k, NextVersion(stored)))
  }

  /** An adopted key is a new generation, out of its refresh window, on the same verified account. */
  lemma AdoptionIsSound(payer: Owner, k: IssuedKey, stored: Option<Payload>, now: int, probe: bool)
    ensures var a := Adopted(payer, k, stored, now, probe);
      a.Some? ==>
        && UsableAt(a.value, now + 86_400_000) && a.value.owner == payer && NestedOnce(a.value)
        && (stored.Some? ==> GenerationOf(a.value) != GenerationOf(stored.value))
        && (stored.Some? && stored.value.verified && stored.value.account.user != ""
            ==> a.value.account.user == stored.value.account.user)
  {
  }

  /** The payload is the issued key, for this payer: its secret, its alias, its lifetime and its account, nothing pending. */
  predicate IsKeyOf(p: Payload, k: IssuedKey, payer: Owner) {
    && p.apiKey == k.apiKey && p.keyId == k.keyAlias && p.expiresAt == k.expiresAt && p.account == k.account
    && p.verified == k.verified && p.employeeKey && p.complete
    && p.owner.employee == payer.employee && p.owner.profile == payer.profile && p.owner.email == payer.email
    && !p.invalid && !p.probePending && !p.ackPending && p.previous.None?
  }

  /**
   A key is adopted if and only if it was issued to this payer, is verified, lives two days at least,
   does not move a verified account, has a profile to go to and passes its probe; what is stored is
   that key, one version up.
   */
  lemma AdoptedIff(payer: Owner, k: IssuedKey, stored: Option<Payload>, now: int, probe: bool)
    ensures var a := Adopted(payer, k, stored, now, probe);
      && (a.Some? <==>
            && k.employee == payer.employee && k.email == payer.email && k.verified
            && k.expiresAt - now >= 172_800_000 && payer.profile != "" && probe
            && (stored.Some? && stored.value.verified && stored.value.account.user != ""
                ==> stored.value.account.user == k.account.user))
      && (a.Some? ==>
            && IsKeyOf(a.value, k, payer)
            && a.value.version == (if stored.Some? && stored.value.version > 0 then stored.value.version + 1 else 1))
  {
  }

  /** The rollback: undo only what carries the adopted generation. */
  function RolledBack(row: Option<Payload>, adopted: Payload, previous: Option<Payload>): Option<Payload> {
    if Carries(row, GenerationOf(adopted)) then previous else row
  }

  /** Where `store_binding` stands between two atomic vault operations. */
  datatype Binder =
    | Idle
    | Loaded(previous: Option<Payload>)
    | Writing(previous: Option<Payload>, adopted: Payload)
    | Written(previous: Option<Payload>, adopted: Payload)
    | Settled

  datatype BindingState = BindingState(row: Option<Payload>, binder: Binder)

  /** The answers `store_binding` gets from outside. */
  datatype Attempt = Attempt(payer: Owner, key: IssuedKey, now: int, probe: bool, identityWrites: bool)

  /** One atomic operation of `store_binding`; the rollback is the last. */
  function BindStep(x: Attempt, s: BindingState): BindingState {
    match s.binder
    case Idle => s.(binder := Loaded(s.row))
    case Loaded(previous) =>
      var a := Adopted(x.payer, x.key, s.row, x.now, x.probe);
      if a.None? then s.(binder := Settled) else s.(binder := Writing(previous, a.value))
    case Writing(previous, adopted) => BindingState(Some(adopted), Written(previous, adopted))
    case Written(previous, adopted) =>
      if x.identityWrites then s.(binder := Settled)
      else BindingState(RolledBack(s.row, adopted, previous), Settled)
    case Settled => s
  }

  /** Either `store_binding` moves, or another process does anything to the row. */
  predicate BindingNext(x: Attempt, s: BindingState, t: BindingState) {
    t == BindStep(x, s) || t.binder == s.binder
  }

  ghost predicate BindingRun(x: Attempt, run: seq<BindingState>) {
    && run != [] && run[0].binder == Idle
    && forall i :: 0 <= i < |run| - 1 ==> BindingNext(x, run[i], run[i + 1])
  }

  /** The binder's own write, earlier in the run. */
  predicate WroteAt(x: Attempt, run: seq<BindingState>, j: nat, adopted: Payload) {
    j + 1 < |run| && run[j].binder.Writing? && run[j].binder.adopted == adopted
    && run[j + 1] == BindStep(x, run[j]) && run[j + 1].row == Some(adopted)
  }

  lemma {:induction false} WrittenWasWritten(x: Attempt, run: seq<BindingState>, i: nat) returns (j: nat)
    requires BindingRun(x, run) && i < |run| && run[i].binder.Written?
    ensures j < i && WroteAt(x, run, j, run[i].binder.adopted)
    decreases i
  {
    assert BindingNext(x, run[i - 1], run[i]);
    if run[i - 1].binder.Written? {
      j := WrittenWasWritten(x, run, i - 1);
    } else {
      j := i - 1;
    }
  }

  /**
   Under every interleaving, the rollback changes the row only while it still carries the
   generation that this very `store_binding` wrote earlier in the run.
   */
  lemma RollbackUndoesOwnWrite(x: Attempt, run: seq<BindingState>, i: nat) returns (j: nat)
    requires BindingRun(x, run) && i < |run| && run[i].binder.Written?
    requires BindStep(x, run[i]).row != run[i].row
    ensures j < i && WroteAt(x, run, j, run[i].binder.adopted)
    ensures Carries(run[i].row, GenerationOf(run[i].binder.adopted)) && !x.identityWrites
    ensures BindStep(x, run[i]).row == run[i].binder.previous
  {
    j := WrittenWasWritten(x, run, i);
  }

  /** The binder's first read: what it would restore. */
  lemma {:induction false} PreviousWasRead(x: Attempt, run: seq<BindingState>, i: nat) returns (j: nat)
    requires BindingRun(x, run) && i < |run| && HasPrevious(run[i].binder)
    ensures j < i && run[j].binder == Idle && run[j].row == run[i].binder.previous
    decreases i
  {
    assert BindingNext(x, run[i - 1], run[i]);
    if HasPrevious(run[i - 1].binder) {
      j := PreviousWasRead(x, run, i - 1);
    } else {
      j := i - 1;
    }
  }

  predicate HasPrevious(b: Binder) {
    b.Loaded? || b.Writing? || b.Written?
  }

  /**
   In every interleaving, a rollback that takes place restores what the binder's own write had
   replaced if and only if that is what its first read found, whatever was written in between.
   */
  lemma RollbackRestoresIff(x: Attempt, run: seq<BindingState>, i: nat) returns (j: nat, k: nat)
    requires BindingRun(x, run) && i < |run| && run[i].binder.Written? && !x.identityWrites
    requires Carries(run[i].row, GenerationOf(run[i].binder.adopted))
    ensures j < k < i && run[j].binder == Idle && WroteAt(x, run, k, run[i].binder.adopted)
    ensures BindStep(x, run[i]).row == run[j].row
    ensures BindStep(x, run[i]).row == run[k].row <==> run[j].row == run[k].row
  {
    k := WrittenWasWritten(x, run, i);
    j := PreviousWasRead(x, run, i);
    IdleIsFirst(x, run, j, k);
  }

  /** Once it has read, the binder is never idle again. */
  lemma {:induction false} IdleIsFirst(x: Attempt, run: seq<BindingState>, j: nat, k: nat)
    requires BindingRun(x, run) && j < |run| && k < |run| && run[j].binder == Idle && run[k].binder != Idle
    ensures j < k
    decreases j
  {
    if j > 0 && k < j {
      assert BindingNext(x, run[j - 1], run[j]);
      IdleIsFirst(x, run, j - 1, k);
    }
  }

  /** The two stores of one payer, with no other writer. */
  class BindingStores {
    var vault: Option<Payload>
    var identity: Option<Payload>

    constructor (vault: Option<Payload>, identity: Option<Payload>)
      ensures this.vault == vault && this.identity == identity
    {
      this.vault, this.identity := vault, identity;
    }

    method Adopt(payer: Owner, k: IssuedKey, now: int, probe: bool) returns (binding: Option<Payload>)
      modifies this`vault
      ensures binding == Adopted(payer, k, old(vault), now, probe)
      ensures vault == if binding.Some? then binding else old(vault)
      ensures binding.Some? ==> IsKeyOf(vault.value, k, payer)
    {
      if k.employee != payer.employee || k.email != payer.email || !k.verified {
        return None;
      }
      if k.expiresAt - now < MIN_LIFETIME_MS {
        return None;
      }
      var stored := vault;
      if Drifted(k, stored) || payer.profile == "" || !probe {
        return None;
      }
      var payload := VaultPayload(payer, k, NextVersion(stored));
      vault := Some(payload);
      binding := vault;
    }

    /** Both stores take the new credential, or both stay exactly as they were. */
    method StoreBinding(payer: Owner, k: IssuedKey, now: int, probe: bool, identityWrites: bool)
      returns (binding: Option<Payload>)
      modifies this
      ensures binding.Some? ==> vault == binding && identity == binding
      ensures binding.None? ==> vault == old(vault) && identity == old(identity)
      ensures binding.Some? <==> identityWrites && Adopted(payer, k, old(vault), now, probe).Some?
      ensures binding.Some? ==> binding == Adopted(payer, k, old(vault), now, probe)
      ensures binding.Some? ==> vault.Some? && IsKeyOf(vault.value, k, payer) && identity == vault
    {
      var previous := vault;
      binding := Adopt(payer, k, now, probe);
      if binding.Some? {
        if identityWrites {
          identity := binding;
        } else {
          if Carries(vault, GenerationOf(binding.value)) {
            vault := previous;
          }
          binding := None;
        }
      }
    }
  }
}
