/**
 The life of one payer's stored credential: the ensure/ack protocol with the broker,
 as functions of everything the broker, the probe and the clock may answer.
 */
module Billing {
  import opened Wrappers

  const RENEW_WINDOW_MS: int := 2_592_000_000
  const ACK_RETRY_BACKOFF_MS: int := 300_000
  const RENEW_RETRY_BACKOFF_MS: int := 21_600_000

  datatype Owner = Owner(employee: string, profile: string, email: string)
  datatype Account = Account(user: string, team: string)

  /** The vault row. `complete` says that the contract version and every required field are there. */
  datatype Payload = Payload(
    version: int, keyId: string, apiKey: string, expiresAt: int,
    owner: Owner, account: Account, complete: bool,
    employeeKey: bool, verified: bool,
    invalid: bool, probePending: bool, ackPending: bool,
    ackRetryAfter: int, renewRetryAfter: int,
    previous: Option<Payload>)

  datatype Binding = Binding(profile: string, account: Account, enforced: bool)

  datatype GatewayError = GatewayError(status: int, code: string, retryable: bool)
  datatype Action = Unchanged | Issued | OtherAction
  datatype State = Active | Pending | OtherState

  /** `sound`: the shape checks on ids, aliases and api key pass and the other compared fields agree. */
  datatype Answer = Answer(action: Action, state: State, employee: string, email: string,
                           account: Account, keyId: string, version: int, expiresAt: int,
                           apiKey: string, sound: bool)
  datatype EnsureReply = EnsureFailed(error: GatewayError) | Ensured(answer: Answer)
  datatype AckReply = AckFailed(error: GatewayError) | Acked(employee: string, keyId: string, version: int, active: bool)

  /** Everything outside the process, by the number of the call. */
  datatype World = World(now: nat -> int, probe: nat -> bool, ensure: nat -> EnsureReply, ack: nat -> AckReply)

  datatype Reason = NoReason | Missing | Invalid401 | Renewal | OtherReason

  /** What an `ensure` call tells the broker: the reason, and which generation is in hand. */
  datatype Demand = Demand(reason: Reason, keyId: string, version: int)

  /** The row, every value it was given by a write, how often the outside was called and what it was asked. */
  datatype Run = Run(row: Option<Payload>, writes: seq<Option<Payload>>,
                     ticks: nat, probes: nat, ensures': nat, acks: nat, asked: seq<Demand>)

  datatype Outcome = Served(payload: Payload) | Unavailable | Rejected
  datatype Finish = Finished(payload: Payload, fallback: bool) | Gone | Decided(outcome: Outcome)

  datatype Ended<T> = Ended(run: Run, result: T)

  function Write(r: Run, row: Option<Payload>): Run {
    r.(row := row, writes := r.writes + [row])
  }

  function Tick(r: Run): Run {
    r.(ticks := r.ticks + 1)
  }

  function RejectionOf(e: GatewayError): Outcome {
    if e.code in {"identity_conflict", "account_topology_conflict"} then Rejected
    else if e.code in {"invalid_response", "invalid_json", "invalid_error_envelope",
                       "unsupported_contract_version"} then Rejected
    else if e.code == "broker_not_configured" then Rejected
    else if e.status in {502, 503, 504} then Unavailable
    else Rejected
  }

  predicate CredentialGone(e: GatewayError) {
    e.status == 410 && e.code == "credential_gone"
  }

  /** `_validate_local_payload` for a payer. */
  predicate Valid(p: Payload, payer: Owner, existing: Option<Binding>) {
    && p.complete && p.owner == payer
    && (existing.Some? && existing.value.enforced ==> p.account == existing.value.account)
  }

  /** `_validate_ensure_response` */
  predicate Acceptable(a: Answer, payer: Owner, existing: Option<Binding>, now: int) {
    && a.sound && a.employee == payer.employee && a.email == payer.email
    && a.version > 0 && a.expiresAt > now
    && (existing.Some? ==>
          && (existing.value.profile == "" || existing.value.profile == payer.profile)
          && (existing.value.account.user == "" || existing.value.account.user == a.account.user)
          && (existing.value.account.team == "" || existing.value.account.team == a.account.team))
  }

  // ----- finishing a pending generation -----

  /** The probe failed: fall back on the previous credential, or drop the row. */
  function ProbeFailed(w: World, payer: Owner, p: Payload, r: Run): Ended<Finish> {
    if p.previous.Some? && !p.previous.value.invalid && p.previous.value.expiresAt > w.now(r.ticks) then
      if !Valid(p.previous.value, payer, None) then Ended(Tick(r), Decided(Rejected))
      else
        var kept := p.previous.value.(renewRetryAfter := w.now(r.ticks + 1) + RENEW_RETRY_BACKOFF_MS);
        Ended(Write(Tick(Tick(r)), Some(kept)), Finished(kept, true))
    else
      var r' := if p.previous.Some? && !p.previous.value.invalid then Tick(r) else r;
      Ended(Write(r', None), Decided(Rejected))
  }

  function Acknowledge(w: World, payer: Owner, p: Payload, r: Run): Ended<Finish> {
    var reply := w.ack(r.acks);
    var r1 := r.(acks := r.acks + 1);
    match reply
    case AckFailed(e) =>
      if CredentialGone(e) then Ended(Write(r1, None), Gone)
      else if e.retryable then
        var later := p.(ackRetryAfter := w.now(r1.ticks) + ACK_RETRY_BACKOFF_MS);
        Ended(Write(Tick(r1), Some(later)), Finished(later, false))
      else Ended(r1, Decided(RejectionOf(e)))
    case Acked(employee, keyId, version, active) =>
      if employee != payer.employee || keyId != p.keyId || version != p.version || !active then
        Ended(r1, Decided(Rejected))
      else
        var done := p.(ackPending := false, ackRetryAfter := 0);
        Ended(Write(r1, Some(done)), Finished(done, false))
  }

  function AckStage(w: World, payer: Owner, p: Payload, r: Run): Ended<Finish> {
    if !p.ackPending then Ended(r, Finished(p, false))
    else if p.ackRetryAfter > w.now(r.ticks) then Ended(Tick(r), Finished(p, false))
    else Acknowledge(w, payer, p, Tick(r))
  }

  /** `_finish_pending` */
  function FinishPending(w: World, payer: Owner, p: Payload, r: Run): Ended<Finish> {
    if p.probePending then
      var r1 := r.(probes := r.probes + 1);
      if !w.probe(r.probes) then ProbeFailed(w, payer, p, r1)
      else
        var proven := p.(previous := None, probePending := false);
        AckStage(w, payer, proven, Write(r1, Some(proven)))
    else AckStage(w, payer, p, r)
  }

  // ----- ensuring a credential -----

  /** What to ask the broker for, or the stored credential if nothing is due. */
  datatype Due = Keep | Ask(reason: Reason)

  function WhatIsDue(w: World, p: Payload, force: Reason, jitter: int, r: Run): (Due, Run) {
    var now := w.now(r.ticks);
    var reason := if force != NoReason then force else if p.invalid then Invalid401 else NoReason;
    if reason != NoReason then (Ask(reason), Tick(r))
    else if p.expiresAt <= now then (Ask(Renewal), Tick(r))
    else if p.employeeKey then (Keep, Tick(r))
    else if p.expiresAt - now > RENEW_WINDOW_MS - jitter then (Keep, Tick(r))
    else if p.renewRetryAfter > now then (Keep, Tick(r))
    else (Ask(Renewal), Tick(r))
  }

  /** The generation a broker answer describes, with the current one kept beside it. */
  function Generation(payer: Owner, a: Answer, current: Option<Payload>): Payload {
    Payload(a.version, a.keyId, a.apiKey, a.expiresAt, payer, a.account, true,
            false, true, false, true, true, 0, 0, current)
  }

  function OnUnchanged(w: World, a: Answer, current: Option<Payload>, reason: Reason, r: Run): Ended<Outcome> {
    if reason in {Missing, Invalid401} || current.None? then Ended(r, Rejected)
    else if a.keyId != current.value.keyId || a.version != current.value.version
            || a.expiresAt != current.value.expiresAt || a.account != current.value.account then
      Ended(r, Rejected)
    else if reason == Renewal then
      var kept := current.value.(invalid := false, renewRetryAfter := w.now(r.ticks) + RENEW_RETRY_BACKOFF_MS);
      Ended(Write(Tick(r), Some(kept)), Served(kept))
    else
      var kept := current.value.(invalid := false);
      Ended(Write(r, Some(kept)), Served(kept))
  }

  function OnEnsureFailed(w: World, e: GatewayError, current: Option<Payload>, reason: Reason, r: Run): Ended<Outcome> {
    if e.retryable && current.Some? && reason == Renewal && !current.value.invalid then
      if current.value.expiresAt > w.now(r.ticks) then
        var kept := current.value.(renewRetryAfter := w.now(r.ticks + 1) + RENEW_RETRY_BACKOFF_MS);
        Ended(Write(Tick(Tick(r)), Some(kept)), Served(kept))
      else Ended(Tick(r), RejectionOf(e))
    else Ended(r, RejectionOf(e))
  }

  function DemandOf(reason: Reason, current: Option<Payload>): Demand {
    Demand(reason, if current.Some? then current.value.keyId else "", if current.Some? then current.value.version else 0)
  }

  /** The run after one more `ensure` call was made. */
  function Call(r: Run, d: Demand): Run {
    r.(ensures' := r.ensures' + 1, asked := r.asked + [d])
  }

  /** Ask the broker and act on its answer; `Gone` when the fresh generation was discarded. */
  function AskBroker(w: World, payer: Owner, existing: Option<Binding>, current: Option<Payload>,
                     reason: Reason, r: Run): Ended<Finish>
  {
    var reply := w.ensure(r.ensures');
    var r1 := Call(r, DemandOf(reason, current));
    match reply
    case EnsureFailed(e) =>
      var x := OnEnsureFailed(w, e, current, reason, r1);
      Ended(x.run, Decided(x.result))
    case Ensured(a) =>
      if !Acceptable(a, payer, existing, w.now(r1.ticks)) then Ended(Tick(r1), Decided(Rejected))
      else
        var r2 := Tick(r1);
        if a.action == Unchanged && a.state == Active then
          var x := OnUnchanged(w, a, current, reason, r2);
          Ended(x.run, Decided(x.result))
        else if a.action != Issued || a.state != Pending || a.apiKey == "" then Ended(r2, Decided(Rejected))
        else if current.Some? && a.version <= current.value.version then Ended(r2, Decided(Rejected))
        else
          var minted := Generation(payer, a, current);
          FinishPending(w, payer, minted, Write(r2, Some(minted)))
  }

  function Conclude(x: Ended<Finish>): Ended<Outcome>
    requires x.result != Gone
  {
    Ended(x.run, if x.result.Finished? then Served(x.result.payload) else x.result.outcome)
  }

  /** The broker path, reissuing when a fresh generation is gone at once. */
  function Obtain(w: World, payer: Owner, existing: Option<Binding>, jitter: int,
                  current: Option<Payload>, reason: Reason, reissues: nat, r: Run): Ended<Outcome>
    decreases reissues, 0
  {
    var x := AskBroker(w, payer, existing, current, reason, r);
    if x.result != Gone then Conclude(x)
    else if reissues == 0 then Ended(x.run, Unavailable)
    else EnsureLocked(w, payer, existing, jitter, Missing, reissues - 1, x.run)
  }

  /** `_ensure_locked` with minting allowed. */
  function EnsureLocked(w: World, payer: Owner, existing: Option<Binding>, jitter: int,
                        force: Reason, reissues: nat, r: Run): Ended<Outcome>
    decreases reissues, 1
  {
    if r.row.None? then
      Obtain(w, payer, existing, jitter, None, if force != NoReason then force else Missing, reissues, r)
    else if !Valid(r.row.value, payer, existing) then Ended(r, Rejected)
    else
      var x := FinishPending(w, payer, r.row.value, r);
      match x.result
      case Decided(outcome) => Ended(x.run, outcome)
      case Gone => Obtain(w, payer, existing, jitter, None, Missing, reissues, x.run)
      case Finished(p, fallback) =>
        if fallback then Ended(x.run, Served(p))
        else
          var (due, r1) := WhatIsDue(w, p, force, jitter, x.run);
          if due == Keep then Ended(r1, Served(p))
          else Obtain(w, payer, existing, jitter, Some(p), due.reason, reissues, r1)
  }

  /** `ensure_available` with `allow_mint=False`: the employee's own request. */
  function ServeStored(w: World, payer: Owner, existing: Option<Binding>, r: Run): Ended<Outcome> {
    if r.row.None? then Ended(r, Unavailable)
    else
      var p := r.row.value;
      if !Valid(p, payer, existing) then Ended(r, Rejected)
      else if p.invalid || p.probePending then Ended(r, Unavailable)
      else if p.expiresAt > w.now(r.ticks) then Ended(Tick(r), Served(p))
      else Ended(Tick(r), Unavailable)
  }

  // ----- at most so many calls -----

  lemma FinishCalls(w: World, payer: Owner, p: Payload, r: Run)
    ensures var x := FinishPending(w, payer, p, r);
      && x.run.ensures' == r.ensures' && x.run.acks <= r.acks + 1 && x.run.probes <= r.probes + 1
      && (x.result == Gone ==> x.run.row == None)
  {
  }

  lemma AskCalls(w: World, payer: Owner, existing: Option<Binding>, current: Option<Payload>,
                 reason: Reason, r: Run)
    ensures var x := AskBroker(w, payer, existing, current, reason, r);
      && x.run.ensures' == r.ensures' + 1 && x.run.acks <= r.acks + 1 && x.run.probes <= r.probes + 1
      && (x.result == Gone ==> x.run.row == None)
  {
    hide FinishPending;
    var reply := w.ensure(r.ensures');
    if reply.Ensured? {
      var r2 := Tick(Call(r, DemandOf(reason, current)));
      var minted := Generation(payer, reply.answer, current);
      FinishCalls(w, payer, minted, Write(r2, Some(minted)));
    }
  }

  lemma {:induction false} ObtainCalls(w: World, payer: Owner, existing: Option<Binding>, jitter: int,
                                       current: Option<Payload>, reason: Reason, reissues: nat, r: Run)
    ensures var x := Obtain(w, payer, existing, jitter, current, reason, reissues, r).run;
      && x.ensures' <= r.ensures' + reissues + 1 && x.acks <= r.acks + reissues + 1
      && x.probes <= r.probes + reissues + 1
    decreases reissues
  {
    hide AskBroker;
    AskCalls(w, payer, existing, current, reason, r);
    var x := AskBroker(w, payer, existing, current, reason, r);
    if x.result == Gone && reissues > 0 {
      ObtainCalls(w, payer, existing, jitter, None, Missing, reissues - 1, x.run);
    }
  }

  /** One call makes at most 2 `ensure`, 3 `ack` and 3 probe calls, whatever is answered. */
  lemma CallsAreBounded(w: World, payer: Owner, existing: Option<Binding>, jitter: int, force: Reason, r: Run)
    ensures var x := EnsureLocked(w, payer, existing, jitter, force, 1, r).run;
      && x.ensures' <= r.ensures' + 2 && x.acks <= r.acks + 3 && x.probes <= r.probes + 3
  {
    hide FinishPending;
    hide Obtain;
    if r.row.None? {
      ObtainCalls(w, payer, existing, jitter, None, if force != NoReason then force else Missing, 1, r);
    } else if Valid(r.row.value, payer, existing) {
      FinishCalls(w, payer, r.row.value, r);
      var x := FinishPending(w, payer, r.row.value, r);
      if x.result.Gone? {
        ObtainCalls(w, payer, existing, jitter, None, Missing, 1, x.run);
      } else if x.result.Finished? {
        var (due, r1) := WhatIsDue(w, x.result.payload, force, jitter, x.run);
        if due.Ask? {
          ObtainCalls(w, payer, existing, jitter, Some(x.result.payload), due.reason, 1, r1);
        }
      }
    }
  }

  // ----- crash safety -----

  predicate UsableAt(p: Payload, t: int) {
    !p.invalid && !p.probePending && p.expiresAt > t
  }

  /** A credential carries a previous one only while its probe is outstanding, and only one deep. */
  predicate NestedOnce(p: Payload) {
    p.previous.Some? ==>
      p.probePending && p.previous.value.previous.None? && !p.previous.value.probePending
  }

  /** Whoever reads the row now still finds a credential that works at `t`. */
  predicate SafeAt(row: Option<Payload>, t: int) {
    && row.Some? && NestedOnce(row.value)
    && (UsableAt(row.value, t) || (row.value.previous.Some? && UsableAt(row.value.previous.value, t)))
  }

  /** Every row value written between the two states is safe. */
  predicate WroteSafely(from: Run, to: Run, t: int) {
    && from.writes <= to.writes
    && (forall k :: |from.writes| <= k < |to.writes| ==> SafeAt(to.writes[k], t))
    && (|from.writes| == |to.writes| ==> to.row == from.row)
    && (|from.writes| < |to.writes| ==> to.row == to.writes[|to.writes| - 1])
  }

  lemma WroteBoth(a: Run, b: Run, c: Run, t: int)
    requires WroteSafely(a, b, t) && WroteSafely(b, c, t)
    ensures WroteSafely(a, c, t)
  {
  }

  lemma SafeEarlier(a: Run, b: Run, t: int, u: int)
    requires WroteSafely(a, b, u) && t <= u
    ensures WroteSafely(a, b, t)
  {
  }

  /** A row to start from: it works until `h`, or it is pending with one that works until `h` inside. */
  predicate Ready(p: Payload, t: int, h: int) {
    if p.probePending then
      && !p.invalid && p.expiresAt > t && p.previous.Some? && p.previous.value.previous.None?
      && UsableAt(p.previous.value, h)
    else UsableAt(p, t) && p.previous.None?
  }

  predicate NeverGone(reply: AckReply) {
    reply.AckFailed? ==> !CredentialGone(reply.error)
  }

  /** The clock stays within `h`. */
  ghost predicate Clocked(w: World, from: nat, h: int) {
    forall i :: i >= from ==> w.now(i) <= h
  }

  /** None of the acknowledgements asked for between the two counts was answered with gone. */
  ghost predicate GoneFree(w: World, from: nat, to: nat) {
    forall i :: from <= i < to ==> NeverGone(w.ack(i))
  }

  /** The row was deleted in between. */
  ghost predicate Dropped(from: Run, to: Run) {
    exists k :: |from.writes| <= k < |to.writes| && to.writes[k] == None
  }

  /** Writes are only added, and time and calls only go on. */
  predicate GoesOn(a: Run, b: Run) {
    a.writes <= b.writes && a.acks <= b.acks && a.ticks <= b.ticks
  }

  /** Deleting the row once is unsafe whatever is written later. */
  lemma DroppedIsUnsafe(a: Run, b: Run, c: Run, t: int)
    requires Dropped(a, b) && GoesOn(a, b) && GoesOn(b, c)
    ensures !WroteSafely(a, c, t)
  {
    var k :| |a.writes| <= k < |b.writes| && b.writes[k] == None;
    assert c.writes[k] == None;
  }

  /** A finished step is safe up to `t`, unless an acknowledgement was answered with gone. */
  ghost predicate SafeUnlessGone(w: World, r: Run, x: Ended<Finish>, t: int) {
    && GoesOn(r, x.run)
    && (GoneFree(w, r.acks, x.run.acks) <==> x.result != Gone)
    && (x.result == Gone ==> Dropped(r, x.run) && x.run.row == None)
    && (x.result != Gone ==> WroteSafely(r, x.run, t))
    && (x.result.Finished? ==> UsableAt(x.result.payload, t) && x.result.payload.previous.None?)
    && (x.result.Decided? ==> !x.result.outcome.Served?)
  }

  lemma AckStageSafe(w: World, payer: Owner, p: Payload, r: Run, t: int)
    requires UsableAt(p, t) && p.previous.None?
    ensures SafeUnlessGone(w, r, AckStage(w, payer, p, r), t)
  {
    var x := AckStage(w, payer, p, r);
    if x.run.acks > r.acks {
      assert GoneFree(w, r.acks, x.run.acks) <==> NeverGone(w.ack(r.acks));
    }
    if x.result == Gone {
      assert x.run.writes[|r.writes|] == None;
    }
  }

  lemma FinishSafe(w: World, payer: Owner, p: Payload, r: Run, t: int, h: int)
    requires Ready(p, t, h) && t <= h && Clocked(w, r.ticks, h)
    ensures SafeUnlessGone(w, r, FinishPending(w, payer, p, r), t)
  {
    hide AckStage;
    if p.probePending {
      var r1 := r.(probes := r.probes + 1);
      if w.probe(r.probes) {
        var proven := p.(previous := None, probePending := false);
        var r2 := Write(r1, Some(proven));
        AckStageSafe(w, payer, proven, r2, t);
        AfterWrite(w, r, r2, AckStage(w, payer, proven, r2), t);
      } else {
        assert w.now(r1.ticks) <= h;
      }
    } else {
      AckStageSafe(w, payer, p, r, t);
    }
  }

  /** A safe write before a step that is safe unless gone. */
  lemma AfterWrite(w: World, a: Run, b: Run, x: Ended<Finish>, t: int)
    requires GoesOn(a, b) && a.acks == b.acks && WroteSafely(a, b, t) && SafeUnlessGone(w, b, x, t)
    ensures SafeUnlessGone(w, a, x, t)
  {
    if x.result == Gone {
      var k :| |b.writes| <= k < |x.run.writes| && x.run.writes[k] == None;
      assert Dropped(a, x.run);
    } else {
      WroteBoth(a, b, x.run, t);
    }
  }

  /** Answers the process would accept from now on describe credentials that work at `t`. */
  ghost predicate Lifetimes(w: World, from: nat, t: int) {
    forall i, j :: w.ensure(i).Ensured? && j >= from && w.ensure(i).answer.expiresAt > w.now(j)
      ==> w.ensure(i).answer.expiresAt > t
  }

  lemma KeptSafe(w: World, a: Answer, e: GatewayError, current: Payload, reason: Reason, r: Run, t: int)
    requires UsableAt(current, t) && current.previous.None?
    ensures var x := OnUnchanged(w, a, Some(current), reason, r).run;
      WroteSafely(r, x, t) && GoesOn(r, x) && x.acks == r.acks
    ensures var x := OnEnsureFailed(w, e, Some(current), reason, r).run;
      WroteSafely(r, x, t) && GoesOn(r, x) && x.acks == r.acks
  {
  }

  /** The same of an exchange with the broker, which may also serve the current credential. */
  ghost predicate AskedSafely(w: World, r: Run, x: Ended<Finish>, t: int) {
    && GoesOn(r, x.run)
    && (GoneFree(w, r.acks, x.run.acks) <==> x.result != Gone)
    && (x.result == Gone ==> Dropped(r, x.run) && x.run.row == None)
    && (x.result != Gone ==> WroteSafely(r, x.run, t))
  }

  /** A step that asked for no acknowledgement, or one that is safe unless gone. */
  lemma Asked(w: World, a: Run, b: Run, x: Ended<Finish>, t: int)
    requires b == a.(ensures' := b.ensures', ticks := b.ticks, asked := b.asked) && a.ticks <= b.ticks
    requires || SafeUnlessGone(w, b, x, t)
             || (x.result.Decided? && GoesOn(b, x.run) && x.run.acks == b.acks && WroteSafely(b, x.run, t))
    ensures AskedSafely(w, a, x, t)
  {
    if x.result == Gone {
      var k :| |b.writes| <= k < |x.run.writes| && x.run.writes[k] == None;
      assert Dropped(a, x.run);
    }
  }

  lemma AskSafe(w: World, payer: Owner, existing: Option<Binding>, current: Payload, reason: Reason,
                r: Run, t: int, h: int)
    requires UsableAt(current, h) && current.previous.None? && t <= h
    requires Clocked(w, r.ticks, h) && Lifetimes(w, r.ticks, t)
    ensures AskedSafely(w, r, AskBroker(w, payer, existing, Some(current), reason, r), t)
  {
    hide FinishPending;
    hide OnUnchanged;
    hide OnEnsureFailed;
    hide AskedSafely;
    hide SafeUnlessGone;
    var reply := w.ensure(r.ensures');
    var r1 := Call(r, DemandOf(reason, Some(current)));
    var x := AskBroker(w, payer, existing, Some(current), reason, r);
    match reply {
      case EnsureFailed(e) =>
        KeptSafe(w, Answer(OtherAction, OtherState, "", "", current.account, "", 0, 0, "", false),
                 e, current, reason, r1, t);
        Asked(w, r, r1, x, t);
      case Ensured(a) =>
        var r2 := Tick(r1);
        KeptSafe(w, a, GatewayError(0, "", false), current, reason, r2, t);
        if a.expiresAt > w.now(r.ticks) {
          MintSafe(w, payer, a, current, r2, t, h);
        }
        Asked(w, r, r2, x, t);
    }
  }

  /** Storing a fresh generation beside the current one, and finishing it. */
  lemma MintSafe(w: World, payer: Owner, a: Answer, current: Payload, r: Run, t: int, h: int)
    requires UsableAt(current, h) && current.previous.None? && t <= h && Clocked(w, r.ticks, h) && a.expiresAt > t
    ensures var minted := Generation(payer, a, Some(current));
      SafeUnlessGone(w, r, FinishPending(w, payer, minted, Write(r, Some(minted))), t)
  {
    hide FinishPending;
    var minted := Generation(payer, a, Some(current));
    var r3 := Write(r, Some(minted));
    assert WroteSafely(r, r3, t);
    FinishSafe(w, payer, minted, r3, t, h);
    AfterWrite(w, r, r3, FinishPending(w, payer, minted, r3), t);
  }

  lemma FinishGoesOn(w: World, payer: Owner, p: Payload, r: Run)
    ensures GoesOn(r, FinishPending(w, payer, p, r).run)
  {
  }

  lemma AskGoesOn(w: World, payer: Owner, existing: Option<Binding>, current: Option<Payload>,
                  reason: Reason, r: Run)
    ensures GoesOn(r, AskBroker(w, payer, existing, current, reason, r).run)
  {
    hide FinishPending;
    var reply := w.ensure(r.ensures');
    if reply.Ensured? {
      var r2 := Tick(Call(r, DemandOf(reason, current)));
      var minted := Generation(payer, reply.answer, current);
      FinishGoesOn(w, payer, minted, Write(r2, Some(minted)));
    }
  }

  lemma {:induction false} ObtainGoesOn(w: World, payer: Owner, existing: Option<Binding>, jitter: int,
                                        current: Option<Payload>, reason: Reason, reissues: nat, r: Run)
    ensures GoesOn(r, Obtain(w, payer, existing, jitter, current, reason, reissues, r).run)
    decreases reissues
  {
    hide AskBroker;
    AskGoesOn(w, payer, existing, current, reason, r);
    AskCalls(w, payer, existing, current, reason, r);
    var x := AskBroker(w, payer, existing, current, reason, r);
    if x.result == Gone && reissues > 0 {
      ObtainGoesOn(w, payer, existing, jitter, None, Missing, reissues - 1, x.run);
    }
  }

  /** The path that ends with the broker, from the stored credential on. */
  lemma ObtainSafeIff(w: World, payer: Owner, existing: Option<Binding>, jitter: int, current: Payload,
                      reason: Reason, reissues: nat, r: Run, t: int, h: int)
    requires UsableAt(current, h) && current.previous.None? && t <= h
    requires Clocked(w, r.ticks, h) && Lifetimes(w, r.ticks, t)
    ensures var x := Obtain(w, payer, existing, jitter, Some(current), reason, reissues, r);
      && GoesOn(r, x.run)
      && (WroteSafely(r, x.run, t) <==> GoneFree(w, r.acks, x.run.acks))
      && (|x.run.writes| == |r.writes| ==> WroteSafely(r, x.run, t))
  {
    hide AskBroker;
    AskSafe(w, payer, existing, current, reason, r, t, h);
    var x := AskBroker(w, payer, existing, Some(current), reason, r);
    if x.result == Gone {
      var y := Obtain(w, payer, existing, jitter, Some(current), reason, reissues, r);
      if reissues > 0 {
        ObtainGoesOn(w, payer, existing, jitter, None, Missing, reissues - 1, x.run);
        assert y == EnsureLocked(w, payer, existing, jitter, Missing, reissues - 1, x.run);
        assert y == Obtain(w, payer, existing, jitter, None, Missing, reissues - 1, x.run);
      }
      DroppedIsUnsafe(r, x.run, y.run, t);
    }
  }

  /**
   Renewal is crash-safe exactly as long as no acknowledgement is answered with gone. From a
   credential that outlives the call, for every broker, probe and clock: after every single write
   the row works at `t` or carries a previous credential that does, if and only if none of the
   acknowledgements the call asked for reported the credential gone.
   */
  lemma RenewalIsCrashSafe(w: World, payer: Owner, existing: Option<Binding>, jitter: int,
                           force: Reason, reissues: nat, r: Run, t: int, h: int)
    requires r.row.Some? && Ready(r.row.value, h, h) && t <= h
    requires Clocked(w, r.ticks, h) && Lifetimes(w, r.ticks, t)
    ensures var x := EnsureLocked(w, payer, existing, jitter, force, reissues, r);
      && (WroteSafely(r, x.run, t) <==> GoneFree(w, r.acks, x.run.acks))
      && (GoneFree(w, r.acks, x.run.acks) ==> SafeAt(x.run.row, t))
  {
    hide FinishPending;
    hide Obtain;
    hide Dropped;
    var p := r.row.value;
    assert SafeAt(r.row, t);
    if Valid(p, payer, existing) {
      FinishSafe(w, payer, p, r, h, h);
      var x := FinishPending(w, payer, p, r);
      if x.result == Gone {
        ObtainGoesOn(w, payer, existing, jitter, None, Missing, reissues, x.run);
        DroppedIsUnsafe(r, x.run, Obtain(w, payer, existing, jitter, None, Missing, reissues, x.run).run, t);
      } else {
        SafeEarlier(r, x.run, t, h);
        if x.result.Finished? && !x.result.fallback {
          var (due, r1) := WhatIsDue(w, x.result.payload, force, jitter, x.run);
          if due.Ask? {
            var y := Obtain(w, payer, existing, jitter, Some(x.result.payload), due.reason, reissues, r1);
            ObtainSafeIff(w, payer, existing, jitter, x.result.payload, due.reason, reissues, r1, t, h);
            AfterSafe(r, r1, y.run, t);
          }
        }
      }
    }
  }

  /** After safe writes, the whole is safe exactly if the rest is. */
  lemma AfterSafe(a: Run, b: Run, c: Run, t: int)
    requires WroteSafely(a, b, t) && b.writes <= c.writes
    requires |b.writes| == |c.writes| ==> WroteSafely(b, c, t)
    ensures WroteSafely(a, c, t) <==> WroteSafely(b, c, t)
  {
  }

  /** Whatever lifetimes the broker grants, the row stays usable as of the start of the call. */
  lemma RenewalIsSafeAtStart(w: World, payer: Owner, existing: Option<Binding>, jitter: int,
                             force: Reason, reissues: nat, r: Run, h: int)
    requires r.row.Some? && Ready(r.row.value, h, h) && Clocked(w, r.ticks, h)
    requires forall i, j :: r.ticks <= i <= j ==> w.now(i) <= w.now(j)
    ensures var x := EnsureLocked(w, payer, existing, jitter, force, reissues, r);
      && (WroteSafely(r, x.run, w.now(r.ticks)) <==> GoneFree(w, r.acks, x.run.acks))
      && (GoneFree(w, r.acks, x.run.acks) ==> SafeAt(x.run.row, w.now(r.ticks)))
  {
    assert Lifetimes(w, r.ticks, w.now(r.ticks));
    RenewalIsCrashSafe(w, payer, existing, jitter, force, reissues, r, w.now(r.ticks), h);
  }

  /** For instance, one acknowledgement answered with gone deletes the only credential there was. */
  lemma GoneDropsTheCredential(w: World, payer: Owner, p: Payload, r: Run)
    requires !p.probePending && p.ackPending && p.ackRetryAfter <= w.now(r.ticks)
    requires w.ack(r.acks).AckFailed? && CredentialGone(w.ack(r.acks).error)
    ensures var x := FinishPending(w, payer, p, r);
      x.result == Gone && x.run.row == None && x.run.writes == r.writes + [None]
  {
  }

  /**
   That the pending row is not marked invalid is needed: when its probe passes, the previous
   credential is dropped, and the row left behind works exactly if the new one does.
   */
  lemma PassingProbeSafeIff(w: World, payer: Owner, p: Payload, r: Run, t: int)
    requires p.probePending && w.probe(r.probes)
    ensures var x := FinishPending(w, payer, p, r).run;
      && |x.writes| > |r.writes|
      && (SafeAt(x.writes[|r.writes|], t) <==> !p.invalid && p.expiresAt > t)
  {
    var proven := p.(previous := None, probePending := false);
    var r1 := Write(r.(probes := r.probes + 1), Some(proven));
    assert r1.writes[|r.writes|] == Some(proven);
    AckStageOnlyAppends(w, payer, proven, r1);
  }

  lemma AckStageOnlyAppends(w: World, payer: Owner, p: Payload, r: Run)
    ensures r.writes <= AckStage(w, payer, p, r).run.writes
  {
  }

  // ----- what is served is what is stored -----

  ghost predicate ClockForward(w: World) {
    forall i: nat, j: nat :: i <= j ==> w.now(i) <= w.now(j)
  }

  /** A result of the protocol agrees with the row: served credentials are stored, valid and unexpired. */
  predicate Truthful(w: World, x: Ended<Outcome>, from: nat) {
    && x.run.ticks >= from
    && (x.run.row.Some? ==> NestedOnce(x.run.row.value))
    && (x.result.Served? ==>
          && x.run.row == Some(x.result.payload)
          && UsableAt(x.result.payload, w.now(from)))
  }

  lemma AckStageTruthful(w: World, payer: Owner, p: Payload, r: Run)
    requires r.row == Some(p) && !p.probePending && NestedOnce(p)
    ensures var x := AckStage(w, payer, p, r);
      && x.run.ticks >= r.ticks && (x.run.row.Some? ==> NestedOnce(x.run.row.value))
      && (x.result.Decided? ==> !x.result.outcome.Served?)
      && (x.result.Gone? ==> x.run.row == None)
      && (x.result.Finished? ==>
            && !x.result.fallback && x.run.row == Some(x.result.payload) && !x.result.payload.probePending
            && x.result.payload.invalid == p.invalid && x.result.payload.expiresAt == p.expiresAt)
  {
  }

  lemma FinishTruthful(w: World, payer: Owner, p: Payload, r: Run)
    requires ClockForward(w) && r.row == Some(p) && NestedOnce(p)
    ensures var x := FinishPending(w, payer, p, r);
      && x.run.ticks >= r.ticks && (x.run.row.Some? ==> NestedOnce(x.run.row.value))
      && (x.result.Decided? ==> !x.result.outcome.Served?)
      && (x.result.Gone? ==> x.run.row == None)
      && (x.result.Finished? ==>
            && x.run.row == Some(x.result.payload) && !x.result.payload.probePending
            && (x.result.fallback ==> UsableAt(x.result.payload, w.now(r.ticks)))
            && (!x.result.fallback ==> x.result.payload.invalid == p.invalid
                                       && x.result.payload.expiresAt == p.expiresAt))
  {
    hide AckStage;
    if !p.probePending {
      AckStageTruthful(w, payer, p, r);
    } else {
      var proven := p.(previous := None, probePending := false);
      AckStageTruthful(w, payer, proven, Write(r.(probes := r.probes + 1), Some(proven)));
    }
  }

  lemma UnchangedTruthful(w: World, a: Answer, current: Option<Payload>, reason: Reason, r: Run, from: nat)
    requires ClockForward(w) && r.row == current && from <= r.ticks && a.expiresAt > w.now(from)
    requires current.Some? ==> NestedOnce(current.value) && !current.value.probePending
    ensures Truthful(w, OnUnchanged(w, a, current, reason, r), from)
  {
  }

  lemma EnsureFailedTruthful(w: World, e: GatewayError, current: Option<Payload>, reason: Reason, r: Run)
    requires r.row == current
    requires current.Some? ==> NestedOnce(current.value) && !current.value.probePending
    ensures Truthful(w, OnEnsureFailed(w, e, current, reason, r), r.ticks)
  {
  }

  lemma AskTruthful(w: World, payer: Owner, existing: Option<Binding>, current: Option<Payload>,
                    reason: Reason, r: Run)
    requires ClockForward(w) && r.row == current
    requires current.Some? ==> NestedOnce(current.value) && !current.value.probePending
    ensures var x := AskBroker(w, payer, existing, current, reason, r);
      if x.result == Gone then x.run.row == None && x.run.ticks >= r.ticks
      else Truthful(w, Conclude(x), r.ticks)
  {
    hide FinishPending;
    hide OnUnchanged;
    hide OnEnsureFailed;
    var reply := w.ensure(r.ensures');
    var r1 := Call(r, DemandOf(reason, current));
    assert w.now(r.ticks) <= w.now(r.ticks + 1);
    match reply {
      case EnsureFailed(e) =>
        EnsureFailedTruthful(w, e, current, reason, r1);
      case Ensured(a) =>
        if a.expiresAt > w.now(r1.ticks) {
          UnchangedTruthful(w, a, current, reason, Tick(r1), r.ticks);
        }
        var minted := Generation(payer, a, current);
        FinishTruthful(w, payer, minted, Write(Tick(r1), Some(minted)));
    }
  }

  lemma {:induction false} ObtainTruthful(w: World, payer: Owner, existing: Option<Binding>, jitter: int,
                                          current: Option<Payload>, reason: Reason, reissues: nat, r: Run)
    requires ClockForward(w) && r.row == current
    requires current.Some? ==> NestedOnce(current.value) && !current.value.probePending
    ensures Truthful(w, Obtain(w, payer, existing, jitter, current, reason, reissues, r), r.ticks)
    decreases reissues
  {
    hide AskBroker;
    AskTruthful(w, payer, existing, current, reason, r);
    var x := AskBroker(w, payer, existing, current, reason, r);
    if x.result == Gone && reissues > 0 {
      ObtainTruthful(w, payer, existing, jitter, None, Missing, reissues - 1, x.run);
      assert w.now(r.ticks) <= w.now(x.run.ticks);
    }
  }

  /** Whoever is served is served the stored credential: proven, not marked invalid, unexpired. */
  lemma ServedIsStored(w: World, payer: Owner, existing: Option<Binding>, jitter: int,
                       force: Reason, reissues: nat, r: Run)
    requires ClockForward(w) && (r.row.Some? ==> NestedOnce(r.row.value))
    ensures Truthful(w, EnsureLocked(w, payer, existing, jitter, force, reissues, r), r.ticks)
  {
    hide FinishPending;
    hide Obtain;
    if r.row.None? {
      ObtainTruthful(w, payer, existing, jitter, None, if force != NoReason then force else Missing, reissues, r);
    } else if Valid(r.row.value, payer, existing) {
      FinishTruthful(w, payer, r.row.value, r);
      var x := FinishPending(w, payer, r.row.value, r);
      assert w.now(r.ticks) <= w.now(x.run.ticks);
      if x.result.Gone? {
        ObtainTruthful(w, payer, existing, jitter, None, Missing, reissues, x.run);
      } else if x.result.Finished? {
        var (due, r1) := WhatIsDue(w, x.result.payload, force, jitter, x.run);
        assert w.now(r.ticks) <= w.now(r1.ticks);
        if due.Ask? {
          ObtainTruthful(w, payer, existing, jitter, Some(x.result.payload), due.reason, reissues, r1);
        }
      }
    }
  }

  /** The employee's own request touches neither the row nor the broker, and serves by the same standard. */
  lemma RequestPathIsReadOnly(w: World, payer: Owner, existing: Option<Binding>, r: Run)
    ensures var x := ServeStored(w, payer, existing, r);
      && x.run == r.(ticks := x.run.ticks)
      && (x.result.Served? <==>
            && r.row.Some? && Valid(r.row.value, payer, existing)
            && UsableAt(r.row.value, w.now(r.ticks)))
      && (x.result.Served? ==> Some(x.result.payload) == r.row)
  {
  }
}
