/**
 What the credential protocol does with a given row and given answers, in the fields of the row and
 in plain numbers: when the broker is asked and what it is told, which credential is stored, and
 what each answer of broker, probe and clock leads to.
 */
module BillingDuty {
  import opened Wrappers
  import opened Billing

  /** A complete row of this payer, on the account that an enforced binding names. */
  predicate Fitting(p: Payload, payer: Owner, existing: Option<Binding>) {
    && p.complete && p.owner.employee == payer.employee && p.owner.profile == payer.profile && p.owner.email == payer.email
    && (existing.Some? && existing.value.enforced ==>
          p.account.user == existing.value.account.user && p.account.team == existing.value.account.team)
  }

  /**
   With nothing pending and no forced reason, the stored credential is served and the broker left
   alone if and only if it is not marked invalid, is unexpired, and is an employee key, or has more
   than 30 days less the jitter to live, or has a retry time that has not come. Otherwise the broker
   is asked, for a repair of an invalid credential or else a renewal, and told the generation in hand.
   */
  lemma KeptOrRenewed(w: World, payer: Owner, existing: Option<Binding>, jitter: int, reissues: nat, r: Run, p: Payload)
    requires r.row == Some(p) && Fitting(p, payer, existing) && !p.probePending && !p.ackPending
    ensures var x, now := EnsureLocked(w, payer, existing, jitter, NoReason, reissues, r), w.now(r.ticks);
      if !p.invalid && p.expiresAt > now
         && (p.employeeKey || p.expiresAt - now > 2_592_000_000 - jitter || p.renewRetryAfter > now)
      then x.result == Served(p) && x.run == r.(ticks := r.ticks + 1)
      else
        && x.run.ensures' >= r.ensures' + 1 && |x.run.asked| > |r.asked| && r.asked <= x.run.asked
        && x.run.asked[|r.asked|] == Demand(if p.invalid then Invalid401 else Renewal, p.keyId, p.version)
  {
    hide AskBroker;
    hide Obtain;
    var now := w.now(r.ticks);
    if p.invalid || p.expiresAt <= now
       || !(p.employeeKey || p.expiresAt - now > 2_592_000_000 - jitter || p.renewRetryAfter > now) {
      ObtainAsks(w, payer, existing, jitter, Some(p), if p.invalid then Invalid401 else Renewal, reissues,
                 r.(ticks := r.ticks + 1));
    }
  }

  /** A forced reason always asks, with that reason. */
  lemma ForcedAsks(w: World, payer: Owner, existing: Option<Binding>, jitter: int, force: Reason, reissues: nat,
                   r: Run, p: Payload)
    requires r.row == Some(p) && Fitting(p, payer, existing) && !p.probePending && !p.ackPending && force != NoReason
    ensures var x := EnsureLocked(w, payer, existing, jitter, force, reissues, r);
      && x.run.ensures' >= r.ensures' + 1 && |x.run.asked| > |r.asked| && r.asked <= x.run.asked
      && x.run.asked[|r.asked|] == Demand(force, p.keyId, p.version)
  {
    hide Obtain;
    ObtainAsks(w, payer, existing, jitter, Some(p), force, reissues, r.(ticks := r.ticks + 1));
  }

  /** Without a row the broker is asked for a first credential. */
  lemma MissingAsks(w: World, payer: Owner, existing: Option<Binding>, jitter: int, force: Reason, reissues: nat, r: Run)
    requires r.row == None
    ensures var x := EnsureLocked(w, payer, existing, jitter, force, reissues, r);
      && x.run.ensures' >= r.ensures' + 1 && |x.run.asked| > |r.asked| && r.asked <= x.run.asked
      && x.run.asked[|r.asked|] == Demand(if force == NoReason then Missing else force, "", 0)
  {
    hide Obtain;
    ObtainAsks(w, payer, existing, jitter, None, if force == NoReason then Missing else force, reissues, r);
  }

  /** A row that is not this payer's is refused and left as it is. */
  lemma StrangerRefused(w: World, payer: Owner, existing: Option<Binding>, jitter: int, force: Reason, reissues: nat,
                        r: Run, p: Payload)
    requires r.row == Some(p) && !Fitting(p, payer, existing)
    ensures EnsureLocked(w, payer, existing, jitter, force, reissues, r) == Ended(r, Rejected)
  {
  }

  lemma AskAsks(w: World, payer: Owner, existing: Option<Binding>, current: Option<Payload>, reason: Reason, r: Run)
    ensures var x := AskBroker(w, payer, existing, current, reason, r).run;
      x.ensures' == r.ensures' + 1 && x.asked == r.asked + [DemandOf(reason, current)]
  {
    hide FinishPending;
    var reply := w.ensure(r.ensures');
    if reply.Ensured? {
      var minted := Generation(payer, reply.answer, current);
      FinishAsksNothing(w, payer, minted, Write(Tick(Billing.Call(r, DemandOf(reason, current))), Some(minted)));
    }
  }

  lemma FinishAsksNothing(w: World, payer: Owner, p: Payload, r: Run)
    ensures var x := FinishPending(w, payer, p, r).run; x.ensures' == r.ensures' && x.asked == r.asked
  {
  }

  lemma {:induction false} ObtainAsks(w: World, payer: Owner, existing: Option<Binding>, jitter: int,
                                      current: Option<Payload>, reason: Reason, reissues: nat, r: Run)
    ensures var x := Obtain(w, payer, existing, jitter, current, reason, reissues, r).run;
      x.ensures' >= r.ensures' + 1 && r.asked + [DemandOf(reason, current)] <= x.asked
    decreases reissues
  {
    hide AskBroker;
    AskAsks(w, payer, existing, current, reason, r);
    AskCalls(w, payer, existing, current, reason, r);
    var x := AskBroker(w, payer, existing, current, reason, r);
    if x.result == Gone && reissues > 0 {
      ObtainAsks(w, payer, existing, jitter, None, Missing, reissues - 1, x.run);
    }
  }

  // ----- what the broker's answers lead to -----

  /** An answer for this payer, well formed, unexpired, and on the account already known. */
  predicate Proper(a: Answer, payer: Owner, existing: Option<Binding>, now: int) {
    && a.sound && a.employee == payer.employee && a.email == payer.email && a.version > 0 && a.expiresAt > now
    && (existing.Some? ==>
          && existing.value.profile in {"", payer.profile} && existing.value.account.user in {"", a.account.user}
          && existing.value.account.team in {"", a.account.team})
  }

  /** A fresh key for this payer, newer than the one in hand. */
  predicate Mints(a: Answer, current: Option<Payload>) {
    && a.action == Issued && a.state == Pending && a.apiKey != ""
    && (current.Some? ==> a.version > current.value.version)
  }

  /** The key of the answer is what the payload holds, for this payer, unmarked. */
  predicate HoldsKey(p: Payload, a: Answer, payer: Owner) {
    && p.apiKey == a.apiKey && p.keyId == a.keyId && p.version == a.version && p.expiresAt == a.expiresAt
    && p.account == a.account && p.owner == payer && p.complete && !p.employeeKey && !p.invalid
  }

  /** A fresh key is first written with its probe outstanding and the current credential kept beside it. */
  lemma MintedIsStored(w: World, payer: Owner, existing: Option<Binding>, current: Option<Payload>, reason: Reason,
                       r: Run, a: Answer)
    requires w.ensure(r.ensures') == Ensured(a) && Proper(a, payer, existing, w.now(r.ticks)) && Mints(a, current)
    ensures var x := AskBroker(w, payer, existing, current, reason, r).run;
      && |x.writes| > |r.writes| && r.writes <= x.writes && x.writes[|r.writes|].Some?
      && var first := x.writes[|r.writes|].value;
         HoldsKey(first, a, payer) && first.probePending && first.ackPending && first.previous == current
  {
    hide FinishPending;
    var minted := Generation(payer, a, current);
    FinishGoesOn(w, payer, minted, Write(Tick(Billing.Call(r, DemandOf(reason, current))), Some(minted)));
  }

  /** If its probe passes and it is acknowledged, it is served, stored alone and nothing is pending. */
  lemma MintedIsServed(w: World, payer: Owner, existing: Option<Binding>, current: Option<Payload>, reason: Reason,
                       r: Run, a: Answer)
    requires w.ensure(r.ensures') == Ensured(a) && Proper(a, payer, existing, w.now(r.ticks)) && Mints(a, current)
    requires w.probe(r.probes) && w.now(r.ticks + 1) >= 0
    requires w.ack(r.acks) == Acked(payer.employee, a.keyId, a.version, true)
    ensures var x := AskBroker(w, payer, existing, current, reason, r);
      && x.result.Finished? && x.run.row == Some(x.result.payload) && HoldsKey(x.result.payload, a, payer)
      && !x.result.payload.probePending && !x.result.payload.ackPending && x.result.payload.previous.None?
  {
  }

  /** Anything else that is neither a fresh key nor a proper "unchanged" is refused without a write. */
  lemma ImproperIsRefused(w: World, payer: Owner, existing: Option<Binding>, current: Option<Payload>, reason: Reason,
                          r: Run, a: Answer)
    requires w.ensure(r.ensures') == Ensured(a)
    requires !Proper(a, payer, existing, w.now(r.ticks)) || (!Mints(a, current) && !(a.action == Unchanged && a.state == Active))
    ensures var x := AskBroker(w, payer, existing, current, reason, r);
      x.result == Decided(Rejected) && x.run.writes == r.writes && x.run.row == r.row
  {
  }

  /** "Unchanged" keeps the credential exactly if it describes the one in hand and that was not the trouble. */
  lemma UnchangedIsKept(w: World, payer: Owner, existing: Option<Binding>, current: Option<Payload>, reason: Reason,
                        r: Run, a: Answer)
    requires w.ensure(r.ensures') == Ensured(a) && Proper(a, payer, existing, w.now(r.ticks))
    requires a.action == Unchanged && a.state == Active
    ensures var x := AskBroker(w, payer, existing, current, reason, r);
      if current.Some? && reason != Missing && reason != Invalid401
         && a.keyId == current.value.keyId && a.version == current.value.version
         && a.expiresAt == current.value.expiresAt && a.account == current.value.account
      then
        && x.result.Decided? && x.result.outcome.Served? && x.run.row == Some(x.result.outcome.payload)
        && x.result.outcome.payload == current.value.(invalid := false,
             renewRetryAfter := if reason == Renewal then w.now(r.ticks + 1) + 21_600_000 else current.value.renewRetryAfter)
      else x.result == Decided(Rejected) && x.run.writes == r.writes
  {
  }

  /**
   If the broker fails, a renewal goes on with a credential that still works, for six hours. Otherwise
   the run may degrade exactly if the failure is 502, 503 or 504 and no conflict, broken answer or
   misconfiguration.
   */
  lemma FailureLeadsTo(w: World, payer: Owner, existing: Option<Binding>, current: Option<Payload>, reason: Reason,
                       r: Run, e: GatewayError)
    requires w.ensure(r.ensures') == EnsureFailed(e)
    ensures var x := AskBroker(w, payer, existing, current, reason, r);
      if e.retryable && current.Some? && reason == Renewal && !current.value.invalid
         && current.value.expiresAt > w.now(r.ticks)
      then
        && x.result == Decided(Served(current.value.(renewRetryAfter := w.now(r.ticks + 1) + 21_600_000)))
        && x.run.row == Some(x.result.outcome.payload)
      else
        && x.run.writes == r.writes && x.run.row == r.row
        && x.result == Decided(
             if e.status in {502, 503, 504}
                && e.code !in {"identity_conflict", "account_topology_conflict", "invalid_response", "invalid_json",
                               "invalid_error_envelope", "unsupported_contract_version", "broker_not_configured"}
             then Unavailable else Rejected)
  {
  }

  // ----- what probe and acknowledgement lead to -----

  /** A failed probe falls back on a previous credential that works, backing off six hours, or drops the row. */
  lemma FailedProbe(w: World, payer: Owner, p: Payload, r: Run)
    requires p.probePending && !w.probe(r.probes)
    ensures var x, now := FinishPending(w, payer, p, r), w.now(r.ticks);
      if p.previous.Some? && !p.previous.value.invalid && p.previous.value.expiresAt > now then
        if Fitting(p.previous.value, payer, None) then
          && x.result == Finished(p.previous.value.(renewRetryAfter := w.now(r.ticks + 1) + 21_600_000), true)
          && x.run.row == Some(x.result.payload)
        else x.result == Decided(Rejected) && x.run.writes == r.writes && x.run.row == r.row
      else x.result == Decided(Rejected) && x.run.row == None && x.run.writes == r.writes + [None]
  {
  }

  /** With its probe passed, an unacknowledged generation is acknowledged unless it is backing off. */
  lemma AckIsAsked(w: World, payer: Owner, p: Payload, r: Run)
    requires !p.probePending && r.row == Some(p)
    ensures var x, now := FinishPending(w, payer, p, r), w.now(r.ticks);
      if !p.ackPending then x == Ended(r, Finished(p, false))
      else if p.ackRetryAfter > now then x.run.acks == r.acks && x.run.row == r.row && x.result == Finished(p, false)
      else x.run.acks == r.acks + 1
  {
  }

  /** A good acknowledgement ends the handshake; a retryable failure puts it off for five minutes. */
  lemma AckLeadsTo(w: World, payer: Owner, p: Payload, r: Run)
    requires !p.probePending && p.ackPending && p.ackRetryAfter <= w.now(r.ticks)
    ensures var x, reply := FinishPending(w, payer, p, r), w.ack(r.acks);
      match reply
      case Acked(employee, keyId, version, active) =>
        if employee == payer.employee && keyId == p.keyId && version == p.version && active
        then x.result == Finished(p.(ackPending := false, ackRetryAfter := 0), false) && x.run.row == Some(x.result.payload)
        else x.result == Decided(Rejected) && x.run.writes == r.writes
      case AckFailed(e) =>
        if e.status == 410 && e.code == "credential_gone" then x.result == Gone && x.run.row == None
        else if e.retryable then
          && x.result == Finished(p.(ackRetryAfter := w.now(r.ticks + 1) + 300_000), false)
          && x.run.row == Some(x.result.payload)
        else x.result.Decided? && !x.result.outcome.Served? && x.run.writes == r.writes
  {
  }

  /** The request path serves exactly a fitting row that is proven, unmarked and unexpired, and asks nobody. */
  lemma RequestServesIff(w: World, payer: Owner, existing: Option<Binding>, r: Run)
    ensures var x := ServeStored(w, payer, existing, r);
      && (x.result.Served? <==>
            && r.row.Some? && Fitting(r.row.value, payer, existing)
            && !r.row.value.invalid && !r.row.value.probePending && r.row.value.expiresAt > w.now(r.ticks))
      && (x.result.Served? ==> r.row == Some(x.result.payload))
      && (x.result == Rejected <==> r.row.Some? && !Fitting(r.row.value, payer, existing))
      && x.run.writes == r.writes && x.run.asked == r.asked && x.run.acks == r.acks && x.run.probes == r.probes
  {
  }
}
