/**
 `BillingCredentialManager` for one payer: the vault row is a field, each save and delete
 one assignment to it, and every answer from outside is taken from the world.
 */
module BillingManager {
  import opened Wrappers
  import opened B = Billing

  class Manager {
    const w: World
    const payer: Owner
    const existing: Option<Binding>
    const jitter: int
    var row: Option<Payload>
    ghost var writes: seq<Option<Payload>>
    var ticks: nat
    var probes: nat
    var ensureCalls: nat
    var ackCalls: nat
    ghost var asked: seq<Demand>

    ghost function View(): Run
      reads this
    {
      Run(row, writes, ticks, probes, ensureCalls, ackCalls, asked)
    }

    constructor (w: World, payer: Owner, existing: Option<Binding>, jitter: int, row: Option<Payload>)
      ensures this.w == w && this.payer == payer && this.existing == existing && this.jitter == jitter
      ensures View() == Run(row, [], 0, 0, 0, 0, [])
    {
      this.w, this.payer, this.existing, this.jitter := w, payer, existing, jitter;
      this.row, writes, asked := row, [], [];
      ticks, probes, ensureCalls, ackCalls := 0, 0, 0, 0;
    }

    method Now() returns (t: int)
      modifies this`ticks
      ensures t == w.now(old(ticks)) && ticks == old(ticks) + 1
    {
      t := w.now(ticks);
      ticks := ticks + 1;
    }

    method Save(p: Payload)
      modifies this`row, this`writes
      ensures row == Some(p) && writes == old(writes) + [row]
    {
      row := Some(p);
      writes := writes + [row];
    }

    method Delete()
      modifies this`row, this`writes
      ensures row == None && writes == old(writes) + [row]
    {
      row := None;
      writes := writes + [row];
    }

    method ProbeFailed(p: Payload) returns (f: Finish)
      modifies this
      ensures Ended(View(), f) == B.ProbeFailed(w, payer, p, old(View()))
    {
      if p.previous.Some? && !p.previous.value.invalid {
        var now := Now();
        if p.previous.value.expiresAt > now {
          if !Valid(p.previous.value, payer, None) {
            return Decided(Rejected);
          }
          var later := Now();
          var kept := p.previous.value.(renewRetryAfter := later + RENEW_RETRY_BACKOFF_MS);
          Save(kept);
          return Finished(kept, true);
        }
      }
      Delete();
      f := Decided(Rejected);
    }

    method Acknowledge(p: Payload) returns (f: Finish)
      modifies this
      ensures Ended(View(), f) == B.Acknowledge(w, payer, p, old(View()))
    {
      var reply := w.ack(ackCalls);
      ackCalls := ackCalls + 1;
      match reply {
        case AckFailed(e) =>
          if CredentialGone(e) {
            Delete();
            return Gone;
          }
          if e.retryable {
            var now := Now();
            var later := p.(ackRetryAfter := now + ACK_RETRY_BACKOFF_MS);
            Save(later);
            return Finished(later, false);
          }
          f := Decided(RejectionOf(e));
        case Acked(employee, keyId, version, active) =>
          if employee != payer.employee || keyId != p.keyId || version != p.version || !active {
            return Decided(Rejected);
          }
          var done := p.(ackPending := false, ackRetryAfter := 0);
          Save(done);
          f := Finished(done, false);
      }
    }

    /** Probe and acknowledge an outstanding generation. */
    method FinishPending(p: Payload) returns (f: Finish)
      modifies this
      ensures Ended(View(), f) == B.FinishPending(w, payer, p, old(View()))
    {
      hide B.Acknowledge;
      hide B.ProbeFailed;
      var payload := p;
      if payload.probePending {
        var passed := w.probe(probes);
        probes := probes + 1;
        if !passed {
          f := ProbeFailed(payload);
          return;
        }
        payload := payload.(previous := None, probePending := false);
        Save(payload);
      }
      if !payload.ackPending {
        return Finished(payload, false);
      }
      var now := Now();
      if payload.ackRetryAfter > now {
        return Finished(payload, false);
      }
      f := Acknowledge(payload);
    }

    method OnEnsureFailed(e: GatewayError, current: Option<Payload>, reason: Reason) returns (o: Outcome)
      modifies this
      ensures Ended(View(), o) == B.OnEnsureFailed(w, e, current, reason, old(View()))
    {
      if e.retryable && current.Some? && reason == Renewal && !current.value.invalid {
        var now := Now();
        if current.value.expiresAt > now {
          var later := Now();
          var kept := current.value.(renewRetryAfter := later + RENEW_RETRY_BACKOFF_MS);
          Save(kept);
          return Served(kept);
        }
      }
      o := RejectionOf(e);
    }

    method OnUnchanged(a: Answer, current: Option<Payload>, reason: Reason) returns (o: Outcome)
      modifies this
      ensures Ended(View(), o) == B.OnUnchanged(w, a, current, reason, old(View()))
    {
      if reason in {Missing, Invalid401} || current.None? {
        return Rejected;
      }
      var kept := current.value;
      if a.keyId != kept.keyId || a.version != kept.version
         || a.expiresAt != kept.expiresAt || a.account != kept.account {
        return Rejected;
      }
      kept := kept.(invalid := false);
      if reason == Renewal {
        var now := Now();
        kept := kept.(renewRetryAfter := now + RENEW_RETRY_BACKOFF_MS);
      }
      Save(kept);
      o := Served(kept);
    }

    /** One `ensure` call and what its answer leads to. */
    method AskBroker(current: Option<Payload>, reason: Reason) returns (f: Finish)
      modifies this
      ensures Ended(View(), f) == B.AskBroker(w, payer, existing, current, reason, old(View()))
    {
      hide B.OnUnchanged;
      hide B.OnEnsureFailed;
      hide B.FinishPending;
      hide B.Acceptable;
      var keyId := if current.Some? then current.value.keyId else "";
      var version := if current.Some? then current.value.version else 0;
      var reply := w.ensure(ensureCalls);
      ensureCalls := ensureCalls + 1;
      asked := asked + [Demand(reason, keyId, version)];
      match reply {
        case EnsureFailed(e) =>
          var o := OnEnsureFailed(e, current, reason);
          f := Decided(o);
        case Ensured(a) =>
          var now := Now();
          if !Acceptable(a, payer, existing, now) {
            return Decided(Rejected);
          }
          if a.action == Unchanged && a.state == Active {
            var o := OnUnchanged(a, current, reason);
            return Decided(o);
          }
          if a.action != Issued || a.state != Pending || a.apiKey == "" {
            return Decided(Rejected);
          }
          if current.Some? && a.version <= current.value.version {
            return Decided(Rejected);
          }
          var minted := Generation(payer, a, current);
          Save(minted);
          f := FinishPending(minted);
      }
    }

    /** `_ensure_locked` with minting allowed; `reissues` is the termination measure. */
    method EnsureLocked(force: Reason, reissues: nat) returns (o: Outcome)
      modifies this
      ensures Ended(View(), o) == B.EnsureLocked(w, payer, existing, jitter, force, reissues, old(View()))
      decreases reissues
    {
      hide B.AskBroker;
      hide B.FinishPending;
      hide Valid;
      var reason := if force != NoReason then force else Missing;
      var current: Option<Payload> := None;
      if row.Some? {
        if !Valid(row.value, payer, existing) {
          return Rejected;
        }
        var f := FinishPending(row.value);
        match f {
          case Decided(outcome) =>
            return outcome;
          case Gone =>
            reason := Missing;
          case Finished(p, fallback) =>
            if fallback {
              return Served(p);
            }
            var now := Now();
            reason := if force != NoReason then force else if p.invalid then Invalid401 else NoReason;
            if reason == NoReason {
              if p.employeeKey && p.expiresAt > now {
                return Served(p);
              }
              if p.expiresAt > now {
                if p.expiresAt - now > RENEW_WINDOW_MS - jitter {
                  return Served(p);
                }
                if p.renewRetryAfter > now {
                  return Served(p);
                }
              }
              reason := Renewal;
            }
            current := Some(p);
        }
      }
      var f := AskBroker(current, reason);
      if f == Gone {
        if reissues == 0 {
          return Unavailable;
        }
        o := EnsureLocked(Missing, reissues - 1);
      } else {
        o := if f.Finished? then Served(f.payload) else f.outcome;
      }
    }

    /** The request path: never writes, never asks. */
    method ServeStored() returns (o: Outcome)
      modifies this`ticks
      ensures Ended(View(), o) == B.ServeStored(w, payer, existing, old(View()))
    {
      if row.Some? {
        if !Valid(row.value, payer, existing) {
          return Rejected;
        }
        if !row.value.invalid && !row.value.probePending {
          var now := Now();
          if row.value.expiresAt > now {
            return Served(row.value);
          }
        }
      }
      o := Unavailable;
    }
  }
}
