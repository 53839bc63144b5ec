/**
  What the two lease-holding workers share: the control API's reply alphabet,
  the classification of errors, and the attempt tracker that decides whether
  an attempt is fenced (apps/render-worker/src/delivery-assembly-worker.ts and
  apps/render-worker/src/worker.ts).
*/
module LeaseProtocol {
  import opened Common

  datatype Phase = Starting | Active | Fenced | Settling | Settled

  datatype Outcome = Applied | Deferred | AlreadyApplied | Superseded | NotFound

  /** A control API call resolves with an outcome, or throws with or without a status code. */
  datatype Reply = Resolved(outcome: Outcome) | Thrown(status: Option<int>)

  predicate IsNonTransientStatusCode(status: Option<int>) {
    && status.Some?
    && 400 <= status.value < 500 && status.value != 408 && status.value != 429
  }

  /** Replies that say the lease is gone: superseded, not_found, 409 and 404. */
  predicate IsFencing(r: Reply) {
    match r
    case Resolved(outcome) => outcome == Superseded || outcome == NotFound
    case Thrown(status) => status == Some(409) || status == Some(404)
  }

  predicate IsApplied(r: Reply) {
    r == Resolved(Applied) || r == Resolved(AlreadyApplied)
  }

  /** Errors the retry loops re-throw instead of retrying. */
  predicate IsFatal(r: Reply) {
    r.Thrown? && !IsFencing(r) && IsNonTransientStatusCode(r.status)
  }

  /** The three classes of replies, spelled out. */
  lemma ReplyClasses(r: Reply)
    ensures IsFencing(r) <==>
            r == Resolved(Superseded) || r == Resolved(NotFound) || r == Thrown(Some(409)) || r == Thrown(Some(404))
    ensures IsApplied(r) <==> r == Resolved(Applied) || r == Resolved(AlreadyApplied)
    ensures IsFatal(r) <==>
            && r.Thrown? && r.status.Some? && 400 <= r.status.value < 500
            && r.status.value != 404 && r.status.value != 408 && r.status.value != 409 && r.status.value != 429
  {
  }

  /** Phase after an isFenced() check at a given time. */
  function Checked(phase: Phase, leaseExpiresAt: int, now: int): (p: Phase)
    ensures p == Fenced <==> phase == Fenced || (phase != Settled && leaseExpiresAt <= now)
    ensures p != Fenced ==> p == phase
  {
    if phase == Fenced || (phase != Settled && now >= leaseExpiresAt) then Fenced else phase
  }

  /** The delivery worker's attempt tracker; asking whether it is fenced may fence it. */
  class AttemptTracker {
    var currentPhase: Phase
    var leaseExpiresAtMs: int

    constructor (initialLeaseExpiresAtMs: int)
      ensures currentPhase == Starting && leaseExpiresAtMs == initialLeaseExpiresAtMs
    {
      currentPhase, leaseExpiresAtMs := Starting, initialLeaseExpiresAtMs;
    }

    method UpdateLeaseExpiry(leaseExpiresAt: int)
      modifies this`leaseExpiresAtMs
      ensures leaseExpiresAtMs == leaseExpiresAt
    {
      leaseExpiresAtMs := leaseExpiresAt;
    }

    predicate IsLeaseExpired(nowMs: int)
      reads this
    {
      nowMs >= leaseExpiresAtMs
    }

    method IsFenced(nowMs: int) returns (fenced: bool)
      modifies this`currentPhase
      ensures currentPhase == Checked(old(currentPhase), leaseExpiresAtMs, nowMs)
      ensures fenced <==> currentPhase == Fenced
    {
      if currentPhase == Fenced {
        return true;
      }
      if currentPhase != Settled && IsLeaseExpired(nowMs) {
        currentPhase := Fenced;
        return true;
      }
      return false;
    }
  }
}
