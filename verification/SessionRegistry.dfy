/**
  The process-wide registry of active TeaCache sessions
  (experiments/minimax-h3-teacache/teacache.py).

  Activation claims a model for a session id or is rejected; cleanup releases
  the claim only if it is the session's own.  The theorems hold for every
  interleaving of activations and cleanups.
*/
module SessionRegistry {
  import opened Common

  type ModelId = int
  type SessionId = string

  datatype Session = Session(id: SessionId, model: ModelId)

  type Owners = map<ModelId, SessionId>

  /** The registry object; both operations run under its lock. */
  class ActiveModels {
    var owners: Owners

    constructor ()
      ensures owners == map[]
    {
      owners := map[];
    }

    /** set_active_session on a session; the error names the owner in the way. */
    method SetActive(session: Session) returns (r: Result<(), SessionId>)
      modifies this
      ensures owners == Apply(old(owners), Activate(session))
      ensures r == (if CanActivate(old(owners), session) then Ok(()) else Err(old(owners)[session.model]))
    {
      if session.model in owners && owners[session.model] != session.id {
        return Err(owners[session.model]);
      }
      owners := owners[session.model := session.id];
      return Ok(());
    }

    /** The registry half of a session's cleanup. */
    method Release(session: Session)
      modifies this
      ensures owners == Apply(old(owners), Clean(session))
    {
      if session.model in owners && owners[session.model] == session.id {
        owners := owners - {session.model};
      }
    }
  }

  // ----- interleavings -----

  datatype Op = Activate(session: Session) | Clean(session: Session)

  predicate CanActivate(owners: Owners, s: Session) {
    s.model in owners ==> owners[s.model] == s.id
  }

  predicate Owns(owners: Owners, s: Session) {
    s.model in owners && owners[s.model] == s.id
  }

  function Apply(owners: Owners, op: Op): Owners {
    match op
    case Activate(s) => if CanActivate(owners, s) then owners[s.model := s.id] else owners
    case Clean(s) => if Owns(owners, s) then owners - {s.model} else owners
  }

  function Run(ops: seq<Op>): Owners {
    if ops == [] then map[] else Apply(Run(ops[..|ops| - 1]), ops[|ops| - 1])
  }

  /** Operation k activates s successfully. */
  ghost predicate Activated(ops: seq<Op>, k: nat, s: Session) {
    k < |ops| && ops[k] == Activate(s) && CanActivate(Run(ops[..k]), s)
  }

  ghost predicate NotCleanedSince(ops: seq<Op>, k: nat, s: Session) {
    forall i | k < i < |ops| :: ops[i] != Clean(s)
  }

  /** A session has been activated and not cleaned up since. */
  ghost predicate Holds(ops: seq<Op>, s: Session) {
    exists k: nat :: Activated(ops, k, s) && NotCleanedSince(ops, k, s)
  }

  /**
    The registry names exactly the sessions between a successful activation
    and their own cleanup: nothing another session does evicts them, and
    nothing but an activation installs them.
  */
  lemma {:induction false} RegistryNamesHolders(ops: seq<Op>, s: Session)
    ensures Owns(Run(ops), s) <==> Holds(ops, s)
  {
    if ops == [] {
    } else {
      var front, op := ops[..|ops| - 1], ops[|ops| - 1];
      RegistryNamesHolders(front, s);
      if Owns(Run(ops), s) {
        if op == Activate(s) {
          assert Activated(ops, |front|, s) && NotCleanedSince(ops, |front|, s);
        } else {
          var k: nat :| Activated(front, k, s) && NotCleanedSince(front, k, s);
          assert front[..k] == ops[..k];
          assert Activated(ops, k, s) && NotCleanedSince(ops, k, s);
        }
      }
      if k: nat :| Activated(ops, k, s) && NotCleanedSince(ops, k, s) {
        if k < |front| {
          assert front[..k] == ops[..k];
          assert Activated(front, k, s) && NotCleanedSince(front, k, s);
          assert op != Clean(s);
        }
      }
    }
  }

  /** Two sessions with different ids never hold one model at the same time. */
  lemma HoldersAreExclusive(ops: seq<Op>, s: Session, t: Session)
    requires Holds(ops, s) && Holds(ops, t) && s.model == t.model
    ensures s == t
  {
    RegistryNamesHolders(ops, s);
    RegistryNamesHolders(ops, t);
  }

  /** An activation is rejected exactly when another session holds the model; it then changes nothing. */
  lemma RejectedIffHeld(ops: seq<Op>, s: Session)
    ensures !CanActivate(Run(ops), s) <==> exists t: Session :: t.model == s.model && t.id != s.id && Holds(ops, t)
    ensures !CanActivate(Run(ops), s) ==> Run(ops + [Activate(s)]) == Run(ops)
  {
    assert (ops + [Activate(s)])[..|ops|] == ops;
    if !CanActivate(Run(ops), s) {
      var t := Session(Run(ops)[s.model], s.model);
      RegistryNamesHolders(ops, t);
      assert Holds(ops, t);
    }
    if t: Session :| t.model == s.model && t.id != s.id && Holds(ops, t) {
      RegistryNamesHolders(ops, t);
    }
  }

  /** The cleanup of a session that does not hold its model leaves every holder in place. */
  lemma OtherCleanupIsHarmless(ops: seq<Op>, s: Session)
    requires !Holds(ops, s)
    ensures Run(ops + [Clean(s)]) == Run(ops)
  {
    RegistryNamesHolders(ops, s);
    assert (ops + [Clean(s)])[..|ops|] == ops;
  }
}
