/** The I/O-free recovery machine: new recoveries for the active epoch only, exact earlier
    ones while their epoch drains. */
module EpochRecovery {
  import opened Foundations
  import opened EpochTypes

  type Digest = Id32

  datatype RecoveryStage = DelayPending | Releasing | Cancelled | Expired

  datatype RotationError =
    | InvalidEvidence | InvalidSuccessor | Replayed | StaleEpoch | UnknownRequest
    | RequestMismatch | RequestCancelled | RequestExpired | DelayNotElapsed | FailClosed

  datatype PendingRecovery = PendingRecovery(
    configRef: ConfigRef,
    digest: Digest,
    nonce: Id32,
    notBefore: U64,
    expiry: U64,
    stage: RecoveryStage)

  datatype RecoveryState = RecoveryState(
    active: ConfigRef,
    draining: map<U64, U64>,
    pending: map<Id32, PendingRecovery>,
    seenIds: set<Id32>,
    seenNonces: set<Id32>,
    cancelled: map<Id32, Digest>)

  datatype Request = Request(configRef: ConfigRef, id: Id32, requestedAt: U64, nonce: Id32, expiry: U64)

  datatype Op =
    | Begin(request: Request, digest: Digest, wall: U64, now: U64, delay: U64, valid: bool)
    | Activate(successor: ConfigRef, deadline: U64, valid: bool)
    | Authorize(id: Id32, digest: Digest, configRef: ConfigRef, wall: U64, now: U64, valid: bool)
    | Cancel(id: Id32, digest: Digest, valid: bool)
    | Retire(epoch: U64, now: U64)

  function Start(active: ConfigRef): RecoveryState {
    RecoveryState(active, map[], map[], {}, {}, map[])
  }

  function CancelVerdict(s: RecoveryState, id: Id32, digest: Digest): Option<RotationError> {
    if id !in s.cancelled then None
    else if s.cancelled[id] == digest then Some(RequestCancelled) else Some(RequestMismatch)
  }

  predicate Unfinished(p: PendingRecovery, epoch: U64) {
    p.configRef.guardianEpoch == epoch && (p.stage == RecoveryStage.DelayPending || p.stage == Releasing)
  }

  /** Why the machine refuses an operation; `None` when it accepts. `valid` is the verdict
      on the certificate (for Authorize also on the local state being unambiguous). */
  function Refusal(s: RecoveryState, op: Op): Option<RotationError> {
    match op
    case Begin(q, digest, wall, _, _, valid) =>
      if !valid then Some(InvalidEvidence)
      else if q.configRef != s.active then Some(StaleEpoch)
      else if q.requestedAt > wall || wall >= q.expiry then Some(RequestExpired)
      else if CancelVerdict(s, q.id, digest).Some? then CancelVerdict(s, q.id, digest)
      else if q.id in s.seenIds || q.nonce in s.seenNonces then Some(Replayed)
      else None
    case Activate(successor, _, valid) =>
      if !valid then Some(InvalidEvidence)
      else if !successor.IsDirectSuccessorOf(s.active) then Some(InvalidSuccessor)
      else None
    case Authorize(id, digest, configRef, wall, now, valid) =>
      if !valid then Some(InvalidEvidence)
      else if CancelVerdict(s, id, digest).Some? then CancelVerdict(s, id, digest)
      else if id !in s.pending then Some(UnknownRequest)
      else if s.pending[id].digest != digest || s.pending[id].configRef != configRef then Some(RequestMismatch)
      else if configRef != s.active && configRef.guardianEpoch !in s.draining then Some(StaleEpoch)
      else if wall >= s.pending[id].expiry then Some(RequestExpired)
      else if now < s.pending[id].notBefore then Some(DelayNotElapsed)
      else None
    case Cancel(id, digest, valid) =>
      if !valid then Some(InvalidEvidence)
      else if id in s.cancelled then (if s.cancelled[id] == digest then None else Some(RequestMismatch))
      else if id in s.pending && s.pending[id].digest != digest then Some(RequestMismatch)
      else None
    case Retire(e, now) =>
      if e !in s.draining then Some(StaleEpoch)
      else if now < s.draining[e] then Some(DelayNotElapsed)
      else if exists k :: k in s.pending && Unfinished(s.pending[k], e) then Some(FailClosed)
      else None
  }

  function Staged(s: RecoveryState, id: Id32, stage: RecoveryStage): map<Id32, PendingRecovery>
    requires id in s.pending
  {
    s.pending[id := s.pending[id].(stage := stage)]
  }

  /** The machine after an operation. Two refusals leave a trace: a replayed nonce still
      uses up a new request id, and a late release marks its request expired. */
  function Next(s: RecoveryState, op: Op): RecoveryState {
    var refusal := Refusal(s, op);
    match op
    case Begin(q, digest, _, now, delay, _) =>
      if refusal == Some(Replayed) then s.(seenIds := s.seenIds + {q.id})
      else if refusal.Some? then s
      else
        s.(seenIds := s.seenIds + {q.id},
           seenNonces := s.seenNonces + {q.nonce},
           pending := s.pending[q.id := PendingRecovery(q.configRef, digest, q.nonce, SatAdd(now, delay), q.expiry, RecoveryStage.DelayPending)])
    case Activate(successor, deadline, _) =>
      if refusal.Some? then s
      else s.(draining := s.draining[s.active.guardianEpoch := deadline], active := successor)
    case Authorize(id, _, _, _, _, _) =>
      if refusal == Some(RequestExpired) then s.(pending := Staged(s, id, Expired))
      else if refusal.Some? then s
      else s.(pending := Staged(s, id, Releasing))
    case Cancel(id, digest, _) =>
      if refusal.Some? || id in s.cancelled then s
      else s.(cancelled := s.cancelled[id := digest], pending := if id in s.pending then Staged(s, id, Cancelled) else s.pending)
    case Retire(e, _) =>
      if refusal.Some? then s else s.(draining := s.draining - {e})
  }

  /** Draining epochs lie before the active one, until the counter stands still; every
      pending request was seen; a cancelled one is marked so. */
  ghost predicate ValidRecovery(s: RecoveryState) {
    && (forall e: U64 :: e in s.draining ==> e < s.active.guardianEpoch || e == U64_MAX)
    && s.pending.Keys <= s.seenIds
    && (forall k :: k in s.pending && k in s.cancelled ==> s.pending[k].digest == s.cancelled[k])
  }

  lemma NextKeepsValid(s: RecoveryState, op: Op)
    requires ValidRecovery(s)
    ensures ValidRecovery(Next(s, op))
  {
  }

  /** The machine as the object its owner updates in place. */
  class EpochRecoveryMachine {
    var active: ConfigRef
    var draining: map<U64, U64>
    var pending: map<Id32, PendingRecovery>
    var seenIds: set<Id32>
    var seenNonces: set<Id32>
    var cancelled: map<Id32, Digest>

    ghost function State(): RecoveryState
      reads this
    {
      RecoveryState(active, draining, pending, seenIds, seenNonces, cancelled)
    }

    ghost predicate Valid()
      reads this
    {
      ValidRecovery(State())
    }

    constructor (active: ConfigRef)
      ensures Valid() && State() == Start(active)
    {
      this.active := active;
      draining, pending, seenIds, seenNonces, cancelled := map[], map[], {}, {}, map[];
    }

    method BeginRequest(q: Request, digest: Digest, wall: U64, now: U64, delay: U64, valid: bool)
      returns (r: Result<U64, RotationError>)
      requires Valid()
      modifies this
      ensures Valid() && State() == Next(old(State()), Begin(q, digest, wall, now, delay, valid))
      ensures var refusal := Refusal(old(State()), Begin(q, digest, wall, now, delay, valid));
              r == if refusal.Some? then Err(refusal.value) else Ok(SatAdd(now, delay))
    {
      NextKeepsValid(State(), Begin(q, digest, wall, now, delay, valid));
      if !valid {
        return Err(InvalidEvidence);
      }
      if q.configRef != active {
        return Err(StaleEpoch);
      }
      if q.requestedAt > wall || wall >= q.expiry {
        return Err(RequestExpired);
      }
      if q.id in cancelled {
        return if cancelled[q.id] == digest then Err(RequestCancelled) else Err(RequestMismatch);
      }
      var newId := q.id !in seenIds;
      seenIds := seenIds + {q.id};
      if !newId {
        return Err(Replayed);
      }
      var newNonce := q.nonce !in seenNonces;
      seenNonces := seenNonces + {q.nonce};
      if !newNonce {
        return Err(Replayed);
      }
      var notBefore := SatAdd(now, delay);
      pending := pending[q.id := PendingRecovery(q.configRef, digest, q.nonce, notBefore, q.expiry, RecoveryStage.DelayPending)];
      return Ok(notBefore);
    }

    method ActivateSuccessor(successor: ConfigRef, deadline: U64, valid: bool) returns (r: Result<(), RotationError>)
      requires Valid()
      modifies this
      ensures Valid() && State() == Next(old(State()), Activate(successor, deadline, valid))
      ensures var refusal := Refusal(old(State()), Activate(successor, deadline, valid));
              r == if refusal.Some? then Err(refusal.value) else Ok(())
    {
      NextKeepsValid(State(), Activate(successor, deadline, valid));
      if !valid {
        return Err(InvalidEvidence);
      }
      if !successor.IsDirectSuccessorOf(active) {
        return Err(InvalidSuccessor);
      }
      draining := draining[active.guardianEpoch := deadline];
      active := successor;
      return Ok(());
    }

    method AuthorizeRelease(id: Id32, digest: Digest, configRef: ConfigRef, wall: U64, now: U64, valid: bool)
      returns (r: Result<(), RotationError>)
      requires Valid()
      modifies this
      ensures Valid() && State() == Next(old(State()), Authorize(id, digest, configRef, wall, now, valid))
      ensures var refusal := Refusal(old(State()), Authorize(id, digest, configRef, wall, now, valid));
              r == if refusal.Some? then Err(refusal.value) else Ok(())
    {
      NextKeepsValid(State(), Authorize(id, digest, configRef, wall, now, valid));
      if !valid {
        return Err(InvalidEvidence);
      }
      if id in cancelled {
        return if cancelled[id] == digest then Err(RequestCancelled) else Err(RequestMismatch);
      }
      if id !in pending {
        return Err(UnknownRequest);
      }
      if pending[id].digest != digest || pending[id].configRef != configRef {
        return Err(RequestMismatch);
      }
      if configRef != active && configRef.guardianEpoch !in draining {
        return Err(StaleEpoch);
      }
      if wall >= pending[id].expiry {
        pending := pending[id := pending[id].(stage := Expired)];
        return Err(RequestExpired);
      }
      if now < pending[id].notBefore {
        return Err(DelayNotElapsed);
      }
      pending := pending[id := pending[id].(stage := Releasing)];
      return Ok(());
    }

    method CancelRequest(id: Id32, digest: Digest, valid: bool) returns (r: Result<(), RotationError>)
      requires Valid()
      modifies this
      ensures Valid() && State() == Next(old(State()), Cancel(id, digest, valid))
      ensures var refusal := Refusal(old(State()), Cancel(id, digest, valid));
              r == if refusal.Some? then Err(refusal.value) else Ok(())
    {
      NextKeepsValid(State(), Cancel(id, digest, valid));
      if !valid {
        return Err(InvalidEvidence);
      }
      if id in cancelled {
        return if cancelled[id] == digest then Ok(()) else Err(RequestMismatch);
      }
      if id in pending {
        if pending[id].digest != digest {
          return Err(RequestMismatch);
        }
        pending := pending[id := pending[id].(stage := Cancelled)];
      }
      cancelled := cancelled[id := digest];
      return Ok(());
    }

    method RetireDrainingEpoch(epoch: U64, now: U64) returns (r: Result<(), RotationError>)
      requires Valid()
      modifies this
      ensures Valid() && State() == Next(old(State()), Retire(epoch, now))
      ensures var refusal := Refusal(old(State()), Retire(epoch, now));
              r == if refusal.Some? then Err(refusal.value) else Ok(())
    {
      NextKeepsValid(State(), Retire(epoch, now));
      if epoch !in draining {
        return Err(StaleEpoch);
      }
      if now < draining[epoch] {
        return Err(DelayNotElapsed);
      }
      if exists k :: k in pending && Unfinished(pending[k], epoch) {
        return Err(FailClosed);
      }
      draining := draining - {epoch};
      return Ok(());
    }
  }
}
