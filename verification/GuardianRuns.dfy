/** Whole runs of one guardian's protocol-v3 entry. */
module GuardianRuns {
  import opened Foundations
  import opened EpochTypes
  import opened EpochSelection
  import opened RotationPlans
  import opened GuardianEpochs
  import opened GuardianRecoveries
  import opened GuardianEntry

  datatype Clock = Clock(wall: U64, now: U64, boot: string, demo: bool)

  datatype Request =
    | BeginRecovery(q: RecoveryRequest, quorum: bool)
    | CancelRecovery(q: RecoveryRequest, ownerSigned: bool)
    | ReleaseRecovery(q: RecoveryRequest, certified: RecoveryRequest, quorum: bool)
    | BeginRotation(plan: RotationPlan, begin: BeginCertificate, keysMatch: bool)
    | CancelRotation(plan: RotationPlan, cancel: OwnerCancelCertificate)
    | AbortRotation(plan: RotationPlan, abort: AbortCertificate)
    | ReleaseRotation(plan: RotationPlan)
    | PrepareCommit(plan: RotationPlan, record: GuardianRecord, journal: DpssJournal, stagedFits: bool)
    | ActivateRotation(plan: RotationPlan, capsule: Capsule, deadline: U64)
    | RetireEpoch(notice: RetirementNotice, requestedNow: U64)
  {
    predicate IsFresh(s: GuardianState, now: U64) {
      match this
      case BeginRecovery(_, _) | CancelRecovery(_, _) | ReleaseRecovery(_, _, _) => true
      case RetireEpoch(notice, _) => Fresh(s, notice.context, now)
      case _ => Fresh(s, this.plan.context, now)
    }
  }

  /** What a request does to the recovery desk. */
  datatype Move =
    | Idle
    | Began(q: RecoveryRequest)
    | Vetoed(q: RecoveryRequest)
    | Delivered(q: RecoveryRequest)
    | Stored(op: StoreOp)

  function StoredIf(reaches: bool, s: GuardianState, op: StoreOp): Move {
    if reaches && Refusal(s.desk.store, op).None? then Stored(op) else Idle
  }

  function MoveOf(s: GuardianState, r: Request, c: Clock): Move {
    if !r.IsFresh(s, c.wall) then Idle
    else
      match r
      case BeginRecovery(q, quorum) =>
        if BeginAdmitted(s.desk, s.predecessor, q, quorum, c.wall) then Began(q) else Idle
      case CancelRecovery(q, ownerSigned) =>
        if CancelAdmitted(s.desk, s.predecessor, q, ownerSigned, c.wall) then Vetoed(q) else Idle
      case ReleaseRecovery(q, certified, quorum) =>
        if ReleaseAdmitted(s.desk, s.predecessor, q, certified, quorum, c.wall, c.now, c.boot) then Delivered(q) else Idle
      case BeginRotation(_, _, _) => Idle
      case CancelRotation(plan, cancel) =>
        StoredIf(CancelRotationReaches(s, plan, cancel, c.wall), s, GuardianEpochs.Abort(plan.context.rotationId, Of(plan)))
      case AbortRotation(plan, abort) =>
        StoredIf(AbortRotationReaches(s, plan, abort, c.wall), s, GuardianEpochs.Abort(plan.context.rotationId, Of(plan)))
      case ReleaseRotation(_) => Idle
      case PrepareCommit(plan, record, journal, stagedFits) =>
        StoredIf(PrepareReaches(s, plan, record, stagedFits), s, Prepare(plan.context.rotationId, Of(plan), record, journal))
      case ActivateRotation(plan, capsule, deadline) =>
        if ActivationReaches(s, plan, capsule) then StoredIf(true, s, EpochChange(s, plan, capsule, deadline)) else Idle
      case RetireEpoch(notice, requestedNow) =>
        StoredIf(RetireReaches(s, notice, requestedNow), s, GuardianEpochs.Retire(notice.epoch, requestedNow))
  }

  /** The move's grounds, in terms of the desk alone. */
  ghost predicate Grounded(d: Desk, m: Move, c: Clock) {
    match m
    case Idle => true
    case Began(q) =>
      && d.store.active.Some? && d.store.active.value.configRef == q.configRef
      && q.requestId !in d.vetoes
      && (q.requestId in d.recoveries ==> d.recoveries[q.requestId].request == q)
    case Vetoed(q) =>
      q.requestId in d.recoveries ==> d.recoveries[q.requestId].digest == Of(q) && !d.recoveries[q.requestId].released
    case Delivered(q) =>
      && q.requestId in d.recoveries
      && d.recoveries[q.requestId].request == q && d.recoveries[q.requestId].Live()
      && d.recoveries[q.requestId].bootId == c.boot && d.recoveries[q.requestId].notBefore <= c.now
    case Stored(op) =>
      && Refusal(d.store, op).None? && HandsOver(d, op) && !op.FinishRequest?
      && (op.Retire? ==> d.store.activationQc.Some? && op.epoch == d.store.activationQc.value.predecessorEpoch)
  }

  ghost function DeskAfter(d: Desk, m: Move, c: Clock): Desk
    requires ValidStore(d.store) && Grounded(d, m, c)
  {
    match m
    case Idle => d
    case Began(q) => BeginNext(d, q, c.wall, c.now, c.boot, c.demo)
    case Vetoed(q) => CancelNext(d, q)
    case Delivered(q) => ReleaseNext(d, q)
    case Stored(op) => d.(store := Applied(d.store, op))
  }

  lemma MoveIsGrounded(s: GuardianState, r: Request, c: Clock)
    requires ValidGuardian(s)
    ensures Grounded(s.desk, MoveOf(s, r, c), c)
  {
    if r.ActivateRotation? && r.IsFresh(s, c.wall) && ActivationReaches(s, r.plan, r.capsule)
       && Refusal(s.desk.store, EpochChange(s, r.plan, r.capsule, r.deadline)).None? {
      ChangeHandsOver(s, r.plan, r.capsule, r.deadline);
    }
  }

  // ---- The entry -----------------------------------------------------------------

  /** Everything a request changes outside the desk: sessions, and the capsule followed. */
  ghost function Next(s: GuardianState, r: Request, c: Clock): GuardianState
    requires ValidGuardian(s)
  {
    var store := s.desk.store;
    if !r.IsFresh(s, c.wall) then s
    else
      match r
      case BeginRecovery(q, quorum) =>
        if BeginAdmitted(s.desk, s.predecessor, q, quorum, c.wall)
        then s.(desk := BeginNext(s.desk, q, c.wall, c.now, c.boot, c.demo)) else s
      case CancelRecovery(q, ownerSigned) =>
        if CancelAdmitted(s.desk, s.predecessor, q, ownerSigned, c.wall) then s.(desk := CancelNext(s.desk, q)) else s
      case ReleaseRecovery(q, certified, quorum) =>
        if ReleaseAdmitted(s.desk, s.predecessor, q, certified, quorum, c.wall, c.now, c.boot)
        then s.(desk := ReleaseNext(s.desk, q)) else s
      case BeginRotation(plan, begin, keysMatch) =>
        if BeginRotationAdmitted(s, plan, begin, keysMatch, c.wall) then BeginRotationNext(s, plan, begin, c.now, c.demo) else s
      case CancelRotation(plan, cancel) =>
        if CancelRotationReaches(s, plan, cancel, c.wall) then CancelRotationNext(s, plan) else s
      case AbortRotation(plan, abort) =>
        if AbortRotationReaches(s, plan, abort, c.wall) then AbortRotationNext(s, plan) else s
      case ReleaseRotation(plan) => ReleaseRotationNext(s, plan, c.now)
      case PrepareCommit(plan, record, journal, stagedFits) =>
        if PrepareReaches(s, plan, record, stagedFits)
        then PrepareNext(s, Prepare(plan.context.rotationId, Of(plan), record, journal)) else s
      case ActivateRotation(plan, capsule, deadline) =>
        if ActivationReaches(s, plan, capsule) then ActivationNext(s, plan, capsule, deadline) else s
      case RetireEpoch(notice, requestedNow) =>
        if RetireReaches(s, notice, requestedNow) then RetireNext(s, notice, requestedNow) else s
  }

  lemma NextKeepsValid(s: GuardianState, r: Request, c: Clock)
    requires ValidGuardian(s)
    ensures ValidGuardian(Next(s, r, c))
  {
    if r.IsFresh(s, c.wall) {
      match r
      case BeginRecovery(_, _) | CancelRecovery(_, _) =>
      case ReleaseRecovery(q, certified, quorum) =>
        if ReleaseAdmitted(s.desk, s.predecessor, q, certified, quorum, c.wall, c.now, c.boot) {
          ReleaseKeepsGuardian(s, q);
        }
      case BeginRotation(plan, begin, keysMatch) =>
        if BeginRotationAdmitted(s, plan, begin, keysMatch, c.wall) {
          BeginRotationKeeps(s, plan, begin, c.now, c.demo);
        }
      case CancelRotation(plan, cancel) =>
        if CancelRotationReaches(s, plan, cancel, c.wall) {
          CancelRotationKeeps(s, plan);
        }
      case AbortRotation(plan, abort) =>
        if AbortRotationReaches(s, plan, abort, c.wall) {
          AbortRotationKeeps(s, plan);
        }
      case ReleaseRotation(plan) => ReleaseRotationKeeps(s, plan, c.now);
      case PrepareCommit(plan, record, journal, stagedFits) =>
        if PrepareReaches(s, plan, record, stagedFits) {
          PrepareKeepsGuardian(s, Prepare(plan.context.rotationId, Of(plan), record, journal));
        }
      case ActivateRotation(plan, capsule, deadline) =>
        if ActivationReaches(s, plan, capsule) {
          ActivationKeeps(s, plan, capsule, deadline);
        }
      case RetireEpoch(notice, requestedNow) => RetireKeepsGuardian(s, notice, requestedNow);
    }
  }

  lemma NextDesk(s: GuardianState, r: Request, c: Clock)
    requires ValidGuardian(s)
    ensures Grounded(s.desk, MoveOf(s, r, c), c)
    ensures Next(s, r, c).desk == DeskAfter(s.desk, MoveOf(s, r, c), c)
  {
    MoveIsGrounded(s, r, c);
  }
}
