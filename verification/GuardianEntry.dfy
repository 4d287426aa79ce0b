/** One guardian's whole protocol-v3 entry: its rotation sessions on top of the recovery
    desk, and what each rotation request does to it. */
module GuardianEntry {
  import opened Foundations
  import opened EpochTypes
  import opened EpochSelection
  import opened GuardianEpochs
  import opened GuardianRecoveries
  import opened RotationPlans
  import SignerLocks

  // ---- The rotation machine of a session ------------------------------------------

  datatype Machine = Machine(
    rotationId: Id32,
    planHash: PlanHash,
    predecessor: ConfigRef,
    successor: ConfigRef,
    stage: RotationStage,
    notBefore: Option<U64>,
    drainDeadline: Option<U64>,
    tombstoned: bool)

  /** A fresh machine with its Begin accepted. */
  function BegunMachine(plan: RotationPlan, now: U64, delay: U64): Machine {
    Machine(plan.context.rotationId, Of(plan), plan.predecessor, plan.successor, DelayPending, Some(SatAdd(now, delay)), None, false)
  }

  /** Release: a pending delay must have run; a machine already preparing stays as it is. */
  function Released(m: Machine, now: U64): Option<Machine> {
    match m.stage
    case DelayPending =>
      if !m.tombstoned && m.notBefore.Some? && m.notBefore.value <= now then Some(m.(stage := Preparing)) else None
    case Preparing => Some(m)
    case _ => None
  }

  /** Preparation complete, activation authorised and witnessed, in one go. */
  function Witnessed(m: Machine, deadline: U64): Option<Machine> {
    if m.stage == Preparing && !m.tombstoned
    then Some(m.(stage := RotationStage.Active, drainDeadline := Some(deadline)))
    else None
  }

  /** An owner cancellation or a signer abort. */
  function GivenUp(m: Machine): Option<Machine> {
    if !m.tombstoned && m.stage in {Proposed, DelayPending, Preparing, Ready, Activating}
    then Some(m.(stage := Aborted, tombstoned := true))
    else None
  }

  datatype Session = Session(
    machine: Machine,
    planHash: PlanHash,
    beginHash: Hash<BeginCertificate>,
    notBefore: U64,
    cancelled: bool)

  // ---- The entry -----------------------------------------------------------------

  datatype GuardianState = GuardianState(
    card: RecoveryCard,
    key: Key,
    predecessor: Capsule,
    desk: Desk,
    sessions: map<Id32, Session>)

  /** The guardian's store expects a successor of the capsule it follows. */
  ghost predicate Linked(s: GuardianState) {
    && s.desk.store.expected == s.predecessor.body.configRef
    && s.desk.store.expectedHash == s.predecessor.hash
  }

  /** The guardian was rotated out: it has no authority, and its store still expects a
      successor of the capsule before the one it follows. */
  ghost predicate Replaced(s: GuardianState) {
    && s.desk.store.active.None?
    && Depth(s.desk.store.expectedHash) < Depth(s.predecessor.hash)
  }

  ghost predicate SessionsAreOpen(s: GuardianState) {
    && s.sessions.Keys !! s.desk.store.tombstones.Keys
    && (forall r :: r in s.sessions ==> s.sessions[r].machine.rotationId == r && (s.sessions[r].cancelled ==> s.sessions[r].machine.tombstoned))
  }

  /** The invariant every request keeps; `DrainComplete` of the desk comes on top of it as
      long as no epoch change drops a recovery. */
  ghost predicate ValidGuardian(s: GuardianState) {
    && s.predecessor.hash == BodyHash(s.predecessor.body)
    && (Linked(s) || Replaced(s))
    && ValidStore(s.desk.store)
    && SessionsAreOpen(s)
  }

  // ---- Rotation requests ---------------------------------------------------------

  datatype RetirementNotice = RetirementNotice(context: RotationContext, qcHash: Hash<ActivationQc>, epoch: U64, deadline: U64)

  predicate Fresh(s: GuardianState, c: RotationContext, now: U64) {
    && c.protocolVersion == PROTOCOL_VERSION_V3
    && c.configRef.configId == s.predecessor.body.configRef.configId
    && c.issuedAt <= now < c.expiry
    && |c.recipientKey| == XWING_PUBLIC_KEY_LEN
  }

  function RoutesOf(roster: seq<GuardianRoute>, key: Key): seq<GuardianRoute> {
    if roster == [] then []
    else (if roster[0].guardianKey == key then [roster[0]] else []) + RoutesOf(roster[1..], key)
  }

  /** This guardian appears exactly once in the roster. */
  predicate Routed(s: GuardianState, roster: seq<GuardianRoute>) {
    |RoutesOf(roster, s.key)| == 1
  }

  predicate Participates(s: GuardianState, plan: RotationPlan) {
    Routed(s, plan.oldRoster) || Routed(s, plan.newRoster)
  }

  /** The session of exactly this plan, if it is open. */
  predicate HasSession(s: GuardianState, plan: RotationPlan) {
    && PlanEncodes(plan)
    && plan.context.rotationId in s.sessions
    && var session := s.sessions[plan.context.rotationId];
    && session.planHash == Of(plan)
    && session.machine.rotationId == plan.context.rotationId
    && session.machine.planHash == Of(plan)
    && session.machine.predecessor == plan.predecessor
    && session.machine.successor == plan.successor
    && !session.cancelled
  }

  /** `keysMatch` is the verdict on the session transport keys of this guardian's routes. */
  predicate BeginRotationAdmitted(s: GuardianState, plan: RotationPlan, begin: BeginCertificate, keysMatch: bool, wall: U64) {
    && SignerLocks.BeginValid(begin, plan, s.predecessor, wall)
    && Participates(s, plan)
    && keysMatch
    && plan.context.rotationId !in s.desk.store.tombstones
    && (plan.context.rotationId in s.sessions ==>
          && s.sessions[plan.context.rotationId].planHash == Of(plan)
          && s.sessions[plan.context.rotationId].beginHash == Of(begin))
  }

  function BeginRotationNext(s: GuardianState, plan: RotationPlan, begin: BeginCertificate, now: U64, demo: bool): GuardianState {
    if plan.context.rotationId in s.sessions then s
    else
      var delay: U64 := if demo && plan.minimumDelaySecs > 2 then 2 else plan.minimumDelaySecs;
      s.(sessions := s.sessions[plan.context.rotationId :=
           Session(BegunMachine(plan, now, delay), Of(plan), Of(begin), SatAdd(now, delay), false)])
  }

  /** The owner's signed cancellation of exactly this plan, by a participant. */
  predicate CancelAuthentic(s: GuardianState, plan: RotationPlan, c: OwnerCancelCertificate, wall: U64) {
    && PlanValid(plan, s.predecessor, wall)
    && c.body.context == plan.context && c.body.planHash == Of(plan)
    && c.body.ownerCancelKey == s.predecessor.body.ownerCancelKey
    && |c.body.responseKey| == XWING_PUBLIC_KEY_LEN
    && Verify(c.body.ownerCancelKey, OwnerCancelMessage(c.body), c.signature)
    && Participates(s, plan)
  }

  /** Whether the rotation may still be cancelled here: not finished otherwise, and its
      machine, if any, has not passed activation. */
  predicate Cancellable(s: GuardianState, plan: RotationPlan) {
    var r := plan.context.rotationId;
    if r in s.desk.store.tombstones then
      s.desk.store.tombstones[r].planHash == Of(plan) && s.desk.store.tombstones[r].outcome == Aborted
    else
      r in s.sessions && !s.sessions[r].cancelled ==> GivenUp(s.sessions[r].machine).Some?
  }

  /** The session closed by a cancellation, before the store is asked. */
  function SessionsCancelled(s: GuardianState, r: Id32): map<Id32, Session> {
    if r in s.desk.store.tombstones || r !in s.sessions then s.sessions
    else
      var session := s.sessions[r];
      var machine := if session.cancelled then Some(session.machine) else GivenUp(session.machine);
      if machine.None? then s.sessions else s.sessions[r := session.(machine := machine.value, cancelled := true)]
  }

  predicate CancelRotationReaches(s: GuardianState, plan: RotationPlan, c: OwnerCancelCertificate, wall: U64) {
    CancelAuthentic(s, plan, c, wall) && Cancellable(s, plan)
  }

  /** Who gets an ack: a guardian with authority, or one that was to receive it. */
  predicate CanAckCancel(s: GuardianState, plan: RotationPlan) {
    s.desk.store.active.Some? || Routed(s, plan.newRoster)
  }

  /** A store conflict refuses the cancellation, but the session stays closed. */
  function CancelRotationNext(s: GuardianState, plan: RotationPlan): GuardianState
    requires ActiveMatches(s.desk.store)
  {
    var r, op := plan.context.rotationId, GuardianEpochs.Abort(plan.context.rotationId, Of(plan));
    if Refusal(s.desk.store, op).None?
    then s.(desk := s.desk.(store := Applied(s.desk.store, op)), sessions := s.sessions - {r})
    else s.(sessions := SessionsCancelled(s, r))
  }

  predicate AbortRotationReaches(s: GuardianState, plan: RotationPlan, c: AbortCertificate, wall: U64) {
    && SignerLocks.AbortValid(c, plan, s.predecessor, wall)
    && HasSession(s, plan)
    && GivenUp(s.sessions[plan.context.rotationId].machine).Some?
  }

  function AbortRotationNext(s: GuardianState, plan: RotationPlan): GuardianState
    requires ActiveMatches(s.desk.store)
    requires plan.context.rotationId in s.sessions && GivenUp(s.sessions[plan.context.rotationId].machine).Some?
  {
    var r, op := plan.context.rotationId, GuardianEpochs.Abort(plan.context.rotationId, Of(plan));
    if Refusal(s.desk.store, op).None?
    then s.(desk := s.desk.(store := Applied(s.desk.store, op)), sessions := s.sessions - {r})
    else s.(sessions := s.sessions[r := s.sessions[r].(machine := GivenUp(s.sessions[r].machine).value)])
  }

  /** The first handover round of an open session: its delay must have run. */
  function ReleaseRotationNext(s: GuardianState, plan: RotationPlan, now: U64): GuardianState {
    if !HasSession(s, plan) then s
    else
      var session := s.sessions[plan.context.rotationId];
      var machine := Released(session.machine, now);
      if machine.None? then s
      else s.(sessions := s.sessions[plan.context.rotationId := session.(machine := machine.value)])
  }

  /** A durable successor record for an open session. `stagedFits` is the verdict on the
      material staged in the session: leaf, Merkle position, slot and custody. */
  predicate PrepareReaches(s: GuardianState, plan: RotationPlan, record: GuardianRecord, stagedFits: bool) {
    && stagedFits
    && Routed(s, plan.newRoster)
    && HasSession(s, plan)
    && record.configRef == plan.successor
  }

  function PrepareNext(s: GuardianState, op: StoreOp): GuardianState
    requires ActiveMatches(s.desk.store)
  {
    s.(desk := s.desk.(store := Step(s.desk.store, op)))
  }

  // ---- Activation ----------------------------------------------------------------

  predicate CapsuleFitsPlan(s: GuardianState, plan: RotationPlan, capsule: Capsule) {
    && PlanEncodes(plan)
    && capsule.activationQc.Some?
    && capsule.body.configRef == plan.successor
    && capsule.body.predecessorHash == s.predecessor.hash
    && capsule.body.fragmentRoot == s.predecessor.body.fragmentRoot
    && capsule.body.guardianCount == |plan.newRoster|
    && capsule.body.guardianThreshold == plan.newGuardianThreshold
    && capsule.body.dpssSuite == plan.dpssSuite
    && capsule.activationQc.value.rotationId == plan.context.rotationId
  }

  predicate PreparedFitsCapsule(s: GuardianState, plan: RotationPlan, capsule: Capsule) {
    Routed(s, plan.newRoster) ==>
      && s.desk.store.prepared.Some?
      && s.desk.store.prepared.value.record.configRef == capsule.body.configRef
      && s.desk.store.prepared.value.record.material == capsule.body.material
  }

  /** Everything checked before the session's machine moves. */
  predicate ActivationReaches(s: GuardianState, plan: RotationPlan, capsule: Capsule) {
    && ActivatedCapsule(s.card, capsule)
    && CapsuleFitsPlan(s, plan, capsule)
    && PreparedFitsCapsule(s, plan, capsule)
    && HasSession(s, plan)
    && MachineReady(s.sessions[plan.context.rotationId])
  }

  /** The machine can run to activation: the delay is inferred to have passed, since a
      witnessed capsule could not exist before. */
  predicate MachineReady(session: Session) {
    Released(session.machine, session.notBefore).Some? && !session.machine.tombstoned
  }

  /** The store mutation an activation asks for. */
  function EpochChange(s: GuardianState, plan: RotationPlan, capsule: Capsule, deadline: U64): StoreOp
    requires capsule.activationQc.Some?
  {
    var r, qc := plan.context.rotationId, capsule.activationQc.value;
    var pendingIds := LiveFor(s.desk.recoveries, s.predecessor.body.configRef);
    if Routed(s, plan.newRoster)
    then GuardianEpochs.Activate(r, Of(plan), qc, Of(qc), deadline, pendingIds)
    else ObserveReplacement(r, Of(plan), qc, Of(qc), deadline, pendingIds)
  }

  function ActivationNext(s: GuardianState, plan: RotationPlan, capsule: Capsule, deadline: U64): GuardianState
    requires ActiveMatches(s.desk.store) && capsule.activationQc.Some?
    requires plan.context.rotationId in s.sessions && MachineReady(s.sessions[plan.context.rotationId])
  {
    var r, op := plan.context.rotationId, EpochChange(s, plan, capsule, deadline);
    if Refusal(s.desk.store, op).None?
    then s.(desk := s.desk.(store := Applied(s.desk.store, op)), predecessor := capsule, sessions := s.sessions - {r})
    else
      var session := s.sessions[r];
      var machine := Released(session.machine, session.notBefore).value.(stage := RotationStage.Active, drainDeadline := Some(deadline));
      s.(sessions := s.sessions[r := session.(machine := machine)])
  }

  /** `now` comes with the request: the guardian does not consult its own clock. */
  predicate RetireReaches(s: GuardianState, notice: RetirementNotice, now: U64) {
    && s.desk.store.activationQc.Some?
    && notice.qcHash == Of(s.desk.store.activationQc.value)
    && notice.epoch == s.desk.store.activationQc.value.predecessorEpoch
    && notice.deadline <= now
    && notice.epoch in s.desk.store.draining
  }

  function RetireNext(s: GuardianState, notice: RetirementNotice, now: U64): GuardianState
    requires ActiveMatches(s.desk.store)
  {
    s.(desk := s.desk.(store := Step(s.desk.store, GuardianEpochs.Retire(notice.epoch, now))))
  }

  // ---- Preservation --------------------------------------------------------------

  lemma CertifiedSuccessorDiffers(capsule: Capsule, predecessor: Capsule)
    requires capsule.hash == BodyHash(capsule.body) && capsule.body.predecessorHash == predecessor.hash
    ensures Depth(predecessor.hash) < Depth(capsule.hash)
  {
  }

  lemma PrepareKeepsGuardian(s: GuardianState, op: StoreOp)
    requires ValidGuardian(s) && op.Prepare?
    ensures ValidGuardian(PrepareNext(s, op))
  {
    StepKeepsValid(s.desk.store, op);
  }

  lemma RetireKeepsGuardian(s: GuardianState, notice: RetirementNotice, now: U64)
    requires ValidGuardian(s)
    ensures ValidGuardian(RetireNext(s, notice, now))
  {
    StepKeepsValid(s.desk.store, GuardianEpochs.Retire(notice.epoch, now));
  }

  lemma CancelRotationKeeps(s: GuardianState, plan: RotationPlan)
    requires ValidGuardian(s) && Cancellable(s, plan)
    ensures ValidGuardian(CancelRotationNext(s, plan))
  {
    StepKeepsValid(s.desk.store, GuardianEpochs.Abort(plan.context.rotationId, Of(plan)));
  }

  lemma AbortRotationKeeps(s: GuardianState, plan: RotationPlan)
    requires ValidGuardian(s)
    requires plan.context.rotationId in s.sessions && GivenUp(s.sessions[plan.context.rotationId].machine).Some?
    ensures ValidGuardian(AbortRotationNext(s, plan))
  {
    StepKeepsValid(s.desk.store, GuardianEpochs.Abort(plan.context.rotationId, Of(plan)));
  }

  lemma BeginRotationKeeps(s: GuardianState, plan: RotationPlan, begin: BeginCertificate, now: U64, demo: bool)
    requires ValidGuardian(s) && plan.context.rotationId !in s.desk.store.tombstones
    ensures ValidGuardian(BeginRotationNext(s, plan, begin, now, demo))
  {
  }

  /** What an accepted activation rests on. */
  lemma ActivationFacts(s: GuardianState, plan: RotationPlan, capsule: Capsule)
    requires ActivationReaches(s, plan, capsule)
    ensures capsule.hash == BodyHash(capsule.body) && capsule.activationQc.Some?
    ensures capsule.activationQc.value.successorHash == capsule.hash
    ensures capsule.activationQc.value.predecessorHash == capsule.body.predecessorHash == s.predecessor.hash
    ensures capsule.activationQc.value.rotationId == plan.context.rotationId
    ensures Routed(s, plan.newRoster) ==>
              s.desk.store.prepared.Some? && s.desk.store.prepared.value.record.configRef == capsule.body.configRef
  {
  }

  lemma ActivationKeeps(s: GuardianState, plan: RotationPlan, capsule: Capsule, deadline: U64)
    requires ValidGuardian(s) && ActivationReaches(s, plan, capsule)
    ensures ValidGuardian(ActivationNext(s, plan, capsule, deadline))
  {
    ActivationFacts(s, plan, capsule);
    ChangeKeeps(s, plan, capsule, deadline);
  }

  lemma ChangeKeeps(s: GuardianState, plan: RotationPlan, capsule: Capsule, deadline: U64)
    requires ValidGuardian(s)
    requires plan.context.rotationId in s.sessions && MachineReady(s.sessions[plan.context.rotationId])
    requires capsule.hash == BodyHash(capsule.body) && capsule.activationQc.Some?
    requires capsule.activationQc.value.successorHash == capsule.hash
    requires capsule.activationQc.value.predecessorHash == capsule.body.predecessorHash == s.predecessor.hash
    requires Routed(s, plan.newRoster) ==>
              s.desk.store.prepared.Some? && s.desk.store.prepared.value.record.configRef == capsule.body.configRef
    ensures ValidGuardian(ActivationNext(s, plan, capsule, deadline))
  {
    StepKeepsValid(s.desk.store, EpochChange(s, plan, capsule, deadline));
    CertifiedSuccessorDiffers(capsule, s.predecessor);
  }

  lemma ChangeHandsOver(s: GuardianState, plan: RotationPlan, capsule: Capsule, deadline: U64)
    requires ValidGuardian(s) && capsule.activationQc.Some?
    requires Refusal(s.desk.store, EpochChange(s, plan, capsule, deadline)).None?
    ensures HandsOver(s.desk, EpochChange(s, plan, capsule, deadline))
  {
  }

  lemma ReleaseRotationKeeps(s: GuardianState, plan: RotationPlan, now: U64)
    requires ValidGuardian(s)
    ensures ValidGuardian(ReleaseRotationNext(s, plan, now))
  {
  }

  lemma ReleaseKeepsGuardian(s: GuardianState, q: RecoveryRequest)
    requires ValidGuardian(s) && q.requestId in s.desk.recoveries
    ensures ValidGuardian(s.(desk := ReleaseNext(s.desk, q)))
  {
    ReleaseKeepsStore(s.desk, q);
  }
}
