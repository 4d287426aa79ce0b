/** One guardian's epoch records as a value: ACTIVE, PREPARED and DRAINING, the journal of
    the running handover, and the tombstones of finished rotations. */
module GuardianEpochs {
  import opened Foundations
  import opened EpochTypes

  datatype EpochStage = PreparedEpoch | ActiveEpoch | DrainingEpoch

  /** A guardian record; `material` stands for everything the store never looks at. */
  datatype GuardianRecord = GuardianRecord(
    configRef: ConfigRef,
    predecessorHash: CapsuleHash,
    stage: EpochStage,
    drainDeadline: Option<U64>,
    activationQcHash: Option<Hash<ActivationQc>>,
    minimumRecoveryDelay: U64,
    material: Id32)

  datatype DpssJournal = DpssJournal(rotationId: Id32, planHash: PlanHash, contents: Id32)

  datatype PreparedGuardian = PreparedGuardian(
    rotationId: Id32,
    planHash: PlanHash,
    record: GuardianRecord,
    generation: U64)

  datatype DrainingGuardian = DrainingGuardian(
    record: GuardianRecord,
    capsuleHash: CapsuleHash,
    deadline: U64,
    pending: set<Id32>)

  datatype RotationTombstone = RotationTombstone(
    rotationId: Id32,
    planHash: PlanHash,
    predecessorHash: CapsuleHash,
    outcome: RotationStage)

  datatype StoreState = StoreState(
    configId: Id32,
    expected: ConfigRef,
    expectedHash: CapsuleHash,
    active: Option<GuardianRecord>,
    activeHash: Option<CapsuleHash>,
    prepared: Option<PreparedGuardian>,
    draining: map<U64, DrainingGuardian>,
    journal: Option<DpssJournal>,
    tombstones: map<Id32, RotationTombstone>,
    activationQc: Option<ActivationQc>,
    nextGeneration: U64)

  // ---- The invariant -------------------------------------------------------------

  ghost predicate ActiveMatches(s: StoreState) {
    && (s.active.Some? <==> s.activeHash.Some?)
    && (s.active.Some? ==>
          && s.active.value.configRef == s.expected
          && s.active.value.stage == ActiveEpoch
          && s.activeHash.value == s.expectedHash)
  }

  ghost predicate PreparedMatches(s: StoreState) {
    && (s.prepared.Some? <==> s.journal.Some?)
    && (s.prepared.Some? ==>
          var p := s.prepared.value;
          && s.journal.value.rotationId == p.rotationId && s.journal.value.planHash == p.planHash
          && p.record.configRef.IsDirectSuccessorOf(s.expected)
          && p.record.predecessorHash == s.expectedHash
          && p.record.stage == PreparedEpoch
          && p.rotationId !in s.tombstones
          && 0 < p.generation <= s.nextGeneration)
  }

  ghost predicate DrainsAt(s: StoreState, e: U64, d: DrainingGuardian) {
    && d.record.configRef.guardianEpoch == e
    && d.record.configRef.configId == s.expected.configId
    && d.record.stage == DrainingEpoch
    && d.record.drainDeadline == Some(d.deadline)
    && e <= s.expected.guardianEpoch
    && (e == s.expected.guardianEpoch ==> s.active.None? || e == U64_MAX)
  }

  ghost predicate ValidStore(s: StoreState) {
    && s.configId == s.expected.configId
    && ActiveMatches(s)
    && PreparedMatches(s)
    && (forall e: U64 :: e in s.draining ==> DrainsAt(s, e, s.draining[e]))
    && (forall r :: r in s.tombstones ==> s.tombstones[r].rotationId == r)
    && (s.activationQc.Some? ==> s.activationQc.value.rotationId in s.tombstones)
    && 0 < s.nextGeneration
  }

  function NewStore(active: GuardianRecord, hash: CapsuleHash): StoreState {
    StoreState(active.configRef.configId, active.configRef, hash, Some(active.(stage := ActiveEpoch)), Some(hash), None, map[], None, map[], None, 1)
  }

  function NewCandidate(predecessor: ConfigRef, hash: CapsuleHash): StoreState {
    StoreState(predecessor.configId, predecessor, hash, None, None, None, map[], None, map[], None, 1)
  }

  // ---- Transitions ---------------------------------------------------------------

  /** A mutation of the store. */
  datatype StoreOp =
    | Prepare(rotationId: Id32, planHash: PlanHash, record: GuardianRecord, journal: DpssJournal)
    | Activate(rotationId: Id32, planHash: PlanHash, qc: ActivationQc, qcHash: Hash<ActivationQc>,
               deadline: U64, pendingIds: set<Id32>)
    | Abort(rotationId: Id32, planHash: PlanHash)
    | ObserveReplacement(rotationId: Id32, planHash: PlanHash, qc: ActivationQc, qcHash: Hash<ActivationQc>,
                         deadline: U64, pendingIds: set<Id32>)
    | FinishRequest(epoch: U64, requestId: Id32)
    | Retire(epoch: U64, now: U64)

  function QcLeavesExpected(s: StoreState, rotationId: Id32, qc: ActivationQc): bool {
    && qc.rotationId == rotationId
    && qc.predecessorEpoch == s.expected.guardianEpoch
    && qc.predecessorHash == s.expectedHash
  }

  /** Why the store refuses a mutation; `None` when it accepts. */
  function Refusal(s: StoreState, op: StoreOp): Option<StorageError> {
    match op
    case Prepare(r, h, record, journal) =>
      if r in s.tombstones then Some(Replay)
      else if s.prepared.Some? then Some(Conflict)
      else if record.configRef.IsDirectSuccessorOf(s.expected) && record.predecessorHash == s.expectedHash
              && journal.rotationId == r && journal.planHash == h
      then None else Some(InvalidEpoch)
    case Activate(r, h, qc, _, _, pendingIds) =>
      if s.prepared.None? then Some(NoPreparedSuccessor)
      else if s.prepared.value.rotationId == r && s.prepared.value.planHash == h
              && QcLeavesExpected(s, r, qc)
              && qc.successorEpoch == s.prepared.value.record.configRef.guardianEpoch
              && (s.active.Some? || pendingIds == {})
      then None else Some(InvalidEpoch)
    case Abort(r, h) =>
      if s.activationQc.Some? && s.activationQc.value.rotationId == r then Some(AlreadyActivated)
      else if s.prepared.Some? && (s.prepared.value.rotationId != r || s.prepared.value.planHash != h) then Some(Conflict)
      else None
    case ObserveReplacement(r, h, qc, _, _, _) =>
      if s.prepared.Some? || s.active.None? then Some(Conflict)
      else if QcLeavesExpected(s, r, qc) && qc.successorEpoch == SatAdd(s.expected.guardianEpoch, 1)
      then None else Some(InvalidEpoch)
    case FinishRequest(e, _) => if e in s.draining then None else Some(NotFound)
    case Retire(e, now) =>
      if e !in s.draining then Some(NotFound)
      else if now < s.draining[e].deadline || s.draining[e].pending != {} then Some(NotDurable)
      else None
  }

  /** The active record as it starts to drain. */
  function Drained(s: StoreState, deadline: U64, qcHash: Option<Hash<ActivationQc>>, pendingIds: set<Id32>): DrainingGuardian
    requires s.active.Some? && s.activeHash.Some?
  {
    var kept := s.active.value.(stage := DrainingEpoch, drainDeadline := Some(deadline));
    DrainingGuardian(if qcHash.Some? then kept.(activationQcHash := qcHash) else kept, s.activeHash.value, deadline, pendingIds)
  }

  function Promoted(s: StoreState, qcHash: Hash<ActivationQc>): GuardianRecord
    requires s.prepared.Some?
  {
    s.prepared.value.record.(stage := ActiveEpoch, activationQcHash := Some(qcHash))
  }

  /** The store after an accepted mutation. */
  function Applied(s: StoreState, op: StoreOp): StoreState
    requires ActiveMatches(s) && Refusal(s, op).None?
  {
    match op
    case Prepare(r, h, record, journal) =>
      s.(prepared := Some(PreparedGuardian(r, h, record.(stage := PreparedEpoch), s.nextGeneration)),
         journal := Some(journal),
         nextGeneration := SatAdd(s.nextGeneration, 1))
    case Activate(r, h, qc, qcHash, deadline, pendingIds) =>
      var next := Promoted(s, qcHash);
      s.(expected := next.configRef,
         expectedHash := qc.successorHash,
         active := Some(next),
         activeHash := Some(qc.successorHash),
         prepared := None,
         journal := None,
         activationQc := Some(qc),
         draining :=
           if s.active.Some?
           then s.draining[s.active.value.configRef.guardianEpoch := Drained(s, deadline, None, pendingIds)]
           else s.draining,
         tombstones := s.tombstones[r := RotationTombstone(r, h, s.expectedHash, Active)])
    case Abort(r, h) =>
      s.(prepared := None,
         journal := None,
         tombstones := s.tombstones[r := RotationTombstone(r, h, s.expectedHash, Aborted)])
    case ObserveReplacement(r, h, qc, qcHash, deadline, pendingIds) =>
      s.(active := None,
         activeHash := None,
         journal := None,
         activationQc := Some(qc),
         draining := s.draining[s.active.value.configRef.guardianEpoch := Drained(s, deadline, Some(qcHash), pendingIds)],
         tombstones := s.tombstones[r := RotationTombstone(r, h, s.activeHash.value, Draining)])
    case FinishRequest(e, id) =>
      s.(draining := s.draining[e := s.draining[e].(pending := s.draining[e].pending - {id})])
    case Retire(e, _) => s.(draining := s.draining - {e})
  }

  /** The store after any mutation: a refused one changes nothing. */
  function Step(s: StoreState, op: StoreOp): StoreState
    requires ActiveMatches(s)
  {
    if Refusal(s, op).None? then Applied(s, op) else s
  }

  lemma NewStoreIsValid(active: GuardianRecord, hash: CapsuleHash, predecessor: ConfigRef)
    ensures ValidStore(NewStore(active, hash)) && ValidStore(NewCandidate(predecessor, hash))
  {
  }

  lemma PrepareKeeps(s: StoreState, op: StoreOp)
    requires ValidStore(s) && op.Prepare? && Refusal(s, op).None?
    ensures ValidStore(Applied(s, op))
  {
    forall e: U64 | e in s.draining
      ensures DrainsAt(Applied(s, op), e, s.draining[e])
    {
      assert DrainsAt(s, e, s.draining[e]);
    }
  }

  lemma ActivateKeeps(s: StoreState, op: StoreOp)
    requires ValidStore(s) && op.Activate? && Refusal(s, op).None?
    ensures ValidStore(Applied(s, op))
  {
    var s' := Applied(s, op);
    forall e: U64 | e in s'.draining
      ensures DrainsAt(s', e, s'.draining[e])
    {
      if s.active.None? || e != s.expected.guardianEpoch {
        assert DrainsAt(s, e, s.draining[e]);
      }
    }
  }

  lemma ObserveKeeps(s: StoreState, op: StoreOp)
    requires ValidStore(s) && op.ObserveReplacement? && Refusal(s, op).None?
    ensures ValidStore(Applied(s, op))
  {
    var s' := Applied(s, op);
    forall e: U64 | e in s'.draining
      ensures DrainsAt(s', e, s'.draining[e])
    {
      if e != s.expected.guardianEpoch {
        assert DrainsAt(s, e, s.draining[e]);
      }
    }
  }

  lemma OtherKeeps(s: StoreState, op: StoreOp)
    requires ValidStore(s) && (op.Abort? || op.FinishRequest? || op.Retire?) && Refusal(s, op).None?
    ensures ValidStore(Applied(s, op))
  {
    var s' := Applied(s, op);
    forall e: U64 | e in s'.draining
      ensures DrainsAt(s', e, s'.draining[e])
    {
      assert DrainsAt(s, e, s.draining[e]);
    }
  }

  lemma StepKeepsValid(s: StoreState, op: StoreOp)
    requires ValidStore(s)
    ensures ValidStore(Step(s, op))
  {
    if Refusal(s, op).None? {
      match op
      case Prepare(_, _, _, _) => PrepareKeeps(s, op);
      case Activate(_, _, _, _, _, _) => ActivateKeeps(s, op);
      case ObserveReplacement(_, _, _, _, _, _) => ObserveKeeps(s, op);
      case Abort(_, _) => OtherKeeps(s, op);
      case FinishRequest(_, _) => OtherKeeps(s, op);
      case Retire(_, _) => OtherKeeps(s, op);
    }
  }
}
