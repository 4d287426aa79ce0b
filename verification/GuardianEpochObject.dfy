/** The guardian's epoch store as the object its handlers update in place. Every method
    either performs the whole transition or leaves the object exactly as it was. */
module GuardianEpochObject {
  import opened Foundations
  import opened EpochTypes
  import opened GuardianEpochs

  class GuardianEpochStore {
    var configId: Id32
    var expected: ConfigRef
    var expectedHash: CapsuleHash
    var active: Option<GuardianRecord>
    var activeHash: Option<CapsuleHash>
    var prepared: Option<PreparedGuardian>
    var draining: map<U64, DrainingGuardian>
    var journal: Option<DpssJournal>
    var tombstones: map<Id32, RotationTombstone>
    var activationQc: Option<ActivationQc>
    var nextGeneration: U64

    ghost function State(): StoreState
      reads this
    {
      StoreState(configId, expected, expectedHash, active, activeHash, prepared, draining,
                 journal, tombstones, activationQc, nextGeneration)
    }

    ghost predicate Valid()
      reads this
    {
      ValidStore(State())
    }

    constructor (active: GuardianRecord, activeHash: CapsuleHash)
      ensures Valid() && State() == NewStore(active, activeHash)
    {
      configId, expected, expectedHash := active.configRef.configId, active.configRef, activeHash;
      this.active, this.activeHash := Some(active.(stage := ActiveEpoch)), Some(activeHash);
      prepared, draining, journal, tombstones, activationQc, nextGeneration := None, map[], None, map[], None, 1;
    }

    constructor Candidate(predecessor: ConfigRef, predecessorHash: CapsuleHash)
      ensures Valid() && State() == NewCandidate(predecessor, predecessorHash)
    {
      configId, expected, expectedHash := predecessor.configId, predecessor, predecessorHash;
      active, activeHash := None, None;
      prepared, draining, journal, tombstones, activationQc, nextGeneration := None, map[], None, map[], None, 1;
    }

    method PrepareSuccessor(rotationId: Id32, planHash: PlanHash, record: GuardianRecord, handover: DpssJournal)
      returns (r: Result<U64, StorageError>)
      requires Valid()
      modifies this
      ensures Valid() && State() == Step(old(State()), Prepare(rotationId, planHash, record, handover))
      ensures var refusal := Refusal(old(State()), Prepare(rotationId, planHash, record, handover));
              r == if refusal.Some? then Err(refusal.value) else Ok(old(nextGeneration))
      ensures r.Ok? ==> r.value > 0
    {
      StepKeepsValid(State(), Prepare(rotationId, planHash, record, handover));
      if rotationId in tombstones {
        return Err(Replay);
      }
      if prepared.Some? {
        return Err(Conflict);
      }
      if !record.configRef.IsDirectSuccessorOf(expected) || record.predecessorHash != expectedHash
         || handover.rotationId != rotationId || handover.planHash != planHash {
        return Err(InvalidEpoch);
      }
      var generation := nextGeneration;
      nextGeneration := SatAdd(nextGeneration, 1);
      prepared := Some(PreparedGuardian(rotationId, planHash, record.(stage := PreparedEpoch), generation));
      journal := Some(handover);
      return Ok(generation);
    }

    /** The generation a prepared successor is acknowledged under. The store never holds a
        prepared successor that is not durable, so `NotDurable` is never the answer. */
    method PreparedAckGeneration(rotationId: Id32, planHash: PlanHash) returns (r: Result<U64, StorageError>)
      requires Valid()
      ensures r.Ok? <==> prepared.Some? && prepared.value.rotationId == rotationId && prepared.value.planHash == planHash
      ensures r.Ok? ==> r.value == prepared.value.generation && 0 < r.value <= nextGeneration
      ensures r.Err? ==> r.error == if prepared.None? then NoPreparedSuccessor else Conflict
    {
      if prepared.None? {
        return Err(NoPreparedSuccessor);
      }
      if prepared.value.rotationId != rotationId || prepared.value.planHash != planHash {
        return Err(Conflict);
      }
      if prepared.value.generation == 0 {
        assert false;
        return Err(NotDurable);
      }
      return Ok(prepared.value.generation);
    }

    method ActivateSuccessor(rotationId: Id32, planHash: PlanHash, qc: ActivationQc, qcHash: Hash<ActivationQc>,
                             deadline: U64, pendingIds: set<Id32>)
      returns (r: Result<(), StorageError>)
      requires Valid()
      modifies this
      ensures Valid() && State() == Step(old(State()), GuardianEpochs.Activate(rotationId, planHash, qc, qcHash, deadline, pendingIds))
      ensures var refusal := Refusal(old(State()), GuardianEpochs.Activate(rotationId, planHash, qc, qcHash, deadline, pendingIds));
              r == if refusal.Some? then Err(refusal.value) else Ok(())
    {
      ghost var before, op := State(), GuardianEpochs.Activate(rotationId, planHash, qc, qcHash, deadline, pendingIds);
      StepKeepsValid(before, op);
      var taken := prepared;
      prepared := None;
      if taken.None? {
        return Err(NoPreparedSuccessor);
      }
      if taken.value.rotationId != rotationId || taken.value.planHash != planHash
         || qc.rotationId != rotationId || qc.predecessorEpoch != expected.guardianEpoch
         || qc.predecessorHash != expectedHash
         || qc.successorEpoch != taken.value.record.configRef.guardianEpoch
      {
        prepared := taken;
        return Err(InvalidEpoch);
      }
      var predecessorHash := expectedHash;
      var former := active;
      active := None;
      if former.Some? {
        var formerHash := activeHash;
        activeHash := None;
        if formerHash.None? {
          assert false;
          return Err(InvalidEpoch);
        }
        var kept := former.value.(stage := DrainingEpoch, drainDeadline := Some(deadline));
        draining := draining[former.value.configRef.guardianEpoch := DrainingGuardian(kept, formerHash.value, deadline, pendingIds)];
      } else if pendingIds != {} {
        prepared := taken;
        return Err(InvalidEpoch);
      }
      var next := taken.value.record.(stage := ActiveEpoch, activationQcHash := Some(qcHash));
      expected, expectedHash := next.configRef, qc.successorHash;
      active, activeHash := Some(next), Some(qc.successorHash);
      activationQc := Some(qc);
      journal := None;
      tombstones := tombstones[rotationId := RotationTombstone(rotationId, planHash, predecessorHash, RotationStage.Active)];
      assert State() == Applied(before, op);
      return Ok(());
    }

    method AbortPrepared(rotationId: Id32, planHash: PlanHash) returns (r: Result<(), StorageError>)
      requires Valid()
      modifies this
      ensures Valid() && State() == Step(old(State()), GuardianEpochs.Abort(rotationId, planHash))
      ensures var refusal := Refusal(old(State()), GuardianEpochs.Abort(rotationId, planHash));
              r == if refusal.Some? then Err(refusal.value) else Ok(())
    {
      StepKeepsValid(State(), GuardianEpochs.Abort(rotationId, planHash));
      if activationQc.Some? && activationQc.value.rotationId == rotationId {
        return Err(AlreadyActivated);
      }
      if prepared.Some? && (prepared.value.rotationId != rotationId || prepared.value.planHash != planHash) {
        return Err(Conflict);
      }
      prepared := None;
      journal := None;
      tombstones := tombstones[rotationId := RotationTombstone(rotationId, planHash, expectedHash, RotationStage.Aborted)];
      return Ok(());
    }

    method ObserveReplacementActivation(rotationId: Id32, planHash: PlanHash, qc: ActivationQc, qcHash: Hash<ActivationQc>,
                                        deadline: U64, pendingIds: set<Id32>)
      returns (r: Result<(), StorageError>)
      requires Valid()
      modifies this
      ensures Valid() && State() == Step(old(State()), ObserveReplacement(rotationId, planHash, qc, qcHash, deadline, pendingIds))
      ensures var refusal := Refusal(old(State()), ObserveReplacement(rotationId, planHash, qc, qcHash, deadline, pendingIds));
              r == if refusal.Some? then Err(refusal.value) else Ok(())
    {
      StepKeepsValid(State(), ObserveReplacement(rotationId, planHash, qc, qcHash, deadline, pendingIds));
      if prepared.Some? || active.None? {
        return Err(Conflict);
      }
      if qc.rotationId != rotationId || qc.predecessorEpoch != expected.guardianEpoch
         || qc.predecessorHash != expectedHash || qc.successorEpoch != SatAdd(expected.guardianEpoch, 1) {
        return Err(InvalidEpoch);
      }
      var former, formerHash := active.value, activeHash;
      active, activeHash := None, None;
      if formerHash.None? {
        assert false;
        return Err(InvalidEpoch);
      }
      var kept := former.(stage := DrainingEpoch, drainDeadline := Some(deadline), activationQcHash := Some(qcHash));
      draining := draining[former.configRef.guardianEpoch := DrainingGuardian(kept, formerHash.value, deadline, pendingIds)];
      activationQc := Some(qc);
      journal := None;
      tombstones := tombstones[rotationId := RotationTombstone(rotationId, planHash, formerHash.value, RotationStage.Draining)];
      return Ok(());
    }

    method FinishDrainingRequest(epoch: U64, requestId: Id32) returns (r: Result<(), StorageError>)
      requires Valid()
      modifies this
      ensures Valid() && State() == Step(old(State()), FinishRequest(epoch, requestId))
      ensures r == if epoch in old(draining) then Ok(()) else Err(NotFound)
    {
      StepKeepsValid(State(), FinishRequest(epoch, requestId));
      if epoch !in draining {
        return Err(NotFound);
      }
      draining := draining[epoch := draining[epoch].(pending := draining[epoch].pending - {requestId})];
      return Ok(());
    }

    method RetireEpoch(epoch: U64, now: U64) returns (r: Result<CapsuleHash, StorageError>)
      requires Valid()
      modifies this
      ensures Valid() && State() == Step(old(State()), GuardianEpochs.Retire(epoch, now))
      ensures var refusal := Refusal(old(State()), GuardianEpochs.Retire(epoch, now));
              r == if refusal.Some? then Err(refusal.value) else Ok(old(draining)[epoch].capsuleHash)
    {
      StepKeepsValid(State(), GuardianEpochs.Retire(epoch, now));
      if epoch !in draining {
        return Err(NotFound);
      }
      if now < draining[epoch].deadline || draining[epoch].pending != {} {
        return Err(NotDurable);
      }
      var tombstone := draining[epoch].capsuleHash;
      draining := draining - {epoch};
      return Ok(tombstone);
    }
  }
}
