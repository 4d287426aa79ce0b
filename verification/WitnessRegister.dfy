/** The durable register of one configuration witness: the highest stored epoch and
    one locked child per predecessor capsule. */
module WitnessRegister {
  import opened Foundations
  import opened EpochTypes

  /** The register's fields as one value. */
  datatype RegisterState = RegisterState(
    configId: Id32,
    highestEpoch: U64,
    highestHash: CapsuleHash,
    locks: map<CapsuleHash, CapsuleHash>,
    seenNonces: set<Id32>)

  class WitnessEpochStore {
    var configId: Id32
    var highestEpoch: U64
    var highestHash: CapsuleHash
    var locks: map<CapsuleHash, CapsuleHash>
    var seenNonces: set<Id32>

    ghost function State(): RegisterState
      reads this
    {
      RegisterState(configId, highestEpoch, highestHash, locks, seenNonces)
    }

    constructor (configRef: ConfigRef, capsuleHash: CapsuleHash)
      ensures State() == RegisterState(configRef.configId, configRef.guardianEpoch, capsuleHash, map[], {})
    {
      configId := configRef.configId;
      highestEpoch := configRef.guardianEpoch;
      highestHash := capsuleHash;
      locks := map[];
      seenNonces := {};
    }

    /** Locks one child under its predecessor and moves the register to it. A repeat of
        the locked child succeeds without effect; a sibling is refused for ever. */
    method PersistSuccessorBeforeAck(predecessor: ConfigRef, predecessorHash: CapsuleHash,
                                     successor: ConfigRef, successorHash: CapsuleHash)
      returns (r: Result<(), StorageError>)
      modifies this
      ensures r.Ok? <==>
              && successor.IsDirectSuccessorOf(predecessor)
              && (if predecessorHash in old(locks)
                  then old(locks)[predecessorHash] == successorHash
                  else predecessor.configId == old(configId)
                       && predecessor.guardianEpoch == old(highestEpoch)
                       && predecessorHash == old(highestHash))
      ensures r == Err(Conflict) <==>
              && successor.IsDirectSuccessorOf(predecessor)
              && predecessorHash in old(locks) && old(locks)[predecessorHash] != successorHash
      ensures r.Err? || predecessorHash in old(locks) ==> State() == old(State())
      ensures r.Ok? && predecessorHash !in old(locks) ==>
                State() == old(State()).(locks := old(locks)[predecessorHash := successorHash],
                                         highestEpoch := successor.guardianEpoch,
                                         highestHash := successorHash)
    {
      if !successor.IsDirectSuccessorOf(predecessor) {
        return Err(InvalidEpoch);
      }
      if predecessorHash in locks {
        if locks[predecessorHash] == successorHash {
          return Ok(());
        }
        return Err(Conflict);
      }
      if predecessor.configId != configId || predecessor.guardianEpoch != highestEpoch || predecessorHash != highestHash {
        return Err(InvalidEpoch);
      }
      locks := locks[predecessorHash := successorHash];
      highestEpoch := successor.guardianEpoch;
      highestHash := successorHash;
      return Ok(());
    }

    /** Gives up a child that is still the register's head and returns to its predecessor. */
    method CancelPendingSuccessor(predecessorEpoch: U64, predecessorHash: CapsuleHash,
                                  successorEpoch: U64, successorHash: CapsuleHash)
      returns (r: Result<(), StorageError>)
      modifies this
      ensures r.Ok? <==>
              && successorEpoch == SatAdd(predecessorEpoch, 1)
              && old(highestEpoch) == successorEpoch
              && old(highestHash) == successorHash
              && predecessorHash in old(locks) && old(locks)[predecessorHash] == successorHash
      ensures r.Err? ==> r.error == Conflict && State() == old(State())
      ensures r.Ok? ==>
                State() == old(State()).(locks := old(locks) - {predecessorHash},
                                         highestEpoch := predecessorEpoch,
                                         highestHash := predecessorHash)
    {
      if successorEpoch != SatAdd(predecessorEpoch, 1)
         || highestEpoch != successorEpoch
         || highestHash != successorHash
         || predecessorHash !in locks
         || locks[predecessorHash] != successorHash
      {
        return Err(Conflict);
      }
      locks := locks - {predecessorHash};
      highestEpoch := predecessorEpoch;
      highestHash := predecessorHash;
      return Ok(());
    }

    method ObserveReadNonce(nonce: Id32) returns (r: Result<(), StorageError>)
      modifies this
      ensures r == if nonce in old(seenNonces) then Err(Replay) else Ok(())
      ensures State() == old(State()).(seenNonces := old(seenNonces) + {nonce})
    {
      if nonce in seenNonces {
        return Err(Replay);
      }
      seenNonces := seenNonces + {nonce};
      return Ok(());
    }
  }
}
