/** The I/O-free witness machine: a register without cancellation, whole runs of it, and how
    it relates to the durable register. */
module EpochWitness {
  import opened Foundations
  import opened EpochTypes
  import opened WitnessRegister

  datatype WitnessState = WitnessState(
    configId: Id32,
    highestEpoch: U64,
    highestHash: CapsuleHash,
    locks: map<CapsuleHash, CapsuleHash>,
    seenNonces: set<Id32>,
    ambiguous: bool)

  datatype WitnessOp =
    | Accept(predecessor: ConfigRef, predecessorHash: CapsuleHash, successor: ConfigRef, successorHash: CapsuleHash, valid: bool)
    | FreshRead(configId: Id32, nonce: Id32, issuedAt: U64, expiry: U64, now: U64)
    | Conflict(epoch: U64, hash: CapsuleHash)

  datatype Error = FailedClosed | BadEvidence | NotSuccessor | PredecessorLocked | StaleRead

  function Refused(s: WitnessState, op: WitnessOp): Option<Error> {
    match op
    case Accept(p, ph, q, qh, valid) =>
      if s.ambiguous then Some(FailedClosed)
      else if !valid then Some(BadEvidence)
      else if p.configId != s.configId || p.guardianEpoch != s.highestEpoch || ph != s.highestHash || !q.IsDirectSuccessorOf(p)
      then Some(NotSuccessor)
      else if ph in s.locks && s.locks[ph] != qh then Some(PredecessorLocked)
      else None
    case FreshRead(configId, nonce, issuedAt, expiry, now) =>
      if s.ambiguous then Some(FailedClosed)
      else if configId != s.configId || issuedAt > now || now >= expiry || nonce in s.seenNonces then Some(StaleRead)
      else None
    case Conflict(epoch, hash) =>
      if epoch == s.highestEpoch && hash != s.highestHash then None else Some(BadEvidence)
  }

  function Stepped(s: WitnessState, op: WitnessOp): WitnessState {
    if Refused(s, op).Some? then s
    else
      match op
      case Accept(_, ph, q, qh, _) =>
        if ph in s.locks then s
        else s.(locks := s.locks[ph := qh], highestEpoch := q.guardianEpoch, highestHash := qh)
      case FreshRead(_, nonce, _, _, _) => s.(seenNonces := s.seenNonces + {nonce})
      case Conflict(_, _) => s.(ambiguous := true)
  }

  class EpochWitnessMachine {
    var configId: Id32
    var highestEpoch: U64
    var highestHash: CapsuleHash
    var locks: map<CapsuleHash, CapsuleHash>
    var seenNonces: set<Id32>
    var ambiguous: bool

    ghost function State(): WitnessState
      reads this
    {
      WitnessState(configId, highestEpoch, highestHash, locks, seenNonces, ambiguous)
    }

    constructor (configId: Id32, epoch: U64, hash: CapsuleHash)
      ensures State() == WitnessState(configId, epoch, hash, map[], {}, false)
    {
      this.configId, highestEpoch, highestHash, locks, seenNonces, ambiguous := configId, epoch, hash, map[], {}, false;
    }

    method AcceptSuccessor(predecessor: ConfigRef, predecessorHash: CapsuleHash,
                           successor: ConfigRef, successorHash: CapsuleHash, valid: bool)
      returns (r: Result<(), Error>)
      modifies this
      ensures var op := Accept(predecessor, predecessorHash, successor, successorHash, valid);
              && State() == Stepped(old(State()), op)
              && r == (if Refused(old(State()), op).Some? then Err(Refused(old(State()), op).value) else Ok(()))
    {
      if ambiguous {
        return Err(FailedClosed);
      }
      if !valid {
        return Err(BadEvidence);
      }
      if predecessor.configId != configId || predecessor.guardianEpoch != highestEpoch
         || predecessorHash != highestHash || !successor.IsDirectSuccessorOf(predecessor) {
        return Err(NotSuccessor);
      }
      if predecessorHash in locks {
        return if locks[predecessorHash] == successorHash then Ok(()) else Err(PredecessorLocked);
      }
      locks := locks[predecessorHash := successorHash];
      highestEpoch := successor.guardianEpoch;
      highestHash := successorHash;
      return Ok(());
    }

    /** The nonce is used up only by a read that is answered. */
    method Read(forConfig: Id32, nonce: Id32, issuedAt: U64, expiry: U64, now: U64)
      returns (r: Result<(U64, CapsuleHash), Error>)
      modifies this
      ensures var op := FreshRead(forConfig, nonce, issuedAt, expiry, now);
              && State() == Stepped(old(State()), op)
              && r == (if Refused(old(State()), op).Some? then Err(Refused(old(State()), op).value)
                       else Ok((old(highestEpoch), old(highestHash))))
    {
      if ambiguous {
        return Err(FailedClosed);
      }
      if forConfig != configId || issuedAt > now || now >= expiry || nonce in seenNonces {
        return Err(StaleRead);
      }
      seenNonces := seenNonces + {nonce};
      return Ok((highestEpoch, highestHash));
    }

    method ObserveSameEpochConflict(epoch: U64, hash: CapsuleHash) returns (r: Result<(), Error>)
      modifies this
      ensures State() == Stepped(old(State()), WitnessOp.Conflict(epoch, hash))
      ensures r.Ok? <==> Refused(old(State()), WitnessOp.Conflict(epoch, hash)).None?
    {
      if epoch == highestEpoch && hash != highestHash {
        ambiguous := true;
        return Ok(());
      }
      return Err(BadEvidence);
    }
  }

  // ---- Runs ----------------------------------------------------------------------

  datatype Run = Run(states: seq<WitnessState>, ops: seq<WitnessOp>)
  {
    ghost predicate Follows(i: nat)
      requires |states| == |ops| + 1
    {
      i < |ops| ==> states[i + 1] == Stepped(states[i], ops[i])
    }

    ghost predicate Valid() {
      |states| == |ops| + 1 && forall i: nat {:trigger Follows(i)} :: Follows(i)
    }

    predicate Accepted(i: nat)
      requires i < |ops| <= |states|
    {
      Refused(states[i], ops[i]).None?
    }
  }

  /** Locks are for ever, reported epochs do not fall, and ambiguity does not go away. */
  ghost predicate Hardens(s: WitnessState, t: WitnessState) {
    && s.locks.Keys <= t.locks.Keys
    && (forall k :: k in s.locks ==> t.locks[k] == s.locks[k])
    && s.highestEpoch <= t.highestEpoch
    && (s.ambiguous ==> t.ambiguous)
  }

  lemma {:induction false} RunHardens(run: Run, i: nat, j: nat)
    requires run.Valid() && i <= j <= |run.ops|
    ensures Hardens(run.states[i], run.states[j])
    decreases j
  {
    if i < j {
      RunHardens(run, i, j - 1);
      assert run.Follows(j - 1);
      assert Hardens(run.states[j - 1], run.states[j]);
    }
  }

  /** One child per predecessor, in every run, from any state. */
  lemma OneChild(run: Run, i: nat, j: nat)
    requires run.Valid() && i < |run.ops| && j < |run.ops| && run.ops[i].Accept? && run.ops[j].Accept?
    requires run.Accepted(i) && run.Accepted(j) && run.ops[i].predecessorHash == run.ops[j].predecessorHash
    ensures run.ops[i].successorHash == run.ops[j].successorHash
  {
    assert run.Follows(i) && run.Follows(j);
    if i < j {
      RunHardens(run, i + 1, j);
      assert run.ops[i].predecessorHash in run.states[i + 1].locks.Keys;
    } else if j < i {
      RunHardens(run, j + 1, i);
      assert run.ops[j].predecessorHash in run.states[j + 1].locks.Keys;
    }
  }

  /** A later answered read never reports a lower epoch, and after a same-epoch conflict
      there are no answers at all. */
  lemma ReadsDoNotRollBack(run: Run, i: nat, j: nat)
    requires run.Valid() && i < j < |run.ops| && run.ops[j].FreshRead? && run.Accepted(j)
    ensures run.states[i].highestEpoch <= run.states[j].highestEpoch
    ensures !(run.ops[i].Conflict? && run.Accepted(i))
  {
    RunHardens(run, i, j);
    RunHardens(run, i + 1, j);
    assert run.Follows(i);
  }

  // ---- Against the durable register ----------------------------------------------

  ghost predicate InStep(m: WitnessState, r: RegisterState) {
    !m.ambiguous && m.configId == r.configId && m.highestEpoch == r.highestEpoch && m.highestHash == r.highestHash
    && m.locks == r.locks
  }

  predicate AtHead(s: WitnessState, predecessor: ConfigRef, predecessorHash: CapsuleHash) {
    predecessor.configId == s.configId && predecessor.guardianEpoch == s.highestEpoch && predecessorHash == s.highestHash
  }

  /** Driven with the same certified successor, the machine and the durable register move
      alike whenever the machine accepts. The register alone also takes the repeat of a
      locked child whose predecessor is no longer the head. */
  method CoSimulate(machine: EpochWitnessMachine, register: WitnessEpochStore, predecessor: ConfigRef,
                    predecessorHash: CapsuleHash, successor: ConfigRef, successorHash: CapsuleHash)
    returns (accepted: bool, persisted: bool)
    requires InStep(machine.State(), register.State())
    modifies machine, register
    ensures accepted ==> persisted
    ensures persisted && !accepted <==>
            && successor.IsDirectSuccessorOf(predecessor)
            && predecessorHash in old(register.locks) && old(register.locks)[predecessorHash] == successorHash
            && !AtHead(old(machine.State()), predecessor, predecessorHash)
    ensures InStep(machine.State(), register.State())
  {
    var a := machine.AcceptSuccessor(predecessor, predecessorHash, successor, successorHash, true);
    var p := register.PersistSuccessorBeforeAck(predecessor, predecessorHash, successor, successorHash);
    accepted, persisted := a.Ok?, p.Ok?;
  }
}
