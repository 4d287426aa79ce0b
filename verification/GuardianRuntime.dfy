/** The guardian's request handlers, updating the entry and its epoch store in place. */
module GuardianRuntime {
  import opened Foundations
  import opened EpochTypes
  import opened EpochSelection
  import opened RotationPlans
  import opened GuardianEpochs
  import opened GuardianEpochObject
  import opened GuardianRecoveries
  import opened GuardianEntry
  import SignerLocks

  const PRODUCTION_MIN_DELAY_SECS: U64 := 24 * 60 * 60

  class GuardianRotationEntry {
    const card: RecoveryCard
    const key: Key
    const store: GuardianEpochStore
    var predecessor: Capsule
    var recoveries: map<Id32, Recovery>
    var vetoes: map<Id32, Hash<RecoveryRequest>>
    var sessions: map<Id32, Session>

    ghost function State(): GuardianState
      reads this, store
    {
      GuardianState(card, key, predecessor, Desk(store.State(), recoveries, vetoes), sessions)
    }

    ghost predicate Valid()
      reads this, store
    {
      ValidGuardian(State())
    }

    constructor (card: RecoveryCard, key: Key, store: GuardianEpochStore, predecessor: Capsule)
      ensures this.store == store
      ensures State() == GuardianState(card, key, predecessor, Desk(store.State(), map[], map[]), map[])
    {
      this.card, this.key, this.store, this.predecessor := card, key, store, predecessor;
      recoveries, vetoes, sessions := map[], map[], map[];
    }

    // ---- Recoveries --------------------------------------------------------------

    method BeginRecovery(q: RecoveryRequest, quorum: bool, wall: U64, now: U64, boot: string, demo: bool)
      returns (notBefore: Option<U64>)
      requires Valid()
      modifies this
      ensures Valid()
      ensures notBefore.Some? <==> BeginAdmitted(old(State().desk), old(predecessor), q, quorum, wall)
      ensures State() == if notBefore.Some? then old(State()).(desk := BeginNext(old(State().desk), q, wall, now, boot, demo)) else old(State())
      ensures notBefore.Some? ==> q.requestId in recoveries && notBefore.value == recoveries[q.requestId].notBefore
    {
      if store.active.None? || store.active.value.configRef != q.configRef {
        return None;
      }
      if !RequestValid(q, predecessor, predecessor.body.configRef, wall) || !quorum || q.requestId in vetoes {
        return None;
      }
      if q.requestId in recoveries {
        var existing := recoveries[q.requestId];
        if existing.digest != Of(q) || existing.request != q {
          return None;
        }
        return Some(existing.notBefore);
      }
      if exists k :: k in recoveries && recoveries[k].request.nonce == q.nonce {
        return None;
      }
      var delay := StartDelay(store.active.value, demo);
      var earliest := SatAdd(now, delay);
      recoveries := recoveries[q.requestId := Recovery(q, Of(q), wall, now, earliest, boot, false, false)];
      return Some(earliest);
    }

    method CancelRecovery(q: RecoveryRequest, ownerSigned: bool, wall: U64) returns (ok: bool)
      requires Valid()
      modifies this
      ensures Valid()
      ensures ok <==> CancelAdmitted(old(State().desk), old(predecessor), q, ownerSigned, wall)
      ensures State() == if ok then old(State()).(desk := CancelNext(old(State().desk), q)) else old(State())
    {
      if q.protocolVersion != PROTOCOL_VERSION_V3 || |q.recipientKey| != XWING_PUBLIC_KEY_LEN {
        return false;
      }
      var held := RecordForRequest(q.configRef, q.requestId);
      if !held || !RequestValid(q, predecessor, q.configRef, wall) || !ownerSigned {
        return false;
      }
      if q.requestId in recoveries && (recoveries[q.requestId].digest != Of(q) || recoveries[q.requestId].released) {
        return false;
      }
      vetoes := vetoes[q.requestId := Of(q)];
      if q.requestId in recoveries {
        recoveries := recoveries[q.requestId := recoveries[q.requestId].(cancelled := true)];
      }
      return true;
    }

    /** Whether the guardian holds a record for this exact epoch, and if it is draining,
        began this request before the activation. */
    method RecordForRequest(configRef: ConfigRef, requestId: Id32) returns (held: bool)
      requires Valid()
      ensures held <==> HasRecord(store.State(), configRef, requestId)
    {
      if store.active.Some? && store.active.value.configRef == configRef {
        return true;
      }
      if configRef.guardianEpoch !in store.draining {
        return false;
      }
      var draining := store.draining[configRef.guardianEpoch];
      return draining.record.configRef == configRef && requestId in draining.pending;
    }

    method ReleaseRecovery(q: RecoveryRequest, certified: RecoveryRequest, quorum: bool, wall: U64, now: U64, boot: string)
      returns (ok: bool)
      requires Valid()
      modifies this, store
      ensures Valid()
      ensures ok <==> ReleaseAdmitted(old(State().desk), old(predecessor), q, certified, quorum, wall, now, boot)
      ensures State() == if ok then old(State()).(desk := ReleaseNext(old(State().desk), q)) else old(State())
    {
      if q.protocolVersion != PROTOCOL_VERSION_V3 || |q.recipientKey| != XWING_PUBLIC_KEY_LEN {
        return false;
      }
      if !RequestValid(certified, predecessor, q.configRef, wall) || !quorum {
        return false;
      }
      var held := RecordForRequest(q.configRef, q.requestId);
      if !held || q.requestId !in recoveries {
        return false;
      }
      var existing := recoveries[q.requestId];
      if existing.request != q || existing.digest != Of(certified)
         || existing.cancelled || existing.released
         || (q.requestId in vetoes && vetoes[q.requestId] == Of(certified))
         || existing.bootId != boot || now < existing.notBefore || wall >= existing.request.expiry
      {
        return false;
      }
      recoveries := recoveries[q.requestId := existing.(released := true)];
      if q.configRef.guardianEpoch in store.draining {
        var finished := store.FinishDrainingRequest(q.configRef.guardianEpoch, q.requestId);
      }
      return true;
    }

    // ---- Rotations ---------------------------------------------------------------

    method BeginRotation(plan: RotationPlan, begin: BeginCertificate, keysMatch: bool, wall: U64, now: U64, demo: bool)
      returns (notBefore: Option<U64>)
      requires Valid()
      modifies this
      ensures Valid()
      ensures notBefore.Some? <==> Fresh(old(State()), plan.context, wall) && BeginRotationAdmitted(old(State()), plan, begin, keysMatch, wall)
      ensures State() == if notBefore.Some? then BeginRotationNext(old(State()), plan, begin, now, demo) else old(State())
      ensures notBefore.Some? ==>
                plan.context.rotationId in sessions && notBefore.value == sessions[plan.context.rotationId].notBefore
    {
      ghost var before := State();
      if !Fresh(CurrentView(), plan.context, wall) || !SignerLocks.BeginValid(begin, plan, predecessor, wall) {
        return None;
      }
      var rotation := plan.context.rotationId;
      if !Participates(CurrentView(), plan) || !keysMatch || rotation in store.tombstones {
        return None;
      }
      if rotation in sessions {
        if sessions[rotation].planHash == Of(plan) && sessions[rotation].beginHash == Of(begin) {
          return Some(sessions[rotation].notBefore);
        }
        return None;
      }
      var delay: U64 := if demo && plan.minimumDelaySecs > 2 then 2 else plan.minimumDelaySecs;
      var machine := BegunMachine(plan, now, delay);
      sessions := sessions[rotation := Session(machine, Of(plan), Of(begin), machine.notBefore.value, false)];
      BeginRotationKeeps(before, plan, begin, now, demo);
      return Some(machine.notBefore.value);
    }

    /** The entry as a value, for the read-only checks. */
    function CurrentView(): GuardianState
      reads this, store
      ensures CurrentView() == State()
    {
      GuardianState(card, key, predecessor,
        Desk(StoreState(store.configId, store.expected, store.expectedHash, store.active, store.activeHash, store.prepared,
                        store.draining, store.journal, store.tombstones, store.activationQc, store.nextGeneration),
             recoveries, vetoes),
        sessions)
    }

    /** The owner cancels a rotation. A store conflict refuses it, but the session of the
        rotation, if there is one, stays closed. */
    method CancelRotation(plan: RotationPlan, cancel: OwnerCancelCertificate, wall: U64) returns (acked: bool)
      requires Valid()
      modifies this, store
      ensures Valid()
      ensures State() == if Fresh(old(State()), plan.context, wall) && CancelRotationReaches(old(State()), plan, cancel, wall)
                         then CancelRotationNext(old(State()), plan) else old(State())
      ensures acked <==> && Fresh(old(State()), plan.context, wall) && CancelRotationReaches(old(State()), plan, cancel, wall)
                         && Refusal(old(State().desk.store), GuardianEpochs.Abort(plan.context.rotationId, Of(plan))).None?
                         && CanAckCancel(old(State()), plan)
    {
      if !Fresh(CurrentView(), plan.context, wall) || !CancelAuthentic(CurrentView(), plan, cancel, wall) {
        return false;
      }
      if Cancellable(CurrentView(), plan) {
        CancelRotationKeeps(State(), plan);
      }
      var closed := CloseSession(plan);
      if !closed {
        return false;
      }
      var ended := EndRotation(plan);
      return ended && (store.active.Some? || |RoutesOf(plan.newRoster, key)| == 1);
    }

    /** The store drops what it prepared and tombstones the rotation; then the session goes. */
    method EndRotation(plan: RotationPlan) returns (ok: bool)
      requires store.Valid()
      modifies this`sessions, store
      ensures store.State() == Step(old(store.State()), GuardianEpochs.Abort(plan.context.rotationId, Of(plan)))
      ensures ok <==> Refusal(old(store.State()), GuardianEpochs.Abort(plan.context.rotationId, Of(plan))).None?
      ensures sessions == if ok then old(sessions) - {plan.context.rotationId} else old(sessions)
    {
      var aborted := store.AbortPrepared(plan.context.rotationId, Of(plan));
      if aborted.Err? {
        return false;
      }
      sessions := sessions - {plan.context.rotationId};
      return true;
    }

    /** Closes the rotation's session, if it is open and has not passed activation. */
    method CloseSession(plan: RotationPlan) returns (ok: bool)
      modifies this`sessions
      ensures ok <==> Cancellable(old(State()), plan)
      ensures sessions == if ok then SessionsCancelled(old(State()), plan.context.rotationId) else old(sessions)
    {
      var rotation := plan.context.rotationId;
      if rotation in store.tombstones {
        return store.tombstones[rotation].planHash == Of(plan) && store.tombstones[rotation].outcome == Aborted;
      }
      if rotation in sessions {
        if !sessions[rotation].cancelled {
          var machine := GivenUp(sessions[rotation].machine);
          if machine.None? {
            return false;
          }
          sessions := sessions[rotation := sessions[rotation].(machine := machine.value)];
        }
        sessions := sessions[rotation := sessions[rotation].(cancelled := true)];
      }
      return true;
    }

    /** The first handover round under an open session: its delay must have run. */
    method ReleaseRotation(plan: RotationPlan, wall: U64, now: U64) returns (ok: bool)
      requires Valid()
      modifies this`sessions
      ensures Valid()
      ensures ok <==> && Fresh(old(State()), plan.context, wall) && HasSession(old(State()), plan)
                      && Released(old(sessions)[plan.context.rotationId].machine, now).Some?
      ensures State() == if Fresh(old(State()), plan.context, wall) then ReleaseRotationNext(old(State()), plan, now) else old(State())
    {
      if !Fresh(CurrentView(), plan.context, wall) || !HasSession(CurrentView(), plan) {
        return false;
      }
      var session := sessions[plan.context.rotationId];
      var machine := Released(session.machine, now);
      if machine.None? {
        return false;
      }
      ReleaseRotationKeeps(State(), plan, now);
      sessions := sessions[plan.context.rotationId := session.(machine := machine.value)];
      return true;
    }

    method AbortRotation(plan: RotationPlan, abort: AbortCertificate, wall: U64) returns (ok: bool)
      requires Valid()
      modifies this, store
      ensures Valid()
      ensures State() == if Fresh(old(State()), plan.context, wall) && AbortRotationReaches(old(State()), plan, abort, wall)
                         then AbortRotationNext(old(State()), plan) else old(State())
      ensures ok <==> && Fresh(old(State()), plan.context, wall) && AbortRotationReaches(old(State()), plan, abort, wall)
                      && Refusal(old(State().desk.store), GuardianEpochs.Abort(plan.context.rotationId, Of(plan))).None?
    {
      if !Fresh(CurrentView(), plan.context, wall) || !SignerLocks.AbortValid(abort, plan, predecessor, wall)
         || !HasSession(CurrentView(), plan) {
        return false;
      }
      var rotation := plan.context.rotationId;
      var machine := GivenUp(sessions[rotation].machine);
      if machine.None? {
        return false;
      }
      AbortRotationKeeps(State(), plan);
      sessions := sessions[rotation := sessions[rotation].(machine := machine.value)];
      ok := EndRotation(plan);
    }

    /** Persists the successor record before its acknowledgement leaves. */
    method PrepareCommit(plan: RotationPlan, record: GuardianRecord, journal: DpssJournal, stagedFits: bool, wall: U64)
      returns (generation: Option<U64>)
      requires Valid()
      modifies store
      ensures Valid()
      ensures var op := Prepare(plan.context.rotationId, Of(plan), record, journal);
              && State() == (if Fresh(old(State()), plan.context, wall) && PrepareReaches(old(State()), plan, record, stagedFits)
                             then PrepareNext(old(State()), op) else old(State()))
              && (generation.Some? <==> Fresh(old(State()), plan.context, wall) && PrepareReaches(old(State()), plan, record, stagedFits)
                                        && Refusal(old(State().desk.store), op).None?)
      ensures generation.Some? ==>
                store.prepared.Some? && generation.value == store.prepared.value.generation && generation.value > 0
    {
      if !Fresh(CurrentView(), plan.context, wall) || !Routed(CurrentView(), plan.newRoster)
         || !HasSession(CurrentView(), plan) || !stagedFits || record.configRef != plan.successor {
        return None;
      }
      PrepareKeepsGuardian(State(), Prepare(plan.context.rotationId, Of(plan), record, journal));
      var prepared := store.PrepareSuccessor(plan.context.rotationId, Of(plan), record, journal);
      return if prepared.Ok? then Some(prepared.value) else None;
    }

    /** Follows a witnessed activation: the pending recoveries of the old epoch are taken
        first, the session's machine moves, then the store changes epoch. */
    method Activate(plan: RotationPlan, capsule: Capsule, deadline: U64, wall: U64) returns (ok: bool)
      requires Valid()
      modifies this, store
      ensures Valid()
      ensures State() == if Fresh(old(State()), plan.context, wall) && ActivationReaches(old(State()), plan, capsule)
                         then ActivationNext(old(State()), plan, capsule, deadline) else old(State())
      ensures ok <==> && Fresh(old(State()), plan.context, wall) && ActivationReaches(old(State()), plan, capsule)
                      && Refusal(old(State().desk.store), EpochChange(old(State()), plan, capsule, deadline)).None?
    {
      if !Fresh(CurrentView(), plan.context, wall) {
        return false;
      }
      var locallyPending := LiveFor(recoveries, predecessor.body.configRef);
      var certified := ValidateActivatedCapsule(card, capsule);
      if !certified || !CapsuleFitsPlan(CurrentView(), plan, capsule) || !PreparedFitsCapsule(CurrentView(), plan, capsule)
         || !HasSession(CurrentView(), plan) || !MachineReady(sessions[plan.context.rotationId]) {
        return false;
      }
      ActivationKeeps(State(), plan, capsule, deadline);
      ok := ChangeEpoch(plan, capsule, deadline, locallyPending);
    }

    method ChangeEpoch(plan: RotationPlan, capsule: Capsule, deadline: U64, locallyPending: set<Id32>) returns (ok: bool)
      requires store.Valid() && capsule.activationQc.Some?
      requires plan.context.rotationId in sessions && MachineReady(sessions[plan.context.rotationId])
      requires locallyPending == LiveFor(recoveries, predecessor.body.configRef)
      modifies this, store
      ensures State() == ActivationNext(old(State()), plan, capsule, deadline)
      ensures ok <==> Refusal(old(State().desk.store), EpochChange(old(State()), plan, capsule, deadline)).None?
    {
      var rotation, qc := plan.context.rotationId, capsule.activationQc.value;
      var session := sessions[rotation];
      var machine := Released(session.machine, session.notBefore);
      machine := Witnessed(machine.value, deadline);
      sessions := sessions[rotation := session.(machine := machine.value)];
      var changed: Result<(), StorageError>;
      if Routed(CurrentView(), plan.newRoster) {
        changed := store.ActivateSuccessor(rotation, Of(plan), qc, Of(qc), deadline, locallyPending);
      } else {
        changed := store.ObserveReplacementActivation(rotation, Of(plan), qc, Of(qc), deadline, locallyPending);
      }
      if changed.Err? {
        return false;
      }
      predecessor := capsule;
      sessions := sessions - {rotation};
      return true;
    }

    /** `now` is the time the request states. */
    method Retire(notice: RetirementNotice, wall: U64, now: U64) returns (tombstone: Option<CapsuleHash>)
      requires Valid()
      modifies store
      ensures Valid()
      ensures State() == if Fresh(old(State()), notice.context, wall) && RetireReaches(old(State()), notice, now)
                         then RetireNext(old(State()), notice, now) else old(State())
      ensures tombstone.Some? <==> && Fresh(old(State()), notice.context, wall) && RetireReaches(old(State()), notice, now)
                                   && Refusal(old(State().desk.store), GuardianEpochs.Retire(notice.epoch, now)).None?
      ensures tombstone.Some? ==> tombstone.value == old(store.draining)[notice.epoch].capsuleHash
    {
      if !Fresh(CurrentView(), notice.context, wall) || !RetireReaches(CurrentView(), notice, now) {
        return None;
      }
      RetireKeepsGuardian(State(), notice, now);
      var retired := store.RetireEpoch(notice.epoch, now);
      return if retired.Ok? then Some(retired.value) else None;
    }
  }

  /** What an operator provisions a guardian with: the public key claimed beside the one of
      its signing seed, a partial cache of signer pins, and a store. */
  datatype Provisioning = Provisioning(
    mailbox: Option<string>,
    card: RecoveryCard,
    claimedKey: Key,
    seedKey: Key,
    signerPins: map<nat, Key>,
    predecessor: Capsule)

  /** The store expects a successor of the capsule that comes with it. */
  predicate StoreFits(store: GuardianEpochStore, predecessor: Capsule)
    reads store
  {
    && store.configId == predecessor.body.configRef.configId
    && store.expected == predecessor.body.configRef
    && store.expectedHash == predecessor.hash
  }

  predicate Provisionable(p: Provisioning, demo: bool) {
    && ActivatedCapsule(p.card, p.predecessor)
    && p.claimedKey == p.seedKey
    && (forall id :: id in p.signerPins ==> 0 < id <= p.predecessor.body.signerCount)
    && (p.predecessor.body.minimumRecoveryDelay >= PRODUCTION_MIN_DELAY_SECS || demo)
    && p.mailbox.Some?
  }

  /** A guardian server: one entry for each mailbox it was provisioned for. */
  class GuardianServer {
    var entries: map<string, GuardianRotationEntry>

    constructor ()
      ensures entries == map[]
    {
      entries := map[];
    }

    /** `authorised` is the verdict on the operator's token and the sealed body. */
    method Provision(authorised: bool, p: Provisioning, store: GuardianEpochStore, demo: bool) returns (stored: bool)
      modifies this
      ensures stored <==>
                authorised && StoreFits(store, p.predecessor) && Provisionable(p, demo) && p.mailbox.value !in old(entries)
      ensures !stored ==> entries == old(entries)
      ensures stored ==>
                && entries.Keys == old(entries).Keys + {p.mailbox.value}
                && (forall m :: m in old(entries) ==> entries[m] == old(entries)[m])
                && var entry := entries[p.mailbox.value];
                && fresh(entry) && entry.store == store
                && entry.State() == GuardianState(p.card, p.seedKey, p.predecessor, Desk(store.State(), map[], map[]), map[])
                && Linked(entry.State())
                && (store.Valid() ==> entry.Valid())
    {
      if !authorised {
        return false;
      }
      var certified := ValidateActivatedCapsule(p.card, p.predecessor);
      if !certified || p.claimedKey != p.seedKey || !StoreFits(store, p.predecessor) {
        return false;
      }
      if exists id :: id in p.signerPins && (id == 0 || id > p.predecessor.body.signerCount) {
        return false;
      }
      if p.predecessor.body.minimumRecoveryDelay < PRODUCTION_MIN_DELAY_SECS && !demo {
        return false;
      }
      if p.mailbox.None? || p.mailbox.value in entries {
        return false;
      }
      var entry := new GuardianRotationEntry(p.card, p.seedKey, store, p.predecessor);
      entries := entries[p.mailbox.value := entry];
      return true;
    }
  }
}
