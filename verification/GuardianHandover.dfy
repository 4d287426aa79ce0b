/** What a guardian's part in a rotation rests on, over every run: the signatures behind each
    session, each end of a rotation and each change of epoch, and the delay in between. */
module GuardianHandover {
  import opened Foundations
  import opened EpochTypes
  import opened EpochSelection
  import opened RotationPlans
  import opened GuardianEpochs
  import GuardianEpochRuns
  import opened GuardianRecoveries
  import opened GuardianEntry
  import opened GuardianRuns
  import opened GuardianTheorems
  import SignerEvidence
  import Endorsements

  // ---- Rosters ---------------------------------------------------------------------

  predicate OnlyAt(roster: seq<GuardianRoute>, key: Key, i: int) {
    && 0 <= i < |roster| && roster[i].guardianKey == key
    && forall j :: 0 <= j < |roster| && roster[j].guardianKey == key ==> j == i
  }

  lemma {:induction false} RoutesFound(roster: seq<GuardianRoute>, key: Key)
    ensures RoutesOf(roster, key) == [] <==> forall i :: 0 <= i < |roster| ==> roster[i].guardianKey != key
    ensures |RoutesOf(roster, key)| == 1 <==> exists i :: OnlyAt(roster, key, i)
  {
    if roster != [] {
      var rest := roster[1..];
      RoutesFound(rest, key);
      if roster[0].guardianKey == key {
        if RoutesOf(rest, key) == [] {
          assert OnlyAt(roster, key, 0);
        } else {
          var j :| 0 <= j < |rest| && rest[j].guardianKey == key;
          assert roster[j + 1].guardianKey == key;
        }
      } else {
        if |RoutesOf(rest, key)| == 1 {
          var i :| OnlyAt(rest, key, i);
          assert OnlyAt(roster, key, i + 1);
        }
        if i :| OnlyAt(roster, key, i) {
          assert OnlyAt(rest, key, i - 1);
        }
      }
    }
  }

  /** A guardian takes part in a roster exactly when one member, and only one, has its key. */
  lemma RoutedOnce(s: GuardianState, roster: seq<GuardianRoute>)
    ensures Routed(s, roster) <==> exists i :: OnlyAt(roster, s.key, i)
  {
    RoutesFound(roster, s.key);
  }

  // ---- Sessions --------------------------------------------------------------------

  /** The delay a session starts with; a demonstration guardian keeps two seconds of it. */
  function SessionDelay(plan: RotationPlan, demo: bool): U64 {
    if demo && plan.minimumDelaySecs > 2 then 2 else plan.minimumDelaySecs
  }

  /** Step `i` opened this session: a threshold of the followed capsule's signers had begun
      the plan, which leaves that capsule with at least its delay. */
  ghost predicate OpensSession(run: Run, i: nat, session: Session)
    requires run.Valid() && i < |run.steps|
  {
    var q, clock, followed := run.steps[i].request, run.steps[i].clock, run.states[i].predecessor;
    && q.BeginRotation? && q.keysMatch
    && session.planHash == Of(q.plan) && session.beginHash == Of(q.begin)
    && session.notBefore == SatAdd(clock.now, SessionDelay(q.plan, clock.demo))
    && session.machine.notBefore == Some(session.notBefore)
    && |SignerEvidence.Beginners(followed.body.signerSet, q.begin, q.plan)| >= followed.body.signerThreshold
    && SignerEvidence.LeavesInOrder(q.plan, followed, clock.wall)
    && (Routed(run.states[i], q.plan.oldRoster) || Routed(run.states[i], q.plan.newRoster))
  }

  /** Where an open session of a step's result comes from. */
  ghost predicate SessionStep(s: GuardianState, q: Request, c: Clock, r: Id32, session: Session) {
    || (&& r in s.sessions
        && session.planHash == s.sessions[r].planHash && session.beginHash == s.sessions[r].beginHash
        && session.notBefore == s.sessions[r].notBefore && session.machine.notBefore == s.sessions[r].machine.notBefore
        && (session.machine.stage == Preparing ==>
              s.sessions[r].machine.stage == Preparing || ReleasesSession(s, q, c, r)))
    || (&& r !in s.sessions && q.BeginRotation? && q.plan.context.rotationId == r
        && BeginRotationAdmitted(s, q.plan, q.begin, q.keysMatch, c.wall)
        && session == Session(BegunMachine(q.plan, c.now, SessionDelay(q.plan, c.demo)), Of(q.plan), Of(q.begin),
                              SatAdd(c.now, SessionDelay(q.plan, c.demo)), false))
  }

  /** A handover round of exactly this plan, once the session's delay has run. */
  ghost predicate ReleasesSession(s: GuardianState, q: Request, c: Clock, r: Id32) {
    && r in s.sessions && q.ReleaseRotation? && q.plan.context.rotationId == r
    && s.sessions[r].planHash == Of(q.plan)
    && s.sessions[r].machine.notBefore.Some? && s.sessions[r].machine.notBefore.value <= c.now
  }

  /** The session has not been touched but for its machine, which is not sent preparing. */
  ghost predicate SessionKept(s: GuardianState, t: GuardianState, r: Id32) {
    r in t.sessions ==>
      && r in s.sessions
      && t.sessions[r] == s.sessions[r].(machine := t.sessions[r].machine, cancelled := t.sessions[r].cancelled)
      && t.sessions[r].machine.notBefore == s.sessions[r].machine.notBefore
      && (t.sessions[r].machine.stage == Preparing ==> s.sessions[r].machine.stage == Preparing)
  }

  lemma CancelKeepsSession(s: GuardianState, plan: RotationPlan, r: Id32)
    requires ValidGuardian(s)
    ensures SessionKept(s, CancelRotationNext(s, plan), r)
  {
  }

  lemma AbortKeepsSession(s: GuardianState, plan: RotationPlan, r: Id32)
    requires ValidGuardian(s)
    requires plan.context.rotationId in s.sessions && GivenUp(s.sessions[plan.context.rotationId].machine).Some?
    ensures SessionKept(s, AbortRotationNext(s, plan), r)
  {
  }

  lemma ActivationKeepsSession(s: GuardianState, plan: RotationPlan, capsule: Capsule, deadline: U64, r: Id32)
    requires ValidGuardian(s) && ActivationReaches(s, plan, capsule)
    ensures SessionKept(s, ActivationNext(s, plan, capsule, deadline), r)
  {
    ActivationFacts(s, plan, capsule);
    ChangeKeepsSession(s, plan, capsule, deadline, r);
  }

  lemma ChangeKeepsSession(s: GuardianState, plan: RotationPlan, capsule: Capsule, deadline: U64, r: Id32)
    requires ValidGuardian(s) && capsule.activationQc.Some?
    requires plan.context.rotationId in s.sessions && MachineReady(s.sessions[plan.context.rotationId])
    ensures SessionKept(s, ActivationNext(s, plan, capsule, deadline), r)
  {
  }

  lemma ReleaseKeepsSession(s: GuardianState, q: Request, c: Clock, r: Id32)
    requires q.ReleaseRotation? && r in ReleaseRotationNext(s, q.plan, c.now).sessions
    ensures SessionStep(s, q, c, r, ReleaseRotationNext(s, q.plan, c.now).sessions[r])
  {
  }

  lemma NextSession(s: GuardianState, q: Request, c: Clock, r: Id32)
    requires ValidGuardian(s) && r in Next(s, q, c).sessions
    ensures SessionStep(s, q, c, r, Next(s, q, c).sessions[r])
  {
    if q.IsFresh(s, c.wall) {
      match q
      case CancelRotation(plan, _) => CancelKeepsSession(s, plan, r);
      case AbortRotation(plan, abort) =>
        if AbortRotationReaches(s, plan, abort, c.wall) {
          AbortKeepsSession(s, plan, r);
        }
      case ActivateRotation(plan, capsule, deadline) =>
        if ActivationReaches(s, plan, capsule) {
          ActivationKeepsSession(s, plan, capsule, deadline, r);
        }
      case ReleaseRotation(_) => ReleaseKeepsSession(s, q, c, r);
      case _ =>
    }
  }

  /** What an answered Begin rests on, also when the session was open already. */
  lemma AdmittedBeginMeans(s: GuardianState, plan: RotationPlan, begin: BeginCertificate, keysMatch: bool, wall: U64)
    requires BeginRotationAdmitted(s, plan, begin, keysMatch, wall)
    ensures |SignerEvidence.Beginners(s.predecessor.body.signerSet, begin, plan)| >= s.predecessor.body.signerThreshold
    ensures SignerEvidence.LeavesInOrder(plan, s.predecessor, wall) && keysMatch
    ensures plan.context.rotationId !in s.desk.store.tombstones
    ensures plan.context.rotationId in s.sessions ==>
              s.sessions[plan.context.rotationId].planHash == Of(plan) && s.sessions[plan.context.rotationId].beginHash == Of(begin)
  {
    SignerEvidence.ValidBeginIsSigned(begin, plan, s.predecessor, wall);
  }

  lemma BegunSession(run: Run, i: nat, r: Id32, session: Session)
    requires run.Valid() && i < |run.steps| && r !in run.states[i].sessions
    requires SessionStep(run.states[i], run.steps[i].request, run.steps[i].clock, r, session)
    ensures OpensSession(run, i, session)
  {
    var q, s := run.steps[i].request, run.states[i];
    AdmittedBeginMeans(s, q.plan, q.begin, q.keysMatch, run.steps[i].clock.wall);
  }

  lemma OpenedBySame(run: Run, i: nat, session: Session, session': Session)
    requires run.Valid() && i < |run.steps| && OpensSession(run, i, session)
    requires session'.planHash == session.planHash && session'.beginHash == session.beginHash
    requires session'.notBefore == session.notBefore && session'.machine.notBefore == session.machine.notBefore
    ensures OpensSession(run, i, session')
  {
  }

  lemma SessionSucc(run: Run, i: nat, r: Id32)
    requires run.Valid() && i < |run.steps| && r in run.states[i + 1].sessions
    ensures SessionStep(run.states[i], run.steps[i].request, run.steps[i].clock, r, run.states[i + 1].sessions[r])
  {
    AtSucc(run, i);
    NextSession(run.states[i], run.steps[i].request, run.steps[i].clock, r);
  }

  /** Every session of a guardian was opened by a Begin that a threshold of signers signed. */
  lemma {:induction false} SessionOrigin(run: Run, t: nat, r: Id32) returns (i: nat)
    requires run.Valid() && run.states[0].sessions == map[] && t <= |run.steps| && r in run.states[t].sessions
    ensures i < t && OpensSession(run, i, run.states[t].sessions[r])
    decreases t
  {
    SessionSucc(run, t - 1, r);
    if r in run.states[t - 1].sessions {
      i := SessionOrigin(run, t - 1, r);
      OpenedBySame(run, i, run.states[t - 1].sessions[r], run.states[t].sessions[r]);
    } else {
      i := t - 1;
      BegunSession(run, i, r, run.states[t].sessions[r]);
    }
  }

  /** A session that has gone over to preparing waited: after its Begin, and at least its
      delay later on this guardian's clock, came a handover round of the same plan. */
  lemma {:induction false} HandoverWaits(run: Run, t: nat, r: Id32) returns (i: nat, k: nat)
    requires run.Valid() && run.states[0].sessions == map[] && t <= |run.steps|
    requires r in run.states[t].sessions && run.states[t].sessions[r].machine.stage == Preparing
    ensures i < k < t && OpensSession(run, i, run.states[t].sessions[r])
    ensures run.steps[k].request.ReleaseRotation? && run.steps[k].request.plan == run.steps[i].request.plan
    ensures run.steps[k].clock.now >= SatAdd(run.steps[i].clock.now, SessionDelay(run.steps[i].request.plan, run.steps[i].clock.demo))
    decreases t
  {
    SessionSucc(run, t - 1, r);
    if r in run.states[t - 1].sessions && run.states[t - 1].sessions[r].machine.stage == Preparing {
      i, k := HandoverWaits(run, t - 1, r);
      OpenedBySame(run, i, run.states[t - 1].sessions[r], run.states[t].sessions[r]);
    } else {
      k := t - 1;
      i := SessionOrigin(run, k, r);
      OpenedBySame(run, i, run.states[k].sessions[r], run.states[t].sessions[r]);
    }
  }

  // ---- Prepared records --------------------------------------------------------------

  lemma PrepareMeans(s: GuardianState, q: Request, c: Clock)
    requires ValidGuardian(s) && MoveOf(s, q, c).Stored? && MoveOf(s, q, c).op.Prepare?
    ensures q.PrepareCommit? && q.stagedFits && Routed(s, q.plan.newRoster)
    ensures MoveOf(s, q, c).op == Prepare(q.plan.context.rotationId, Of(q.plan), q.record, q.journal)
    ensures q.record.configRef == q.plan.successor && q.record.predecessorHash == s.desk.store.expectedHash
    ensures var r := q.plan.context.rotationId;
            r in s.sessions && s.sessions[r].planHash == Of(q.plan) && !s.sessions[r].cancelled
  {
  }

  /** A record is prepared only for a plan whose Begin a threshold of signers signed, by a
      member of its new roster, for the plan's successor, while the session is open. */
  lemma PrepareIsForOpenSession(run: Run, k: nat) returns (i: nat)
    requires run.Valid() && run.states[0].sessions == map[] && k < |run.steps|
    requires run.moves[k].Stored? && run.moves[k].op.Prepare?
    ensures i < k && run.steps[i].request.BeginRotation?
    ensures var q, r := run.steps[k].request, run.moves[k].op.rotationId;
            && q.PrepareCommit? && q.stagedFits && Routed(run.states[k], q.plan.newRoster)
            && q.plan.context.rotationId == r && run.moves[k].op.record == q.record
            && q.record.configRef == q.plan.successor
            && r in run.states[k].sessions && !run.states[k].sessions[r].cancelled
            && OpensSession(run, i, run.states[k].sessions[r]) && run.steps[i].request.plan == q.plan
  {
    AtSucc(run, k);
    PrepareMeans(run.states[k], run.steps[k].request, run.steps[k].clock);
    i := SessionOrigin(run, k, run.moves[k].op.rotationId);
  }

  // ---- Retirement --------------------------------------------------------------------

  lemma RetireMeans(s: GuardianState, q: Request, c: Clock)
    requires ValidGuardian(s) && MoveOf(s, q, c).Stored? && MoveOf(s, q, c).op.Retire?
    ensures q.RetireEpoch? && s.desk.store.activationQc.Some?
    ensures var qc, e := s.desk.store.activationQc.value, q.notice.epoch;
            && MoveOf(s, q, c).op == GuardianEpochs.Retire(e, q.requestedNow)
            && q.notice.qcHash == Of(qc) && e == qc.predecessorEpoch && q.notice.deadline <= q.requestedNow
            && e in s.desk.store.draining && s.desk.store.draining[e].pending == {}
            && s.desk.store.draining[e].deadline <= q.requestedNow
  {
  }

  /** An epoch retires on a notice of the latest activation out of it, with nothing pending,
      at a time the request claims that is past the notice's deadline and the store's. */
  lemma RetirementIsNoticed(run: Run, k: nat)
    requires run.Valid() && k < |run.steps| && run.moves[k].Stored? && run.moves[k].op.Retire?
    ensures run.steps[k].request.RetireEpoch? && run.states[k].desk.store.activationQc.Some?
    ensures var q, store := run.steps[k].request, run.states[k].desk.store;
            && run.moves[k].op == GuardianEpochs.Retire(q.notice.epoch, q.requestedNow)
            && q.notice.qcHash == Of(store.activationQc.value) && q.notice.epoch == store.activationQc.value.predecessorEpoch
            && q.notice.deadline <= q.requestedNow
            && q.notice.epoch in store.draining && store.draining[q.notice.epoch].pending == {}
            && store.draining[q.notice.epoch].deadline <= q.requestedNow
  {
    AtSucc(run, k);
    RetireMeans(run.states[k], run.steps[k].request, run.steps[k].clock);
  }

  // ---- Ends of a rotation ------------------------------------------------------------

  /** The owner whose key the followed capsule names signed the cancellation of this plan. */
  predicate OwnerCancelled(followed: Capsule, plan: RotationPlan, cancel: OwnerCancelCertificate) {
    && cancel.signature == Signature(followed.body.ownerCancelKey, OwnerCancelMessage(cancel.body))
    && cancel.body.planHash == Of(plan) && cancel.body.context == plan.context
    && |cancel.body.responseKey| == XWING_PUBLIC_KEY_LEN
  }

  ghost predicate EndsOnSignatures(s: GuardianState, q: Request, wall: U64, op: StoreOp) {
    || (&& q.CancelRotation? && op == GuardianEpochs.Abort(q.plan.context.rotationId, Of(q.plan))
        && SignerEvidence.Leaves(q.plan, s.predecessor, wall)
        && (Routed(s, q.plan.oldRoster) || Routed(s, q.plan.newRoster))
        && OwnerCancelled(s.predecessor, q.plan, q.cancel))
    || (&& q.AbortRotation? && op == GuardianEpochs.Abort(q.plan.context.rotationId, Of(q.plan))
        && SignerEvidence.Leaves(q.plan, s.predecessor, wall)
        && |SignerEvidence.Aborters(s.predecessor.body.signerSet, q.abort, q.plan)| >= s.predecessor.body.signerThreshold)
  }

  lemma AbortMeans(s: GuardianState, q: Request, c: Clock)
    requires MoveOf(s, q, c).Stored? && MoveOf(s, q, c).op.Abort?
    ensures EndsOnSignatures(s, q, c.wall, MoveOf(s, q, c).op)
  {
    if q.AbortRotation? {
      SignerEvidence.ValidAbortIsSigned(q.abort, q.plan, s.predecessor, c.wall);
    }
  }

  /** A guardian aborts a rotation only on the owner's signature or on those of a threshold of
      the signers. */
  lemma AbortIsSigned(run: Run, k: nat)
    requires run.Valid() && k < |run.steps| && run.moves[k].Stored? && run.moves[k].op.Abort?
    ensures EndsOnSignatures(run.states[k], run.steps[k].request, run.steps[k].clock.wall, run.moves[k].op)
  {
    AtSucc(run, k);
    AbortMeans(run.states[k], run.steps[k].request, run.steps[k].clock);
  }

  lemma CloseMeans(s: GuardianState, q: Request, c: Clock, r: Id32)
    requires ValidGuardian(s) && r in s.sessions && !s.sessions[r].cancelled
    requires r in Next(s, q, c).sessions && Next(s, q, c).sessions[r].cancelled
    ensures q.CancelRotation? && q.plan.context.rotationId == r && OwnerCancelled(s.predecessor, q.plan, q.cancel)
  {
    NextSession(s, q, c, r);
    match q
    case AbortRotation(plan, abort) =>
      if q.IsFresh(s, c.wall) && AbortRotationReaches(s, plan, abort, c.wall) {
        AbortLeavesOpen(s, plan, r);
      }
    case ActivateRotation(plan, capsule, deadline) =>
      if q.IsFresh(s, c.wall) && ActivationReaches(s, plan, capsule) {
        ActivationFacts(s, plan, capsule);
        ChangeLeavesOpen(s, plan, capsule, deadline, r);
      }
    case _ =>
  }

  lemma AbortLeavesOpen(s: GuardianState, plan: RotationPlan, r: Id32)
    requires ValidGuardian(s) && plan.context.rotationId in s.sessions && GivenUp(s.sessions[plan.context.rotationId].machine).Some?
    ensures r in AbortRotationNext(s, plan).sessions ==>
              r in s.sessions && AbortRotationNext(s, plan).sessions[r].cancelled == s.sessions[r].cancelled
  {
  }

  lemma ChangeLeavesOpen(s: GuardianState, plan: RotationPlan, capsule: Capsule, deadline: U64, r: Id32)
    requires ValidGuardian(s) && capsule.activationQc.Some?
    requires plan.context.rotationId in s.sessions && MachineReady(s.sessions[plan.context.rotationId])
    ensures r in ActivationNext(s, plan, capsule, deadline).sessions ==>
              r in s.sessions && ActivationNext(s, plan, capsule, deadline).sessions[r].cancelled == s.sessions[r].cancelled
  {
  }

  /** A session is closed only by a cancellation of its rotation that the owner signed. */
  lemma CloseIsTheOwners(run: Run, k: nat, r: Id32)
    requires run.Valid() && k < |run.steps| && r in run.states[k].sessions && r in run.states[k + 1].sessions
    requires run.states[k + 1].sessions[r].cancelled && !run.states[k].sessions[r].cancelled
    ensures var q := run.steps[k].request;
            && q.CancelRotation? && q.plan.context.rotationId == r
            && OwnerCancelled(run.states[k].predecessor, q.plan, q.cancel)
  {
    AtSucc(run, k);
    CloseMeans(run.states[k], run.steps[k].request, run.steps[k].clock, r);
  }

  // ---- Only in date ------------------------------------------------------------------

  predicate InDateFor(s: GuardianState, context: RotationContext, wall: U64) {
    && context.protocolVersion == PROTOCOL_VERSION_V3
    && context.configRef.configId == s.predecessor.body.configRef.configId
    && context.issuedAt <= wall < context.expiry && |context.recipientKey| == XWING_PUBLIC_KEY_LEN
  }

  /** A rotation request changes a guardian only while its context is in date, of the followed
      configuration, and answerable. */
  lemma OnlyInDate(run: Run, k: nat)
    requires run.Valid() && k < |run.steps| && run.states[k + 1] != run.states[k]
    ensures match run.steps[k].request
            case BeginRecovery(_, _) | CancelRecovery(_, _) | ReleaseRecovery(_, _, _) => true
            case RetireEpoch(notice, _) => InDateFor(run.states[k], notice.context, run.steps[k].clock.wall)
            case _ => InDateFor(run.states[k], run.steps[k].request.plan.context, run.steps[k].clock.wall)
  {
    AtSucc(run, k);
    ChangeIsFresh(run.states[k], run.steps[k].request, run.steps[k].clock);
  }

  lemma ChangeIsFresh(s: GuardianState, q: Request, c: Clock)
    requires ValidGuardian(s) && Next(s, q, c) != s
    ensures q.IsFresh(s, c.wall)
  {
  }

  // ---- Changes of epoch ----------------------------------------------------------------

  /** The capsule is the plan's own child of the followed capsule, and past the first epoch it
      carries the signatures of the card's signers and witnesses. */
  ghost predicate FollowsSigned(s: GuardianState, plan: RotationPlan, capsule: Capsule) {
    && capsule.hash == BodyHash(capsule.body) && capsule.body.predecessorHash == BodyHash(s.predecessor.body)
    && capsule.body.configRef == plan.successor
    && capsule.body.signerSet == s.card.signerSet && capsule.body.ownerCancelKey == s.card.ownerCancelKey
    && capsule.body.guardianCount == |plan.newRoster| && capsule.body.guardianThreshold == plan.newGuardianThreshold
    && capsule.body.dpssSuite == plan.dpssSuite && capsule.body.fragmentRoot == s.predecessor.body.fragmentRoot
    && Endorsements.Endorsed(s.card.signerSet, Pins(s.card.witnesses), s.card.faultBound, capsule)
  }

  lemma ActivatedFollows(s: GuardianState, plan: RotationPlan, capsule: Capsule)
    requires ValidGuardian(s) && ActivationReaches(s, plan, capsule)
    ensures FollowsSigned(s, plan, capsule)
  {
    Endorsements.ActivatedIsEndorsed(s.card, capsule);
  }

  lemma ChangeMeans(s: GuardianState, q: Request, c: Clock)
    requires ValidGuardian(s) && MoveOf(s, q, c).Stored? && (MoveOf(s, q, c).op.Activate? || MoveOf(s, q, c).op.ObserveReplacement?)
    ensures q.ActivateRotation? && FollowsSigned(s, q.plan, q.capsule) && Next(s, q, c).predecessor == q.capsule
    ensures var op := MoveOf(s, q, c).op;
            && op.rotationId == q.plan.context.rotationId && op.planHash == Of(q.plan) && op.deadline == q.deadline
            && q.capsule.activationQc == Some(op.qc) && op.qcHash == Of(op.qc)
            && (op.Activate? <==> Routed(s, q.plan.newRoster))
            && (op.Activate? ==>
                  && s.desk.store.prepared.Some?
                  && s.desk.store.prepared.value.record.configRef == q.capsule.body.configRef
                  && s.desk.store.prepared.value.record.material == q.capsule.body.material)
  {
    ActivatedFollows(s, q.plan, q.capsule);
  }

  /** A guardian changes epoch only to a signed child of the capsule it follows; and if it
      stays, the record that comes into force is for that capsule's configuration and holds
      the material the capsule commits to. */
  lemma ChangeIsSigned(run: Run, k: nat)
    requires run.Valid() && k < |run.steps| && run.moves[k].Stored?
    requires run.moves[k].op.Activate? || run.moves[k].op.ObserveReplacement?
    ensures run.steps[k].request.ActivateRotation?
    ensures var q, s, t := run.steps[k].request, run.states[k], run.states[k + 1];
            && FollowsSigned(s, q.plan, q.capsule) && t.predecessor == q.capsule
            && (if run.moves[k].op.Activate? then
                  && Routed(s, q.plan.newRoster) && t.desk.store.active.Some?
                  && t.desk.store.active.value.configRef == q.capsule.body.configRef
                  && t.desk.store.active.value.material == q.capsule.body.material
                else !Routed(s, q.plan.newRoster) && t.desk.store.active.None?)
  {
    AtSucc(run, k);
    DeskSucc(run, k);
    ChangeMeans(run.states[k], run.steps[k].request, run.steps[k].clock);
    ChangeResult(run.states[k].desk, run.moves[k], run.steps[k].clock);
  }

  lemma ChangeResult(d: Desk, m: Move, c: Clock)
    requires ValidStore(d.store) && Grounded(d, m, c) && m.Stored?
    ensures m.op.Activate? ==>
              && d.store.prepared.Some?
              && DeskAfter(d, m, c).store.active.Some?
              && GuardianEpochRuns.SameRecord(d.store.prepared.value.record, DeskAfter(d, m, c).store.active.value)
    ensures m.op.ObserveReplacement? ==> DeskAfter(d, m, c).store.active.None?
  {
  }
}
