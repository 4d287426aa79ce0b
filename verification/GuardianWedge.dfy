/** A session wedged by an earlier rotation: a record prepared for one rotation that was
    never given up makes the store refuse to see another one replace the guardian. */
module GuardianWedge {
  import opened Foundations
  import opened EpochTypes
  import opened EpochSelection
  import opened RotationPlans
  import opened GuardianEpochs
  import opened GuardianRecoveries
  import opened GuardianEntry
  import opened GuardianRuns
  import opened GuardianTheorems
  import opened GuardianRotations
  import SignerLocks
  import opened WitnessForks
  import opened SampleReads

  /** Any record still prepared turns an activation that rotates the guardian out into a
      wedged session, and the guardian keeps its authority for the epoch that was left. */
  lemma StalePreparedWedges(s: GuardianState, plan: RotationPlan, capsule: Capsule, deadline: U64)
    requires ValidGuardian(s) && ActivationReaches(s, plan, capsule)
    requires !Routed(s, plan.newRoster) && s.desk.store.prepared.Some?
    ensures Refusal(s.desk.store, EpochChange(s, plan, capsule, deadline)) == Some(Conflict)
    ensures Wedged(ActivationNext(s, plan, capsule, deadline), plan.context.rotationId)
    ensures ActivationNext(s, plan, capsule, deadline).desk == s.desk
    ensures ActivationNext(s, plan, capsule, deadline).predecessor == s.predecessor
  {
    RefusedActivationWedges(s, plan, capsule, deadline);
  }

  /** A rotation that can be begun now, for a guardian without sessions or tombstones. */
  ghost predicate CanBegin(s: GuardianState, plan: RotationPlan, begin: BeginCertificate, c: Clock) {
    && Fresh(s, plan.context, c.wall)
    && SignerLocks.BeginValid(begin, plan, s.predecessor, c.wall)
    && Participates(s, plan)
  }

  /** `t` is `s` with a session for the plan, ready to be activated, and nothing else. */
  ghost predicate Opened(s: GuardianState, t: GuardianState, plan: RotationPlan) {
    && t == s.(sessions := t.sessions)
    && t.sessions.Keys == s.sessions.Keys + {plan.context.rotationId}
    && HasSession(t, plan) && MachineReady(t.sessions[plan.context.rotationId])
    && forall r :: r in s.sessions ==> t.sessions[r] == s.sessions[r]
  }

  lemma BeginOpens(s: GuardianState, plan: RotationPlan, begin: BeginCertificate, c: Clock)
    requires ValidGuardian(s) && CanBegin(s, plan, begin, c)
    requires plan.context.rotationId !in s.sessions && plan.context.rotationId !in s.desk.store.tombstones
    ensures Opened(s, Next(s, BeginRotation(plan, begin, true), c), plan)
  {
  }

  /** `t` differs from `s` in its sessions and in having a record prepared. */
  ghost predicate HasPrepared(s: GuardianState, t: GuardianState) {
    && t.card == s.card && t.key == s.key && t.predecessor == s.predecessor
    && t.desk.store.prepared.Some? && t.desk.store.tombstones == s.desk.store.tombstones
    && t.desk.store.active == s.desk.store.active
  }

  lemma PrepareStores(s: GuardianState, t: GuardianState, plan: RotationPlan, record: GuardianRecord, journal: DpssJournal, c: Clock)
    requires ValidGuardian(s) && ValidGuardian(t) && Opened(s, t, plan) && Fresh(s, plan.context, c.wall) && Routed(s, plan.newRoster)
    requires record.configRef == plan.successor
    requires Refusal(s.desk.store, Prepare(plan.context.rotationId, Of(plan), record, journal)).None?
    ensures var u := Next(t, PrepareCommit(plan, record, journal, true), c);
            HasPrepared(s, u) && u.sessions == t.sessions
  {
  }

  lemma CanStillBegin(s: GuardianState, t: GuardianState, plan: RotationPlan, begin: BeginCertificate, c: Clock)
    requires CanBegin(s, plan, begin, c) && HasPrepared(s, t)
    ensures CanBegin(t, plan, begin, c)
  {
  }

  lemma OpenedReaches(s: GuardianState, t: GuardianState, u: GuardianState, plan: RotationPlan, capsule: Capsule)
    requires HasPrepared(s, t) && Opened(t, u, plan) && !Routed(s, plan.newRoster)
    requires ActivatedCapsule(s.card, capsule) && CapsuleFitsPlan(s, plan, capsule)
    ensures ActivationReaches(u, plan, capsule) && !Routed(u, plan.newRoster)
    ensures u.desk.store.prepared.Some? && u.desk.store.active == s.desk.store.active
  {
  }

  lemma ActivationSteps(s: GuardianState, q: Request, c: Clock)
    requires ValidGuardian(s) && q.ActivateRotation? && q.IsFresh(s, c.wall) && ActivationReaches(s, q.plan, q.capsule)
    ensures Next(s, q, c) == ActivationNext(s, q.plan, q.capsule, q.deadline)
  {
  }

  /** Begin and prepare one rotation, then begin a second that leaves this guardian out:
      the capsule of the second wedges its session, for ever. */
  lemma SecondRotationWedges(s: GuardianState, first: RotationPlan, begin: BeginCertificate, record: GuardianRecord,
                             journal: DpssJournal, second: RotationPlan, begin': BeginCertificate, capsule: Capsule,
                             deadline: U64, c: Clock) returns (run: Run)
    requires ValidGuardian(s) && Linked(s) && s.sessions == map[] && s.desk.store.tombstones == map[]
    requires CanBegin(s, first, begin, c) && CanBegin(s, second, begin', c)
    requires first.context.rotationId != second.context.rotationId
    requires Routed(s, first.newRoster) && !Routed(s, second.newRoster)
    requires record.configRef == first.successor
    requires Refusal(s.desk.store, Prepare(first.context.rotationId, Of(first), record, journal)).None?
    requires ActivatedCapsule(s.card, capsule) && CapsuleFitsPlan(s, second, capsule)
    ensures run.Valid() && run.states[0] == s && |run.steps| == 4
    ensures ActivationReaches(run.states[3], second, capsule)
    ensures Refusal(run.states[3].desk.store, EpochChange(run.states[3], second, capsule, deadline)) == Some(Conflict)
    ensures Wedged(run.states[4], second.context.rotationId) && run.states[4].desk.store.active == s.desk.store.active
  {
    run := RunFrom(s, [
      RunStep(BeginRotation(first, begin, true), c),
      RunStep(PrepareCommit(first, record, journal, true), c),
      RunStep(BeginRotation(second, begin', true), c),
      RunStep(ActivateRotation(second, capsule, deadline), c)]);
    PreparedWith(run, first, begin, record, journal, c);
    StateIsValid(run, 2);
    OpensSecond(s, run.states[2], second, begin', capsule, c);
    ReachedWith(run, s, second, begin', capsule, c);
    WedgedWith(run, s, second, capsule, deadline, c);
  }

  lemma PreparedWith(run: Run, plan: RotationPlan, begin: BeginCertificate, record: GuardianRecord, journal: DpssJournal, c: Clock)
    requires run.Valid() && |run.steps| >= 2
    requires run.steps[0] == RunStep(BeginRotation(plan, begin, true), c)
    requires run.steps[1] == RunStep(PrepareCommit(plan, record, journal, true), c)
    requires var s := run.states[0]; CanBegin(s, plan, begin, c) && s.sessions == map[] && s.desk.store.tombstones == map[]
    requires Routed(run.states[0], plan.newRoster) && record.configRef == plan.successor
    requires Refusal(run.states[0].desk.store, Prepare(plan.context.rotationId, Of(plan), record, journal)).None?
    ensures HasPrepared(run.states[0], run.states[2]) && run.states[2].sessions.Keys == {plan.context.rotationId}
  {
    AtSucc(run, 0);
    BeginOpens(run.states[0], plan, begin, c);
    AtSucc(run, 1);
    PrepareStores(run.states[0], run.states[1], plan, record, journal, c);
  }

  lemma OpensSecond(s: GuardianState, t: GuardianState, plan: RotationPlan, begin: BeginCertificate, capsule: Capsule, c: Clock)
    requires ValidGuardian(t) && HasPrepared(s, t)
    requires plan.context.rotationId !in t.sessions && plan.context.rotationId !in t.desk.store.tombstones
    requires CanBegin(s, plan, begin, c) && !Routed(s, plan.newRoster)
    requires ActivatedCapsule(s.card, capsule) && CapsuleFitsPlan(s, plan, capsule)
    ensures AboutToWedge(s, Next(t, BeginRotation(plan, begin, true), c), plan, capsule, c)
  {
    CanStillBegin(s, t, plan, begin, c);
    BeginOpens(t, plan, begin, c);
    OpenedReaches(s, t, Next(t, BeginRotation(plan, begin, true), c), plan, capsule);
  }

  ghost predicate AboutToWedge(s: GuardianState, u: GuardianState, plan: RotationPlan, capsule: Capsule, c: Clock) {
    && ActivationReaches(u, plan, capsule) && !Routed(u, plan.newRoster) && Fresh(u, plan.context, c.wall)
    && u.desk.store.prepared.Some? && u.desk.store.active == s.desk.store.active
  }

  lemma ReachedWith(run: Run, s: GuardianState, plan: RotationPlan, begin: BeginCertificate, capsule: Capsule, c: Clock)
    requires run.Valid() && |run.steps| >= 3
    requires run.steps[2] == RunStep(BeginRotation(plan, begin, true), c) && ValidGuardian(run.states[2])
    requires AboutToWedge(s, Next(run.states[2], BeginRotation(plan, begin, true), c), plan, capsule, c)
    ensures AboutToWedge(s, run.states[3], plan, capsule, c)
  {
    AtSucc(run, 2);
  }

  lemma WedgedWith(run: Run, s: GuardianState, plan: RotationPlan, capsule: Capsule, deadline: U64, c: Clock)
    requires run.Valid() && |run.steps| == 4
    requires run.steps[3] == RunStep(ActivateRotation(plan, capsule, deadline), c)
    requires AboutToWedge(s, run.states[3], plan, capsule, c)
    ensures Refusal(run.states[3].desk.store, EpochChange(run.states[3], plan, capsule, deadline)) == Some(Conflict)
    ensures Wedged(run.states[4], plan.context.rotationId) && run.states[4].desk.store.active == s.desk.store.active
  {
    AtSucc(run, 3);
    ActivationSteps(run.states[3], run.steps[3].request, c);
    StalePreparedWedges(run.states[3], plan, capsule, deadline);
  }

  // ---- Such entries exist --------------------------------------------------------

  function Route(index: nat, key: Key): GuardianRoute {
    GuardianRoute(index, 0, "", key, 0, 0)
  }

  /** A roster of three guardians. */
  function SampleRoster(a: Key, b: Key, c: Key): seq<GuardianRoute> {
    [Route(1, a), Route(2, b), Route(3, c)]
  }

  function SamplePlan(rotationId: Id32, oldRoster: seq<GuardianRoute>, newRoster: seq<GuardianRoute>): RotationPlan {
    RotationPlan(SampleContext(rotationId), Raw(rotationId), SampleGenesis().body.configRef,
                 SampleChild(rotationId).capsule.body.configRef, oldRoster, newRoster,
                 Of(oldRoster), Of(newRoster), 2, 2, 2, 3, 1, 0, Of(newRoster), 0, 500, 800)
  }

  function SampleBegin(plan: RotationPlan): BeginCertificate {
    var body := BeginVoteBody(plan.context, plan.intentHash, Of(plan), plan.oldRosterCommitment, plan.newRosterCommitment, 1, SIGNER);
    BeginCertificate(plan.context, plan.intentHash, Of(plan), plan.oldRosterCommitment, plan.newRosterCommitment, 0,
                     [BeginVote(body, Signature(SIGNER, BeginVoteMessage(body)))])
  }

  /** A guardian newly provisioned on the genesis capsule. */
  function SampleGuardian(key: Key): GuardianState {
    GuardianState(SampleCard(), key, SampleGenesis(),
                  Desk(NewStore(GuardianRecord(SampleGenesis().body.configRef, ZERO_HASH, ActiveEpoch, None, None, 0, 0),
                                SampleGenesis().hash), map[], map[]), map[])
  }

  lemma SampleCanBegin(key: Key, rotationId: Id32, oldRoster: seq<GuardianRoute>, newRoster: seq<GuardianRoute>)
    requires rotationId != 0 && RosterEncodes(oldRoster) && RosterEncodes(newRoster) && |oldRoster| == 3 == |newRoster|
    requires Routed(SampleGuardian(key), oldRoster)
    ensures var plan := SamplePlan(rotationId, oldRoster, newRoster);
            CanBegin(SampleGuardian(key), plan, SampleBegin(plan), Clock(5, 5, "", false))
  {
    var s, plan := SampleGuardian(key), SamplePlan(rotationId, oldRoster, newRoster);
    assert PlanValid(plan, s.predecessor, 5);
    assert SignerLocks.BeginValid(SampleBegin(plan), plan, s.predecessor, 5);
  }

  lemma SampleRoutes(key: Key, a: Key, b: Key, c: Key)
    requires a != b && b != c && a != c
    ensures Routed(SampleGuardian(key), SampleRoster(a, b, c)) <==> key in {a, b, c}
    ensures RosterEncodes(SampleRoster(a, b, c)) && |SampleRoster(a, b, c)| == 3
  {
    var roster := SampleRoster(a, b, c);
    assert roster[1..] == [Route(2, b), Route(3, c)];
    assert roster[1..][1..] == [Route(3, c)];
    assert roster[1..][1..][1..] == [];
    assert RoutesOf(roster[1..][1..], key) == if c == key then [Route(3, c)] else [];
    assert RoutesOf(roster[1..], key) == (if b == key then [Route(2, b)] else []) + RoutesOf(roster[1..][1..], key);
  }

  function SampleRecord(plan: RotationPlan): GuardianRecord {
    GuardianRecord(plan.successor, SampleGenesis().hash, PreparedEpoch, None, None, 0, 0)
  }

  lemma SamplePrepares(key: Key, rotationId: Id32, oldRoster: seq<GuardianRoute>, newRoster: seq<GuardianRoute>)
    requires rotationId != 0
    ensures var plan := SamplePlan(rotationId, oldRoster, newRoster);
            Refusal(SampleGuardian(key).desk.store,
                    Prepare(rotationId, Of(plan), SampleRecord(plan), DpssJournal(rotationId, Of(plan), 0))).None?
  {
  }

  lemma SampleFits(key: Key, rotationId: Id32, oldRoster: seq<GuardianRoute>, newRoster: seq<GuardianRoute>)
    requires rotationId != 0 && RosterEncodes(oldRoster) && RosterEncodes(newRoster) && |oldRoster| == 3 == |newRoster|
    ensures CapsuleFitsPlan(SampleGuardian(key), SamplePlan(rotationId, oldRoster, newRoster), SampleCertified(rotationId))
  {
  }

  lemma SampleGuardianIsValid(key: Key)
    ensures ValidGuardian(SampleGuardian(key)) && Linked(SampleGuardian(key))
    ensures SampleGuardian(key).sessions == map[] && SampleGuardian(key).desk.store.tombstones == map[]
  {
  }

  /** From a new entry: a rotation that keeps the guardian is begun and prepared, one that
      replaces it is begun and activated, and its session is wedged. */
  lemma WedgeIsReachable(key: Key, a: Key, b: Key, x: Key, r: Id32, r': Id32) returns (run: Run)
    requires key !in {a, b, x} && a != b && b != x && a != x && r != 0 && r' != 0 && r != r'
    ensures run.Valid() && run.states[0] == SampleGuardian(key) && |run.steps| == 4
    ensures Wedged(run.states[4], r') && run.states[4].desk.store.active == SampleGuardian(key).desk.store.active
  {
    var now, stays, leaves := SampleRoster(key, a, b), SampleRoster(key, a, x), SampleRoster(a, b, x);
    SampleRoutes(key, key, a, b);
    SampleRoutes(key, key, a, x);
    SampleRoutes(key, a, b, x);
    run := WedgeWith(key, now, stays, leaves, r, r');
  }

  lemma WedgeWith(key: Key, now: seq<GuardianRoute>, stays: seq<GuardianRoute>, leaves: seq<GuardianRoute>, r: Id32, r': Id32)
      returns (run: Run)
    requires RosterEncodes(now) && RosterEncodes(stays) && RosterEncodes(leaves) && |now| == |stays| == |leaves| == 3
    requires Routed(SampleGuardian(key), now) && Routed(SampleGuardian(key), stays) && !Routed(SampleGuardian(key), leaves)
    requires r != 0 && r' != 0 && r != r'
    ensures run.Valid() && run.states[0] == SampleGuardian(key) && |run.steps| == 4
    ensures Wedged(run.states[4], r') && run.states[4].desk.store.active == SampleGuardian(key).desk.store.active
  {
    var first, second := SamplePlan(r, now, stays), SamplePlan(r', now, leaves);
    SampleCanBegin(key, r, now, stays);
    SampleCanBegin(key, r', now, leaves);
    SamplePrepares(key, r, now, stays);
    SampleFits(key, r', now, leaves);
    SampleIsActivated(r');
    SampleGuardianIsValid(key);
    run := SecondRotationWedges(SampleGuardian(key), first, SampleBegin(first), SampleRecord(first), DpssJournal(r, Of(first), 0),
                                second, SampleBegin(second), SampleCertified(r'), 900, Clock(5, 5, "", false));
  }
}
