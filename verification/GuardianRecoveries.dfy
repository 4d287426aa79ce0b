/** Recoveries at one guardian, on top of its epoch store: what it began, what it still
    owes, and how a running recovery follows its epoch from ACTIVE into DRAINING. */
module GuardianRecoveries {
  import opened Foundations
  import opened EpochTypes
  import opened GuardianEpochs

  datatype RecoveryRequest = RecoveryRequest(
    protocolVersion: nat,
    configRef: ConfigRef,
    requestId: Id32,
    recipientKey: KeyBytes,
    requestedAt: U64,
    nonce: Id32,
    expiry: U64)

  datatype Recovery = Recovery(
    request: RecoveryRequest,
    digest: Hash<RecoveryRequest>,
    acceptedWall: U64,
    started: U64,
    notBefore: U64,
    bootId: string,
    cancelled: bool,
    released: bool)
  {
    predicate Live() { !cancelled && !released }
  }

  /** The part of a guardian's entry that recoveries live in; `vetoes` are the owner's
      recovery cancellations. */
  datatype Desk = Desk(store: StoreState, recoveries: map<Id32, Recovery>, vetoes: map<Id32, Hash<RecoveryRequest>>)

  // ---- Requests ------------------------------------------------------------------

  predicate RequestValid(q: RecoveryRequest, capsule: Capsule, configRef: ConfigRef, now: U64) {
    && q.protocolVersion == PROTOCOL_VERSION_V3
    && q.configRef == configRef
    && q.configRef.configId == capsule.body.configRef.configId
    && q.configRef.payloadGeneration == capsule.body.configRef.payloadGeneration
    && q.configRef.authorizationEpoch == capsule.body.configRef.authorizationEpoch
    && |q.recipientKey| == XWING_PUBLIC_KEY_LEN
    && q.requestedAt <= now < q.expiry
    && q.expiry <= SatAdd(q.requestedAt, capsule.body.maxRequestLifetime)
  }

  /** The guardian holds a record for this exact epoch, and if the epoch is draining, the
      request began before the activation. */
  predicate HasRecord(store: StoreState, configRef: ConfigRef, requestId: Id32) {
    || (store.active.Some? && store.active.value.configRef == configRef)
    || (&& configRef.guardianEpoch in store.draining
        && store.draining[configRef.guardianEpoch].record.configRef == configRef
        && requestId in store.draining[configRef.guardianEpoch].pending)
  }

  predicate NonceUnused(recoveries: map<Id32, Recovery>, nonce: Id32) {
    forall k :: k in recoveries ==> recoveries[k].request.nonce != nonce
  }

  /** `quorum` is the verdict on the signer contributions of the Begin certificate. */
  predicate BeginAdmitted(d: Desk, capsule: Capsule, q: RecoveryRequest, quorum: bool, wall: U64) {
    && d.store.active.Some? && d.store.active.value.configRef == q.configRef
    && RequestValid(q, capsule, capsule.body.configRef, wall)
    && quorum
    && q.requestId !in d.vetoes
    && if q.requestId in d.recoveries
       then d.recoveries[q.requestId].digest == Of(q) && d.recoveries[q.requestId].request == q
       else NonceUnused(d.recoveries, q.nonce)
  }

  /** The delay a Begin starts; `demo` shortens it to two seconds at most. */
  function StartDelay(record: GuardianRecord, demo: bool): U64 {
    if demo && record.minimumRecoveryDelay > 2 then 2 else record.minimumRecoveryDelay
  }

  function BeginNext(d: Desk, q: RecoveryRequest, wall: U64, now: U64, boot: string, demo: bool): Desk
    requires d.store.active.Some?
  {
    if q.requestId in d.recoveries then d
    else
      var notBefore := SatAdd(now, StartDelay(d.store.active.value, demo));
      d.(recoveries := d.recoveries[q.requestId := Recovery(q, Of(q), wall, now, notBefore, boot, false, false)])
  }

  /** `ownerSigned` is the verdict on the owner's cancellation certificate. */
  predicate CancelAdmitted(d: Desk, capsule: Capsule, q: RecoveryRequest, ownerSigned: bool, wall: U64) {
    && q.protocolVersion == PROTOCOL_VERSION_V3
    && HasRecord(d.store, q.configRef, q.requestId)
    && RequestValid(q, capsule, q.configRef, wall)
    && ownerSigned
    && (q.requestId in d.recoveries ==>
          d.recoveries[q.requestId].digest == Of(q) && !d.recoveries[q.requestId].released)
  }

  function CancelNext(d: Desk, q: RecoveryRequest): Desk {
    d.(vetoes := d.vetoes[q.requestId := Of(q)],
       recoveries :=
         if q.requestId in d.recoveries
         then d.recoveries[q.requestId := d.recoveries[q.requestId].(cancelled := true)]
         else d.recoveries)
  }

  /** `certified` is the request the Release certificate is about, `quorum` the verdict on
      its signer votes. */
  predicate ReleaseAdmitted(d: Desk, capsule: Capsule, q: RecoveryRequest, certified: RecoveryRequest, quorum: bool,
                            wall: U64, now: U64, boot: string) {
    && q.protocolVersion == PROTOCOL_VERSION_V3 && |q.recipientKey| == XWING_PUBLIC_KEY_LEN
    && RequestValid(certified, capsule, q.configRef, wall)
    && quorum
    && HasRecord(d.store, q.configRef, q.requestId)
    && q.requestId in d.recoveries
    && var pending := d.recoveries[q.requestId];
    && pending.request == q && pending.digest == Of(certified)
    && pending.Live()
    && !(q.requestId in d.vetoes && d.vetoes[q.requestId] == Of(certified))
    && pending.bootId == boot
    && pending.notBefore <= now
    && wall < pending.request.expiry
  }

  function ReleaseNext(d: Desk, q: RecoveryRequest): Desk
    requires q.requestId in d.recoveries
  {
    var e := q.configRef.guardianEpoch;
    d.(recoveries := d.recoveries[q.requestId := d.recoveries[q.requestId].(released := true)],
       store :=
         if e in d.store.draining
         then d.store.(draining := d.store.draining[e := d.store.draining[e].(pending := d.store.draining[e].pending - {q.requestId})])
         else d.store)
  }

  /** The recoveries a guardian still owes for one configuration. */
  function LiveFor(recoveries: map<Id32, Recovery>, configRef: ConfigRef): set<Id32> {
    set k | k in recoveries && recoveries[k].request.configRef == configRef && recoveries[k].Live() :: recoveries[k].request.requestId
  }

  // ---- Drain completeness --------------------------------------------------------

  ghost predicate Tracked(store: StoreState, k: Id32, r: Recovery) {
    && r.request.requestId == k && r.digest == Of(r.request)
    && (r.Live() ==> HasRecord(store, r.request.configRef, k))
  }

  /** What a draining epoch still waits for really began there and was not released. */
  ghost predicate Owed(recoveries: map<Id32, Recovery>, d: DrainingGuardian, k: Id32) {
    && k in recoveries
    && recoveries[k].request.configRef == d.record.configRef
    && !recoveries[k].released
  }

  ghost predicate DrainComplete(d: Desk) {
    && (forall k :: k in d.recoveries ==> Tracked(d.store, k, d.recoveries[k]))
    && (forall e: U64, k :: e in d.store.draining && k in d.store.draining[e].pending ==> Owed(d.recoveries, d.store.draining[e], k))
    && (forall k :: k in d.recoveries && d.recoveries[k].cancelled ==> k in d.vetoes)
  }

  ghost predicate ValidDesk(d: Desk) {
    ValidStore(d.store) && DrainComplete(d)
  }

  lemma BeginKeeps(d: Desk, q: RecoveryRequest, wall: U64, now: U64, boot: string, demo: bool)
    requires ValidDesk(d) && d.store.active.Some? && d.store.active.value.configRef == q.configRef
    ensures ValidDesk(BeginNext(d, q, wall, now, boot, demo))
  {
    var d' := BeginNext(d, q, wall, now, boot, demo);
    forall k | k in d'.recoveries
      ensures Tracked(d'.store, k, d'.recoveries[k])
    {
      if k in d.recoveries {
        assert Tracked(d.store, k, d.recoveries[k]);
      }
    }
    forall e: U64, k | e in d'.store.draining && k in d'.store.draining[e].pending
      ensures Owed(d'.recoveries, d'.store.draining[e], k)
    {
      assert Owed(d.recoveries, d.store.draining[e], k);
    }
  }

  lemma CancelKeeps(d: Desk, q: RecoveryRequest)
    requires ValidDesk(d)
    ensures ValidDesk(CancelNext(d, q))
  {
    var d' := CancelNext(d, q);
    forall k | k in d'.recoveries
      ensures Tracked(d'.store, k, d'.recoveries[k])
    {
      assert Tracked(d.store, k, d.recoveries[k]);
    }
    forall e: U64, k | e in d'.store.draining && k in d'.store.draining[e].pending
      ensures Owed(d'.recoveries, d'.store.draining[e], k)
    {
      assert Owed(d.recoveries, d.store.draining[e], k);
    }
  }

  lemma ReleaseKeepsStore(d: Desk, q: RecoveryRequest)
    requires ValidStore(d.store) && q.requestId in d.recoveries
    ensures ValidStore(ReleaseNext(d, q).store)
  {
    var e := q.configRef.guardianEpoch;
    if e in d.store.draining {
      StepKeepsValid(d.store, FinishRequest(e, q.requestId));
    }
  }

  lemma ReleaseTracks(d: Desk, q: RecoveryRequest, k: Id32)
    requires ValidDesk(d) && q.requestId in d.recoveries && d.recoveries[q.requestId].request == q
    requires k in d.recoveries
    ensures Tracked(ReleaseNext(d, q).store, k, ReleaseNext(d, q).recoveries[k])
  {
    assert Tracked(d.store, k, d.recoveries[k]);
  }

  lemma ReleaseOwes(d: Desk, q: RecoveryRequest, e: U64, k: Id32)
    requires ValidDesk(d) && q.requestId in d.recoveries && d.recoveries[q.requestId].request == q
    requires e in d.store.draining && k in d.store.draining[e].pending && (e == q.configRef.guardianEpoch ==> k != q.requestId)
    ensures Owed(ReleaseNext(d, q).recoveries, ReleaseNext(d, q).store.draining[e], k)
  {
    assert Owed(d.recoveries, d.store.draining[e], k);
    assert DrainsAt(d.store, e, d.store.draining[e]);
  }

  /** Only the epoch of the request waits for it. */
  lemma ReleaseTakesOne(d: Desk, q: RecoveryRequest, e: U64)
    requires ValidDesk(d) && q.requestId in d.recoveries && d.recoveries[q.requestId].request == q && e in d.store.draining
    ensures e in ReleaseNext(d, q).store.draining
    ensures ReleaseNext(d, q).store.draining[e].pending == d.store.draining[e].pending - {q.requestId}
  {
    if q.requestId in d.store.draining[e].pending {
      assert Owed(d.recoveries, d.store.draining[e], q.requestId);
      assert DrainsAt(d.store, e, d.store.draining[e]);
    }
  }

  lemma ReleaseKeeps(d: Desk, q: RecoveryRequest)
    requires ValidDesk(d) && q.requestId in d.recoveries && d.recoveries[q.requestId].request == q
    ensures ValidDesk(ReleaseNext(d, q))
    ensures forall e: U64 :: e in d.store.draining ==>
              && e in ReleaseNext(d, q).store.draining
              && ReleaseNext(d, q).store.draining[e].pending == d.store.draining[e].pending - {q.requestId}
  {
    ReleaseKeepsStore(d, q);
    var d' := ReleaseNext(d, q);
    forall k | k in d'.recoveries
      ensures Tracked(d'.store, k, d'.recoveries[k])
    {
      ReleaseTracks(d, q, k);
    }
    forall e: U64, k | e in d'.store.draining && k in d'.store.draining[e].pending
      ensures Owed(d'.recoveries, d'.store.draining[e], k)
    {
      ReleaseOwes(d, q, e, k);
    }
    forall e: U64 | e in d.store.draining
      ensures e in d'.store.draining && d'.store.draining[e].pending == d.store.draining[e].pending - {q.requestId}
    {
      ReleaseTakesOne(d, q, e);
    }
  }

  /** The pending set an epoch change hands over is exactly what is owed for the active
      configuration (a guardian without one hands over nothing). */
  ghost predicate HandsOver(d: Desk, op: StoreOp) {
    op.Activate? || op.ObserveReplacement? ==>
      && (d.store.active.Some? ==> op.pendingIds == LiveFor(d.recoveries, d.store.expected))
      && (d.store.active.None? ==> op.pendingIds == {})
  }

  ghost predicate EpochLeft(s: StoreState) { s.expected.guardianEpoch < U64_MAX }

  lemma LiveForIsLive(recoveries: map<Id32, Recovery>, configRef: ConfigRef)
    requires forall k :: k in recoveries ==> recoveries[k].request.requestId == k
    ensures forall k :: k in LiveFor(recoveries, configRef) <==>
              k in recoveries && recoveries[k].request.configRef == configRef && recoveries[k].Live()
  {
    forall k | k in recoveries && recoveries[k].request.configRef == configRef && recoveries[k].Live()
      ensures k in LiveFor(recoveries, configRef)
    {
      assert recoveries[k].request.requestId == k;
    }
  }

  /** The one way an epoch change drops a recovery: the epoch counter stands at its last
      value, so the record that drains under it is overwritten, while a recovery it waits
      for is still live and its configuration does not become active again. */
  ghost predicate Drops(d: Desk, op: StoreOp) {
    var s := d.store;
    var e := s.expected.guardianEpoch;
    && s.active.Some? && e in s.draining
    && s.draining[e].record.configRef != s.expected
    && !(op.Activate? && s.prepared.Some? && s.draining[e].record.configRef == s.prepared.value.record.configRef)
    && exists k :: k in s.draining[e].pending && k in d.recoveries && d.recoveries[k].Live()
  }

  lemma DropsOnlyAtLastEpoch(d: Desk, op: StoreOp)
    requires ValidDesk(d) && EpochLeft(d.store)
    ensures !Drops(d, op)
  {
    var e := d.store.expected.guardianEpoch;
    if e in d.store.draining {
      assert DrainsAt(d.store, e, d.store.draining[e]);
    }
  }

  lemma NewPendingIsOwed(d: Desk, op: StoreOp)
    requires ValidDesk(d) && (op.Activate? || op.ObserveReplacement?) && Refusal(d.store, op).None?
    requires HandsOver(d, op)
    ensures forall e: U64, k :: e in Applied(d.store, op).draining && k in Applied(d.store, op).draining[e].pending ==>
              Owed(d.recoveries, Applied(d.store, op).draining[e], k)
  {
    var s, s' := d.store, Applied(d.store, op);
    assert forall k :: k in d.recoveries ==> Tracked(s, k, d.recoveries[k]);
    LiveForIsLive(d.recoveries, s.expected);
    forall e: U64, k | e in s'.draining && k in s'.draining[e].pending
      ensures Owed(d.recoveries, s'.draining[e], k)
    {
      if s.active.None? || e != s.expected.guardianEpoch {
        assert Owed(d.recoveries, s.draining[e], k);
      }
    }
  }

  lemma TrackedAcrossChange(d: Desk, op: StoreOp, k: Id32)
    requires ValidDesk(d) && (op.Activate? || op.ObserveReplacement?) && Refusal(d.store, op).None?
    requires HandsOver(d, op) && k in d.recoveries
    requires !Drops(d, op)
    ensures Tracked(Applied(d.store, op), k, d.recoveries[k])
  {
    assert forall i :: i in d.recoveries ==> Tracked(d.store, i, d.recoveries[i]);
    LiveForIsLive(d.recoveries, d.store.expected);
  }

  /** An epoch change keeps drain completeness exactly when it drops no recovery. */
  lemma EpochChangeKeeps(d: Desk, op: StoreOp)
    requires ValidDesk(d) && (op.Activate? || op.ObserveReplacement?) && Refusal(d.store, op).None?
    requires HandsOver(d, op)
    ensures DrainComplete(d.(store := Applied(d.store, op))) <==> !Drops(d, op)
  {
    var s, s' := d.store, Applied(d.store, op);
    var d' := d.(store := s');
    NewPendingIsOwed(d, op);
    if Drops(d, op) {
      var e := s.expected.guardianEpoch;
      var k :| k in s.draining[e].pending && k in d.recoveries && d.recoveries[k].Live();
      assert Owed(d.recoveries, s.draining[e], k) && DrainsAt(s, e, s.draining[e]);
      assert !Tracked(s', k, d'.recoveries[k]);
    } else {
      forall k | k in d.recoveries
        ensures Tracked(s', k, d.recoveries[k])
      {
        TrackedAcrossChange(d, op, k);
      }
    }
  }

  lemma OtherOpKeeps(d: Desk, op: StoreOp)
    requires ValidDesk(d) && (op.Prepare? || op.Abort? || op.Retire?) && Refusal(d.store, op).None?
    ensures DrainComplete(d.(store := Applied(d.store, op)))
  {
    var s' := Applied(d.store, op);
    forall k | k in d.recoveries
      ensures Tracked(s', k, d.recoveries[k])
    {
      assert Tracked(d.store, k, d.recoveries[k]);
    }
    forall e: U64, k | e in s'.draining && k in s'.draining[e].pending
      ensures Owed(d.recoveries, s'.draining[e], k)
    {
      assert Owed(d.recoveries, d.store.draining[e], k);
    }
  }

  // ---- What a draining epoch is worth --------------------------------------------

  /** An epoch retires only when nothing live is left of it. */
  lemma RetirementOwesNothing(d: Desk, e: U64, now: U64)
    requires ValidDesk(d) && Refusal(d.store, Retire(e, now)).None?
    ensures forall k :: k in d.recoveries && d.recoveries[k].request.configRef == d.store.draining[e].record.configRef && d.recoveries[k].Live() ==>
              d.store.active.Some? && d.store.active.value.configRef == d.recoveries[k].request.configRef
    ensures now >= d.store.draining[e].deadline
  {
    assert DrainsAt(d.store, e, d.store.draining[e]);
    forall k | k in d.recoveries && d.recoveries[k].Live()
      ensures Tracked(d.store, k, d.recoveries[k])
    {
    }
  }

  /** A recovery its owner cancelled while its epoch drains stays in that epoch's pending
      set: Release refuses it, and nothing else takes a request out. */
  ghost predicate Stranded(d: Desk, e: U64, k: Id32) {
    && e in d.store.draining && k in d.store.draining[e].pending
    && k in d.recoveries && d.recoveries[k].cancelled
  }

  lemma CancelStrands(d: Desk, q: RecoveryRequest)
    requires ValidDesk(d) && q.configRef.guardianEpoch in d.store.draining
    requires q.requestId in d.store.draining[q.configRef.guardianEpoch].pending
    ensures Stranded(CancelNext(d, q), q.configRef.guardianEpoch, q.requestId)
  {
    assert Owed(d.recoveries, d.store.draining[q.configRef.guardianEpoch], q.requestId);
  }

  /** Below the last epoch a stranded recovery stays stranded whatever the guardian does
      next, so its epoch never retires. */
  lemma StrandedStays(d: Desk, e: U64, k: Id32, q: RecoveryRequest, wall: U64, now: U64, boot: string, demo: bool, op: StoreOp)
    requires ValidDesk(d) && Stranded(d, e, k)
    ensures d.store.active.Some? ==> Stranded(BeginNext(d, q, wall, now, boot, demo), e, k)
    ensures Stranded(CancelNext(d, q), e, k)
    ensures q.requestId in d.recoveries && d.recoveries[q.requestId].Live() ==> Stranded(ReleaseNext(d, q), e, k)
    ensures EpochLeft(d.store) && !op.FinishRequest? ==> Stranded(d.(store := Step(d.store, op)), e, k)
  {
    assert DrainsAt(d.store, e, d.store.draining[e]);
  }
}
