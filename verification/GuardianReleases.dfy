/** Why a guardian releases its share: over every run, what each Begin, veto and release was
    asked for with, and how long the release waited. */
module GuardianReleases {
  import opened Foundations
  import opened EpochTypes
  import opened EpochSelection
  import opened GuardianEpochs
  import GuardianEpochRuns
  import opened GuardianRecoveries
  import opened GuardianEntry
  import opened GuardianRuns
  import opened GuardianTheorems

  /** At step `i` the guardian accepted the first Begin of `q`, under the epoch then active. */
  ghost predicate Opens(run: Run, i: nat, q: RecoveryRequest)
    requires run.Valid() && i < |run.steps|
  {
    && run.moves[i] == Began(q)
    && var store := run.states[i].desk.store;
    store.active.Some? && store.active.value.configRef == q.configRef
  }

  ghost function EarliestRelease(run: Run, i: nat): U64
    requires run.Valid() && i < |run.steps| && run.states[i].desk.store.active.Some?
  {
    SatAdd(run.steps[i].clock.now, StartDelay(run.states[i].desk.store.active.value, run.steps[i].clock.demo))
  }

  ghost predicate OpenedAs(run: Run, i: nat, r: Recovery)
    requires run.Valid() && i < |run.steps|
  {
    && Opens(run, i, r.request)
    && r.request.requestId !in run.states[i].desk.recoveries
    && r.notBefore == EarliestRelease(run, i)
    && r.bootId == run.steps[i].clock.boot
    && r.digest == Of(r.request)
  }

  lemma MoveOrigin(d: Desk, m: Move, c: Clock, k: Id32)
    requires ValidStore(d.store) && Grounded(d, m, c) && k in DeskAfter(d, m, c).recoveries && k !in d.recoveries
    ensures m.Began? && m.q.requestId == k && d.store.active.Some?
    ensures DeskAfter(d, m, c).recoveries[k] ==
            Recovery(m.q, Of(m.q), c.wall, c.now, SatAdd(c.now, StartDelay(d.store.active.value, c.demo)), c.boot, false, false)
  {
  }

  lemma {:induction false} RecoveryOrigin(run: Run, t: nat, k: Id32)
    requires run.Valid() && run.states[0].desk.recoveries == map[] && t <= |run.steps|
    requires k in run.states[t].desk.recoveries
    ensures exists i: nat :: i < t && OpenedAs(run, i, run.states[t].desk.recoveries[k])
                             && run.states[t].desk.recoveries[k].request.requestId == k
    decreases t
  {
    var d, m, c := run.states[t - 1].desk, run.moves[t - 1], run.steps[t - 1].clock;
    DeskSucc(run, t - 1);
    if k in d.recoveries {
      RecoveryOrigin(run, t - 1, k);
      MoveExtends(d, m, c);
      assert Continues(d.recoveries[k], run.states[t].desk.recoveries[k]);
      var i: nat :| i < t - 1 && OpenedAs(run, i, d.recoveries[k]);
      assert OpenedAs(run, i, run.states[t].desk.recoveries[k]);
    } else {
      MoveOrigin(d, m, c, k);
      assert OpenedAs(run, t - 1, run.states[t].desk.recoveries[k]);
    }
  }

  /** No release of this request can be accepted: it is over, or it was vetoed before it
      began. */
  predicate Closed(d: Desk, k: Id32) {
    if k in d.recoveries then !d.recoveries[k].Live() else k in d.vetoes
  }

  lemma MoveKeepsClosed(d: Desk, m: Move, c: Clock, k: Id32)
    requires ValidStore(d.store) && Grounded(d, m, c) && Closed(d, k)
    ensures Closed(DeskAfter(d, m, c), k)
  {
  }

  lemma MoveCloses(d: Desk, m: Move, c: Clock)
    requires ValidStore(d.store) && Grounded(d, m, c) && (m.Vetoed? || m.Delivered?)
    ensures Closed(DeskAfter(d, m, c), m.q.requestId)
  {
  }

  lemma {:induction false} ClosedStays(run: Run, i: nat, j: nat, k: Id32)
    requires run.Valid() && i <= j <= |run.steps| && Closed(run.states[i].desk, k)
    ensures Closed(run.states[j].desk, k)
    decreases j
  {
    if i < j {
      ClosedStays(run, i, j - 1, k);
      DeskSucc(run, j - 1);
      MoveKeepsClosed(run.states[j - 1].desk, run.moves[j - 1], run.steps[j - 1].clock, k);
    }
  }

  /** A veto or a delivery is followed by no delivery of the same request. */
  lemma NothingAfterClose(run: Run, k: nat, j: nat, q: RecoveryRequest)
    requires run.Valid() && k < j < |run.steps|
    requires run.moves[k] == Vetoed(q) || run.moves[k] == Delivered(q)
    ensures run.moves[j] != Delivered(q)
  {
    DeskSucc(run, k);
    MoveCloses(run.states[k].desk, run.moves[k], run.steps[k].clock);
    ClosedStays(run, k + 1, j, q.requestId);
    DeskSucc(run, j);
  }

  // ---- What a move was asked for with --------------------------------------------

  /** The request is one of this configuration, in date, and lives no longer than the
      followed capsule allows. */
  predicate InDate(q: RecoveryRequest, followed: Capsule, wall: U64) {
    && q.protocolVersion == PROTOCOL_VERSION_V3 && |q.recipientKey| == XWING_PUBLIC_KEY_LEN
    && q.configRef.configId == followed.body.configRef.configId
    && q.configRef.payloadGeneration == followed.body.configRef.payloadGeneration
    && q.configRef.authorizationEpoch == followed.body.configRef.authorizationEpoch
    && q.requestedAt <= wall < q.expiry <= SatAdd(q.requestedAt, followed.body.maxRequestLifetime)
  }

  /** The guardian still answers for the request: its epoch is active, or draining and
      waiting for it. */
  predicate InForce(store: StoreState, q: RecoveryRequest) {
    || (store.active.Some? && store.active.value.configRef == q.configRef)
    || exists e: U64 :: e in store.draining && store.draining[e].record.configRef == q.configRef && q.requestId in store.draining[e].pending
  }

  lemma BeganMeans(s: GuardianState, r: Request, c: Clock, q: RecoveryRequest)
    requires MoveOf(s, r, c) == Began(q)
    ensures r == BeginRecovery(q, true) && InDate(q, s.predecessor, c.wall) && q.configRef == s.predecessor.body.configRef
    ensures s.desk.store.active.Some? && s.desk.store.active.value.configRef == q.configRef
    ensures q.requestId !in s.desk.vetoes
  {
  }

  lemma DeliveredMeans(s: GuardianState, r: Request, c: Clock, q: RecoveryRequest)
    requires MoveOf(s, r, c) == Delivered(q)
    ensures r.ReleaseRecovery? && r.q == q && r.quorum
    ensures q.requestId in s.desk.recoveries && s.desk.recoveries[q.requestId].digest == Of(r.certified)
    ensures InDate(r.certified, s.predecessor, c.wall) && InForce(s.desk.store, q)
  {
  }

  lemma VetoedMeans(s: GuardianState, r: Request, c: Clock, q: RecoveryRequest)
    requires MoveOf(s, r, c) == Vetoed(q)
    ensures r == CancelRecovery(q, true) && InDate(q, s.predecessor, c.wall) && InForce(s.desk.store, q)
  {
  }

  /** Every veto is the owner's, of a request in date that the guardian still answers for and
      has not released; the very request, if the guardian has begun it. */
  lemma VetoIsTheOwners(run: Run, k: nat, q: RecoveryRequest)
    requires run.Valid() && k < |run.steps| && run.moves[k] == Vetoed(q)
    ensures run.steps[k].request == CancelRecovery(q, true)
    ensures InDate(q, run.states[k].predecessor, run.steps[k].clock.wall) && InForce(run.states[k].desk.store, q)
    ensures forall j: nat :: j < k && run.moves[j].Delivered? ==> run.moves[j].q.requestId != q.requestId
  {
    AtSucc(run, k);
    VetoedMeans(run.states[k], run.steps[k].request, run.steps[k].clock, q);
    DeskSucc(run, k);
    forall j: nat | j < k && run.moves[j].Delivered?
      ensures run.moves[j].q.requestId != q.requestId
    {
      DeskSucc(run, j);
      RunExtends(run, j + 1, k);
      assert run.moves[j].q.requestId in run.states[j + 1].desk.recoveries;
      assert Continues(run.states[j + 1].desk.recoveries[run.moves[j].q.requestId], run.states[k].desk.recoveries[run.moves[j].q.requestId]);
    }
  }

  // ---- Whose delay ---------------------------------------------------------------

  lemma MoveRecords(d: Desk, m: Move, c: Clock, r': GuardianRecord)
    requires ValidStore(d.store) && Grounded(d, m, c) && GuardianEpochRuns.Holds(DeskAfter(d, m, c).store, r')
    ensures || (m.Stored? && m.op.Prepare? && GuardianEpochRuns.SameRecord(m.op.record, r'))
            || exists r :: GuardianEpochRuns.Holds(d.store, r) && GuardianEpochRuns.SameRecord(r, r')
  {
    if m.Stored? {
      GuardianEpochRuns.RecordsStayOrArePrepared(d.store, m.op, r');
    } else {
      var store := DeskAfter(d, m, c).store;
      assert store.draining.Keys == d.store.draining.Keys && forall e: U64 :: e in d.store.draining ==> store.draining[e].record == d.store.draining[e].record;
      assert GuardianEpochRuns.Holds(d.store, r');
    }
  }

  ghost predicate PreparedAt(run: Run, p: nat, r: GuardianRecord)
    requires run.Valid() && p < |run.steps|
  {
    run.moves[p].Stored? && run.moves[p].op.Prepare? && run.moves[p].op.record == r
  }

  /** The guardian was provisioned with this record or had prepared it by then. */
  ghost predicate Known(run: Run, t: nat, r: GuardianRecord)
    requires run.Valid() && t <= |run.steps|
  {
    GuardianEpochRuns.Holds(run.states[0].desk.store, r) || exists p: nat :: p < t && PreparedAt(run, p, r)
  }

  lemma {:induction false} RecordIsKnown(run: Run, t: nat, r: GuardianRecord) returns (source: GuardianRecord)
    requires run.Valid() && t <= |run.steps| && GuardianEpochRuns.Holds(run.states[t].desk.store, r)
    ensures Known(run, t, source) && GuardianEpochRuns.SameRecord(source, r)
    decreases t
  {
    if t == 0 {
      source := r;
    } else {
      DeskSucc(run, t - 1);
      var m := run.moves[t - 1];
      MoveRecords(run.states[t - 1].desk, m, run.steps[t - 1].clock, r);
      if m.Stored? && m.op.Prepare? && GuardianEpochRuns.SameRecord(m.op.record, r) {
        source := m.op.record;
        assert PreparedAt(run, t - 1, source);
      } else {
        var r0 :| GuardianEpochRuns.Holds(run.states[t - 1].desk.store, r0) && GuardianEpochRuns.SameRecord(r0, r);
        source := RecordIsKnown(run, t - 1, r0);
      }
    }
  }

  /** On one boot the record's delay has passed; a demonstration guardian waits for two
      seconds of it at most. */
  ghost predicate Waited(r: GuardianRecord, begun: Clock, released: Clock) {
    && begun.boot == released.boot
    && released.now >= SatAdd(begun.now, if begun.demo && r.minimumRecoveryDelay > 2 then 2 else r.minimumRecoveryDelay)
  }

  /** Every release was earned. The signers' quorum asked for it and for the Begin of the
      same request before it, which found the exact configuration active; in between, on the
      same boot, passed the delay of the record this guardian was provisioned with or had
      prepared for that configuration. The request is in date, the guardian still answers for
      it, and it was neither cancelled nor released before. */
  lemma ReleaseIsEarned(run: Run, j: nat, q: RecoveryRequest) returns (i: nat, r: GuardianRecord)
    requires run.Valid() && run.states[0].desk.recoveries == map[] && j < |run.steps|
    requires run.moves[j] == Delivered(q)
    ensures run.steps[j].request == ReleaseRecovery(q, q, true)
    ensures InDate(q, run.states[j].predecessor, run.steps[j].clock.wall) && InForce(run.states[j].desk.store, q)
    ensures i < j && Opens(run, i, q) && run.steps[i].request == BeginRecovery(q, true)
    ensures InDate(q, run.states[i].predecessor, run.steps[i].clock.wall)
    ensures Known(run, i, r) && r.configRef == q.configRef && Waited(r, run.steps[i].clock, run.steps[j].clock)
    ensures forall k: nat :: k < j ==> run.moves[k] != Vetoed(q) && run.moves[k] != Delivered(q)
  {
    AtSucc(run, j);
    DeliveredMeans(run.states[j], run.steps[j].request, run.steps[j].clock, q);
    i, r := BeginOfRelease(run, j, q);
    forall k: nat | k < j
      ensures run.moves[k] != Vetoed(q) && run.moves[k] != Delivered(q)
    {
      if run.moves[k] == Vetoed(q) || run.moves[k] == Delivered(q) {
        NothingAfterClose(run, k, j, q);
      }
    }
  }

  lemma BeginOfRelease(run: Run, j: nat, q: RecoveryRequest) returns (i: nat, r: GuardianRecord)
    requires run.Valid() && run.states[0].desk.recoveries == map[] && j < |run.steps|
    requires run.moves[j] == Delivered(q) && q.requestId in run.states[j].desk.recoveries
    ensures i < j && Opens(run, i, q) && run.steps[i].request == BeginRecovery(q, true)
    ensures InDate(q, run.states[i].predecessor, run.steps[i].clock.wall)
    ensures Known(run, i, r) && r.configRef == q.configRef && Waited(r, run.steps[i].clock, run.steps[j].clock)
    ensures run.states[j].desk.recoveries[q.requestId].digest == Of(q)
  {
    DeskSucc(run, j);
    RecoveryOrigin(run, j, q.requestId);
    i :| i < j && OpenedAs(run, i, run.states[j].desk.recoveries[q.requestId]);
    AtSucc(run, i);
    BeganMeans(run.states[i], run.steps[i].request, run.steps[i].clock, q);
    r := RecordIsKnown(run, i, run.states[i].desk.store.active.value);
  }

  // ---- One nonce, one recovery -----------------------------------------------------

  predicate NoncesApart(recoveries: map<Id32, Recovery>) {
    forall a, b :: a in recoveries && b in recoveries && a != b ==> recoveries[a].request.nonce != recoveries[b].request.nonce
  }

  lemma NextNoncesApart(s: GuardianState, r: Request, c: Clock)
    requires ValidGuardian(s) && NoncesApart(s.desk.recoveries)
    ensures NoncesApart(Next(s, r, c).desk.recoveries)
  {
    var m := MoveOf(s, r, c);
    NextDesk(s, r, c);
    if m.Began? {
      BeganIsNew(s, r, c, m.q);
    }
    MoveNoncesApart(s.desk, m, c);
  }

  lemma BeganIsNew(s: GuardianState, r: Request, c: Clock, q: RecoveryRequest)
    requires MoveOf(s, r, c) == Began(q)
    ensures q.requestId !in s.desk.recoveries ==> forall k :: k in s.desk.recoveries ==> s.desk.recoveries[k].request.nonce != q.nonce
  {
  }

  lemma MoveNoncesApart(d: Desk, m: Move, c: Clock)
    requires ValidStore(d.store) && Grounded(d, m, c) && NoncesApart(d.recoveries)
    requires m.Began? && m.q.requestId !in d.recoveries ==> forall k :: k in d.recoveries ==> d.recoveries[k].request.nonce != m.q.nonce
    ensures NoncesApart(DeskAfter(d, m, c).recoveries)
  {
  }

  /** No two recoveries of a guardian share a nonce: whoever replays a request's nonce under
      another id begins nothing. */
  lemma {:induction false} NoncesAreUnique(run: Run, t: nat)
    requires run.Valid() && NoncesApart(run.states[0].desk.recoveries) && t <= |run.steps|
    ensures NoncesApart(run.states[t].desk.recoveries)
    decreases t
  {
    if t > 0 {
      NoncesAreUnique(run, t - 1);
      AtSucc(run, t - 1);
      NextNoncesApart(run.states[t - 1], run.steps[t - 1].request, run.steps[t - 1].clock);
    }
  }
}
