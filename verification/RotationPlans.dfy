/** Validation of one-for-one rotation plans, and what chains of accepted plans do to
    the guardian roster. */
module RotationPlans {
  import opened Foundations
  import opened EpochTypes

  // ---- Encoding ------------------------------------------------------------------

  predicate RosterEncodes(roster: seq<GuardianRoute>) {
    && |roster| <= MAX_ROTATION_ACTORS
    && (forall i :: 0 <= i < |roster| ==> 0 < roster[i].guardianIndex <= MAX_ROTATION_ACTORS)
    && (forall i, j :: 0 <= i < j < |roster| ==> roster[i].guardianIndex != roster[j].guardianIndex)
  }

  predicate PlanEncodes(plan: RotationPlan) {
    && plan.successor.IsDirectSuccessorOf(plan.predecessor)
    && plan.context.configRef == plan.predecessor
    && 0 < plan.oldGuardianThreshold <= |plan.oldRoster|
    && 0 < plan.newGuardianThreshold <= |plan.newRoster|
    && 0 < plan.dataShards <= plan.totalShards
    && ContextEncodes(plan.context)
    && RosterEncodes(plan.oldRoster)
    && RosterEncodes(plan.newRoster)
  }

  predicate IntentEncodes(intent: RotationIntent) {
    && ContextEncodes(intent.context)
    && |intent.allowedNewGuardianCount| <= MAX_ROTATION_ACTORS
    && |intent.allowedNewGuardianThreshold| <= MAX_ROTATION_ACTORS
    && |intent.allowedDpssSuites| <= 32
  }

  // ---- Acceptance ----------------------------------------------------------------

  /** The plan is fresh, leaves this predecessor capsule, and keeps immutable policy. */
  predicate PlanValid(plan: RotationPlan, predecessor: Capsule, now: U64) {
    && PlanEncodes(plan)
    && plan.context.configRef == predecessor.body.configRef
    && plan.context.predecessorHash == predecessor.hash
    && plan.predecessor == predecessor.body.configRef
    && plan.context.issuedAt <= now < plan.context.expiry
    && plan.context.issuedAt < plan.preparationDeadline < plan.drainDeadline
    && plan.minimumDelaySecs >= predecessor.body.minimumRecoveryDelay
    && plan.oldGuardianThreshold == predecessor.body.guardianThreshold
    && plan.dataShards == predecessor.body.guardianThreshold
    && plan.totalShards == predecessor.body.guardianCount
    && |plan.oldRoster| == predecessor.body.guardianCount
    && |plan.newRoster| == plan.totalShards
    && plan.newGuardianThreshold >= 2
    && plan.oldRosterCommitment == Of(plan.oldRoster)
    && plan.newRosterCommitment == Of(plan.newRoster)
  }

  predicate WithinIntent(plan: RotationPlan, intent: RotationIntent, predecessor: Capsule, now: U64) {
    && IntentEncodes(intent)
    && plan.context == intent.context
    && plan.intentHash == Of(intent)
    && intent.oldGuardianCount == predecessor.body.guardianCount
    && intent.oldGuardianThreshold == predecessor.body.guardianThreshold
    && |plan.newRoster| in intent.allowedNewGuardianCount
    && plan.newGuardianThreshold in intent.allowedNewGuardianThreshold
    && plan.dpssSuite in intent.allowedDpssSuites
    && plan.qualifiedSetCommitment == plan.newRosterCommitment
    && plan.preparationDeadline > now
  }

  type Roster = map<nat, GuardianRoute>

  /** The roster keyed by guardian index. */
  function ByIndex(roster: seq<GuardianRoute>): Roster {
    if roster == [] then map[]
    else
      var last := roster[|roster| - 1];
      ByIndex(roster[..|roster| - 1])[last.guardianIndex := last]
  }

  lemma {:induction false} ByIndexHolds(roster: seq<GuardianRoute>, k: nat)
    requires k in ByIndex(roster)
    ensures ByIndex(roster)[k] in roster && ByIndex(roster)[k].guardianIndex == k
  {
    var last := roster[|roster| - 1];
    if k != last.guardianIndex {
      ByIndexHolds(roster[..|roster| - 1], k);
    }
  }

  lemma {:induction false} ByIndexFinds(roster: seq<GuardianRoute>, i: nat)
    requires RosterEncodes(roster) && i < |roster|
    ensures roster[i].guardianIndex in ByIndex(roster) && ByIndex(roster)[roster[i].guardianIndex] == roster[i]
  {
    if i < |roster| - 1 {
      ByIndexFinds(roster[..|roster| - 1], i);
    }
  }

  predicate SameIdentity(a: GuardianRoute, b: GuardianRoute) {
    && a.guardianKey == b.guardianKey
    && a.sessionRecipientKey == b.sessionRecipientKey
    && a.operatorDomain == b.operatorDomain
  }

  predicate FreshRoute(a: GuardianRoute, b: GuardianRoute) {
    a.opaqueSlotId != b.opaqueSlotId && a.mailbox != b.mailbox
  }

  /** Guardians kept by index keep their identity and get a new slot and mailbox. */
  predicate SurvivorsKept(former: Roster, next: Roster) {
    forall id :: id in former && id in next ==> SameIdentity(former[id], next[id]) && FreshRoute(former[id], next[id])
  }

  predicate Disjoint(a: GuardianRoute, b: GuardianRoute) {
    && a.guardianKey != b.guardianKey && a.mailbox != b.mailbox
    && a.opaqueSlotId != b.opaqueSlotId && a.operatorDomain != b.operatorDomain
  }

  predicate AllDistinct(roster: Roster) {
    forall a, b :: a in roster && b in roster && a != b ==> Disjoint(roster[a], roster[b])
  }

  /** Exactly `removed` leaves and `added` joins, under a key nobody had before. */
  predicate Replaces(former: Roster, next: Roster, removed: nat, added: nat) {
    && removed in former && added !in former
    && next.Keys == former.Keys - {removed} + {added}
    && (forall id :: id in former ==> former[id].guardianKey != next[added].guardianKey)
  }

  /** Everything the signers check before they vote Begin for a plan: in particular, the
      one member that leaves is the one the Intent committed to. */
  ghost predicate PlanAccepted(plan: RotationPlan, intent: RotationIntent, predecessor: Capsule, now: U64) {
    var former, next := ByIndex(plan.oldRoster), ByIndex(plan.newRoster);
    && PlanValid(plan, predecessor, now)
    && WithinIntent(plan, intent, predecessor, now)
    && (exists removed: nat, added: nat :: Replaces(former, next, removed, added) && Of(removed) == intent.selectionConstraint)
    && SurvivorsKept(former, next)
    && AllDistinct(next)
  }

  // ---- The validator -------------------------------------------------------------

  ghost predicate OneToOne<V>(f: map<nat, V>) {
    forall a, b :: a in f && b in f && a != b ==> f[a] != f[b]
  }

  lemma ValuesWithout<V>(f: map<nat, V>, x: nat)
    requires x in f
    ensures f.Values == (f - {x}).Values + {f[x]}
    ensures OneToOne(f) <==> OneToOne(f - {x}) && f[x] !in (f - {x}).Values
  {
    var rest := f - {x};
    forall v | v in f.Values
      ensures v in rest.Values + {f[x]}
    {
      var y :| y in f && f[y] == v;
      assert y == x || y in rest;
    }
    assert forall a :: a in f ==> a == x || (a in rest && rest[a] == f[a]);
    if f[x] in rest.Values {
      var y :| y in rest && rest[y] == f[x];
    } else {
      assert forall a :: a in rest ==> rest[a] in rest.Values;
    }
  }

  /** A map takes as many values as it has keys exactly when it takes every value once. */
  lemma {:induction false} ImageSize<V>(f: map<nat, V>)
    ensures |f.Values| <= |f|
    ensures |f.Values| == |f| <==> OneToOne(f)
    decreases |f|
  {
    if f.Keys == {} {
      assert f.Values == {};
    } else {
      var x :| x in f;
      ImageSize(f - {x});
      ValuesWithout(f, x);
    }
  }

  function GuardianKeys(roster: Roster): map<nat, Key> { map k | k in roster :: roster[k].guardianKey }
  function Mailboxes(roster: Roster): map<nat, string> { map k | k in roster :: roster[k].mailbox }
  function Slots(roster: Roster): map<nat, Id32> { map k | k in roster :: roster[k].opaqueSlotId }
  function Domains(roster: Roster): map<nat, Id32> { map k | k in roster :: roster[k].operatorDomain }

  /** The four set sizes the validator compares say that the roster is all distinct. */
  lemma DistinctBySize(roster: Roster)
    ensures AllDistinct(roster) <==>
            && |GuardianKeys(roster).Values| == |roster|
            && |Mailboxes(roster).Values| == |roster|
            && |Slots(roster).Values| == |roster|
            && |Domains(roster).Values| == |roster|
  {
    ImageSize(GuardianKeys(roster));
    ImageSize(Mailboxes(roster));
    ImageSize(Slots(roster));
    ImageSize(Domains(roster));
    assert GuardianKeys(roster).Keys == roster.Keys == Mailboxes(roster).Keys;
    assert Slots(roster).Keys == roster.Keys == Domains(roster).Keys;
  }

  lemma TheOnlyMember<T>(s: set<T>, x: T)
    requires |s| == 1 && x in s
    ensures s == {x}
  {
    assert |s - {x}| == 0;
  }

  lemma ReplacementIsTheDifference(former: Roster, next: Roster, removed: nat, added: nat)
    ensures Replaces(former, next, removed, added) <==>
            && former.Keys - next.Keys == {removed}
            && next.Keys - former.Keys == {added}
            && forall id :: id in former ==> former[id].guardianKey != next[added].guardianKey
  {
    if former.Keys - next.Keys == {removed} && next.Keys - former.Keys == {added} {
      assert removed in former.Keys - next.Keys && added in next.Keys - former.Keys;
      assert next.Keys == (former.Keys - (former.Keys - next.Keys)) + (next.Keys - former.Keys);
    }
  }

  /** The loop over the old roster: every survivor against its new route. */
  method CheckSurvivors(former: Roster, next: Roster) returns (ok: bool)
    ensures ok <==> SurvivorsKept(former, next)
  {
    var unchecked := former.Keys;
    while unchecked != {}
      invariant unchecked <= former.Keys
      invariant forall id :: id in former && id in next && id !in unchecked ==>
                               SameIdentity(former[id], next[id]) && FreshRoute(former[id], next[id])
    {
      var id :| id in unchecked;
      if id in next && !(SameIdentity(former[id], next[id]) && FreshRoute(former[id], next[id])) {
        return false;
      }
      unchecked := unchecked - {id};
    }
    return true;
  }

  /** The one member that left and the one that joined, if it is one each. */
  method OneForOne(former: Roster, next: Roster) returns (r: Option<(nat, nat)>)
    ensures r.Some? ==> former.Keys - next.Keys == {r.value.0} && next.Keys - former.Keys == {r.value.1}
    ensures r.None? ==> forall removed: nat, added: nat :: !Replaces(former, next, removed, added)
  {
    var removed, added := former.Keys - next.Keys, next.Keys - former.Keys;
    if |removed| != 1 || |added| != 1 {
      forall r: nat, a: nat
        ensures !Replaces(former, next, r, a)
      {
        ReplacementIsTheDifference(former, next, r, a);
      }
      return None;
    }
    var gone :| gone in removed;
    var joined :| joined in added;
    TheOnlyMember(removed, gone);
    TheOnlyMember(added, joined);
    return Some((gone, joined));
  }

  method AreDistinct(roster: Roster) returns (ok: bool)
    ensures ok <==> AllDistinct(roster)
  {
    DistinctBySize(roster);
    ok := |GuardianKeys(roster).Values| == |roster|
      && |Mailboxes(roster).Values| == |roster|
      && |Slots(roster).Values| == |roster|
      && |Domains(roster).Values| == |roster|;
  }

  method ReusesKey(former: Roster, next: Roster, gone: nat, joined: nat) returns (reused: bool)
    requires former.Keys - next.Keys == {gone} && next.Keys - former.Keys == {joined}
    ensures !reused ==> Replaces(former, next, gone, joined)
    ensures reused ==> forall r: nat, a: nat :: !Replaces(former, next, r, a)
  {
    assert joined in next.Keys - former.Keys;
    reused := next[joined].guardianKey in GuardianKeys(former).Values;
    assert forall id :: id in former ==> GuardianKeys(former)[id] == former[id].guardianKey && GuardianKeys(former)[id] in GuardianKeys(former).Values;
    ReplacementIsTheDifference(former, next, gone, joined);
    forall r: nat, a: nat
      ensures Replaces(former, next, r, a) ==> r == gone && a == joined
    {
      ReplacementIsTheDifference(former, next, r, a);
      if {r} == {gone} && {a} == {joined} {
        assert r in {gone} && a in {joined};
      }
    }
  }

  /** The roster part of the validator: who left and who joined, if that is one each and
      everybody else stayed the same. */
  method CompareRosters(former: Roster, next: Roster) returns (r: Option<(nat, nat)>)
    ensures r.Some? ==> Replaces(former, next, r.value.0, r.value.1) && SurvivorsKept(former, next) && AllDistinct(next)
    ensures r.None? ==>
              !SurvivorsKept(former, next) || !AllDistinct(next)
              || forall removed: nat, added: nat :: !Replaces(former, next, removed, added)
  {
    r := OneForOne(former, next);
    if r.None? {
      return;
    }
    var kept := CheckSurvivors(former, next);
    if !kept {
      return None;
    }
    var distinct := AreDistinct(next);
    if !distinct {
      return None;
    }
    var gone, joined := r.value.0, r.value.1;
    var reused := ReusesKey(former, next, gone, joined);
    if reused {
      return None;
    }
  }

  lemma ReplacementIsUnique(former: Roster, next: Roster, r: nat, a: nat, r': nat, a': nat)
    requires Replaces(former, next, r, a) && Replaces(former, next, r', a')
    ensures r == r' && a == a'
  {
    ReplacementIsTheDifference(former, next, r, a);
    ReplacementIsTheDifference(former, next, r', a');
    assert r in {r'} && a in {a'};
  }

  /** The validator; it answers the plan's hash. */
  method ValidatePlanAgainstIntent(plan: RotationPlan, intent: RotationIntent, predecessor: Capsule, now: U64)
    returns (r: Option<PlanHash>)
    ensures r == if PlanAccepted(plan, intent, predecessor, now) then Some(Of(plan)) else None
  {
    if !PlanValid(plan, predecessor, now) || !WithinIntent(plan, intent, predecessor, now) {
      return None;
    }
    var former, next := ByIndex(plan.oldRoster), ByIndex(plan.newRoster);
    var change := CompareRosters(former, next);
    if change.None? || Of(change.value.0) != intent.selectionConstraint {
      if change.Some? {
        forall r: nat, a: nat | Replaces(former, next, r, a)
          ensures r == change.value.0
        {
          ReplacementIsUnique(former, next, r, a, change.value.0, change.value.1);
        }
      }
      return None;
    }
    return Some(Of(plan));
  }

  // ---- Chains --------------------------------------------------------------------

  /** What stays with a guardian across rotations. */
  datatype Identity = Identity(guardianIndex: nat, guardianKey: Key, sessionRecipientKey: Id32, operatorDomain: Id32)

  function IdentityOf(r: GuardianRoute): Identity {
    Identity(r.guardianIndex, r.guardianKey, r.sessionRecipientKey, r.operatorDomain)
  }

  function Identities(roster: seq<GuardianRoute>): set<Identity> {
    set r | r in roster :: IdentityOf(r)
  }

  datatype Acceptance = Acceptance(plan: RotationPlan, intent: RotationIntent, predecessor: Capsule, now: U64)
  {
    ghost predicate Holds() { PlanAccepted(plan, intent, predecessor, now) }
  }

  /** Accepted rotations, each out of the roster the one before it produced. */
  ghost predicate Chain(rotations: seq<Acceptance>) {
    && (forall i :: 0 <= i < |rotations| ==> rotations[i].Holds())
    && (forall i :: 0 < i < |rotations| ==> rotations[i - 1].plan.newRoster == rotations[i].plan.oldRoster)
  }

  lemma SurvivorKeepsIdentity(former: seq<GuardianRoute>, next: seq<GuardianRoute>, removed: nat, added: nat, i: nat)
    requires RosterEncodes(former)
    requires Replaces(ByIndex(former), ByIndex(next), removed, added) && SurvivorsKept(ByIndex(former), ByIndex(next))
    requires i < |former| && former[i].guardianIndex != removed
    ensures IdentityOf(former[i]) in Identities(next)
  {
    var id := former[i].guardianIndex;
    ByIndexFinds(former, i);
    assert id in ByIndex(former).Keys && id in ByIndex(next).Keys;
    ByIndexHolds(next, id);
    assert SameIdentity(ByIndex(former)[id], ByIndex(next)[id]);
    assert IdentityOf(ByIndex(next)[id]) == IdentityOf(former[i]);
  }

  /** One rotation keeps the roster's size and loses one identity at most. */
  ghost predicate Swaps(former: seq<GuardianRoute>, next: seq<GuardianRoute>) {
    |next| == |former| && |Identities(former) - Identities(next)| <= 1
  }

  lemma IndexIsHeld(roster: seq<GuardianRoute>, k: nat) returns (i: nat)
    requires RosterEncodes(roster) && k in ByIndex(roster)
    ensures i < |roster| && roster[i] == ByIndex(roster)[k] && roster[i].guardianIndex == k
  {
    ByIndexHolds(roster, k);
    i :| 0 <= i < |roster| && roster[i] == ByIndex(roster)[k];
  }

  lemma OneIsLost(former: seq<GuardianRoute>, next: seq<GuardianRoute>, removed: nat, added: nat)
    requires RosterEncodes(former) && RosterEncodes(next)
    requires Replaces(ByIndex(former), ByIndex(next), removed, added) && SurvivorsKept(ByIndex(former), ByIndex(next))
    ensures Identities(former) - Identities(next) == {IdentityOf(ByIndex(former)[removed])}
  {
    var gone := IdentityOf(ByIndex(former)[removed]);
    forall x | x in Identities(former) - Identities(next)
      ensures x == gone
    {
      var i :| 0 <= i < |former| && IdentityOf(former[i]) == x;
      ByIndexFinds(former, i);
      if former[i].guardianIndex != removed {
        SurvivorKeepsIdentity(former, next, removed, added, i);
      }
    }
    var i := IndexIsHeld(former, removed);
    assert IdentityOf(former[i]) in Identities(former);
    if gone in Identities(next) {
      var y :| 0 <= y < |next| && IdentityOf(next[y]) == gone;
      ByIndexFinds(next, y);
      assert false;
    }
  }

  /** No two members of the roster share anything. */
  ghost predicate Separate(roster: seq<GuardianRoute>) {
    forall x, y :: 0 <= x < y < |roster| ==>
      && roster[x].guardianKey != roster[y].guardianKey
      && roster[x].operatorDomain != roster[y].operatorDomain
      && roster[x].opaqueSlotId != roster[y].opaqueSlotId
      && roster[x].mailbox != roster[y].mailbox
  }

  /** Member `i` of the old roster makes way for member `j` of the new one: no other identity
      is lost, the newcomer's key is new, everybody who stays has a new slot and mailbox, and
      no two members of the new roster share a key, a mailbox, a slot or an operator. */
  ghost predicate MakesWay(former: seq<GuardianRoute>, next: seq<GuardianRoute>, i: nat, j: nat) {
    && i < |former| && j < |next|
    && Identities(former) - Identities(next) == {IdentityOf(former[i])}
    && (forall x :: 0 <= x < |former| ==>
          former[x].guardianKey != next[j].guardianKey && former[x].guardianIndex != next[j].guardianIndex)
    && (forall x, y :: 0 <= x < |former| && 0 <= y < |next| && IdentityOf(former[x]) == IdentityOf(next[y]) ==>
          former[x].opaqueSlotId != next[y].opaqueSlotId && former[x].mailbox != next[y].mailbox)
    && Separate(next)
  }

  lemma DistinctMembersApart(next: seq<GuardianRoute>)
    requires RosterEncodes(next) && AllDistinct(ByIndex(next))
    ensures Separate(next)
  {
    forall x, y | 0 <= x < y < |next|
      ensures Disjoint(next[x], next[y])
    {
      ByIndexFinds(next, x);
      ByIndexFinds(next, y);
      assert Disjoint(ByIndex(next)[next[x].guardianIndex], ByIndex(next)[next[y].guardianIndex]);
    }
  }

  lemma StayersMove(former: seq<GuardianRoute>, next: seq<GuardianRoute>)
    requires RosterEncodes(former) && RosterEncodes(next) && SurvivorsKept(ByIndex(former), ByIndex(next))
    ensures forall x, y :: 0 <= x < |former| && 0 <= y < |next| && IdentityOf(former[x]) == IdentityOf(next[y]) ==>
              former[x].opaqueSlotId != next[y].opaqueSlotId && former[x].mailbox != next[y].mailbox
  {
    forall x, y | 0 <= x < |former| && 0 <= y < |next| && IdentityOf(former[x]) == IdentityOf(next[y])
      ensures former[x].opaqueSlotId != next[y].opaqueSlotId && former[x].mailbox != next[y].mailbox
    {
      ByIndexFinds(former, x);
      ByIndexFinds(next, y);
      assert FreshRoute(ByIndex(former)[former[x].guardianIndex], ByIndex(next)[former[x].guardianIndex]);
    }
  }

  /** An accepted plan replaces one member: the one its Intent committed to. */
  lemma AcceptedPlanSwaps(a: Acceptance) returns (i: nat, j: nat)
    requires a.Holds()
    ensures |a.plan.newRoster| == |a.plan.oldRoster| == a.predecessor.body.guardianCount
    ensures MakesWay(a.plan.oldRoster, a.plan.newRoster, i, j)
    ensures Of(a.plan.oldRoster[i].guardianIndex) == a.intent.selectionConstraint
  {
    var former, next := a.plan.oldRoster, a.plan.newRoster;
    var removed: nat, added: nat :|
      Replaces(ByIndex(former), ByIndex(next), removed, added) && Of(removed) == a.intent.selectionConstraint;
    i, j := PairMakesWay(former, next, removed, added);
  }

  lemma PairMakesWay(former: seq<GuardianRoute>, next: seq<GuardianRoute>, removed: nat, added: nat) returns (i: nat, j: nat)
    requires RosterEncodes(former) && RosterEncodes(next) && AllDistinct(ByIndex(next))
    requires Replaces(ByIndex(former), ByIndex(next), removed, added) && SurvivorsKept(ByIndex(former), ByIndex(next))
    ensures MakesWay(former, next, i, j) && former[i].guardianIndex == removed
  {
    OneIsLost(former, next, removed, added);
    i := IndexIsHeld(former, removed);
    assert added in ByIndex(next).Keys;
    j := IndexIsHeld(next, added);
    forall x | 0 <= x < |former|
      ensures former[x].guardianKey != next[j].guardianKey && former[x].guardianIndex != added
    {
      ByIndexFinds(former, x);
    }
    StayersMove(former, next);
    DistinctMembersApart(next);
  }

  /** The delay of an accepted plan may be anything from the capsule's own delay upwards. */
  lemma DelayFloor(a: Acceptance, delay: U64)
    requires a.Holds()
    ensures a.(plan := a.plan.(minimumDelaySecs := delay)).Holds() <==> delay >= a.predecessor.body.minimumRecoveryDelay
  {
  }

  lemma {:induction false} IdentityCount(roster: seq<GuardianRoute>)
    requires RosterEncodes(roster)
    ensures |Identities(roster)| == |roster|
  {
    if roster != [] {
      var shorter, last := roster[..|roster| - 1], roster[|roster| - 1];
      IdentityCount(shorter);
      assert roster == shorter + [last];
      assert Identities(roster) == Identities(shorter) + {IdentityOf(last)};
      assert IdentityOf(last) !in Identities(shorter);
    }
  }

  lemma LosesOne(a: Acceptance)
    requires a.Holds()
    ensures Swaps(a.plan.oldRoster, a.plan.newRoster)
  {
    var i, j := AcceptedPlanSwaps(a);
  }

  lemma LossesAdd<T>(a: set<T>, b: set<T>, c: set<T>)
    ensures |a - c| <= |a - b| + |b - c|
  {
    SubsetSize(a - c, (a - b) + (b - c));
  }

  /** The roster after the first `i` rotations. */
  function RosterAfter(rotations: seq<Acceptance>, i: nat): seq<GuardianRoute>
    requires rotations != [] && i <= |rotations|
  {
    if i == 0 then rotations[0].plan.oldRoster else rotations[i - 1].plan.newRoster
  }

  lemma ChainSwaps(rotations: seq<Acceptance>)
    requires Chain(rotations) && rotations != []
    ensures forall i :: 0 < i <= |rotations| ==> Swaps(RosterAfter(rotations, i - 1), RosterAfter(rotations, i))
  {
    forall i | 0 < i <= |rotations|
      ensures Swaps(RosterAfter(rotations, i - 1), RosterAfter(rotations, i))
    {
      LosesOne(rotations[i - 1]);
    }
  }

  lemma {:induction false} LossesOverSwaps(rosters: seq<seq<GuardianRoute>>)
    requires rosters != []
    requires forall i :: 0 < i < |rosters| ==> Swaps(rosters[i - 1], rosters[i])
    ensures |rosters[|rosters| - 1]| == |rosters[0]|
    ensures |Identities(rosters[0]) - Identities(rosters[|rosters| - 1])| <= |rosters| - 1
  {
    var m := |rosters| - 1;
    if m > 0 {
      LossesOverSwaps(rosters[..m]);
      assert Swaps(rosters[m - 1], rosters[m]);
      LossesAdd(Identities(rosters[0]), Identities(rosters[m - 1]), Identities(rosters[m]));
    }
  }

  lemma KeptAreTheRest<T>(a: set<T>, b: set<T>)
    ensures |a * b| == |a| - |a - b|
  {
    assert a == (a - b) + (a * b);
  }

  /** Any chain of `m` accepted one-for-one rotations keeps the roster size and at least
      `n - m` of the `n` original identities, and its last roster is all distinct. */
  lemma ChainKeepsMostIdentities(rotations: seq<Acceptance>)
    requires Chain(rotations) && rotations != []
    ensures var first, last := rotations[0].plan.oldRoster, rotations[|rotations| - 1].plan.newRoster;
            && |last| == |first|
            && Separate(last)
            && |Identities(first) * Identities(last)| >= |first| - |rotations|
  {
    ChainSwaps(rotations);
    var rosters := seq(|rotations| + 1, i requires 0 <= i <= |rotations| => RosterAfter(rotations, i));
    LossesOverSwaps(rosters);
    var first, last := rosters[0], rosters[|rotations|];
    assert first == rotations[0].plan.oldRoster && last == rotations[|rotations| - 1].plan.newRoster;
    assert RosterEncodes(first) && RosterEncodes(last) && AllDistinct(ByIndex(last)) by {
      assert rotations[0].Holds() && rotations[|rotations| - 1].Holds();
    }
    DistinctMembersApart(last);
    IdentityCount(first);
    KeptAreTheRest(Identities(first), Identities(last));
  }

  /** The Intent of some rotation of the chain committed to this member of its old roster. */
  ghost predicate CommittedAway(rotations: seq<Acceptance>, x: Identity) {
    exists k :: 0 <= k < |rotations| && CommitsTo(rotations[k], x)
  }

  predicate CommitsTo(a: Acceptance, x: Identity) {
    Of(x.guardianIndex) == a.intent.selectionConstraint && x in Identities(a.plan.oldRoster)
  }

  lemma LostIsCommitted(a: Acceptance, x: Identity)
    requires a.Holds() && x in Identities(a.plan.oldRoster) && x !in Identities(a.plan.newRoster)
    ensures CommitsTo(a, x)
  {
    var i, j := AcceptedPlanSwaps(a);
    assert x in Identities(a.plan.oldRoster) - Identities(a.plan.newRoster);
  }

  /** Who is in the first roster and not in the last leaves at some rotation. */
  lemma {:induction false} LeavesSomewhere(rosters: seq<seq<GuardianRoute>>, x: Identity) returns (k: nat)
    requires rosters != [] && x in Identities(rosters[0]) && x !in Identities(rosters[|rosters| - 1])
    ensures k + 1 < |rosters| && x in Identities(rosters[k]) && x !in Identities(rosters[k + 1])
  {
    var m := |rosters| - 1;
    if x in Identities(rosters[m - 1]) {
      k := m - 1;
    } else {
      k := LeavesSomewhere(rosters[..m], x);
    }
  }

  /** Nobody leaves a chain but those the Intents committed to: an identity of the first
      roster that is missing from the last was the committed one of some rotation. */
  lemma ChainLosesOnlyCommitted(rotations: seq<Acceptance>, x: Identity)
    requires Chain(rotations) && rotations != [] && x in Identities(rotations[0].plan.oldRoster)
    requires x !in Identities(rotations[|rotations| - 1].plan.newRoster)
    ensures CommittedAway(rotations, x)
  {
    var rosters := seq(|rotations| + 1, i requires 0 <= i <= |rotations| => RosterAfter(rotations, i));
    var k := LeavesSomewhere(rosters, x);
    assert rosters[k] == rotations[k].plan.oldRoster && rosters[k + 1] == rotations[k].plan.newRoster;
    LostIsCommitted(rotations[k], x);
  }
}
