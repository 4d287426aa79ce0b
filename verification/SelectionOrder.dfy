/** When the order of the envelopes decides what a reader accepts: exactly when one witness
    is answered for by envelopes that disagree. */
module SelectionOrder {
  import opened Foundations
  import opened EpochTypes
  import opened WitnessEntry
  import opened EpochSelection

  // ---- The pass over the envelopes, reduced to what it looks at --------------------

  /** One envelope: in nobody's name, or in a witness's name with what it would count for. */
  datatype Face = Stranger | Seen(speaker: nat, view: Option<CapsuleHash>)

  ghost function FaceOf(card: RecoveryCard, challenge: ReadChallenge, e: ReadEnvelope): Face {
    if !Addressed(Pins(card.witnesses), challenge, e) then Stranger
    else Seen(e.response.body.witnessId, if Authentic(card, e) then Some(e.capsule.hash) else None)
  }

  ghost function Faces(card: RecoveryCard, challenge: ReadChallenge, es: seq<ReadEnvelope>): (fs: seq<Face>)
    ensures |fs| == |es|
  {
    seq(|es|, i requires 0 <= i < |es| => FaceOf(card, challenge, es[i]))
  }

  predicate First(fs: seq<Face>, i: nat)
    requires i < |fs|
  {
    fs[i].Seen? && forall j :: 0 <= j < i && fs[j].Seen? ==> fs[j].speaker != fs[i].speaker
  }

  /** The witness counts, with this capsule. */
  ghost predicate Counts(fs: seq<Face>, w: nat, hash: CapsuleHash) {
    exists i: nat :: i < |fs| && First(fs, i) && fs[i] == Seen(w, Some(hash))
  }

  /** The same question without the order. */
  predicate Shown(fs: seq<Face>, w: nat, hash: CapsuleHash) {
    Seen(w, Some(hash)) in fs
  }

  /** All envelopes in one witness's name count for the same. */
  ghost predicate Settled(fs: seq<Face>) {
    forall f, g :: f in fs && g in fs && f.Seen? && g.Seen? && f.speaker == g.speaker ==> f.view == g.view
  }

  ghost predicate Permutes<T>(p: seq<T>, q: seq<T>) {
    multiset(p) == multiset(q)
  }

  lemma {:induction false} FirstExists(fs: seq<Face>, i: nat) returns (k: nat)
    requires i < |fs| && fs[i].Seen?
    ensures k <= i && First(fs, k) && fs[k].speaker == fs[i].speaker
    decreases i
  {
    if First(fs, i) {
      k := i;
    } else {
      var j: nat :| j < i && fs[j].Seen? && fs[j].speaker == fs[i].speaker;
      k := FirstExists(fs, j);
    }
  }

  lemma SettledCountsShown(fs: seq<Face>, w: nat, hash: CapsuleHash)
    requires Settled(fs)
    ensures Counts(fs, w, hash) <==> Shown(fs, w, hash)
  {
    if Shown(fs, w, hash) {
      var i: nat :| i < |fs| && fs[i] == Seen(w, Some(hash));
      var k := FirstExists(fs, i);
      assert fs[k] in fs && fs[i] in fs;
      assert fs[k] == Seen(w, Some(hash));
    }
  }

  lemma SameElements<T>(p: seq<T>, q: seq<T>)
    requires Permutes(p, q)
    ensures forall x :: x in p <==> x in q
  {
    forall x
      ensures x in p <==> x in q
    {
      assert x in p <==> x in multiset(p);
      assert x in q <==> x in multiset(q);
    }
  }

  lemma SettledIsOrderFree(fs: seq<Face>, gs: seq<Face>, w: nat, hash: CapsuleHash)
    requires Settled(fs) && forall f :: f in fs <==> f in gs
    ensures Settled(gs) && (Counts(fs, w, hash) <==> Counts(gs, w, hash))
  {
    SettledCountsShown(fs, w, hash);
    SettledCountsShown(gs, w, hash);
  }

  /** A witness whose envelopes agree in whether they count at all. */
  ghost predicate Agreed(fs: seq<Face>, w: nat) {
    forall f, g :: f in fs && g in fs && f.Seen? && g.Seen? && f.speaker == w == g.speaker ==> (f.view.Some? <==> g.view.Some?)
  }

  lemma AgreedCounts(fs: seq<Face>, w: nat)
    requires Agreed(fs, w)
    ensures (exists hash :: Counts(fs, w, hash)) <==> exists hash :: Shown(fs, w, hash)
  {
    if hash :| Shown(fs, w, hash) {
      var i: nat :| i < |fs| && fs[i] == Seen(w, Some(hash));
      var k := FirstExists(fs, i);
      assert fs[k] in fs && fs[i] in fs;
      assert Counts(fs, w, fs[k].view.value);
    }
    if hash :| Counts(fs, w, hash) {
      assert Shown(fs, w, hash);
    }
  }

  /** Element `i` brought to the front. */
  function Promoted<T>(s: seq<T>, i: nat): seq<T>
    requires i < |s|
  {
    [s[i]] + s[..i] + s[i + 1..]
  }

  lemma PromotedPermutes<T>(s: seq<T>, i: nat)
    requires i < |s|
    ensures Permutes(s, Promoted(s, i))
  {
    assert s == s[..i] + [s[i]] + s[i + 1..];
  }

  lemma PromotedCounts(fs: seq<Face>, i: nat, w: nat, hash: CapsuleHash)
    requires i < |fs| && fs[i].Seen? && fs[i].speaker == w
    ensures Counts(Promoted(fs, i), w, hash) <==> fs[i].view == Some(hash)
  {
    var gs := Promoted(fs, i);
    assert gs[0] == fs[i] && First(gs, 0);
    if Counts(gs, w, hash) {
      var k: nat :| k < |gs| && First(gs, k) && gs[k] == Seen(w, Some(hash));
      assert k == 0;
    }
  }

  // ---- Envelopes -----------------------------------------------------------------

  /** The witness's accepted envelope carries this capsule. */
  ghost predicate AcceptedWith(card: RecoveryCard, challenge: ReadChallenge, es: seq<ReadEnvelope>, w: nat, hash: CapsuleHash) {
    exists i :: i in AcceptedIndices(card, challenge, es) && es[i].response.body.witnessId == w && es[i].capsule.hash == hash
  }

  /** No two addressed envelopes of one witness differ in authenticity. */
  ghost predicate NoClash(card: RecoveryCard, challenge: ReadChallenge, es: seq<ReadEnvelope>) {
    forall a, b :: a in es && b in es
                   && Addressed(Pins(card.witnesses), challenge, a) && Addressed(Pins(card.witnesses), challenge, b)
                   && a.response.body.witnessId == b.response.body.witnessId ==>
      (Authentic(card, a) <==> Authentic(card, b))
  }

  /** No two authentic envelopes of one witness carry different capsules. */
  ghost predicate OneCapsuleEach(card: RecoveryCard, challenge: ReadChallenge, es: seq<ReadEnvelope>) {
    forall a, b :: a in es && b in es
                   && Addressed(Pins(card.witnesses), challenge, a) && Addressed(Pins(card.witnesses), challenge, b)
                   && a.response.body.witnessId == b.response.body.witnessId
                   && Authentic(card, a) && Authentic(card, b) ==>
      a.capsule.hash == b.capsule.hash
  }

  lemma FacesSettled(card: RecoveryCard, challenge: ReadChallenge, es: seq<ReadEnvelope>)
    ensures Settled(Faces(card, challenge, es)) <==> NoClash(card, challenge, es) && OneCapsuleEach(card, challenge, es)
  {
    var fs := Faces(card, challenge, es);
    forall e | e in es
      ensures FaceOf(card, challenge, e) in fs
    {
      var i :| 0 <= i < |es| && es[i] == e;
      assert fs[i] == FaceOf(card, challenge, e);
    }
    if NoClash(card, challenge, es) && OneCapsuleEach(card, challenge, es) {
      forall f, g | f in fs && g in fs && f.Seen? && g.Seen? && f.speaker == g.speaker
        ensures f.view == g.view
      {
        var i :| 0 <= i < |fs| && fs[i] == f;
        var j :| 0 <= j < |fs| && fs[j] == g;
        assert es[i] in es && es[j] in es;
      }
    }
    if Settled(fs) {
      forall a, b | a in es && b in es
                    && Addressed(Pins(card.witnesses), challenge, a) && Addressed(Pins(card.witnesses), challenge, b)
                    && a.response.body.witnessId == b.response.body.witnessId
        ensures FaceOf(card, challenge, a).view == FaceOf(card, challenge, b).view
      {
      }
    }
  }

  lemma CountsIsAccepted(card: RecoveryCard, challenge: ReadChallenge, es: seq<ReadEnvelope>, w: nat, hash: CapsuleHash)
    ensures AcceptedWith(card, challenge, es, w, hash) <==> Counts(Faces(card, challenge, es), w, hash)
  {
    var fs := Faces(card, challenge, es);
    forall i: nat | i < |es|
      ensures FirstOfWitness(Pins(card.witnesses), challenge, es, i) <==> First(fs, i)
    {
      assert forall j :: 0 <= j < |es| ==> fs[j] == FaceOf(card, challenge, es[j]);
      if First(fs, i) {
        forall j | 0 <= j < i && Addressed(Pins(card.witnesses), challenge, es[j])
          ensures es[j].response.body.witnessId != es[i].response.body.witnessId
        {
          assert fs[j].Seen?;
        }
      }
    }
    if AcceptedWith(card, challenge, es, w, hash) {
      var i :| i in AcceptedIndices(card, challenge, es) && es[i].response.body.witnessId == w && es[i].capsule.hash == hash;
      assert First(fs, i) && fs[i] == Seen(w, Some(hash));
    }
    if Counts(fs, w, hash) {
      var i: nat :| i < |fs| && First(fs, i) && fs[i] == Seen(w, Some(hash));
      assert Accepted(card, challenge, es, i);
    }
  }

  lemma FacesOfPermutation(card: RecoveryCard, challenge: ReadChallenge, es: seq<ReadEnvelope>, p: seq<ReadEnvelope>)
    requires Permutes(es, p)
    ensures forall f :: f in Faces(card, challenge, es) <==> f in Faces(card, challenge, p)
  {
    SameElements(es, p);
    FacesOfSubset(card, challenge, es, p);
    FacesOfSubset(card, challenge, p, es);
  }

  lemma FacesOfSubset(card: RecoveryCard, challenge: ReadChallenge, es: seq<ReadEnvelope>, p: seq<ReadEnvelope>)
    requires forall e :: e in es ==> e in p
    ensures forall f :: f in Faces(card, challenge, es) ==> f in Faces(card, challenge, p)
  {
    forall f | f in Faces(card, challenge, es)
      ensures f in Faces(card, challenge, p)
    {
      var i :| 0 <= i < |es| && FaceOf(card, challenge, es[i]) == f;
      assert es[i] in es;
      var j :| 0 <= j < |p| && p[j] == es[i];
      assert Faces(card, challenge, p)[j] == f;
    }
  }

  lemma FacesPromoted(card: RecoveryCard, challenge: ReadChallenge, es: seq<ReadEnvelope>, i: nat)
    requires i < |es|
    ensures Faces(card, challenge, Promoted(es, i)) == Promoted(Faces(card, challenge, es), i)
  {
  }

  // ---- Accepted capsules ---------------------------------------------------------

  ghost predicate SameAcceptance(card: RecoveryCard, challenge: ReadChallenge, es: seq<ReadEnvelope>, p: seq<ReadEnvelope>) {
    forall w, hash :: AcceptedWith(card, challenge, es, w, hash) <==> AcceptedWith(card, challenge, p, w, hash)
  }

  ghost predicate AcceptanceIsOrderFree(card: RecoveryCard, challenge: ReadChallenge, es: seq<ReadEnvelope>) {
    forall p: seq<ReadEnvelope> {:trigger Permutes(es, p)} :: Permutes(es, p) ==> SameAcceptance(card, challenge, es, p)
  }

  lemma SettledPermutation(card: RecoveryCard, challenge: ReadChallenge, es: seq<ReadEnvelope>, p: seq<ReadEnvelope>)
    requires NoClash(card, challenge, es) && OneCapsuleEach(card, challenge, es) && Permutes(es, p)
    ensures SameAcceptance(card, challenge, es, p)
  {
    FacesSettled(card, challenge, es);
    FacesOfPermutation(card, challenge, es, p);
    forall w, hash
      ensures AcceptedWith(card, challenge, es, w, hash) <==> AcceptedWith(card, challenge, p, w, hash)
    {
      SettledIsOrderFree(Faces(card, challenge, es), Faces(card, challenge, p), w, hash);
      CountsIsAccepted(card, challenge, es, w, hash);
      CountsIsAccepted(card, challenge, p, w, hash);
    }
  }

  lemma PromotedAccepts(card: RecoveryCard, challenge: ReadChallenge, es: seq<ReadEnvelope>, i: nat, hash: CapsuleHash)
    requires i < |es| && Addressed(Pins(card.witnesses), challenge, es[i])
    ensures Permutes(es, Promoted(es, i))
    ensures AcceptedWith(card, challenge, Promoted(es, i), es[i].response.body.witnessId, hash) <==>
            Authentic(card, es[i]) && es[i].capsule.hash == hash
  {
    PromotedPermutes(es, i);
    FacesPromoted(card, challenge, es, i);
    PromotedCounts(Faces(card, challenge, es), i, es[i].response.body.witnessId, hash);
    CountsIsAccepted(card, challenge, Promoted(es, i), es[i].response.body.witnessId, hash);
  }

  /** Two envelopes that speak for one witness differently: bringing the one or the other to
      the front gives different acceptances. */
  lemma OrderFreeSettles(card: RecoveryCard, challenge: ReadChallenge, es: seq<ReadEnvelope>, i: nat, j: nat, hash: CapsuleHash)
    requires AcceptanceIsOrderFree(card, challenge, es) && i < |es| && j < |es|
    requires Addressed(Pins(card.witnesses), challenge, es[i]) && Addressed(Pins(card.witnesses), challenge, es[j])
    requires es[i].response.body.witnessId == es[j].response.body.witnessId
    requires Authentic(card, es[i]) && es[i].capsule.hash == hash
    ensures Authentic(card, es[j]) && es[j].capsule.hash == hash
  {
    PromotedAccepts(card, challenge, es, i, hash);
    PromotedAccepts(card, challenge, es, j, hash);
    assert SameAcceptance(card, challenge, es, Promoted(es, i)) && SameAcceptance(card, challenge, es, Promoted(es, j));
    var w := es[i].response.body.witnessId;
    assert AcceptedWith(card, challenge, es, w, hash);
  }

  /** Which witnesses are accepted, with which capsules, does not depend on the order of the
      envelopes exactly when no witness is spoken for by envelopes that differ in
      authenticity or, being authentic, in their capsule. */
  lemma OrderMattersIffClash(card: RecoveryCard, challenge: ReadChallenge, es: seq<ReadEnvelope>)
    ensures AcceptanceIsOrderFree(card, challenge, es) <==> NoClash(card, challenge, es) && OneCapsuleEach(card, challenge, es)
  {
    if NoClash(card, challenge, es) && OneCapsuleEach(card, challenge, es) {
      forall p: seq<ReadEnvelope> | Permutes(es, p)
        ensures SameAcceptance(card, challenge, es, p)
      {
        SettledPermutation(card, challenge, es, p);
      }
    }
    if AcceptanceIsOrderFree(card, challenge, es) {
      forall a, b | a in es && b in es
                    && Addressed(Pins(card.witnesses), challenge, a) && Addressed(Pins(card.witnesses), challenge, b)
                    && a.response.body.witnessId == b.response.body.witnessId && Authentic(card, a)
        ensures Authentic(card, b) && b.capsule.hash == a.capsule.hash
      {
        var i: nat :| i < |es| && es[i] == a;
        var j: nat :| j < |es| && es[j] == b;
        OrderFreeSettles(card, challenge, es, i, j, a.capsule.hash);
      }
    }
  }

  // ---- Accepted witnesses --------------------------------------------------------

  ghost function Witnesses(card: RecoveryCard, challenge: ReadChallenge, es: seq<ReadEnvelope>): set<nat> {
    WitnessesAt(es, AcceptedIndices(card, challenge, es))
  }

  /** The witnesses some authentic envelope is addressed from, in whatever order. */
  ghost function Vouched(card: RecoveryCard, challenge: ReadChallenge, es: seq<ReadEnvelope>): set<nat> {
    set i: nat | i < |es| && Addressed(Pins(card.witnesses), challenge, es[i]) && Authentic(card, es[i]) :: es[i].response.body.witnessId
  }

  lemma WitnessesAreAccepted(card: RecoveryCard, challenge: ReadChallenge, es: seq<ReadEnvelope>, w: nat)
    ensures w in Witnesses(card, challenge, es) <==> exists hash :: AcceptedWith(card, challenge, es, w, hash)
  {
    if w in Witnesses(card, challenge, es) {
      var i :| i in AcceptedIndices(card, challenge, es) && es[i].response.body.witnessId == w;
      assert AcceptedWith(card, challenge, es, w, es[i].capsule.hash);
    }
  }

  lemma VouchedIsShown(card: RecoveryCard, challenge: ReadChallenge, es: seq<ReadEnvelope>, w: nat)
    ensures w in Vouched(card, challenge, es) <==> exists hash :: Shown(Faces(card, challenge, es), w, hash)
  {
    var fs := Faces(card, challenge, es);
    if w in Vouched(card, challenge, es) {
      var i: nat :| i < |es| && Addressed(Pins(card.witnesses), challenge, es[i]) && Authentic(card, es[i]) && es[i].response.body.witnessId == w;
      assert fs[i] == Seen(w, Some(es[i].capsule.hash));
      assert Shown(fs, w, es[i].capsule.hash);
    }
    if hash :| Shown(fs, w, hash) {
      var i :| 0 <= i < |fs| && fs[i] == Seen(w, Some(hash));
      assert Addressed(Pins(card.witnesses), challenge, es[i]) && Authentic(card, es[i]);
    }
  }

  lemma NoClashAgrees(card: RecoveryCard, challenge: ReadChallenge, es: seq<ReadEnvelope>, w: nat)
    requires NoClash(card, challenge, es)
    ensures Agreed(Faces(card, challenge, es), w)
  {
    var fs := Faces(card, challenge, es);
    forall f, g | f in fs && g in fs && f.Seen? && g.Seen? && f.speaker == w == g.speaker
      ensures f.view.Some? <==> g.view.Some?
    {
      var i :| 0 <= i < |fs| && fs[i] == f;
      var j :| 0 <= j < |fs| && fs[j] == g;
      assert es[i] in es && es[j] in es;
    }
  }

  /** Without a clash the accepted witnesses are those somebody vouched for. */
  lemma AcceptedAreVouched(card: RecoveryCard, challenge: ReadChallenge, es: seq<ReadEnvelope>)
    requires NoClash(card, challenge, es)
    ensures Witnesses(card, challenge, es) == Vouched(card, challenge, es)
  {
    forall w
      ensures w in Witnesses(card, challenge, es) <==> w in Vouched(card, challenge, es)
    {
      WitnessesAreAccepted(card, challenge, es, w);
      VouchedIsShown(card, challenge, es, w);
      NoClashAgrees(card, challenge, es, w);
      AgreedCounts(Faces(card, challenge, es), w);
      forall hash
        ensures AcceptedWith(card, challenge, es, w, hash) <==> Counts(Faces(card, challenge, es), w, hash)
      {
        CountsIsAccepted(card, challenge, es, w, hash);
      }
    }
  }

  ghost predicate WitnessesAreOrderFree(card: RecoveryCard, challenge: ReadChallenge, es: seq<ReadEnvelope>) {
    forall p: seq<ReadEnvelope> {:trigger Permutes(es, p)} :: Permutes(es, p) ==> Witnesses(card, challenge, p) == Witnesses(card, challenge, es)
  }

  lemma PromotedWitness(card: RecoveryCard, challenge: ReadChallenge, es: seq<ReadEnvelope>, i: nat)
    requires i < |es| && Addressed(Pins(card.witnesses), challenge, es[i])
    ensures Permutes(es, Promoted(es, i))
    ensures es[i].response.body.witnessId in Witnesses(card, challenge, Promoted(es, i)) <==> Authentic(card, es[i])
  {
    var w := es[i].response.body.witnessId;
    WitnessesAreAccepted(card, challenge, Promoted(es, i), w);
    forall hash
      ensures AcceptedWith(card, challenge, Promoted(es, i), w, hash) <==> Authentic(card, es[i]) && es[i].capsule.hash == hash
    {
      PromotedAccepts(card, challenge, es, i, hash);
    }
    PromotedAccepts(card, challenge, es, i, es[i].capsule.hash);
  }

  /** The set of accepted witnesses does not depend on the order exactly when nobody's
      authentic envelope competes with a forged one. */
  lemma WitnessesOrderFreeIffNoClash(card: RecoveryCard, challenge: ReadChallenge, es: seq<ReadEnvelope>)
    ensures WitnessesAreOrderFree(card, challenge, es) <==> NoClash(card, challenge, es)
  {
    if NoClash(card, challenge, es) {
      forall p: seq<ReadEnvelope> | Permutes(es, p)
        ensures Witnesses(card, challenge, p) == Witnesses(card, challenge, es)
      {
        SameElements(es, p);
        AcceptedAreVouched(card, challenge, es);
        AcceptedAreVouched(card, challenge, p);
        VouchedOfSubset(card, challenge, es, p);
        VouchedOfSubset(card, challenge, p, es);
      }
    }
    if WitnessesAreOrderFree(card, challenge, es) {
      forall a, b | a in es && b in es
                    && Addressed(Pins(card.witnesses), challenge, a) && Addressed(Pins(card.witnesses), challenge, b)
                    && a.response.body.witnessId == b.response.body.witnessId
        ensures Authentic(card, a) <==> Authentic(card, b)
      {
        var i: nat :| i < |es| && es[i] == a;
        var j: nat :| j < |es| && es[j] == b;
        PromotedWitness(card, challenge, es, i);
        PromotedWitness(card, challenge, es, j);
      }
    }
  }

  lemma VouchedOfSubset(card: RecoveryCard, challenge: ReadChallenge, es: seq<ReadEnvelope>, p: seq<ReadEnvelope>)
    requires forall e :: e in es ==> e in p
    ensures Vouched(card, challenge, es) <= Vouched(card, challenge, p)
  {
    forall w | w in Vouched(card, challenge, es)
      ensures w in Vouched(card, challenge, p)
    {
      var i: nat :| i < |es| && Addressed(Pins(card.witnesses), challenge, es[i]) && Authentic(card, es[i]) && es[i].response.body.witnessId == w;
      assert es[i] in es;
      var j: nat :| j < |p| && p[j] == es[i];
    }
  }

  // ---- The selection -------------------------------------------------------------

  /** A capsule of maximal epoch among the accepted ones. */
  ghost predicate TopHash(card: RecoveryCard, challenge: ReadChallenge, es: seq<ReadEnvelope>, hash: CapsuleHash) {
    exists i: nat :: Top(es, AcceptedIndices(card, challenge, es), i) && es[i].capsule.hash == hash
  }

  lemma HashTellsEpoch(card: RecoveryCard, challenge: ReadChallenge, es: seq<ReadEnvelope>, i: nat)
    requires i in AcceptedIndices(card, challenge, es)
    ensures es[i].capsule.hash.BodyHash? && es[i].capsule.Epoch() == es[i].capsule.hash.body.configRef.guardianEpoch
  {
  }

  lemma TopHashMoves(card: RecoveryCard, challenge: ReadChallenge, es: seq<ReadEnvelope>, p: seq<ReadEnvelope>, hash: CapsuleHash)
    requires SameAcceptance(card, challenge, es, p) && TopHash(card, challenge, es, hash)
    ensures TopHash(card, challenge, p, hash)
  {
    var from, into := AcceptedIndices(card, challenge, es), AcceptedIndices(card, challenge, p);
    var i: nat :| Top(es, from, i) && es[i].capsule.hash == hash;
    assert AcceptedWith(card, challenge, es, es[i].response.body.witnessId, hash);
    assert AcceptedWith(card, challenge, p, es[i].response.body.witnessId, hash);
    var k :| k in into && p[k].response.body.witnessId == es[i].response.body.witnessId && p[k].capsule.hash == hash;
    HashTellsEpoch(card, challenge, es, i);
    HashTellsEpoch(card, challenge, p, k);
    forall j | j in into
      ensures p[j].capsule.Epoch() <= p[k].capsule.Epoch()
    {
      assert AcceptedWith(card, challenge, p, p[j].response.body.witnessId, p[j].capsule.hash);
      assert AcceptedWith(card, challenge, es, p[j].response.body.witnessId, p[j].capsule.hash);
      var l :| l in from && es[l].response.body.witnessId == p[j].response.body.witnessId && es[l].capsule.hash == p[j].capsule.hash;
      HashTellsEpoch(card, challenge, p, j);
      HashTellsEpoch(card, challenge, es, l);
    }
    assert Top(p, into, k);
  }

  ghost predicate OneTop(card: RecoveryCard, challenge: ReadChallenge, es: seq<ReadEnvelope>) {
    forall a, b :: TopHash(card, challenge, es, a) && TopHash(card, challenge, es, b) ==> a == b
  }

  lemma UnforkedIsOneTop(card: RecoveryCard, challenge: ReadChallenge, es: seq<ReadEnvelope>)
    ensures Unforked(es, AcceptedIndices(card, challenge, es)) <==> OneTop(card, challenge, es)
  {
    var accepted := AcceptedIndices(card, challenge, es);
    if OneTop(card, challenge, es) {
      forall i, j | i in accepted && j in accepted && Top(es, accepted, i) && Top(es, accepted, j)
        ensures es[i].capsule.hash == es[j].capsule.hash
      {
        assert TopHash(card, challenge, es, es[i].capsule.hash) && TopHash(card, challenge, es, es[j].capsule.hash);
      }
    }
  }

  /** Without clashes the whole selection is a function of the set of envelopes: every
      reordering is decidable or not alike, and selects the same capsule. */
  lemma SelectionIgnoresOrder(card: RecoveryCard, challenge: ReadChallenge, es: seq<ReadEnvelope>, p: seq<ReadEnvelope>)
    requires NoClash(card, challenge, es) && OneCapsuleEach(card, challenge, es) && Permutes(es, p)
    ensures Decidable(card, challenge, es) <==> Decidable(card, challenge, p)
    ensures forall hash :: TopHash(card, challenge, es, hash) <==> TopHash(card, challenge, p, hash)
    ensures forall t: nat, u: nat ::
              Decidable(card, challenge, es)
              && Top(es, AcceptedIndices(card, challenge, es), t) && Top(p, AcceptedIndices(card, challenge, p), u) ==>
                es[t].capsule.hash == p[u].capsule.hash
  {
    SettledPermutation(card, challenge, es, p);
    WitnessesOrderFreeIffNoClash(card, challenge, es);
    forall hash
      ensures TopHash(card, challenge, es, hash) <==> TopHash(card, challenge, p, hash)
    {
      if TopHash(card, challenge, es, hash) {
        TopHashMoves(card, challenge, es, p, hash);
      }
      if TopHash(card, challenge, p, hash) {
        TopHashMoves(card, challenge, p, es, hash);
      }
    }
    UnforkedIsOneTop(card, challenge, es);
    UnforkedIsOneTop(card, challenge, p);
    forall t: nat, u: nat
      | Decidable(card, challenge, es)
        && Top(es, AcceptedIndices(card, challenge, es), t) && Top(p, AcceptedIndices(card, challenge, p), u)
      ensures es[t].capsule.hash == p[u].capsule.hash
    {
      assert TopHash(card, challenge, es, es[t].capsule.hash) && TopHash(card, challenge, p, p[u].capsule.hash);
    }
  }

  lemma PromotedAt<T>(s: seq<T>, i: nat, j: nat)
    requires i < |s| && j < |s|
    ensures |Promoted(s, i)| == |s|
    ensures Promoted(s, i)[j] == (if j == 0 then s[i] else if j <= i then s[j - 1] else s[j])
  {
  }

  lemma StillFirst(fs: seq<Face>, i: nat, k: nat)
    requires i < |fs| && k < |fs| && First(fs, k) && fs[i].Seen? && fs[i].speaker != fs[k].speaker
    ensures exists k': nat :: k' < |fs| && |Promoted(fs, i)| == |fs| && First(Promoted(fs, i), k') && Promoted(fs, i)[k'] == fs[k]
  {
    var gs := Promoted(fs, i);
    var k': nat := if k < i then k + 1 else k;
    PromotedAt(fs, i, k');
    forall j: nat | j < k' && gs[j].Seen?
      ensures gs[j].speaker != gs[k'].speaker
    {
      PromotedAt(fs, i, j);
    }
  }

  lemma WasFirst(fs: seq<Face>, i: nat, k': nat)
    requires i < |fs| && k' < |fs| && |Promoted(fs, i)| == |fs| && First(Promoted(fs, i), k')
    requires fs[i].Seen? && fs[i].speaker != Promoted(fs, i)[k'].speaker
    ensures exists k: nat :: k < |fs| && First(fs, k) && fs[k] == Promoted(fs, i)[k']
  {
    var gs := Promoted(fs, i);
    PromotedAt(fs, i, k');
    PromotedAt(fs, i, 0);
    var k: nat := if k' <= i then k' - 1 else k';
    forall j: nat | j < k && fs[j].Seen?
      ensures fs[j].speaker != fs[k].speaker
    {
      if j != i {
        PromotedAt(fs, i, if j < i then j + 1 else j);
      }
    }
  }

  lemma PromotedLeavesOthers(fs: seq<Face>, i: nat, w: nat, hash: CapsuleHash)
    requires i < |fs| && fs[i].Seen? && fs[i].speaker != w
    ensures Counts(Promoted(fs, i), w, hash) <==> Counts(fs, w, hash)
  {
    PromotedAt(fs, i, 0);
    if Counts(fs, w, hash) {
      var k: nat :| k < |fs| && First(fs, k) && fs[k] == Seen(w, Some(hash));
      StillFirst(fs, i, k);
    }
    if Counts(Promoted(fs, i), w, hash) {
      var k: nat :| k < |Promoted(fs, i)| && First(Promoted(fs, i), k) && Promoted(fs, i)[k] == Seen(w, Some(hash));
      WasFirst(fs, i, k);
    }
  }

  lemma ForgeryInFrontRemovesOne(card: RecoveryCard, challenge: ReadChallenge, es: seq<ReadEnvelope>, i: nat)
    requires i < |es| && Addressed(Pins(card.witnesses), challenge, es[i]) && !Authentic(card, es[i])
    ensures Permutes(es, Promoted(es, i))
    ensures Witnesses(card, challenge, Promoted(es, i)) == Witnesses(card, challenge, es) - {es[i].response.body.witnessId}
  {
    var w := es[i].response.body.witnessId;
    PromotedWitness(card, challenge, es, i);
    FacesPromoted(card, challenge, es, i);
    forall v | v != w
      ensures v in Witnesses(card, challenge, Promoted(es, i)) <==> v in Witnesses(card, challenge, es)
    {
      WitnessesAreAccepted(card, challenge, Promoted(es, i), v);
      WitnessesAreAccepted(card, challenge, es, v);
      forall hash
        ensures AcceptedWith(card, challenge, Promoted(es, i), v, hash) <==> AcceptedWith(card, challenge, es, v, hash)
      {
        CountsIsAccepted(card, challenge, es, v, hash);
        CountsIsAccepted(card, challenge, Promoted(es, i), v, hash);
        PromotedLeavesOthers(Faces(card, challenge, es), i, v, hash);
      }
    }
  }

  /** And with a clash the selection does depend on it: where the quorum is just met, moving
      the forged envelope of one accepted witness to the front leaves nothing to select. */
  lemma ClashBreaksTightQuorum(card: RecoveryCard, challenge: ReadChallenge, es: seq<ReadEnvelope>, i: nat)
    requires Decidable(card, challenge, es) && |Witnesses(card, challenge, es)| == 2 * card.faultBound + 1
    requires i < |es| && Addressed(Pins(card.witnesses), challenge, es[i]) && !Authentic(card, es[i])
    requires es[i].response.body.witnessId in Witnesses(card, challenge, es)
    ensures Permutes(es, Promoted(es, i)) && !Decidable(card, challenge, Promoted(es, i))
  {
    ForgeryInFrontRemovesOne(card, challenge, es, i);
  }
}
