/** When the order of the envelopes decides what a reader selects: the capsules that every
    order selects, those that some order selects, and the reads on which the two agree. */
module SelectionOutcome {
  import opened Foundations
  import opened EpochTypes
  import opened WitnessEntry
  import opened EpochSelection
  import opened SelectionOrder

  // ---- What one order selects ----------------------------------------------------

  /** The checks that look at no envelope. */
  predicate Guards(card: RecoveryCard, challenge: ReadChallenge) {
    CardValid(card) && ChallengeEncodes(challenge) && challenge.configId == card.configId
  }

  /** The reader, given the envelopes in this order, selects a capsule with this hash. */
  ghost predicate Selects(card: RecoveryCard, challenge: ReadChallenge, es: seq<ReadEnvelope>, hash: CapsuleHash) {
    Decidable(card, challenge, es) && TopHash(card, challenge, es, hash)
  }

  /** The witnesses that count in this order. */
  ghost function Counted(fs: seq<Face>): set<nat> {
    set i: nat | i < |fs| && First(fs, i) && fs[i].view.Some? :: fs[i].speaker
  }

  /** Another capsule that does not compete with `hash` for the highest epoch. */
  predicate Yields(g: CapsuleHash, hash: CapsuleHash) {
    g == hash || EpochOf(g) < EpochOf(hash)
  }

  ghost predicate Chosen(fs: seq<Face>, quorum: nat, hash: CapsuleHash) {
    && |Counted(fs)| >= quorum
    && (exists w :: Counts(fs, w, hash))
    && (forall w, g :: Counts(fs, w, g) ==> Yields(g, hash))
  }

  lemma WitnessesAreCounted(card: RecoveryCard, challenge: ReadChallenge, es: seq<ReadEnvelope>)
    ensures Witnesses(card, challenge, es) == Counted(Faces(card, challenge, es))
  {
    var fs := Faces(card, challenge, es);
    forall w
      ensures w in Witnesses(card, challenge, es) <==> w in Counted(fs)
    {
      WitnessesAreAccepted(card, challenge, es, w);
      forall hash
        ensures AcceptedWith(card, challenge, es, w, hash) <==> Counts(fs, w, hash)
      {
        CountsIsAccepted(card, challenge, es, w, hash);
      }
      CountedIsCounts(fs, w);
    }
  }

  lemma CountedIsCounts(fs: seq<Face>, w: nat)
    ensures w in Counted(fs) <==> exists hash :: Counts(fs, w, hash)
  {
    if w in Counted(fs) {
      var i: nat :| i < |fs| && First(fs, i) && fs[i].view.Some? && fs[i].speaker == w;
      assert Counts(fs, w, fs[i].view.value);
    }
  }

  lemma UnbeatenIsTop(card: RecoveryCard, challenge: ReadChallenge, es: seq<ReadEnvelope>, w: nat, hash: CapsuleHash)
    requires AcceptedWith(card, challenge, es, w, hash)
    requires forall v, g :: AcceptedWith(card, challenge, es, v, g) ==> EpochOf(g) <= EpochOf(hash)
    ensures TopHash(card, challenge, es, hash)
  {
    var accepted := AcceptedIndices(card, challenge, es);
    var i :| i in accepted && es[i].response.body.witnessId == w && es[i].capsule.hash == hash;
    HashTellsEpoch(card, challenge, es, i);
    forall j | j in accepted
      ensures es[j].capsule.Epoch() <= es[i].capsule.Epoch()
    {
      HashTellsEpoch(card, challenge, es, j);
      assert AcceptedWith(card, challenge, es, es[j].response.body.witnessId, es[j].capsule.hash);
    }
    assert Top(es, accepted, i);
  }

  lemma TopIsUnbeaten(card: RecoveryCard, challenge: ReadChallenge, es: seq<ReadEnvelope>, hash: CapsuleHash)
    requires TopHash(card, challenge, es, hash)
    ensures exists w :: AcceptedWith(card, challenge, es, w, hash)
    ensures forall w, g :: AcceptedWith(card, challenge, es, w, g) ==> EpochOf(g) <= EpochOf(hash)
  {
    var accepted := AcceptedIndices(card, challenge, es);
    var i: nat :| Top(es, accepted, i) && es[i].capsule.hash == hash;
    HashTellsEpoch(card, challenge, es, i);
    assert AcceptedWith(card, challenge, es, es[i].response.body.witnessId, hash);
    forall w, g | AcceptedWith(card, challenge, es, w, g)
      ensures EpochOf(g) <= EpochOf(hash)
    {
      var j :| j in accepted && es[j].response.body.witnessId == w && es[j].capsule.hash == g;
      HashTellsEpoch(card, challenge, es, j);
    }
  }

  lemma TopByFaces(card: RecoveryCard, challenge: ReadChallenge, es: seq<ReadEnvelope>, hash: CapsuleHash)
    ensures TopHash(card, challenge, es, hash) <==> Unbeaten(Faces(card, challenge, es), hash)
  {
    var fs := Faces(card, challenge, es);
    forall w, g
      ensures AcceptedWith(card, challenge, es, w, g) <==> Counts(fs, w, g)
    {
      CountsIsAccepted(card, challenge, es, w, g);
    }
    if TopHash(card, challenge, es, hash) {
      TopIsUnbeaten(card, challenge, es, hash);
    } else if w :| AcceptedWith(card, challenge, es, w, hash) && Unbeaten(fs, hash) {
      UnbeatenIsTop(card, challenge, es, w, hash);
    }
  }

  ghost predicate Unbeaten(fs: seq<Face>, hash: CapsuleHash) {
    && (exists w :: Counts(fs, w, hash))
    && (forall w, g :: Counts(fs, w, g) ==> EpochOf(g) <= EpochOf(hash))
  }

  /** One order selects `hash` exactly when a quorum counts in it, somebody with `hash`, and
      nobody with another capsule of that epoch or a higher one. */
  lemma SelectsIsChosen(card: RecoveryCard, challenge: ReadChallenge, es: seq<ReadEnvelope>, hash: CapsuleHash)
    ensures Selects(card, challenge, es, hash) <==>
              Guards(card, challenge) && Chosen(Faces(card, challenge, es), 2 * card.faultBound + 1, hash)
  {
    WitnessesAreCounted(card, challenge, es);
    UnforkedIsOneTop(card, challenge, es);
    forall g
      ensures TopHash(card, challenge, es, g) <==> Unbeaten(Faces(card, challenge, es), g)
    {
      TopByFaces(card, challenge, es, g);
    }
    OnlyTopYields(card, challenge, es, Faces(card, challenge, es), hash);
  }

  lemma OnlyTopYields(card: RecoveryCard, challenge: ReadChallenge, es: seq<ReadEnvelope>, fs: seq<Face>, hash: CapsuleHash)
    requires forall g :: TopHash(card, challenge, es, g) <==> Unbeaten(fs, g)
    ensures OneTop(card, challenge, es) && TopHash(card, challenge, es, hash) <==>
              (exists w :: Counts(fs, w, hash)) && forall w, g :: Counts(fs, w, g) ==> Yields(g, hash)
  {
    if OneTop(card, challenge, es) && TopHash(card, challenge, es, hash) {
      forall w, g | Counts(fs, w, g)
        ensures Yields(g, hash)
      {
        if EpochOf(g) == EpochOf(hash) {
          assert TopHash(card, challenge, es, g);
        }
      }
    }
  }

  lemma ChosenIsUnique(fs: seq<Face>, quorum: nat, g: CapsuleHash, hash: CapsuleHash)
    requires Chosen(fs, quorum, g) && Chosen(fs, quorum, hash)
    ensures g == hash
  {
  }

  lemma FacesJoin(card: RecoveryCard, challenge: ReadChallenge, a: seq<ReadEnvelope>, b: seq<ReadEnvelope>)
    ensures Faces(card, challenge, a + b) == Faces(card, challenge, a) + Faces(card, challenge, b)
  {
  }

  // ---- Putting one envelope of each witness first ---------------------------------

  lemma {:induction false} Partition<T>(s: seq<T>, keep: T -> bool) returns (front: seq<T>, back: seq<T>)
    ensures Permutes(s, front + back)
    ensures forall x :: x in front ==> keep(x)
    ensures forall x :: x in s && keep(x) ==> x in front
    ensures forall x :: x in back ==> !keep(x)
    decreases |s|
  {
    if s == [] {
      front, back := [], [];
    } else {
      var n := |s| - 1;
      front, back := Partition(s[..n], keep);
      assert s == s[..n] + [s[n]];
      if keep(s[n]) {
        front := front + [s[n]];
      } else {
        back := back + [s[n]];
      }
    }
  }

  function Speakers(fs: seq<Face>): set<nat> {
    set i: nat | i < |fs| && fs[i].Seen? :: fs[i].speaker
  }

  /** For each witness one of the ways it is spoken for. */
  ghost predicate Offers(fs: seq<Face>, choice: map<nat, Option<CapsuleHash>>) {
    choice.Keys == Speakers(fs) && forall w :: w in choice ==> Seen(w, choice[w]) in fs
  }

  predicate Picks(choice: map<nat, Option<CapsuleHash>>, f: Face) {
    f.Seen? && f.speaker in choice && choice[f.speaker] == f.view
  }

  /** The chosen faces lead. */
  ghost predicate Leads(choice: map<nat, Option<CapsuleHash>>, fs: seq<Face>, n: nat) {
    n <= |fs| && forall i :: 0 <= i < |fs| ==> (Picks(choice, fs[i]) <==> i < n)
  }

  lemma LeadersCount(choice: map<nat, Option<CapsuleHash>>, fs: seq<Face>, n: nat, w: nat, hash: CapsuleHash)
    requires Offers(fs, choice) && Leads(choice, fs, n)
    ensures Counts(fs, w, hash) <==> w in choice && choice[w] == Some(hash)
  {
    if w in choice {
      var k :| 0 <= k < |fs| && fs[k] == Seen(w, choice[w]);
      assert Picks(choice, fs[k]);
      var i := FirstExists(fs, k);
      assert Picks(choice, fs[i]);
    }
    if Counts(fs, w, hash) {
      var i: nat :| i < |fs| && First(fs, i) && fs[i] == Seen(w, Some(hash));
      assert w in Speakers(fs);
      var k :| 0 <= k < |fs| && fs[k] == Seen(w, choice[w]);
      assert Picks(choice, fs[k]) && k < n;
      assert !(k < i);
      assert Picks(choice, fs[i]);
    }
  }

  lemma OffersMove(fs: seq<Face>, gs: seq<Face>, choice: map<nat, Option<CapsuleHash>>)
    requires Offers(fs, choice) && forall f :: f in fs <==> f in gs
    ensures Offers(gs, choice)
  {
    forall w
      ensures w in Speakers(fs) <==> w in Speakers(gs)
    {
      if w in Speakers(fs) {
        var i: nat :| i < |fs| && fs[i].Seen? && fs[i].speaker == w;
        assert fs[i] in gs;
      }
      if w in Speakers(gs) {
        var i: nat :| i < |gs| && gs[i].Seen? && gs[i].speaker == w;
        assert gs[i] in fs;
      }
    }
  }

  /** Some order makes every witness count for what was chosen for it. */
  lemma ChoiceHasOrder(card: RecoveryCard, challenge: ReadChallenge, es: seq<ReadEnvelope>, choice: map<nat, Option<CapsuleHash>>)
    returns (p: seq<ReadEnvelope>)
    requires Offers(Faces(card, challenge, es), choice)
    ensures Permutes(es, p)
    ensures forall w, hash :: Counts(Faces(card, challenge, p), w, hash) <==> w in choice && choice[w] == Some(hash)
  {
    var front, back := Partition(es, (e: ReadEnvelope) => Picks(choice, FaceOf(card, challenge, e)));
    p := front + back;
    var fs, gs := Faces(card, challenge, es), Faces(card, challenge, p);
    FacesOfPermutation(card, challenge, es, p);
    OffersMove(fs, gs, choice);
    forall i | 0 <= i < |gs|
      ensures Picks(choice, gs[i]) <==> i < |front|
    {
      assert p[i] in (if i < |front| then front else back);
    }
    forall w, hash
      ensures Counts(gs, w, hash) <==> w in choice && choice[w] == Some(hash)
    {
      LeadersCount(choice, gs, |front|, w, hash);
    }
  }

  // ---- What every order selects --------------------------------------------------

  /** The witnesses all of whose addressed envelopes are authentic. */
  function Steady(fs: seq<Face>): set<nat> {
    set w | w in Speakers(fs) && Seen(w, None) !in fs
  }

  /** The witness's addressed envelopes are all authentic, all for this capsule. */
  predicate SteadyFor(fs: seq<Face>, w: nat, hash: CapsuleHash) {
    Seen(w, Some(hash)) in fs && forall f :: f in fs && f.Seen? && f.speaker == w ==> f.view == Some(hash)
  }

  ghost predicate AlwaysChosen(fs: seq<Face>, quorum: nat, hash: CapsuleHash) {
    && |Steady(fs)| >= quorum
    && (exists w :: SteadyFor(fs, w, hash))
    && (forall w, g :: Shown(fs, w, g) ==> Yields(g, hash))
  }

  lemma SpeakerCounts(fs: seq<Face>, w: nat) returns (i: nat)
    requires w in Speakers(fs)
    ensures i < |fs| && First(fs, i) && fs[i].speaker == w && fs[i] in fs
  {
    var k: nat :| k < |fs| && fs[k].Seen? && fs[k].speaker == w;
    i := FirstExists(fs, k);
  }

  lemma AlwaysIsChosen(fs: seq<Face>, quorum: nat, hash: CapsuleHash)
    requires AlwaysChosen(fs, quorum, hash)
    ensures Chosen(fs, quorum, hash)
  {
    forall w | w in Steady(fs)
      ensures w in Counted(fs)
    {
      var i := SpeakerCounts(fs, w);
      assert fs[i] == Seen(w, fs[i].view);
    }
    SubsetSize(Steady(fs), Counted(fs));
    var w :| SteadyFor(fs, w, hash);
    var k :| 0 <= k < |fs| && fs[k] == Seen(w, Some(hash));
    assert w in Speakers(fs);
    var i := SpeakerCounts(fs, w);
    assert Counts(fs, w, hash);
    forall v, g | Counts(fs, v, g)
      ensures Yields(g, hash)
    {
      assert Shown(fs, v, g);
    }
  }

  /** Another capsule the witness has an authentic envelope for. */
  ghost function Another(fs: seq<Face>, w: nat, hash: CapsuleHash): (other: Option<CapsuleHash>)
    ensures other.Some? ==> other.value != hash && Shown(fs, w, other.value)
    ensures other.None? ==> forall g :: Shown(fs, w, g) ==> g == hash
  {
    if exists g :: g != hash && Shown(fs, w, g) then
      var g :| g != hash && Shown(fs, w, g);
      Some(g)
    else None
  }

  /** The choice against `hash`: a forged envelope if there is one, else another capsule. */
  ghost function Against(fs: seq<Face>, hash: CapsuleHash): map<nat, Option<CapsuleHash>> {
    map w | w in Speakers(fs) ::
      if Seen(w, None) in fs then None
      else if Another(fs, w, hash).Some? then Another(fs, w, hash)
      else Some(hash)
  }

  lemma AgainstIsOffered(fs: seq<Face>, hash: CapsuleHash)
    ensures Offers(fs, Against(fs, hash))
  {
    forall w | w in Speakers(fs)
      ensures Seen(w, Against(fs, hash)[w]) in fs
    {
      var i := SpeakerCounts(fs, w);
      assert fs[i] == Seen(w, fs[i].view);
      assert fs[i].view.Some? ==> Shown(fs, w, fs[i].view.value);
    }
  }

  /** Whoever counts in an order made by a choice was chosen with a capsule. */
  lemma CountedWasChosen(fs: seq<Face>, choice: map<nat, Option<CapsuleHash>>)
    requires forall w, hash :: Counts(fs, w, hash) <==> w in choice && choice[w] == Some(hash)
    ensures Counted(fs) == set w | w in choice && choice[w].Some?
  {
    forall w
      ensures w in Counted(fs) <==> w in choice && choice[w].Some?
    {
      CountedIsCounts(fs, w);
      if w in choice && choice[w].Some? {
        assert Counts(fs, w, choice[w].value);
      }
    }
  }

  /** If even the order against `hash` chooses it, every order does. */
  lemma AgainstDecides(fs: seq<Face>, gs: seq<Face>, quorum: nat, hash: CapsuleHash)
    requires forall w, g :: Counts(gs, w, g) <==> w in Against(fs, hash) && Against(fs, hash)[w] == Some(g)
    requires Chosen(gs, quorum, hash)
    ensures |Steady(fs)| >= quorum && exists w :: SteadyFor(fs, w, hash)
  {
    var choice := Against(fs, hash);
    CountedWasChosen(gs, choice);
    assert Counted(gs) == Steady(fs);
    var w :| Counts(gs, w, hash);
    assert choice[w] == Some(hash);
    assert Another(fs, w, hash).None?;
    var i := SpeakerCounts(fs, w);
    forall f | f in fs && f.Seen? && f.speaker == w
      ensures f.view == Some(hash)
    {
      assert f.view.Some? ==> Shown(fs, w, f.view.value);
    }
    assert fs[i].view == Some(hash);
    assert SteadyFor(fs, w, hash);
  }

  /** Every order of the envelopes selects `hash`: the guards hold, `2f + 1` witnesses have
      only authentic envelopes, one of them for this capsule alone, and no authentic envelope
      has another capsule of its epoch or a higher one. */
  ghost predicate Sure(card: RecoveryCard, challenge: ReadChallenge, es: seq<ReadEnvelope>, hash: CapsuleHash) {
    Guards(card, challenge) && AlwaysChosen(Faces(card, challenge, es), 2 * card.faultBound + 1, hash)
  }

  ghost predicate SelectedByAll(card: RecoveryCard, challenge: ReadChallenge, es: seq<ReadEnvelope>, hash: CapsuleHash) {
    forall p: seq<ReadEnvelope> {:trigger Permutes(es, p)} :: Permutes(es, p) ==> Selects(card, challenge, p, hash)
  }

  lemma AlwaysChosenMoves(fs: seq<Face>, gs: seq<Face>, quorum: nat, hash: CapsuleHash)
    requires AlwaysChosen(fs, quorum, hash) && forall f :: f in fs <==> f in gs
    ensures AlwaysChosen(gs, quorum, hash)
  {
    AgainstIsOffered(fs, hash);
    OffersMove(fs, gs, Against(fs, hash));
    assert Steady(gs) == Steady(fs);
    var w :| SteadyFor(fs, w, hash);
    assert SteadyFor(gs, w, hash);
    forall v, g | Shown(gs, v, g)
      ensures Yields(g, hash)
    {
      assert Shown(fs, v, g);
    }
  }

  lemma ShownCanLead(card: RecoveryCard, challenge: ReadChallenge, es: seq<ReadEnvelope>, w: nat, g: CapsuleHash)
    returns (p: seq<ReadEnvelope>)
    requires Shown(Faces(card, challenge, es), w, g)
    ensures Permutes(es, p) && Counts(Faces(card, challenge, p), w, g)
  {
    var fs := Faces(card, challenge, es);
    var i :| 0 <= i < |fs| && fs[i] == Seen(w, Some(g));
    p := Promoted(es, i);
    PromotedPermutes(es, i);
    FacesPromoted(card, challenge, es, i);
    PromotedCounts(fs, i, w, g);
  }

  lemma SelectedByAllIffSure(card: RecoveryCard, challenge: ReadChallenge, es: seq<ReadEnvelope>, hash: CapsuleHash)
    ensures SelectedByAll(card, challenge, es, hash) <==> Sure(card, challenge, es, hash)
  {
    var fs, quorum := Faces(card, challenge, es), 2 * card.faultBound + 1;
    if Sure(card, challenge, es, hash) {
      forall p: seq<ReadEnvelope> | Permutes(es, p)
        ensures Selects(card, challenge, p, hash)
      {
        FacesOfPermutation(card, challenge, es, p);
        AlwaysChosenMoves(fs, Faces(card, challenge, p), quorum, hash);
        AlwaysIsChosen(Faces(card, challenge, p), quorum, hash);
        SelectsIsChosen(card, challenge, p, hash);
      }
    }
    if SelectedByAll(card, challenge, es, hash) {
      AgainstIsOffered(fs, hash);
      var p := ChoiceHasOrder(card, challenge, es, Against(fs, hash));
      SelectsIsChosen(card, challenge, p, hash);
      AgainstDecides(fs, Faces(card, challenge, p), quorum, hash);
      forall w, g | Shown(fs, w, g)
        ensures Yields(g, hash)
      {
        var q := ShownCanLead(card, challenge, es, w, g);
        SelectsIsChosen(card, challenge, q, hash);
      }
    }
  }

  // ---- What some order selects ---------------------------------------------------

  /** A face that does not stand in the way of `hash`. */
  predicate Harmless(f: Face, hash: CapsuleHash) {
    f.Seen? && (f.view.Some? ==> Yields(f.view.value, hash))
  }

  /** The witnesses with an authentic envelope for `hash` or a lower epoch. */
  ghost function Supporters(fs: seq<Face>, hash: CapsuleHash): set<nat> {
    set i: nat | i < |fs| && Harmless(fs[i], hash) && fs[i].view.Some? :: fs[i].speaker
  }

  ghost predicate SometimesChosen(fs: seq<Face>, quorum: nat, hash: CapsuleHash) {
    && |Supporters(fs, hash)| >= quorum
    && (exists w :: Shown(fs, w, hash))
    && (forall w :: w in Speakers(fs) ==> exists f :: f in fs && f.Seen? && f.speaker == w && Harmless(f, hash))
  }

  /** The choice for `hash`: that capsule, else one of a lower epoch, else a forged envelope. */
  ghost function For(fs: seq<Face>, hash: CapsuleHash): map<nat, Option<CapsuleHash>> {
    map w | w in Speakers(fs) ::
      if Shown(fs, w, hash) then Some(hash) else Lower(fs, w, hash)
  }

  ghost function Lower(fs: seq<Face>, w: nat, hash: CapsuleHash): (lower: Option<CapsuleHash>)
    ensures lower.Some? ==> Shown(fs, w, lower.value) && Yields(lower.value, hash)
    ensures lower.None? ==> forall g :: Shown(fs, w, g) ==> !Yields(g, hash)
  {
    if exists g :: Shown(fs, w, g) && Yields(g, hash) then
      var g :| Shown(fs, w, g) && Yields(g, hash);
      Some(g)
    else None
  }

  lemma ForIsOffered(fs: seq<Face>, quorum: nat, hash: CapsuleHash)
    requires SometimesChosen(fs, quorum, hash)
    ensures Offers(fs, For(fs, hash))
  {
    forall w | w in Speakers(fs)
      ensures Seen(w, For(fs, hash)[w]) in fs
    {
      if For(fs, hash)[w].None? {
        var f :| f in fs && f.Seen? && f.speaker == w && Harmless(f, hash);
        assert f == Seen(w, f.view);
        assert f.view.Some? ==> Shown(fs, w, f.view.value);
      }
    }
  }

  lemma ForChooses(fs: seq<Face>, gs: seq<Face>, quorum: nat, hash: CapsuleHash)
    requires SometimesChosen(fs, quorum, hash)
    requires forall w, g :: Counts(gs, w, g) <==> w in For(fs, hash) && For(fs, hash)[w] == Some(g)
    ensures Chosen(gs, quorum, hash)
  {
    var choice := For(fs, hash);
    CountedWasChosen(gs, choice);
    forall w | w in Supporters(fs, hash)
      ensures w in Counted(gs)
    {
      var i: nat :| i < |fs| && Harmless(fs[i], hash) && fs[i].view.Some? && fs[i].speaker == w;
      assert fs[i] == Seen(w, Some(fs[i].view.value)) && Shown(fs, w, fs[i].view.value);
    }
    SubsetSize(Supporters(fs, hash), Counted(gs));
    var w :| Shown(fs, w, hash);
    var k :| 0 <= k < |fs| && fs[k] == Seen(w, Some(hash));
    assert w in Speakers(fs);
    assert Counts(gs, w, hash);
  }

  lemma ChosenIsPossible(fs: seq<Face>, quorum: nat, hash: CapsuleHash)
    requires Chosen(fs, quorum, hash)
    ensures SometimesChosen(fs, quorum, hash)
  {
    forall w | w in Counted(fs)
      ensures w in Supporters(fs, hash)
    {
      var i: nat :| i < |fs| && First(fs, i) && fs[i].view.Some? && fs[i].speaker == w;
      assert Counts(fs, w, fs[i].view.value);
    }
    SubsetSize(Counted(fs), Supporters(fs, hash));
    var w :| Counts(fs, w, hash);
    assert Shown(fs, w, hash);
    forall v | v in Speakers(fs)
      ensures exists f :: f in fs && f.Seen? && f.speaker == v && Harmless(f, hash)
    {
      var i := SpeakerCounts(fs, v);
      assert fs[i].view.Some? ==> Counts(fs, v, fs[i].view.value);
      assert Harmless(fs[i], hash);
    }
  }

  lemma SometimesChosenMoves(fs: seq<Face>, gs: seq<Face>, quorum: nat, hash: CapsuleHash)
    requires SometimesChosen(fs, quorum, hash) && forall f :: f in fs <==> f in gs
    ensures SometimesChosen(gs, quorum, hash)
  {
    ForIsOffered(fs, quorum, hash);
    OffersMove(fs, gs, For(fs, hash));
    forall w | w in Supporters(fs, hash)
      ensures w in Supporters(gs, hash)
    {
      var i: nat :| i < |fs| && Harmless(fs[i], hash) && fs[i].view.Some? && fs[i].speaker == w;
      assert fs[i] in gs;
      var k: nat :| k < |gs| && gs[k] == fs[i];
    }
    SubsetSize(Supporters(fs, hash), Supporters(gs, hash));
    var w :| Shown(fs, w, hash);
    assert Shown(gs, w, hash);
  }

  /** Some order of the envelopes selects `hash`: the guards hold, it has an authentic
      envelope, `2f + 1` witnesses have one for it or for a lower epoch, and no witness has
      only authentic envelopes for other capsules of its epoch or higher ones. */
  ghost predicate Possible(card: RecoveryCard, challenge: ReadChallenge, es: seq<ReadEnvelope>, hash: CapsuleHash) {
    Guards(card, challenge) && SometimesChosen(Faces(card, challenge, es), 2 * card.faultBound + 1, hash)
  }

  ghost predicate SelectedBySome(card: RecoveryCard, challenge: ReadChallenge, es: seq<ReadEnvelope>, hash: CapsuleHash) {
    exists p: seq<ReadEnvelope> {:trigger Permutes(es, p)} :: Permutes(es, p) && Selects(card, challenge, p, hash)
  }

  lemma SelectedBySomeIffPossible(card: RecoveryCard, challenge: ReadChallenge, es: seq<ReadEnvelope>, hash: CapsuleHash)
    ensures SelectedBySome(card, challenge, es, hash) <==> Possible(card, challenge, es, hash)
  {
    var fs, quorum := Faces(card, challenge, es), 2 * card.faultBound + 1;
    if Possible(card, challenge, es, hash) {
      ForIsOffered(fs, quorum, hash);
      var p := ChoiceHasOrder(card, challenge, es, For(fs, hash));
      ForChooses(fs, Faces(card, challenge, p), quorum, hash);
      SelectsIsChosen(card, challenge, p, hash);
    }
    if SelectedBySome(card, challenge, es, hash) {
      var p: seq<ReadEnvelope> :| Permutes(es, p) && Selects(card, challenge, p, hash);
      SelectsIsChosen(card, challenge, p, hash);
      ChosenIsPossible(Faces(card, challenge, p), quorum, hash);
      FacesOfPermutation(card, challenge, es, p);
      SometimesChosenMoves(Faces(card, challenge, p), fs, quorum, hash);
    }
  }

  // ---- When the order decides ----------------------------------------------------

  /** Every order selects what this one does: the same capsule, or none. */
  ghost predicate OutcomeIsOrderFree(card: RecoveryCard, challenge: ReadChallenge, es: seq<ReadEnvelope>) {
    forall p: seq<ReadEnvelope> {:trigger Permutes(es, p)} :: Permutes(es, p) ==>
      forall hash :: Selects(card, challenge, p, hash) <==> Selects(card, challenge, es, hash)
  }

  lemma TwoOutcomes(card: RecoveryCard, challenge: ReadChallenge, es: seq<ReadEnvelope>, p: seq<ReadEnvelope>, hash: CapsuleHash)
    requires Permutes(es, p) && Selects(card, challenge, es, hash) && !Selects(card, challenge, p, hash)
    ensures !OutcomeIsOrderFree(card, challenge, es)
  {
  }

  lemma SelectsOne(card: RecoveryCard, challenge: ReadChallenge, es: seq<ReadEnvelope>, g: CapsuleHash, hash: CapsuleHash)
    requires Selects(card, challenge, es, g) && Selects(card, challenge, es, hash)
    ensures g == hash
  {
    SelectsIsChosen(card, challenge, es, g);
    SelectsIsChosen(card, challenge, es, hash);
    ChosenIsUnique(Faces(card, challenge, es), 2 * card.faultBound + 1, g, hash);
  }

  lemma SureSelectsOnly(card: RecoveryCard, challenge: ReadChallenge, es: seq<ReadEnvelope>, p: seq<ReadEnvelope>,
                        hash: CapsuleHash, g: CapsuleHash)
    requires Sure(card, challenge, es, hash) && Permutes(es, p)
    ensures Selects(card, challenge, p, g) <==> g == hash
  {
    SelectedByAllIffSure(card, challenge, es, hash);
    if Selects(card, challenge, p, g) {
      SelectsOne(card, challenge, p, g, hash);
    }
  }

  lemma SureIsOrderFree(card: RecoveryCard, challenge: ReadChallenge, es: seq<ReadEnvelope>, hash: CapsuleHash)
    requires Sure(card, challenge, es, hash)
    ensures OutcomeIsOrderFree(card, challenge, es)
  {
    forall p: seq<ReadEnvelope>, g | Permutes(es, p)
      ensures Selects(card, challenge, p, g) <==> Selects(card, challenge, es, g)
    {
      SureSelectsOnly(card, challenge, es, p, hash, g);
      SureSelectsOnly(card, challenge, es, es, hash, g);
    }
  }

  lemma ImpossibleIsOrderFree(card: RecoveryCard, challenge: ReadChallenge, es: seq<ReadEnvelope>)
    requires forall hash :: !SelectedBySome(card, challenge, es, hash)
    ensures OutcomeIsOrderFree(card, challenge, es)
  {
    assert Permutes(es, es);
    forall p: seq<ReadEnvelope>, g | Permutes(es, p)
      ensures Selects(card, challenge, p, g) <==> Selects(card, challenge, es, g)
    {
      assert !SelectedBySome(card, challenge, es, g);
    }
  }

  lemma OrderFreeIsSure(card: RecoveryCard, challenge: ReadChallenge, es: seq<ReadEnvelope>, hash: CapsuleHash)
    requires OutcomeIsOrderFree(card, challenge, es) && SelectedBySome(card, challenge, es, hash)
    ensures Sure(card, challenge, es, hash)
  {
    var p: seq<ReadEnvelope> :| Permutes(es, p) && Selects(card, challenge, p, hash);
    SelectedByAllIffSure(card, challenge, es, hash);
  }

  /** The order of the envelopes does not decide what is selected exactly when some capsule
      is sure, or no capsule is possible. */
  lemma OutcomeOrderFreeIff(card: RecoveryCard, challenge: ReadChallenge, es: seq<ReadEnvelope>)
    ensures OutcomeIsOrderFree(card, challenge, es) <==>
              (exists hash :: Sure(card, challenge, es, hash)) || (forall hash :: !Possible(card, challenge, es, hash))
  {
    forall hash
      ensures SelectedBySome(card, challenge, es, hash) <==> Possible(card, challenge, es, hash)
    {
      SelectedBySomeIffPossible(card, challenge, es, hash);
    }
    if hash :| Sure(card, challenge, es, hash) {
      SureIsOrderFree(card, challenge, es, hash);
    } else if hash :| Possible(card, challenge, es, hash) {
      if OutcomeIsOrderFree(card, challenge, es) {
        OrderFreeIsSure(card, challenge, es, hash);
      }
    } else {
      ImpossibleIsOrderFree(card, challenge, es);
    }
  }
}
