/** Offering and validating choices are written apart in the code.  Here is what
    they agree on, and what persisting an offer does to later offers.  Everything
    holds for every sound catalog of gates, the shipped one among them. */
module ChoiceAgreement {
  import opened Basics
  import opened Text
  import opened GateTable
  import opened HumanGates
  import opened QuestionChoices

  // ---- The offer of an accepted payload ----

  /** A review type that names a gate names the payload's own gate. */
  lemma ReviewGateAgrees(cat: Catalog, p: Payload, g: Gate)
    requires SoundNames(cat) && GateFor(cat, p) == Ok(g) && ReviewGate(cat, p).Some?
    ensures ReviewGate(cat, p) == Some(g)
  {
    var r := ReviewGate(cat, p).value;
    assert p.reviewType.Some? by {
      assert cat.name(r) != "";
    }
    assert Trim(p.reviewType.value) == cat.name(r);
    assert cat.name(r) in Identity(p.reviewType);
    assert cat.name(r) in Identities(p);
    GateForIds(cat, p, g);
  }

  /** The offer of a gate with a closed list, one-shot selectors aside. */
  lemma ClosedOffer(cat: Catalog, p: Payload, g: Gate)
    requires Sound(cat) && GateFor(cat, p) == Ok(g) && !FreeText(g)
    requires g == OneShotFileScope ==> p.selectorOptions.None? || !SelectorOffer(p.selectorOptions.value)
    ensures OfferFor(cat, p) == Ok(NarrowedChoices(cat, p, cat.actions(g)))
  {
    FilterAll((c: string) => c != "respond", cat.actions(g));
  }

  lemma FullIsInOrder(actions: seq<string>)
    requires Distinct(actions)
    ensures InTableOrder(actions, actions) && Subsequence(actions, actions)
  {
    forall i | 0 <= i < |actions| ensures IndexOf(actions, actions[i]) == i {
      IndexIsPosition(actions, i);
    }
    InOrderIffSubsequence(actions, actions);
  }

  lemma {:induction false} FilterAgrees(a: string -> bool, b: string -> bool, s: seq<string>)
    requires forall c :: c in s ==> a(c) == b(c)
    ensures Filter(a, s) == Filter(b, s)
  {
    if s != [] {
      FilterAgrees(a, b, s[1..]);
    }
  }

  // ---- Narrowing one table ----

  lemma MergeFailureShape(actions: seq<string>, evidence: bool, choices: seq<string>)
    requires GoodTable(MergeFailureRecovery, actions)
    ensures var offer := MergeFailureChoices(actions, evidence, true, choices);
            && offer != [] && Subsequence(offer, actions)
            && forall c :: c in offer <==> c in actions && (c == "waive_tests" ==> CanWaive(evidence, choices))
  {
    var canWaive := CanWaive(evidence, choices);
    FilterIsSubsequence((c: string) => c != "waive_tests" || canWaive, actions);
    assert actions[0] in MergeFailureChoices(actions, evidence, true, choices);
  }

  lemma DispositionShape(offered: seq<string>, unavailable: bool, actions: seq<string>)
    requires Distinct(actions) && actions != [] && actions[0] != "accept"
    ensures var offer := DispositionChoices(offered, unavailable, actions); offer != [] && Subsequence(offer, actions)
  {
    FilterIsSubsequence((c: string) => Kept(offered, unavailable, c), actions);
    FilterIsSubsequence((c: string) => c != "accept", actions);
    assert actions[0] in Filter((c: string) => c != "accept", actions);
    FullIsInOrder(actions);
  }

  /** Narrowing a gate's table by its own review type leaves a non-empty subsequence. */
  lemma NarrowShape(
    g: Gate, review: Option<Gate>, offered: seq<string>, evidence: bool, none: bool, actions: seq<string>, merge: seq<string>)
    requires GoodTable(g, actions) && (review.Some? ==> review.value == g) && (g == MergeFailureRecovery ==> merge == actions)
    ensures var offer := Narrow(review, offered, evidence, none, actions, merge); offer != [] && Subsequence(offer, actions)
    ensures g !in ORDERED_REVIEWS && g != MergeFailureRecovery && g !in DISPOSITIONS ==>
              Narrow(review, offered, evidence, none, actions, merge) == actions
  {
    FullIsInOrder(actions);
    InOrderIffSubsequence(offered, actions);
    if g == MergeFailureRecovery {
      MergeFailureShape(actions, evidence, offered);
    } else if g in DISPOSITIONS {
      DispositionShape(offered, g == WorkItemFailureDisposition && none, actions);
    }
  }

  lemma DispositionFixpoint(offered: seq<string>, unavailable: bool, actions: seq<string>)
    requires Distinct(actions) && actions != [] && actions[0] != "accept"
    ensures var offer := DispositionChoices(offered, unavailable, actions);
            DispositionChoices(offer, unavailable, actions) == offer
  {
    var offer := DispositionChoices(offered, unavailable, actions);
    DispositionShape(offered, unavailable, actions);
    var before := (c: string) => Kept(offered, unavailable, c);
    var after := (c: string) => Kept(offer, unavailable, c);
    if Filter(before, actions) != [] {
      FilterAgrees(before, after, actions);
    } else if unavailable {
      FilterAgrees((c: string) => c != "accept", after, actions);
    } else {
      FilterAll(after, actions);
    }
  }

  lemma MergeFailureFixpoint(actions: seq<string>, evidence: bool, choices: seq<string>)
    requires GoodTable(MergeFailureRecovery, actions)
    ensures var offer := MergeFailureChoices(actions, evidence, true, choices);
            MergeFailureChoices(actions, evidence, true, offer) == offer
  {
    MergeFailureShape(actions, evidence, choices);
    var offer := MergeFailureChoices(actions, evidence, true, choices);
    var before := CanWaive(evidence, choices);
    var after := CanWaive(evidence, offer);
    FilterAgrees((c: string) => c != "waive_tests" || before, (c: string) => c != "waive_tests" || after, actions);
  }

  lemma InOrderFixpoint(g: Gate, offered: seq<string>, evidence: bool, none: bool, actions: seq<string>, merge: seq<string>)
    requires Distinct(actions) && g !in DISPOSITIONS && g != MergeFailureRecovery
    ensures var offer := Narrow(Some(g), offered, evidence, none, actions, merge);
            Narrow(Some(g), offer, evidence, none, actions, merge) == offer
  {
    FullIsInOrder(actions);
  }

  lemma NarrowDisposition(g: Gate, offered: seq<string>, evidence: bool, none: bool, actions: seq<string>, merge: seq<string>)
    requires g in DISPOSITIONS
    ensures Narrow(Some(g), offered, evidence, none, actions, merge)
         == DispositionChoices(offered, g == WorkItemFailureDisposition && none, actions)
  {
    assert g !in ORDERED_REVIEWS && g != MergeFailureRecovery;
  }

  /** Narrowing by the narrowed list gives the narrowed list. */
  lemma NarrowIsFixpoint(
    g: Gate, review: Option<Gate>, offered: seq<string>, evidence: bool, none: bool, actions: seq<string>, merge: seq<string>)
    requires GoodTable(g, actions) && (review.Some? ==> review.value == g) && (g == MergeFailureRecovery ==> merge == actions)
    ensures var offer := Narrow(review, offered, evidence, none, actions, merge);
            Narrow(review, offer, evidence, none, actions, merge) == offer
  {
    if review.Some? {
      var offer := Narrow(review, offered, evidence, none, actions, merge);
      if g == MergeFailureRecovery {
        NarrowMerge(offered, evidence, none, actions, merge);
        NarrowMerge(offer, evidence, none, actions, merge);
        MergeFailureFixpoint(actions, evidence, offered);
      } else if g in DISPOSITIONS {
        NarrowDisposition(g, offered, evidence, none, actions, merge);
        NarrowDisposition(g, offer, evidence, none, actions, merge);
        DispositionFixpoint(offered, g == WorkItemFailureDisposition && none, actions);
      } else {
        InOrderFixpoint(g, offered, evidence, none, actions, merge);
      }
    }
  }

  lemma NarrowMerge(offered: seq<string>, evidence: bool, none: bool, actions: seq<string>, merge: seq<string>)
    ensures Narrow(Some(MergeFailureRecovery), offered, evidence, none, actions, merge)
         == MergeFailureChoices(merge, evidence, true, offered)
  {
    assert MergeFailureRecovery !in ORDERED_REVIEWS;
  }

  // ---- What payloads offer ----

  /** The payload names the gate, and so does its review type if it names any. */
  predicate Names(cat: Catalog, p: Payload, g: Gate) {
    GateFor(cat, p) == Ok(g) && (ReviewGate(cat, p).Some? ==> ReviewGate(cat, p) == Some(g))
  }

  lemma NamesGate(cat: Catalog, p: Payload, g: Gate)
    requires SoundNames(cat) && GateFor(cat, p) == Ok(g)
    ensures Names(cat, p, g)
  {
    if ReviewGate(cat, p).Some? {
      ReviewGateAgrees(cat, p, g);
    }
  }

  /** The narrowed list is a non-empty subsequence of the gate's table. */
  lemma NarrowedIsSubsequence(cat: Catalog, p: Payload, g: Gate)
    requires SoundActions(cat) && Names(cat, p, g)
    ensures var offer := NarrowedChoices(cat, p, cat.actions(g)); offer != [] && Subsequence(offer, cat.actions(g))
    ensures g !in ORDERED_REVIEWS && g != MergeFailureRecovery && g !in DISPOSITIONS ==>
              NarrowedChoices(cat, p, cat.actions(g)) == cat.actions(g)
  {
    assert GoodTable(g, cat.actions(g));
    NarrowShape(g, ReviewGate(cat, p), Offered(p), p.candidateTree && p.targetHead, p.acceptableJobs == Some(0),
                cat.actions(g), cat.actions(MergeFailureRecovery));
  }

  /** The merge gate narrows by its evidence and its saved choices. */
  lemma MergeNarrowed(cat: Catalog, p: Payload, actions: seq<string>)
    requires ReviewGate(cat, p) == Some(MergeFailureRecovery)
    ensures NarrowedChoices(cat, p, actions)
         == MergeFailureChoices(cat.actions(MergeFailureRecovery), p.candidateTree && p.targetHead, true, Offered(p))
  {
    NarrowMerge(Offered(p), p.candidateTree && p.targetHead, p.acceptableJobs == Some(0),
                actions, cat.actions(MergeFailureRecovery));
  }

  /** The merge gate can only drop its waiver. */
  lemma NarrowedKeepsOthers(cat: Catalog, p: Payload, a: string)
    requires GoodTable(MergeFailureRecovery, cat.actions(MergeFailureRecovery)) && Names(cat, p, MergeFailureRecovery)
    requires a in cat.actions(MergeFailureRecovery) && a != "waive_tests"
    ensures a in NarrowedChoices(cat, p, cat.actions(MergeFailureRecovery))
  {
    if ReviewGate(cat, p).Some? {
      MergeNarrowed(cat, p, cat.actions(MergeFailureRecovery));
      MergeFailureShape(cat.actions(MergeFailureRecovery), p.candidateTree && p.targetHead, Offered(p));
    }
  }

  lemma SubsequenceValidates(cat: Catalog, g: Gate, offer: seq<string>)
    requires GoodTable(g, cat.actions(g)) && !FreeText(g) && g != OneShotFileScope
    requires offer != [] && Subsequence(offer, cat.actions(g))
    requires g !in ORDERED_SUBSETS && g != MergeFailureRecovery ==> offer == cat.actions(g)
    requires g == MergeFailureRecovery ==> forall a :: a in cat.actions(g) && a != "waive_tests" ==> a in offer
    ensures ValidEntries(cat, g, Some(Texts(offer)))
  {
    SubsequenceDistinct(offer, cat.actions(g));
    assert ChoiceIds(Texts(offer)) == offer;
    OrderedIffSubsequence(offer, cat.actions(g));
  }

  /** The narrowed list passes the validator. */
  lemma NarrowedValidates(cat: Catalog, p: Payload, g: Gate)
    requires SoundActions(cat) && Names(cat, p, g) && !FreeText(g) && g != OneShotFileScope
    ensures ValidEntries(cat, g, Some(Texts(NarrowedChoices(cat, p, cat.actions(g)))))
  {
    NarrowedIsSubsequence(cat, p, g);
    assert GoodTable(g, cat.actions(g));
    assert ORDERED_REVIEWS + DISPOSITIONS <= ORDERED_SUBSETS;
    var offer := NarrowedChoices(cat, p, cat.actions(g));
    if g == MergeFailureRecovery {
      forall a | a in cat.actions(g) && a != "waive_tests" ensures a in offer {
        NarrowedKeepsOthers(cat, p, a);
      }
    }
    SubsequenceValidates(cat, g, offer);
  }

  /** Narrowing agrees with validation: what an accepted payload of a closed gate
      offers is a non-empty subsequence of the gate's table, and validates. */
  lemma OfferValidates(cat: Catalog, p: Payload, g: Gate)
    requires Sound(cat) && GateFor(cat, p) == Ok(g) && !FreeText(g) && g != OneShotFileScope
    ensures OfferFor(cat, p).Ok? && OfferFor(cat, p).value != []
    ensures Subsequence(OfferFor(cat, p).value, cat.actions(g))
    ensures ValidEntries(cat, g, Some(Texts(OfferFor(cat, p).value)))
  {
    ClosedOffer(cat, p, g);
    NamesGate(cat, p, g);
    NarrowedIsSubsequence(cat, p, g);
    NarrowedValidates(cat, p, g);
  }

  lemma SelectorValidates(cat: Catalog, options: seq<string>)
    requires SelectorOffer(options)
    ensures ValidEntries(cat, OneShotFileScope, Some(Texts(options)))
  {
    assert ChoiceIds(Texts(options)) == options;
    forall c | c in options ensures c != "" {
      var i :| 0 <= i < |options| && options[i] == c;
      assert i < |options| - 2 ==> IsCandidate(options[i]);
    }
  }

  /** A selector that the gate takes is a valid question of at most twelve options. */
  lemma SelectorIsShortQuestion(cat: Catalog, options: seq<string>)
    ensures SelectorOffer(options) <==> ValidEntries(cat, OneShotFileScope, Some(Texts(options))) && |options| <= 12
  {
    assert ChoiceIds(Texts(options)) == options;
    if SelectorOffer(options) {
      SelectorValidates(cat, options);
    }
  }

  /** The one-shot gate validates exactly when its selector is well formed: without
      one it offers `plan` and `cancel`, which the validator refuses. */
  lemma OneShotValidatesIffSelector(cat: Catalog, p: Payload)
    requires Sound(cat) && GateFor(cat, p) == Ok(OneShotFileScope)
    ensures OfferFor(cat, p).Ok?
    ensures ValidEntries(cat, OneShotFileScope, Some(Texts(OfferFor(cat, p).value)))
       <==> p.selectorOptions.Some? && SelectorOffer(p.selectorOptions.value)
  {
    if p.selectorOptions.Some? && SelectorOffer(p.selectorOptions.value) {
      SelectorValidates(cat, p.selectorOptions.value);
    } else {
      ClosedOffer(cat, p, OneShotFileScope);
      NamesGate(cat, p, OneShotFileScope);
      NarrowedIsSubsequence(cat, p, OneShotFileScope);
      SubsequenceDistinct(OfferFor(cat, p).value, cat.actions(OneShotFileScope));
    }
  }

  /** The durable contract accepts exactly what a closed gate offers. */
  lemma OfferedIsAllowed(cat: Catalog, p: Payload, g: Gate)
    requires Sound(cat) && GateFor(cat, p) == Ok(g) && !FreeText(g)
    ensures OfferFor(cat, p).Ok? && AllowedFor(cat, p) == OfferFor(cat, p)
  {
    if g == OneShotFileScope && p.selectorOptions.Some? && SelectorOffer(p.selectorOptions.value) {
      DedupDistinct(p.selectorOptions.value);
    } else {
      ClosedOffer(cat, p, g);
      NamesGate(cat, p, g);
      NarrowedIsSubsequence(cat, p, g);
      assert GoodTable(g, cat.actions(g));
      SubsequenceDistinct(NarrowedChoices(cat, p, cat.actions(g)), cat.actions(g));
      DedupDistinct(NarrowedChoices(cat, p, cat.actions(g)));
    }
  }

  lemma NarrowFreeText(g: Gate, offered: seq<string>, evidence: bool, none: bool, actions: seq<string>, merge: seq<string>)
    requires FreeText(g)
    ensures Narrow(Some(g), offered, evidence, none, actions, merge) == actions
  {
    assert g !in ORDERED_REVIEWS && g !in DISPOSITIONS;
  }

  lemma FreeTextNarrowed(cat: Catalog, p: Payload, g: Gate, actions: seq<string>)
    requires Names(cat, p, g) && FreeText(g)
    ensures NarrowedChoices(cat, p, actions) == actions
  {
    NarrowFreeText(g, Offered(p), p.candidateTree && p.targetHead, p.acceptableJobs == Some(0),
                   actions, cat.actions(MergeFailureRecovery));
  }

  /** A gate that takes free text accepts `respond` and nothing else. */
  lemma FreeTextAllowsRespond(cat: Catalog, p: Payload, g: Gate)
    requires Sound(cat) && GateFor(cat, p) == Ok(g) && FreeText(g)
    ensures AllowedFor(cat, p) == Ok(["respond"])
  {
    NamesGate(cat, p, g);
    FreeTextNarrowed(cat, p, g, cat.actions(g));
    assert GoodTable(g, cat.actions(g));
    assert AllowedFor(cat, p) == Ok(Dedup(["respond"]));
    DedupDistinct(["respond"]);
  }

  // ---- What each gate offers ----

  lemma ReviewTypeGate(cat: Catalog, p: Payload, g: Gate)
    requires SoundNames(cat) && GateFor(cat, p) == Ok(g)
    ensures ReviewGate(cat, p) == if Silent(p.reviewType) then None else Some(g)
  {
    GateForExactly(cat, p, g);
    assert cat.gateOf(cat.name(g)) == Some(g);
    if Silent(p.reviewType) && cat.gateOf("").Some? {
      assert cat.name(cat.gateOf("").value) == "";
    }
  }

  /** The six reviews that keep a narrower saved list. */
  predicate KeepsNarrower(g: Gate) {
    || g.AssessmentReview? || g.AssessmentEvidenceMissing? || g.AssessmentTransportRecovery?
    || g.AssessmentRetryLimit? || g.PipelineHeadRecovery? || g.UnexecutedReplanRecovery?
  }

  lemma KeepsNarrowerIsOrdered(g: Gate)
    ensures KeepsNarrower(g) <==> g in ORDERED_REVIEWS
  {
  }

  lemma NarrowReview(g: Gate, offered: seq<string>, evidence: bool, none: bool, actions: seq<string>, merge: seq<string>)
    requires KeepsNarrower(g)
    ensures Narrow(Some(g), offered, evidence, none, actions, merge)
         == if offered != [] && InTableOrder(offered, actions) then offered else actions
  {
    KeepsNarrowerIsOrdered(g);
    assert g != MergeFailureRecovery && g !in DISPOSITIONS;
  }

  lemma NarrowOther(g: Gate, offered: seq<string>, evidence: bool, none: bool, actions: seq<string>, merge: seq<string>)
    requires !KeepsNarrower(g) && !g.WorkItemFailureDisposition? && !g.CrossWiUpstreamDisposition? && !g.MergeFailureRecovery?
    ensures Narrow(Some(g), offered, evidence, none, actions, merge) == actions
  {
    KeepsNarrowerIsOrdered(g);
    assert g !in DISPOSITIONS;
  }

  /** The six ordered reviews, with a review type, offer the saved choices when these are
      a non-empty subsequence of the gate's table, and the whole table when they are not. */
  lemma ReviewOffer(cat: Catalog, p: Payload, g: Gate)
    requires Sound(cat) && GateFor(cat, p) == Ok(g) && !Silent(p.reviewType) && KeepsNarrower(g)
    ensures OfferFor(cat, p) ==
              Ok(if Offered(p) != [] && Subsequence(Offered(p), cat.actions(g)) then Offered(p) else cat.actions(g))
  {
    assert GoodTable(g, cat.actions(g));
    ReviewTypeGate(cat, p, g);
    KeepsNarrowerIsOrdered(g);
    ClosedOffer(cat, p, g);
    NarrowReview(g, Offered(p), p.candidateTree && p.targetHead, p.acceptableJobs == Some(0),
                 cat.actions(g), cat.actions(MergeFailureRecovery));
    InOrderIffSubsequence(Offered(p), cat.actions(g));
  }

  /** Nothing can be accepted, so `accept` is unavailable. */
  predicate Unavailable(p: Payload, g: Gate, a: string) {
    g.WorkItemFailureDisposition? && p.acceptableJobs == Some(0) && a == "accept"
  }

  /** The two dispositions, with a review type, offer an action in its place in the table
      if and only if it is available and is among the saved choices, or no available
      action is. */
  lemma DispositionOffer(cat: Catalog, p: Payload, g: Gate, a: string)
    requires Sound(cat) && GateFor(cat, p) == Ok(g) && !Silent(p.reviewType)
    requires g.WorkItemFailureDisposition? || g.CrossWiUpstreamDisposition?
    ensures OfferFor(cat, p).Ok? && Subsequence(OfferFor(cat, p).value, cat.actions(g))
    ensures a in OfferFor(cat, p).value <==>
              && a in cat.actions(g) && !Unavailable(p, g, a)
              && (a in Offered(p) || forall b :: b in cat.actions(g) && b in Offered(p) ==> Unavailable(p, g, b))
  {
    var offered, actions := Offered(p), cat.actions(g);
    var none := p.acceptableJobs == Some(0);
    ReviewTypeGate(cat, p, g);
    OfferValidates(cat, p, g);
    ClosedOffer(cat, p, g);
    NarrowDisposition(g, offered, p.candidateTree && p.targetHead, none, actions, cat.actions(MergeFailureRecovery));
    DispositionMember(offered, g.WorkItemFailureDisposition? && none, actions, a);
  }

  lemma DispositionMember(offered: seq<string>, unavailable: bool, actions: seq<string>, a: string)
    ensures a in DispositionChoices(offered, unavailable, actions) <==>
              && a in actions && !(unavailable && a == "accept")
              && (a in offered || forall b :: b in actions && b in offered ==> unavailable && b == "accept")
  {
    var narrowed := Filter((c: string) => Kept(offered, unavailable, c), actions);
    if narrowed != [] {
      assert narrowed[0] in narrowed;
    } else {
      forall b | b in actions && b in offered ensures unavailable && b == "accept" {
        assert b !in narrowed;
      }
    }
  }

  /** Every other closed gate but the merge gate offers its whole table, and so does any
      closed gate whose payload has no review type; a one-shot gate does without a well
      formed selector. */
  lemma WholeOffer(cat: Catalog, p: Payload, g: Gate)
    requires Sound(cat) && GateFor(cat, p) == Ok(g) && !g.Clarification? && !g.PlannerClarification?
    requires || Silent(p.reviewType)
             || !(KeepsNarrower(g) || g.WorkItemFailureDisposition? || g.CrossWiUpstreamDisposition? || g.MergeFailureRecovery?)
    requires g.OneShotFileScope? ==> p.selectorOptions.None? || !SelectorOffer(p.selectorOptions.value)
    ensures OfferFor(cat, p) == Ok(cat.actions(g))
  {
    ReviewTypeGate(cat, p, g);
    ClosedOffer(cat, p, g);
    if !Silent(p.reviewType) {
      NarrowOther(g, Offered(p), p.candidateTree && p.targetHead, p.acceptableJobs == Some(0),
                  cat.actions(g), cat.actions(MergeFailureRecovery));
    }
  }

  /** A well-formed selector of the one-shot gate is offered as it stands. */
  lemma SelectorOffered(cat: Catalog, p: Payload)
    requires GateFor(cat, p) == Ok(OneShotFileScope) && p.selectorOptions.Some? && SelectorOffer(p.selectorOptions.value)
    ensures OfferFor(cat, p) == Ok(p.selectorOptions.value)
  {
  }

  // ---- Persisting an offer ----

  lemma PersistKeepsGate(cat: Catalog, p: Payload, cs: seq<string>)
    ensures GateFor(cat, Persist(p, cs)) == GateFor(cat, p) && ReviewGate(cat, Persist(p, cs)) == ReviewGate(cat, p)
  {
    assert Identities(Persist(p, cs)) == Identities(p);
  }

  /** Persisting a subsequence of a gate's table and reading it back. */
  lemma PersistedReadsBack(p: Payload, g: Gate, actions: seq<string>, cs: seq<string>)
    requires GoodTable(g, actions) && Subsequence(cs, actions)
    ensures Offered(Persist(p, cs)) == cs
  {
    SubsequenceDistinct(cs, actions);
    NormalRoundTrip(cs, Some(CHOICE_LIMIT));
  }

  /** Narrowing is a fixpoint on closed gates. */
  lemma NarrowingIsFixpoint(cat: Catalog, p: Payload, g: Gate)
    requires SoundActions(cat) && Names(cat, p, g)
    ensures var offer := NarrowedChoices(cat, p, cat.actions(g));
            NarrowedChoices(cat, Persist(p, offer), cat.actions(g)) == offer
  {
    var offer := NarrowedChoices(cat, p, cat.actions(g));
    NarrowedIsSubsequence(cat, p, g);
    PersistKeepsGate(cat, p, offer);
    assert GoodTable(g, cat.actions(g));
    PersistedReadsBack(p, g, cat.actions(g), offer);
    NarrowIsFixpoint(g, ReviewGate(cat, p), Offered(p), p.candidateTree && p.targetHead, p.acceptableJobs == Some(0),
                     cat.actions(g), cat.actions(MergeFailureRecovery));
  }

  /** Persisting what a payload offers and asking again gives the same offer, for
      every accepted payload of every gate. */
  lemma OfferIsFixpoint(cat: Catalog, p: Payload)
    requires Sound(cat) && GateFor(cat, p).Ok?
    ensures OfferFor(cat, p).Ok? && OfferFor(cat, Persist(p, OfferFor(cat, p).value)) == OfferFor(cat, p)
  {
    var g := GateFor(cat, p).value;
    var offer := OfferFor(cat, p).value;
    PersistKeepsGate(cat, p, offer);
    if g == OneShotFileScope && p.selectorOptions.Some? && SelectorOffer(p.selectorOptions.value) {
    } else if !FreeText(g) {
      ClosedOffer(cat, p, g);
      ClosedOffer(cat, Persist(p, offer), g);
      NamesGate(cat, p, g);
      NarrowingIsFixpoint(cat, p, g);
    } else {
      FreeTextOffer(cat, p, g);
      FreeTextOffer(cat, Persist(p, offer), g);
      FreeTextReadsBack(p, offer);
    }
  }

  function FreeTextChoices(p: Payload): seq<string> {
    if Offered(p) != [] then Offered(p) else if p.fileRequests > 0 then ["approve", "reject"] else []
  }

  lemma FreeTextHasNoActions(cat: Catalog, g: Gate)
    requires Sound(cat) && FreeText(g)
    ensures Filter((c: string) => c != "respond", cat.actions(g)) == []
  {
    assert GoodTable(g, cat.actions(g));
    assert Filter((c: string) => c != "respond", ["respond"]) == [];
  }

  lemma FreeTextOffer(cat: Catalog, p: Payload, g: Gate)
    requires Sound(cat) && GateFor(cat, p) == Ok(g) && FreeText(g)
    ensures OfferFor(cat, p) == Ok(FreeTextChoices(p))
  {
    FreeTextHasNoActions(cat, g);
  }

  lemma FreeTextReadsBack(p: Payload, offer: seq<string>)
    requires offer == FreeTextChoices(p)
    ensures FreeTextChoices(Persist(p, offer)) == offer
  {
    if Offered(p) == [] && p.fileRequests > 0 {
      assert !IsSpace("approve"[0]) && !IsSpace("approve"[6]) && !IsSpace("reject"[0]) && !IsSpace("reject"[5]);
    }
    NormalRoundTrip(offer, Some(CHOICE_LIMIT));
  }

  /** What the merge gate offers: its table narrowed by evidence and saved choices, or
      the whole table when no review type tells the narrowing which gate this is. */
  lemma MergeOffer(cat: Catalog, p: Payload)
    requires Sound(cat) && GateFor(cat, p) == Ok(MergeFailureRecovery)
    ensures OfferFor(cat, p) == Ok(
              if ReviewGate(cat, p).None? then cat.actions(MergeFailureRecovery)
              else MergeFailureChoices(cat.actions(MergeFailureRecovery), p.candidateTree && p.targetHead, true, Offered(p)))
  {
    ClosedOffer(cat, p, MergeFailureRecovery);
    if ReviewGate(cat, p).Some? {
      ReviewGateAgrees(cat, p, MergeFailureRecovery);
      MergeNarrowed(cat, p, cat.actions(MergeFailureRecovery));
    }
  }

  /** The merge gate offers the waiver exactly on complete evidence that no persisted
      narrower offer has given up, or when the payload has no review type. */
  lemma WaiverOfferedExactly(cat: Catalog, p: Payload)
    requires Sound(cat) && "waive_tests" in cat.actions(MergeFailureRecovery)
    requires GateFor(cat, p) == Ok(MergeFailureRecovery)
    ensures OfferFor(cat, p).Ok?
    ensures "waive_tests" in OfferFor(cat, p).value <==>
              || ReviewGate(cat, p).None?
              || (p.candidateTree && p.targetHead && (Offered(p) == [] || "waive_tests" in Offered(p)))
  {
    MergeOffer(cat, p);
    MergeFailureShape(cat.actions(MergeFailureRecovery), p.candidateTree && p.targetHead, Offered(p));
  }

  /** The evidence a step of a run finds. */
  datatype Evidence = Evidence(candidateTree: bool, targetHead: bool)

  function WithEvidence(p: Payload, found: Evidence): Payload {
    p.(candidateTree := found.candidateTree, targetHead := found.targetHead)
  }

  /** New evidence arrives and the resulting offer is persisted. */
  function Reoffer(cat: Catalog, p: Payload, found: Evidence): Payload {
    var q := WithEvidence(p, found);
    if OfferFor(cat, q).Ok? then Persist(q, OfferFor(cat, q).value) else q
  }

  function ReofferAll(cat: Catalog, p: Payload, run: seq<Evidence>): Payload
    decreases |run|
  {
    if run == [] then p else ReofferAll(cat, Reoffer(cat, p, run[0]), run[1..])
  }

  lemma EvidenceKeepsGate(cat: Catalog, p: Payload, found: Evidence)
    ensures var q := WithEvidence(p, found);
            GateFor(cat, q) == GateFor(cat, p) && ReviewGate(cat, q) == ReviewGate(cat, p) && Offered(q) == Offered(p)
  {
    assert Identities(WithEvidence(p, found)) == Identities(p);
  }

  /** One step keeps the waiver out. */
  lemma WaiverStaysOut(cat: Catalog, p: Payload, found: Evidence)
    requires Sound(cat) && GateFor(cat, p) == Ok(MergeFailureRecovery) && ReviewGate(cat, p).Some?
    requires Offered(p) != [] && "waive_tests" !in Offered(p)
    ensures var q := Reoffer(cat, p, found);
            && GateFor(cat, q) == Ok(MergeFailureRecovery) && ReviewGate(cat, q).Some?
            && Offered(q) != [] && "waive_tests" !in Offered(q)
  {
    var q := WithEvidence(p, found);
    var actions := cat.actions(MergeFailureRecovery);
    EvidenceKeepsGate(cat, p, found);
    MergeOffer(cat, q);
    MergeFailureShape(actions, q.candidateTree && q.targetHead, Offered(q));
    var offer := OfferFor(cat, q).value;
    PersistKeepsGate(cat, q, offer);
    PersistedReadsBack(q, MergeFailureRecovery, actions, offer);
  }

  /** Once a persisted offer leaves the waiver out, no run of re-offers brings it back,
      whatever evidence each step finds. */
  lemma {:induction false} WaiverNeverReturns(cat: Catalog, p: Payload, run: seq<Evidence>)
    requires Sound(cat) && GateFor(cat, p) == Ok(MergeFailureRecovery) && ReviewGate(cat, p).Some?
    requires Offered(p) != [] && "waive_tests" !in Offered(p)
    ensures OfferFor(cat, ReofferAll(cat, p, run)).Ok?
    ensures "waive_tests" !in OfferFor(cat, ReofferAll(cat, p, run)).value
    decreases |run|
  {
    if run == [] {
      MergeOffer(cat, p);
      MergeFailureShape(cat.actions(MergeFailureRecovery), p.candidateTree && p.targetHead, Offered(p));
    } else {
      WaiverStaysOut(cat, p, run[0]);
      WaiverNeverReturns(cat, Reoffer(cat, p, run[0]), run[1..]);
    }
  }

  lemma ReofferKeepsGate(cat: Catalog, p: Payload, found: Evidence)
    ensures var q := Reoffer(cat, p, found); GateFor(cat, q) == GateFor(cat, p) && ReviewGate(cat, q) == ReviewGate(cat, p)
  {
    var q := WithEvidence(p, found);
    EvidenceKeepsGate(cat, p, found);
    if OfferFor(cat, q).Ok? {
      PersistKeepsGate(cat, q, OfferFor(cat, q).value);
    }
  }

  lemma {:induction false} RunKeepsGate(cat: Catalog, p: Payload, run: seq<Evidence>)
    ensures var q := ReofferAll(cat, p, run); GateFor(cat, q) == GateFor(cat, p) && ReviewGate(cat, q) == ReviewGate(cat, p)
    decreases |run|
  {
    if run != [] {
      ReofferKeepsGate(cat, p, run[0]);
      RunKeepsGate(cat, Reoffer(cat, p, run[0]), run[1..]);
    }
  }

  /** So over every run, a waiver that was left out is offered again exactly when the
      payload has no review type. */
  lemma WaiverReturnsExactly(cat: Catalog, p: Payload, run: seq<Evidence>)
    requires Sound(cat) && "waive_tests" in cat.actions(MergeFailureRecovery)
    requires GateFor(cat, p) == Ok(MergeFailureRecovery) && Offered(p) != [] && "waive_tests" !in Offered(p)
    ensures OfferFor(cat, ReofferAll(cat, p, run)).Ok?
    ensures "waive_tests" in OfferFor(cat, ReofferAll(cat, p, run)).value <==> ReviewGate(cat, p).None?
  {
    if ReviewGate(cat, p).Some? {
      WaiverNeverReturns(cat, p, run);
    } else {
      RunKeepsGate(cat, p, run);
      WaiverOfferedExactly(cat, ReofferAll(cat, p, run));
    }
  }

  // ---- Subsequences as filters ----

  lemma SubsequenceTail(ids: seq<string>, table: seq<string>)
    requires Distinct(table) && table != [] && Subsequence(ids, table)
    ensures if ids != [] && ids[0] == table[0] then Subsequence(ids[1..], table[1..]) && table[0] !in ids[1..]
            else Subsequence(ids, table[1..]) && table[0] !in ids
  {
    var at :| Embeds(at, ids, table);
    if ids != [] && ids[0] == table[0] {
      assert at[0] == 0;
      var shifted: seq<nat> := seq(|ids| - 1, i requires 0 <= i < |ids| - 1 => at[i + 1] - 1);
      assert Embeds(shifted, ids[1..], table[1..]);
    } else {
      assert forall i :: 0 <= i < |ids| ==> at[i] > 0;
      var shifted: seq<nat> := seq(|ids|, i requires 0 <= i < |ids| => at[i] - 1);
      assert Embeds(shifted, ids, table[1..]);
    }
  }

  /** A subsequence of a distinct table is the part of the table it contains. */
  lemma {:induction false} SubsequenceIsFilter(ids: seq<string>, table: seq<string>)
    requires Distinct(table) && Subsequence(ids, table)
    ensures ids == Filter((c: string) => c in ids, table)
    decreases table
  {
    if table == [] {
      var at :| Embeds(at, ids, table);
    } else {
      SubsequenceTail(ids, table);
      if ids != [] && ids[0] == table[0] {
        SubsequenceIsFilter(ids[1..], table[1..]);
        FilterAgrees((c: string) => c in ids[1..], (c: string) => c in ids, table[1..]);
      } else {
        SubsequenceIsFilter(ids, table[1..]);
      }
    }
  }

  lemma {:induction false} FilterTwice(p: string -> bool, q: string -> bool, s: seq<string>)
    requires forall c :: c in s && q(c) ==> p(c)
    ensures Filter(q, Filter(p, s)) == Filter(q, s)
  {
    if s != [] {
      FilterTwice(p, q, s[1..]);
    }
  }
}
