/** The structured question built from a merge gate, and exactly when it shows the
    actions that the gate offers. */
module MergeQuestions {
  import opened Basics
  import opened Text
  import opened GateTable
  import opened HumanGates
  import opened QuestionChoices
  import opened ChoiceAgreement

  const WAIVER := "waive_tests"

  function FilterEntries(eligible: seq<string>, es: seq<Entry>): seq<Entry> {
    Filter((e: Entry) => ChoiceId(e) in eligible, es)
  }

  /** The choices of the structured question for a gate payload. */
  function QuestionEntries(cat: Catalog, g: Gate, p: Payload): Option<seq<Entry>> {
    var given := p.choices.Some? && p.choices.value != [];
    if g != MergeFailureRecovery then p.choices
    else if given && !ValidEntries(cat, g, p.choices) then p.choices
    else
      var ids := if p.choices.Some? then ChoiceIds(p.choices.value) else [];
      var eligible := MergeFailureChoices(cat.actions(g), p.candidateTree && p.targetHead, true, ids);
      Some(if given then FilterEntries(eligible, p.choices.value) else Texts(eligible))
  }

  // ---- Valid saved lists ----

  /** The ids that the validator accepts for the merge gate. */
  predicate MergeIds(actions: seq<string>, ids: seq<string>) {
    OrderedFrom(ids, actions, -1) && forall a :: a in actions ==> a == WAIVER || a in ids
  }

  /** A valid merge-failure list is the table, with or without the waiver. */
  lemma ValidMergeLists(actions: seq<string>, ids: seq<string>)
    requires GoodTable(MergeFailureRecovery, actions) && MergeIds(actions, ids)
    ensures Subsequence(ids, actions)
    ensures ids == Filter((c: string) => c != WAIVER || WAIVER in ids, actions)
  {
    OrderedIffSubsequence(ids, actions);
    SubsequenceIsFilter(ids, actions);
    FilterAgrees((c: string) => c in ids, (c: string) => c != WAIVER || WAIVER in ids, actions);
  }

  /** Filtering a valid saved list by eligibility leaves the eligible actions. */
  lemma EligibleFromSaved(actions: seq<string>, saved: seq<string>, evidence: bool)
    requires GoodTable(MergeFailureRecovery, actions) && MergeIds(actions, saved)
    ensures var eligible := MergeFailureChoices(actions, evidence, true, saved);
            Filter((c: string) => c in eligible, saved) == eligible
  {
    ValidMergeLists(actions, saved);
    MergeFailureShape(actions, evidence, saved);
    var eligible := MergeFailureChoices(actions, evidence, true, saved);
    assert saved != [] by {
      assert actions[0] in saved;
    }
    FilterTwice((c: string) => c != WAIVER || WAIVER in saved, (c: string) => c in eligible, actions);
    SubsequenceIsFilter(eligible, actions);
  }

  lemma IdsCons(e: Entry, rest: seq<Entry>)
    ensures ChoiceIds([e] + rest) == [ChoiceId(e)] + ChoiceIds(rest)
  {
    var all := [e] + rest;
    forall i | 0 <= i < |all| ensures ChoiceIds(all)[i] == ([ChoiceId(e)] + ChoiceIds(rest))[i] {
      if i > 0 {
        assert all[i] == rest[i - 1];
      }
    }
  }

  lemma FilterCons(eligible: seq<string>, id: string, ids: seq<string>)
    ensures Filter((c: string) => c in eligible, [id] + ids)
         == (if id in eligible then [id] else []) + Filter((c: string) => c in eligible, ids)
  {
    assert ([id] + ids)[1..] == ids;
  }

  lemma {:induction false} IdsOfFilter(eligible: seq<string>, es: seq<Entry>)
    ensures ChoiceIds(FilterEntries(eligible, es)) == Filter((c: string) => c in eligible, ChoiceIds(es))
  {
    if es != [] {
      var rest := FilterEntries(eligible, es[1..]);
      IdsOfFilter(eligible, es[1..]);
      assert es == [es[0]] + es[1..];
      IdsCons(es[0], es[1..]);
      IdsCons(es[0], rest);
      FilterCons(eligible, ChoiceId(es[0]), ChoiceIds(es[1..]));
    }
  }

  lemma ValidMerge(cat: Catalog, es: seq<Entry>)
    requires ValidEntries(cat, MergeFailureRecovery, Some(es))
    ensures MergeIds(cat.actions(MergeFailureRecovery), ChoiceIds(es)) && es != []
  {
  }

  /** Validity looks at the ids alone. */
  lemma ValidByIds(cat: Catalog, a: seq<Entry>, b: seq<Entry>)
    requires ChoiceIds(a) == ChoiceIds(b)
    ensures ValidEntries(cat, MergeFailureRecovery, Some(a)) <==> ValidEntries(cat, MergeFailureRecovery, Some(b))
  {
    assert |a| == |b|;
  }

  // ---- How the gate reads the same list ----

  lemma NoCut(choices: seq<Entry>, limit: nat)
    requires |choices| <= limit
    ensures NormalizeChoices(Some(choices), Some(limit)) == NormalizeChoices(Some(choices), None)
  {
  }

  /** An entry with a trimmed id reads as that id if it is bare text, and as no action
      if it is a record. */
  lemma EntryReads(e: Entry, a: string)
    requires ChoiceId(e) != "" && Trimmed(ChoiceId(e)) && |a| < 15
    ensures EntryText(e) != "" && (EntryText(e) == a <==> e == Text(a))
  {
    if e.Text? {
      TrimmedIsFixed(e.text);
    } else {
      assert |"[object Object]"| == 15;
    }
  }

  /** The gate finds the waiver in a valid list exactly when it is saved as bare text. */
  lemma WaiverRead(es: seq<Entry>, actions: seq<string>)
    requires GoodTable(MergeFailureRecovery, actions) && MergeIds(actions, ChoiceIds(es)) && es != []
    ensures var offered := NormalizeChoices(Some(es), Some(CHOICE_LIMIT));
            offered != [] && (WAIVER in offered <==> Text(WAIVER) in es)
  {
    ValidMergeLists(actions, ChoiceIds(es));
    SubsequenceDistinct(ChoiceIds(es), actions);
    NoCut(es, CHOICE_LIMIT);
    forall i | 0 <= i < |es| ensures EntryText(es[i]) != "" && (EntryText(es[i]) == WAIVER <==> es[i] == Text(WAIVER)) {
      assert ChoiceIds(es)[i] in actions;
      EntryReads(es[i], WAIVER);
    }
    NormalizedMember(es, WAIVER);
    NormalizedMember(es, EntryText(es[0]));
  }

  // ---- Agreement ----

  function SavedEntries(p: Payload): seq<Entry> {
    if p.choices.Some? then p.choices.value else []
  }

  /** The question shows exactly the actions that the gate offers. */
  predicate QuestionAgrees(cat: Catalog, p: Payload) {
    && OfferFor(cat, p).Ok? && QuestionEntries(cat, MergeFailureRecovery, p).Some?
    && ChoiceIds(QuestionEntries(cat, MergeFailureRecovery, p).value) == OfferFor(cat, p).value
  }

  /** The ids that the question shows for an empty or valid list. */
  lemma ValidQuestion(cat: Catalog, p: Payload)
    requires SoundActions(cat)
    requires SavedEntries(p) == [] || ValidEntries(cat, MergeFailureRecovery, Some(SavedEntries(p)))
    ensures QuestionEntries(cat, MergeFailureRecovery, p).Some?
    ensures ChoiceIds(QuestionEntries(cat, MergeFailureRecovery, p).value)
         == MergeFailureChoices(
              cat.actions(MergeFailureRecovery), p.candidateTree && p.targetHead, true, ChoiceIds(SavedEntries(p)))
  {
    var es := SavedEntries(p);
    var actions := cat.actions(MergeFailureRecovery);
    var eligible := MergeFailureChoices(actions, p.candidateTree && p.targetHead, true, ChoiceIds(es));
    assert GoodTable(MergeFailureRecovery, actions);
    if es == [] {
      assert ChoiceIds(es) == [];
      assert ChoiceIds(Texts(eligible)) == eligible;
    } else {
      ValidMerge(cat, es);
      IdsOfFilter(eligible, es);
      EligibleFromSaved(actions, ChoiceIds(es), p.candidateTree && p.targetHead);
    }
  }

  /** The entries themselves: a valid saved list keeps each of its entries, labels and
      all, but drops the waiver without complete evidence; an empty list is filled with
      the table as bare text, the waiver again only on complete evidence; and a malformed
      list, like the list of any other gate, is shown as saved. */
  lemma QuestionShows(cat: Catalog, g: Gate, p: Payload, e: Entry)
    requires SoundActions(cat)
    ensures var es := SavedEntries(p);
            var evidence := p.candidateTree && p.targetHead;
            var shown := QuestionEntries(cat, g, p);
            if g != MergeFailureRecovery || (es != [] && !ValidEntries(cat, g, Some(es))) then shown == p.choices
            else
              && shown.Some?
              && (e in shown.value <==>
                    && (if es == [] then e.Text? && e.text in cat.actions(g) else e in es)
                    && (ChoiceId(e) == WAIVER ==> evidence))
  {
    var es := SavedEntries(p);
    if g == MergeFailureRecovery && (es == [] || ValidEntries(cat, g, Some(es))) {
      var actions := cat.actions(g);
      assert GoodTable(g, actions);
      MergeFailureShape(actions, p.candidateTree && p.targetHead, ChoiceIds(es));
      if es == [] {
        assert ChoiceIds(es) == [];
        ShownTexts(MergeFailureChoices(actions, p.candidateTree && p.targetHead, true, []), e);
      } else {
        ValidMerge(cat, es);
        ValidMergeLists(actions, ChoiceIds(es));
        SubsequenceDistinct(ChoiceIds(es), actions);
        if e in es {
          var i :| 0 <= i < |es| && es[i] == e;
          assert ChoiceIds(es)[i] == ChoiceId(e);
        }
      }
    }
  }

  lemma ShownTexts(cs: seq<string>, e: Entry)
    ensures e in Texts(cs) <==> e.Text? && e.text in cs
  {
    if e.Text? && e.text in cs {
      var i :| 0 <= i < |cs| && cs[i] == e.text;
      assert Texts(cs)[i] == e;
    }
  }

  /** A malformed list is shown as saved, and no gate offers a malformed list. */
  lemma MalformedQuestion(cat: Catalog, p: Payload)
    requires Sound(cat) && GateFor(cat, p) == Ok(MergeFailureRecovery)
    requires SavedEntries(p) != [] && !ValidEntries(cat, MergeFailureRecovery, Some(SavedEntries(p)))
    ensures !QuestionAgrees(cat, p)
  {
    OfferValidates(cat, p, MergeFailureRecovery);
    if QuestionAgrees(cat, p) {
      var offer := OfferFor(cat, p).value;
      assert ChoiceIds(Texts(offer)) == offer;
      ValidByIds(cat, SavedEntries(p), Texts(offer));
    }
  }

  /** Two narrowings of the merge table are one list exactly when they both keep the
      waiver or both drop it. */
  lemma SameNarrowing(actions: seq<string>, evidence: bool, a: seq<string>, b: seq<string>)
    requires GoodTable(MergeFailureRecovery, actions) && WAIVER in actions
    ensures MergeFailureChoices(actions, evidence, true, a) == MergeFailureChoices(actions, evidence, true, b)
       <==> (CanWaive(evidence, a) <==> CanWaive(evidence, b))
  {
    MergeFailureShape(actions, evidence, a);
    MergeFailureShape(actions, evidence, b);
    if CanWaive(evidence, a) <==> CanWaive(evidence, b) {
      FilterAgrees((c: string) => c != WAIVER || CanWaive(evidence, a),
                   (c: string) => c != WAIVER || CanWaive(evidence, b), actions);
    }
  }

  lemma WholeTable(actions: seq<string>, evidence: bool, choices: seq<string>)
    requires GoodTable(MergeFailureRecovery, actions) && WAIVER in actions
    ensures MergeFailureChoices(actions, evidence, true, choices) == actions <==> CanWaive(evidence, choices)
  {
    MergeFailureShape(actions, evidence, choices);
    if CanWaive(evidence, choices) {
      FilterAll((c: string) => c != WAIVER || CanWaive(evidence, choices), actions);
    }
  }

  /** How the gate's own reading of the list decides the waiver. */
  lemma GateReads(cat: Catalog, p: Payload)
    requires SoundActions(cat)
    requires SavedEntries(p) == [] || ValidEntries(cat, MergeFailureRecovery, Some(SavedEntries(p)))
    ensures CanWaive(p.candidateTree && p.targetHead, Offered(p)) <==>
              p.candidateTree && p.targetHead && (SavedEntries(p) == [] || Text(WAIVER) in SavedEntries(p))
  {
    assert GoodTable(MergeFailureRecovery, cat.actions(MergeFailureRecovery));
    if SavedEntries(p) != [] {
      ValidMerge(cat, SavedEntries(p));
      WaiverRead(SavedEntries(p), cat.actions(MergeFailureRecovery));
    }
  }

  /** For every accepted payload of the merge gate, whatever it saved: the question
      shows what the gate offers if and only if the saved list is empty or valid and
      both decide the waiver alike.  The question keeps it on complete evidence for any
      saved form; the gate keeps it on complete evidence for bare text only, and always
      when the payload has no review type. */
  lemma QuestionAgreesExactly(cat: Catalog, p: Payload)
    requires Sound(cat) && WAIVER in cat.actions(MergeFailureRecovery) && GateFor(cat, p) == Ok(MergeFailureRecovery)
    ensures var es := SavedEntries(p);
            var evidence := p.candidateTree && p.targetHead;
            QuestionAgrees(cat, p) <==>
              && (es == [] || ValidEntries(cat, MergeFailureRecovery, Some(es)))
              && (if ReviewGate(cat, p).None? then evidence && (es == [] || WAIVER in ChoiceIds(es))
                  else evidence && WAIVER in ChoiceIds(es) ==> Text(WAIVER) in es)
  {
    var es := SavedEntries(p);
    var evidence := p.candidateTree && p.targetHead;
    var actions := cat.actions(MergeFailureRecovery);
    assert GoodTable(MergeFailureRecovery, actions);
    MergeOffer(cat, p);
    if es == [] || ValidEntries(cat, MergeFailureRecovery, Some(es)) {
      ValidQuestion(cat, p);
      GateReads(cat, p);
      WholeTable(actions, evidence, ChoiceIds(es));
      SameNarrowing(actions, evidence, ChoiceIds(es), Offered(p));
      TextIsId(es, WAIVER);
    } else {
      MalformedQuestion(cat, p);
    }
  }

  lemma TextIsId(es: seq<Entry>, a: string)
    ensures Text(a) in es ==> a in ChoiceIds(es)
    ensures es == [] <==> ChoiceIds(es) == []
  {
    if Text(a) in es {
      var i :| 0 <= i < |es| && es[i] == Text(a);
      assert ChoiceIds(es)[i] == a;
    }
  }

  lemma ShippedWaiver()
    ensures WAIVER in SHIPPED.actions(MergeFailureRecovery)
  {
    assert Actions(MergeFailureRecovery)[2] == WAIVER;
  }

  /** Records that carry the gate's own actions. */
  function Labelled(actions: seq<string>): (es: seq<Entry>)
    ensures |es| == |actions| && forall i :: 0 <= i < |es| ==> es[i] == Record(Some(actions[i]), None, None)
  {
    seq(|actions|, i requires 0 <= i < |actions| => Record(Some(actions[i]), None, None))
  }

  lemma LabelledIds(actions: seq<string>)
    requires forall a :: a in actions ==> Trimmed(a)
    ensures ChoiceIds(Labelled(actions)) == actions
  {
    forall i | 0 <= i < |actions| ensures ChoiceIds(Labelled(actions))[i] == actions[i] {
      assert actions[i] in actions;
      TrimmedIsFixed(actions[i]);
    }
  }

  lemma TextIds(cs: seq<string>)
    ensures ChoiceIds(Texts(cs)) == cs
  {
  }

  lemma TableValidates(cat: Catalog)
    requires SoundActions(cat)
    ensures ValidEntries(cat, MergeFailureRecovery, Some(Texts(cat.actions(MergeFailureRecovery))))
  {
    var actions := cat.actions(MergeFailureRecovery);
    assert GoodTable(MergeFailureRecovery, actions);
    FullIsInOrder(actions);
    SubsequenceValidates(cat, MergeFailureRecovery, actions);
  }

  lemma LabelledListValidates(cat: Catalog)
    requires SoundActions(cat)
    ensures var actions := cat.actions(MergeFailureRecovery);
            ValidEntries(cat, MergeFailureRecovery, Some(Labelled(actions))) && ChoiceIds(Labelled(actions)) == actions
  {
    var actions := cat.actions(MergeFailureRecovery);
    assert GoodTable(MergeFailureRecovery, actions);
    TableValidates(cat);
    LabelledIds(actions);
    TextIds(actions);
    ValidByIds(cat, Labelled(actions), Texts(actions));
  }

  /** They part on every valid list that holds the waiver as a record, on complete
      evidence: the question shows the waiver and the gate drops it. */
  lemma LabelledWaiverParts(cat: Catalog, p: Payload)
    requires Sound(cat) && GateFor(cat, p) == Ok(MergeFailureRecovery) && ReviewGate(cat, p).Some?
    requires p.candidateTree && p.targetHead && ValidEntries(cat, MergeFailureRecovery, p.choices)
    requires WAIVER in ChoiceIds(SavedEntries(p)) && Text(WAIVER) !in SavedEntries(p)
    ensures QuestionEntries(cat, MergeFailureRecovery, p).Some?
    ensures WAIVER in ChoiceIds(QuestionEntries(cat, MergeFailureRecovery, p).value)
    ensures OfferFor(cat, p).Ok? && WAIVER !in OfferFor(cat, p).value
  {
    var actions := cat.actions(MergeFailureRecovery);
    var ids := ChoiceIds(SavedEntries(p));
    assert GoodTable(MergeFailureRecovery, actions);
    ValidMerge(cat, SavedEntries(p));
    ValidMergeLists(actions, ids);
    ValidQuestion(cat, p);
    MergeFailureShape(actions, true, ids);
    GateReads(cat, p);
    MergeOffer(cat, p);
    MergeFailureShape(actions, true, Offered(p));
  }

  /** There is such a list: the gate's own actions, labelled. */
  lemma LabelledListParts(cat: Catalog, p: Payload)
    requires Sound(cat) && WAIVER in cat.actions(MergeFailureRecovery)
    requires GateFor(cat, p) == Ok(MergeFailureRecovery) && ReviewGate(cat, p).Some?
    requires p.candidateTree && p.targetHead && p.choices == Some(Labelled(cat.actions(MergeFailureRecovery)))
    ensures ValidEntries(cat, MergeFailureRecovery, p.choices) && !QuestionAgrees(cat, p)
  {
    LabelledListValidates(cat);
    assert Text(WAIVER) !in Labelled(cat.actions(MergeFailureRecovery));
    LabelledWaiverParts(cat, p);
  }
}
