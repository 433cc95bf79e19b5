/** Validation of persisted question choices, written independently of the
    narrowing in HumanGates, and what its ordered scan accepts. */
module QuestionChoices {
  import opened Basics
  import opened Text
  import opened GateTable
  import opened HumanGates

  function ChoiceId(e: Entry): string {
    match e
    case Text(text) => text
    case Record(choiceId, value, id) =>
      Trim(if choiceId.Some? then choiceId.value else if value.Some? then value.value
           else if id.Some? then id.value else "")
  }

  function ChoiceIds(es: seq<Entry>): (r: seq<string>)
    ensures |r| == |es| && forall i :: 0 <= i < |es| ==> r[i] == ChoiceId(es[i])
  {
    seq(|es|, i requires 0 <= i < |es| => ChoiceId(es[i]))
  }

  /** The structured vocabulary: a gate that takes free text has no choices. */
  function Vocabulary(cat: Catalog, g: Gate): seq<string> {
    if FreeText(g) then [] else cat.actions(g)
  }

  const ORDERED_SUBSETS: set<Gate> := {
    AssessmentEvidenceMissing, StallExhaustedRecovery, FailureThresholdExhausted, FixChainExhausted,
    AssessmentReview, AssessmentTransportRecovery, AssessmentRetryLimit, UnexecutedReplanRecovery,
    BlockedRecovery, PipelineHeadRecovery, DeadLetterRecovery, WorkItemFailureDisposition,
    CrossWiUpstreamDisposition}

  /** The scan with `previous`: every id stands after the one before it. */
  predicate OrderedFrom(ids: seq<string>, allowed: seq<string>, previous: int) {
    ids == [] || (IndexOf(allowed, ids[0]) > previous && OrderedFrom(ids[1..], allowed, IndexOf(allowed, ids[0])))
  }

  predicate ValidIds(cat: Catalog, g: Gate, ids: seq<string>) {
    if g == OneShotFileScope then
      && |ids| >= 3 && ids[|ids| - 2] == "plan" && ids[|ids| - 1] == "cancel"
      && forall i :: 0 <= i < |ids| - 2 ==> IsCandidate(ids[i])
    else if g in ORDERED_SUBSETS then OrderedFrom(ids, Vocabulary(cat, g), -1)
    else if g == MergeFailureRecovery then
      && OrderedFrom(ids, Vocabulary(cat, g), -1)
      && forall c :: c in Vocabulary(cat, g) ==> c == "waive_tests" || c in ids
    else ids == Vocabulary(cat, g)
  }

  predicate ValidEntries(cat: Catalog, g: Gate, entries: Option<seq<Entry>>) {
    && entries.Some?
    && 1 <= |entries.value| <= 32
    && (forall c :: c in ChoiceIds(entries.value) ==> c != "")
    && Distinct(ChoiceIds(entries.value))
    && ValidIds(cat, g, ChoiceIds(entries.value))
  }

  /** The validation of an ordered vocabulary as the code runs it. */
  method CheckOrder(ids: seq<string>, allowed: seq<string>) returns (ordered: bool)
    ensures ordered == OrderedFrom(ids, allowed, -1)
  {
    var previous := -1;
    for i := 0 to |ids|
      invariant -1 <= previous
      invariant OrderedFrom(ids, allowed, -1) == OrderedFrom(ids[i..], allowed, previous)
    {
      var index := IndexOf(allowed, ids[i]);
      if index <= previous {
        return false;
      }
      previous := index;
    }
    return true;
  }

  // ---- The scan accepts exactly the subsequences ----

  lemma {:induction false} OrderedFromIsTableOrder(ids: seq<string>, allowed: seq<string>, previous: int)
    requires -1 <= previous
    ensures OrderedFrom(ids, allowed, previous) <==>
              InTableOrder(ids, allowed) && (ids != [] ==> IndexOf(allowed, ids[0]) > previous)
  {
    if ids != [] {
      var first := IndexOf(allowed, ids[0]);
      if first > previous {
        OrderedFromIsTableOrder(ids[1..], allowed, first);
      }
      if InTableOrder(ids, allowed) {
        assert ids[0] in allowed;
        assert InTableOrder(ids[1..], allowed);
      }
    }
  }

  /** The loop accepts exactly the subsequences of a distinct vocabulary. */
  lemma OrderedIffSubsequence(ids: seq<string>, allowed: seq<string>)
    requires Distinct(allowed)
    ensures OrderedFrom(ids, allowed, -1) <==> Subsequence(ids, allowed)
  {
    OrderedFromIsTableOrder(ids, allowed, -1);
    InOrderIffSubsequence(ids, allowed);
  }

  lemma SubsequenceDistinct(ids: seq<string>, allowed: seq<string>)
    requires Distinct(allowed) && Subsequence(ids, allowed)
    ensures Distinct(ids) && (forall c :: c in ids ==> c in allowed) && |ids| <= |allowed|
  {
    var at :| Embeds(at, ids, allowed);
    EmbeddingLength(at, ids, allowed);
  }

  lemma {:induction false} EmbeddingLength(at: seq<nat>, ids: seq<string>, allowed: seq<string>)
    requires Embeds(at, ids, allowed)
    ensures |ids| <= |allowed| && (ids != [] ==> at[|ids| - 1] >= |ids| - 1)
  {
    if ids != [] {
      var n := |ids| - 1;
      assert Embeds(at[..n], ids[..n], allowed);
      EmbeddingLength(at[..n], ids[..n], allowed);
      if n > 0 {
        assert at[..n][n - 1] == at[n - 1] && at[n - 1] < at[n];
      }
      assert at[n] >= n;
    }
  }

  // ---- Which questions are valid ----

  /** What every valid question has: 1 to 32 entries with distinct ids that are not empty. */
  predicate Identified(es: seq<Entry>) {
    1 <= |es| <= 32 && Distinct(ChoiceIds(es)) && forall id :: id in ChoiceIds(es) ==> id != ""
  }

  /** The kinds whose questions may be narrowed. */
  predicate Narrowable(g: Gate) {
    || g.AssessmentEvidenceMissing? || g.StallExhaustedRecovery? || g.FailureThresholdExhausted?
    || g.FixChainExhausted? || g.AssessmentReview? || g.AssessmentTransportRecovery?
    || g.AssessmentRetryLimit? || g.UnexecutedReplanRecovery? || g.BlockedRecovery?
    || g.PipelineHeadRecovery? || g.DeadLetterRecovery? || g.WorkItemFailureDisposition?
    || g.CrossWiUpstreamDisposition?
  }

  /** The other kinds with a closed list, the merge gate and the one-shot selector apart. */
  predicate Fixed(g: Gate) {
    || g.DirtyWorktreeRecovery? || g.PlanApproval? || g.FileScopeApproval? || g.EnvironmentSetup?
    || g.PartialWorkRecovery? || g.ArtifactRoutingAdmin? || g.PushOffer?
    || g.SharedTrunkPublicationUnprovable? || g.SharedTrunkFastForwardBlocked? || g.SharedTrunkPushRefused?
    || g.SharedTrunkPushRemoteError? || g.SharedTrunkProvenance? || g.MergeVerificationReview?
    || g.PostMergeDbTask?
  }

  lemma NarrowableKinds(g: Gate)
    requires Narrowable(g)
    ensures g in ORDERED_SUBSETS && g != OneShotFileScope && !FreeText(g)
  {
  }

  lemma FixedKinds(g: Gate)
    requires Fixed(g)
    ensures g !in ORDERED_SUBSETS && g != OneShotFileScope && g != MergeFailureRecovery && !FreeText(g)
  {
  }

  /** Every gate is of one of the kinds told apart here. */
  lemma KindsAreComplete(g: Gate)
    ensures Narrowable(g) || Fixed(g) || g in {MergeFailureRecovery, OneShotFileScope, Clarification, PlannerClarification}
  {
  }

  /** Part of a good table is always identified, if it is there at all. */
  lemma SubsequenceIdentified(g: Gate, actions: seq<string>, es: seq<Entry>)
    requires GoodTable(g, actions) && Subsequence(ChoiceIds(es), actions)
    ensures Identified(es) <==> es != []
  {
    SubsequenceDistinct(ChoiceIds(es), actions);
  }

  /** A question of a kind that may be narrowed is valid if and only if its ids are a
      non-empty subsequence of the gate's table: each an action, none twice, in order. */
  lemma NarrowableQuestion(cat: Catalog, g: Gate, es: seq<Entry>)
    requires SoundActions(cat) && Narrowable(g)
    ensures ValidEntries(cat, g, Some(es)) <==> es != [] && Subsequence(ChoiceIds(es), cat.actions(g))
  {
    assert GoodTable(g, cat.actions(g));
    NarrowableKinds(g);
    OrderedIffSubsequence(ChoiceIds(es), cat.actions(g));
    if Subsequence(ChoiceIds(es), cat.actions(g)) {
      SubsequenceIdentified(g, cat.actions(g), es);
    }
  }

  /** The merge gate's question is valid if and only if its ids are a subsequence of the
      table that misses no action but the waiver. */
  lemma MergeQuestion(cat: Catalog, es: seq<Entry>)
    requires SoundActions(cat)
    ensures ValidEntries(cat, MergeFailureRecovery, Some(es)) <==>
              && Subsequence(ChoiceIds(es), cat.actions(MergeFailureRecovery))
              && forall a :: a in cat.actions(MergeFailureRecovery) && a != "waive_tests" ==> a in ChoiceIds(es)
  {
    var g := MergeFailureRecovery;
    assert GoodTable(g, cat.actions(g)) && cat.actions(g)[0] in cat.actions(g);
    OrderedIffSubsequence(ChoiceIds(es), cat.actions(g));
    if Subsequence(ChoiceIds(es), cat.actions(g)) {
      SubsequenceIdentified(g, cat.actions(g), es);
    }
  }

  /** A question of any other kind with a closed list is valid if and only if its ids are
      the whole table. */
  lemma FixedQuestion(cat: Catalog, g: Gate, es: seq<Entry>)
    requires SoundActions(cat) && Fixed(g)
    ensures ValidEntries(cat, g, Some(es)) <==> ChoiceIds(es) == cat.actions(g)
  {
    assert GoodTable(g, cat.actions(g));
    FixedKinds(g);
  }

  /** The one-shot selector's question: candidates by digest, then plan, then cancel. */
  lemma SelectorQuestion(cat: Catalog, es: seq<Entry>)
    ensures ValidEntries(cat, OneShotFileScope, Some(es)) <==>
              && Identified(es) && 3 <= |es|
              && ChoiceIds(es)[|es| - 2] == "plan" && ChoiceIds(es)[|es| - 1] == "cancel"
              && forall i :: 0 <= i < |es| - 2 ==> IsCandidate(ChoiceIds(es)[i])
  {
  }

  /** Free text has no valid question, and neither has an absent list. */
  lemma FreeTextQuestion(cat: Catalog, g: Gate, es: seq<Entry>)
    requires g.Clarification? || g.PlannerClarification?
    ensures !ValidEntries(cat, g, Some(es)) && !ValidEntries(cat, g, None)
  {
  }

  /** A record is known by its choice id, failing that its value, failing that its id. */
  lemma RecordIds(c: string, other: Option<string>, another: Option<string>)
    ensures ChoiceId(Record(Some(c), other, another)) == ChoiceId(Record(None, Some(c), other)) == Trim(c)
    ensures ChoiceId(Record(None, None, Some(c))) == Trim(c)
  {
  }
}
