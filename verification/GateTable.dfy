/** The human gates and the actions each of them offers and accepts. */
module GateTable {
  import opened Basics
  import opened Text

  datatype Gate =
    | Clarification
    | PlannerClarification
    | DirtyWorktreeRecovery
    | AssessmentEvidenceMissing
    | StallExhaustedRecovery
    | FailureThresholdExhausted
    | FixChainExhausted
    | PlanApproval
    | FileScopeApproval
    | EnvironmentSetup
    | AssessmentReview
    | AssessmentTransportRecovery
    | AssessmentRetryLimit
    | UnexecutedReplanRecovery
    | BlockedRecovery
    | PartialWorkRecovery
    | DeadLetterRecovery
    | PipelineHeadRecovery
    | ArtifactRoutingAdmin
    | OneShotFileScope
    | PushOffer
    | SharedTrunkPublicationUnprovable
    | SharedTrunkFastForwardBlocked
    | SharedTrunkPushRefused
    | SharedTrunkPushRemoteError
    | SharedTrunkProvenance
    | WorkItemFailureDisposition
    | CrossWiUpstreamDisposition
    | MergeVerificationReview
    | MergeFailureRecovery
    | PostMergeDbTask

  const GATES: seq<Gate> := [
    Clarification, PlannerClarification, DirtyWorktreeRecovery, AssessmentEvidenceMissing, StallExhaustedRecovery,
    FailureThresholdExhausted, FixChainExhausted, PlanApproval, FileScopeApproval, EnvironmentSetup, AssessmentReview,
    AssessmentTransportRecovery, AssessmentRetryLimit, UnexecutedReplanRecovery, BlockedRecovery, PartialWorkRecovery,
    DeadLetterRecovery, PipelineHeadRecovery, ArtifactRoutingAdmin, OneShotFileScope, PushOffer,
    SharedTrunkPublicationUnprovable, SharedTrunkFastForwardBlocked, SharedTrunkPushRefused,
    SharedTrunkPushRemoteError, SharedTrunkProvenance, WorkItemFailureDisposition, CrossWiUpstreamDisposition,
    MergeVerificationReview, MergeFailureRecovery, PostMergeDbTask]

  /** The identity a payload carries. */
  function Name(g: Gate): (n: string)
    ensures |n| > 0
  {
    match g
    case Clarification => "clarification"
    case PlannerClarification => "planner_clarification"
    case DirtyWorktreeRecovery => "dirty_worktree_recovery"
    case AssessmentEvidenceMissing => "assessment_evidence_missing"
    case StallExhaustedRecovery => "stall_exhausted_recovery"
    case FailureThresholdExhausted => "failure_threshold_exhausted"
    case FixChainExhausted => "fix_chain_exhausted"
    case PlanApproval => "plan_approval"
    case FileScopeApproval => "file_scope_approval"
    case EnvironmentSetup => "environment_setup"
    case AssessmentReview => "assessment_review"
    case AssessmentTransportRecovery => "assessment_transport_recovery"
    case AssessmentRetryLimit => "assessment_retry_limit"
    case UnexecutedReplanRecovery => "unexecuted_replan_recovery"
    case BlockedRecovery => "blocked_recovery"
    case PartialWorkRecovery => "partial_work_recovery"
    case DeadLetterRecovery => "dead_letter_recovery"
    case PipelineHeadRecovery => "pipeline_head_recovery"
    case ArtifactRoutingAdmin => "artifact_routing_admin"
    case OneShotFileScope => "one_shot_file_scope"
    case PushOffer => "push_offer"
    case SharedTrunkPublicationUnprovable => "shared_trunk_publication_unprovable"
    case SharedTrunkFastForwardBlocked => "shared_trunk_fast_forward_blocked"
    case SharedTrunkPushRefused => "shared_trunk_push_refused"
    case SharedTrunkPushRemoteError => "shared_trunk_push_remote_error"
    case SharedTrunkProvenance => "shared_trunk_provenance"
    case WorkItemFailureDisposition => "work_item_failure_disposition"
    case CrossWiUpstreamDisposition => "cross_wi_upstream_disposition"
    case MergeVerificationReview => "merge_verification_review"
    case MergeFailureRecovery => "merge_failure_recovery"
    case PostMergeDbTask => "post_merge_db_task"
  }

  /** The actions of each gate; a gate that takes free text has the one action
      `respond`. */
  function Actions(g: Gate): seq<string> {
    match g
    case Clarification => ["respond"]
    case PlannerClarification => ["respond"]
    case DirtyWorktreeRecovery => ["commit", "send_back", "fail"]
    case AssessmentEvidenceMissing =>
      ["send_back", "retry_assessment", "retry", "replan", "pass", "fail", "explicit_waiver"]
    case StallExhaustedRecovery =>
      ["retry", "retry:claude", "retry:anthropic", "retry:openai", "retry:codex", "retry:grok", "skip", "fail"]
    case FailureThresholdExhausted => ["retry", "replan", "fail", "explicit_waiver"]
    case FixChainExhausted => ["retry", "replan", "fail", "explicit_waiver"]
    case PlanApproval => ["approve", "reject"]
    case FileScopeApproval => ["approve", "reject"]
    case EnvironmentSetup => ["approve", "reject"]
    case AssessmentReview => ["send_back", "retry_assessment", "replan", "pass", "fail", "explicit_waiver"]
    case AssessmentTransportRecovery =>
      ["send_back", "retry_assessment", "retry", "replan", "pass", "fail", "explicit_waiver"]
    case AssessmentRetryLimit => ["send_back", "retry_assessment", "replan", "pass", "fail", "explicit_waiver"]
    case UnexecutedReplanRecovery => ["replan", "fail", "explicit_waiver"]
    case BlockedRecovery => ["retry", "replan", "fail", "explicit_waiver"]
    case PartialWorkRecovery => ["extend", "commit", "revert"]
    case DeadLetterRecovery =>
      ["retry", "retry:claude", "retry:anthropic", "retry:openai", "retry:codex", "retry:grok", "skip", "fail"]
    case PipelineHeadRecovery => ["replan", "pass", "fail", "explicit_waiver"]
    case ArtifactRoutingAdmin => ["acknowledge"]
    case OneShotFileScope => ["plan", "cancel"]
    case PushOffer => ["push", "decline"]
    case SharedTrunkPublicationUnprovable => ["acknowledge"]
    case SharedTrunkFastForwardBlocked => ["acknowledge"]
    case SharedTrunkPushRefused => ["acknowledge"]
    case SharedTrunkPushRemoteError => ["acknowledge"]
    case SharedTrunkProvenance => ["accept", "reject"]
    case WorkItemFailureDisposition => ["retry", "accept", "abandon"]
    case CrossWiUpstreamDisposition => ["wait", "rebuild", "abandon"]
    case MergeVerificationReview => ["pass", "fail"]
    case MergeFailureRecovery => ["merge", "commit", "waive_tests", "send_back"]
    case PostMergeDbTask => ["run", "skip"]
  }

  predicate FreeText(g: Gate) {
    g.Clarification? || g.PlannerClarification?
  }

  /** The gate that a string names. */
  function Find(name: string, gates: seq<Gate>): (r: Option<Gate>)
    ensures r.Some? ==> r.value in gates && Name(r.value) == name
    ensures r.None? ==> forall g :: g in gates ==> Name(g) != name
  {
    if gates == [] then None
    else if Name(gates[0]) == name then Some(gates[0])
    else Find(name, gates[1..])
  }

  function GateOf(name: string): Option<Gate> {
    Find(name, GATES)
  }

  lemma EveryGateListed(g: Gate)
    ensures g in GATES
  {
    var i := match g
      case Clarification => 0 case PlannerClarification => 1 case DirtyWorktreeRecovery => 2
      case AssessmentEvidenceMissing => 3 case StallExhaustedRecovery => 4 case FailureThresholdExhausted => 5
      case FixChainExhausted => 6 case PlanApproval => 7 case FileScopeApproval => 8 case EnvironmentSetup => 9
      case AssessmentReview => 10 case AssessmentTransportRecovery => 11 case AssessmentRetryLimit => 12
      case UnexecutedReplanRecovery => 13 case BlockedRecovery => 14 case PartialWorkRecovery => 15
      case DeadLetterRecovery => 16 case PipelineHeadRecovery => 17 case ArtifactRoutingAdmin => 18
      case OneShotFileScope => 19 case PushOffer => 20 case SharedTrunkPublicationUnprovable => 21
      case SharedTrunkFastForwardBlocked => 22 case SharedTrunkPushRefused => 23 case SharedTrunkPushRemoteError => 24
      case SharedTrunkProvenance => 25 case WorkItemFailureDisposition => 26 case CrossWiUpstreamDisposition => 27
      case MergeVerificationReview => 28 case MergeFailureRecovery => 29 case PostMergeDbTask => 30;
    assert GATES[i] == g;
  }

  /** The length and the first and last character of a name tell it apart. */
  datatype Shape = Shape(length: nat, first: char, last: char)

  function NameShape(g: Gate): Shape {
    match g
    case Clarification => Shape(13, 'c', 'n') case PlannerClarification => Shape(21, 'p', 'n')
    case DirtyWorktreeRecovery => Shape(23, 'd', 'y') case AssessmentEvidenceMissing => Shape(27, 'a', 'g')
    case StallExhaustedRecovery => Shape(24, 's', 'y') case FailureThresholdExhausted => Shape(27, 'f', 'd')
    case FixChainExhausted => Shape(19, 'f', 'd') case PlanApproval => Shape(13, 'p', 'l')
    case FileScopeApproval => Shape(19, 'f', 'l') case EnvironmentSetup => Shape(17, 'e', 'p')
    case AssessmentReview => Shape(17, 'a', 'w') case AssessmentTransportRecovery => Shape(29, 'a', 'y')
    case AssessmentRetryLimit => Shape(22, 'a', 't') case UnexecutedReplanRecovery => Shape(26, 'u', 'y')
    case BlockedRecovery => Shape(16, 'b', 'y') case PartialWorkRecovery => Shape(21, 'p', 'y')
    case DeadLetterRecovery => Shape(20, 'd', 'y') case PipelineHeadRecovery => Shape(22, 'p', 'y')
    case ArtifactRoutingAdmin => Shape(22, 'a', 'n') case OneShotFileScope => Shape(19, 'o', 'e')
    case PushOffer => Shape(10, 'p', 'r') case SharedTrunkPublicationUnprovable => Shape(35, 's', 'e')
    case SharedTrunkFastForwardBlocked => Shape(33, 's', 'd') case SharedTrunkPushRefused => Shape(25, 's', 'd')
    case SharedTrunkPushRemoteError => Shape(30, 's', 'r') case SharedTrunkProvenance => Shape(23, 's', 'e')
    case WorkItemFailureDisposition => Shape(29, 'w', 'n') case CrossWiUpstreamDisposition => Shape(29, 'c', 'n')
    case MergeVerificationReview => Shape(25, 'm', 'w') case MergeFailureRecovery => Shape(22, 'm', 'y')
    case PostMergeDbTask => Shape(18, 'p', 'k')
  }

  lemma NameLengths(g: Gate)
    ensures |Name(g)| == NameShape(g).length
  {
  }

  lemma NameFirsts(g: Gate)
    ensures Name(g)[0] == NameShape(g).first
  {
  }

  /** The gates about scope, approval and recovery of a single job. */
  predicate JobGate(g: Gate) {
    || g.Clarification? || g.PlannerClarification? || g.DirtyWorktreeRecovery? || g.AssessmentEvidenceMissing?
    || g.StallExhaustedRecovery? || g.FailureThresholdExhausted? || g.FixChainExhausted? || g.PlanApproval?
    || g.FileScopeApproval? || g.EnvironmentSetup? || g.AssessmentReview? || g.AssessmentTransportRecovery?
    || g.AssessmentRetryLimit? || g.BlockedRecovery?
  }

  lemma JobNameLasts(g: Gate)
    requires JobGate(g)
    ensures Name(g)[|Name(g)| - 1] == NameShape(g).last
  {
  }

  lemma OtherNameLasts(g: Gate)
    requires !JobGate(g)
    ensures Name(g)[|Name(g)| - 1] == NameShape(g).last
  {
  }

  lemma NameLasts(g: Gate)
    ensures Name(g)[|Name(g)| - 1] == NameShape(g).last
  {
    if JobGate(g) {
      JobNameLasts(g);
    } else {
      OtherNameLasts(g);
    }
  }

  lemma ShapesDiffer(a: Gate, b: Gate)
    requires NameShape(a) == NameShape(b)
    ensures a == b
  {
  }

  /** Distinct gates have distinct names. */
  lemma NamesDiffer(a: Gate, b: Gate)
    requires Name(a) == Name(b)
    ensures a == b
  {
    NameLengths(a);
    NameLengths(b);
    NameFirsts(a);
    NameFirsts(b);
    NameLasts(a);
    NameLasts(b);
    ShapesDiffer(a, b);
  }

  lemma GateOfName(g: Gate)
    ensures GateOf(Name(g)) == Some(g)
  {
    EveryGateListed(g);
    NamesDiffer(g, GateOf(Name(g)).value);
  }

  lemma JobActionsDistinct(g: Gate)
    requires JobGate(g)
    ensures Distinct(Actions(g)) && 1 <= |Actions(g)| <= 8
  {
  }

  lemma OtherActionsDistinct(g: Gate)
    requires !JobGate(g)
    ensures Distinct(Actions(g)) && 1 <= |Actions(g)| <= 8
  {
  }

  /** No gate lists an action twice. */
  lemma ActionsDistinct(g: Gate)
    ensures Distinct(Actions(g)) && 1 <= |Actions(g)| <= 8
  {
    if JobGate(g) {
      JobActionsDistinct(g);
    } else {
      OtherActionsDistinct(g);
    }
  }

  // ---- The table as a catalog ----

  /** Names, actions and the lookup by name.  The theorems about gates hold for
      every sound catalog; SHIPPED is the one the repository has. */
  datatype Catalog = Catalog(name: Gate -> string, actions: Gate -> seq<string>, gateOf: string -> Option<Gate>)

  const SHIPPED := Catalog((g: Gate) => Name(g), (g: Gate) => Actions(g), (n: string) => GateOf(n))

  const DISPOSITIONS: set<Gate> := {WorkItemFailureDisposition, CrossWiUpstreamDisposition}

  /** The most choices a prompt keeps. */
  const CHOICE_LIMIT: nat := 9

  ghost predicate SoundNames(c: Catalog) {
    && (forall g :: c.name(g) != "" && Trimmed(c.name(g)) && c.gateOf(c.name(g)) == Some(g))
    && forall n :: c.gateOf(n).Some? ==> c.name(c.gateOf(n).value) == n
  }

  /** What the list of one gate needs: distinct trimmed actions that fit the prompt;
      free-text gates have just `respond`; the gates that drop an action keep
      another. */
  ghost predicate GoodTable(g: Gate, actions: seq<string>) {
    && Distinct(actions) && 1 <= |actions| <= CHOICE_LIMIT
    && (forall a :: a in actions ==> a != "" && Trimmed(a))
    && (if FreeText(g) then actions == ["respond"] else "respond" !in actions)
    && (g == OneShotFileScope ==> |actions| == 2)
    && (g == MergeFailureRecovery ==> actions[0] != "waive_tests")
    && (g in DISPOSITIONS ==> actions[0] != "accept")
  }

  ghost predicate SoundActions(c: Catalog) {
    forall g :: GoodTable(g, c.actions(g))
  }

  ghost predicate Sound(c: Catalog) {
    SoundNames(c) && SoundActions(c)
  }

  lemma NameTrimmed(g: Gate)
    ensures Name(g) != "" && Trimmed(Name(g))
  {
    NameLasts(g);
    NameFirsts(g);
    ShapeLetters(g);
    LettersTrimmed(Name(g));
  }

  lemma LettersTrimmed(s: string)
    requires s != "" && IsLower(s[0]) && IsLower(s[|s| - 1])
    ensures Trimmed(s)
  {
  }

  lemma ShapeLetters(g: Gate)
    ensures IsLower(NameShape(g).first) && IsLower(NameShape(g).last)
  {
  }

  /** Every action but `respond`. */
  const WORDS := [
    "commit", "send_back", "fail", "retry_assessment", "retry", "replan", "pass", "explicit_waiver",
    "retry:claude", "retry:anthropic", "retry:openai", "retry:codex", "retry:grok", "skip", "approve", "reject",
    "extend", "revert", "acknowledge", "plan", "cancel", "push", "decline", "accept", "abandon", "wait",
    "rebuild", "merge", "waive_tests", "run"]

  lemma WordStarts(i: nat)
    requires i < |WORDS|
    ensures WORDS[i] != "" && IsLower(WORDS[i][0])
  {
  }

  lemma WordEnds(i: nat)
    requires i < |WORDS|
    ensures WORDS[i] != "" && IsLower(WORDS[i][|WORDS[i]| - 1])
  {
  }

  lemma ActionsAreWords(g: Gate)
    requires !FreeText(g)
    ensures forall c :: c in Actions(g) ==> c in WORDS
  {
  }

  /** No action of a closed list is blank, padded with white space, or `respond`. */
  lemma ActionsTrimmed(g: Gate)
    requires !FreeText(g)
    ensures forall c :: c in Actions(g) ==> c != "" && Trimmed(c) && c != "respond"
  {
    ActionsAreWords(g);
    forall c | c in WORDS ensures c != "" && Trimmed(c) && c != "respond" {
      var i :| 0 <= i < |WORDS| && WORDS[i] == c;
      WordStarts(i);
      WordEnds(i);
      RespondIsNoWord(i);
    }
  }

  lemma RespondIsNoWord(i: nat)
    requires i < |WORDS|
    ensures WORDS[i] != "respond"
  {
    assert "respond"[0] != "abandon"[0] && "respond"[0] != "decline"[0] && "respond"[2] != "rebuild"[2];
  }

  lemma ShippedNamesSound()
    ensures SoundNames(SHIPPED)
  {
    forall g ensures Name(g) != "" && Trimmed(Name(g)) && GateOf(Name(g)) == Some(g) {
      NameTrimmed(g);
      GateOfName(g);
    }
  }

  lemma SpecialActions()
    ensures Actions(MergeFailureRecovery)[0] != "waive_tests" && |Actions(OneShotFileScope)| == 2
    ensures forall g :: g in DISPOSITIONS ==> Actions(g)[0] != "accept"
  {
  }

  lemma RespondTrimmed()
    ensures "respond" != "" && Trimmed("respond")
  {
    assert !IsSpace("respond"[0]) && !IsSpace("respond"[6]);
  }

  lemma ActionsGood(g: Gate)
    ensures GoodTable(g, Actions(g))
  {
    ActionsDistinct(g);
    SpecialActions();
    if FreeText(g) {
      RespondTrimmed();
      assert Actions(g) == ["respond"];
    } else {
      ActionsTrimmed(g);
    }
  }

  lemma ShippedActionsSound()
    ensures SoundActions(SHIPPED)
  {
    forall g ensures GoodTable(g, SHIPPED.actions(g)) {
      ActionsGood(g);
    }
  }

  /** The repository's table is a sound catalog. */
  lemma ShippedIsSound()
    ensures Sound(SHIPPED)
  {
    ShippedNamesSound();
    ShippedActionsSound();
  }
}
