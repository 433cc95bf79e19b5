/** The durable contract of a gate: built from an accepted payload, and validated by a
    check that knows only the contract. */
module GateContracts {
  import opened Basics
  import opened Text
  import opened GateTable
  import opened HumanGates

  /** Why a person is needed; a field that is missing is empty. */
  datatype Profile = Profile(unresolvedFact: string, contribution: string, headless: string, insufficient: string)

  datatype Contract = Contract(
    schemaVersion: int, profile: Profile, transitions: Option<map<string, string>>, allowed: seq<string>)

  datatype Field = UnresolvedFact | HumanContribution | HeadlessBehavior | DiagnosticInsufficientReason

  datatype Reason = SchemaMissing | FieldMissing(field: Field) | TransitionsMissing | TransitionMissing(action: string)

  /** The actions with an effect of their own, and their effects. */
  datatype Transitions = Transitions(actions: seq<string>, effects: seq<string>)

  const ACTIONS: seq<string> := [
    "approve", "deny", "reject", "extend", "commit", "revert", "retry_assessment", "retry", "skip", "acknowledge",
    "replan", "pass", "fail", "explicit_waiver", "respond", "plan", "run", "accept", "abandon", "wait", "rebuild",
    "merge", "waive_tests", "send_back"]

  const GRANT_AND_RETRY_EFFECTS: seq<string> := [
    "grant_scope_and_resume",
    "deny_scope_and_fail_request",
    "reject_request",
    "increase_budget_and_resume",
    "preserve_partial_work_and_assess",
    "discard_partial_work_and_dead_letter",
    "queue_new_assessment_attempt",
    "queue_recovery_attempt"]

  const VERDICT_EFFECTS: seq<string> := [
    "cancel_original_job_and_release_dependents",
    "record_operator_acknowledgement",
    "queue_new_research_and_plan",
    "record_human_acceptance",
    "record_terminal_rejection",
    "record_authority_backed_waiver",
    "resume_with_human_answer",
    "resume_with_selected_scope"]

  const CLOSING_EFFECTS: seq<string> := [
    "queue_post_merge_database_task",
    "accept_assessment_only_failures_and_complete",
    "cancel_work_item_and_delete_branch",
    "keep_merge_deferred_until_upstream_merges",
    // In two parts, because the verifier reads a literal one character at a time.
    "requeue_on_target_branch" + "_without_inherited_edits",
    "merge_work_item_into_target",
    "record_candidate_test_waiver_and_merge",
    "requeue_work_item_for_rework"]

  const EFFECTS := GRANT_AND_RETRY_EFFECTS + VERDICT_EFFECTS + CLOSING_EFFECTS

  const SHIPPED_TRANSITIONS := Transitions(ACTIONS, EFFECTS)

  function Lookup(table: Transitions, action: string): (r: Option<string>)
    ensures r.Some? ==> r.value in table.effects
  {
    var i := IndexOf(table.actions, action);
    if 0 <= i < |table.effects| then Some(table.effects[i]) else None
  }

  /** What an action does to the gate. */
  function Transition(table: Transitions, action: string): string {
    var canonical := Trim(action);
    if "retry:" <= action then "queue_provider_specific_recovery"
    else match Lookup(table, canonical)
      case Some(t) => t
      case None => "resolve_gate_with_" + if canonical == "" then "response" else canonical
  }

  function TransitionsFor(table: Transitions, allowed: seq<string>): map<string, string> {
    map a | a in allowed :: Transition(table, a)
  }

  function ContractFor(
    cat: Catalog, table: Transitions, profiles: Gate -> Profile, p: Payload): Result<Contract, GateError>
  {
    var g :- GateFor(cat, p);
    var allowed :- AllowedFor(cat, p);
    Ok(Contract(1, profiles(g), Some(TransitionsFor(table, allowed)), allowed))
  }

  predicate Blank(s: string) {
    Trim(s) == ""
  }

  /** The first field that is blank, the fields in the order of validation. */
  function FirstField(fact: bool, contribution: bool, headless: bool, insufficient: bool): Option<Field> {
    if fact then Some(UnresolvedFact)
    else if contribution then Some(HumanContribution)
    else if headless then Some(HeadlessBehavior)
    else if insufficient then Some(DiagnosticInsufficientReason)
    else None
  }

  function FirstBlankField(p: Profile): Option<Field> {
    FirstField(Blank(p.unresolvedFact), Blank(p.contribution), Blank(p.headless), Blank(p.insufficient))
  }

  predicate HasTransition(transitions: map<string, string>, action: string) {
    action in transitions && !Blank(transitions[action])
  }

  function FirstWithoutTransition(transitions: map<string, string>, allowed: seq<string>): Option<string> {
    FindFirst((a: string) => !HasTransition(transitions, a), allowed)
  }

  /** The first defect of a contract, or None. */
  function Defect(c: Contract): Option<Reason> {
    if c.schemaVersion != 1 then Some(SchemaMissing)
    else match FirstBlankField(c.profile)
      case Some(field) => Some(FieldMissing(field))
      case None =>
        if c.transitions.None? then Some(TransitionsMissing)
        else match FirstWithoutTransition(c.transitions.value, c.allowed)
          case Some(action) => Some(TransitionMissing(action))
          case None => None
  }

  // ---- Which contracts pass, and what the others lack ----

  predicate Complete(p: Profile) {
    !Blank(p.unresolvedFact) && !Blank(p.contribution) && !Blank(p.headless) && !Blank(p.insufficient)
  }

  /** The field is blank and no field before it is. */
  predicate FirstBlank(p: Profile, field: Field) {
    match field
    case UnresolvedFact => Blank(p.unresolvedFact)
    case HumanContribution => !Blank(p.unresolvedFact) && Blank(p.contribution)
    case HeadlessBehavior => !Blank(p.unresolvedFact) && !Blank(p.contribution) && Blank(p.headless)
    case DiagnosticInsufficientReason =>
      !Blank(p.unresolvedFact) && !Blank(p.contribution) && !Blank(p.headless) && Blank(p.insufficient)
  }

  /** The first allowed action without a transition. */
  ghost predicate FirstLacking(c: Contract, action: string)
    requires c.transitions.Some?
  {
    && action in c.allowed && !HasTransition(c.transitions.value, action)
    && forall a :: a in c.allowed && !HasTransition(c.transitions.value, a) ==> IndexOf(c.allowed, action) <= IndexOf(c.allowed, a)
  }

  lemma LackingExactly(c: Contract, action: string)
    requires c.transitions.Some?
    ensures FirstWithoutTransition(c.transitions.value, c.allowed) == Some(action) <==> FirstLacking(c, action)
  {
    var lacking := FirstWithoutTransition(c.transitions.value, c.allowed);
    if lacking.Some? && FirstLacking(c, action) {
      assert IndexOf(c.allowed, action) == IndexOf(c.allowed, lacking.value);
    }
  }

  lemma BlankExactly(p: Profile, field: Field)
    ensures FirstBlankField(p) == Some(field) <==> FirstBlank(p, field)
    ensures FirstBlankField(p) == None <==> Complete(p)
  {
  }

  /** Validation of any contract: it passes if and only if it has the schema's version, a
      complete profile and a transition for every action that it allows, and otherwise
      the reason is the first of these that it lacks. */
  lemma DefectExactly(c: Contract, field: Field, action: string)
    ensures Defect(c) == None <==>
              && c.schemaVersion == 1 && Complete(c.profile) && c.transitions.Some?
              && forall a :: a in c.allowed ==> HasTransition(c.transitions.value, a)
    ensures Defect(c) == Some(SchemaMissing) <==> c.schemaVersion != 1
    ensures Defect(c) == Some(FieldMissing(field)) <==> c.schemaVersion == 1 && FirstBlank(c.profile, field)
    ensures Defect(c) == Some(TransitionsMissing) <==> c.schemaVersion == 1 && Complete(c.profile) && c.transitions.None?
    ensures Defect(c) == Some(TransitionMissing(action)) <==>
              c.schemaVersion == 1 && Complete(c.profile) && c.transitions.Some? && FirstLacking(c, action)
  {
    BlankExactly(c.profile, field);
    if c.transitions.Some? {
      LackingExactly(c, action);
    }
  }

  // ---- What each action does ----

  lemma ActionsDiffer(i: nat, j: nat)
    requires i < j < |ACTIONS|
    ensures ACTIONS[i] != ACTIONS[j]
  {
  }

  lemma ActionFound(i: nat)
    requires i < |ACTIONS|
    ensures IndexOf(ACTIONS, ACTIONS[i]) == i
  {
    var k := IndexOf(ACTIONS, ACTIONS[i]);
    if k < i {
      ActionsDiffer(k, i);
    } else if i < k {
      ActionsDiffer(i, k);
    }
  }

  /** What every action does, padded with white space or not: a retry of a named provider
      queues that provider, an action of the table has the effect beside it, and any other
      text resolves the gate under its own name. */
  lemma TransitionExactly(action: string, i: nat)
    ensures "retry:" <= action ==> Transition(SHIPPED_TRANSITIONS, action) == "queue_provider_specific_recovery"
    ensures !("retry:" <= action) && i < |ACTIONS| && Trim(action) == ACTIONS[i] ==>
              Transition(SHIPPED_TRANSITIONS, action) == EFFECTS[i]
    ensures !("retry:" <= action) && Trim(action) !in ACTIONS ==>
              Transition(SHIPPED_TRANSITIONS, action) == "resolve_gate_with_" + if Trim(action) == "" then "response" else Trim(action)
  {
    if i < |ACTIONS| {
      ActionFound(i);
    }
  }

  // ---- Every contract that is built passes ----

  predicate StartsWithLetter(s: string) {
    s != "" && IsLower(s[0])
  }

  /** Every effect of the table starts with a letter. */
  predicate GoodTransitions(table: Transitions) {
    forall e :: e in table.effects ==> StartsWithLetter(e)
  }

  lemma GrantAndRetryEffectStarts(i: nat)
    requires i < |GRANT_AND_RETRY_EFFECTS|
    ensures GRANT_AND_RETRY_EFFECTS[i] != "" && IsLower(GRANT_AND_RETRY_EFFECTS[i][0])
  {
  }

  lemma VerdictEffectStarts(i: nat)
    requires i < |VERDICT_EFFECTS|
    ensures VERDICT_EFFECTS[i] != "" && IsLower(VERDICT_EFFECTS[i][0])
  {
  }

  lemma ClosingEffectStarts(i: nat)
    requires i < |CLOSING_EFFECTS|
    ensures CLOSING_EFFECTS[i] != "" && IsLower(CLOSING_EFFECTS[i][0])
  {
  }

  lemma ShippedTransitionsGood()
    ensures GoodTransitions(SHIPPED_TRANSITIONS)
  {
    forall i | 0 <= i < 8
      ensures StartsWithLetter(GRANT_AND_RETRY_EFFECTS[i])
      ensures StartsWithLetter(VERDICT_EFFECTS[i])
      ensures StartsWithLetter(CLOSING_EFFECTS[i])
    {
      GrantAndRetryEffectStarts(i);
      VerdictEffectStarts(i);
      ClosingEffectStarts(i);
    }
  }

  lemma LetterIsNotBlank(s: string)
    requires StartsWithLetter(s)
    ensures !Blank(s)
  {
    TrimEndPrefix(s[..1], s[1..]);
    assert s == s[..1] + s[1..];
  }

  lemma FixedTransitions(rest: string)
    ensures StartsWithLetter("queue_provider_specific_recovery") && StartsWithLetter("resolve_gate_with_" + rest)
  {
    assert ("resolve_gate_with_" + rest)[0] == 'r' && "queue_provider_specific_recovery"[0] == 'q';
  }

  /** Every action has a transition, the providers' retries and unknown ones too. */
  lemma TransitionNotBlank(table: Transitions, action: string)
    requires GoodTransitions(table)
    ensures !Blank(Transition(table, action))
  {
    var canonical := Trim(action);
    FixedTransitions(if canonical == "" then "response" else canonical);
    LetterIsNotBlank(Transition(table, action));
  }

  lemma EveryActionHasTransition(table: Transitions, allowed: seq<string>)
    requires GoodTransitions(table)
    ensures forall a :: a in allowed ==> HasTransition(TransitionsFor(table, allowed), a)
  {
    forall a | a in allowed ensures HasTransition(TransitionsFor(table, allowed), a) {
      TransitionNotBlank(table, a);
    }
  }

  lemma BuiltContract(cat: Catalog, table: Transitions, profiles: Gate -> Profile, p: Payload, g: Gate)
    requires GateFor(cat, p) == Ok(g)
    ensures AllowedFor(cat, p).Ok?
    ensures var allowed := AllowedFor(cat, p).value;
            ContractFor(cat, table, profiles, p) == Ok(Contract(1, profiles(g), Some(TransitionsFor(table, allowed)), allowed))
  {
  }

  function ProfileDefect(p: Profile): Option<Reason> {
    match FirstBlankField(p) case Some(field) => Some(FieldMissing(field)) case None => None
  }

  lemma NothingLacks(transitions: map<string, string>, allowed: seq<string>)
    requires forall a :: a in allowed ==> HasTransition(transitions, a)
    ensures FirstWithoutTransition(transitions, allowed) == None
  {
    FindsNothing((a: string) => !HasTransition(transitions, a), allowed);
  }

  lemma DefectWithTransitions(c: Contract)
    requires c.schemaVersion == 1 && c.transitions.Some?
    requires FirstWithoutTransition(c.transitions.value, c.allowed) == None
    ensures Defect(c) == ProfileDefect(c.profile)
  {
  }

  /** A contract built from an accepted payload fails validation only for a field that
      its gate's profile leaves blank, and for the first such field. */
  lemma BuiltContractDefect(cat: Catalog, table: Transitions, profiles: Gate -> Profile, p: Payload, g: Gate)
    requires GoodTransitions(table) && GateFor(cat, p) == Ok(g)
    ensures ContractFor(cat, table, profiles, p).Ok?
    ensures Defect(ContractFor(cat, table, profiles, p).value) == ProfileDefect(profiles(g))
  {
    BuiltContract(cat, table, profiles, p, g);
    EveryActionHasTransition(table, AllowedFor(cat, p).value);
    NothingLacks(TransitionsFor(table, AllowedFor(cat, p).value), AllowedFor(cat, p).value);
    DefectWithTransitions(ContractFor(cat, table, profiles, p).value);
  }

  /** A contract built from an accepted payload passes validation if and only if its
      gate's profile is complete, and what it allows has exactly one transition each. */
  lemma BuiltContractPasses(cat: Catalog, table: Transitions, profiles: Gate -> Profile, p: Payload, g: Gate)
    requires GoodTransitions(table) && GateFor(cat, p) == Ok(g)
    ensures ContractFor(cat, table, profiles, p).Ok?
    ensures Defect(ContractFor(cat, table, profiles, p).value) == None <==> Complete(profiles(g))
    ensures var c := ContractFor(cat, table, profiles, p).value;
            && AllowedFor(cat, p) == Ok(c.allowed) && c.transitions.Some?
            && (forall a :: a in c.transitions.value <==> a in c.allowed)
            && forall a :: a in c.allowed ==> c.transitions.value[a] == Transition(table, a)
  {
    BuiltContract(cat, table, profiles, p, g);
    BuiltContractDefect(cat, table, profiles, p, g);
    BlankExactly(profiles(g), UnresolvedFact);
  }
}
