/** Unattended answers: the policy that a gate's setting and the run's flags select,
    the answer it gives, and which resolutions it authorizes. */
module ApprovalPolicies {
  import opened Basics
  import opened Text
  import opened GateTable
  import opened HumanGates
  import ChoiceAgreement

  /** The saved settings; an unset one reads as the empty string. */
  type Settings = string -> string

  datatype Flags = Flags(scopeAuto: bool, autoApprove: bool, autoApprovePlan: bool)

  const NO_FLAGS := Flags(false, false, false)

  datatype Source = InteractiveRequired | ApprovalPolicy | ScopeModeAuto | CliAutoApprove

  datatype Decision = Decision(gate: Gate, policy: string, source: Source, answer: Option<string>)

  const EXPLICIT_POLICY_GATES: set<Gate> := {EnvironmentSetup, PushOffer}

  function PolicyKey(cat: Catalog, g: Gate): string {
    "approval_policy_" + cat.name(g)
  }

  /** The operator's standing policy for a gate. */
  function StandingPolicy(cat: Catalog, g: Gate, settings: Settings): string {
    if g == PlanApproval then
      if settings("plan_approval_mode") == "auto_approve" then "auto:approve" else "ask"
    else
      var saved := settings(PolicyKey(cat, g));
      if saved == "" then "ask" else saved
  }

  /** The action that a policy selects. */
  function SelectedAction(policy: string): Option<string> {
    if "auto:" <= policy && policy != "auto:" then Some(policy[5..]) else None
  }

  /** An action is answered when the payload offers it and its contract allows it. */
  function Answer(cat: Catalog, p: Payload, policy: string): Option<string> {
    match (SelectedAction(policy), OfferFor(cat, p), AllowedFor(cat, p))
    case (Some(a), Ok(offer), Ok(allowed)) => if a in offer && a in allowed then Some(a) else None
    case _ => None
  }

  /** The run flag that overrides a standing policy, if any. */
  function Override(cat: Catalog, g: Gate, standing: string, flags: Flags): Option<Source> {
    if flags.scopeAuto && g == FileScopeApproval then Some(ScopeModeAuto)
    else if flags.autoApprovePlan && g == PlanApproval then Some(CliAutoApprove)
    else if flags.autoApprove && standing == "ask" && g !in EXPLICIT_POLICY_GATES && "approve" in cat.actions(g) then
      Some(CliAutoApprove)
    else None
  }

  function Decide(cat: Catalog, p: Payload, settings: Settings, flags: Flags): Result<Decision, GateError> {
    var g :- GateFor(cat, p);
    if p.interactive then Ok(Decision(g, "ask", InteractiveRequired, None))
    else
      var standing := StandingPolicy(cat, g, settings);
      var override := Override(cat, g, standing, flags);
      var policy := if override.Some? then "auto:approve" else standing;
      Ok(Decision(g, policy, if override.Some? then override.value else ApprovalPolicy, Answer(cat, p, policy)))
  }

  /** The decision as the code reaches it, reassigning `policy` and `source`. */
  method PolicyForPayload(cat: Catalog, p: Payload, settings: Settings, flags: Flags)
    returns (decision: Result<Decision, GateError>)
    ensures decision == Decide(cat, p, settings, flags)
  {
    var named := GateFor(cat, p);
    if named.Err? {
      return Err(named.error);
    }
    var g := named.value;
    if p.interactive {
      return Ok(Decision(g, "ask", InteractiveRequired, None));
    }
    var policy;
    if g == PlanApproval {
      policy := if settings("plan_approval_mode") == "auto_approve" then "auto:approve" else "ask";
    } else {
      policy := settings(PolicyKey(cat, g));
      if policy == "" {
        policy := "ask";
      }
    }
    var source := ApprovalPolicy;
    var saved := policy != "ask";
    if flags.scopeAuto && g == FileScopeApproval {
      policy := "auto:approve";
      source := ScopeModeAuto;
    } else if (flags.autoApprovePlan && g == PlanApproval)
           || (flags.autoApprove && !saved && g !in EXPLICIT_POLICY_GATES && "approve" in cat.actions(g)) {
      policy := "auto:approve";
      source := CliAutoApprove;
    }
    return Ok(Decision(g, policy, source, Answer(cat, p, policy)));
  }

  // ---- Who decides, and what ----

  /** Whether `--auto-approve` may decide a gate: nothing is saved for it, and it
      approves and is neither an installer nor a publication. */
  predicate FillsDefault(cat: Catalog, g: Gate, settings: Settings) {
    StandingPolicy(cat, g, settings) == "ask" && g !in EXPLICIT_POLICY_GATES && "approve" in cat.actions(g)
  }

  /** Who decides a gate, in every case; what the policy then is; and which action is
      answered: exactly the one that this policy selects, the payload offers and its
      contract allows.  A required person comes first, then the flag that names the gate,
      then a saved policy, and the generic flag only fills a default. */
  lemma DecisionExactly(cat: Catalog, p: Payload, g: Gate, settings: Settings, flags: Flags, a: string)
    requires GateFor(cat, p) == Ok(g)
    ensures Decide(cat, p, settings, flags).Ok? && OfferFor(cat, p).Ok? && AllowedFor(cat, p).Ok?
    ensures var d := Decide(cat, p, settings, flags).value;
            var scope := flags.scopeAuto && g == FileScopeApproval;
            var plan := flags.autoApprovePlan && g == PlanApproval;
            var filled := flags.autoApprove && FillsDefault(cat, g, settings);
            && d.gate == g
            && (d.source == InteractiveRequired <==> p.interactive)
            && (d.source == ScopeModeAuto <==> !p.interactive && scope)
            && (d.source == CliAutoApprove <==> !p.interactive && !scope && (plan || filled))
            && (match d.source
                case InteractiveRequired => d.policy == "ask"
                case ApprovalPolicy => d.policy == StandingPolicy(cat, g, settings)
                case _ => d.policy == "auto:approve")
            && (d.answer == Some(a) <==>
                  && !p.interactive && d.policy == "auto:" + a && a != ""
                  && a in OfferFor(cat, p).value && a in AllowedFor(cat, p).value)
  {
    GateMeansOffer(cat, p);
    AnswerIs(cat, p, Decide(cat, p, settings, flags).value.policy, a);
  }

  // ---- The settings decide ----

  /** Nothing is saved for the gate: plan approval has a setting of its own, and every
      other gate's setting is empty or "ask". */
  predicate NothingSaved(cat: Catalog, g: Gate, settings: Settings) {
    if g.PlanApproval? then settings("plan_approval_mode") != "auto_approve"
    else settings("approval_policy_" + cat.name(g)) in ["", "ask"]
  }

  lemma StandingRead(cat: Catalog, g: Gate, settings: Settings)
    ensures NothingSaved(cat, g, settings) <==> StandingPolicy(cat, g, settings) == "ask"
    ensures !NothingSaved(cat, g, settings) ==>
              StandingPolicy(cat, g, settings)
              == if g.PlanApproval? then "auto:approve" else settings("approval_policy_" + cat.name(g))
  {
    assert "auto:approve"[1] == 'u' && "ask"[1] == 's';
  }

  /** The policy read off the raw settings and flags.  A flag that names the gate
      approves; otherwise what is saved stands word for word, "fail_closed" and
      "auto:reject" too; and `--auto-approve` only fills in for what is not saved, at a
      gate that approves and neither installs nor publishes. */
  lemma PolicyBySettings(cat: Catalog, p: Payload, g: Gate, settings: Settings, flags: Flags)
    requires GateFor(cat, p) == Ok(g) && !p.interactive
    ensures Decide(cat, p, settings, flags).Ok?
    ensures var policy := Decide(cat, p, settings, flags).value.policy;
            if flags.scopeAuto && g.FileScopeApproval? then policy == "auto:approve"
            else if flags.autoApprovePlan && g.PlanApproval? then policy == "auto:approve"
            else if NothingSaved(cat, g, settings) then
              policy == if flags.autoApprove && "approve" in cat.actions(g) && !g.EnvironmentSetup? && !g.PushOffer?
                        then "auto:approve" else "ask"
            else policy == if g.PlanApproval? then "auto:approve" else settings("approval_policy_" + cat.name(g))
  {
    StandingRead(cat, g, settings);
    DecisionExactly(cat, p, g, settings, flags, "");
  }

  /** A standing approval of plans: without flags a plan is answered, with `approve` and
      nothing else, if and only if no person is required, the setting says so and the
      gate offers it. */
  lemma PlanAnswered(cat: Catalog, p: Payload, settings: Settings, a: string)
    requires Sound(cat) && GateFor(cat, p) == Ok(PlanApproval)
    ensures Decide(cat, p, settings, NO_FLAGS).Ok? && OfferFor(cat, p).Ok?
    ensures Decide(cat, p, settings, NO_FLAGS).value.answer == Some(a) <==>
              && !p.interactive && settings("plan_approval_mode") == "auto_approve"
              && a == "approve" && a in OfferFor(cat, p).value
  {
    ChoiceAgreement.OfferedIsAllowed(cat, p, PlanApproval);
    DecisionExactly(cat, p, PlanApproval, settings, NO_FLAGS, a);
    if !p.interactive {
      PolicyBySettings(cat, p, PlanApproval, settings, NO_FLAGS);
      AutoPrefixCancels(a);
    }
  }

  lemma AutoPrefixCancels(a: string)
    ensures "auto:approve" == "auto:" + a <==> a == "approve"
    ensures "ask" != "auto:" + a
  {
    SelectedActionIs("auto:approve", a);
    SelectedActionIs("auto:approve", "approve");
    assert "auto:approve" == "auto:" + "approve";
    assert "ask"[1] == 's' && ("auto:" + a)[1] == 'u';
  }

  // ---- Authorization ----

  datatype Resolution = Resolution(source: string, unattended: bool, action: string)

  function Authorized(cat: Catalog, p: Payload, r: Resolution, settings: Settings): Result<bool, GateError> {
    if r.source == "human" && !r.unattended then Ok(true)
    else if r.source != "approval_policy" then Ok(false)
    else
      var d :- Decide(cat, p, settings, NO_FLAGS);
      Ok(d.answer == Some(r.action))
  }

  lemma SelectedActionIs(policy: string, a: string)
    ensures SelectedAction(policy) == Some(a) <==> policy == "auto:" + a && a != ""
  {
    if "auto:" <= policy {
      assert policy == "auto:" + policy[5..];
    }
    assert ("auto:" + a)[5..] == a;
  }

  lemma AnswerIs(cat: Catalog, p: Payload, policy: string, a: string)
    requires OfferFor(cat, p).Ok? && AllowedFor(cat, p).Ok?
    ensures Answer(cat, p, policy) == Some(a) <==>
              policy == "auto:" + a && a != "" && a in OfferFor(cat, p).value && a in AllowedFor(cat, p).value
  {
    SelectedActionIs(policy, a);
  }

  lemma GateMeansOffer(cat: Catalog, p: Payload)
    requires GateFor(cat, p).Ok?
    ensures OfferFor(cat, p).Ok? && AllowedFor(cat, p).Ok?
  {
  }

  /** A resolution is authorized if and only if a person gave it, or the standing
      policy of its gate selects that same action, the gate offers and allows it and
      does not insist on a person. */
  lemma AuthorizedExactly(cat: Catalog, p: Payload, g: Gate, r: Resolution, settings: Settings)
    requires GateFor(cat, p) == Ok(g)
    ensures OfferFor(cat, p).Ok? && AllowedFor(cat, p).Ok?
    ensures Authorized(cat, p, r, settings) == Ok(true) <==>
              || (r.source == "human" && !r.unattended)
              || (&& r.source == "approval_policy" && !p.interactive
                  && StandingPolicy(cat, g, settings) == "auto:" + r.action && r.action != ""
                  && r.action in OfferFor(cat, p).value && r.action in AllowedFor(cat, p).value)
  {
    GateMeansOffer(cat, p);
    AnswerIs(cat, p, StandingPolicy(cat, g, settings), r.action);
  }

  /** On a plan, a resolution that no person gave is authorized if and only if the
      setting approves plans, no person is required and the gate offers the approval. */
  lemma PlanAuthorized(cat: Catalog, p: Payload, r: Resolution, settings: Settings)
    requires Sound(cat) && GateFor(cat, p) == Ok(PlanApproval) && (r.source != "human" || r.unattended)
    ensures OfferFor(cat, p).Ok?
    ensures Authorized(cat, p, r, settings) == Ok(true) <==>
              && r.source == "approval_policy" && r.action == "approve"
              && settings("plan_approval_mode") == "auto_approve"
              && !p.interactive && "approve" in OfferFor(cat, p).value
  {
    GateMeansOffer(cat, p);
    PlanAnswered(cat, p, settings, r.action);
  }

  function SourceName(s: Source): string {
    match s
    case InteractiveRequired => "interactive_required"
    case ApprovalPolicy => "approval_policy"
    case ScopeModeAuto => "scope_mode_auto"
    case CliAutoApprove => "cli_auto_approve"
  }

  lemma SourceNamesDiffer(s: Source)
    ensures SourceName(s) != "human" && (SourceName(s) == "approval_policy" <==> s == ApprovalPolicy)
  {
    assert SourceName(s)[0] == match s
      case InteractiveRequired => 'i'
      case ApprovalPolicy => 'a'
      case ScopeModeAuto => 's'
      case CliAutoApprove => 'c';
  }

  /** A recorded unattended answer is authorized afterwards exactly when the standing
      policy gave it: an answer that a run flag gave never counts as authorization. */
  lemma OnlyStandingPolicyAuthorizes(cat: Catalog, p: Payload, settings: Settings, flags: Flags, unattended: bool)
    requires Decide(cat, p, settings, flags).Ok? && Decide(cat, p, settings, flags).value.answer.Some?
    ensures var d := Decide(cat, p, settings, flags).value;
            (Authorized(cat, p, Resolution(SourceName(d.source), unattended, d.answer.value), settings) == Ok(true)
             <==> d.source == ApprovalPolicy)
  {
    SourceNamesDiffer(Decide(cat, p, settings, flags).value.source);
  }

  // ---- The other two unattended resolvers ----

  /** The unattended answer of the prompt itself, which does not ask the contract. */
  function PromptAnswer(cat: Catalog, p: Payload, policy: string): Result<Option<string>, GateError> {
    if p.interactive then Ok(None)
    else match SelectedAction(policy)
      case None => Ok(None)
      case Some(a) =>
        var offer :- OfferFor(cat, p);
        Ok(if a in offer then Some(a) else None)
  }

  lemma DecidedAnswer(cat: Catalog, p: Payload, g: Gate, settings: Settings, flags: Flags)
    requires GateFor(cat, p) == Ok(g)
    ensures Decide(cat, p, settings, flags).Ok?
    ensures var d := Decide(cat, p, settings, flags).value;
            d.answer == if p.interactive then None else Answer(cat, p, d.policy)
  {
  }

  lemma ClosedPromptAgrees(cat: Catalog, p: Payload, g: Gate, policy: string)
    requires Sound(cat) && GateFor(cat, p) == Ok(g) && !FreeText(g) && !p.interactive
    ensures PromptAnswer(cat, p, policy) == Ok(Answer(cat, p, policy))
  {
    ChoiceAgreement.OfferedIsAllowed(cat, p, g);
  }

  /** A free-text gate's contract allows `respond` and nothing else. */
  lemma FreeTextPromptAgrees(cat: Catalog, p: Payload, g: Gate, policy: string)
    requires Sound(cat) && GateFor(cat, p) == Ok(g) && FreeText(g) && !p.interactive
    ensures OfferFor(cat, p).Ok?
    ensures PromptAnswer(cat, p, policy) == Ok(Answer(cat, p, policy)) <==> AnswersFreeText(policy, OfferFor(cat, p).value)
  {
    GateMeansOffer(cat, p);
    ChoiceAgreement.FreeTextAllowsRespond(cat, p, g);
  }

  /** What a policy selects is nothing, `respond`, or nothing that is offered. */
  predicate AnswersFreeText(policy: string, offer: seq<string>) {
    match SelectedAction(policy)
    case None => true
    case Some(a) => a == "respond" || a !in offer
  }

  /** The prompt and the policy give the same answer if and only if a person is
      required, the gate has a closed list, or the policy selects nothing but `respond`
      from what a free-text gate offers. */
  lemma PromptAgreesWithPolicy(cat: Catalog, p: Payload, g: Gate, settings: Settings, flags: Flags)
    requires Sound(cat) && GateFor(cat, p) == Ok(g)
    ensures Decide(cat, p, settings, flags).Ok? && OfferFor(cat, p).Ok?
    ensures var d := Decide(cat, p, settings, flags).value;
            PromptAnswer(cat, p, d.policy) == Ok(d.answer) <==>
              p.interactive || !FreeText(g) || AnswersFreeText(d.policy, OfferFor(cat, p).value)
  {
    GateMeansOffer(cat, p);
    DecidedAnswer(cat, p, g, settings, flags);
    var policy := Decide(cat, p, settings, flags).value.policy;
    if !p.interactive {
      if FreeText(g) {
        FreeTextPromptAgrees(cat, p, g, policy);
      } else {
        ClosedPromptAgrees(cat, p, g, policy);
      }
    }
  }

  lemma AskedChoiceOffered(cat: Catalog, p: Payload, g: Gate, choice: string)
    requires Sound(cat) && GateFor(cat, p) == Ok(g) && FreeText(g)
    requires p.choices == Some(Texts([choice])) && choice != "" && Trimmed(choice)
    ensures OfferFor(cat, p) == Ok([choice])
  {
    NormalRoundTrip([choice], Some(CHOICE_LIMIT));
    ChoiceAgreement.FreeTextOffer(cat, p, g);
  }

  /** They part on a clarification that offers a choice which its setting selects: the
      prompt answers it and the policy does not. */
  lemma PromptAnswersAClarification(cat: Catalog, p: Payload, settings: Settings, choice: string)
    requires Sound(cat) && GateFor(cat, p) == Ok(Clarification) && !p.interactive
    requires p.choices == Some(Texts([choice])) && choice != "" && choice != "respond" && Trimmed(choice)
    requires settings(PolicyKey(cat, Clarification)) == "auto:" + choice
    ensures Decide(cat, p, settings, NO_FLAGS).Ok? && Decide(cat, p, settings, NO_FLAGS).value.answer == None
    ensures PromptAnswer(cat, p, Decide(cat, p, settings, NO_FLAGS).value.policy) == Ok(Some(choice))
  {
    AskedChoiceOffered(cat, p, Clarification, choice);
    ChoiceAgreement.FreeTextAllowsRespond(cat, p, Clarification);
    SelectedActionIs("auto:" + choice, choice);
  }

  function ReviewType(p: Payload): string {
    if p.reviewType.Some? then Trim(p.reviewType.value) else ""
  }

  predicate NoSubtype(p: Payload) {
    p.subtype == None || p.subtype == Some("")
  }

  /** The scope mode's own answer, which looks at the payload but not at its gate. */
  function ScopeModeAnswer(p: Payload, scopeAuto: bool): Option<string> {
    if !scopeAuto || p.interactive then None
    else if !NoSubtype(p) then None
    else if ReviewType(p) == "file_scope_approval" then Some("approve")
    else if ReviewType(p) == "" && p.fileRequests > 0 then Some("approve")
    else None
  }

  const SCOPE_AUTO := Flags(true, false, false)

  /** The scope gate's list, and its name, as the resolvers spell them. */
  predicate ScopeGate(cat: Catalog) {
    cat.name(FileScopeApproval) == "file_scope_approval" && "approve" in cat.actions(FileScopeApproval)
  }

  lemma ShippedScopeGate()
    ensures ScopeGate(SHIPPED)
  {
    assert Actions(FileScopeApproval)[0] == "approve";
  }

  /** A closed gate that nothing narrows offers and allows its whole table. */
  lemma PlainGateOffer(cat: Catalog, p: Payload, g: Gate)
    requires Sound(cat) && GateFor(cat, p) == Ok(g) && !FreeText(g) && g != OneShotFileScope
    requires g !in ORDERED_REVIEWS && g != MergeFailureRecovery && g !in DISPOSITIONS
    ensures OfferFor(cat, p) == Ok(cat.actions(g)) && AllowedFor(cat, p) == Ok(cat.actions(g))
  {
    ChoiceAgreement.OfferedIsAllowed(cat, p, g);
    ChoiceAgreement.ClosedOffer(cat, p, g);
    ChoiceAgreement.NamesGate(cat, p, g);
    ChoiceAgreement.NarrowedIsSubsequence(cat, p, g);
  }

  lemma ScopeGateIsPlain()
    ensures FileScopeApproval !in ORDERED_REVIEWS && FileScopeApproval !in DISPOSITIONS
  {
  }

  lemma AutoApproveSpelled()
    ensures "auto:approve" == "auto:" + "approve"
  {
  }

  lemma ScopeGateAnswers(cat: Catalog, p: Payload)
    requires Sound(cat) && ScopeGate(cat) && GateFor(cat, p) == Ok(FileScopeApproval)
    ensures Answer(cat, p, "auto:approve") == Some("approve")
  {
    ScopeGateIsPlain();
    PlainGateOffer(cat, p, FileScopeApproval);
    AutoApproveSpelled();
    AnswerIs(cat, p, "auto:approve", "approve");
  }

  lemma ScopeSource(cat: Catalog, p: Payload, g: Gate, settings: Settings)
    requires GateFor(cat, p) == Ok(g) && !p.interactive
    ensures Decide(cat, p, settings, SCOPE_AUTO).Ok?
    ensures Decide(cat, p, settings, SCOPE_AUTO).value.source == ScopeModeAuto <==> g == FileScopeApproval
    ensures g == FileScopeApproval ==>
              Decide(cat, p, settings, SCOPE_AUTO).value.answer == Answer(cat, p, "auto:approve")
  {
  }

  /** In scope mode the policy approves the scope gate, and no other gate by that
      mode. */
  lemma ScopeDecision(cat: Catalog, p: Payload, g: Gate, settings: Settings)
    requires Sound(cat) && ScopeGate(cat) && GateFor(cat, p) == Ok(g) && !p.interactive
    ensures Decide(cat, p, settings, SCOPE_AUTO).Ok?
    ensures Decide(cat, p, settings, SCOPE_AUTO).value.source == ScopeModeAuto <==> g == FileScopeApproval
    ensures g == FileScopeApproval ==> Decide(cat, p, settings, SCOPE_AUTO).value.answer == Some("approve")
  {
    ScopeSource(cat, p, g, settings);
    if g == FileScopeApproval {
      ScopeGateAnswers(cat, p);
    }
  }

  /** A review type that is there is the gate's name. */
  lemma ReviewTypeNamesGate(cat: Catalog, p: Payload, g: Gate)
    requires SoundNames(cat) && GateFor(cat, p) == Ok(g) && ReviewType(p) != ""
    ensures ReviewType(p) == cat.name(g)
  {
    assert ReviewType(p) in Identity(p.reviewType);
    assert ReviewType(p) in Identities(p);
    GateForIds(cat, p, g);
  }

  /** What the scope mode's own resolver approves, in terms of the gate. */
  lemma ScopeModeApproves(cat: Catalog, p: Payload, g: Gate)
    requires SoundNames(cat) && ScopeGate(cat) && GateFor(cat, p) == Ok(g) && !p.interactive
    ensures ScopeModeAnswer(p, true) ==
              if NoSubtype(p) && (if ReviewType(p) != "" then g == FileScopeApproval else p.fileRequests > 0)
              then Some("approve") else None
  {
    assert "" != "file_scope_approval";
    if ReviewType(p) != "" {
      ReviewTypeNamesGate(cat, p, g);
      if ReviewType(p) == "file_scope_approval" {
        NameIsGate(cat, g, FileScopeApproval);
      }
    }
  }

  /** Outside the scope mode, and where a person is required, its resolver is silent. */
  lemma ScopeModeSilent(p: Payload, scopeAuto: bool)
    ensures !scopeAuto || p.interactive ==> ScopeModeAnswer(p, scopeAuto) == None
  {
  }

  /** Both resolvers approve a payload by the scope mode, or neither does.  A standing
      policy may approve it as well; that is not the mode's doing. */
  predicate ScopeModeAgrees(cat: Catalog, p: Payload, settings: Settings)
    requires GateFor(cat, p).Ok?
  {
    (Decide(cat, p, settings, SCOPE_AUTO).value.source == ScopeModeAuto) <==> ScopeModeAnswer(p, true).Some?
  }

  /** On every payload of every gate, the two resolvers agree in scope mode if and
      only if a person is required, or a payload of the scope gate has no subtype and
      a review type or file requests, or one of another gate has a subtype, a review
      type or no file requests. */
  lemma ScopeModeAgreesExactly(cat: Catalog, p: Payload, g: Gate, settings: Settings)
    requires Sound(cat) && ScopeGate(cat) && GateFor(cat, p) == Ok(g)
    ensures ScopeModeAgrees(cat, p, settings) <==>
              || p.interactive
              || (if g == FileScopeApproval then NoSubtype(p) && (ReviewType(p) != "" || p.fileRequests > 0)
                  else !(NoSubtype(p) && ReviewType(p) == "" && p.fileRequests > 0))
    ensures ScopeModeAnswer(p, true) in [None, Some("approve")]
    ensures Decide(cat, p, settings, SCOPE_AUTO).value.source == ScopeModeAuto ==>
              Decide(cat, p, settings, SCOPE_AUTO).value.answer == Some("approve")
  {
    if !p.interactive {
      ScopeDecision(cat, p, g, settings);
      ScopeModeApproves(cat, p, g);
    }
  }

  /** A payload known by its gate kind alone. */
  function OnlyKind(name: string, fileRequests: nat): Payload {
    Payload(Some(name), None, None, None, fileRequests, None, None, None, false, false, false)
  }

  lemma OnlyKindGate(cat: Catalog, g: Gate, fileRequests: nat)
    requires SoundNames(cat)
    ensures GateFor(cat, OnlyKind(cat.name(g), fileRequests)) == Ok(g)
  {
    var p := OnlyKind(cat.name(g), fileRequests);
    TrimmedIsFixed(cat.name(g));
    assert Identities(p) == [cat.name(g)];
    GateForIds(cat, p, g);
  }

  /** They part in both directions on payloads known by their gate kind alone: the
      scope mode approves a plan that lists files, and passes over a scope gate that
      lists none. */
  lemma ScopeModePartsBothWays(cat: Catalog, settings: Settings)
    requires Sound(cat) && ScopeGate(cat)
    ensures var plan := OnlyKind(cat.name(PlanApproval), 1);
            && GateFor(cat, plan) == Ok(PlanApproval)
            && ScopeModeAnswer(plan, true) == Some("approve")
            && Decide(cat, plan, settings, SCOPE_AUTO).value.source == ApprovalPolicy
    ensures var scope := OnlyKind(cat.name(FileScopeApproval), 0);
            && GateFor(cat, scope) == Ok(FileScopeApproval)
            && ScopeModeAnswer(scope, true) == None
            && Decide(cat, scope, settings, SCOPE_AUTO).value.source == ScopeModeAuto
  {
    OnlyKindGate(cat, PlanApproval, 1);
    OnlyKindGate(cat, FileScopeApproval, 0);
    var plan, scope := OnlyKind(cat.name(PlanApproval), 1), OnlyKind(cat.name(FileScopeApproval), 0);
    ScopeDecision(cat, plan, PlanApproval, settings);
    ScopeDecision(cat, scope, FileScopeApproval, settings);
    ScopeModeApproves(cat, plan, PlanApproval);
    ScopeModeApproves(cat, scope, FileScopeApproval);
  }

  // ---- The settings ----

  function AutoOptions(actions: seq<string>): seq<string> {
    if actions == [] then []
    else (if actions[0] == "respond" then [] else ["auto:" + actions[0]]) + AutoOptions(actions[1..])
  }

  /** The values a gate's setting may take. */
  function PolicyOptions(cat: Catalog, g: Gate): seq<string> {
    ["ask"] + AutoOptions(cat.actions(g)) + ["fail_closed"]
  }

  lemma {:induction false} AutoOptionsAre(actions: seq<string>, option: string)
    ensures option in AutoOptions(actions) <==> exists a :: a in actions && a != "respond" && option == "auto:" + a
  {
    if actions != [] {
      AutoOptionsAre(actions[1..], option);
      if a :| a in actions && a != "respond" && option == "auto:" + a {
        assert a == actions[0] || a in actions[1..];
      }
    }
  }

  /** A setting may ask, fail closed, or select one of its gate's actions but `respond`. */
  lemma OptionsExactly(cat: Catalog, g: Gate, option: string)
    ensures option in PolicyOptions(cat, g) <==>
              || option == "ask" || option == "fail_closed"
              || exists a :: a in cat.actions(g) && a != "respond" && option == "auto:" + a
  {
    AutoOptionsAre(cat.actions(g), option);
  }

  lemma KeyPrefixCancels(a: string, b: string)
    requires "approval_policy_" + a == "approval_policy_" + b
    ensures a == b
  {
    var prefix := "approval_policy_";
    assert a == (prefix + a)[|prefix|..] && b == (prefix + b)[|prefix|..];
  }

  /** No two gates share a setting. */
  lemma PolicyKeysDiffer(cat: Catalog, a: Gate, b: Gate)
    requires SoundNames(cat) && PolicyKey(cat, a) == PolicyKey(cat, b)
    ensures a == b
  {
    KeyPrefixCancels(cat.name(a), cat.name(b));
    NameIsGate(cat, a, b);
  }

  lemma FixedOptions(a: string)
    ensures "ask" != "auto:" + a && "fail_closed" != "auto:" + a
  {
    assert "ask"[1] != ("auto:" + a)[1] && "fail_closed"[0] != ("auto:" + a)[0];
  }

  /** The options of a setting are complete and no more: a standing policy that ever
      answers a closed gate is one of them, and a listed action answers exactly the
      payloads that offer it. */
  lemma OptionsAnswerTheirGate(cat: Catalog, p: Payload, g: Gate, settings: Settings, a: string)
    requires Sound(cat) && GateFor(cat, p) == Ok(g) && !FreeText(g) && g != OneShotFileScope && g != PlanApproval
    requires !p.interactive && settings(PolicyKey(cat, g)) == "auto:" + a
    ensures Decide(cat, p, settings, NO_FLAGS).Ok? && OfferFor(cat, p).Ok?
    ensures Decide(cat, p, settings, NO_FLAGS).value.answer == Some(a) <==> a in OfferFor(cat, p).value
    ensures a in OfferFor(cat, p).value ==> "auto:" + a in PolicyOptions(cat, g)
  {
    FixedOptions(a);
    ChoiceAgreement.OfferedIsAllowed(cat, p, g);
    ChoiceAgreement.OfferValidates(cat, p, g);
    OfferedOption(cat, g, OfferFor(cat, p).value, a);
    AnswerIs(cat, p, "auto:" + a, a);
  }

  lemma OfferedOption(cat: Catalog, g: Gate, offer: seq<string>, a: string)
    requires SoundActions(cat) && !FreeText(g) && Subsequence(offer, cat.actions(g))
    ensures a in offer ==> a != "" && "auto:" + a in PolicyOptions(cat, g)
  {
    assert GoodTable(g, cat.actions(g));
    if a in offer {
      var at :| Embeds(at, offer, cat.actions(g));
      assert a in cat.actions(g);
      AutoOptionsAre(cat.actions(g), "auto:" + a);
    }
  }
}
