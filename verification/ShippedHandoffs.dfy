/** The handoff schemas as they ship, and the theorem of HandoffTools for each. */
module ShippedHandoffs {
  import opened Basics
  import opened JsonSchema
  import opened HandoffPolicy
  import opened HandoffProjection
  import opened ProjectionExactness
  import opened ProjectionLaws
  import opened HandoffTools

  /** The nested content of the canonical schema that the projection never enters. */
  datatype Contents = Contents(
    completion: map<string, Schema>,
    confidence: Schema,
    coverage: Schema,
    handoffs: Schema,
    compactLimits: Schema,
    reportClaims: Schema,
    noScopeSeeds: Schema,
    noOutputRoot: Schema,
    plannerTasks: Schema)

  predicate ArraySchema(s: Schema) {
    s.facets.types == Some({TArray})
  }

  predicate PlainContents(c: Contents) {
    && PlainFields(c.completion)
    && ArraySchema(c.handoffs)
    && !HasProfileConstraint(c.confidence) && !HasProfileConstraint(c.coverage) && !HasProfileConstraint(c.handoffs)
    && !HasProfileConstraint(c.compactLimits) && !HasProfileConstraint(c.reportClaims)
    && !HasProfileConstraint(c.noScopeSeeds) && !HasProfileConstraint(c.noOutputRoot)
    && !HasProfileConstraint(c.plannerTasks)
  }

  const ALL_PROFILES := [
    RESEARCHER_PIPELINE, RESEARCHER_REPORT, PLANNER_PLAN, DEV_RESULT,
    ARTIFICER_RESULT, ASSESSOR_VERDICT, CITATION_SYNTHESIS, RESEARCH_INVESTIGATION]

  const ALL_OUTCOMES := [
    "success", "complete", "partial", "gap", "input_required", "failed", "blocked",
    "pass", "fail", "needs_replan", "needs_review"]

  /** The completion form of dev, fix and artificer work: closed, without metadata. */
  function CompletionForm(fields: map<string, Schema>): Schema {
    EMPTY_SCHEMA.(
      facets := NO_FACETS.(types := Some({TObject})), properties := Table(fields), additional := Allowed(false))
  }

  /** A rule on the profile that constrains the handoffs. */
  function HandoffsRule(rule: Schema, content: Schema): Schema {
    When(rule, Present(OnlyProperty("handoffs", content)), Absent)
  }

  function ConfidenceRule(): Schema {
    When(Is(ASSESSOR_VERDICT), Present(Requiring(["confidence"])), Present(Negation(Requiring(["confidence"]))))
  }

  /** The six rules of the canonical schema. */
  function AgentHandoffRules(c: Contents): seq<Schema> {
    [ HandoffsRule(Negation(Is(RESEARCHER_REPORT)), c.compactLimits),
      HandoffsRule(Is(RESEARCHER_REPORT), c.reportClaims),
      ConfidenceRule(),
      HandoffsRule(Negation(Among([PLANNER_PLAN, RESEARCHER_PIPELINE, RESEARCHER_REPORT])), c.noScopeSeeds),
      HandoffsRule(Negation(Is(PLANNER_PLAN)), c.noOutputRoot),
      HandoffsRule(Is(PLANNER_PLAN), c.plannerTasks) ]
  }

  function SemanticFields(c: Contents): map<string, Schema> {
    map["confidence" := c.confidence, "coverage" := c.coverage, "handoffs" := c.handoffs]
  }

  function SemanticForm(c: Contents): Schema {
    HandoffObject(
      SemanticFields(c),
      true, ALL_PROFILES, ALL_OUTCOMES, ["protocol", "profile", "outcome", "handoffs"], List(AgentHandoffRules(c)))
  }

  /** The parameters of `agent_handoff`. */
  function AgentHandoff(c: Contents): Schema {
    EMPTY_SCHEMA.(oneOf := List([CompletionForm(c.completion), SemanticForm(c)]))
  }

  function ResearcherRules(pipelineLimits: Schema, reportClaims: Schema): seq<Schema> {
    [HandoffsRule(Is(RESEARCHER_PIPELINE), pipelineLimits), HandoffsRule(Is(RESEARCHER_REPORT), reportClaims)]
  }

  /** The researcher envelope, with its two rules. */
  function ResearcherEnvelope(fields: map<string, Schema>, pipelineLimits: Schema, reportClaims: Schema): Schema {
    HandoffObject(
      fields, true, [RESEARCHER_PIPELINE, RESEARCHER_REPORT], ["success", "gap", "input_required", "complete"],
      ["protocol", "profile", "outcome", "handoffs"],
      List(ResearcherRules(pipelineLimits, reportClaims)))
  }

  function AssessorEnvelope(fields: map<string, Schema>): Schema {
    HandoffObject(
      fields, true, [ASSESSOR_VERDICT], ["pass", "fail", "needs_replan", "needs_review", "blocked"],
      ["protocol", "profile", "outcome", "confidence", "handoffs"], NoList)
  }

  function CitationEnvelope(fields: map<string, Schema>): Schema {
    HandoffObject(
      fields, true, [CITATION_SYNTHESIS], ["complete", "partial", "failed"],
      ["protocol", "profile", "outcome", "handoffs"], NoList)
  }

  function CompactLimits(summaryLimit: Schema, claimsLimit: Schema): Schema {
    EMPTY_SCHEMA.(properties := Table(map["summary" := summaryLimit, "claims" := claimsLimit]))
  }

  const SOME_CLAIM := EMPTY_SCHEMA.(facets := NO_FACETS.(minItems := Some(1)))

  /** Pipeline limits on summary and claims, and at least one claim in a report. */
  function CompactRules(summaryLimit: Schema, claimsLimit: Schema): seq<Schema> {
    [ When(Is(RESEARCHER_PIPELINE), Present(CompactLimits(summaryLimit, claimsLimit)), Absent),
      When(Is(RESEARCHER_REPORT), Present(OnlyProperty("claims", SOME_CLAIM)), Absent) ]
  }

  /** The compact researcher form. */
  function ResearcherCompact(fields: map<string, Schema>, summaryLimit: Schema, claimsLimit: Schema): Schema {
    HandoffObject(
      fields, false, [RESEARCHER_PIPELINE, RESEARCHER_REPORT], ["success", "gap", "input_required", "complete"],
      ["profile", "outcome", "summary"], List(CompactRules(summaryLimit, claimsLimit)))
  }

  /** The report-only compact form lists one profile and one outcome. */
  function ReportCompact(fields: map<string, Schema>): Schema {
    HandoffObject(fields, false, [RESEARCHER_REPORT], ["complete"], ["profile", "outcome", "summary"], NoList)
  }

  // ---- Their forms ----

  lemma EnvelopeObject(
    rx: Regex, fields: map<string, Schema>, profiles: seq<string>, outcomes: seq<string>,
    required: seq<string>, rules: Slots, d: Document)
    requires "handoffs" in fields && ArraySchema(fields["handoffs"])
    requires "handoffs" in required && "profile" in required
    requires Accepts(rx, HandoffObject(fields, true, profiles, outcomes, required, rules), Obj(d))
    ensures HasHandoffs(d) && "profile" in d
  {
    var s := HandoffObject(fields, true, profiles, outcomes, required, rules);
    assert s.properties.entries["handoffs"] == fields["handoffs"];
    assert Accepts(rx, fields["handoffs"], d["handoffs"]);
  }

  lemma FlatObject(
    rx: Regex, fields: map<string, Schema>, profiles: seq<string>, outcomes: seq<string>,
    required: seq<string>, rules: Slots)
    requires "handoffs" !in fields && "summary" in required && "profile" in required
    ensures FlatForm(rx, HandoffObject(fields, false, profiles, outcomes, required, rules))
  {
    var s := HandoffObject(fields, false, profiles, outcomes, required, rules);
    forall d: Document | Accepts(rx, s, Obj(d))
      ensures "summary" in d && "handoffs" !in d && "profile" in d
    {
      assert AcceptsFields(rx, s, d);
      assert !Listed(s.properties, "handoffs");
    }
  }

  lemma AgentHandoffEnvelope(rx: Regex, c: Contents, d: Document)
    requires PlainContents(c) && "outcome" in d && Accepts(rx, AgentHandoff(c), Obj(d))
    ensures HasHandoffs(d) && "profile" in d
  {
    var forms := [CompletionForm(c.completion), SemanticForm(c)];
    assert !Accepts(rx, forms[0], Obj(d)) by {
      assert !Listed(forms[0].properties, "outcome");
    }
    assert ExactlyOne(Verdicts(rx, forms, Obj(d)));
    assert Accepts(rx, forms[1], Obj(d));
    EnvelopeObject(rx, SemanticFields(c),
                   ALL_PROFILES, ALL_OUTCOMES, ["protocol", "profile", "outcome", "handoffs"], List(AgentHandoffRules(c)), d);
  }

  // ---- They meet the side conditions ----

  lemma EveryProfileListed(role: string, policy: Policy)
    requires policy in RoleProfiles(role)
    ensures policy.profile in ALL_PROFILES
  {
    var i := RoleProfileRow(role, policy);
    assert ALL_PROFILES[if i == 7 then 6 else i] == PROFILE_POLICY[i].profile;
  }

  lemma HandoffsRuleErasable(rx: Regex, role: string, policy: Policy, withProtocol: bool, rule: Schema, content: Schema)
    requires PureRule(rule) && !HasProfileConstraint(content)
    ensures Erasable(rx, RoleProfiles(role), policy, withProtocol, HandoffsRule(rule, content))
  {
    OnlyPropertyErasable(rx, RoleProfiles(role), policy, withProtocol, "handoffs", content);
    WhenErasable(rx, role, policy, withProtocol, rule, Present(OnlyProperty("handoffs", content)), Absent);
  }

  lemma ConfidenceRuleErasable(rx: Regex, role: string, policy: Policy, withProtocol: bool)
    ensures Erasable(rx, RoleProfiles(role), policy, withProtocol, ConfidenceRule())
  {
    RequiringErasable(rx, RoleProfiles(role), policy, withProtocol, ["confidence"]);
    WhenErasable(rx, role, policy, withProtocol, Is(ASSESSOR_VERDICT),
                 Present(Requiring(["confidence"])), Present(Negation(Requiring(["confidence"]))));
  }

  lemma AgentHandoffRulesErasable(rx: Regex, role: string, policy: Policy, c: Contents)
    requires PlainContents(c)
    ensures AllErasable(rx, role, policy, true, AgentHandoffRules(c))
  {
    HandoffsRuleErasable(rx, role, policy, true, Negation(Is(RESEARCHER_REPORT)), c.compactLimits);
    HandoffsRuleErasable(rx, role, policy, true, Is(RESEARCHER_REPORT), c.reportClaims);
    ConfidenceRuleErasable(rx, role, policy, true);
    HandoffsRuleErasable(rx, role, policy, true,
                         Negation(Among([PLANNER_PLAN, RESEARCHER_PIPELINE, RESEARCHER_REPORT])), c.noScopeSeeds);
    HandoffsRuleErasable(rx, role, policy, true, Negation(Is(PLANNER_PLAN)), c.noOutputRoot);
    HandoffsRuleErasable(rx, role, policy, true, Is(PLANNER_PLAN), c.plannerTasks);
  }

  lemma SemanticFieldsPlain(c: Contents)
    requires PlainContents(c)
    ensures PlainFields(SemanticFields(c))
  {
  }

  lemma SemanticFormErasable(rx: Regex, role: string, policy: Policy, c: Contents)
    requires PlainContents(c) && policy in RoleProfiles(role)
    ensures Erasable(rx, RoleProfiles(role), policy, true, SemanticForm(c))
  {
    EveryProfileListed(role, policy);
    SemanticFieldsPlain(c);
    AgentHandoffRulesErasable(rx, role, policy, c);
    HandoffObjectErasable(rx, role, policy, SemanticFields(c), true, ALL_PROFILES, ALL_OUTCOMES,
                          ["protocol", "profile", "outcome", "handoffs"], List(AgentHandoffRules(c)));
  }

  lemma CompletionFormErasable(rx: Regex, role: string, policy: Policy, fields: map<string, Schema>)
    requires PlainFields(fields)
    ensures Erasable(rx, RoleProfiles(role), policy, true, CompletionForm(fields))
  {
  }

  lemma AgentHandoffErasable(rx: Regex, role: string, policy: Policy, c: Contents)
    requires PlainContents(c) && policy in RoleProfiles(role)
    ensures Erasable(rx, RoleProfiles(role), policy, true, AgentHandoff(c))
  {
    SemanticFormErasable(rx, role, policy, c);
    CompletionFormErasable(rx, role, policy, c.completion);
    assert AllErasable(rx, role, policy, true, [CompletionForm(c.completion), SemanticForm(c)]);
  }

  // ---- The theorems ----

  /** For every role, `agent_handoff` as issued and as bound agree. */
  lemma AgentHandoffBindingExact(rx: Regex, role: string, policy: Policy, c: Contents, e: Document)
    requires PlainContents(c) && policy in RoleProfiles(role) && Bare(e) && Reports(e, policy)
    ensures ProjectForRole(role, AgentHandoff(c)).Ok?
    ensures Accepts(rx, AgentHandoff(c), Obj(BindMetadata(e, policy.profile)))
       <==> Accepts(rx, ProjectForRole(role, AgentHandoff(c)).value, Obj(e))
  {
    AgentHandoffErasable(rx, role, policy, c);
    forall d: Document | Accepts(rx, AgentHandoff(c), Obj(d)) && "outcome" in d
      ensures HasHandoffs(d) && "profile" in d
    {
      AgentHandoffEnvelope(rx, c, d);
    }
    EnvelopeBindingExact(rx, role, policy, AgentHandoff(c), e);
  }

  /** An envelope tool of any role whose rules meet the side conditions. */
  lemma RoleEnvelopeBindingExact(
    rx: Regex, role: string, policy: Policy, fields: map<string, Schema>, profiles: seq<string>, outcomes: seq<string>,
    required: seq<string>, rules: Slots, e: Document)
    requires PlainFields(fields) && "handoffs" in fields && ArraySchema(fields["handoffs"])
    requires "handoffs" in required && "profile" in required
    requires policy in RoleProfiles(role) && policy.profile in profiles && Bare(e) && Reports(e, policy)
    requires rules.List? ==> AllErasable(rx, role, policy, true, rules.schemas)
    ensures var s := HandoffObject(fields, true, profiles, outcomes, required, rules);
            && ProjectForRole(role, s).Ok?
            && (Accepts(rx, s, Obj(BindMetadata(e, policy.profile))) <==> Accepts(rx, ProjectForRole(role, s).value, Obj(e)))
  {
    var s := HandoffObject(fields, true, profiles, outcomes, required, rules);
    HandoffObjectErasable(rx, role, policy, fields, true, profiles, outcomes, required, rules);
    forall d: Document | Accepts(rx, s, Obj(d)) && "outcome" in d
      ensures HasHandoffs(d) && "profile" in d
    {
      EnvelopeObject(rx, fields, profiles, outcomes, required, rules, d);
    }
    EnvelopeBindingExact(rx, role, policy, s, e);
  }

  lemma ResearcherProfiles(policy: Policy)
    requires policy in RoleProfiles("researcher")
    ensures policy == PROFILE_POLICY[0] || policy == PROFILE_POLICY[1]
    ensures ResearcherProfile(policy.profile)
  {
    var i := RoleProfileRow("researcher", policy);
    RolesOfRow(i, "researcher");
  }

  lemma ResearcherRulesErasable(rx: Regex, policy: Policy, pipelineLimits: Schema, reportClaims: Schema)
    requires !HasProfileConstraint(pipelineLimits) && !HasProfileConstraint(reportClaims)
    ensures AllErasable(rx, "researcher", policy, true, ResearcherRules(pipelineLimits, reportClaims))
  {
    HandoffsRuleErasable(rx, "researcher", policy, true, Is(RESEARCHER_PIPELINE), pipelineLimits);
    HandoffsRuleErasable(rx, "researcher", policy, true, Is(RESEARCHER_REPORT), reportClaims);
  }

  lemma ResearcherEnvelopeBindingExact(
    rx: Regex, policy: Policy, fields: map<string, Schema>, pipelineLimits: Schema, reportClaims: Schema, e: Document)
    requires PlainFields(fields) && "handoffs" in fields && ArraySchema(fields["handoffs"])
    requires !HasProfileConstraint(pipelineLimits) && !HasProfileConstraint(reportClaims)
    requires policy in RoleProfiles("researcher") && Bare(e) && Reports(e, policy)
    ensures var s := ResearcherEnvelope(fields, pipelineLimits, reportClaims);
            && ProjectForRole("researcher", s).Ok?
            && (Accepts(rx, s, Obj(BindMetadata(e, policy.profile)))
                <==> Accepts(rx, ProjectForRole("researcher", s).value, Obj(e)))
  {
    ResearcherProfiles(policy);
    var role := "researcher";
    ResearcherRulesErasable(rx, policy, pipelineLimits, reportClaims);
    RoleEnvelopeBindingExact(rx, role, policy, fields, [RESEARCHER_PIPELINE, RESEARCHER_REPORT],
                             ["success", "gap", "input_required", "complete"],
                             ["protocol", "profile", "outcome", "handoffs"],
                             List(ResearcherRules(pipelineLimits, reportClaims)), e);
  }

  /** The compact researcher form, for both researcher profiles. */
  lemma ResearcherCompactBindingExact(
    rx: Regex, policy: Policy, fields: map<string, Schema>, summaryLimit: Schema, claimsLimit: Schema, e: Document)
    requires PlainFields(fields) && "handoffs" !in fields
    requires !HasProfileConstraint(summaryLimit) && !HasProfileConstraint(claimsLimit)
    requires policy in RoleProfiles("researcher") && Bare(e) && Reports(e, policy)
    ensures var s := ResearcherCompact(fields, summaryLimit, claimsLimit);
            && ProjectForRole("researcher", s).Ok?
            && (Accepts(rx, s, Obj(BindMetadata(e, policy.profile)))
                <==> Accepts(rx, ProjectForRole("researcher", s).value, Obj(e)))
  {
    ResearcherProfiles(policy);
    CompactRulesErasable(rx, policy, summaryLimit, claimsLimit);
    var s := ResearcherCompact(fields, summaryLimit, claimsLimit);
    HandoffObjectErasable(rx, "researcher", policy, fields, false, [RESEARCHER_PIPELINE, RESEARCHER_REPORT],
                          ["success", "gap", "input_required", "complete"], ["profile", "outcome", "summary"], s.allOf);
    FlatObject(rx, fields, [RESEARCHER_PIPELINE, RESEARCHER_REPORT],
               ["success", "gap", "input_required", "complete"], ["profile", "outcome", "summary"], s.allOf);
    FlatBindingExact(rx, "researcher", policy, s, e);
  }

  lemma CompactLimitsErasable(rx: Regex, profiles: seq<Policy>, policy: Policy, summaryLimit: Schema, claimsLimit: Schema)
    requires !HasProfileConstraint(summaryLimit) && !HasProfileConstraint(claimsLimit)
    ensures Erasable(rx, profiles, policy, false, CompactLimits(summaryLimit, claimsLimit))
  {
  }

  lemma CompactRulesErasable(rx: Regex, policy: Policy, summaryLimit: Schema, claimsLimit: Schema)
    requires !HasProfileConstraint(summaryLimit) && !HasProfileConstraint(claimsLimit)
    ensures AllErasable(rx, "researcher", policy, false, CompactRules(summaryLimit, claimsLimit))
  {
    var ps := RoleProfiles("researcher");
    CompactLimitsErasable(rx, ps, policy, summaryLimit, claimsLimit);
    OnlyPropertyErasable(rx, ps, policy, false, "claims", SOME_CLAIM);
    WhenErasable(rx, "researcher", policy, false, Is(RESEARCHER_PIPELINE),
                 Present(CompactLimits(summaryLimit, claimsLimit)), Absent);
    WhenErasable(rx, "researcher", policy, false, Is(RESEARCHER_REPORT), Present(OnlyProperty("claims", SOME_CLAIM)), Absent);
  }

  /** The report-only form names only the report profile.  It is still exact for
      both profiles, because its one outcome is no pipeline outcome. */
  lemma ReportCompactBindingExact(rx: Regex, policy: Policy, fields: map<string, Schema>, e: Document)
    requires PlainFields(fields) && "handoffs" !in fields
    requires policy in RoleProfiles("researcher") && Bare(e) && Reports(e, policy)
    ensures var s := ReportCompact(fields);
            && ProjectForRole("researcher", s).Ok?
            && (Accepts(rx, s, Obj(BindMetadata(e, policy.profile)))
                <==> Accepts(rx, ProjectForRole("researcher", s).value, Obj(e)))
  {
    ResearcherProfiles(policy);
    ReportCompactErasable(rx, policy, fields);
    FlatObject(rx, fields, [RESEARCHER_REPORT], ["complete"], ["profile", "outcome", "summary"], NoList);
    FlatBindingExact(rx, "researcher", policy, ReportCompact(fields), e);
  }

  /** The report profile is listed, and the pipeline has no outcome that is. */
  lemma ReportFits(policy: Policy)
    requires policy in RoleProfiles("researcher")
    ensures policy.profile in [RESEARCHER_REPORT] || forall o :: o in policy.outcomes ==> o !in ["complete"]
  {
    ResearcherProfiles(policy);
    if policy == PROFILE_POLICY[0] {
      forall o | o in policy.outcomes ensures o != "complete" {
        ResearcherOutcomesDisjoint(o);
        assert PROFILE_POLICY[1].outcomes[0] == "complete";
      }
    }
  }

  const FLAT_KEYS := ["profile", "outcome", "summary"]

  lemma FlatKeysLackProtocol()
    ensures "protocol" !in FLAT_KEYS
  {
    assert "protocol"[2] != "profile"[2] || "protocol"[3] != "profile"[3];
  }

  lemma ReportObjectErasable(rx: Regex, policy: Policy, fields: map<string, Schema>, profiles: seq<string>, outcomes: seq<string>)
    requires PlainFields(fields)
    requires policy.profile in profiles || forall o :: o in policy.outcomes ==> o !in outcomes
    ensures Erasable(rx, RoleProfiles("researcher"), policy, false,
                     HandoffObject(fields, false, profiles, outcomes, FLAT_KEYS, NoList))
  {
    FlatKeysLackProtocol();
    HandoffObjectErasable(rx, "researcher", policy, fields, false, profiles, outcomes, FLAT_KEYS, NoList);
  }

  lemma ReportCompactErasable(rx: Regex, policy: Policy, fields: map<string, Schema>)
    requires PlainFields(fields) && policy in RoleProfiles("researcher")
    ensures Erasable(rx, RoleProfiles("researcher"), policy, false, ReportCompact(fields))
  {
    ReportFits(policy);
    ReportObjectErasable(rx, policy, fields, [RESEARCHER_REPORT], ["complete"]);
  }

  /** A document without metadata fits at most one profile of the role, so the
      bound metadata can be recovered from the outcome alone. */
  lemma OutcomeDeterminesBinding(role: string, p: Policy, q: Policy, e: Document)
    requires p in RoleProfiles(role) && q in RoleProfiles(role) && Reports(e, p) && Reports(e, q)
    ensures BindMetadata(e, p.profile) == BindMetadata(e, q.profile) && p == q
  {
    RoleOutcomesDisjoint(role, p, q, e["outcome"].text);
  }

  /** The assessor and citation envelopes have one profile each. */
  lemma SingleProfileBindingExact(rx: Regex, policy: Policy, fields: map<string, Schema>, e: Document)
    requires PlainFields(fields) && "handoffs" in fields && ArraySchema(fields["handoffs"])
    requires Bare(e) && Reports(e, policy)
    ensures policy in RoleProfiles("assessor") ==>
              && ProjectForRole("assessor", AssessorEnvelope(fields)).Ok?
              && (Accepts(rx, AssessorEnvelope(fields), Obj(BindMetadata(e, policy.profile)))
                  <==> Accepts(rx, ProjectForRole("assessor", AssessorEnvelope(fields)).value, Obj(e)))
    ensures policy in RoleProfiles("subagent") ==>
              && ProjectForRole("subagent", CitationEnvelope(fields)).Ok?
              && (Accepts(rx, CitationEnvelope(fields), Obj(BindMetadata(e, policy.profile)))
                  <==> Accepts(rx, ProjectForRole("subagent", CitationEnvelope(fields)).value, Obj(e)))
  {
    if policy in RoleProfiles("assessor") {
      var i := RoleProfileRow("assessor", policy);
      RolesOfRow(i, "assessor");
      assert "assessor"[0] != "subagent"[0];
      RoleEnvelopeBindingExact(rx, "assessor", policy, fields, [ASSESSOR_VERDICT],
                               ["pass", "fail", "needs_replan", "needs_review", "blocked"],
                               ["protocol", "profile", "outcome", "confidence", "handoffs"], NoList, e);
    }
    if policy in RoleProfiles("subagent") {
      var i := RoleProfileRow("subagent", policy);
      RolesOfRow(i, "subagent");
      assert "assessor"[0] != "subagent"[0];
      RoleEnvelopeBindingExact(rx, "subagent", policy, fields, [CITATION_SYNTHESIS], ["complete", "partial", "failed"],
                               ["protocol", "profile", "outcome", "handoffs"], NoList, e);
    }
  }
}
