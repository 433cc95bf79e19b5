/** The shipped handoff tools on every document without metadata, whatever outcome it
    reports: exactly when the issued form agrees with the canonical form of the bound
    document. */
module ShippedOutcomes {
  import opened Basics
  import opened JsonSchema
  import opened HandoffPolicy
  import opened HandoffProjection
  import opened ProjectionExactness
  import opened ProjectionLaws
  import opened HandoffTools
  import opened ForeignOutcomes
  import opened ShippedHandoffs

  /** The issued schema agrees with the canonical one on a document: it accepts the
      document exactly when the canonical schema accepts it bound. */
  predicate Agrees(rx: Regex, role: string, s: Schema, profile: string, e: Document)
    requires ProjectForRole(role, s).Ok?
  {
    Accepts(rx, s, Obj(BindMetadata(e, profile))) <==> Accepts(rx, ProjectForRole(role, s).value, Obj(e))
  }

  const PIPELINE_POLICY := PROFILE_POLICY[0]
  const REPORT_POLICY := PROFILE_POLICY[1]
  const RESEARCHER_PROFILES := [RESEARCHER_PIPELINE, RESEARCHER_REPORT]
  const RESEARCHER_OUTCOMES := ["success", "gap", "input_required", "complete"]

  // ---- Binding, as the runtime does it ----

  lemma FlatBinds(rx: Regex, s: Schema, e: Document, profile: string)
    requires profile != "" && Bare(e) && ResearcherProfile(profile) && FlatForm(rx, s)
    ensures Accepts(rx, s, Obj(BindMetadata(e, profile))) <==> Accepts(rx, s, Obj(Bound(e, profile, false)))
  {
    var full := Bound(e, profile, false);
    var d := BindMetadata(e, profile);
    if "handoffs" in e {
      assert "handoffs" in d && "handoffs" in full;
    } else if "summary" !in e {
      assert "summary" !in d && "summary" !in full;
    }
  }

  /** Every accepted document is an envelope with handoffs and a profile. */
  ghost predicate StrictEnvelope(rx: Regex, s: Schema) {
    forall d: Document :: Accepts(rx, s, Obj(d)) ==> HasHandoffs(d) && "profile" in d
  }

  lemma EnvelopeBinds(rx: Regex, s: Schema, e: Document, profile: string)
    requires profile != "" && Bare(e) && StrictEnvelope(rx, s)
    ensures Accepts(rx, s, Obj(BindMetadata(e, profile))) <==> Accepts(rx, s, Obj(Bound(e, profile, true)))
  {
    var full := Bound(e, profile, true);
    var d := BindMetadata(e, profile);
    assert HasHandoffs(full) <==> HasHandoffs(e);
    assert HasHandoffs(d) <==> HasHandoffs(e);
  }

  // ---- The two researcher profiles ----

  lemma ResearcherNamesDiffer()
    ensures PIPELINE_POLICY.profile == RESEARCHER_PIPELINE && REPORT_POLICY.profile == RESEARCHER_REPORT
    ensures RESEARCHER_PIPELINE != RESEARCHER_REPORT
  {
    assert RESEARCHER_PIPELINE[11] != RESEARCHER_REPORT[11];
  }

  lemma ResearcherRows()
    ensures PIPELINE_POLICY in RoleProfiles("researcher") && REPORT_POLICY in RoleProfiles("researcher")
  {
    assert PIPELINE_POLICY in PROFILE_POLICY && REPORT_POLICY in PROFILE_POLICY;
    assert PIPELINE_POLICY.roles[0] == "researcher" && REPORT_POLICY.roles[0] == "researcher";
    assert RESEARCHER_PIPELINE[10] != RESEARCH_INVESTIGATION[10] && RESEARCHER_REPORT[10] != RESEARCH_INVESTIGATION[10];
  }

  lemma IsDecides(name: string, policy: Policy)
    ensures Matches(Is(name), policy) <==> policy.profile == name
    ensures ProfileMatches(Is(name), policy.profile) <==> policy.profile == name
  {
  }

  lemma ResearcherRole(p: Policy)
    ensures p in RoleProfiles("researcher") <==> p == PIPELINE_POLICY || p == REPORT_POLICY
  {
    ResearcherRows();
    if p in RoleProfiles("researcher") {
      ResearcherProfiles(p);
    }
  }

  /** A test that every profile of a role meets, or none, is settled. */
  lemma SettledTest(test: Schema, profiles: seq<Policy>, e: Document, yes: bool)
    requires profiles != [] && forall p :: p in profiles ==> Matches(test, p) == yes
    ensures IssuedMatches(test, profiles, e) == yes
  {
    assert profiles[0] in profiles;
  }

  /** Of two profiles, a test that only one meets is issued as a test on its outcomes. */
  lemma SplitTest(test: Schema, profiles: seq<Policy>, p: Policy, q: Policy, e: Document)
    requires p in profiles && q in profiles && forall x :: x in profiles ==> x == p || x == q
    requires Matches(test, p) && !Matches(test, q)
    ensures IssuedMatches(test, profiles, e) <==> Reports(e, p)
  {
  }

  /** A test issued to researchers, by what their two profiles make of it. */
  lemma IssuedTest(test: Schema, e: Document)
    ensures var profiles := RoleProfiles("researcher");
            var (p, q) := (Matches(test, PIPELINE_POLICY), Matches(test, REPORT_POLICY));
            IssuedMatches(test, profiles, e) <==>
              (if p == q then p else if p then Reports(e, PIPELINE_POLICY) else Reports(e, REPORT_POLICY))
  {
    var profiles := RoleProfiles("researcher");
    ResearcherRows();
    forall x | x in profiles ensures x == PIPELINE_POLICY || x == REPORT_POLICY {
      ResearcherRole(x);
    }
    if Matches(test, PIPELINE_POLICY) == Matches(test, REPORT_POLICY) {
      SettledTest(test, profiles, e, Matches(test, PIPELINE_POLICY));
    } else if Matches(test, PIPELINE_POLICY) {
      SplitTest(test, profiles, PIPELINE_POLICY, REPORT_POLICY, e);
    } else {
      SplitTest(test, profiles, REPORT_POLICY, PIPELINE_POLICY, e);
    }
  }

  lemma IsIssued(e: Document)
    ensures IssuedMatches(Is(RESEARCHER_PIPELINE), RoleProfiles("researcher"), e) <==> Reports(e, PIPELINE_POLICY)
    ensures IssuedMatches(Is(RESEARCHER_REPORT), RoleProfiles("researcher"), e) <==> Reports(e, REPORT_POLICY)
  {
    ResearcherNamesDiffer();
    IsDecides(RESEARCHER_PIPELINE, PIPELINE_POLICY);
    IsDecides(RESEARCHER_PIPELINE, REPORT_POLICY);
    IsDecides(RESEARCHER_REPORT, PIPELINE_POLICY);
    IsDecides(RESEARCHER_REPORT, REPORT_POLICY);
    IssuedTest(Is(RESEARCHER_PIPELINE), e);
    IssuedTest(Is(RESEARCHER_REPORT), e);
  }

  /** One branch for each researcher profile. */
  function TwoRules(atPipeline: Schema, atReport: Schema): seq<Rule> {
    [Rule(Is(RESEARCHER_PIPELINE), Present(atPipeline), Absent), Rule(Is(RESEARCHER_REPORT), Present(atReport), Absent)]
  }

  lemma PairOfBranches(rx: Regex, r: Rule, s: Rule, profiles: seq<Policy>, profile: string, e: Document)
    ensures CanonicalBranches(rx, [r, s], profile, e) <==>
              && AcceptsSlot(rx, Branch(r, ProfileMatches(r.test, profile)), Obj(e))
              && AcceptsSlot(rx, Branch(s, ProfileMatches(s.test, profile)), Obj(e))
    ensures IssuedBranches(rx, [r, s], profiles, e) <==>
              && AcceptsSlot(rx, Branch(r, IssuedMatches(r.test, profiles, e)), Obj(e))
              && AcceptsSlot(rx, Branch(s, IssuedMatches(s.test, profiles, e)), Obj(e))
  {
    assert r == [r, s][0] && s == [r, s][1];
  }

  lemma TwoRulesCanonical(rx: Regex, atPipeline: Schema, atReport: Schema, policy: Policy, e: Document)
    requires policy in RoleProfiles("researcher")
    ensures CanonicalBranches(rx, TwoRules(atPipeline, atReport), policy.profile, e)
       <==> Accepts(rx, if policy == PIPELINE_POLICY then atPipeline else atReport, Obj(e))
  {
    ResearcherProfiles(policy);
    ResearcherNamesDiffer();
    IsDecides(RESEARCHER_PIPELINE, policy);
    IsDecides(RESEARCHER_REPORT, policy);
    var rules := TwoRules(atPipeline, atReport);
    PairOfBranches(rx, rules[0], rules[1], [], policy.profile, e);
  }

  lemma TwoRulesIssued(rx: Regex, atPipeline: Schema, atReport: Schema, e: Document)
    ensures IssuedBranches(rx, TwoRules(atPipeline, atReport), RoleProfiles("researcher"), e)
       <==> (Reports(e, PIPELINE_POLICY) ==> Accepts(rx, atPipeline, Obj(e)))
            && (Reports(e, REPORT_POLICY) ==> Accepts(rx, atReport, Obj(e)))
  {
    IsIssued(e);
    var rules := TwoRules(atPipeline, atReport);
    PairOfBranches(rx, rules[0], rules[1], RoleProfiles("researcher"), "", e);
  }

  lemma ResearcherOutcome(e: Document)
    requires ReportsOneOf(e, RESEARCHER_OUTCOMES)
    ensures Reports(e, PIPELINE_POLICY) <==> !Reports(e, REPORT_POLICY)
  {
    assert RESEARCHER_OUTCOMES == PIPELINE_POLICY.outcomes + REPORT_POLICY.outcomes;
    if Reports(e, PIPELINE_POLICY) {
      ResearcherOutcomesDisjoint(e["outcome"].text);
    }
  }

  /** The condition in terms of the two branches. */
  lemma TwoRulesAgree(rx: Regex, atPipeline: Schema, atReport: Schema, policy: Policy, e: Document)
    requires policy in RoleProfiles("researcher") && ReportsOneOf(e, RESEARCHER_OUTCOMES)
    ensures var rules := TwoRules(atPipeline, atReport);
            (CanonicalBranches(rx, rules, policy.profile, e) <==> IssuedBranches(rx, rules, RoleProfiles("researcher"), e))
            <==> Reports(e, policy) || (Accepts(rx, atPipeline, Obj(e)) <==> Accepts(rx, atReport, Obj(e)))
  {
    TwoRulesCanonical(rx, atPipeline, atReport, policy, e);
    TwoRulesIssued(rx, atPipeline, atReport, e);
    ResearcherOutcome(e);
    ResearcherProfiles(policy);
  }

  /** A researcher form with one branch for each profile. */
  function TwoRuleForm(
    fields: map<string, Schema>, withProtocol: bool, required: seq<string>, atPipeline: Schema, atReport: Schema): Form
  {
    Form(fields, withProtocol, RESEARCHER_PROFILES, RESEARCHER_OUTCOMES, required, TwoRules(atPipeline, atReport))
  }

  lemma ResearcherListed(policy: Policy)
    requires policy in RoleProfiles("researcher")
    ensures policy.profile in RESEARCHER_PROFILES
  {
    ResearcherProfiles(policy);
    assert RESEARCHER_PROFILES[0] == PIPELINE_POLICY.profile && RESEARCHER_PROFILES[1] == REPORT_POLICY.profile;
  }

  lemma TwoRuleExactly(
    rx: Regex, policy: Policy, fields: map<string, Schema>, withProtocol: bool, required: seq<string>,
    atPipeline: Schema, atReport: Schema, e: Document)
    requires policy in RoleProfiles("researcher") && Bare(e) && "outcome" in required
    requires var f := TwoRuleForm(fields, withProtocol, required, atPipeline, atReport); GoodForm(f)
    ensures var f := TwoRuleForm(fields, withProtocol, required, atPipeline, atReport);
            var profiles := RoleProfiles("researcher");
            && Project(profiles, Canonical(f)).Ok?
            && ((Accepts(rx, Canonical(f), Obj(Bound(e, policy.profile, withProtocol)))
                 <==> Accepts(rx, Project(profiles, Canonical(f)).value, Obj(e)))
                <==> Reports(e, policy) || !Accepts(rx, ContentOf(f), Obj(e))
                     || (Accepts(rx, atPipeline, Obj(e)) <==> Accepts(rx, atReport, Obj(e))))
  {
    var f := TwoRuleForm(fields, withProtocol, required, atPipeline, atReport);
    ResearcherListed(policy);
    FormExactly(rx, RoleProfiles("researcher"), f, policy.profile, e);
    if Accepts(rx, ContentOf(f), Obj(e)) {
      ContentNeedsOutcome(rx, f, e);
      TwoRulesAgree(rx, atPipeline, atReport, policy, e);
    }
  }

  // ---- The compact form ----

  function CompactForm(fields: map<string, Schema>, summaryLimit: Schema, claimsLimit: Schema): Form {
    TwoRuleForm(fields, false, ["profile", "outcome", "summary"],
                CompactLimits(summaryLimit, claimsLimit), OnlyProperty("claims", SOME_CLAIM))
  }

  lemma CompactIsForm(fields: map<string, Schema>, summaryLimit: Schema, claimsLimit: Schema)
    ensures Canonical(CompactForm(fields, summaryLimit, claimsLimit)) == ResearcherCompact(fields, summaryLimit, claimsLimit)
  {
    assert Written(CompactForm(fields, summaryLimit, claimsLimit).rules) == CompactRules(summaryLimit, claimsLimit);
  }

  lemma PlainProperty(key: string, content: Schema)
    requires key !in METADATA && !HasProfileConstraint(content)
    ensures PlainBranch(Present(OnlyProperty(key, content)))
  {
  }

  lemma CompactFormGood(fields: map<string, Schema>, summaryLimit: Schema, claimsLimit: Schema)
    requires PlainFields(fields) && !HasProfileConstraint(summaryLimit) && !HasProfileConstraint(claimsLimit)
    ensures GoodForm(CompactForm(fields, summaryLimit, claimsLimit))
  {
    PlainProperty("claims", SOME_CLAIM);
    assert PlainBranch(Present(CompactLimits(summaryLimit, claimsLimit)));
  }

  /** The compact researcher form agrees on a document without metadata if and only if
      the document reports an outcome of the bound profile, or its content is refused
      anyway, or the pipeline's limits and the report's claim requirement give one
      verdict; and on one with metadata of its own, exactly when the canonical form
      refuses what the runtime makes of it. */
  lemma CompactExactly(
    rx: Regex, policy: Policy, fields: map<string, Schema>, summaryLimit: Schema, claimsLimit: Schema, e: Document)
    requires PlainFields(fields) && "handoffs" !in fields
    requires !HasProfileConstraint(summaryLimit) && !HasProfileConstraint(claimsLimit)
    requires policy in RoleProfiles("researcher")
    ensures ProjectForRole("researcher", ResearcherCompact(fields, summaryLimit, claimsLimit)).Ok?
    ensures Agrees(rx, "researcher", ResearcherCompact(fields, summaryLimit, claimsLimit), policy.profile, e) <==>
              if !Bare(e) then !Means(rx, CompactForm(fields, summaryLimit, claimsLimit), BindMetadata(e, policy.profile))
              else
                || Reports(e, policy)
                || !Accepts(rx, Content(fields, RESEARCHER_OUTCOMES, ["profile", "outcome", "summary"]), Obj(e))
                || (Accepts(rx, CompactLimits(summaryLimit, claimsLimit), Obj(e))
                    <==> Accepts(rx, OnlyProperty("claims", SOME_CLAIM), Obj(e)))
  {
    ResearcherRows();
    CompactIsForm(fields, summaryLimit, claimsLimit);
    CompactFormGood(fields, summaryLimit, claimsLimit);
    if Bare(e) {
      CompactBareExactly(rx, policy, fields, summaryLimit, claimsLimit, e);
    } else {
      OwnMetadataExactly(rx, RoleProfiles("researcher"), CompactForm(fields, summaryLimit, claimsLimit), policy.profile, e);
    }
  }

  lemma CompactBareExactly(
    rx: Regex, policy: Policy, fields: map<string, Schema>, summaryLimit: Schema, claimsLimit: Schema, e: Document)
    requires PlainFields(fields) && "handoffs" !in fields
    requires !HasProfileConstraint(summaryLimit) && !HasProfileConstraint(claimsLimit)
    requires policy in RoleProfiles("researcher") && Bare(e)
    ensures ProjectForRole("researcher", ResearcherCompact(fields, summaryLimit, claimsLimit)).Ok?
    ensures Agrees(rx, "researcher", ResearcherCompact(fields, summaryLimit, claimsLimit), policy.profile, e) <==>
              || Reports(e, policy)
              || !Accepts(rx, Content(fields, RESEARCHER_OUTCOMES, ["profile", "outcome", "summary"]), Obj(e))
              || (Accepts(rx, CompactLimits(summaryLimit, claimsLimit), Obj(e))
                  <==> Accepts(rx, OnlyProperty("claims", SOME_CLAIM), Obj(e)))
  {
    var required := ["profile", "outcome", "summary"];
    ResearcherProfiles(policy);
    ResearcherRows();
    CompactIsForm(fields, summaryLimit, claimsLimit);
    CompactFormGood(fields, summaryLimit, claimsLimit);
    TwoRuleExactly(rx, policy, fields, false, required,
                   CompactLimits(summaryLimit, claimsLimit), OnlyProperty("claims", SOME_CLAIM), e);
    FlatObject(rx, fields, RESEARCHER_PROFILES, RESEARCHER_OUTCOMES, required, List(CompactRules(summaryLimit, claimsLimit)));
    ProfileNamed("researcher", policy);
    FlatBinds(rx, ResearcherCompact(fields, summaryLimit, claimsLimit), e, policy.profile);
  }

  /** What the issued compact form accepts. */
  lemma CompactIssued(rx: Regex, fields: map<string, Schema>, summaryLimit: Schema, claimsLimit: Schema, e: Document)
    requires PlainFields(fields) && !HasProfileConstraint(summaryLimit) && !HasProfileConstraint(claimsLimit)
    ensures ProjectForRole("researcher", ResearcherCompact(fields, summaryLimit, claimsLimit)).Ok?
    ensures Accepts(rx, ProjectForRole("researcher", ResearcherCompact(fields, summaryLimit, claimsLimit)).value, Obj(e)) <==>
              && Accepts(rx, Content(fields, RESEARCHER_OUTCOMES, ["profile", "outcome", "summary"]), Obj(e))
              && (Reports(e, PIPELINE_POLICY) ==> Accepts(rx, CompactLimits(summaryLimit, claimsLimit), Obj(e)))
              && (Reports(e, REPORT_POLICY) ==> Accepts(rx, OnlyProperty("claims", SOME_CLAIM), Obj(e)))
  {
    ResearcherRows();
    CompactIsForm(fields, summaryLimit, claimsLimit);
    CompactFormGood(fields, summaryLimit, claimsLimit);
    IssuedVerdict(rx, RoleProfiles("researcher"), CompactForm(fields, summaryLimit, claimsLimit), e);
    TwoRulesIssued(rx, CompactLimits(summaryLimit, claimsLimit), OnlyProperty("claims", SOME_CLAIM), e);
  }

  // ---- The envelope ----

  function EnvelopeOf(fields: map<string, Schema>, pipelineLimits: Schema, reportClaims: Schema): Form {
    TwoRuleForm(fields, true, ["protocol", "profile", "outcome", "handoffs"],
                OnlyProperty("handoffs", pipelineLimits), OnlyProperty("handoffs", reportClaims))
  }

  lemma EnvelopeIsForm(fields: map<string, Schema>, pipelineLimits: Schema, reportClaims: Schema)
    ensures Canonical(EnvelopeOf(fields, pipelineLimits, reportClaims))
         == ResearcherEnvelope(fields, pipelineLimits, reportClaims)
  {
    assert Written(EnvelopeOf(fields, pipelineLimits, reportClaims).rules) == ResearcherRules(pipelineLimits, reportClaims);
  }

  lemma EnvelopeOfGood(fields: map<string, Schema>, pipelineLimits: Schema, reportClaims: Schema)
    requires PlainFields(fields) && !HasProfileConstraint(pipelineLimits) && !HasProfileConstraint(reportClaims)
    ensures GoodForm(EnvelopeOf(fields, pipelineLimits, reportClaims))
  {
    PlainProperty("handoffs", pipelineLimits);
    PlainProperty("handoffs", reportClaims);
  }

  lemma HandoffObjectIsEnvelope(
    rx: Regex, fields: map<string, Schema>, profiles: seq<string>, outcomes: seq<string>, required: seq<string>, rules: Slots)
    requires "handoffs" in fields && ArraySchema(fields["handoffs"]) && "handoffs" in required && "profile" in required
    ensures StrictEnvelope(rx, HandoffObject(fields, true, profiles, outcomes, required, rules))
  {
    forall d: Document | Accepts(rx, HandoffObject(fields, true, profiles, outcomes, required, rules), Obj(d))
      ensures HasHandoffs(d) && "profile" in d
    {
      EnvelopeObject(rx, fields, profiles, outcomes, required, rules, d);
    }
  }

  lemma EnvelopeIsStrict(rx: Regex, fields: map<string, Schema>, pipelineLimits: Schema, reportClaims: Schema)
    requires "handoffs" in fields && ArraySchema(fields["handoffs"])
    ensures StrictEnvelope(rx, ResearcherEnvelope(fields, pipelineLimits, reportClaims))
  {
    HandoffObjectIsEnvelope(rx, fields, RESEARCHER_PROFILES, RESEARCHER_OUTCOMES, ["protocol", "profile", "outcome", "handoffs"],
                            List(ResearcherRules(pipelineLimits, reportClaims)));
  }

  /** The researcher envelope agrees on a document without metadata if and only if the
      document reports an outcome of the bound profile, or its content is refused
      anyway, or the two rules on the handoffs give one verdict; and on one with
      metadata of its own, exactly when the canonical form refuses what the runtime
      makes of it. */
  lemma EnvelopeExactly(
    rx: Regex, policy: Policy, fields: map<string, Schema>, pipelineLimits: Schema, reportClaims: Schema, e: Document)
    requires PlainFields(fields) && "handoffs" in fields && ArraySchema(fields["handoffs"])
    requires !HasProfileConstraint(pipelineLimits) && !HasProfileConstraint(reportClaims)
    requires policy in RoleProfiles("researcher")
    ensures ProjectForRole("researcher", ResearcherEnvelope(fields, pipelineLimits, reportClaims)).Ok?
    ensures Agrees(rx, "researcher", ResearcherEnvelope(fields, pipelineLimits, reportClaims), policy.profile, e) <==>
              if !Bare(e) then !Means(rx, EnvelopeOf(fields, pipelineLimits, reportClaims), BindMetadata(e, policy.profile))
              else
                || Reports(e, policy)
                || !Accepts(rx, Content(fields, RESEARCHER_OUTCOMES, ["protocol", "profile", "outcome", "handoffs"]), Obj(e))
                || (Accepts(rx, OnlyProperty("handoffs", pipelineLimits), Obj(e))
                    <==> Accepts(rx, OnlyProperty("handoffs", reportClaims), Obj(e)))
  {
    ResearcherRows();
    EnvelopeIsForm(fields, pipelineLimits, reportClaims);
    EnvelopeOfGood(fields, pipelineLimits, reportClaims);
    if Bare(e) {
      EnvelopeBareExactly(rx, policy, fields, pipelineLimits, reportClaims, e);
    } else {
      OwnMetadataExactly(rx, RoleProfiles("researcher"), EnvelopeOf(fields, pipelineLimits, reportClaims), policy.profile, e);
    }
  }

  lemma EnvelopeBareExactly(
    rx: Regex, policy: Policy, fields: map<string, Schema>, pipelineLimits: Schema, reportClaims: Schema, e: Document)
    requires PlainFields(fields) && "handoffs" in fields && ArraySchema(fields["handoffs"])
    requires !HasProfileConstraint(pipelineLimits) && !HasProfileConstraint(reportClaims)
    requires policy in RoleProfiles("researcher") && Bare(e)
    ensures ProjectForRole("researcher", ResearcherEnvelope(fields, pipelineLimits, reportClaims)).Ok?
    ensures Agrees(rx, "researcher", ResearcherEnvelope(fields, pipelineLimits, reportClaims), policy.profile, e) <==>
              || Reports(e, policy)
              || !Accepts(rx, Content(fields, RESEARCHER_OUTCOMES, ["protocol", "profile", "outcome", "handoffs"]), Obj(e))
              || (Accepts(rx, OnlyProperty("handoffs", pipelineLimits), Obj(e))
                  <==> Accepts(rx, OnlyProperty("handoffs", reportClaims), Obj(e)))
  {
    var required := ["protocol", "profile", "outcome", "handoffs"];
    ResearcherRows();
    EnvelopeIsForm(fields, pipelineLimits, reportClaims);
    EnvelopeOfGood(fields, pipelineLimits, reportClaims);
    TwoRuleExactly(rx, policy, fields, true, required,
                   OnlyProperty("handoffs", pipelineLimits), OnlyProperty("handoffs", reportClaims), e);
    EnvelopeIsStrict(rx, fields, pipelineLimits, reportClaims);
    ProfileNamed("researcher", policy);
    EnvelopeBinds(rx, ResearcherEnvelope(fields, pipelineLimits, reportClaims), e, policy.profile);
  }

  // ---- Envelopes of any role ----

  /** Any envelope with rules on the profile, for any role and every document. */
  lemma RoleEnvelopeExactly(rx: Regex, role: string, policy: Policy, f: Form, e: Document)
    requires GoodForm(f) && AsksForMetadata(f) && f.withProtocol
    requires policy in RoleProfiles(role) && policy.profile in f.profiles
    requires "handoffs" in f.fields && ArraySchema(f.fields["handoffs"]) && "handoffs" in f.required
    ensures ProjectForRole(role, Canonical(f)).Ok?
    ensures Agrees(rx, role, Canonical(f), policy.profile, e) <==>
              if !Bare(e) then !Means(rx, f, BindMetadata(e, policy.profile))
              else
                || !Accepts(rx, ContentOf(f), Obj(e))
                || (CanonicalBranches(rx, f.rules, policy.profile, e) <==> IssuedBranches(rx, f.rules, RoleProfiles(role), e))
  {
    if Bare(e) {
      FormExactly(rx, RoleProfiles(role), f, policy.profile, e);
      HandoffObjectIsEnvelope(rx, f.fields, f.profiles, f.outcomes, f.required, RuleList(f.rules));
      ProfileNamed(role, policy);
      EnvelopeBinds(rx, Canonical(f), e, policy.profile);
    } else {
      OwnMetadataExactly(rx, RoleProfiles(role), f, policy.profile, e);
    }
  }

  function AssessorForm(fields: map<string, Schema>): Form {
    Form(fields, true, [ASSESSOR_VERDICT], ["pass", "fail", "needs_replan", "needs_review", "blocked"],
         ["protocol", "profile", "outcome", "confidence", "handoffs"], [])
  }

  function CitationForm(fields: map<string, Schema>): Form {
    Form(fields, true, [CITATION_SYNTHESIS], ["complete", "partial", "failed"],
         ["protocol", "profile", "outcome", "handoffs"], [])
  }

  lemma EnvelopeKeys()
    ensures var keys := ["protocol", "profile", "outcome", "handoffs"];
            "protocol" in keys && "profile" in keys && "outcome" in keys && "handoffs" in keys
    ensures var keys := ["protocol", "profile", "outcome", "confidence", "handoffs"];
            "protocol" in keys && "profile" in keys && "outcome" in keys && "handoffs" in keys
  {
  }

  lemma AssessorProfile(policy: Policy)
    requires policy in RoleProfiles("assessor")
    ensures policy.profile == ASSESSOR_VERDICT
  {
    var i := RoleProfileRow("assessor", policy);
    RolesOfRow(i, "assessor");
    assert "assessor"[0] != "subagent"[0];
  }

  lemma CitationProfile(policy: Policy)
    requires policy in RoleProfiles("subagent")
    ensures policy.profile == CITATION_SYNTHESIS
  {
    var i := RoleProfileRow("subagent", policy);
    RolesOfRow(i, "subagent");
    assert "assessor"[0] != "subagent"[0];
  }

  /** The assessor envelope agrees on every document without metadata of its own, and on
      one with metadata exactly when the canonical form refuses it bound. */
  lemma AssessorAgrees(rx: Regex, policy: Policy, fields: map<string, Schema>, e: Document)
    requires PlainFields(fields) && "handoffs" in fields && ArraySchema(fields["handoffs"])
    requires policy in RoleProfiles("assessor")
    ensures ProjectForRole("assessor", AssessorEnvelope(fields)).Ok?
    ensures Agrees(rx, "assessor", AssessorEnvelope(fields), policy.profile, e)
       <==> Bare(e) || !Means(rx, AssessorForm(fields), BindMetadata(e, policy.profile))
  {
    AssessorProfile(policy);
    EnvelopeKeys();
    RoleEnvelopeExactly(rx, "assessor", policy, AssessorForm(fields), e);
  }

  /** The same for the citation envelope. */
  lemma CitationAgrees(rx: Regex, policy: Policy, fields: map<string, Schema>, e: Document)
    requires PlainFields(fields) && "handoffs" in fields && ArraySchema(fields["handoffs"])
    requires policy in RoleProfiles("subagent")
    ensures ProjectForRole("subagent", CitationEnvelope(fields)).Ok?
    ensures Agrees(rx, "subagent", CitationEnvelope(fields), policy.profile, e)
       <==> Bare(e) || !Means(rx, CitationForm(fields), BindMetadata(e, policy.profile))
  {
    CitationProfile(policy);
    EnvelopeKeys();
    RoleEnvelopeExactly(rx, "subagent", policy, CitationForm(fields), e);
  }

  // ---- The report-only form ----

  function ReportForm(fields: map<string, Schema>): Form {
    Form(fields, false, [RESEARCHER_REPORT], ["complete"], ["profile", "outcome", "summary"], [])
  }

  lemma ReportRefusesPipeline(rx: Regex, fields: map<string, Schema>, e: Document)
    requires Bare(e)
    ensures !Accepts(rx, Canonical(ReportForm(fields)), Obj(Bound(e, RESEARCHER_PIPELINE, false)))
  {
    var s := HandoffObject(fields, false, [RESEARCHER_REPORT], ["complete"], ["profile", "outcome", "summary"], NoList);
    var d := Bound(e, RESEARCHER_PIPELINE, false);
    ResearcherNamesDiffer();
    TextAccepted(rx, [RESEARCHER_REPORT], RESEARCHER_PIPELINE);
    assert s.properties.entries["profile"] == OneOfTexts([RESEARCHER_REPORT]);
    assert !AcceptsFields(rx, s, d);
  }

  lemma ReportIsForm(fields: map<string, Schema>)
    requires PlainFields(fields)
    ensures Canonical(ReportForm(fields)) == ReportCompact(fields) && GoodForm(ReportForm(fields))
  {
  }

  lemma ReportVerdict(rx: Regex, policy: Policy, fields: map<string, Schema>, e: Document)
    requires PlainFields(fields) && "handoffs" !in fields && policy in RoleProfiles("researcher") && Bare(e)
    ensures var s := ReportCompact(fields);
            var content := Content(fields, ["complete"], ["profile", "outcome", "summary"]);
            && ProjectForRole("researcher", s).Ok?
            && (Accepts(rx, ProjectForRole("researcher", s).value, Obj(e)) <==> Accepts(rx, content, Obj(e)))
            && (Accepts(rx, s, Obj(BindMetadata(e, policy.profile)))
                <==> policy == REPORT_POLICY && Accepts(rx, content, Obj(e)))
  {
    var f := ReportForm(fields);
    ReportIsForm(fields);
    ResearcherRows();
    ResearcherProfiles(policy);
    ResearcherNamesDiffer();
    IssuedVerdict(rx, RoleProfiles("researcher"), f, e);
    FlatObject(rx, fields, [RESEARCHER_REPORT], ["complete"], ["profile", "outcome", "summary"], NoList);
    ProfileNamed("researcher", policy);
    FlatBinds(rx, ReportCompact(fields), e, policy.profile);
    if policy == REPORT_POLICY {
      CanonicalVerdict(rx, f, RESEARCHER_REPORT, e);
    } else {
      ReportRefusesPipeline(rx, fields, e);
    }
  }

  /** The report-only form agrees on every document without metadata that is bound as a
      report; bound for the pipeline it is refused, so the two agree there only on
      refused content.  On a document with metadata of its own they agree exactly when
      the canonical form refuses it bound. */
  lemma ReportExactly(rx: Regex, policy: Policy, fields: map<string, Schema>, e: Document)
    requires PlainFields(fields) && "handoffs" !in fields && policy in RoleProfiles("researcher")
    ensures ProjectForRole("researcher", ReportCompact(fields)).Ok?
    ensures Agrees(rx, "researcher", ReportCompact(fields), policy.profile, e) <==>
              if !Bare(e) then !Means(rx, ReportForm(fields), BindMetadata(e, policy.profile))
              else
                || policy == REPORT_POLICY
                || !Accepts(rx, Content(fields, ["complete"], ["profile", "outcome", "summary"]), Obj(e))
  {
    ResearcherRows();
    ReportIsForm(fields);
    if Bare(e) {
      ReportVerdict(rx, policy, fields, e);
    } else {
      OwnMetadataExactly(rx, RoleProfiles("researcher"), ReportForm(fields), policy.profile, e);
    }
  }

  // ---- The canonical tool ----

  function SemanticRules(c: Contents): seq<Rule> {
    [ Rule(Negation(Is(RESEARCHER_REPORT)), Present(OnlyProperty("handoffs", c.compactLimits)), Absent),
      Rule(Is(RESEARCHER_REPORT), Present(OnlyProperty("handoffs", c.reportClaims)), Absent),
      Rule(Is(ASSESSOR_VERDICT), Present(Requiring(["confidence"])), Present(Negation(Requiring(["confidence"])))),
      Rule(Negation(Among(SCOPED_PROFILES)),
           Present(OnlyProperty("handoffs", c.noScopeSeeds)), Absent),
      Rule(Negation(Is(PLANNER_PLAN)), Present(OnlyProperty("handoffs", c.noOutputRoot)), Absent),
      Rule(Is(PLANNER_PLAN), Present(OnlyProperty("handoffs", c.plannerTasks)), Absent) ]
  }

  function SemanticOf(c: Contents): Form {
    Form(SemanticFields(c), true, ALL_PROFILES, ALL_OUTCOMES, ["protocol", "profile", "outcome", "handoffs"], SemanticRules(c))
  }

  lemma SemanticIsForm(c: Contents)
    ensures Canonical(SemanticOf(c)) == SemanticForm(c)
  {
    assert Written(SemanticRules(c)) == AgentHandoffRules(c);
  }

  lemma HandoffsRulePlain(test: Schema, content: Schema)
    requires PureRule(test) && !HasProfileConstraint(content)
    ensures PlainRule(Rule(test, Present(OnlyProperty("handoffs", content)), Absent))
  {
    PlainProperty("handoffs", content);
  }

  lemma ConfidenceRulePlain()
    ensures PlainRule(Rule(Is(ASSESSOR_VERDICT),
                           Present(Requiring(["confidence"])), Present(Negation(Requiring(["confidence"])))))
  {
    assert "confidence"[0] == 'c';
  }

  lemma SemanticRulesPlain(c: Contents)
    requires PlainContents(c)
    ensures PlainRules(SemanticRules(c))
  {
    HandoffsRulePlain(Negation(Is(RESEARCHER_REPORT)), c.compactLimits);
    HandoffsRulePlain(Is(RESEARCHER_REPORT), c.reportClaims);
    HandoffsRulePlain(Negation(Among([PLANNER_PLAN, RESEARCHER_PIPELINE, RESEARCHER_REPORT])), c.noScopeSeeds);
    HandoffsRulePlain(Negation(Is(PLANNER_PLAN)), c.noOutputRoot);
    HandoffsRulePlain(Is(PLANNER_PLAN), c.plannerTasks);
    ConfidenceRulePlain();
  }

  lemma SemanticGood(c: Contents)
    requires PlainContents(c)
    ensures GoodForm(SemanticOf(c))
  {
    SemanticRulesPlain(c);
  }

  /** The completion form has none of the fields that make a document a report. */
  predicate CompletionApart(c: Contents) {
    "handoffs" !in c.completion && "summary" !in c.completion
  }

  lemma CompletionRefuses(rx: Regex, fields: map<string, Schema>, key: string, d: Document)
    requires key in d && key !in fields
    ensures !Accepts(rx, CompletionForm(fields), Obj(d))
  {
    assert !Listed(CompletionForm(fields).properties, key);
  }

  lemma CompletionSettled(fields: map<string, Schema>)
    requires PlainFields(fields)
    ensures Settled(CompletionForm(fields))
  {
    var s := CompletionForm(fields);
    assert s.negated.Absent? && s.then_.Absent? && s.else_.Absent? && s.allOf.NoList? && s.anyOf.NoList? && s.oneOf.NoList?;
    assert SlotSettled(Absent) && ListSettled(NoList);
    assert !HasNestedConstraint(s) && ProfileRule(s).None?;
  }

  lemma CompletionFixed(profiles: seq<Policy>, c: Contents)
    requires PlainContents(c)
    ensures Project(profiles, CompletionForm(c.completion)) == Ok(CompletionForm(c.completion))
  {
    CompletionSettled(c.completion);
    SettledIsFixed(profiles, CompletionForm(c.completion));
  }

  lemma ExactlyOneOfTwo(r: seq<bool>)
    requires |r| == 2
    ensures ExactlyOne(r) <==> r[0] != r[1]
  {
    if i :| 0 <= i < 2 && r[i] && forall j :: 0 <= j < 2 && j != i ==> !r[j] {
      assert !r[1 - i];
    }
    if r[0] != r[1] {
      var i := if r[0] then 0 else 1;
      assert r[i] && forall j :: 0 <= j < 2 && j != i ==> !r[j];
    }
  }

  lemma OneOfTwo(rx: Regex, a: Schema, b: Schema, v: Json)
    ensures Accepts(rx, EMPTY_SCHEMA.(oneOf := List([a, b])), v) <==> (Accepts(rx, a, v) <==> !Accepts(rx, b, v))
  {
    var s := EMPTY_SCHEMA.(oneOf := List([a, b]));
    ExactlyOneOfTwo(Verdicts(rx, [a, b], v));
    assert Accepts(rx, s, v) <==> AcceptsOne(rx, s.oneOf, v);
  }

  lemma ProjectCons(profiles: seq<Policy>, s: Schema, rest: seq<Schema>)
    requires Project(profiles, s).Ok? && ProjectSeq(profiles, rest).Ok?
    ensures ProjectSeq(profiles, [s] + rest) == Ok([Project(profiles, s).value] + ProjectSeq(profiles, rest).value)
  {
    assert ([s] + rest)[1..] == rest;
  }

  lemma OneOfProjects(profiles: seq<Policy>, a: Schema, b: Schema)
    requires Project(profiles, a).Ok? && Project(profiles, b).Ok?
    ensures Project(profiles, EMPTY_SCHEMA.(oneOf := List([a, b])))
         == Ok(EMPTY_SCHEMA.(oneOf := List([Project(profiles, a).value, Project(profiles, b).value])))
  {
    ProjectCons(profiles, b, []);
    ProjectCons(profiles, a, [b]);
    assert [b] + [] == [b] && [a] + [b] == [a, b];
    assert ProjectSeq(profiles, [a, b]).value == [Project(profiles, a).value, Project(profiles, b).value];
    var s := EMPTY_SCHEMA.(oneOf := List([a, b]));
    assert Strip(s) == s && ProfileRule(s).None? && !HasNestedConstraint(s);
    PartsShape(profiles, s);
  }

  /** On a document with a key that no completion has, the tool is its other form. */
  lemma OtherFormDecides(rx: Regex, c: Contents, other: Schema, key: string, d: Document)
    requires key in d && key !in c.completion
    ensures Accepts(rx, EMPTY_SCHEMA.(oneOf := List([CompletionForm(c.completion), other])), Obj(d))
       <==> Accepts(rx, other, Obj(d))
  {
    OneOfTwo(rx, CompletionForm(c.completion), other, Obj(d));
    CompletionRefuses(rx, c.completion, key, d);
  }

  lemma SemanticIsStrict(rx: Regex, c: Contents)
    requires PlainContents(c)
    ensures StrictEnvelope(rx, SemanticForm(c))
  {
    HandoffObjectIsEnvelope(rx, SemanticFields(c), ALL_PROFILES, ALL_OUTCOMES,
                            ["protocol", "profile", "outcome", "handoffs"], List(AgentHandoffRules(c)));
  }

  lemma SemanticExactly(rx: Regex, role: string, policy: Policy, c: Contents, e: Document)
    requires PlainContents(c) && policy in RoleProfiles(role) && Bare(e)
    ensures Project(RoleProfiles(role), SemanticForm(c)).Ok?
    ensures Accepts(rx, SemanticForm(c), Obj(BindMetadata(e, policy.profile))) <==>
              && Accepts(rx, ContentOf(SemanticOf(c)), Obj(e))
              && CanonicalBranches(rx, SemanticRules(c), policy.profile, e)
    ensures Accepts(rx, Project(RoleProfiles(role), SemanticForm(c)).value, Obj(e)) <==>
              && Accepts(rx, ContentOf(SemanticOf(c)), Obj(e))
              && IssuedBranches(rx, SemanticRules(c), RoleProfiles(role), e)
  {
    var f := SemanticOf(c);
    SemanticIsForm(c);
    SemanticGood(c);
    EveryProfileListed(role, policy);
    SemanticIsStrict(rx, c);
    ProfileNamed(role, policy);
    EnvelopeBinds(rx, SemanticForm(c), e, policy.profile);
    CanonicalVerdict(rx, f, policy.profile, e);
    IssuedVerdict(rx, RoleProfiles(role), f, e);
  }

  lemma NoOutcomeNoContent(rx: Regex, c: Contents, e: Document)
    requires "outcome" !in e
    ensures !Accepts(rx, ContentOf(SemanticOf(c)), Obj(e))
  {
    if Accepts(rx, ContentOf(SemanticOf(c)), Obj(e)) {
      assert SemanticOf(c).required[2] == "outcome";
      ContentNeedsOutcome(rx, SemanticOf(c), e);
    }
  }

  /** Binding a completion changes nothing; binding anything else makes it no
      completion, and it was none before. */
  lemma CompletionBinds(rx: Regex, c: Contents, profile: string, e: Document)
    requires CompletionApart(c) && PlainContents(c) && Bare(e)
    ensures Accepts(rx, CompletionForm(c.completion), Obj(BindMetadata(e, profile)))
       <==> Accepts(rx, CompletionForm(c.completion), Obj(e))
  {
    var d := BindMetadata(e, profile);
    if d != e {
      CompletionRefuses(rx, c.completion, "profile", d);
      CompletionRefuses(rx, c.completion, if "handoffs" in e then "handoffs" else "summary", e);
    }
  }

  lemma BindKeepsOutcome(e: Document, profile: string)
    ensures "outcome" in BindMetadata(e, profile) <==> "outcome" in e
  {
  }

  lemma AgentHandoffBareExactly(rx: Regex, role: string, policy: Policy, c: Contents, e: Document)
    requires PlainContents(c) && CompletionApart(c) && policy in RoleProfiles(role) && Bare(e)
    ensures ProjectForRole(role, AgentHandoff(c)).Ok?
    ensures Agrees(rx, role, AgentHandoff(c), policy.profile, e) <==>
              || !Accepts(rx, ContentOf(SemanticOf(c)), Obj(e))
              || (CanonicalBranches(rx, SemanticRules(c), policy.profile, e)
                  <==> IssuedBranches(rx, SemanticRules(c), RoleProfiles(role), e))
  {
    var profiles := RoleProfiles(role);
    var d := BindMetadata(e, policy.profile);
    SemanticExactly(rx, role, policy, c, e);
    CompletionFixed(profiles, c);
    OneOfProjects(profiles, CompletionForm(c.completion), SemanticForm(c));
    BindKeepsOutcome(e, policy.profile);
    var issued := Project(profiles, SemanticForm(c)).value;
    if "outcome" in e {
      OtherFormDecides(rx, c, SemanticForm(c), "outcome", d);
      OtherFormDecides(rx, c, issued, "outcome", e);
    } else {
      NoOutcomeNoContent(rx, c, e);
      CompletionBinds(rx, c, policy.profile, e);
      OneOfTwo(rx, CompletionForm(c.completion), SemanticForm(c), Obj(d));
      OneOfTwo(rx, CompletionForm(c.completion), issued, Obj(e));
    }
  }

  lemma MetadataKey(d: Document, profile: string) returns (key: string)
    requires !Bare(d)
    ensures key in METADATA && key in d && key in BindMetadata(d, profile)
  {
    key := if "profile" in d then "profile" else "protocol";
  }

  lemma SemanticAsks(c: Contents)
    ensures AsksForMetadata(SemanticOf(c))
  {
    var required := SemanticOf(c).required;
    assert required[0] == "protocol" && required[1] == "profile";
  }

  /** A completion form beside any handoff object. */
  function Tool(c: Contents, f: Form): Schema {
    EMPTY_SCHEMA.(oneOf := List([CompletionForm(c.completion), Canonical(f)]))
  }

  lemma ToolProjects(profiles: seq<Policy>, c: Contents, f: Form)
    requires PlainContents(c) && Project(profiles, Canonical(f)).Ok?
    ensures Project(profiles, Tool(c, f)) ==
              Ok(EMPTY_SCHEMA.(oneOf := List([CompletionForm(c.completion), Project(profiles, Canonical(f)).value])))
  {
    CompletionFixed(profiles, c);
    OneOfProjects(profiles, CompletionForm(c.completion), Canonical(f));
  }

  lemma ToolWithMetadata(rx: Regex, profiles: seq<Policy>, c: Contents, f: Form, profile: string, d: Document)
    requires PlainContents(c) && GoodForm(f) && AsksForMetadata(f) && !Bare(d)
    ensures Project(profiles, Tool(c, f)).Ok?
    ensures (Accepts(rx, Tool(c, f), Obj(BindMetadata(d, profile)))
             <==> Accepts(rx, Project(profiles, Tool(c, f)).value, Obj(d)))
       <==> !Means(rx, f, BindMetadata(d, profile))
  {
    var key := MetadataKey(d, profile);
    OwnMetadataExactly(rx, profiles, f, profile, d);
    ToolProjects(profiles, c, f);
    OtherFormDecides(rx, c, Canonical(f), key, BindMetadata(d, profile));
    OtherFormDecides(rx, c, Project(profiles, Canonical(f)).value, key, d);
  }

  lemma HandoffWithMetadata(rx: Regex, role: string, policy: Policy, c: Contents, d: Document)
    requires PlainContents(c) && policy in RoleProfiles(role) && !Bare(d)
    ensures ProjectForRole(role, AgentHandoff(c)).Ok?
    ensures Agrees(rx, role, AgentHandoff(c), policy.profile, d)
       <==> !Means(rx, SemanticOf(c), BindMetadata(d, policy.profile))
  {
    SemanticIsForm(c);
    SemanticGood(c);
    SemanticAsks(c);
    ToolWithMetadata(rx, RoleProfiles(role), c, SemanticOf(c), policy.profile, d);
  }

  /** `agent_handoff`, for every role and every document: without metadata of its own,
      the issued form agrees if and only if the content is refused or the branches
      picked by the outcome and by the profile give one verdict; with it, exactly when
      the canonical form refuses what the runtime makes of the document. */
  lemma AgentHandoffExactly(rx: Regex, role: string, policy: Policy, c: Contents, e: Document)
    requires PlainContents(c) && CompletionApart(c) && policy in RoleProfiles(role)
    ensures ProjectForRole(role, AgentHandoff(c)).Ok?
    ensures Agrees(rx, role, AgentHandoff(c), policy.profile, e) <==>
              if !Bare(e) then !Means(rx, SemanticOf(c), BindMetadata(e, policy.profile))
              else
                || !Accepts(rx, ContentOf(SemanticOf(c)), Obj(e))
                || (CanonicalBranches(rx, SemanticRules(c), policy.profile, e)
                    <==> IssuedBranches(rx, SemanticRules(c), RoleProfiles(role), e))
  {
    if Bare(e) {
      AgentHandoffBareExactly(rx, role, policy, c, e);
    } else {
      HandoffWithMetadata(rx, role, policy, c, e);
    }
  }

  /** The roles whose one profile every document must be meant for. */
  const SINGLE_PROFILE_ROLES: seq<string> := ["planner", "dev", "fix", "artificer", "assessor", "subagent"]

  lemma NamedRoleIsNoResearcher(i: nat)
    requires i < |SINGLE_PROFILE_ROLES|
    ensures NormalizedRole(SINGLE_PROFILE_ROLES[i]) != "researcher"
  {
    assert NormalizedRole(SINGLE_PROFILE_ROLES[i])[0] != 'r';
  }

  /** Only researchers have two profiles. */
  lemma OneProfileUnlessResearcher(role: string, p: Policy, q: Policy)
    requires p in RoleProfiles(role) && q in RoleProfiles(role) && NormalizedRole(role) != "researcher"
    ensures p == q
  {
    var i := RoleProfileRow(role, p);
    var j := RoleProfileRow(role, q);
    RolesOfRow(i, NormalizedRole(role));
    RolesOfRow(j, NormalizedRole(role));
    if i < j {
      SharedRole(i, j, NormalizedRole(role));
    } else if j < i {
      SharedRole(j, i, NormalizedRole(role));
    }
  }

  /** For the six roles with one profile it agrees on every document without metadata of
      its own, whatever it reports. */
  lemma SoleProfileAgrees(rx: Regex, role: string, policy: Policy, c: Contents, e: Document)
    requires PlainContents(c) && CompletionApart(c)
    requires role in SINGLE_PROFILE_ROLES && policy in RoleProfiles(role)
    ensures ProjectForRole(role, AgentHandoff(c)).Ok?
    ensures Agrees(rx, role, AgentHandoff(c), policy.profile, e)
       <==> Bare(e) || !Means(rx, SemanticOf(c), BindMetadata(e, policy.profile))
  {
    var i :| 0 <= i < |SINGLE_PROFILE_ROLES| && SINGLE_PROFILE_ROLES[i] == role;
    NamedRoleIsNoResearcher(i);
    forall p | p in RoleProfiles(role) ensures p == policy {
      OneProfileUnlessResearcher(role, p, policy);
    }
    AgentHandoffExactly(rx, role, policy, c, e);
    SoleProfileBranches(rx, SemanticRules(c), RoleProfiles(role), policy, e);
  }

  // ---- The canonical tool for researchers ----

  /** What every researcher profile asks of the document: no confidence, and no output
      root. */
  predicate ResearcherFrame(rx: Regex, c: Contents, e: Document) {
    && Accepts(rx, Negation(Requiring(["confidence"])), Obj(e))
    && Accepts(rx, OnlyProperty("handoffs", c.noOutputRoot), Obj(e))
  }

  /** What its own profile asks of the handoffs. */
  predicate OwnLimits(rx: Regex, c: Contents, policy: Policy, e: Document) {
    Accepts(rx, OnlyProperty("handoffs", if policy == PIPELINE_POLICY then c.compactLimits else c.reportClaims), Obj(e))
  }

  lemma OtherProfilesDiffer()
    ensures PLANNER_PLAN != RESEARCHER_PIPELINE && PLANNER_PLAN != RESEARCHER_REPORT
    ensures ASSESSOR_VERDICT != RESEARCHER_PIPELINE && ASSESSOR_VERDICT != RESEARCHER_REPORT
  {
    assert PLANNER_PLAN[0] == 'p' && ASSESSOR_VERDICT[0] == 'a' && RESEARCHER_PIPELINE[0] == 'r' && RESEARCHER_REPORT[0] == 'r';
  }

  lemma NegationDecides(test: Schema, policy: Policy)
    requires test.facets.constant.Some? || test.facets.enumeration.Some?
    ensures Matches(Negation(test), policy) <==> !Matches(test, policy)
  {
  }

  lemma AmongDecides(names: seq<string>, policy: Policy)
    ensures Matches(Among(names), policy) <==> policy.profile in names
  {
  }

  const SCOPED_PROFILES := [PLANNER_PLAN, RESEARCHER_PIPELINE, RESEARCHER_REPORT]

  /** The tests of the canonical tool on a researcher profile. */
  lemma TestsOf(p: Policy)
    requires p == PIPELINE_POLICY || p == REPORT_POLICY
    ensures Matches(Is(RESEARCHER_REPORT), p) <==> p == REPORT_POLICY
    ensures Matches(Negation(Is(RESEARCHER_REPORT)), p) <==> p == PIPELINE_POLICY
    ensures !Matches(Is(ASSESSOR_VERDICT), p) && !Matches(Is(PLANNER_PLAN), p)
    ensures Matches(Negation(Is(PLANNER_PLAN)), p) && !Matches(Negation(Among(SCOPED_PROFILES)), p)
  {
    ResearcherNamesDiffer();
    OtherProfilesDiffer();
    IsDecides(RESEARCHER_REPORT, p);
    IsDecides(PLANNER_PLAN, p);
    IsDecides(ASSESSOR_VERDICT, p);
    NegationDecides(Is(RESEARCHER_REPORT), p);
    NegationDecides(Is(PLANNER_PLAN), p);
    AmongDecides(SCOPED_PROFILES, p);
    NegationDecides(Among(SCOPED_PROFILES), p);
    assert SCOPED_PROFILES[1] == RESEARCHER_PIPELINE && SCOPED_PROFILES[2] == RESEARCHER_REPORT;
  }

  function Picks(pipeline: bool, report: bool): seq<bool> {
    [pipeline, report, false, false, true, false]
  }

  /** The decisions on the six tests of the canonical tool. */
  predicate Picked(decide: Schema -> bool, pipeline: bool, report: bool) {
    && decide(Negation(Is(RESEARCHER_REPORT))) == pipeline
    && decide(Is(RESEARCHER_REPORT)) == report
    && !decide(Is(ASSESSOR_VERDICT))
    && !decide(Negation(Among(SCOPED_PROFILES)))
    && decide(Negation(Is(PLANNER_PLAN)))
    && !decide(Is(PLANNER_PLAN))
  }

  lemma CanonicalPicked(policy: Policy)
    requires policy == PIPELINE_POLICY || policy == REPORT_POLICY
    ensures Picked((t: Schema) => ProfileMatches(t, policy.profile), policy == PIPELINE_POLICY, policy == REPORT_POLICY)
  {
    TestsOf(policy);
  }

  lemma IssuedPicked(e: Document)
    ensures Picked((t: Schema) => IssuedMatches(t, RoleProfiles("researcher"), e),
                   Reports(e, PIPELINE_POLICY), Reports(e, REPORT_POLICY))
  {
    ResearcherNamesDiffer();
    TestsOf(PIPELINE_POLICY);
    TestsOf(REPORT_POLICY);
    IssuedTest(Negation(Is(RESEARCHER_REPORT)), e);
    IssuedTest(Is(RESEARCHER_REPORT), e);
    IssuedTest(Is(ASSESSOR_VERDICT), e);
    IssuedTest(Negation(Among(SCOPED_PROFILES)), e);
    IssuedTest(Negation(Is(PLANNER_PLAN)), e);
    IssuedTest(Is(PLANNER_PLAN), e);
  }

  /** The branches of the six rules, given how each test is decided. */
  predicate PickedBranches(rx: Regex, c: Contents, pipeline: bool, report: bool, e: Document) {
    && ResearcherFrame(rx, c, e)
    && (pipeline ==> OwnLimits(rx, c, PIPELINE_POLICY, e))
    && (report ==> OwnLimits(rx, c, REPORT_POLICY, e))
  }

  predicate AllPicked(rx: Regex, rules: seq<Rule>, picks: seq<bool>, e: Document)
    requires |rules| == |picks|
  {
    forall i :: 0 <= i < |rules| ==> AcceptsSlot(rx, Branch(rules[i], picks[i]), Obj(e))
  }

  lemma SixPicked(rx: Regex, c: Contents, pipeline: bool, report: bool, e: Document)
    ensures AllPicked(rx, SemanticRules(c), Picks(pipeline, report), e) <==> PickedBranches(rx, c, pipeline, report, e)
  {
    var rules, picks := SemanticRules(c), Picks(pipeline, report);
    ResearcherNamesDiffer();
    assert AcceptsSlot(rx, Branch(rules[0], picks[0]), Obj(e)) <==> (pipeline ==> OwnLimits(rx, c, PIPELINE_POLICY, e));
    assert AcceptsSlot(rx, Branch(rules[1], picks[1]), Obj(e)) <==> (report ==> OwnLimits(rx, c, REPORT_POLICY, e));
    assert AcceptsSlot(rx, Branch(rules[2], picks[2]), Obj(e)) <==> Accepts(rx, Negation(Requiring(["confidence"])), Obj(e));
    assert AcceptsSlot(rx, Branch(rules[3], picks[3]), Obj(e));
    assert AcceptsSlot(rx, Branch(rules[4], picks[4]), Obj(e)) <==> Accepts(rx, OnlyProperty("handoffs", c.noOutputRoot), Obj(e));
    assert AcceptsSlot(rx, Branch(rules[5], picks[5]), Obj(e));
  }

  /** Every rule's branch, under any way to decide the tests. */
  predicate Branches(rx: Regex, rules: seq<Rule>, decide: Schema -> bool, e: Document) {
    forall r :: r in rules ==> AcceptsSlot(rx, Branch(r, decide(r.test)), Obj(e))
  }

  lemma PickedIndex(c: Contents, decide: Schema -> bool, pipeline: bool, report: bool, i: nat)
    requires Picked(decide, pipeline, report) && i < 6
    ensures decide(SemanticRules(c)[i].test) == Picks(pipeline, report)[i]
  {
  }

  lemma BranchesPicked(rx: Regex, c: Contents, decide: Schema -> bool, pipeline: bool, report: bool, e: Document)
    requires Picked(decide, pipeline, report)
    ensures Branches(rx, SemanticRules(c), decide, e) <==> PickedBranches(rx, c, pipeline, report, e)
  {
    var rules := SemanticRules(c);
    forall i | 0 <= i < |rules| ensures decide(rules[i].test) == Picks(pipeline, report)[i] {
      PickedIndex(c, decide, pipeline, report, i);
    }
    BranchesByIndex(rx, rules, decide, Picks(pipeline, report), e);
    SixPicked(rx, c, pipeline, report, e);
  }

  lemma BranchesByIndex(rx: Regex, rules: seq<Rule>, decide: Schema -> bool, picks: seq<bool>, e: Document)
    requires |rules| == |picks| && forall i :: 0 <= i < |rules| ==> decide(rules[i].test) == picks[i]
    ensures Branches(rx, rules, decide, e) <==> AllPicked(rx, rules, picks, e)
  {
  }

  lemma CanonicalSemantic(rx: Regex, c: Contents, policy: Policy, e: Document)
    requires policy == PIPELINE_POLICY || policy == REPORT_POLICY
    ensures CanonicalBranches(rx, SemanticRules(c), policy.profile, e) <==>
              PickedBranches(rx, c, policy == PIPELINE_POLICY, policy == REPORT_POLICY, e)
  {
    var decide := (t: Schema) => ProfileMatches(t, policy.profile);
    CanonicalPicked(policy);
    BranchesPicked(rx, c, decide, policy == PIPELINE_POLICY, policy == REPORT_POLICY, e);
    assert CanonicalBranches(rx, SemanticRules(c), policy.profile, e) <==> Branches(rx, SemanticRules(c), decide, e);
  }

  lemma IssuedAreBranches(rx: Regex, rules: seq<Rule>, profiles: seq<Policy>, e: Document)
    ensures IssuedBranches(rx, rules, profiles, e)
       <==> Branches(rx, rules, (t: Schema) => IssuedMatches(t, profiles, e), e)
  {
  }

  lemma IssuedSemantic(rx: Regex, c: Contents, e: Document)
    ensures IssuedBranches(rx, SemanticRules(c), RoleProfiles("researcher"), e) <==>
              PickedBranches(rx, c, Reports(e, PIPELINE_POLICY), Reports(e, REPORT_POLICY), e)
  {
    IssuedPicked(e);
    BranchesPicked(rx, c, (t: Schema) => IssuedMatches(t, RoleProfiles("researcher"), e),
                   Reports(e, PIPELINE_POLICY), Reports(e, REPORT_POLICY), e);
    IssuedAreBranches(rx, SemanticRules(c), RoleProfiles("researcher"), e);
  }

  lemma OneResearcherOutcome(e: Document)
    requires Reports(e, PIPELINE_POLICY)
    ensures !Reports(e, REPORT_POLICY)
  {
    ResearcherOutcomesDisjoint(e["outcome"].text);
  }

  /** The two researcher policies, in either order. */
  predicate ResearcherPair(policy: Policy, other: Policy) {
    || (policy == PIPELINE_POLICY && other == REPORT_POLICY)
    || (policy == REPORT_POLICY && other == PIPELINE_POLICY)
  }

  lemma PickedAgree(rx: Regex, c: Contents, policy: Policy, other: Policy, e: Document)
    requires ResearcherPair(policy, other)
    ensures (PickedBranches(rx, c, policy == PIPELINE_POLICY, policy == REPORT_POLICY, e)
             <==> PickedBranches(rx, c, Reports(e, PIPELINE_POLICY), Reports(e, REPORT_POLICY), e))
       <==> || Reports(e, policy) || !ResearcherFrame(rx, c, e)
            || (OwnLimits(rx, c, policy, e) <==> (Reports(e, other) ==> OwnLimits(rx, c, other, e)))
  {
    ResearcherNamesDiffer();
    if Reports(e, PIPELINE_POLICY) {
      OneResearcherOutcome(e);
    }
  }

  /** `agent_handoff` for researchers agrees on a document without metadata of its own if
      and only if the document reports an outcome of the bound profile, or both forms
      refuse it for its content or frame, or the bound profile's limits say what the other
      profile's say of a document that reports the other's outcome, and nothing of any
      other. */
  lemma ResearcherHandoffExactly(rx: Regex, policy: Policy, other: Policy, c: Contents, e: Document)
    requires PlainContents(c) && CompletionApart(c) && ResearcherPair(policy, other)
    ensures ProjectForRole("researcher", AgentHandoff(c)).Ok?
    ensures Agrees(rx, "researcher", AgentHandoff(c), policy.profile, e) <==>
              if !Bare(e) then !Means(rx, SemanticOf(c), BindMetadata(e, policy.profile))
              else
                || Reports(e, policy)
                || !Accepts(rx, ContentOf(SemanticOf(c)), Obj(e)) || !ResearcherFrame(rx, c, e)
                || (OwnLimits(rx, c, policy, e) <==> (Reports(e, other) ==> OwnLimits(rx, c, other, e)))
  {
    ResearcherRole(policy);
    AgentHandoffExactly(rx, "researcher", policy, c, e);
    CanonicalSemantic(rx, c, policy, e);
    IssuedSemantic(rx, c, e);
    PickedAgree(rx, c, policy, other, e);
  }
}
