/** What the handoff tool of each role accepts, in terms of the documents alone: the roles
    by name, the outcomes by name and the nested content, with no profile in sight. */
module IssuedMeanings {
  import opened Basics
  import opened JsonSchema
  import opened HandoffPolicy
  import opened HandoffProjection
  import opened ProjectionExactness
  import opened ProjectionLaws
  import opened HandoffTools
  import opened ShippedHandoffs
  import opened ForeignOutcomes
  import opened ShippedOutcomes
  import opened CoverageVariants
  import opened IssuedTools
  import opened ShippedTools

  // ---- Documents ----

  /** The document has only these fields, each as its schema wants it. */
  predicate Within(rx: Regex, fields: map<string, Schema>, e: Document) {
    forall k :: k in e ==> k in fields && Accepts(rx, fields[k], e[k])
  }

  /** A report: one of the outcomes, the needed keys, and otherwise these fields. */
  predicate Report(rx: Regex, fields: map<string, Schema>, outcomes: seq<string>, needed: seq<string>, e: Document) {
    ReportsOneOf(e, outcomes) && (forall k :: k in needed ==> k in e) && Within(rx, fields, e - {"outcome"})
  }

  /** A key that is there is as the schema wants it. */
  predicate KeyMeets(rx: Regex, key: string, s: Schema, e: Document) {
    key in e ==> Accepts(rx, s, e[key])
  }

  // ---- Content of a form ----

  lemma ObjectMeans(rx: Regex, fields: map<string, Schema>, required: seq<string>, rules: Slots, e: Document)
    ensures Accepts(rx, ClosedObject(fields, required).(allOf := rules), Obj(e)) <==>
              Within(rx, fields, e) && (forall k :: k in required ==> k in e) && AcceptsAll(rx, rules, Obj(e))
  {
    var c := ClosedObject(fields, required);
    ObjectSplits(rx, c, rules, e);
    assert AcceptsFields(rx, c, e) <==> Within(rx, fields, e) && forall k :: k in required ==> k in e;
  }

  lemma CompletionMeans(rx: Regex, fields: map<string, Schema>, e: Document)
    ensures Accepts(rx, CompletionForm(fields), Obj(e)) <==> Within(rx, fields, e)
  {
    var c := CompletionForm(fields);
    assert c == c.(allOf := NoList);
    ObjectSplits(rx, c, NoList, e);
  }

  lemma OutcomeMeans(rx: Regex, outcomes: seq<string>, v: Json)
    ensures Accepts(rx, OneOfTexts(outcomes), v) <==> v.Str? && v.text in outcomes
  {
    TextsOnly(rx, outcomes, v);
    if v.Str? {
      TextAccepted(rx, outcomes, v.text);
    }
  }

  /** Beside its metadata the form asks for an outcome and the needed keys. */
  ghost predicate Asks(f: Form, needed: seq<string>) {
    forall k :: k in f.required && k !in METADATA <==> k == "outcome" || k in needed
  }

  lemma ContentMeans(rx: Regex, f: Form, needed: seq<string>, e: Document)
    requires PlainFields(f.fields) && Asks(f, needed)
    ensures Accepts(rx, ContentOf(f), Obj(e)) <==> Report(rx, f.fields, f.outcomes, needed, e)
  {
    var listed := f.fields["outcome" := OneOfTexts(f.outcomes)];
    var required := Filter((k: string) => k !in METADATA, f.required);
    assert ContentOf(f) == ClosedObject(listed, required).(allOf := NoList);
    ObjectMeans(rx, listed, required, NoList, e);
    if "outcome" in e {
      OutcomeMeans(rx, f.outcomes, e["outcome"]);
      ListedKey(rx, f.fields, "outcome", OneOfTexts(f.outcomes), e);
    }
  }

  lemma ListedKey(rx: Regex, fields: map<string, Schema>, key: string, s: Schema, e: Document)
    requires key !in fields && key in e
    ensures Within(rx, fields[key := s], e) <==> Accepts(rx, s, e[key]) && Within(rx, fields, e - {key})
  {
    var listed, rest := fields[key := s], e - {key};
    assert listed[key] == s;
    if Within(rx, listed, e) {
      forall k | k in rest ensures k in fields && Accepts(rx, fields[k], rest[k]) {
        assert k in e && listed[k] == fields[k];
      }
    }
    if Accepts(rx, s, e[key]) && Within(rx, fields, rest) {
      forall k | k in e ensures k in listed && Accepts(rx, listed[k], e[k]) {
        if k != key {
          assert k in rest;
        }
      }
    }
  }

  lemma PropertyMeans(rx: Regex, key: string, s: Schema, e: Document)
    ensures Accepts(rx, OnlyProperty(key, s), Obj(e)) <==> KeyMeets(rx, key, s, e)
  {
    assert OnlyProperty(key, s).properties.entries[key] == s;
    assert AcceptsFields(rx, OnlyProperty(key, s), e) <==> KeyMeets(rx, key, s, e);
  }

  lemma RequiringMeans(rx: Regex, key: string, e: Document)
    ensures Accepts(rx, Requiring([key]), Obj(e)) <==> key in e
    ensures Accepts(rx, Negation(Requiring([key])), Obj(e)) <==> key !in e
  {
    assert AcceptsFields(rx, Requiring([key]), e) <==> key in e;
  }

  // ---- `agent_handoff` ----

  /** The part of `agent_handoff` that one role sees of its rules. */
  predicate RoleRules(rx: Regex, role: string, c: Contents, e: Document) {
    if role == "researcher" then
      && (ReportsOneOf(e, ["success", "gap", "input_required"]) ==> KeyMeets(rx, "handoffs", c.compactLimits, e))
      && (ReportsOneOf(e, ["complete"]) ==> KeyMeets(rx, "handoffs", c.reportClaims, e))
      && "confidence" !in e && KeyMeets(rx, "handoffs", c.noOutputRoot, e)
    else if role == "planner" then
      && KeyMeets(rx, "handoffs", c.compactLimits, e)
      && "confidence" !in e && KeyMeets(rx, "handoffs", c.plannerTasks, e)
    else
      && KeyMeets(rx, "handoffs", c.compactLimits, e)
      && ("confidence" in e <==> role == "assessor")
      && KeyMeets(rx, "handoffs", c.noScopeSeeds, e) && KeyMeets(rx, "handoffs", c.noOutputRoot, e)
  }

  /** The content of a semantic document. */
  predicate SemanticReport(rx: Regex, c: Contents, e: Document) {
    Report(rx, map["confidence" := c.confidence, "coverage" := c.coverage, "handoffs" := c.handoffs],
           ["success", "complete", "partial", "gap", "input_required", "failed", "blocked",
            "pass", "fail", "needs_replan", "needs_review"], ["handoffs"], e)
  }

  /** What the rules mean, given how their six tests are decided. */
  predicate SixMean(rx: Regex, c: Contents, picks: seq<bool>, e: Document)
    requires |picks| == 6
  {
    && (picks[0] ==> KeyMeets(rx, "handoffs", c.compactLimits, e))
    && (picks[1] ==> KeyMeets(rx, "handoffs", c.reportClaims, e))
    && ("confidence" in e <==> picks[2])
    && (picks[3] ==> KeyMeets(rx, "handoffs", c.noScopeSeeds, e))
    && (picks[4] ==> KeyMeets(rx, "handoffs", c.noOutputRoot, e))
    && (picks[5] ==> KeyMeets(rx, "handoffs", c.plannerTasks, e))
  }

  lemma HandoffsBranch(rx: Regex, test: Schema, content: Schema, pick: bool, e: Document)
    ensures AcceptsSlot(rx, Branch(Rule(test, Present(OnlyProperty("handoffs", content)), Absent), pick), Obj(e))
       <==> (pick ==> KeyMeets(rx, "handoffs", content, e))
  {
    PropertyMeans(rx, "handoffs", content, e);
  }

  lemma SixBranches(rx: Regex, c: Contents, picks: seq<bool>, e: Document)
    requires |picks| == 6
    ensures AllPicked(rx, SemanticRules(c), picks, e) <==> SixMean(rx, c, picks, e)
  {
    var rules := SemanticRules(c);
    HandoffsBranch(rx, rules[0].test, c.compactLimits, picks[0], e);
    HandoffsBranch(rx, rules[1].test, c.reportClaims, picks[1], e);
    RequiringMeans(rx, "confidence", e);
    HandoffsBranch(rx, rules[3].test, c.noScopeSeeds, picks[3], e);
    HandoffsBranch(rx, rules[4].test, c.noOutputRoot, picks[4], e);
    HandoffsBranch(rx, rules[5].test, c.plannerTasks, picks[5], e);
  }

  /** How one profile decides the six tests. */
  function PicksOf(profile: string): seq<bool> {
    [profile != RESEARCHER_REPORT, profile == RESEARCHER_REPORT, profile == ASSESSOR_VERDICT,
     profile !in SCOPED_PROFILES, profile != PLANNER_PLAN, profile == PLANNER_PLAN]
  }

  lemma SimpleTest(name: string, names: seq<string>, profile: string)
    ensures ProfileMatches(Is(name), profile) <==> profile == name
    ensures ProfileMatches(Negation(Is(name)), profile) <==> profile != name
    ensures ProfileMatches(Negation(Among(names)), profile) <==> profile !in names
  {
    assert MatchesProfile(Is(name), profile) == Ok(name == profile);
    assert MatchesProfile(Among(names), profile) == Ok(profile in names);
  }

  lemma PickOf(c: Contents, profile: string, i: nat)
    requires i < 6
    ensures ProfileMatches(SemanticRules(c)[i].test, profile) == PicksOf(profile)[i]
  {
    SimpleTest(RESEARCHER_REPORT, SCOPED_PROFILES, profile);
    SimpleTest(ASSESSOR_VERDICT, [], profile);
    SimpleTest(PLANNER_PLAN, [], profile);
  }

  lemma CanonicalBranchesMean(rx: Regex, c: Contents, profile: string, e: Document)
    ensures CanonicalBranches(rx, SemanticRules(c), profile, e) <==> SixMean(rx, c, PicksOf(profile), e)
  {
    var rules := SemanticRules(c);
    var decide := (t: Schema) => ProfileMatches(t, profile);
    forall i | 0 <= i < |rules| ensures decide(rules[i].test) == PicksOf(profile)[i] {
      PickOf(c, profile, i);
    }
    BranchesByIndex(rx, rules, decide, PicksOf(profile), e);
    SixBranches(rx, c, PicksOf(profile), e);
    assert CanonicalBranches(rx, rules, profile, e) <==> Branches(rx, rules, decide, e);
  }

  /** The one profile of each role that has just one. */
  lemma SoleProfile(role: string, p: Policy)
    requires p in RoleProfiles(role) && role != "researcher"
    ensures role == "planner" ==> p.profile == PLANNER_PLAN
    ensures role == "assessor" ==> p.profile == ASSESSOR_VERDICT
    ensures role !in {"planner", "assessor"} ==> p.profile in [DEV_RESULT, ARTIFICER_RESULT, CITATION_SYNTHESIS]
  {
    var i := RoleProfileRow(role, p);
    RolesOfRow(i, NormalizedRole(role));
  }

  /** How the six tests are decided for a role with one profile. */
  function RolePicks(role: string): seq<bool> {
    if role == "planner" then [true, false, false, false, false, true]
    else [true, false, role == "assessor", true, true, false]
  }

  lemma ProfilePicks(profile: string)
    ensures profile == PLANNER_PLAN ==> PicksOf(profile) == [true, false, false, false, false, true]
    ensures profile == ASSESSOR_VERDICT ==> PicksOf(profile) == [true, false, true, true, true, false]
    ensures profile in [DEV_RESULT, ARTIFICER_RESULT, CITATION_SYNTHESIS] ==>
              PicksOf(profile) == [true, false, false, true, true, false]
  {
    assert PLANNER_PLAN[0] == 'p' && ASSESSOR_VERDICT[0] == 'a' && ASSESSOR_VERDICT[1] == 's' && DEV_RESULT[0] == 'd';
    assert ARTIFICER_RESULT[0] == 'a' && ARTIFICER_RESULT[1] == 'r' && CITATION_SYNTHESIS[0] == 'c';
    assert RESEARCHER_REPORT[0] == 'r' && RESEARCHER_PIPELINE[0] == 'r';
    assert SCOPED_PROFILES[0] == PLANNER_PLAN;
  }

  lemma SoleNotResearcher(role: string)
    requires role in SINGLE_PROFILE_ROLES
    ensures role != "researcher"
  {
    var i :| 0 <= i < |SINGLE_PROFILE_ROLES| && SINGLE_PROFILE_ROLES[i] == role;
    assert "researcher"[0] == 'r' && role[0] != 'r';
  }

  lemma SolePicks(role: string, p: Policy)
    requires role in SINGLE_PROFILE_ROLES && p in RoleProfiles(role)
    ensures PicksOf(p.profile) == RolePicks(role)
  {
    SoleNotResearcher(role);
    SoleProfile(role, p);
    ProfilePicks(p.profile);
    assert "planner"[0] != "assessor"[0];
  }

  lemma RolePicksMean(rx: Regex, role: string, c: Contents, e: Document)
    requires role != "researcher"
    ensures SixMean(rx, c, RolePicks(role), e) <==> RoleRules(rx, role, c, e)
  {
    assert "planner"[0] != "assessor"[0];
  }

  /** For a role with one profile the rules mean what the role's name says. */
  lemma SoleRulesMean(rx: Regex, role: string, c: Contents, e: Document)
    requires role in SINGLE_PROFILE_ROLES
    ensures IssuedBranches(rx, SemanticRules(c), RoleProfiles(role), e) <==> RoleRules(rx, role, c, e)
  {
    SingleProfileExactly(role);
    var p := RoleProfiles(role)[0];
    assert p in RoleProfiles(role);
    SoleProfileBranches(rx, SemanticRules(c), RoleProfiles(role), p, e);
    CanonicalBranchesMean(rx, c, p.profile, e);
    SoleNotResearcher(role);
    SolePicks(role, p);
    RolePicksMean(rx, role, c, e);
  }

  lemma ReportsByName(e: Document)
    ensures Reports(e, PIPELINE_POLICY) <==> ReportsOneOf(e, ["success", "gap", "input_required"])
    ensures Reports(e, REPORT_POLICY) <==> ReportsOneOf(e, ["complete"])
  {
  }

  lemma ResearcherRulesMean(rx: Regex, c: Contents, e: Document)
    ensures IssuedBranches(rx, SemanticRules(c), RoleProfiles("researcher"), e) <==> RoleRules(rx, "researcher", c, e)
  {
    IssuedSemantic(rx, c, e);
    RequiringMeans(rx, "confidence", e);
    PropertyMeans(rx, "handoffs", c.noOutputRoot, e);
    PropertyMeans(rx, "handoffs", c.compactLimits, e);
    PropertyMeans(rx, "handoffs", c.reportClaims, e);
    ReportsByName(e);
    ResearcherNamesDiffer();
  }

  lemma SemanticMeans(rx: Regex, role: string, c: Contents, e: Document)
    requires PlainContents(c) && role in KNOWN_ROLES
    ensures Project(RoleProfiles(role), SemanticForm(c)).Ok?
    ensures Accepts(rx, Project(RoleProfiles(role), SemanticForm(c)).value, Obj(e))
       <==> SemanticReport(rx, c, e) && RoleRules(rx, role, c, e)
  {
    var f := SemanticOf(c);
    SemanticIsForm(c);
    SemanticGood(c);
    IssuedVerdict(rx, RoleProfiles(role), f, e);
    NestedAsks(f);
    ContentMeans(rx, f, ["handoffs"], e);
    SingleOrResearcher(role);
    if role == "researcher" {
      ResearcherRulesMean(rx, c, e);
    } else {
      SoleRulesMean(rx, role, c, e);
    }
  }

  lemma NestedAsks(f: Form)
    requires f.required == ["protocol", "profile", "outcome", "handoffs"]
    ensures Asks(f, ["handoffs"])
  {
    assert f.required[2] == "outcome" && f.required[3] == "handoffs";
  }

  lemma FlatAsks(f: Form)
    requires f.required == ["profile", "outcome", "summary"]
    ensures Asks(f, ["summary"])
  {
    assert f.required[1] == "outcome" && f.required[2] == "summary";
  }

  /** The `agent_handoff` issued to a role: a completion, or a report that meets the
      role's rules. */
  predicate HandoffMeans(rx: Regex, role: string, c: Contents, e: Document) {
    || Within(rx, c.completion, e)
    || (SemanticReport(rx, c, e) && RoleRules(rx, role, c, e))
  }

  /** `agent_handoff` as issued to each of the seven roles, on every document. */
  lemma IssuedHandoffMeans(rx: Regex, role: string, c: Contents, e: Document)
    requires PlainContents(c) && role in KNOWN_ROLES
    ensures Project(RoleProfiles(role), AgentHandoff(c)).Ok?
    ensures Accepts(rx, Project(RoleProfiles(role), AgentHandoff(c)).value, Obj(e)) <==> HandoffMeans(rx, role, c, e)
  {
    var profiles := RoleProfiles(role);
    SemanticMeans(rx, role, c, e);
    CompletionFixed(profiles, c);
    OneOfProjects(profiles, CompletionForm(c.completion), SemanticForm(c));
    OneOfTwo(rx, CompletionForm(c.completion), Project(profiles, SemanticForm(c)).value, Obj(e));
    CompletionMeans(rx, c.completion, e);
  }

  // ---- The other tools ----

  /** A flat or nested researcher report, with the ledger that the attempt wants. */
  predicate ResearcherMeans(rx: Regex, k: Catalogue, o: Options, e: Document) {
    var outcomes := ["success", "gap", "input_required", "complete"];
    var pipeline := ReportsOneOf(e, ["success", "gap", "input_required"]);
    var report := ReportsOneOf(e, ["complete"]);
    && LedgerAsIssued(o.requireCoverage, e)
    && (if !o.compactV3 then
          && Report(rx, k.researcher, outcomes, ["handoffs"], e)
          && (pipeline ==> KeyMeets(rx, "handoffs", k.pipelineLimits, e))
          && (report ==> KeyMeets(rx, "handoffs", k.reportClaims, e))
        else if !o.compactV4 then
          && Report(rx, k.compact, outcomes, ["summary"], e)
          && (pipeline ==> KeyMeets(rx, "summary", k.summaryLimit, e) && KeyMeets(rx, "claims", k.claimsLimit, e))
          && (report && "claims" in e && e["claims"].Arr? ==> |e["claims"].elems| >= 1)
        else Report(rx, k.report, ["complete"], ["summary"], e))
  }

  predicate PlanMeans(rx: Regex, sharedContracts: Schema, tasks: Schema, e: Document) {
    Within(rx, map["shared_contracts" := sharedContracts, "tasks" := tasks], e) && "tasks" in e
  }

  /** A verdict; a failed one comes with a repair and evidence, any other with neither. */
  predicate VerdictMeans(rx: Regex, fields: map<string, Schema>, e: Document) {
    && "verdict" in e && e["verdict"].Str?
    && e["verdict"].text in ["pass", "fail", "needs_replan", "needs_review", "blocked"]
    && "confidence" in e && "proof" in e && Within(rx, fields, e - {"verdict"})
    && (e["verdict"].text == "fail" <==> "repair" in e) && (e["verdict"].text == "fail" <==> "evidence" in e)
  }

  /** What the tool issued to a role accepts. */
  predicate ToolMeans(rx: Regex, k: Catalogue, role: string, o: Options, e: Document) {
    if role == "researcher" && o.researchInvestigation then
      Report(rx, map["report" := k.childReport], ["complete", "partial", "failed"], ["report"], e)
    else if !o.compactCompletion then HandoffMeans(rx, role, k.handoff, e)
    else if role == "researcher" then ResearcherMeans(rx, k, o, e)
    else if role == "planner" then PlanMeans(rx, k.sharedContracts, if o.compactV3 then k.compactTasks else k.tasks, e)
    else if role == "dev" || role == "fix" then Within(rx, k.dev, e)
    else if role == "artificer" then Within(rx, k.artificer, e)
    else if role == "assessor" then
      if o.compactV3 then VerdictMeans(rx, k.verdict, e)
      else Report(rx, k.assessor, ["pass", "fail", "needs_replan", "needs_review", "blocked"], ["confidence", "handoffs"], e)
    else Report(rx, k.citation, ["complete", "partial", "failed"], ["handoffs"], e)
  }

  // ---- Each of them ----

  lemma PlanFormMeans(rx: Regex, sharedContracts: Schema, tasks: Schema, e: Document)
    ensures Accepts(rx, PlannerForm(sharedContracts, tasks), Obj(e)) <==> PlanMeans(rx, sharedContracts, tasks, e)
  {
    var fields := map["shared_contracts" := sharedContracts, "tasks" := tasks];
    assert PlannerForm(sharedContracts, tasks) == ClosedObject(fields, ["tasks"]).(allOf := NoList);
    ObjectMeans(rx, fields, ["tasks"], NoList, e);
  }

  lemma ChildFormMeans(rx: Regex, report: Schema, e: Document)
    ensures Accepts(rx, ResearchChildForm(report), Obj(e))
       <==> Report(rx, map["report" := report], ["complete", "partial", "failed"], ["report"], e)
  {
    var fields := map["report" := report];
    var outcomes := ["complete", "partial", "failed"];
    var listed := fields["outcome" := OneOfTexts(outcomes)];
    assert listed == map["outcome" := OneOfTexts(outcomes), "report" := report];
    assert ResearchChildForm(report) == ClosedObject(listed, ["outcome", "report"]).(allOf := NoList);
    ObjectMeans(rx, listed, ["outcome", "report"], NoList, e);
    if "outcome" in e {
      OutcomeMeans(rx, outcomes, e["outcome"]);
      ListedKey(rx, fields, "outcome", OneOfTexts(outcomes), e);
    }
  }

  predicate Failed(e: Document) {
    "verdict" in e && e["verdict"] == Str("fail")
  }

  lemma FailedTest(rx: Regex, e: Document)
    ensures Accepts(rx, VerdictRule().cond.schema, Obj(e)) <==> Failed(e)
  {
    var test := VerdictRule().cond.schema;
    assert test.properties.entries["verdict"] == Is("fail");
    if "verdict" in e {
      assert Accepts(rx, Is("fail"), e["verdict"]) <==> e["verdict"] == Str("fail");
    }
    assert AcceptsFields(rx, test, e) <==> Failed(e);
  }

  lemma RequiringBoth(rx: Regex, a: string, b: string, e: Document)
    ensures Accepts(rx, Requiring([a, b]), Obj(e)) <==> a in e && b in e
    ensures Accepts(rx, Negation(EMPTY_SCHEMA.(anyOf := List([Requiring([a]), Requiring([b])]))), Obj(e)) <==> a !in e && b !in e
  {
    assert AcceptsFields(rx, Requiring([a, b]), e) <==> a in e && b in e by {
      assert [a, b][0] == a && [a, b][1] == b;
    }
    RequiringMeans(rx, a, e);
    RequiringMeans(rx, b, e);
    var either := EMPTY_SCHEMA.(anyOf := List([Requiring([a]), Requiring([b])]));
    var verdicts := Verdicts(rx, [Requiring([a]), Requiring([b])], Obj(e));
    assert true in verdicts <==> verdicts[0] || verdicts[1];
    assert Accepts(rx, either, Obj(e)) <==> AcceptsAny(rx, either.anyOf, Obj(e));
  }

  lemma VerdictRuleMeans(rx: Regex, e: Document)
    ensures Accepts(rx, VerdictRule(), Obj(e)) <==>
              if Failed(e) then "repair" in e && "evidence" in e else "repair" !in e && "evidence" !in e
  {
    var s := VerdictRule();
    FailedTest(rx, e);
    RequiringBoth(rx, "repair", "evidence", e);
    ConditionalSplits(rx, s, Obj(e));
    assert WithoutConditional(s) == EMPTY_SCHEMA;
    EmptyAccepts(rx, Obj(e));
  }

  lemma VerdictFormMeans(rx: Regex, fields: map<string, Schema>, e: Document)
    requires "verdict" !in fields
    ensures Accepts(rx, VerdictForm(fields), Obj(e)) <==> VerdictMeans(rx, fields, e)
  {
    var verdicts := ["pass", "fail", "needs_replan", "needs_review", "blocked"];
    var listed := fields["verdict" := OneOfTexts(verdicts)];
    var required := ["verdict", "confidence", "proof"];
    ObjectMeans(rx, listed, required, List([VerdictRule()]), e);
    OneRule(rx, VerdictRule(), Obj(e));
    VerdictRuleMeans(rx, e);
    ThreeKeys(required[0], required[1], required[2], e);
    if "verdict" in e {
      OutcomeMeans(rx, verdicts, e["verdict"]);
      ListedKey(rx, fields, "verdict", OneOfTexts(verdicts), e);
    }
  }

  lemma OneRule(rx: Regex, s: Schema, v: Json)
    ensures AcceptsAll(rx, List([s]), v) <==> Accepts(rx, s, v)
  {
    assert Verdicts(rx, [s], v)[0] == Accepts(rx, s, v);
  }

  lemma ThreeKeys(a: string, b: string, c: string, e: Document)
    ensures (forall k :: k in [a, b, c] ==> k in e) <==> a in e && b in e && c in e
  {
    assert [a, b, c][0] == a && [a, b, c][1] == b && [a, b, c][2] == c;
  }

  /** A form without rules, as issued to any role. */
  lemma PlainFormMeans(rx: Regex, profiles: seq<Policy>, f: Form, needed: seq<string>, e: Document)
    requires GoodForm(f) && f.rules == [] && Asks(f, needed)
    ensures Project(profiles, Canonical(f)).Ok?
    ensures Accepts(rx, Project(profiles, Canonical(f)).value, Obj(e)) <==> Report(rx, f.fields, f.outcomes, needed, e)
  {
    IssuedVerdict(rx, profiles, f, e);
    ContentMeans(rx, f, needed, e);
  }

  lemma AssessorAsks(f: Form)
    requires f.required == ["protocol", "profile", "outcome", "confidence", "handoffs"]
    ensures Asks(f, ["confidence", "handoffs"])
  {
    assert f.required[2] == "outcome" && f.required[3] == "confidence" && f.required[4] == "handoffs";
  }

  lemma EnvelopesMean(rx: Regex, k: Catalogue, profiles: seq<Policy>, e: Document)
    requires PlainCatalogue(k)
    ensures var s := Shipped(k).assessor;
            && Project(profiles, s).Ok?
            && (Accepts(rx, Project(profiles, s).value, Obj(e)) <==>
                  Report(rx, k.assessor, ["pass", "fail", "needs_replan", "needs_review", "blocked"], ["confidence", "handoffs"], e))
    ensures var s := Shipped(k).citation;
            && Project(profiles, s).Ok?
            && (Accepts(rx, Project(profiles, s).value, Obj(e)) <==>
                  Report(rx, k.citation, ["complete", "partial", "failed"], ["handoffs"], e))
  {
    EnvelopeKeys();
    AssessorAsks(AssessorForm(k.assessor));
    NestedAsks(CitationForm(k.citation));
    PlainFormMeans(rx, profiles, AssessorForm(k.assessor), ["confidence", "handoffs"], e);
    PlainFormMeans(rx, profiles, CitationForm(k.citation), ["handoffs"], e);
  }

  // ---- The researcher's forms ----

  lemma TwoRuleMeans(
    rx: Regex, fields: map<string, Schema>, withProtocol: bool, required: seq<string>, needed: seq<string>,
    atPipeline: Schema, atReport: Schema, e: Document)
    requires var f := TwoRuleForm(fields, withProtocol, required, atPipeline, atReport); GoodForm(f) && Asks(f, needed)
    ensures var s := Canonical(TwoRuleForm(fields, withProtocol, required, atPipeline, atReport));
            && Project(RoleProfiles("researcher"), s).Ok?
            && (Accepts(rx, Project(RoleProfiles("researcher"), s).value, Obj(e)) <==>
                  && Report(rx, fields, ["success", "gap", "input_required", "complete"], needed, e)
                  && (ReportsOneOf(e, ["success", "gap", "input_required"]) ==> Accepts(rx, atPipeline, Obj(e)))
                  && (ReportsOneOf(e, ["complete"]) ==> Accepts(rx, atReport, Obj(e))))
  {
    var f := TwoRuleForm(fields, withProtocol, required, atPipeline, atReport);
    IssuedVerdict(rx, RoleProfiles("researcher"), f, e);
    ContentMeans(rx, f, needed, e);
    TwoRulesIssued(rx, atPipeline, atReport, e);
    ReportsByName(e);
  }

  lemma LimitsMean(rx: Regex, summaryLimit: Schema, claimsLimit: Schema, e: Document)
    ensures Accepts(rx, CompactLimits(summaryLimit, claimsLimit), Obj(e)) <==>
              KeyMeets(rx, "summary", summaryLimit, e) && KeyMeets(rx, "claims", claimsLimit, e)
    ensures Accepts(rx, OnlyProperty("claims", SOME_CLAIM), Obj(e)) <==>
              ("claims" in e && e["claims"].Arr? ==> |e["claims"].elems| >= 1)
  {
    var s := CompactLimits(summaryLimit, claimsLimit);
    assert s.properties.entries["summary"] == summaryLimit && s.properties.entries["claims"] == claimsLimit;
    assert AcceptsFields(rx, s, e) <==> KeyMeets(rx, "summary", summaryLimit, e) && KeyMeets(rx, "claims", claimsLimit, e);
    PropertyMeans(rx, "claims", SOME_CLAIM, e);
    if "claims" in e {
      SomeClaimMeans(rx, e["claims"]);
    }
  }

  lemma SomeClaimMeans(rx: Regex, v: Json)
    ensures Accepts(rx, SOME_CLAIM, v) <==> (v.Arr? ==> |v.elems| >= 1)
  {
  }

  lemma EnvelopeMeans(rx: Regex, k: Catalogue, e: Document)
    requires PlainCatalogue(k)
    ensures var s := Shipped(k).researcher;
            && Project(RoleProfiles("researcher"), s).Ok?
            && (Accepts(rx, Project(RoleProfiles("researcher"), s).value, Obj(e)) <==>
                  && Report(rx, k.researcher, ["success", "gap", "input_required", "complete"], ["handoffs"], e)
                  && (ReportsOneOf(e, ["success", "gap", "input_required"]) ==> KeyMeets(rx, "handoffs", k.pipelineLimits, e))
                  && (ReportsOneOf(e, ["complete"]) ==> KeyMeets(rx, "handoffs", k.reportClaims, e)))
  {
    EnvelopeIsForm(k.researcher, k.pipelineLimits, k.reportClaims);
    EnvelopeOfGood(k.researcher, k.pipelineLimits, k.reportClaims);
    NestedAsks(EnvelopeOf(k.researcher, k.pipelineLimits, k.reportClaims));
    PropertyMeans(rx, "handoffs", k.pipelineLimits, e);
    PropertyMeans(rx, "handoffs", k.reportClaims, e);
    TwoRuleMeans(rx, k.researcher, true, ["protocol", "profile", "outcome", "handoffs"], ["handoffs"],
                 OnlyProperty("handoffs", k.pipelineLimits), OnlyProperty("handoffs", k.reportClaims), e);
  }

  lemma CompactMeans(rx: Regex, k: Catalogue, e: Document)
    requires PlainCatalogue(k)
    ensures var s := Shipped(k).researcherV3;
            && Project(RoleProfiles("researcher"), s).Ok?
            && (Accepts(rx, Project(RoleProfiles("researcher"), s).value, Obj(e)) <==>
                  && Report(rx, k.compact, ["success", "gap", "input_required", "complete"], ["summary"], e)
                  && (ReportsOneOf(e, ["success", "gap", "input_required"]) ==>
                        KeyMeets(rx, "summary", k.summaryLimit, e) && KeyMeets(rx, "claims", k.claimsLimit, e))
                  && (ReportsOneOf(e, ["complete"]) ==> ("claims" in e && e["claims"].Arr? ==> |e["claims"].elems| >= 1)))
  {
    CompactIsForm(k.compact, k.summaryLimit, k.claimsLimit);
    CompactFormGood(k.compact, k.summaryLimit, k.claimsLimit);
    FlatAsks(CompactForm(k.compact, k.summaryLimit, k.claimsLimit));
    LimitsMean(rx, k.summaryLimit, k.claimsLimit, e);
    TwoRuleMeans(rx, k.compact, false, ["profile", "outcome", "summary"], ["summary"],
                 CompactLimits(k.summaryLimit, k.claimsLimit), OnlyProperty("claims", SOME_CLAIM), e);
  }

  lemma ReportMeans(rx: Regex, k: Catalogue, profiles: seq<Policy>, e: Document)
    requires PlainCatalogue(k)
    ensures var s := Shipped(k).researcherV4;
            && Project(profiles, s).Ok?
            && (Accepts(rx, Project(profiles, s).value, Obj(e)) <==> Report(rx, k.report, ["complete"], ["summary"], e))
  {
    ReportIsForm(k.report);
    FlatAsks(ReportForm(k.report));
    PlainFormMeans(rx, profiles, ReportForm(k.report), ["summary"], e);
  }

  /** The three researcher forms list the ledger and leave it optional. */
  predicate Ledgers(k: Catalogue) {
    OptionalLedger(k.researcher) && OptionalLedger(k.compact) && OptionalLedger(k.report)
  }

  lemma ResearcherCoverage(k: Catalogue, o: Options)
    requires PlainCatalogue(k) && Ledgers(k)
    ensures CoverageForm(ResearcherTool(Shipped(k), o))
  {
    var t := Shipped(k);
    CoverageNotRequired();
    var outcomes := ["success", "gap", "input_required", "complete"];
    var flat, nested := ["profile", "outcome", "summary"], ["protocol", "profile", "outcome", "handoffs"];
    ObjectIsCoverageForm(k.researcher, true, RESEARCHER_PROFILES, outcomes, nested, t.researcher.allOf);
    ObjectIsCoverageForm(k.compact, false, RESEARCHER_PROFILES, outcomes, flat, t.researcherV3.allOf);
    ObjectIsCoverageForm(k.report, false, [RESEARCHER_REPORT], ["complete"], flat, NoList);
  }

  lemma ResearcherToolMeans(rx: Regex, k: Catalogue, o: Options, e: Document)
    requires PlainCatalogue(k) && Ledgers(k)
    ensures var s := SelectCoverage(ResearcherTool(Shipped(k), o), o.requireCoverage);
            && Project(RoleProfiles("researcher"), s).Ok?
            && (Accepts(rx, Project(RoleProfiles("researcher"), s).value, Obj(e)) <==> ResearcherMeans(rx, k, o, e))
  {
    EnvelopeMeans(rx, k, e);
    CompactMeans(rx, k, e);
    ReportMeans(rx, k, RoleProfiles("researcher"), e);
    ResearcherCoverage(k, o);
    VariantIssued(rx, ResearcherTool(Shipped(k), o), o.requireCoverage, e);
  }

  // ---- All tools ----

  /** A tool that is issued with this meaning. */
  predicate Issues(rx: Regex, profiles: seq<Policy>, s: Schema, e: Document, meaning: bool) {
    Project(profiles, s).Ok? && (Accepts(rx, Project(profiles, s).value, Obj(e)) <==> meaning)
  }

  lemma SettledIssues(rx: Regex, profiles: seq<Policy>, s: Schema, e: Document)
    requires Settled(s)
    ensures Issues(rx, profiles, s, e, Accepts(rx, s, Obj(e)))
  {
    SettledIsFixed(profiles, s);
  }

  /** The tools without metadata. */
  predicate PlainToolsMean(rx: Regex, k: Catalogue, t: Tools, profiles: seq<Policy>, e: Document) {
    && Issues(rx, profiles, t.dev, e, Within(rx, k.dev, e))
    && Issues(rx, profiles, t.artificer, e, Within(rx, k.artificer, e))
    && Issues(rx, profiles, t.planner, e, PlanMeans(rx, k.sharedContracts, k.tasks, e))
    && Issues(rx, profiles, t.plannerV3, e, PlanMeans(rx, k.sharedContracts, k.compactTasks, e))
    && Issues(rx, profiles, t.assessorV3, e, VerdictMeans(rx, k.verdict, e))
    && Issues(rx, profiles, t.researchChild, e,
              Report(rx, map["report" := k.childReport], ["complete", "partial", "failed"], ["report"], e))
  }

  lemma PlainToolsIssue(rx: Regex, k: Catalogue, profiles: seq<Policy>, e: Document)
    requires PlainCatalogue(k)
    ensures PlainToolsMean(rx, k, Shipped(k), profiles, e)
  {
    var t := Shipped(k);
    PlainSettled(k);
    SettledIssues(rx, profiles, t.dev, e);
    SettledIssues(rx, profiles, t.artificer, e);
    SettledIssues(rx, profiles, t.planner, e);
    SettledIssues(rx, profiles, t.plannerV3, e);
    SettledIssues(rx, profiles, t.assessorV3, e);
    SettledIssues(rx, profiles, t.researchChild, e);
    CompletionMeans(rx, k.dev, e);
    CompletionMeans(rx, k.artificer, e);
    PlanFormMeans(rx, k.sharedContracts, k.tasks, e);
    PlanFormMeans(rx, k.sharedContracts, k.compactTasks, e);
    VerdictFormMeans(rx, k.verdict, e);
    ChildFormMeans(rx, k.childReport, e);
  }

  lemma RoleIs(i: nat, j: nat)
    requires i < |KNOWN_ROLES| && j < |KNOWN_ROLES|
    ensures KNOWN_ROLES[i] == KNOWN_ROLES[j] <==> i == j
  {
    var first := ['r', 'p', 'd', 'f', 'a', 'a', 's'];
    assert KNOWN_ROLES[i][0] == first[i] && KNOWN_ROLES[j][0] == first[j];
    assert KNOWN_ROLES[4][1] == 'r' && KNOWN_ROLES[5][1] == 's';
  }

  /** The meaning by the row of the role. */
  predicate MeaningAt(rx: Regex, k: Catalogue, i: nat, o: Options, e: Document)
    requires i < |KNOWN_ROLES|
  {
    if i == 0 && o.researchInvestigation then
      Report(rx, map["report" := k.childReport], ["complete", "partial", "failed"], ["report"], e)
    else if !o.compactCompletion then HandoffMeans(rx, KNOWN_ROLES[i], k.handoff, e)
    else if i == 0 then ResearcherMeans(rx, k, o, e)
    else if i == 1 then PlanMeans(rx, k.sharedContracts, if o.compactV3 then k.compactTasks else k.tasks, e)
    else if i == 2 || i == 3 then Within(rx, k.dev, e)
    else if i == 4 then Within(rx, k.artificer, e)
    else if i == 5 then
      if o.compactV3 then VerdictMeans(rx, k.verdict, e)
      else Report(rx, k.assessor, ["pass", "fail", "needs_replan", "needs_review", "blocked"], ["confidence", "handoffs"], e)
    else Report(rx, k.citation, ["complete", "partial", "failed"], ["handoffs"], e)
  }

  lemma MeaningByRow(rx: Regex, k: Catalogue, i: nat, o: Options, e: Document)
    requires i < |KNOWN_ROLES|
    ensures ToolMeans(rx, k, KNOWN_ROLES[i], o, e) <==> MeaningAt(rx, k, i, o, e)
  {
    RoleIs(i, 0);
    RoleIs(i, 1);
    RoleIs(i, 2);
    RoleIs(i, 3);
    RoleIs(i, 4);
    RoleIs(i, 5);
  }

  /** Each tool of the catalogue means what its role's documents are. */
  predicate ToolsIssue(rx: Regex, k: Catalogue, t: Tools, i: nat, o: Options, e: Document)
    requires i < |KNOWN_ROLES|
  {
    var profiles := RoleProfiles(KNOWN_ROLES[i]);
    && PlainToolsMean(rx, k, t, profiles, e)
    && Issues(rx, profiles, t.canonical, e, HandoffMeans(rx, KNOWN_ROLES[i], k.handoff, e))
    && (i == 0 ==> Issues(rx, profiles, SelectCoverage(ResearcherTool(t, o), o.requireCoverage), e, ResearcherMeans(rx, k, o, e)))
    && Issues(rx, profiles, t.assessor, e,
              Report(rx, k.assessor, ["pass", "fail", "needs_replan", "needs_review", "blocked"], ["confidence", "handoffs"], e))
    && Issues(rx, profiles, t.citation, e, Report(rx, k.citation, ["complete", "partial", "failed"], ["handoffs"], e))
  }

  lemma ToolOfIssues(rx: Regex, k: Catalogue, t: Tools, i: nat, o: Options, e: Document)
    requires i < |KNOWN_ROLES| && ToolsIssue(rx, k, t, i, o, e)
    ensures Issues(rx, RoleProfiles(KNOWN_ROLES[i]), ToolOf(t, i, o), e, MeaningAt(rx, k, i, o, e))
  {
  }

  lemma RowIssues(rx: Regex, k: Catalogue, i: nat, o: Options, e: Document)
    requires PlainCatalogue(k) && Ledgers(k) && i < |KNOWN_ROLES|
    ensures ToolsIssue(rx, k, Shipped(k), i, o, e)
  {
    var profiles := RoleProfiles(KNOWN_ROLES[i]);
    IssuedHandoffMeans(rx, KNOWN_ROLES[i], k.handoff, e);
    ResearcherToolMeans(rx, k, o, e);
    PlainToolsIssue(rx, k, profiles, e);
    EnvelopesMean(rx, k, profiles, e);
  }

  /** Every tool that a known role can be issued, on every document: by role, options,
      outcome and content alone. */
  lemma IssuedToolMeans(rx: Regex, k: Catalogue, role: string, o: Options, e: Document)
    requires PlainCatalogue(k) && Ledgers(k) && role in KNOWN_ROLES
    ensures Issued(Shipped(k), role, o).Ok?
    ensures Accepts(rx, Issued(Shipped(k), role, o).value, Obj(e)) <==> ToolMeans(rx, k, role, o, e)
  {
    var i :| 0 <= i < |KNOWN_ROLES| && KNOWN_ROLES[i] == role;
    IssuedExactly(Shipped(k), role, o);
    SelectKnown(Shipped(k), i, o);
    RowIssues(rx, k, i, o, e);
    ToolOfIssues(rx, k, Shipped(k), i, o, e);
    MeaningByRow(rx, k, i, o, e);
  }
}
