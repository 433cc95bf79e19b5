/** The catalogued handoff tools with the schemas they ship, and what a role's spelling
    does to the tool it is issued. */
module ShippedTools {
  import opened Basics
  import opened JsonSchema
  import opened Text
  import opened HandoffPolicy
  import opened HandoffProjection
  import opened ProjectionExactness
  import opened ProjectionLaws
  import opened HandoffTools
  import opened ShippedHandoffs
  import opened ForeignOutcomes
  import opened ShippedOutcomes
  import opened CoverageVariants
  import opened IssuedTools

  // ---- The forms without metadata ----

  function ClosedObject(fields: map<string, Schema>, required: seq<string>): Schema {
    EMPTY_SCHEMA.(
      facets := NO_FACETS.(types := Some({TObject})), properties := Table(fields),
      required := Some(required), additional := Allowed(false))
  }

  function PlannerForm(sharedContracts: Schema, tasks: Schema): Schema {
    ClosedObject(map["shared_contracts" := sharedContracts, "tasks" := tasks], ["tasks"])
  }

  function ResearchChildForm(report: Schema): Schema {
    ClosedObject(map["outcome" := OneOfTexts(["complete", "partial", "failed"]), "report" := report], ["outcome", "report"])
  }

  /** A failed verdict comes with a repair and evidence, any other with neither. */
  function VerdictRule(): Schema {
    EMPTY_SCHEMA.(
      cond := Present(EMPTY_SCHEMA.(properties := Table(map["verdict" := Is("fail")]), required := Some(["verdict"]))),
      then_ := Present(Requiring(["repair", "evidence"])),
      else_ := Present(Negation(EMPTY_SCHEMA.(anyOf := List([Requiring(["repair"]), Requiring(["evidence"])])))))
  }

  /** The compact verdict; `fields` is all of its content but the verdict. */
  function VerdictForm(fields: map<string, Schema>): Schema {
    ClosedObject(
      fields["verdict" := OneOfTexts(["pass", "fail", "needs_replan", "needs_review", "blocked"])],
      ["verdict", "confidence", "proof"]).(allOf := List([VerdictRule()]))
  }

  // ---- The catalogue ----

  /** The content that the projection never enters. */
  datatype Catalogue = Catalogue(
    handoff: Contents, dev: map<string, Schema>, artificer: map<string, Schema>,
    assessor: map<string, Schema>, verdict: map<string, Schema>,
    researcher: map<string, Schema>, pipelineLimits: Schema, reportClaims: Schema,
    compact: map<string, Schema>, summaryLimit: Schema, claimsLimit: Schema,
    report: map<string, Schema>,
    sharedContracts: Schema, tasks: Schema, compactTasks: Schema,
    citation: map<string, Schema>, childReport: Schema)

  predicate PlainCatalogue(k: Catalogue) {
    && PlainContents(k.handoff)
    && PlainFields(k.dev) && PlainFields(k.artificer) && PlainFields(k.assessor)
    && PlainFields(k.verdict) && "verdict" !in k.verdict
    && PlainFields(k.researcher) && PlainFields(k.compact) && PlainFields(k.report) && PlainFields(k.citation)
    && !HasProfileConstraint(k.pipelineLimits) && !HasProfileConstraint(k.reportClaims)
    && !HasProfileConstraint(k.summaryLimit) && !HasProfileConstraint(k.claimsLimit)
    && !HasProfileConstraint(k.sharedContracts) && !HasProfileConstraint(k.tasks)
    && !HasProfileConstraint(k.compactTasks) && !HasProfileConstraint(k.childReport)
  }

  function Shipped(k: Catalogue): Tools {
    Tools(
      AgentHandoff(k.handoff), CompletionForm(k.dev), CompletionForm(k.artificer),
      AssessorEnvelope(k.assessor), VerdictForm(k.verdict),
      ResearcherEnvelope(k.researcher, k.pipelineLimits, k.reportClaims),
      ResearcherCompact(k.compact, k.summaryLimit, k.claimsLimit), ReportCompact(k.report),
      PlannerForm(k.sharedContracts, k.tasks), PlannerForm(k.sharedContracts, k.compactTasks),
      CitationEnvelope(k.citation), ResearchChildForm(k.childReport))
  }

  // ---- Forms with and without metadata ----

  lemma ClosedSettled(fields: map<string, Schema>, required: seq<string>, rules: Slots)
    requires "profile" !in fields && "protocol" !in fields && forall k :: k in fields ==> !HasProfileConstraint(fields[k])
    requires "profile" !in required && "protocol" !in required && ListSettled(rules)
    ensures Settled(ClosedObject(fields, required).(allOf := rules))
  {
    var s := ClosedObject(fields, required).(allOf := rules);
    assert SlotSettled(Absent) && ListSettled(NoList);
    assert !HasNestedConstraint(s) && ProfileRule(s).None?;
  }

  lemma PlannerSettled(sharedContracts: Schema, tasks: Schema)
    requires !HasProfileConstraint(sharedContracts) && !HasProfileConstraint(tasks)
    ensures Settled(PlannerForm(sharedContracts, tasks))
  {
    assert "shared_contracts"[0] == 's' && "tasks"[0] == 't' && "profile"[0] == 'p' && "protocol"[0] == 'p';
    var s := PlannerForm(sharedContracts, tasks);
    ClosedSettled(s.properties.entries, ["tasks"], NoList);
    assert s.(allOf := NoList) == s;
  }

  lemma ResearchChildSettled(report: Schema)
    requires !HasProfileConstraint(report)
    ensures Settled(ResearchChildForm(report))
  {
    assert "outcome"[0] == 'o' && "report"[0] == 'r' && "profile"[0] == 'p' && "protocol"[0] == 'p';
    var s := ResearchChildForm(report);
    assert !HasProfileConstraint(s.properties.entries["outcome"]);
    ClosedSettled(s.properties.entries, ["outcome", "report"], NoList);
    assert s.(allOf := NoList) == s;
  }

  lemma RequiringSettled(key: string, other: string)
    requires key !in METADATA && other !in METADATA
    ensures Settled(Requiring([key])) && Settled(Requiring([key, other]))
  {
  }

  lemma VerdictRuleSettled()
    ensures Settled(VerdictRule())
  {
    assert "repair"[0] == 'r' && "evidence"[0] == 'e' && "profile"[0] == 'p' && "protocol"[0] == 'p' && "verdict"[0] == 'v';
    RequiringSettled("repair", "evidence");
    RequiringSettled("evidence", "repair");
    var neither := EMPTY_SCHEMA.(anyOf := List([Requiring(["repair"]), Requiring(["evidence"])]));
    assert Settled(neither);
    assert Settled(Negation(neither));
  }

  lemma VerdictSettled(fields: map<string, Schema>)
    requires PlainFields(fields)
    ensures Settled(VerdictForm(fields))
  {
    assert "verdict"[0] == 'v' && "confidence"[0] == 'c' && "proof"[3] == 'o' && "profile"[3] == 'f' && "protocol"[3] == 't';
    VerdictRuleSettled();
    var s := VerdictForm(fields);
    forall k | k in s.properties.entries ensures !HasProfileConstraint(s.properties.entries[k]) {
      assert k == "verdict" || s.properties.entries[k] == fields[k];
    }
    ClosedSettled(s.properties.entries, ["verdict", "confidence", "proof"], s.allOf);
  }

  lemma ListedUnsettled(s: Schema)
    requires Listed(s.properties, "profile")
    ensures !Settled(s)
  {
  }

  lemma HandoffObjectListed(
    fields: map<string, Schema>, withProtocol: bool, profiles: seq<string>, outcomes: seq<string>,
    required: seq<string>, rules: Slots, requireCoverage: bool)
    ensures var s := HandoffObject(fields, withProtocol, profiles, outcomes, required, rules);
            Listed(s.properties, "profile") && Listed(SelectCoverage(s, requireCoverage).properties, "profile")
  {
    assert "profile"[0] != COVERAGE[0];
  }

  lemma CanonicalUnsettled(c: Contents)
    ensures !Settled(AgentHandoff(c))
  {
    var s := AgentHandoff(c);
    ListedUnsettled(SemanticForm(c));
    assert s.oneOf.schemas[1] == SemanticForm(c);
  }

  // ---- What a role is issued ----

  /** The researcher tool that the options select, before its coverage variant. */
  function ResearcherTool(t: Tools, o: Options): Schema {
    if o.compactV3 && o.compactV4 then t.researcherV4 else if o.compactV3 then t.researcherV3 else t.researcher
  }

  /** The selected tool of the known roles, in their order. */
  function ToolOf(t: Tools, i: nat, o: Options): Schema
    requires i < |KNOWN_ROLES|
  {
    if i == 0 && o.researchInvestigation then t.researchChild
    else if !o.compactCompletion then t.canonical
    else if i == 0 then SelectCoverage(ResearcherTool(t, o), o.requireCoverage)
    else if i == 1 then (if o.compactV3 then t.plannerV3 else t.planner)
    else if i == 2 || i == 3 then t.dev
    else if i == 4 then t.artificer
    else if i == 5 then (if o.compactV3 then t.assessorV3 else t.assessor)
    else t.citation
  }

  lemma SelectKnown(t: Tools, i: nat, o: Options)
    requires i < |KNOWN_ROLES|
    ensures Select(t, KNOWN_ROLES[i], o) == ToolOf(t, i, o)
  {
    KnownSpelling(i);
  }

  /** The known roles and options whose shipped tool has no metadata to erase: the research
      child, the completions, the plans and the compact verdict. */
  predicate NothingToErase(known: string, o: Options) {
    if known == "researcher" then o.researchInvestigation
    else
      && o.compactCompletion
      && (known in ["planner", "dev", "fix", "artificer"] || (known == "assessor" && o.compactV3))
  }

  /** The same, by the row of the role. */
  predicate NothingToEraseAt(i: nat, o: Options) {
    if i == 0 then o.researchInvestigation
    else o.compactCompletion && (1 <= i <= 4 || (i == 5 && o.compactV3))
  }

  lemma NothingToEraseByRow(i: nat, o: Options)
    requires i < |KNOWN_ROLES|
    ensures NothingToErase(KNOWN_ROLES[i], o) <==> NothingToEraseAt(i, o)
  {
    var listed := ["planner", "dev", "fix", "artificer"];
    if 1 <= i <= 4 {
      assert listed[i - 1] == KNOWN_ROLES[i];
    }
    assert "subagent"[0] == 's' && "assessor"[0] == 'a' && "artificer"[1] == 'r' && "assessor"[1] == 's';
    assert "planner"[0] == 'p' && "dev"[0] == 'd' && "fix"[0] == 'f' && "artificer"[0] == 'a' && "researcher"[0] == 'r';
  }

  lemma ResearcherUnsettled(k: Catalogue, o: Options)
    ensures !Settled(SelectCoverage(ResearcherTool(Shipped(k), o), o.requireCoverage))
  {
    var t := Shipped(k);
    var outcomes := ["success", "gap", "input_required", "complete"];
    var flat, nested := ["profile", "outcome", "summary"], ["protocol", "profile", "outcome", "handoffs"];
    HandoffObjectListed(k.report, false, [RESEARCHER_REPORT], ["complete"], flat, NoList, o.requireCoverage);
    HandoffObjectListed(k.compact, false, RESEARCHER_PROFILES, outcomes, flat, t.researcherV3.allOf, o.requireCoverage);
    HandoffObjectListed(k.researcher, true, RESEARCHER_PROFILES, outcomes, nested, t.researcher.allOf, o.requireCoverage);
  }

  lemma EnvelopesUnsettled(k: Catalogue)
    ensures !Settled(Shipped(k).assessor) && !Settled(Shipped(k).citation)
  {
    ListedUnsettled(Shipped(k).assessor);
    ListedUnsettled(Shipped(k).citation);
  }

  lemma PlainSettled(k: Catalogue)
    requires PlainCatalogue(k)
    ensures var t := Shipped(k);
            && Settled(t.dev) && Settled(t.artificer) && Settled(t.assessorV3)
            && Settled(t.planner) && Settled(t.plannerV3) && Settled(t.researchChild)
  {
    CompletionSettled(k.dev);
    CompletionSettled(k.artificer);
    VerdictSettled(k.verdict);
    PlannerSettled(k.sharedContracts, k.tasks);
    PlannerSettled(k.sharedContracts, k.compactTasks);
    ResearchChildSettled(k.childReport);
  }

  /** The tools that have metadata to erase, as `ResearcherUnsettled` and the lemmas
      around it find them. */
  predicate MetadataWhereShipped(t: Tools, o: Options) {
    && Settled(t.dev) && Settled(t.artificer) && Settled(t.assessorV3)
    && Settled(t.planner) && Settled(t.plannerV3) && Settled(t.researchChild)
    && !Settled(t.canonical) && !Settled(t.assessor) && !Settled(t.citation)
    && !Settled(SelectCoverage(ResearcherTool(t, o), o.requireCoverage))
  }

  lemma ToolSettled(t: Tools, i: nat, o: Options)
    requires i < |KNOWN_ROLES| && MetadataWhereShipped(t, o)
    ensures Settled(ToolOf(t, i, o)) <==> NothingToEraseAt(i, o)
  {
  }

  lemma ShippedMetadata(k: Catalogue, o: Options)
    requires PlainCatalogue(k)
    ensures MetadataWhereShipped(Shipped(k), o)
  {
    CanonicalUnsettled(k.handoff);
    ResearcherUnsettled(k, o);
    EnvelopesUnsettled(k);
    PlainSettled(k);
  }

  /** Which shipped tools have metadata to erase, by role and options. */
  lemma SettledExactly(k: Catalogue, known: string, o: Options)
    requires PlainCatalogue(k) && known in KNOWN_ROLES
    ensures Settled(Select(Shipped(k), known, o)) <==> NothingToErase(known, o)
  {
    var i :| 0 <= i < |KNOWN_ROLES| && KNOWN_ROLES[i] == known;
    SelectKnown(Shipped(k), i, o);
    NothingToEraseByRow(i, o);
    ShippedMetadata(k, o);
    ToolSettled(Shipped(k), i, o);
  }

  /** Another spelling of a known role is issued the tool of the role if and only if it is
      the known spelling after all, or the role and the options select a tool without
      metadata. */
  lemma SpellingExactly(k: Catalogue, known: string, role: string, o: Options)
    requires PlainCatalogue(k) && known in KNOWN_ROLES && Spelling(role) == known
    ensures Issued(Shipped(k), role, o) == Issued(Shipped(k), known, o) <==> role == known || NothingToErase(known, o)
  {
    SpellingMatters(Shipped(k), known, role, o);
    SettledExactly(k, known, o);
  }

  lemma CapitalSpelling()
    ensures Spelling("Researcher") == "researcher" && "Researcher" != "researcher"
  {
    TrimmedIsFixed("Researcher");
    assert "Researcher"[0] == 'R' && "researcher"[0] == 'r';
  }

  /** A capital letter is enough: outside the research child, "Researcher" is never issued
      what "researcher" is. */
  lemma CapitalMatters(k: Catalogue, o: Options)
    requires PlainCatalogue(k)
    ensures Issued(Shipped(k), "Researcher", o) == Issued(Shipped(k), "researcher", o) <==> o.researchInvestigation
  {
    assert KNOWN_ROLES[0] == "researcher";
    CapitalSpelling();
    SpellingExactly(k, "researcher", "Researcher", o);
  }

  lemma IssuedBySpelling(t: Tools, known: string, role: string, o: Options)
    requires known in KNOWN_ROLES && Spelling(role) == known && role != known
    ensures Issued(t, role, o) == Ok(Select(t, known, o))
    ensures Issued(t, known, o) == Project(RoleProfiles(known), Select(t, known, o))
  {
    IssuedExactly(t, role, o);
    IssuedExactly(t, known, o);
    if role in KNOWN_ROLES {
      KnownIsSpelled(role);
    }
  }

  // ---- What the difference means for documents ----

  /** No document is accepted both as written and as projected. */
  ghost predicate Apart(rx: Regex, profiles: seq<Policy>, s: Schema) {
    && Project(profiles, s).Ok?
    && forall d: Document :: Accepts(rx, s, Obj(d)) ==> !Accepts(rx, Project(profiles, s).value, Obj(d))
  }

  /** A closed form that asks for the profile: as written it refuses documents without a
      profile, as projected those with one. */
  lemma ClosedApart(rx: Regex, profiles: seq<Policy>, s: Schema)
    requires ProfileRule(s).None? && Project(profiles, s).Ok?
    requires s.properties.Table? && s.additional == Allowed(false) && "profile" in RequiredOf(s)
    ensures Apart(rx, profiles, s)
  {
    PlainProjection(profiles, s);
    var r := Project(profiles, s).value;
    assert !Listed(r.properties, "profile") && r.additional == Allowed(false);
    forall d: Document | Accepts(rx, s, Obj(d)) ensures !Accepts(rx, r, Obj(d)) {
      ObjectNeedsFields(rx, s, d);
      if Accepts(rx, r, Obj(d)) {
        ObjectNeedsFields(rx, r, d);
      }
    }
  }

  lemma CoverageKeepsProfile(s: Schema, requireCoverage: bool)
    requires Listed(s.properties, COVERAGE) && "profile" in RequiredOf(s)
    ensures "profile" in RequiredOf(SelectCoverage(s, requireCoverage))
  {
    assert "profile"[0] != COVERAGE[0];
  }

  lemma VariantApart(rx: Regex, profiles: seq<Policy>, s: Schema, requireCoverage: bool)
    requires ProfileRule(s).None? && Project(profiles, s).Ok?
    requires s.properties.Table? && s.additional == Allowed(false) && "profile" in RequiredOf(s)
    requires Listed(s.properties, COVERAGE) ==> !HasProfileConstraint(s.properties.entries[COVERAGE])
    ensures Apart(rx, profiles, SelectCoverage(s, requireCoverage))
  {
    if Listed(s.properties, COVERAGE) {
      CoverageCommutesWithProjection(profiles, s, requireCoverage);
      CoverageKeepsProfile(s, requireCoverage);
    }
    ClosedApart(rx, profiles, SelectCoverage(s, requireCoverage));
  }

  lemma FormApart(rx: Regex, profiles: seq<Policy>, f: Form, requireCoverage: bool)
    requires GoodForm(f) && "profile" in f.required
    ensures Apart(rx, profiles, Canonical(f)) && Apart(rx, profiles, SelectCoverage(Canonical(f), requireCoverage))
  {
    var s := Canonical(f);
    IssuedVerdict(rx, profiles, f, map[]);
    StrippedForm(f);
    ClosedApart(rx, profiles, s);
    if Listed(s.properties, COVERAGE) {
      assert "profile"[0] != COVERAGE[0] && "protocol"[0] != COVERAGE[0] && "outcome"[0] != COVERAGE[0];
      assert s.properties.entries[COVERAGE] == f.fields[COVERAGE];
    }
    VariantApart(rx, profiles, s, requireCoverage);
  }

  lemma ResearchersApart(rx: Regex, profiles: seq<Policy>, k: Catalogue, requireCoverage: bool)
    requires PlainCatalogue(k)
    ensures var t := Shipped(k);
            && Apart(rx, profiles, SelectCoverage(t.researcher, requireCoverage))
            && Apart(rx, profiles, SelectCoverage(t.researcherV3, requireCoverage))
            && Apart(rx, profiles, SelectCoverage(t.researcherV4, requireCoverage))
  {
    EnvelopeApart(rx, profiles, k.researcher, k.pipelineLimits, k.reportClaims, requireCoverage);
    CompactApart(rx, profiles, k.compact, k.summaryLimit, k.claimsLimit, requireCoverage);
    ReportIsForm(k.report);
    FormApart(rx, profiles, ReportForm(k.report), requireCoverage);
  }

  lemma EnvelopeApart(
    rx: Regex, profiles: seq<Policy>, fields: map<string, Schema>, pipelineLimits: Schema, reportClaims: Schema,
    requireCoverage: bool)
    requires PlainFields(fields) && !HasProfileConstraint(pipelineLimits) && !HasProfileConstraint(reportClaims)
    ensures Apart(rx, profiles, SelectCoverage(ResearcherEnvelope(fields, pipelineLimits, reportClaims), requireCoverage))
  {
    EnvelopeIsForm(fields, pipelineLimits, reportClaims);
    EnvelopeOfGood(fields, pipelineLimits, reportClaims);
    EnvelopeKeys();
    FormApart(rx, profiles, EnvelopeOf(fields, pipelineLimits, reportClaims), requireCoverage);
  }

  lemma CompactApart(
    rx: Regex, profiles: seq<Policy>, fields: map<string, Schema>, summaryLimit: Schema, claimsLimit: Schema,
    requireCoverage: bool)
    requires PlainFields(fields) && !HasProfileConstraint(summaryLimit) && !HasProfileConstraint(claimsLimit)
    ensures Apart(rx, profiles, SelectCoverage(ResearcherCompact(fields, summaryLimit, claimsLimit), requireCoverage))
  {
    CompactIsForm(fields, summaryLimit, claimsLimit);
    CompactFormGood(fields, summaryLimit, claimsLimit);
    FormApart(rx, profiles, CompactForm(fields, summaryLimit, claimsLimit), requireCoverage);
  }

  lemma EnvelopesApart(rx: Regex, profiles: seq<Policy>, k: Catalogue)
    requires PlainCatalogue(k)
    ensures Apart(rx, profiles, Shipped(k).assessor) && Apart(rx, profiles, Shipped(k).citation)
  {
    EnvelopeKeys();
    FormApart(rx, profiles, AssessorForm(k.assessor), false);
    FormApart(rx, profiles, CitationForm(k.citation), false);
  }

  lemma ToolApart(rx: Regex, profiles: seq<Policy>, t: Tools, i: nat, o: Options)
    requires i < |KNOWN_ROLES| && o.compactCompletion && !NothingToEraseAt(i, o)
    requires Apart(rx, profiles, SelectCoverage(ResearcherTool(t, o), o.requireCoverage))
    requires Apart(rx, profiles, t.assessor) && Apart(rx, profiles, t.citation)
    ensures Apart(rx, profiles, ToolOf(t, i, o))
  {
  }

  lemma SelectedApart(rx: Regex, k: Catalogue, known: string, o: Options)
    requires PlainCatalogue(k) && known in KNOWN_ROLES
    requires o.compactCompletion && !NothingToErase(known, o)
    ensures Apart(rx, RoleProfiles(known), Select(Shipped(k), known, o))
  {
    var i :| 0 <= i < |KNOWN_ROLES| && KNOWN_ROLES[i] == known;
    SelectKnown(Shipped(k), i, o);
    NothingToEraseByRow(i, o);
    ResearchersApart(rx, RoleProfiles(known), k, o.requireCoverage);
    EnvelopesApart(rx, RoleProfiles(known), k);
    ToolApart(rx, RoleProfiles(known), Shipped(k), i, o);
  }

  /** Where the spelling matters and completions are compact, the two tools have no
      document in common: the misspelled one asks for the metadata that the other
      refuses. */
  lemma MisspelledShareNothing(rx: Regex, k: Catalogue, known: string, role: string, o: Options, d: Document)
    requires PlainCatalogue(k) && known in KNOWN_ROLES && Spelling(role) == known && role != known
    requires o.compactCompletion && !NothingToErase(known, o)
    ensures Issued(Shipped(k), role, o).Ok? && Issued(Shipped(k), known, o).Ok?
    ensures Accepts(rx, Issued(Shipped(k), role, o).value, Obj(d)) ==> !Accepts(rx, Issued(Shipped(k), known, o).value, Obj(d))
  {
    SelectedApart(rx, k, known, o);
    IssuedBySpelling(Shipped(k), known, role, o);
  }

  // ---- Roles with one profile ----

  lemma SingleOrResearcher(role: string)
    ensures role in KNOWN_ROLES <==> role == "researcher" || role in SINGLE_PROFILE_ROLES
  {
    assert KNOWN_ROLES == ["researcher"] + SINGLE_PROFILE_ROLES;
  }

  /** The six named roles are exactly those with one profile. */
  lemma SingleProfileExactly(role: string)
    ensures role in SINGLE_PROFILE_ROLES <==>
              RoleProfiles(role) != [] && forall p, q :: p in RoleProfiles(role) && q in RoleProfiles(role) ==> p == q
  {
    RolesWithProfiles(role);
    SingleOrResearcher(role);
    if role in SINGLE_PROFILE_ROLES {
      var i :| 0 <= i < |SINGLE_PROFILE_ROLES| && SINGLE_PROFILE_ROLES[i] == role;
      NamedRoleIsNoResearcher(i);
      forall p, q | p in RoleProfiles(role) && q in RoleProfiles(role) ensures p == q {
        OneProfileUnlessResearcher(role, p, q);
      }
    } else if role == "researcher" {
      ResearcherRows();
      ResearcherNamesDiffer();
    }
  }
}
