/** Inputs that show the side conditions of the projection are needed. */
module ProjectionLimits {
  import opened Basics
  import opened JsonSchema
  import opened HandoffPolicy
  import opened HandoffProjection
  import opened ProjectionExactness
  import opened ProjectionLaws
  import opened HandoffTools
  import opened ForeignOutcomes
  import opened ShippedHandoffs
  import opened ShippedOutcomes

  const CLAIMLESS: Document := map["outcome" := Str("success"), "summary" := Str("s"), "claims" := Arr([])]

  const SUMMARY := EMPTY_SCHEMA.(facets := NO_FACETS.(types := Some({TString}), minLength := Some(1)))
  const SUMMARY_LIMIT := EMPTY_SCHEMA.(facets := NO_FACETS.(maxLength := Some(4000)))

  function Claims(claim: Schema): Schema {
    EMPTY_SCHEMA.(facets := NO_FACETS.(types := Some({TArray})), items := Present(claim))
  }

  function ClaimsLimit(limit: Schema): Schema {
    EMPTY_SCHEMA.(facets := NO_FACETS.(maxItems := Some(12)), items := Present(limit))
  }

  /** The two fields of the compact form that a report is made of, over any claim. */
  function ReportFields(claim: Schema): map<string, Schema> {
    map["summary" := SUMMARY, "claims" := Claims(claim)]
  }

  lemma ClaimlessFits(rx: Regex, claim: Schema, limit: Schema)
    ensures Accepts(rx, SUMMARY, CLAIMLESS["summary"]) && Accepts(rx, SUMMARY_LIMIT, CLAIMLESS["summary"])
    ensures Accepts(rx, Claims(claim), CLAIMLESS["claims"]) && Accepts(rx, ClaimsLimit(limit), CLAIMLESS["claims"])
    ensures !Accepts(rx, SOME_CLAIM, CLAIMLESS["claims"])
  {
  }

  lemma ContentOfThree(rx: Regex, fields: map<string, Schema>, d: Document)
    requires fields.Keys == {"summary", "claims"} && d.Keys == {"outcome", "summary", "claims"} && d["outcome"] == Str("success")
    requires Accepts(rx, fields["summary"], d["summary"]) && Accepts(rx, fields["claims"], d["claims"])
    ensures Accepts(rx, Content(fields, RESEARCHER_OUTCOMES, ["profile", "outcome", "summary"]), Obj(d))
  {
    var c := Content(fields, RESEARCHER_OUTCOMES, ["profile", "outcome", "summary"]);
    ObjectSplits(rx, c, NoList, d);
    assert c.(allOf := NoList) == c;
    TextAccepted(rx, RESEARCHER_OUTCOMES, "success");
    assert RESEARCHER_OUTCOMES[0] == "success";
    assert "outcome"[0] == 'o' && "summary"[0] == 's' && "claims"[0] == 'c';
    forall k | k in d ensures k in c.properties.entries && Accepts(rx, c.properties.entries[k], d[k]) {
      assert k == "outcome" || c.properties.entries[k] == fields[k];
    }
  }

  lemma ClaimlessContent(rx: Regex, claim: Schema)
    ensures Accepts(rx, Content(ReportFields(claim), RESEARCHER_OUTCOMES, ["profile", "outcome", "summary"]), Obj(CLAIMLESS))
  {
    ClaimlessFits(rx, claim, claim);
    ContentOfThree(rx, ReportFields(claim), CLAIMLESS);
  }

  lemma ClaimlessBranches(rx: Regex, limit: Schema)
    ensures Accepts(rx, CompactLimits(SUMMARY_LIMIT, ClaimsLimit(limit)), Obj(CLAIMLESS))
    ensures !Accepts(rx, OnlyProperty("claims", SOME_CLAIM), Obj(CLAIMLESS))
  {
    ClaimlessFits(rx, limit, limit);
    var within := CompactLimits(SUMMARY_LIMIT, ClaimsLimit(limit));
    assert AcceptsFields(rx, within, CLAIMLESS);
    var s := OnlyProperty("claims", SOME_CLAIM);
    assert s.properties.entries["claims"] == SOME_CLAIM;
    assert !AcceptsFields(rx, s, CLAIMLESS);
  }

  lemma ClaimlessReports()
    ensures Reports(CLAIMLESS, PIPELINE_POLICY) && !Reports(CLAIMLESS, REPORT_POLICY) && Bare(CLAIMLESS)
  {
    assert PIPELINE_POLICY.outcomes[0] == "success";
    OneResearcherOutcome(CLAIMLESS);
  }

  /** The runtime knows the profile but the document chooses the outcome: a report
      without claims that names a pipeline outcome, within the pipeline's limits,
      passes the issued schema, although the canonical schema refuses it bound. */
  lemma ClaimlessReportPasses(
    rx: Regex, fields: map<string, Schema>, summaryLimit: Schema, claimsLimit: Schema, e: Document)
    requires PlainFields(fields) && "handoffs" !in fields
    requires !HasProfileConstraint(summaryLimit) && !HasProfileConstraint(claimsLimit)
    requires Bare(e) && Reports(e, PIPELINE_POLICY)
    requires Accepts(rx, Content(fields, RESEARCHER_OUTCOMES, ["profile", "outcome", "summary"]), Obj(e))
    requires Accepts(rx, CompactLimits(summaryLimit, claimsLimit), Obj(e))
    requires !Accepts(rx, OnlyProperty("claims", SOME_CLAIM), Obj(e))
    ensures var s := ResearcherCompact(fields, summaryLimit, claimsLimit);
            && ProjectForRole("researcher", s).Ok?
            && Accepts(rx, ProjectForRole("researcher", s).value, Obj(e))
            && !Accepts(rx, s, Obj(BindMetadata(e, RESEARCHER_REPORT)))
  {
    ResearcherRows();
    ResearcherNamesDiffer();
    OneResearcherOutcome(e);
    CompactIssued(rx, fields, summaryLimit, claimsLimit, e);
    CompactExactly(rx, REPORT_POLICY, fields, summaryLimit, claimsLimit, e);
  }

  lemma ReportFieldsPlain(claim: Schema, limit: Schema)
    requires !HasProfileConstraint(claim) && !HasProfileConstraint(limit)
    ensures PlainFields(ReportFields(claim)) && "handoffs" !in ReportFields(claim)
    ensures !HasProfileConstraint(SUMMARY_LIMIT) && !HasProfileConstraint(ClaimsLimit(limit))
  {
    assert !HasProfileConstraint(SUMMARY) && !HasProfileConstraint(Claims(claim));
  }

  /** There is such a report, for any schema and limit of one claim. */
  lemma ForeignOutcomeIsNotExact(rx: Regex, claim: Schema, limit: Schema)
    requires !HasProfileConstraint(claim) && !HasProfileConstraint(limit)
    ensures var s := ResearcherCompact(ReportFields(claim), SUMMARY_LIMIT, ClaimsLimit(limit));
            && ProjectForRole("researcher", s).Ok?
            && Accepts(rx, ProjectForRole("researcher", s).value, Obj(CLAIMLESS))
            && !Accepts(rx, s, Obj(BindMetadata(CLAIMLESS, RESEARCHER_REPORT)))
  {
    ReportFieldsPlain(claim, limit);
    ClaimlessReports();
    ClaimlessContent(rx, claim);
    ClaimlessBranches(rx, limit);
    ClaimlessReportPasses(rx, ReportFields(claim), SUMMARY_LIMIT, ClaimsLimit(limit), CLAIMLESS);
  }

  /** The schema of `OverwritingMergeLosesConstraint`: its own requirement and the
      one its branch adds are under the same keyword. */
  function Overwriting(profile: string): Schema {
    When(Is(profile), Present(Requiring(["added"])), Absent).(required := Some(["base"]))
  }

  /** Merging replaces a keyword, so a branch that repeats a keyword of its node
      loses the node's own constraint: the side condition on keywords is needed. */
  lemma OverwritingMergeLosesConstraint(rx: Regex, policy: Policy)
    requires "done" in policy.outcomes
    ensures var e: Document := map["outcome" := Str("done"), "added" := Null];
            var s := Overwriting(policy.profile);
            && Reports(e, policy)
            && Project([policy], s) == Ok(Requiring(["added"]))
            && Accepts(rx, Requiring(["added"]), Obj(e))
            && !Accepts(rx, s, Obj(Bound(e, policy.profile, true)))
  {
    var s := Overwriting(policy.profile);
    MatchingIsFilter(Is(policy.profile), [policy]);
    assert Matches(Is(policy.profile), policy);
    FilterAll((k: string) => k !in METADATA, ["base"]);
    FilterAll((k: string) => k !in METADATA, ["added"]);
    var rest := WithoutConditional(Strip(s));
    assert rest == Requiring(["base"]);
    assert Project([policy], rest) == Ok(Requiring(["base"]));
    assert Project([policy], Requiring(["added"])) == Ok(Requiring(["added"]));
  }
}
