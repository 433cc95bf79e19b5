/** The researcher schema variants: without the coverage ledger, or with a
    mandatory one. */
module CoverageVariants {
  import opened Basics
  import opened JsonSchema
  import opened HandoffPolicy
  import opened HandoffProjection
  import opened ProjectionExactness
  import opened ProjectionLaws
  import opened HandoffTools
  import opened ShippedHandoffs

  const COVERAGE := "coverage"

  function RequiredOf(s: Schema): seq<string> {
    if s.required.Some? then s.required.value else []
  }

  function WithoutCoverage(s: Schema): Schema
    requires Listed(s.properties, COVERAGE)
  {
    s.(properties := Table(s.properties.entries - {COVERAGE}),
       required := Some(Filter((k: string) => k != COVERAGE, RequiredOf(s))))
  }

  function AtLeastOne(coverage: Schema): Schema {
    coverage.(facets := coverage.facets.(minItems := Some(1)))
  }

  function MandatoryCoverage(s: Schema): Schema
    requires Listed(s.properties, COVERAGE)
  {
    s.(properties := Table(s.properties.entries[COVERAGE := AtLeastOne(s.properties.entries[COVERAGE])]),
       required := Some(Dedup(RequiredOf(s) + [COVERAGE])))
  }

  /** The variant selected for the current attempt. */
  function SelectCoverage(s: Schema, requireCoverage: bool): Schema {
    if !Listed(s.properties, COVERAGE) then s
    else if requireCoverage then MandatoryCoverage(s)
    else WithoutCoverage(s)
  }

  predicate HasCoverage(v: Json) {
    v.Obj? && COVERAGE in v.fields
  }

  predicate HasLedger(v: Json) {
    HasCoverage(v) && v.fields[COVERAGE].Arr? && |v.fields[COVERAGE].elems| >= 1
  }

  /** A schema is its field constraints and everything else. */
  lemma SplitFields(rx: Regex, s: Schema, v: Json)
    ensures Accepts(rx, s, v) <==>
              Accepts(rx, s.(properties := NoTable, required := None, additional := Unset), v)
              && (v.Obj? ==> AcceptsFields(rx, s, v.fields))
  {
  }

  /** The stripped schema accepts precisely the accepted documents without coverage. */
  lemma WithoutCoverageAccepts(rx: Regex, s: Schema, v: Json)
    requires Listed(s.properties, COVERAGE) && s.additional == Allowed(false) && COVERAGE !in RequiredOf(s)
    ensures Accepts(rx, WithoutCoverage(s), v) <==> Accepts(rx, s, v) && !HasCoverage(v)
  {
    var t := WithoutCoverage(s);
    SplitFields(rx, s, v);
    SplitFields(rx, t, v);
    assert s.(properties := NoTable, required := None, additional := Unset)
        == t.(properties := NoTable, required := None, additional := Unset);
    assert forall k :: Listed(t.properties, k) <==> Listed(s.properties, k) && k != COVERAGE;
  }

  /** The mandatory schema accepts precisely the accepted documents with a non-empty
      ledger. */
  lemma MandatoryCoverageAccepts(rx: Regex, s: Schema, v: Json)
    requires Listed(s.properties, COVERAGE) && ArraySchema(s.properties.entries[COVERAGE])
    requires s.properties.entries[COVERAGE].facets.minItems.Some? ==> s.properties.entries[COVERAGE].facets.minItems.value <= 1
    ensures Accepts(rx, MandatoryCoverage(s), v) <==> Accepts(rx, s, v) && (v.Obj? ==> HasLedger(v))
  {
    var t := MandatoryCoverage(s);
    SplitFields(rx, s, v);
    SplitFields(rx, t, v);
    assert s.(properties := NoTable, required := None, additional := Unset)
        == t.(properties := NoTable, required := None, additional := Unset);
    if v.Obj? {
      MandatoryFields(rx, s, v.fields);
    }
  }

  lemma AtLeastOneAccepts(rx: Regex, c: Schema, v: Json)
    requires ArraySchema(c) && (c.facets.minItems.Some? ==> c.facets.minItems.value <= 1)
    ensures Accepts(rx, AtLeastOne(c), v) <==> Accepts(rx, c, v) && v.Arr? && |v.elems| >= 1
  {
    assert FacetsHold(rx, AtLeastOne(c).facets, v) <==> FacetsHold(rx, c.facets, v) && v.Arr? && |v.elems| >= 1;
    if v.Obj? {
      assert HasType(TArray, v) == false;
    }
  }

  lemma MandatoryFields(rx: Regex, s: Schema, fields: Document)
    requires Listed(s.properties, COVERAGE) && ArraySchema(s.properties.entries[COVERAGE])
    requires s.properties.entries[COVERAGE].facets.minItems.Some? ==> s.properties.entries[COVERAGE].facets.minItems.value <= 1
    ensures AcceptsFields(rx, MandatoryCoverage(s), fields) <==> AcceptsFields(rx, s, fields) && HasLedger(Obj(fields))
  {
    var t := MandatoryCoverage(s);
    var c := s.properties.entries[COVERAGE];
    assert forall k :: Listed(t.properties, k) <==> Listed(s.properties, k);
    assert forall k :: k in t.required.value <==> k in RequiredOf(s) || k == COVERAGE;
    if COVERAGE in fields {
      AtLeastOneAccepts(rx, c, fields[COVERAGE]);
    }
    if AcceptsFields(rx, t, fields) {
      assert Accepts(rx, t.properties.entries[COVERAGE], fields[COVERAGE]);
      forall k | k in fields && k in s.properties.entries
        ensures Accepts(rx, s.properties.entries[k], fields[k])
      {
        assert k in t.properties.entries;
      }
    }
  }

  // ---- The variants commute with the projection ----

  function MapOk(r: Result<Schema, ProjectionError>, f: Schema --> Schema): Result<Schema, ProjectionError>
    requires r.Ok? ==> f.requires(r.value)
  {
    if r.Ok? then Ok(f(r.value)) else r
  }

  /** Projecting the applicators does not look at properties or required. */
  lemma PartsIgnoreFields(profiles: seq<Policy>, s: Schema, properties: Table, required: Option<seq<string>>)
    ensures ProjectParts(profiles, s.(properties := properties, required := required))
         == MapOk(ProjectParts(profiles, s), (r: Schema) => r.(properties := properties, required := required))
  {
  }

  lemma DedupLast(front: seq<string>, last: string)
    ensures Dedup(front + [last]) == if last in front then Dedup(front) else Dedup(front) + [last]
  {
    assert (front + [last])[..|front|] == front;
  }

  lemma FilterLast(keep: string -> bool, front: seq<string>, last: string)
    ensures Filter(keep, front + [last]) == if keep(last) then Filter(keep, front) + [last] else Filter(keep, front)
  {
    FilterConcat(keep, front, [last]);
    assert Filter(keep, front) + [] == Filter(keep, front);
  }

  lemma {:induction false} DedupFilter(keep: string -> bool, s: seq<string>)
    ensures Filter(keep, Dedup(s)) == Dedup(Filter(keep, s))
  {
    if s != [] {
      var front, last := s[..|s| - 1], s[|s| - 1];
      assert s == front + [last];
      DedupFilter(keep, front);
      DedupLast(front, last);
      FilterLast(keep, front, last);
      FilterLast(keep, Dedup(front), last);
      DedupLast(Filter(keep, front), last);
    }
  }

  lemma StripWithoutCoverage(s: Schema)
    requires Listed(s.properties, COVERAGE)
    ensures Strip(WithoutCoverage(s)) == WithoutCoverage(Strip(s))
  {
    FilterCommutes((k: string) => k !in METADATA, (k: string) => k != COVERAGE, RequiredOf(s));
    assert s.properties.entries - {COVERAGE} - METADATA == s.properties.entries - METADATA - {COVERAGE};
  }

  lemma StripMandatoryCoverage(s: Schema)
    requires Listed(s.properties, COVERAGE)
    ensures Strip(MandatoryCoverage(s)) == MandatoryCoverage(Strip(s))
  {
    var keep := (k: string) => k !in METADATA;
    FilterConcat(keep, RequiredOf(s), [COVERAGE]);
    DedupFilter(keep, RequiredOf(s) + [COVERAGE]);
    assert Filter(keep, [COVERAGE]) == [COVERAGE];
    var cov := AtLeastOne(s.properties.entries[COVERAGE]);
    assert s.properties.entries[COVERAGE := cov] - METADATA == (s.properties.entries - METADATA)[COVERAGE := cov];
  }

  lemma AtLeastOneConstraint(c: Schema)
    ensures HasProfileConstraint(AtLeastOne(c)) <==> HasProfileConstraint(c)
  {
  }

  lemma ProjectedFields(profiles: seq<Policy>, s: Schema)
    requires ProfileRule(s).None? && Project(profiles, s).Ok?
    ensures var r := Project(profiles, s).value;
            && r.properties == Strip(s).properties && r.required == Strip(s).required
            && (Listed(s.properties, COVERAGE) ==> Listed(r.properties, COVERAGE))
  {
    PlainProjection(profiles, s);
  }

  /** Deriving a coverage variant and projecting it is projecting and then deriving
      the variant. */
  lemma CoverageCommutesWithProjection(profiles: seq<Policy>, s: Schema, requireCoverage: bool)
    requires ProfileRule(s).None?
    requires Listed(s.properties, COVERAGE) && !HasProfileConstraint(s.properties.entries[COVERAGE])
    ensures Project(profiles, SelectCoverage(s, requireCoverage))
         == MapOk(Project(profiles, s), (r: Schema) => SelectCoverage(r, requireCoverage))
  {
    var t := SelectCoverage(s, requireCoverage);
    StripWithoutCoverage(s);
    StripMandatoryCoverage(s);
    AtLeastOneConstraint(s.properties.entries[COVERAGE]);
    NestedUnchanged(s, requireCoverage);
    PartsIgnoreFields(profiles, Strip(s), Strip(t).properties, Strip(t).required);
    assert Strip(t) == Strip(s).(properties := Strip(t).properties, required := Strip(t).required);
    if Project(profiles, s).Ok? {
      ProjectedFields(profiles, s);
    }
  }

  lemma NestedUnchanged(s: Schema, requireCoverage: bool)
    requires Listed(s.properties, COVERAGE) && !HasProfileConstraint(s.properties.entries[COVERAGE])
    ensures HasNestedConstraint(SelectCoverage(s, requireCoverage)) <==> HasNestedConstraint(s)
  {
    AtLeastOneConstraint(s.properties.entries[COVERAGE]);
    var t := SelectCoverage(s, requireCoverage).properties.entries;
    if k :| k in s.properties.entries && HasProfileConstraint(s.properties.entries[k]) {
      assert k in t && HasProfileConstraint(t[k]);
    }
    if k :| k in t && HasProfileConstraint(t[k]) {
      assert k in s.properties.entries && HasProfileConstraint(s.properties.entries[k]);
    }
  }

  /** An optional ledger: an array that may be empty, and no key of its own. */
  predicate OptionalLedger(fields: map<string, Schema>) {
    COVERAGE in fields && ArraySchema(fields[COVERAGE]) && fields[COVERAGE].facets.minItems.None?
  }

  /** What a researcher form needs for its variants: closed, with an optional ledger. */
  predicate CoverageForm(s: Schema) {
    && ProfileRule(s).None? && s.properties.Table? && s.additional == Allowed(false) && COVERAGE !in RequiredOf(s)
    && OptionalLedger(s.properties.entries) && !HasProfileConstraint(s.properties.entries[COVERAGE])
  }

  /** The ledger that a variant wants: none, or a non-empty one. */
  predicate LedgerAsIssued(requireCoverage: bool, e: Document) {
    if requireCoverage then HasLedger(Obj(e)) else !HasCoverage(Obj(e))
  }

  lemma RequiredStaysApart(s: Schema)
    requires COVERAGE !in RequiredOf(s)
    ensures COVERAGE !in RequiredOf(Strip(s))
  {
  }

  /** The issued variant of a form accepts what the issued form accepts with the ledger
      that the variant wants. */
  lemma VariantIssued(rx: Regex, s: Schema, requireCoverage: bool, e: Document)
    requires CoverageForm(s) && Project(RoleProfiles("researcher"), s).Ok?
    ensures var profiles := RoleProfiles("researcher");
            && Project(profiles, SelectCoverage(s, requireCoverage)).Ok?
            && (Accepts(rx, Project(profiles, SelectCoverage(s, requireCoverage)).value, Obj(e)) <==>
                  Accepts(rx, Project(profiles, s).value, Obj(e)) && LedgerAsIssued(requireCoverage, e))
  {
    var profiles := RoleProfiles("researcher");
    CoverageCommutesWithProjection(profiles, s, requireCoverage);
    ProjectedFields(profiles, s);
    PlainProjection(profiles, s);
    RequiredStaysApart(s);
    var r := Project(profiles, s).value;
    assert r.properties.entries[COVERAGE] == s.properties.entries[COVERAGE];
    if requireCoverage {
      MandatoryCoverageAccepts(rx, r, Obj(e));
    } else {
      WithoutCoverageAccepts(rx, r, Obj(e));
    }
  }

  lemma ObjectIsCoverageForm(
    fields: map<string, Schema>, withProtocol: bool, profiles: seq<string>, outcomes: seq<string>,
    required: seq<string>, rules: Slots)
    requires PlainFields(fields) && OptionalLedger(fields) && COVERAGE !in required
    ensures CoverageForm(HandoffObject(fields, withProtocol, profiles, outcomes, required, rules))
  {
    var s := HandoffObject(fields, withProtocol, profiles, outcomes, required, rules);
    assert s.properties.entries[COVERAGE] == fields[COVERAGE];
  }

  lemma CoverageNotRequired()
    ensures COVERAGE !in ["profile", "outcome", "summary"] && COVERAGE !in ["protocol", "profile", "outcome", "handoffs"]
  {
    assert COVERAGE[0] == 'c';
  }

  /** In either variant, the issued compact form accepts a document exactly when the
      canonical one accepts it bound and the document has the ledger that the variant
      wants. */
  lemma IssuedCoverageExact(
    rx: Regex, policy: Policy, fields: map<string, Schema>, summaryLimit: Schema, claimsLimit: Schema,
    requireCoverage: bool, e: Document)
    requires PlainFields(fields) && "handoffs" !in fields && OptionalLedger(fields)
    requires !HasProfileConstraint(summaryLimit) && !HasProfileConstraint(claimsLimit)
    requires policy in RoleProfiles("researcher") && Bare(e) && Reports(e, policy)
    ensures var s := ResearcherCompact(fields, summaryLimit, claimsLimit);
            var issued := ProjectForRole("researcher", SelectCoverage(s, requireCoverage));
            && issued.Ok?
            && (Accepts(rx, issued.value, Obj(e)) <==>
                  Accepts(rx, s, Obj(BindMetadata(e, policy.profile))) && LedgerAsIssued(requireCoverage, e))
  {
    var s := ResearcherCompact(fields, summaryLimit, claimsLimit);
    CoverageNotRequired();
    ObjectIsCoverageForm(fields, false, [RESEARCHER_PIPELINE, RESEARCHER_REPORT],
                         ["success", "gap", "input_required", "complete"], ["profile", "outcome", "summary"], s.allOf);
    ResearcherCompactBindingExact(rx, policy, fields, summaryLimit, claimsLimit, e);
    VariantIssued(rx, s, requireCoverage, e);
  }

  /** The same for the report-only form. */
  lemma IssuedReportCoverageExact(
    rx: Regex, policy: Policy, fields: map<string, Schema>, requireCoverage: bool, e: Document)
    requires PlainFields(fields) && "handoffs" !in fields && OptionalLedger(fields)
    requires policy in RoleProfiles("researcher") && Bare(e) && Reports(e, policy)
    ensures var s := ReportCompact(fields);
            var issued := ProjectForRole("researcher", SelectCoverage(s, requireCoverage));
            && issued.Ok?
            && (Accepts(rx, issued.value, Obj(e)) <==>
                  Accepts(rx, s, Obj(BindMetadata(e, policy.profile))) && LedgerAsIssued(requireCoverage, e))
  {
    CoverageNotRequired();
    ObjectIsCoverageForm(fields, false, [RESEARCHER_REPORT], ["complete"], ["profile", "outcome", "summary"], NoList);
    ReportCompactBindingExact(rx, policy, fields, e);
    VariantIssued(rx, ReportCompact(fields), requireCoverage, e);
  }

  /** The same for the envelope. */
  lemma IssuedEnvelopeCoverageExact(
    rx: Regex, policy: Policy, fields: map<string, Schema>, pipelineLimits: Schema, reportClaims: Schema,
    requireCoverage: bool, e: Document)
    requires PlainFields(fields) && "handoffs" in fields && ArraySchema(fields["handoffs"]) && OptionalLedger(fields)
    requires !HasProfileConstraint(pipelineLimits) && !HasProfileConstraint(reportClaims)
    requires policy in RoleProfiles("researcher") && Bare(e) && Reports(e, policy)
    ensures var s := ResearcherEnvelope(fields, pipelineLimits, reportClaims);
            var issued := ProjectForRole("researcher", SelectCoverage(s, requireCoverage));
            && issued.Ok?
            && (Accepts(rx, issued.value, Obj(e)) <==>
                  Accepts(rx, s, Obj(BindMetadata(e, policy.profile))) && LedgerAsIssued(requireCoverage, e))
  {
    var s := ResearcherEnvelope(fields, pipelineLimits, reportClaims);
    CoverageNotRequired();
    ObjectIsCoverageForm(fields, true, [RESEARCHER_PIPELINE, RESEARCHER_REPORT],
                         ["success", "gap", "input_required", "complete"],
                         ["protocol", "profile", "outcome", "handoffs"], s.allOf);
    ResearcherEnvelopeBindingExact(rx, policy, fields, pipelineLimits, reportClaims, e);
    VariantIssued(rx, s, requireCoverage, e);
  }
}
