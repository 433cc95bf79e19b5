/** Handoff documents whatever outcome they report.  A handoff object with rules on
    the profile is decided rule by rule: the canonical schema picks a branch by the
    bound profile, the issued one by the outcome.  The two agree on a document if and
    only if the branches they pick do. */
module ForeignOutcomes {
  import opened Basics
  import opened JsonSchema
  import opened HandoffPolicy
  import opened HandoffProjection
  import opened ProjectionExactness
  import opened ProjectionLaws
  import opened HandoffTools

  /** `{if: {properties: {profile: test}, required: ["profile"]}, then, else}`. */
  datatype Rule = Rule(test: Schema, then_: Slot, else_: Slot)

  function Written(rules: seq<Rule>): (ss: seq<Schema>)
    ensures |ss| == |rules|
    ensures forall i :: 0 <= i < |rules| ==> ss[i] == When(rules[i].test, rules[i].then_, rules[i].else_)
  {
    if rules == [] then [] else [When(rules[0].test, rules[0].then_, rules[0].else_)] + Written(rules[1..])
  }

  /** `allOf`, when there are rules. */
  function RuleList(rules: seq<Rule>): Slots {
    if rules == [] then NoList else List(Written(rules))
  }

  /** A branch that never looks at the metadata. */
  predicate PlainBranch(branch: Slot) {
    branch.Present? ==> MetadataFree(branch.schema) && Settled(branch.schema)
  }

  predicate PlainRule(r: Rule) {
    PureRule(r.test) && PlainBranch(r.then_) && PlainBranch(r.else_)
  }

  predicate PlainRules(rules: seq<Rule>) {
    forall r :: r in rules ==> PlainRule(r)
  }

  function Branch(r: Rule, yes: bool): Slot {
    if yes then r.then_ else r.else_
  }

  predicate ProfileMatches(test: Schema, profile: string) {
    MatchesProfile(test, profile) == Ok(true)
  }

  /** How the issued form decides a test: for the whole role when its profiles agree,
      and by the reported outcome when they do not. */
  predicate IssuedMatches(test: Schema, profiles: seq<Policy>, e: Document) {
    if forall p :: p in profiles ==> !Matches(test, p) then false
    else if forall p :: p in profiles ==> Matches(test, p) then true
    else exists p :: p in profiles && Matches(test, p) && Reports(e, p)
  }

  /** Every rule's branch for the profile accepts the document. */
  predicate CanonicalBranches(rx: Regex, rules: seq<Rule>, profile: string, e: Document) {
    forall r :: r in rules ==> AcceptsSlot(rx, Branch(r, ProfileMatches(r.test, profile)), Obj(e))
  }

  /** Every rule's branch for the outcome accepts the document. */
  predicate IssuedBranches(rx: Regex, rules: seq<Rule>, profiles: seq<Policy>, e: Document) {
    forall r :: r in rules ==> AcceptsSlot(rx, Branch(r, IssuedMatches(r.test, profiles, e)), Obj(e))
  }

  // ---- One rule ----

  lemma BoundRule(rx: Regex, r: Rule, profile: string, withProtocol: bool, e: Document)
    requires PlainRule(r) && Bare(e)
    ensures Accepts(rx, When(r.test, r.then_, r.else_), Obj(Bound(e, profile, withProtocol)))
       <==> AcceptsSlot(rx, Branch(r, ProfileMatches(r.test, profile)), Obj(e))
  {
    var s := When(r.test, r.then_, r.else_);
    var d := Bound(e, profile, withProtocol);
    ConditionalSplits(rx, s, Obj(d));
    assert WithoutConditional(s) == EMPTY_SCHEMA;
    ProfileTestDecides(rx, s.cond.schema, e, profile, withProtocol);
    SlotMetadataFreeExact(rx, r.then_, e, profile, withProtocol);
    SlotMetadataFreeExact(rx, r.else_, e, profile, withProtocol);
  }

  lemma OutcomeTestReads(rx: Regex, matching: seq<Policy>, e: Document)
    ensures Accepts(rx, OutcomeTest(matching), Obj(e)) <==> exists p :: p in matching && Reports(e, p)
  {
    var test := EMPTY_SCHEMA.(facets := NO_FACETS.(enumeration := Some(Dedup(AllOutcomes(matching)))));
    assert OutcomeTest(matching).properties.entries["outcome"] == test;
    if "outcome" in e {
      assert Accepts(rx, test, e["outcome"]) <==> e["outcome"].Str? && e["outcome"].text in AllOutcomes(matching);
    }
  }

  lemma MergeFromEmpty(s: Schema)
    ensures Merge(EMPTY_SCHEMA, s) == s
  {
  }

  lemma BranchProjects(profiles: seq<Policy>, branch: Slot)
    requires PlainBranch(branch)
    ensures Project(profiles, BranchSchema(branch)) == Ok(BranchSchema(branch))
    ensures ProjectSlot(profiles, branch) == Ok(branch)
  {
    if branch.Present? {
      SettledIsFixed(profiles, branch.schema);
    } else {
      EmptyProjects(profiles);
    }
  }

  lemma RuleProjects(profiles: seq<Policy>, r: Rule)
    requires PlainRule(r)
    ensures MatchingProfiles(r.test, profiles).Ok?
    ensures var m := MatchingProfiles(r.test, profiles).value;
            var s := When(r.test, r.then_, r.else_);
            Project(profiles, s) == Ok(
              if |m| == 0 then BranchSchema(r.else_)
              else if |m| == |profiles| then BranchSchema(r.then_)
              else s.(cond := Present(OutcomeTest(m))))
  {
    var s := When(r.test, r.then_, r.else_);
    MatchingIsFilter(r.test, profiles);
    var m := MatchingProfiles(r.test, profiles).value;
    BranchProjects(profiles, r.then_);
    BranchProjects(profiles, r.else_);
    EmptyProjects(profiles);
    assert Strip(s) == s && WithoutConditional(s) == EMPTY_SCHEMA && ProfileRule(s) == Some(r.test);
    MergeFromEmpty(BranchSchema(r.then_));
    MergeFromEmpty(BranchSchema(r.else_));
  }

  lemma BranchAccepts(rx: Regex, branch: Slot, v: Json)
    ensures Accepts(rx, BranchSchema(branch), v) <==> AcceptsSlot(rx, branch, v)
  {
  }

  lemma IssuedRule(rx: Regex, profiles: seq<Policy>, r: Rule, e: Document)
    requires PlainRule(r)
    ensures Project(profiles, When(r.test, r.then_, r.else_)).Ok?
    ensures Accepts(rx, Project(profiles, When(r.test, r.then_, r.else_)).value, Obj(e))
       <==> AcceptsSlot(rx, Branch(r, IssuedMatches(r.test, profiles, e)), Obj(e))
  {
    RuleProjects(profiles, r);
    MatchingIsFilter(r.test, profiles);
    var m := MatchingProfiles(r.test, profiles).value;
    var s := When(r.test, r.then_, r.else_).(cond := Present(OutcomeTest(m)));
    BranchAccepts(rx, r.then_, Obj(e));
    BranchAccepts(rx, r.else_, Obj(e));
    OutcomeTestReads(rx, m, e);
    ConditionalSplits(rx, s, Obj(e));
    assert WithoutConditional(s) == EMPTY_SCHEMA;
    assert |m| == 0 <==> forall p :: p in profiles ==> !Matches(r.test, p) by {
      if |m| != 0 {
        assert m[0] in m;
      }
    }
  }

  // ---- All rules ----

  lemma BoundRules(rx: Regex, rules: seq<Rule>, profile: string, withProtocol: bool, e: Document)
    requires PlainRules(rules) && Bare(e)
    ensures AcceptsAll(rx, RuleList(rules), Obj(Bound(e, profile, withProtocol))) <==> CanonicalBranches(rx, rules, profile, e)
  {
    var d := Obj(Bound(e, profile, withProtocol));
    var verdicts := Verdicts(rx, Written(rules), d);
    forall i | 0 <= i < |rules|
      ensures verdicts[i] <==> AcceptsSlot(rx, Branch(rules[i], ProfileMatches(rules[i].test, profile)), Obj(e))
    {
      assert rules[i] in rules;
      BoundRule(rx, rules[i], profile, withProtocol, e);
    }
  }

  lemma {:induction false} RulesProject(rx: Regex, profiles: seq<Policy>, rules: seq<Rule>, e: Document)
    requires PlainRules(rules)
    ensures ProjectSeq(profiles, Written(rules)).Ok?
    ensures AcceptsAll(rx, List(ProjectSeq(profiles, Written(rules)).value), Obj(e)) <==> IssuedBranches(rx, rules, profiles, e)
  {
    if rules != [] {
      assert rules[0] in rules && forall r :: r in rules <==> r == rules[0] || r in rules[1..];
      IssuedRule(rx, profiles, rules[0], e);
      RulesProject(rx, profiles, rules[1..], e);
      assert Written(rules)[1..] == Written(rules[1..]);
      var first := Project(profiles, Written(rules)[0]).value;
      var rest := ProjectSeq(profiles, Written(rules[1..])).value;
      assert ProjectSeq(profiles, Written(rules)).value == [first] + rest;
      assert Verdicts(rx, [first] + rest, Obj(e)) == [Accepts(rx, first, Obj(e))] + Verdicts(rx, rest, Obj(e)) by {
        assert ([first] + rest)[1..] == rest;
      }
    }
  }

  lemma RuleListProjects(rx: Regex, profiles: seq<Policy>, rules: seq<Rule>, e: Document)
    requires PlainRules(rules)
    ensures ProjectList(profiles, RuleList(rules)).Ok?
    ensures AcceptsAll(rx, ProjectList(profiles, RuleList(rules)).value, Obj(e)) <==> IssuedBranches(rx, rules, profiles, e)
  {
    RulesProject(rx, profiles, rules, e);
  }

  // ---- Handoff objects ----

  /** The content of a handoff object: neither metadata nor rules. */
  function Content(fields: map<string, Schema>, outcomes: seq<string>, required: seq<string>): Schema {
    EMPTY_SCHEMA.(
      facets := NO_FACETS.(types := Some({TObject})),
      properties := Table(fields["outcome" := OneOfTexts(outcomes)]),
      required := Some(Filter((k: string) => k !in METADATA, required)),
      additional := Allowed(false))
  }

  /** The shape of a handoff object with rules. */
  datatype Form = Form(
    fields: map<string, Schema>, withProtocol: bool, profiles: seq<string>, outcomes: seq<string>,
    required: seq<string>, rules: seq<Rule>)

  function Canonical(f: Form): Schema {
    HandoffObject(f.fields, f.withProtocol, f.profiles, f.outcomes, f.required, RuleList(f.rules))
  }

  function ContentOf(f: Form): Schema {
    Content(f.fields, f.outcomes, f.required)
  }

  predicate GoodForm(f: Form) {
    PlainFields(f.fields) && PlainRules(f.rules) && ("protocol" in f.required ==> f.withProtocol)
  }

  lemma StrippedForm(f: Form)
    requires GoodForm(f)
    ensures Strip(Canonical(f)) == ContentOf(f).(allOf := RuleList(f.rules))
    ensures ProfileRule(Canonical(f)).None? && !HasNestedConstraint(Canonical(f))
  {
    var listed := Canonical(f).properties.entries;
    assert listed - METADATA == f.fields["outcome" := OneOfTexts(f.outcomes)];
    forall k | k in listed ensures !HasProfileConstraint(listed[k]) {
      if k !in f.fields {
        assert listed[k] == OneOfTexts([PROTOCOL]) || listed[k] == OneOfTexts(f.profiles) || listed[k] == OneOfTexts(f.outcomes);
      }
    }
  }

  /** The content and the canonical form describe the same keys but the metadata. */
  lemma SameEntries(f: Form)
    requires GoodForm(f)
    ensures var s, c := Canonical(f), ContentOf(f);
            && (forall k :: Listed(s.properties, k)
                       <==> Listed(c.properties, k) || k == "profile" || (k == "protocol" && f.withProtocol))
            && (forall k :: Listed(c.properties, k) ==> k !in METADATA && s.properties.entries[k] == c.properties.entries[k])
            && (forall k :: k in c.required.value <==> k in s.required.value && k !in METADATA)
            && s.properties.entries["profile"] == OneOfTexts(f.profiles)
            && (f.withProtocol ==> s.properties.entries["protocol"] == OneOfTexts([PROTOCOL]))
  {
  }

  lemma BoundFieldsForward(rx: Regex, f: Form, profile: string, e: Document)
    requires GoodForm(f) && Bare(e) && AcceptsFields(rx, Canonical(f), Bound(e, profile, f.withProtocol))
    ensures AcceptsFields(rx, ContentOf(f), e)
  {
    SameEntries(f);
    BoundKeys(e, profile, f.withProtocol);
  }

  lemma BoundFieldsBack(rx: Regex, f: Form, profile: string, e: Document)
    requires GoodForm(f) && profile in f.profiles && Bare(e) && AcceptsFields(rx, ContentOf(f), e)
    ensures AcceptsFields(rx, Canonical(f), Bound(e, profile, f.withProtocol))
  {
    SameEntries(f);
    BoundKeys(e, profile, f.withProtocol);
    TextAccepted(rx, f.profiles, profile);
    TextAccepted(rx, [PROTOCOL], PROTOCOL);
  }

  lemma BoundFields(rx: Regex, f: Form, profile: string, e: Document)
    requires GoodForm(f) && profile in f.profiles && Bare(e)
    ensures AcceptsFields(rx, Canonical(f), Bound(e, profile, f.withProtocol)) <==> AcceptsFields(rx, ContentOf(f), e)
  {
    if AcceptsFields(rx, Canonical(f), Bound(e, profile, f.withProtocol)) {
      BoundFieldsForward(rx, f, profile, e);
    }
    if AcceptsFields(rx, ContentOf(f), e) {
      BoundFieldsBack(rx, f, profile, e);
    }
  }

  lemma ObjectSplits(rx: Regex, c: Schema, rules: Slots, e: Document)
    requires c.facets == NO_FACETS.(types := Some({TObject})) && c == EMPTY_SCHEMA.(
               facets := c.facets, properties := c.properties, required := c.required, additional := c.additional)
    ensures Accepts(rx, c.(allOf := rules), Obj(e)) <==> AcceptsFields(rx, c, e) && AcceptsAll(rx, rules, Obj(e))
  {
    assert HasType(TObject, Obj(e));
    FieldsOnly(rx, c.(allOf := rules), c, e);
  }

  lemma ContentAccepts(rx: Regex, f: Form, e: Document)
    ensures Accepts(rx, ContentOf(f), Obj(e)) <==> AcceptsFields(rx, ContentOf(f), e)
  {
    assert ContentOf(f) == ContentOf(f).(allOf := NoList);
    ObjectSplits(rx, ContentOf(f), NoList, e);
  }

  /** The canonical schema on a bound document: its content, and the branches of the
      bound profile. */
  lemma CanonicalVerdict(rx: Regex, f: Form, profile: string, e: Document)
    requires GoodForm(f) && profile in f.profiles && Bare(e)
    ensures Accepts(rx, Canonical(f), Obj(Bound(e, profile, f.withProtocol)))
       <==> Accepts(rx, ContentOf(f), Obj(e)) && CanonicalBranches(rx, f.rules, profile, e)
  {
    var s := Canonical(f);
    var plain := HandoffObject(f.fields, f.withProtocol, f.profiles, f.outcomes, f.required, NoList);
    var d := Bound(e, profile, f.withProtocol);
    assert s == plain.(allOf := s.allOf);
    ObjectSplits(rx, plain, s.allOf, d);
    FieldsOnly(rx, plain, s, d);
    BoundFields(rx, f, profile, e);
    BoundRules(rx, f.rules, profile, f.withProtocol, e);
    ContentAccepts(rx, f, e);
  }

  lemma FormProjects(profiles: seq<Policy>, f: Form)
    requires GoodForm(f) && ProjectList(profiles, RuleList(f.rules)).Ok?
    ensures Project(profiles, Canonical(f))
         == Ok(ContentOf(f).(allOf := ProjectList(profiles, RuleList(f.rules)).value))
  {
    StrippedForm(f);
    PartsShape(profiles, Strip(Canonical(f)));
  }

  /** The issued schema on the document itself: the same content, and the branches of
      the reported outcome. */
  lemma IssuedVerdict(rx: Regex, profiles: seq<Policy>, f: Form, e: Document)
    requires GoodForm(f)
    ensures Project(profiles, Canonical(f)).Ok?
    ensures Accepts(rx, Project(profiles, Canonical(f)).value, Obj(e))
       <==> Accepts(rx, ContentOf(f), Obj(e)) && IssuedBranches(rx, f.rules, profiles, e)
  {
    RuleListProjects(rx, profiles, f.rules, e);
    FormProjects(profiles, f);
    ObjectSplits(rx, ContentOf(f), ProjectList(profiles, RuleList(f.rules)).value, e);
    ContentAccepts(rx, f, e);
  }

  /** Whatever outcome a document reports, the issued form and the canonical form of
      the bound document agree on it if and only if the content refuses it or the
      branches picked by the outcome and by the profile give one verdict. */
  lemma FormExactly(rx: Regex, profiles: seq<Policy>, f: Form, profile: string, e: Document)
    requires GoodForm(f) && profile in f.profiles && Bare(e)
    ensures Project(profiles, Canonical(f)).Ok?
    ensures (Accepts(rx, Canonical(f), Obj(Bound(e, profile, f.withProtocol)))
             <==> Accepts(rx, Project(profiles, Canonical(f)).value, Obj(e)))
       <==> !Accepts(rx, ContentOf(f), Obj(e))
            || (CanonicalBranches(rx, f.rules, profile, e) <==> IssuedBranches(rx, f.rules, profiles, e))
  {
    CanonicalVerdict(rx, f, profile, e);
    IssuedVerdict(rx, profiles, f, e);
  }

  /** The document reports one of these outcomes. */
  predicate ReportsOneOf(e: Document, outcomes: seq<string>) {
    "outcome" in e && e["outcome"].Str? && e["outcome"].text in outcomes
  }

  lemma ContentNeedsOutcome(rx: Regex, f: Form, e: Document)
    requires "outcome" in f.required && Accepts(rx, ContentOf(f), Obj(e))
    ensures ReportsOneOf(e, f.outcomes)
  {
    var c := ContentOf(f);
    assert "outcome" in c.required.value;
    assert AcceptsFields(rx, c, e);
    assert c.properties.entries["outcome"] == OneOfTexts(f.outcomes);
    assert Accepts(rx, OneOfTexts(f.outcomes), e["outcome"]);
  }

  /** A document that reports no listed outcome is refused by both. */
  lemma UnlistedOutcomeRefused(rx: Regex, profiles: seq<Policy>, f: Form, profile: string, e: Document)
    requires GoodForm(f) && "outcome" in f.required && profile in f.profiles && Bare(e)
    requires !ReportsOneOf(e, f.outcomes)
    ensures !Accepts(rx, Canonical(f), Obj(Bound(e, profile, f.withProtocol)))
    ensures Project(profiles, Canonical(f)).Ok? && !Accepts(rx, Project(profiles, Canonical(f)).value, Obj(e))
  {
    CanonicalVerdict(rx, f, profile, e);
    IssuedVerdict(rx, profiles, f, e);
    if Accepts(rx, ContentOf(f), Obj(e)) {
      ContentNeedsOutcome(rx, f, e);
    }
  }

  /** The issued form refuses every document that brings metadata of its own. */
  lemma MetadataRefused(rx: Regex, profiles: seq<Policy>, f: Form, d: Document)
    requires GoodForm(f) && !Bare(d)
    ensures Project(profiles, Canonical(f)).Ok? && !Accepts(rx, Project(profiles, Canonical(f)).value, Obj(d))
  {
    IssuedVerdict(rx, profiles, f, d);
    ContentAccepts(rx, f, d);
    assert !Listed(ContentOf(f).properties, "profile") && !Listed(ContentOf(f).properties, "protocol");
  }

  // ---- Documents with metadata of their own ----

  /** The form asks for exactly the metadata that it lists. */
  predicate AsksForMetadata(f: Form) {
    "profile" in f.required && ("protocol" in f.required <==> f.withProtocol)
  }

  /** The document's metadata is what the form lists. */
  predicate ListedMetadata(f: Form, d: Document) {
    && "profile" in d && d["profile"].Str? && d["profile"].text in f.profiles
    && (if f.withProtocol then "protocol" in d && d["protocol"] == Str(PROTOCOL) else "protocol" !in d)
  }

  function WithoutMetadata(d: Document): Document {
    d - METADATA
  }

  /** What the canonical schema says of any document: its metadata is listed, its
      content is accepted, and so are the branches of the profile it names. */
  predicate Means(rx: Regex, f: Form, d: Document) {
    && ListedMetadata(f, d)
    && Accepts(rx, ContentOf(f), Obj(WithoutMetadata(d)))
    && CanonicalBranches(rx, f.rules, d["profile"].text, WithoutMetadata(d))
  }

  lemma TextsOnly(rx: Regex, values: seq<string>, v: Json)
    ensures Accepts(rx, OneOfTexts(values), v) ==> v.Str? && v.text in values
  {
    if Accepts(rx, OneOfTexts(values), v) {
      assert FacetsHold(rx, OneOfTexts(values).facets, v);
    }
  }

  lemma AcceptedMetadata(rx: Regex, f: Form, d: Document)
    requires GoodForm(f) && AsksForMetadata(f) && AcceptsFields(rx, Canonical(f), d)
    ensures ListedMetadata(f, d)
  {
    var s := Canonical(f);
    SameEntries(f);
    TextsOnly(rx, f.profiles, d["profile"]);
    if "protocol" in d {
      assert Listed(s.properties, "protocol");
      assert !Listed(ContentOf(f).properties, "protocol");
      TextsOnly(rx, [PROTOCOL], d["protocol"]);
    }
  }

  lemma ListedIsBound(f: Form, d: Document)
    requires ListedMetadata(f, d)
    ensures d == Bound(WithoutMetadata(d), d["profile"].text, f.withProtocol) && Bare(WithoutMetadata(d))
  {
  }

  lemma ObjectNeedsFields(rx: Regex, s: Schema, d: Document)
    requires Accepts(rx, s, Obj(d))
    ensures AcceptsFields(rx, s, d)
  {
  }

  /** The canonical schema on every document. */
  lemma CanonicalMeans(rx: Regex, f: Form, d: Document)
    requires GoodForm(f) && AsksForMetadata(f)
    ensures Accepts(rx, Canonical(f), Obj(d)) <==> Means(rx, f, d)
  {
    if Accepts(rx, Canonical(f), Obj(d)) {
      ObjectNeedsFields(rx, Canonical(f), d);
      AcceptedMetadata(rx, f, d);
    }
    if ListedMetadata(f, d) {
      ListedIsBound(f, d);
      CanonicalVerdict(rx, f, d["profile"].text, WithoutMetadata(d));
    }
  }

  /** A document that brings metadata is refused as issued, so the two forms agree on it
      exactly when what the runtime makes of it is refused too: when its metadata is not
      listed, or its content or a branch of the profile it names refuses it. */
  lemma OwnMetadataExactly(rx: Regex, profiles: seq<Policy>, f: Form, profile: string, d: Document)
    requires GoodForm(f) && AsksForMetadata(f) && !Bare(d)
    ensures Project(profiles, Canonical(f)).Ok?
    ensures (Accepts(rx, Canonical(f), Obj(BindMetadata(d, profile)))
             <==> Accepts(rx, Project(profiles, Canonical(f)).value, Obj(d)))
       <==> !Means(rx, f, BindMetadata(d, profile))
  {
    MetadataRefused(rx, profiles, f, d);
    CanonicalMeans(rx, f, BindMetadata(d, profile));
  }

  // ---- Roles with one profile ----

  /** A role with one profile settles every rule, so the two agree on every document. */
  lemma SoleProfileBranches(rx: Regex, rules: seq<Rule>, profiles: seq<Policy>, policy: Policy, e: Document)
    requires policy in profiles && forall p :: p in profiles ==> p == policy
    ensures CanonicalBranches(rx, rules, policy.profile, e) <==> IssuedBranches(rx, rules, profiles, e)
  {
    forall r | r in rules ensures IssuedMatches(r.test, profiles, e) == ProfileMatches(r.test, policy.profile) {
      assert Matches(r.test, policy) == ProfileMatches(r.test, policy.profile);
    }
  }
}
