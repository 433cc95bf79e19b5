/** The projection preserves meaning: a document without metadata is valid against
    the projected schema exactly when the document with `profile` (and `protocol`)
    put back is valid against the original schema.  The equivalence is proved at
    every node, so it survives `not`, `oneOf` and conditionals. */
module ProjectionExactness {
  import opened Basics
  import opened JsonSchema
  import opened HandoffPolicy
  import opened HandoffProjection

  type Document = map<string, Json>

  /** The document with the metadata the runtime supplies. */
  function Bound(e: Document, profile: string, withProtocol: bool): Document {
    var d := e["profile" := Str(profile)];
    if withProtocol then d["protocol" := Str(PROTOCOL)] else d
  }

  predicate Bare(e: Document) {
    "profile" !in e && "protocol" !in e
  }

  /** The document reports one of the outcomes of a profile. */
  predicate Reports(e: Document, policy: Policy) {
    "outcome" in e && e["outcome"].Str? && e["outcome"].text in policy.outcomes
  }

  // ---- Side conditions ----

  /** The outcome property refuses every outcome of the profile. */
  ghost predicate RefusesOutcomes(rx: Regex, t: Table, policy: Policy) {
    Listed(t, "outcome") && forall o :: o in policy.outcomes ==> !Accepts(rx, t.entries["outcome"], Str(o))
  }

  /** Dropping the metadata of one node loses no constraint: what the node says
      about the metadata is true of the document (or the node refuses the profile's
      outcomes anyway), and a closed node lists the metadata (or refuses any
      document that has an outcome). */
  ghost predicate NodeErasable(rx: Regex, policy: Policy, withProtocol: bool, s: Schema) {
    && s.facets.maxProperties.None?
    && !s.additional.Matching?
    && (s.required.Some? && "protocol" in s.required.value ==> withProtocol)
    && (Listed(s.properties, "protocol") && withProtocol ==> Accepts(rx, s.properties.entries["protocol"], Str(PROTOCOL)))
    && (Listed(s.properties, "profile") ==>
          || Accepts(rx, s.properties.entries["profile"], Str(policy.profile))
          || RefusesOutcomes(rx, s.properties, policy))
    && (s.additional == Allowed(false) && Listed(s.properties, "outcome") ==>
          Listed(s.properties, "profile") && (withProtocol ==> Listed(s.properties, "protocol")))
  }

  /** A rule made of `const`, `enum` and `not` only. */
  predicate PureRule(rule: Schema)
    decreases rule
  {
    || (rule.facets.constant.Some? && rule == EMPTY_SCHEMA.(facets := NO_FACETS.(constant := rule.facets.constant)))
    || (rule.facets.enumeration.Some? && rule == EMPTY_SCHEMA.(facets := NO_FACETS.(enumeration := rule.facets.enumeration)))
    || (rule.negated.Present? && rule == EMPTY_SCHEMA.(negated := rule.negated) && PureRule(rule.negated.schema))
  }

  /** An `if` that tests the profile and nothing else. */
  predicate ProfileTest(cond: Schema) {
    && Listed(cond.properties, "profile")
    && PureRule(cond.properties.entries["profile"])
    && cond == EMPTY_SCHEMA.(
         properties := Table(map["profile" := cond.properties.entries["profile"]]), required := cond.required)
    && (cond.required.Some? ==> forall k :: k in cond.required.value ==> k == "profile")
  }

  function Matches(rule: Schema, policy: Policy): bool {
    MatchesProfile(rule, policy.profile) == Ok(true)
  }

  /** The rule separates the profiles by their outcomes. */
  ghost predicate SeparatesOutcomes(rule: Schema, profiles: seq<Policy>) {
    forall p, q, o ::
      p in profiles && q in profiles && Matches(rule, p) && !Matches(rule, q) && o in p.outcomes ==> o !in q.outcomes
  }

  predicate Apart<T>(a: Option<T>, b: Option<T>) {
    a.None? || b.None?
  }

  /** No keyword occurs in both schemas, and `additionalProperties` of one does not
      meet `properties` of the other. */
  predicate MergeSafe(a: Schema, b: Schema) {
    && Apart(a.facets.types, b.facets.types) && Apart(a.facets.enumeration, b.facets.enumeration)
    && Apart(a.facets.constant, b.facets.constant) && Apart(a.facets.pattern, b.facets.pattern)
    && Apart(a.facets.minLength, b.facets.minLength) && Apart(a.facets.maxLength, b.facets.maxLength)
    && Apart(a.facets.minItems, b.facets.minItems) && Apart(a.facets.maxItems, b.facets.maxItems)
    && Apart(a.facets.uniqueItems, b.facets.uniqueItems) && Apart(a.facets.minimum, b.facets.minimum)
    && Apart(a.facets.maximum, b.facets.maximum) && Apart(a.facets.maxProperties, b.facets.maxProperties)
    && (a.properties.NoTable? || b.properties.NoTable?)
    && Apart(a.required, b.required)
    && (a.additional.Unset? || (b.additional.Unset? && b.properties.NoTable?))
    && (b.additional.Unset? || (a.additional.Unset? && a.properties.NoTable?))
    && (a.items.Absent? || b.items.Absent?)
    && (a.allOf.NoList? || b.allOf.NoList?)
    && (a.anyOf.NoList? || b.anyOf.NoList?)
    && (a.oneOf.NoList? || b.oneOf.NoList?)
    && (a.negated.Absent? || b.negated.Absent?)
    && a.cond.Absent? && a.then_.Absent? && a.else_.Absent?
  }

  /** Nothing in the schema can tell a document from the same document with
      metadata. */
  predicate MetadataFree(s: Schema)
    decreases s
  {
    && s.facets.maxProperties.None?
    && (s.additional.Unset? || s.additional == Allowed(true))
    && !Listed(s.properties, "profile") && !Listed(s.properties, "protocol")
    && (s.required.Some? ==> "profile" !in s.required.value && "protocol" !in s.required.value)
    && ListMetadataFree(s.allOf) && ListMetadataFree(s.anyOf) && ListMetadataFree(s.oneOf)
    && SlotMetadataFree(s.negated) && SlotMetadataFree(s.cond) && SlotMetadataFree(s.then_) && SlotMetadataFree(s.else_)
  }

  predicate SlotMetadataFree(slot: Slot)
    decreases slot
  {
    slot.Present? ==> MetadataFree(slot.schema)
  }

  predicate ListMetadataFree(list: Slots)
    decreases list
  {
    list.List? ==> forall i :: 0 <= i < |list.schemas| ==> MetadataFree(list.schemas[i])
  }

  /** Every conditional is either free of metadata or a pure profile test that can
      be resolved into its branch, or rewritten into a test on the outcome. */
  ghost predicate ConditionErasable(profiles: seq<Policy>, s: Schema) {
    s.cond.Present? ==>
      match ProfileRule(s)
      case None => MetadataFree(s.cond.schema)
      case Some(rule) =>
        && ProfileTest(s.cond.schema)
        && SeparatesOutcomes(rule, profiles)
        && ((forall p :: p in profiles ==> !Matches(rule, p)) ==> BranchSafe(s, s.else_))
        && ((forall p :: p in profiles ==> Matches(rule, p)) ==> BranchSafe(s, s.then_))
  }

  predicate BranchSafe(s: Schema, branch: Slot) {
    branch.Present? ==> ProfileRule(branch.schema).None? && MergeSafe(WithoutConditional(s), branch.schema)
  }

  /** The side conditions at every node that the projection may visit. */
  ghost predicate Erasable(rx: Regex, profiles: seq<Policy>, policy: Policy, withProtocol: bool, s: Schema)
    decreases s
  {
    && !HasNestedConstraint(s)
    && NodeErasable(rx, policy, withProtocol, s)
    && ConditionErasable(profiles, s)
    && ListErasable(rx, profiles, policy, withProtocol, s.allOf)
    && ListErasable(rx, profiles, policy, withProtocol, s.anyOf)
    && ListErasable(rx, profiles, policy, withProtocol, s.oneOf)
    && SlotErasable(rx, profiles, policy, withProtocol, s.negated)
    && SlotErasable(rx, profiles, policy, withProtocol, s.then_)
    && SlotErasable(rx, profiles, policy, withProtocol, s.else_)
  }

  ghost predicate SlotErasable(rx: Regex, profiles: seq<Policy>, policy: Policy, withProtocol: bool, slot: Slot)
    decreases slot
  {
    slot.Present? ==> Erasable(rx, profiles, policy, withProtocol, slot.schema)
  }

  ghost predicate ListErasable(rx: Regex, profiles: seq<Policy>, policy: Policy, withProtocol: bool, list: Slots)
    decreases list
  {
    list.List? ==> forall i :: 0 <= i < |list.schemas| ==> Erasable(rx, profiles, policy, withProtocol, list.schemas[i])
  }

  // ---- Rules ----

  /** A pure rule is decided by the code as the schema semantics decides it. */
  lemma {:induction false} PureRuleAgrees(rx: Regex, rule: Schema, profile: string)
    requires PureRule(rule)
    ensures MatchesProfile(rule, profile) == Ok(Accepts(rx, rule, Str(profile)))
    decreases rule
  {
    if rule.negated.Present? {
      PureRuleAgrees(rx, rule.negated.schema, profile);
    }
  }

  lemma {:induction false} MatchingIsFilter(rule: Schema, profiles: seq<Policy>)
    requires PureRule(rule)
    ensures MatchingProfiles(rule, profiles).Ok?
    ensures var m := MatchingProfiles(rule, profiles).value;
            && |m| <= |profiles|
            && (forall p :: p in m <==> p in profiles && Matches(rule, p))
            && (|m| == |profiles| <==> forall p :: p in profiles ==> Matches(rule, p))
  {
    if profiles != [] {
      PureRuleAgrees((a, b) => true, rule, profiles[0].profile);
      MatchingIsFilter(rule, profiles[1..]);
      assert forall p :: p in profiles <==> p == profiles[0] || p in profiles[1..];
      var m := MatchingProfiles(rule, profiles).value;
      var rest := MatchingProfiles(rule, profiles[1..]).value;
      if Matches(rule, profiles[0]) {
        assert m == [profiles[0]] + rest;
      } else {
        assert m == rest;
        assert profiles[0] in profiles;
      }
    }
  }

  // ---- Merging ----

  lemma MergeFacets(rx: Regex, a: Schema, b: Schema, v: Json)
    requires MergeSafe(a, b)
    ensures FacetsHold(rx, Merge(a, b).facets, v) <==> FacetsHold(rx, a.facets, v) && FacetsHold(rx, b.facets, v)
  {
  }

  lemma MergeFields(rx: Regex, a: Schema, b: Schema, fields: Document)
    requires MergeSafe(a, b)
    ensures AcceptsFields(rx, Merge(a, b), fields) <==> AcceptsFields(rx, a, fields) && AcceptsFields(rx, b, fields)
  {
  }

  lemma MergeLists(rx: Regex, a: Schema, b: Schema, v: Json)
    requires MergeSafe(a, b)
    ensures var m := Merge(a, b);
            && (AcceptsAll(rx, m.allOf, v) <==> AcceptsAll(rx, a.allOf, v) && AcceptsAll(rx, b.allOf, v))
            && (AcceptsAny(rx, m.anyOf, v) <==> AcceptsAny(rx, a.anyOf, v) && AcceptsAny(rx, b.anyOf, v))
            && (AcceptsOne(rx, m.oneOf, v) <==> AcceptsOne(rx, a.oneOf, v) && AcceptsOne(rx, b.oneOf, v))
            && (AcceptsItems(rx, m.items, v) <==> AcceptsItems(rx, a.items, v) && AcceptsItems(rx, b.items, v))
            && m.negated == OverSlot(a.negated, b.negated)
            && m.cond == b.cond && m.then_ == b.then_ && m.else_ == b.else_
  {
  }

  /** Merging schemas that share no keyword means requiring both. */
  lemma MergeIsConjunction(rx: Regex, a: Schema, b: Schema, v: Json)
    requires MergeSafe(a, b)
    ensures Accepts(rx, Merge(a, b), v) <==> Accepts(rx, a, v) && Accepts(rx, b, v)
  {
    MergeFacets(rx, a, b, v);
    if v.Obj? {
      MergeFields(rx, a, b, v.fields);
    }
    MergeLists(rx, a, b, v);
  }

  // ---- One node ----

  /** The document gains exactly the metadata keys. */
  lemma BoundKeys(e: Document, profile: string, withProtocol: bool)
    requires Bare(e)
    ensures var d := Bound(e, profile, withProtocol);
            && (forall k :: k in e ==> k in d && d[k] == e[k])
            && (forall k :: k in d && k !in METADATA ==> k in e)
            && "profile" in d && d["profile"] == Str(profile)
            && ("protocol" in d <==> withProtocol)
            && (withProtocol ==> d["protocol"] == Str(PROTOCOL))
  {
  }

  lemma StripLists(s: Schema)
    ensures forall k :: Listed(Strip(s).properties, k) <==> Listed(s.properties, k) && k !in METADATA
    ensures forall k :: Listed(Strip(s).properties, k) ==> Strip(s).properties.entries[k] == s.properties.entries[k]
    ensures s.required.Some? ==>
              forall k :: k in Strip(s).required.value <==> k in s.required.value && k !in METADATA
  {
  }

  lemma NodeExactForward(rx: Regex, policy: Policy, withProtocol: bool, s: Schema, e: Document)
    requires NodeErasable(rx, policy, withProtocol, s) && Bare(e) && Reports(e, policy)
    requires AcceptsFields(rx, s, Bound(e, policy.profile, withProtocol))
    ensures AcceptsFields(rx, Strip(s), e)
  {
    BoundKeys(e, policy.profile, withProtocol);
    StripLists(s);
  }

  lemma NodeExactBack(rx: Regex, policy: Policy, withProtocol: bool, s: Schema, e: Document)
    requires NodeErasable(rx, policy, withProtocol, s) && Bare(e) && Reports(e, policy)
    requires AcceptsFields(rx, Strip(s), e)
    ensures AcceptsFields(rx, s, Bound(e, policy.profile, withProtocol))
  {
    BoundKeys(e, policy.profile, withProtocol);
    StripLists(s);
    var d := Bound(e, policy.profile, withProtocol);
    forall k | k in d && Listed(s.properties, k)
      ensures Accepts(rx, s.properties.entries[k], d[k])
    {
      if k == "profile" {
        assert Listed(Strip(s).properties, "outcome") ==> !RefusesOutcomes(rx, s.properties, policy);
      } else if k != "protocol" {
        assert Listed(Strip(s).properties, k);
      }
    }
  }

  lemma NodeExact(rx: Regex, policy: Policy, withProtocol: bool, s: Schema, e: Document)
    requires NodeErasable(rx, policy, withProtocol, s) && Bare(e) && Reports(e, policy)
    ensures AcceptsFields(rx, s, Bound(e, policy.profile, withProtocol)) <==> AcceptsFields(rx, Strip(s), e)
  {
    if AcceptsFields(rx, s, Bound(e, policy.profile, withProtocol)) {
      NodeExactForward(rx, policy, withProtocol, s, e);
    }
    if AcceptsFields(rx, Strip(s), e) {
      NodeExactBack(rx, policy, withProtocol, s, e);
    }
  }

  lemma MetadataFreeFields(rx: Regex, s: Schema, e: Document, profile: string, withProtocol: bool)
    requires MetadataFree(s) && Bare(e)
    ensures AcceptsFields(rx, s, Bound(e, profile, withProtocol)) <==> AcceptsFields(rx, s, e)
  {
    BoundKeys(e, profile, withProtocol);
  }

  /** A schema that never looks at the metadata does not see it. */
  lemma {:induction false} MetadataFreeExact(rx: Regex, s: Schema, e: Document, profile: string, withProtocol: bool)
    requires MetadataFree(s) && Bare(e)
    ensures Accepts(rx, s, Obj(Bound(e, profile, withProtocol))) <==> Accepts(rx, s, Obj(e))
    decreases s
  {
    MetadataFreeFields(rx, s, e, profile, withProtocol);
    MetadataFreeLists(rx, s, e, profile, withProtocol);
    MetadataFreeSlots(rx, s, e, profile, withProtocol);
    ObjectPartsAgree(rx, s, Obj(Bound(e, profile, withProtocol)), s, Obj(e));
  }

  lemma {:induction false} MetadataFreeLists(rx: Regex, s: Schema, e: Document, profile: string, withProtocol: bool)
    requires MetadataFree(s) && Bare(e)
    ensures var d := Obj(Bound(e, profile, withProtocol));
            && (AcceptsAll(rx, s.allOf, d) <==> AcceptsAll(rx, s.allOf, Obj(e)))
            && (AcceptsAny(rx, s.anyOf, d) <==> AcceptsAny(rx, s.anyOf, Obj(e)))
            && (AcceptsOne(rx, s.oneOf, d) <==> AcceptsOne(rx, s.oneOf, Obj(e)))
    decreases s, 0
  {
    ListMetadataFreeExact(rx, s.allOf, e, profile, withProtocol);
    ListMetadataFreeExact(rx, s.anyOf, e, profile, withProtocol);
    ListMetadataFreeExact(rx, s.oneOf, e, profile, withProtocol);
  }

  lemma {:induction false} MetadataFreeSlots(rx: Regex, s: Schema, e: Document, profile: string, withProtocol: bool)
    requires MetadataFree(s) && Bare(e)
    ensures var d := Obj(Bound(e, profile, withProtocol));
            && (AcceptsSlot(rx, s.negated, d) <==> AcceptsSlot(rx, s.negated, Obj(e)))
            && (AcceptsSlot(rx, s.cond, d) <==> AcceptsSlot(rx, s.cond, Obj(e)))
            && (AcceptsSlot(rx, s.then_, d) <==> AcceptsSlot(rx, s.then_, Obj(e)))
            && (AcceptsSlot(rx, s.else_, d) <==> AcceptsSlot(rx, s.else_, Obj(e)))
    decreases s, 0
  {
    SlotMetadataFreeExact(rx, s.negated, e, profile, withProtocol);
    SlotMetadataFreeExact(rx, s.cond, e, profile, withProtocol);
    SlotMetadataFreeExact(rx, s.then_, e, profile, withProtocol);
    SlotMetadataFreeExact(rx, s.else_, e, profile, withProtocol);
  }

  lemma {:induction false} SlotMetadataFreeExact(rx: Regex, slot: Slot, e: Document, profile: string, withProtocol: bool)
    requires SlotMetadataFree(slot) && Bare(e)
    ensures AcceptsSlot(rx, slot, Obj(Bound(e, profile, withProtocol))) <==> AcceptsSlot(rx, slot, Obj(e))
    decreases slot
  {
    if slot.Present? {
      MetadataFreeExact(rx, slot.schema, e, profile, withProtocol);
    }
  }

  lemma {:induction false} ListMetadataFreeExact(rx: Regex, list: Slots, e: Document, profile: string, withProtocol: bool)
    requires ListMetadataFree(list) && Bare(e)
    ensures var d := Obj(Bound(e, profile, withProtocol));
            && (AcceptsAll(rx, list, d) <==> AcceptsAll(rx, list, Obj(e)))
            && (AcceptsAny(rx, list, d) <==> AcceptsAny(rx, list, Obj(e)))
            && (AcceptsOne(rx, list, d) <==> AcceptsOne(rx, list, Obj(e)))
    decreases list
  {
    if list.List? {
      forall i | 0 <= i < |list.schemas|
        ensures Accepts(rx, list.schemas[i], Obj(Bound(e, profile, withProtocol))) <==> Accepts(rx, list.schemas[i], Obj(e))
      {
        MetadataFreeExact(rx, list.schemas[i], e, profile, withProtocol);
      }
      assert Verdicts(rx, list.schemas, Obj(Bound(e, profile, withProtocol))) == Verdicts(rx, list.schemas, Obj(e));
    }
  }

  // ---- The projection, node by node ----

  lemma StripTwice(s: Schema)
    ensures Strip(Strip(s)) == Strip(s)
  {
    if s.properties.Table? {
      assert s.properties.entries - METADATA - METADATA == s.properties.entries - METADATA;
    }
    if s.required.Some? {
      FilterAll((k: string) => k !in METADATA, StripRequired(s.required).value);
    }
  }

  /** Projecting the stripped rest of a node is projecting the rest. */
  lemma RestProjects(profiles: seq<Policy>, s: Schema)
    requires !HasNestedConstraint(s)
    ensures Project(profiles, WithoutConditional(Strip(s))) == Project(profiles, WithoutConditional(s))
  {
    StripTwice(s);
    var a, b := WithoutConditional(Strip(s)), WithoutConditional(s);
    assert Strip(a) == Strip(b);
    assert !HasNestedConstraint(a) && !HasNestedConstraint(b);
  }

  /** Projecting a node without a profile conditional keeps every keyword it has. */
  lemma PlainProjection(profiles: seq<Policy>, s: Schema)
    requires ProfileRule(s).None? && Project(profiles, s).Ok?
    ensures var r := Project(profiles, s).value;
            && r == Strip(s).(allOf := r.allOf, anyOf := r.anyOf, oneOf := r.oneOf,
                              negated := r.negated, then_ := r.then_, else_ := r.else_)
            && (r.allOf.List? <==> s.allOf.List?) && (r.anyOf.List? <==> s.anyOf.List?)
            && (r.oneOf.List? <==> s.oneOf.List?) && (r.negated.Present? <==> s.negated.Present?)
            && (r.then_.Present? <==> s.then_.Present?) && (r.else_.Present? <==> s.else_.Present?)
  {
  }

  lemma MergeStaysSafe(profiles: seq<Policy>, a: Schema, b: Schema)
    requires MergeSafe(a, b) && ProfileRule(b).None?
    requires Project(profiles, a).Ok? && Project(profiles, b).Ok?
    ensures MergeSafe(Project(profiles, a).value, Project(profiles, b).value)
  {
    PlainProjection(profiles, a);
    PlainProjection(profiles, b);
  }

  lemma EmptyProjects(profiles: seq<Policy>)
    ensures Project(profiles, EMPTY_SCHEMA) == Ok(EMPTY_SCHEMA)
  {
  }

  lemma MergeEmpty(s: Schema)
    ensures Merge(s, EMPTY_SCHEMA) == s
  {
  }

  // ---- The main theorem ----

  lemma {:induction false} SlotExact(
    rx: Regex, profiles: seq<Policy>, policy: Policy, withProtocol: bool, slot: Slot, e: Document)
    requires policy in profiles && Bare(e) && Reports(e, policy)
    requires SlotErasable(rx, profiles, policy, withProtocol, slot)
    ensures ProjectSlot(profiles, slot).Ok?
    ensures var r := ProjectSlot(profiles, slot).value;
            && (r.Present? <==> slot.Present?)
            && (AcceptsSlot(rx, slot, Obj(Bound(e, policy.profile, withProtocol))) <==> AcceptsSlot(rx, r, Obj(e)))
    decreases SlotWeight(slot), 3
  {
    if slot.Present? {
      ProjectionExact(rx, profiles, policy, withProtocol, slot.schema, e);
    }
  }

  lemma {:induction false} SeqExact(
    rx: Regex, profiles: seq<Policy>, policy: Policy, withProtocol: bool, ss: seq<Schema>, e: Document)
    requires policy in profiles && Bare(e) && Reports(e, policy)
    requires forall i :: 0 <= i < |ss| ==> Erasable(rx, profiles, policy, withProtocol, ss[i])
    ensures ProjectSeq(profiles, ss).Ok?
    ensures Verdicts(rx, ss, Obj(Bound(e, policy.profile, withProtocol)))
         == Verdicts(rx, ProjectSeq(profiles, ss).value, Obj(e))
    decreases SeqWeight(ss), 2
  {
    if ss != [] {
      ProjectionExact(rx, profiles, policy, withProtocol, ss[0], e);
      SeqExact(rx, profiles, policy, withProtocol, ss[1..], e);
      var rs := ProjectSeq(profiles, ss).value;
      assert rs[0] == Project(profiles, ss[0]).value && rs[1..] == ProjectSeq(profiles, ss[1..]).value;
    }
  }

  lemma {:induction false} ListExact(
    rx: Regex, profiles: seq<Policy>, policy: Policy, withProtocol: bool, list: Slots, e: Document)
    requires policy in profiles && Bare(e) && Reports(e, policy)
    requires ListErasable(rx, profiles, policy, withProtocol, list)
    ensures ProjectList(profiles, list).Ok?
    ensures var r := ProjectList(profiles, list).value;
            var d := Obj(Bound(e, policy.profile, withProtocol));
            && (AcceptsAll(rx, list, d) <==> AcceptsAll(rx, r, Obj(e)))
            && (AcceptsAny(rx, list, d) <==> AcceptsAny(rx, r, Obj(e)))
            && (AcceptsOne(rx, list, d) <==> AcceptsOne(rx, r, Obj(e)))
    decreases ListWeight(list), 3
  {
    if list.List? {
      SeqExact(rx, profiles, policy, withProtocol, list.schemas, e);
    }
  }

  lemma PartsShape(profiles: seq<Policy>, s: Schema)
    requires ProjectList(profiles, s.allOf).Ok? && ProjectList(profiles, s.anyOf).Ok?
    requires ProjectList(profiles, s.oneOf).Ok? && ProjectSlot(profiles, s.negated).Ok?
    requires ProjectSlot(profiles, s.then_).Ok? && ProjectSlot(profiles, s.else_).Ok?
    ensures ProjectParts(profiles, s) == Ok(s.(
              allOf := ProjectList(profiles, s.allOf).value, anyOf := ProjectList(profiles, s.anyOf).value,
              oneOf := ProjectList(profiles, s.oneOf).value, negated := ProjectSlot(profiles, s.negated).value,
              then_ := ProjectSlot(profiles, s.then_).value, else_ := ProjectSlot(profiles, s.else_).value))
  {
  }

  lemma FacetsIgnoreFields(rx: Regex, f: Facets, a: Document, b: Document)
    requires f.maxProperties.None?
    ensures FacetsHold(rx, f, Obj(a)) <==> FacetsHold(rx, f, Obj(b))
  {
  }

  lemma FieldsOnly(rx: Regex, a: Schema, b: Schema, fields: Document)
    requires a.properties == b.properties && a.required == b.required && a.additional == b.additional
    ensures AcceptsFields(rx, a, fields) <==> AcceptsFields(rx, b, fields)
  {
  }

  lemma {:induction false} ListsExact(
    rx: Regex, profiles: seq<Policy>, policy: Policy, withProtocol: bool, s: Schema, e: Document)
    requires policy in profiles && Bare(e) && Reports(e, policy)
    requires Erasable(rx, profiles, policy, withProtocol, s)
    ensures ProjectList(profiles, s.allOf).Ok? && ProjectList(profiles, s.anyOf).Ok? && ProjectList(profiles, s.oneOf).Ok?
    ensures var d := Obj(Bound(e, policy.profile, withProtocol));
            && (AcceptsAll(rx, s.allOf, d) <==> AcceptsAll(rx, ProjectList(profiles, s.allOf).value, Obj(e)))
            && (AcceptsAny(rx, s.anyOf, d) <==> AcceptsAny(rx, ProjectList(profiles, s.anyOf).value, Obj(e)))
            && (AcceptsOne(rx, s.oneOf, d) <==> AcceptsOne(rx, ProjectList(profiles, s.oneOf).value, Obj(e)))
    decreases Weight(s), 0, 0
  {
    ListExact(rx, profiles, policy, withProtocol, s.allOf, e);
    ListExact(rx, profiles, policy, withProtocol, s.anyOf, e);
    ListExact(rx, profiles, policy, withProtocol, s.oneOf, e);
  }

  lemma {:induction false} SlotsExact(
    rx: Regex, profiles: seq<Policy>, policy: Policy, withProtocol: bool, s: Schema, e: Document)
    requires policy in profiles && Bare(e) && Reports(e, policy)
    requires Erasable(rx, profiles, policy, withProtocol, s)
    ensures ProjectSlot(profiles, s.negated).Ok? && ProjectSlot(profiles, s.then_).Ok? && ProjectSlot(profiles, s.else_).Ok?
    ensures var d := Obj(Bound(e, policy.profile, withProtocol));
            && (AcceptsSlot(rx, s.negated, d) <==> AcceptsSlot(rx, ProjectSlot(profiles, s.negated).value, Obj(e)))
            && (AcceptsSlot(rx, s.then_, d) <==> AcceptsSlot(rx, ProjectSlot(profiles, s.then_).value, Obj(e)))
            && (AcceptsSlot(rx, s.else_, d) <==> AcceptsSlot(rx, ProjectSlot(profiles, s.else_).value, Obj(e)))
    decreases Weight(s), 0, 0
  {
    SlotExact(rx, profiles, policy, withProtocol, s.negated, e);
    SlotExact(rx, profiles, policy, withProtocol, s.then_, e);
    SlotExact(rx, profiles, policy, withProtocol, s.else_, e);
  }

  /** A node whose test, if any, gives the same verdict before and after. */
  lemma {:induction false} PartsExact(
    rx: Regex, profiles: seq<Policy>, policy: Policy, withProtocol: bool, s: Schema, cond: Slot, e: Document)
    requires policy in profiles && Bare(e) && Reports(e, policy)
    requires Erasable(rx, profiles, policy, withProtocol, s)
    requires s.cond.Present? <==> cond.Present?
    requires AcceptsSlot(rx, s.cond, Obj(Bound(e, policy.profile, withProtocol))) <==> AcceptsSlot(rx, cond, Obj(e))
    ensures ProjectParts(profiles, Strip(s).(cond := cond)).Ok?
    ensures Accepts(rx, s, Obj(Bound(e, policy.profile, withProtocol)))
       <==> Accepts(rx, ProjectParts(profiles, Strip(s).(cond := cond)).value, Obj(e))
    decreases Weight(s), 0, 1
  {
    NodeExact(rx, policy, withProtocol, s, e);
    ListsExact(rx, profiles, policy, withProtocol, s, e);
    SlotsExact(rx, profiles, policy, withProtocol, s, e);
    PartsShape(profiles, Strip(s).(cond := cond));
    var r := ProjectParts(profiles, Strip(s).(cond := cond)).value;
    FieldsOnly(rx, r, Strip(s), e);
    FacetsIgnoreFields(rx, s.facets, Bound(e, policy.profile, withProtocol), e);
    ObjectPartsAgree(rx, s, Obj(Bound(e, policy.profile, withProtocol)), r, Obj(e));
  }

  /** The profile test holds of the bound document exactly when the rule matches. */
  lemma ProfileTestDecides(rx: Regex, cond: Schema, e: Document, profile: string, withProtocol: bool)
    requires ProfileTest(cond) && Bare(e)
    ensures Accepts(rx, cond, Obj(Bound(e, profile, withProtocol)))
       <==> MatchesProfile(cond.properties.entries["profile"], profile) == Ok(true)
  {
    PureRuleAgrees(rx, cond.properties.entries["profile"], profile);
  }

  /** The rewritten test on the outcome decides the same way. */
  lemma OutcomeTestDecides(
    rx: Regex, rule: Schema, profiles: seq<Policy>, policy: Policy, e: Document)
    requires PureRule(rule) && SeparatesOutcomes(rule, profiles) && policy in profiles && Reports(e, policy)
    ensures MatchingProfiles(rule, profiles).Ok?
    ensures Accepts(rx, OutcomeTest(MatchingProfiles(rule, profiles).value), Obj(e)) <==> Matches(rule, policy)
  {
    MatchingIsFilter(rule, profiles);
    var m := MatchingProfiles(rule, profiles).value;
    var o := e["outcome"].text;
    assert o in AllOutcomes(m) <==> Matches(rule, policy);
    var test := EMPTY_SCHEMA.(facets := NO_FACETS.(enumeration := Some(Dedup(AllOutcomes(m)))));
    assert Accepts(rx, test, e["outcome"]) <==> o in AllOutcomes(m);
    assert OutcomeTest(m).properties.entries["outcome"] == test;
  }

  /** A conditional is its rest and the branch its test selects. */
  lemma ConditionalSplits(rx: Regex, s: Schema, v: Json)
    requires s.cond.Present?
    ensures Accepts(rx, s, v) <==>
              Accepts(rx, WithoutConditional(s), v)
              && AcceptsSlot(rx, if AcceptsSlot(rx, s.cond, v) then s.then_ else s.else_, v)
  {
    if v.Obj? {
      assert AcceptsFields(rx, s, v.fields) <==> AcceptsFields(rx, WithoutConditional(s), v.fields);
    }
  }

  /** The branch that a settled condition selects, empty when it is missing. */
  function BranchSchema(slot: Slot): Schema {
    if slot.Present? then slot.schema else EMPTY_SCHEMA
  }

  /** A node whose condition is settled becomes its rest merged with the branch. */
  lemma {:induction false} ResolvedExact(
    rx: Regex, profiles: seq<Policy>, policy: Policy, withProtocol: bool, s: Schema, branch: Slot, e: Document)
    requires policy in profiles && Bare(e) && Reports(e, policy)
    requires Erasable(rx, profiles, policy, withProtocol, s) && s.cond.Present?
    requires SlotErasable(rx, profiles, policy, withProtocol, branch) && BranchSafe(s, branch)
    requires SlotWeight(branch) < Weight(s)
    requires branch == if AcceptsSlot(rx, s.cond, Obj(Bound(e, policy.profile, withProtocol))) then s.then_ else s.else_
    ensures Project(profiles, WithoutConditional(Strip(s))).Ok? && Project(profiles, BranchSchema(branch)).Ok?
    ensures Accepts(rx, s, Obj(Bound(e, policy.profile, withProtocol)))
       <==> Accepts(rx, Merge(Project(profiles, WithoutConditional(Strip(s))).value,
                              Project(profiles, BranchSchema(branch)).value), Obj(e))
    decreases Weight(s), 0, 1
  {
    var rest := WithoutConditional(s);
    ConditionalSplits(rx, s, Obj(Bound(e, policy.profile, withProtocol)));
    RestProjects(profiles, s);
    assert Weight(rest) < Weight(s);
    ProjectionExact(rx, profiles, policy, withProtocol, rest, e);
    if branch.Present? {
      ProjectionExact(rx, profiles, policy, withProtocol, branch.schema, e);
      MergeStaysSafe(profiles, rest, branch.schema);
      MergeIsConjunction(rx, Project(profiles, rest).value, Project(profiles, branch.schema).value, Obj(e));
    } else {
      EmptyProjects(profiles);
      MergeEmpty(Project(profiles, rest).value);
    }
  }

  /** Projection is exact: the original schema accepts the document with metadata
      if and only if the projected schema accepts the document without it. */
  lemma {:induction false} ProjectionExact(
    rx: Regex, profiles: seq<Policy>, policy: Policy, withProtocol: bool, s: Schema, e: Document)
    requires policy in profiles && Bare(e) && Reports(e, policy)
    requires Erasable(rx, profiles, policy, withProtocol, s)
    ensures Project(profiles, s).Ok?
    ensures Accepts(rx, s, Obj(Bound(e, policy.profile, withProtocol)))
       <==> Accepts(rx, Project(profiles, s).value, Obj(e))
    decreases Weight(s), 1, 1
  {
    if ProfileRule(s).None? {
      if s.cond.Present? {
        MetadataFreeExact(rx, s.cond.schema, e, policy.profile, withProtocol);
      }
      assert Strip(s) == Strip(s).(cond := s.cond);
      PartsExact(rx, profiles, policy, withProtocol, s, s.cond, e);
    } else {
      RuleExact(rx, profiles, policy, withProtocol, s, e);
    }
  }

  /** The case of a node with a conditional on the profile. */
  lemma {:induction false} RuleExact(
    rx: Regex, profiles: seq<Policy>, policy: Policy, withProtocol: bool, s: Schema, e: Document)
    requires policy in profiles && Bare(e) && Reports(e, policy)
    requires Erasable(rx, profiles, policy, withProtocol, s)
    requires ProfileRule(s).Some?
    ensures Project(profiles, s).Ok?
    ensures Accepts(rx, s, Obj(Bound(e, policy.profile, withProtocol)))
       <==> Accepts(rx, Project(profiles, s).value, Obj(e))
    decreases Weight(s), 1, 0
  {
    var rule := ProfileRule(s).value;
    MatchingIsFilter(rule, profiles);
    var matching := MatchingProfiles(rule, profiles).value;
    ProfileTestDecides(rx, s.cond.schema, e, policy.profile, withProtocol);
    ResolutionShrinks(s);
    if |matching| == 0 {
      assert policy !in matching;
      ResolvedExact(rx, profiles, policy, withProtocol, s, s.else_, e);
    } else if |matching| == |profiles| {
      ResolvedExact(rx, profiles, policy, withProtocol, s, s.then_, e);
    } else {
      OutcomeTestDecides(rx, rule, profiles, policy, e);
      PartsExact(rx, profiles, policy, withProtocol, s, Present(OutcomeTest(matching)), e);
    }
  }
}
