/** Projection of a handoff tool schema for one role: the runtime supplies
    `protocol` and `profile`, so both are removed and every conditional on the
    profile is resolved or rewritten into a test on `outcome`. */
module HandoffProjection {
  import opened Basics
  import opened JsonSchema
  import opened HandoffPolicy

  datatype ProjectionError = UnsupportedRule | NestedConstraint

  const METADATA: set<string> := {"protocol", "profile"}

  // ---- Rules on the profile ----

  function MatchesProfile(rule: Schema, profile: string): Result<bool, ProjectionError>
    decreases rule
  {
    if rule.facets.constant.Some? then Ok(rule.facets.constant.value == profile)
    else if rule.facets.enumeration.Some? then Ok(profile in rule.facets.enumeration.value)
    else if rule.negated.Present? then
      var inner :- MatchesProfile(rule.negated.schema, profile);
      Ok(!inner)
    else Err(UnsupportedRule)
  }

  function MatchingProfiles(rule: Schema, profiles: seq<Policy>): Result<seq<Policy>, ProjectionError> {
    if profiles == [] then Ok([])
    else
      var first :- MatchesProfile(rule, profiles[0].profile);
      var rest :- MatchingProfiles(rule, profiles[1..]);
      Ok(if first then [profiles[0]] + rest else rest)
  }

  /** The rule of `if: {properties: {profile: rule}}`, when there is one. */
  function ProfileRule(s: Schema): Option<Schema> {
    if s.cond.Present? && Listed(s.cond.schema.properties, "profile")
    then Some(s.cond.schema.properties.entries["profile"])
    else None
  }

  // ---- Conditionals on the profile at any depth ----

  predicate HasProfileConstraint(s: Schema)
    decreases s
  {
    || ProfileRule(s).Some?
    || TableHasConstraint(s.properties)
    || (s.additional.Matching? && HasProfileConstraint(s.additional.extra))
    || SlotHasConstraint(s.items)
    || ListHasConstraint(s.allOf)
    || ListHasConstraint(s.anyOf)
    || ListHasConstraint(s.oneOf)
    || SlotHasConstraint(s.negated)
    || SlotHasConstraint(s.cond)
    || SlotHasConstraint(s.then_)
    || SlotHasConstraint(s.else_)
  }

  predicate SlotHasConstraint(slot: Slot)
    decreases slot
  {
    slot.Present? && HasProfileConstraint(slot.schema)
  }

  predicate ListHasConstraint(list: Slots)
    decreases list
  {
    list.List? && exists i :: 0 <= i < |list.schemas| && HasProfileConstraint(list.schemas[i])
  }

  /** The search does not know that a property table is not a schema: a property
      called "if" that lists `profile` counts as a conditional. */
  predicate TableHasConstraint(t: Table)
    decreases t
  {
    t.Table? && (
      || ("if" in t.entries && Listed(t.entries["if"].properties, "profile"))
      || EntriesHaveConstraint(t))
  }

  predicate EntriesHaveConstraint(t: Table)
    decreases t, 0
  {
    t.Table? && exists k :: k in t.entries && HasProfileConstraint(t.entries[k])
  }

  // ---- The projection ----

  predicate HasNestedConstraint(s: Schema) {
    EntriesHaveConstraint(s.properties) || SlotHasConstraint(s.items)
  }

  function StripTable(t: Table): Table {
    if t.Table? then Table(t.entries - METADATA) else t
  }

  function StripRequired(required: Option<seq<string>>): Option<seq<string>> {
    if required.Some? then Some(Filter((k: string) => k !in METADATA, required.value)) else None
  }

  function Strip(s: Schema): Schema {
    s.(properties := StripTable(s.properties), required := StripRequired(s.required))
  }

  /** A schema without its conditional. */
  function WithoutConditional(s: Schema): Schema {
    s.(cond := Absent, then_ := Absent, else_ := Absent)
  }

  function AllOutcomes(profiles: seq<Policy>): (r: seq<string>)
    ensures forall o :: o in r <==> exists p :: p in profiles && o in p.outcomes
  {
    if profiles == [] then [] else profiles[0].outcomes + AllOutcomes(profiles[1..])
  }

  /** The conditional on `outcome` that stands for "the profile is one of these". */
  function OutcomeTest(matching: seq<Policy>): Schema {
    EMPTY_SCHEMA.(
      properties := Table(map[
        "outcome" := EMPTY_SCHEMA.(facets := NO_FACETS.(enumeration := Some(Dedup(AllOutcomes(matching)))))]),
      required := Some(["outcome"]))
  }

  function Over<T>(a: Option<T>, b: Option<T>): Option<T> {
    if b.Some? then b else a
  }

  function OverSlot(a: Slot, b: Slot): Slot {
    if b.Present? then b else a
  }

  function OverList(a: Slots, b: Slots): Slots {
    if b.List? then b else a
  }

  /** `{...a, ...b}`: every keyword that `b` has replaces the one in `a`. */
  function Merge(a: Schema, b: Schema): Schema {
    Schema(
      Facets(
        Over(a.facets.types, b.facets.types), Over(a.facets.enumeration, b.facets.enumeration),
        Over(a.facets.constant, b.facets.constant), Over(a.facets.pattern, b.facets.pattern),
        Over(a.facets.minLength, b.facets.minLength), Over(a.facets.maxLength, b.facets.maxLength),
        Over(a.facets.minItems, b.facets.minItems), Over(a.facets.maxItems, b.facets.maxItems),
        Over(a.facets.uniqueItems, b.facets.uniqueItems), Over(a.facets.minimum, b.facets.minimum),
        Over(a.facets.maximum, b.facets.maximum), Over(a.facets.maxProperties, b.facets.maxProperties)),
      if b.properties.Table? then b.properties else a.properties,
      Over(a.required, b.required),
      if b.additional.Unset? then a.additional else b.additional,
      OverSlot(a.items, b.items),
      OverList(a.allOf, b.allOf), OverList(a.anyOf, b.anyOf), OverList(a.oneOf, b.oneOf),
      OverSlot(a.negated, b.negated), OverSlot(a.cond, b.cond), OverSlot(a.then_, b.then_), OverSlot(a.else_, b.else_),
      a.internalOnly || b.internalOnly)
  }

  /** The size of the part of a schema that the projection visits. */
  ghost function Weight(s: Schema): (w: nat)
    ensures w > 0
    decreases s
  {
    1 + ListWeight(s.allOf) + ListWeight(s.anyOf) + ListWeight(s.oneOf)
      + SlotWeight(s.negated) + SlotWeight(s.cond) + SlotWeight(s.then_) + SlotWeight(s.else_)
  }

  ghost function SlotWeight(slot: Slot): nat
    decreases slot
  {
    if slot.Present? then Weight(slot.schema) else 0
  }

  ghost function ListWeight(list: Slots): nat
    decreases list
  {
    if list.List? then SeqWeight(list.schemas) else 0
  }

  ghost function SeqWeight(ss: seq<Schema>): nat
    decreases ss
  {
    if ss == [] then 0 else Weight(ss[0]) + SeqWeight(ss[1..])
  }

  /** Resolving a conditional leaves a smaller schema; rewriting its test leaves one
      that is no larger. */
  lemma ResolutionShrinks(s: Schema)
    requires s.cond.Present?
    ensures Weight(WithoutConditional(Strip(s))) < Weight(s)
    ensures Weight(EMPTY_SCHEMA) < Weight(s)
    ensures forall matching :: Weight(Strip(s).(cond := Present(OutcomeTest(matching)))) <= Weight(s)
  {
    assert Weight(EMPTY_SCHEMA) == 1;
    assert SlotWeight(s.cond) >= 1;
    forall matching
      ensures Weight(Strip(s).(cond := Present(OutcomeTest(matching)))) <= Weight(s)
    {
      assert Weight(OutcomeTest(matching)) == 1;
    }
  }

  function Project(profiles: seq<Policy>, s: Schema): Result<Schema, ProjectionError>
    decreases Weight(s), 1
  {
    if HasNestedConstraint(s) then Err(NestedConstraint)
    else
      var out := Strip(s);
      if ProfileRule(s).Some? then
        ResolutionShrinks(s);
        var matching :- MatchingProfiles(ProfileRule(s).value, profiles);
        var rest := WithoutConditional(out);
        if |matching| == 0 then
          var kept :- Project(profiles, rest);
          var branch :- Project(profiles, if out.else_.Present? then out.else_.schema else EMPTY_SCHEMA);
          Ok(Merge(kept, branch))
        else if |matching| == |profiles| then
          var kept :- Project(profiles, rest);
          var branch :- Project(profiles, if out.then_.Present? then out.then_.schema else EMPTY_SCHEMA);
          Ok(Merge(kept, branch))
        else
          ProjectParts(profiles, out.(cond := Present(OutcomeTest(matching))))
      else
        ProjectParts(profiles, out)
  }

  /** Projects every applicator but `if`, in the order the code visits them. */
  function ProjectParts(profiles: seq<Policy>, s: Schema): Result<Schema, ProjectionError>
    decreases Weight(s), 0
  {
    var allOf :- ProjectList(profiles, s.allOf);
    var anyOf :- ProjectList(profiles, s.anyOf);
    var oneOf :- ProjectList(profiles, s.oneOf);
    var negated :- ProjectSlot(profiles, s.negated);
    var then_ :- ProjectSlot(profiles, s.then_);
    var else_ :- ProjectSlot(profiles, s.else_);
    Ok(s.(allOf := allOf, anyOf := anyOf, oneOf := oneOf, negated := negated, then_ := then_, else_ := else_))
  }

  function ProjectSlot(profiles: seq<Policy>, slot: Slot): (r: Result<Slot, ProjectionError>)
    ensures r.Ok? ==> (r.value.Present? <==> slot.Present?)
    decreases SlotWeight(slot), 3
  {
    if slot.Absent? then Ok(Absent)
    else
      var p :- Project(profiles, slot.schema);
      Ok(Present(p))
  }

  function ProjectList(profiles: seq<Policy>, list: Slots): (r: Result<Slots, ProjectionError>)
    ensures r.Ok? ==> (r.value.List? <==> list.List?)
    decreases ListWeight(list), 3
  {
    if list.NoList? then Ok(NoList)
    else
      var ps :- ProjectSeq(profiles, list.schemas);
      Ok(List(ps))
  }

  function ProjectSeq(profiles: seq<Policy>, ss: seq<Schema>): (r: Result<seq<Schema>, ProjectionError>)
    ensures r.Ok? ==> |r.value| == |ss|
    decreases SeqWeight(ss), 2
  {
    if ss == [] then Ok([])
    else
      var first :- Project(profiles, ss[0]);
      var rest :- ProjectSeq(profiles, ss[1..]);
      Ok([first] + rest)
  }
}
