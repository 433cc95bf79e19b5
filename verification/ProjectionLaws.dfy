/** What a projected schema looks like, when the projection fails, and the
    imperative form of the projection. */
module ProjectionLaws {
  import opened Basics
  import opened JsonSchema
  import opened HandoffPolicy
  import opened HandoffProjection

  // ---- The result mentions no metadata, and projecting it again changes nothing ----

  /** No visited node mentions the metadata in `properties`, in `required` or in a
      conditional on the profile. */
  predicate Settled(s: Schema)
    decreases s
  {
    && !Listed(s.properties, "profile") && !Listed(s.properties, "protocol")
    && (s.required.Some? ==> forall k :: k in s.required.value ==> k !in METADATA)
    && ProfileRule(s).None?
    && !HasNestedConstraint(s)
    && ListSettled(s.allOf) && ListSettled(s.anyOf) && ListSettled(s.oneOf)
    && SlotSettled(s.negated) && SlotSettled(s.then_) && SlotSettled(s.else_)
  }

  predicate SlotSettled(slot: Slot)
    decreases slot
  {
    slot.Present? ==> Settled(slot.schema)
  }

  predicate ListSettled(list: Slots)
    decreases list
  {
    list.List? ==> forall i :: 0 <= i < |list.schemas| ==> Settled(list.schemas[i])
  }

  lemma MergeSettled(a: Schema, b: Schema)
    requires Settled(a) && Settled(b)
    ensures Settled(Merge(a, b))
  {
  }

  lemma {:induction false} ProjectionSettles(profiles: seq<Policy>, s: Schema)
    requires Project(profiles, s).Ok?
    ensures Settled(Project(profiles, s).value)
    decreases Weight(s), 1
  {
    var out := Strip(s);
    if ProfileRule(s).Some? {
      ResolutionShrinks(s);
      var matching := MatchingProfiles(ProfileRule(s).value, profiles).value;
      if |matching| == 0 || |matching| == |profiles| {
        var branch := if |matching| == 0 then out.else_ else out.then_;
        var branchSchema := if branch.Present? then branch.schema else EMPTY_SCHEMA;
        ProjectionSettles(profiles, WithoutConditional(out));
        ProjectionSettles(profiles, branchSchema);
        MergeSettled(Project(profiles, WithoutConditional(out)).value, Project(profiles, branchSchema).value);
      } else {
        PartsSettle(profiles, out.(cond := Present(OutcomeTest(matching))));
      }
    } else {
      PartsSettle(profiles, out);
    }
  }

  lemma {:induction false} PartsSettle(profiles: seq<Policy>, s: Schema)
    requires !Listed(s.properties, "profile") && !Listed(s.properties, "protocol")
    requires s.required.Some? ==> forall k :: k in s.required.value ==> k !in METADATA
    requires ProfileRule(s).None? && !HasNestedConstraint(s)
    requires ProjectParts(profiles, s).Ok?
    ensures Settled(ProjectParts(profiles, s).value)
    decreases Weight(s), 0
  {
    ListSettles(profiles, s.allOf);
    ListSettles(profiles, s.anyOf);
    ListSettles(profiles, s.oneOf);
    SlotSettles(profiles, s.negated);
    SlotSettles(profiles, s.then_);
    SlotSettles(profiles, s.else_);
  }

  lemma {:induction false} SlotSettles(profiles: seq<Policy>, slot: Slot)
    requires ProjectSlot(profiles, slot).Ok?
    ensures SlotSettled(ProjectSlot(profiles, slot).value)
    decreases SlotWeight(slot), 3
  {
    if slot.Present? {
      ProjectionSettles(profiles, slot.schema);
    }
  }

  lemma {:induction false} ListSettles(profiles: seq<Policy>, list: Slots)
    requires ProjectList(profiles, list).Ok?
    ensures ListSettled(ProjectList(profiles, list).value)
    decreases ListWeight(list), 3
  {
    if list.List? {
      SeqSettles(profiles, list.schemas);
    }
  }

  lemma {:induction false} SeqSettles(profiles: seq<Policy>, ss: seq<Schema>)
    requires ProjectSeq(profiles, ss).Ok?
    ensures forall s :: s in ProjectSeq(profiles, ss).value ==> Settled(s)
    decreases SeqWeight(ss), 2
  {
    if ss != [] {
      ProjectionSettles(profiles, ss[0]);
      SeqSettles(profiles, ss[1..]);
    }
  }

  /** A settled schema is left as it is, whatever the profiles. */
  lemma {:induction false} SettledIsFixed(profiles: seq<Policy>, s: Schema)
    requires Settled(s)
    ensures Project(profiles, s) == Ok(s)
    decreases s
  {
    if s.properties.Table? {
      assert s.properties.entries - METADATA == s.properties.entries;
    }
    if s.required.Some? {
      FilterAll((k: string) => k !in METADATA, s.required.value);
    }
    assert Strip(s) == s;
    SettledListIsFixed(profiles, s.allOf);
    SettledListIsFixed(profiles, s.anyOf);
    SettledListIsFixed(profiles, s.oneOf);
    SettledSlotIsFixed(profiles, s.negated);
    SettledSlotIsFixed(profiles, s.then_);
    SettledSlotIsFixed(profiles, s.else_);
  }

  lemma {:induction false} SettledSlotIsFixed(profiles: seq<Policy>, slot: Slot)
    requires SlotSettled(slot)
    ensures ProjectSlot(profiles, slot) == Ok(slot)
    decreases slot
  {
    if slot.Present? {
      SettledIsFixed(profiles, slot.schema);
    }
  }

  lemma {:induction false} SettledListIsFixed(profiles: seq<Policy>, list: Slots)
    requires ListSettled(list)
    ensures ProjectList(profiles, list) == Ok(list)
    decreases list
  {
    if list.List? {
      SettledSeqIsFixed(profiles, list.schemas);
    }
  }

  lemma {:induction false} SettledSeqIsFixed(profiles: seq<Policy>, ss: seq<Schema>)
    requires forall i :: 0 <= i < |ss| ==> Settled(ss[i])
    ensures ProjectSeq(profiles, ss) == Ok(ss)
    decreases ss
  {
    if ss != [] {
      SettledIsFixed(profiles, ss[0]);
      SettledSeqIsFixed(profiles, ss[1..]);
      assert [ss[0]] + ss[1..] == ss;
    }
  }

  /** Projecting a projected schema again, even for another role, changes nothing. */
  lemma ProjectionIsIdempotent(profiles: seq<Policy>, others: seq<Policy>, s: Schema)
    requires Project(profiles, s).Ok?
    ensures Project(others, Project(profiles, s).value) == Project(profiles, s)
  {
    ProjectionSettles(profiles, s);
    SettledIsFixed(others, Project(profiles, s).value);
  }

  // ---- When the projection fails ----

  /** A rule built from `const` and `enum` under any number of `not`s. */
  predicate SupportedRule(rule: Schema)
    decreases rule
  {
    || rule.facets.constant.Some?
    || rule.facets.enumeration.Some?
    || (rule.negated.Present? && SupportedRule(rule.negated.schema))
  }

  lemma {:induction false} RuleFailsUnlessSupported(rule: Schema, profile: string)
    ensures MatchesProfile(rule, profile).Ok? <==> SupportedRule(rule)
    ensures MatchesProfile(rule, profile).Err? ==> MatchesProfile(rule, profile).error == UnsupportedRule
    decreases rule
  {
    if rule.negated.Present? {
      RuleFailsUnlessSupported(rule.negated.schema, profile);
    }
  }

  lemma {:induction false} MatchingFailsUnlessSupported(rule: Schema, profiles: seq<Policy>)
    requires profiles != []
    ensures MatchingProfiles(rule, profiles).Ok? <==> SupportedRule(rule)
    ensures MatchingProfiles(rule, profiles).Err? ==> MatchingProfiles(rule, profiles).error == UnsupportedRule
  {
    RuleFailsUnlessSupported(rule, profiles[0].profile);
    if |profiles| > 1 {
      MatchingFailsUnlessSupported(rule, profiles[1..]);
    }
  }

  /** The code refuses this node: a profile conditional is nested in its properties
      or items, or its own profile rule has an unknown form. */
  predicate Refused(s: Schema) {
    HasNestedConstraint(s) || (ProfileRule(s).Some? && !SupportedRule(ProfileRule(s).value))
  }

  /** A visited node, reached through applicators and selected branches, is refused. */
  ghost predicate VisitsRefused(profiles: seq<Policy>, s: Schema)
    decreases Weight(s), 1
  {
    Refused(s) ||
    if ProfileRule(s).None? then PartsVisitRefused(profiles, s)
    else
      ResolutionShrinks(s);
      var rest := WithoutConditional(Strip(s));
      var matching := MatchingProfiles(ProfileRule(s).value, profiles);
      if matching.Err? then true
      else if |matching.value| == 0 then
        VisitsRefused(profiles, rest) || SlotVisitsRefused(profiles, s.else_)
      else if |matching.value| == |profiles| then
        VisitsRefused(profiles, rest) || SlotVisitsRefused(profiles, s.then_)
      else PartsVisitRefused(profiles, s)
  }

  ghost predicate PartsVisitRefused(profiles: seq<Policy>, s: Schema)
    decreases Weight(s), 0
  {
    || ListVisitsRefused(profiles, s.allOf)
    || ListVisitsRefused(profiles, s.anyOf)
    || ListVisitsRefused(profiles, s.oneOf)
    || SlotVisitsRefused(profiles, s.negated)
    || SlotVisitsRefused(profiles, s.then_)
    || SlotVisitsRefused(profiles, s.else_)
  }

  ghost predicate SlotVisitsRefused(profiles: seq<Policy>, slot: Slot)
    decreases SlotWeight(slot), 3
  {
    slot.Present? && VisitsRefused(profiles, slot.schema)
  }

  ghost predicate ListVisitsRefused(profiles: seq<Policy>, list: Slots)
    decreases ListWeight(list), 3
  {
    list.List? && SeqVisitsRefused(profiles, list.schemas)
  }

  ghost predicate SeqVisitsRefused(profiles: seq<Policy>, ss: seq<Schema>)
    decreases SeqWeight(ss), 2
  {
    ss != [] && (VisitsRefused(profiles, ss[0]) || SeqVisitsRefused(profiles, ss[1..]))
  }

  /** The projection raises an error exactly when it visits a refused node. */
  lemma {:induction false} FailsExactlyWhenRefused(profiles: seq<Policy>, s: Schema)
    requires profiles != []
    ensures Project(profiles, s).Err? <==> VisitsRefused(profiles, s)
    decreases Weight(s), 1
  {
    var out := Strip(s);
    if ProfileRule(s).Some? {
      MatchingFailsUnlessSupported(ProfileRule(s).value, profiles);
      ResolutionShrinks(s);
      FailsExactlyWhenRefused(profiles, WithoutConditional(out));
      EmptyNeverRefused(profiles);
      SlotFailsExactlyWhenRefused(profiles, s.then_);
      SlotFailsExactlyWhenRefused(profiles, s.else_);
      var matching := MatchingProfiles(ProfileRule(s).value, profiles);
      if matching.Ok? {
        PartsFailExactlyWhenRefused(profiles, out.(cond := Present(OutcomeTest(matching.value))));
      }
    } else {
      PartsFailExactlyWhenRefused(profiles, out);
    }
  }

  lemma EmptyNeverRefused(profiles: seq<Policy>)
    ensures Project(profiles, EMPTY_SCHEMA).Ok?
  {
  }

  lemma {:induction false} PartsFailExactlyWhenRefused(profiles: seq<Policy>, s: Schema)
    requires profiles != []
    ensures ProjectParts(profiles, s).Err? <==> PartsVisitRefused(profiles, s)
    decreases Weight(s), 0
  {
    ListFailsExactlyWhenRefused(profiles, s.allOf);
    ListFailsExactlyWhenRefused(profiles, s.anyOf);
    ListFailsExactlyWhenRefused(profiles, s.oneOf);
    SlotFailsExactlyWhenRefused(profiles, s.negated);
    SlotFailsExactlyWhenRefused(profiles, s.then_);
    SlotFailsExactlyWhenRefused(profiles, s.else_);
  }

  lemma {:induction false} SlotFailsExactlyWhenRefused(profiles: seq<Policy>, slot: Slot)
    requires profiles != []
    ensures ProjectSlot(profiles, slot).Err? <==> SlotVisitsRefused(profiles, slot)
    decreases SlotWeight(slot), 3
  {
    if slot.Present? {
      FailsExactlyWhenRefused(profiles, slot.schema);
    }
  }

  lemma {:induction false} ListFailsExactlyWhenRefused(profiles: seq<Policy>, list: Slots)
    requires profiles != []
    ensures ProjectList(profiles, list).Err? <==> ListVisitsRefused(profiles, list)
    decreases ListWeight(list), 3
  {
    if list.List? {
      SeqFailsExactlyWhenRefused(profiles, list.schemas);
    }
  }

  lemma {:induction false} SeqFailsExactlyWhenRefused(profiles: seq<Policy>, ss: seq<Schema>)
    requires profiles != []
    ensures ProjectSeq(profiles, ss).Err? <==> SeqVisitsRefused(profiles, ss)
    decreases SeqWeight(ss), 2
  {
    if ss != [] {
      FailsExactlyWhenRefused(profiles, ss[0]);
      SeqFailsExactlyWhenRefused(profiles, ss[1..]);
    }
  }

  // ---- The imperative form ----

  datatype Applicator = AllOf | AnyOf | OneOf | Not | Then | Else

  const APPLICATORS := [AllOf, AnyOf, OneOf, Not, Then, Else]

  datatype Part = One(slot: Slot) | Many(list: Slots)

  function GetPart(s: Schema, key: Applicator): Part {
    match key
    case AllOf => Many(s.allOf)
    case AnyOf => Many(s.anyOf)
    case OneOf => Many(s.oneOf)
    case Not => One(s.negated)
    case Then => One(s.then_)
    case Else => One(s.else_)
  }

  function PutPart(s: Schema, key: Applicator, part: Part): Schema {
    match (key, part)
    case (AllOf, Many(list)) => s.(allOf := list)
    case (AnyOf, Many(list)) => s.(anyOf := list)
    case (OneOf, Many(list)) => s.(oneOf := list)
    case (Not, One(slot)) => s.(negated := slot)
    case (Then, One(slot)) => s.(then_ := slot)
    case (Else, One(slot)) => s.(else_ := slot)
    case _ => s
  }

  function ProjectPart(profiles: seq<Policy>, part: Part): Result<Part, ProjectionError> {
    match part
    case One(slot) => var r :- ProjectSlot(profiles, slot); Ok(One(r))
    case Many(list) => var r :- ProjectList(profiles, list); Ok(Many(r))
  }

  /** The state of `out` after the loop has handled the first n keys. */
  function ProjectUpTo(profiles: seq<Policy>, s: Schema, n: nat): Result<Schema, ProjectionError>
    requires n <= 6
  {
    if n == 0 then Ok(s)
    else
      var out :- ProjectUpTo(profiles, s, n - 1);
      var part :- ProjectPart(profiles, GetPart(s, APPLICATORS[n - 1]));
      Ok(PutPart(out, APPLICATORS[n - 1], part))
  }

  lemma {:induction false} UpToKeepsLaterKeys(profiles: seq<Policy>, s: Schema, n: nat, k: nat)
    requires n <= k < 6 && ProjectUpTo(profiles, s, n).Ok?
    ensures GetPart(ProjectUpTo(profiles, s, n).value, APPLICATORS[k]) == GetPart(s, APPLICATORS[k])
  {
    if n > 0 {
      UpToKeepsLaterKeys(profiles, s, n - 1, k);
      assert APPLICATORS[n - 1] != APPLICATORS[k];
    }
  }

  lemma UpToAllIsParts(profiles: seq<Policy>, s: Schema)
    ensures ProjectUpTo(profiles, s, 6) == ProjectParts(profiles, s)
  {
    assert ProjectUpTo(profiles, s, 0) == Ok(s);
    assert APPLICATORS[0] == AllOf && GetPart(s, AllOf) == Many(s.allOf);
    var one := ProjectUpTo(profiles, s, 1);
    var two := ProjectUpTo(profiles, s, 2);
    var three := ProjectUpTo(profiles, s, 3);
    var four := ProjectUpTo(profiles, s, 4);
    var five := ProjectUpTo(profiles, s, 5);
    assert one.Ok? ==> one.value == s.(allOf := ProjectList(profiles, s.allOf).value);
    assert two.Ok? ==> two.value == one.value.(anyOf := ProjectList(profiles, s.anyOf).value);
    assert three.Ok? ==> three.value == two.value.(oneOf := ProjectList(profiles, s.oneOf).value);
    assert four.Ok? ==> four.value == three.value.(negated := ProjectSlot(profiles, s.negated).value);
    assert five.Ok? ==> five.value == four.value.(then_ := ProjectSlot(profiles, s.then_).value);
  }

  /** A later failure of the loop is a failure of the whole. */
  lemma {:induction false} UpToFails(profiles: seq<Policy>, s: Schema, n: nat, m: nat)
    requires n <= m <= 6 && ProjectUpTo(profiles, s, n).Err?
    ensures ProjectUpTo(profiles, s, m) == ProjectUpTo(profiles, s, n)
  {
    if n < m {
      UpToFails(profiles, s, n, m - 1);
    }
  }

  lemma PartWeight(s: Schema, key: Applicator)
    ensures match GetPart(s, key) case One(slot) => SlotWeight(slot) < Weight(s) case Many(list) => ListWeight(list) < Weight(s)
  {
  }

  /** `project` as the code runs it: `out` is a copy whose keywords are replaced. */
  method ProjectSchema(profiles: seq<Policy>, schema: Schema) returns (r: Result<Schema, ProjectionError>)
    ensures r == Project(profiles, schema)
    decreases Weight(schema), 1
  {
    if HasNestedConstraint(schema) {
      return Err(NestedConstraint);
    }
    var out := schema;
    out := out.(properties := StripTable(out.properties));
    out := out.(required := StripRequired(out.required));
    if ProfileRule(schema).Some? {
      ResolutionShrinks(schema);
      var matching := MatchingProfiles(ProfileRule(schema).value, profiles);
      if matching.Err? {
        return Err(matching.error);
      }
      if |matching.value| == 0 || |matching.value| == |profiles| {
        var branch := if |matching.value| == 0 then out.else_ else out.then_;
        var kept := ProjectSchema(profiles, WithoutConditional(out));
        if kept.Err? {
          return kept;
        }
        var taken := ProjectSchema(profiles, if branch.Present? then branch.schema else EMPTY_SCHEMA);
        if taken.Err? {
          return taken;
        }
        return Ok(Merge(kept.value, taken.value));
      }
      out := out.(cond := Present(OutcomeTest(matching.value)));
    }
    ghost var start := out;
    UpToAllIsParts(profiles, start);
    for n := 0 to 6
      invariant Weight(start) <= Weight(schema)
      invariant ProjectUpTo(profiles, start, n) == Ok(out)
    {
      var key := APPLICATORS[n];
      UpToKeepsLaterKeys(profiles, start, n, n);
      PartWeight(start, key);
      var part := ProjectKeyword(profiles, GetPart(out, key));
      if part.Err? {
        UpToFails(profiles, start, n + 1, 6);
        return Err(part.error);
      }
      out := PutPart(out, key, part.value);
    }
    return Ok(out);
  }

  ghost function PartSize(part: Part): nat {
    match part
    case One(slot) => SlotWeight(slot)
    case Many(list) => ListWeight(list)
  }

  method ProjectKeyword(profiles: seq<Policy>, part: Part) returns (r: Result<Part, ProjectionError>)
    ensures r == ProjectPart(profiles, part)
    decreases PartSize(part), 3
  {
    match part
    case One(slot) =>
      if slot.Absent? {
        return Ok(part);
      }
      var p := ProjectSchema(profiles, slot.schema);
      return if p.Ok? then Ok(One(Present(p.value))) else Err(p.error);
    case Many(list) =>
      if list.NoList? {
        return Ok(part);
      }
      var ps := ProjectArray(profiles, list.schemas);
      return if ps.Ok? then Ok(Many(List(ps.value))) else Err(ps.error);
  }

  lemma {:induction false} SeqWeightSplit(ss: seq<Schema>, i: nat)
    requires i < |ss|
    ensures Weight(ss[i]) <= SeqWeight(ss)
  {
    if i > 0 {
      SeqWeightSplit(ss[1..], i - 1);
    }
  }

  lemma {:induction false} ProjectSeqExtends(profiles: seq<Policy>, ss: seq<Schema>, i: nat)
    requires i < |ss|
    ensures ProjectSeq(profiles, ss[..i + 1]) ==
              (if ProjectSeq(profiles, ss[..i]).Err? then ProjectSeq(profiles, ss[..i])
               else if Project(profiles, ss[i]).Err? then Err(Project(profiles, ss[i]).error)
               else Ok(ProjectSeq(profiles, ss[..i]).value + [Project(profiles, ss[i]).value]))
  {
    if i == 0 {
      assert ss[..0] == [] && ss[..1] == [ss[0]] && ss[..1][1..] == [];
      assert ProjectSeq(profiles, ss[..1][1..]) == Ok([]);
      if Project(profiles, ss[0]).Ok? {
        var p := Project(profiles, ss[0]).value;
        var none: seq<Schema> := [];
        assert ProjectSeq(profiles, ss[..1]) == Ok([p] + none);
        assert [p] + none == none + [p];
      }
    } else {
      ProjectSeqExtends(profiles, ss[1..], i - 1);
      var a, b := ss[..i], ss[..i + 1];
      assert b[1..] == ss[1..][..i] && a[1..] == ss[1..][..i - 1] && ss[1..][i - 1] == ss[i];
      assert a[0] == ss[0] == b[0];
      if ProjectSeq(profiles, b).Ok? {
        assert ProjectSeq(profiles, b).value == ProjectSeq(profiles, a).value + [Project(profiles, ss[i]).value];
      }
    }
  }

  lemma {:induction false} ProjectSeqFails(profiles: seq<Policy>, ss: seq<Schema>, i: nat)
    requires i <= |ss| && ProjectSeq(profiles, ss[..i]).Err?
    ensures ProjectSeq(profiles, ss) == ProjectSeq(profiles, ss[..i])
    decreases |ss| - i
  {
    if i < |ss| {
      ProjectSeqExtends(profiles, ss, i);
      ProjectSeqFails(profiles, ss, i + 1);
    } else {
      assert ss[..i] == ss;
    }
  }

  /** `schema.map(project)`. */
  method ProjectArray(profiles: seq<Policy>, ss: seq<Schema>) returns (r: Result<seq<Schema>, ProjectionError>)
    ensures r == ProjectSeq(profiles, ss)
    decreases SeqWeight(ss), 2
  {
    var out := [];
    for i := 0 to |ss|
      invariant ProjectSeq(profiles, ss[..i]) == Ok(out)
    {
      SeqWeightSplit(ss, i);
      ProjectSeqExtends(profiles, ss, i);
      var p := ProjectSchema(profiles, ss[i]);
      if p.Err? {
        ProjectSeqFails(profiles, ss, i + 1);
        return Err(p.error);
      }
      out := out + [p.value];
    }
    assert ss[..|ss|] == ss;
    return Ok(out);
  }

  /** The tool parameters issued to a role; a role without profiles gets them as
      they are. */
  function ProjectForRole(role: string, parameters: Schema): Result<Schema, ProjectionError> {
    if RoleProfiles(role) == [] then Ok(parameters) else Project(RoleProfiles(role), parameters)
  }
}
