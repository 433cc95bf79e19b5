/** The shipped handoff schemas, the metadata the runtime binds, and the theorem
    that ties them: what a role's issued schema accepts is exactly what the
    canonical schema accepts once the runtime has bound the metadata.

    Nested report content is a parameter, so the theorem holds for any content
    that has no conditional on the profile inside. */
module HandoffTools {
  import opened Basics
  import opened JsonSchema
  import opened HandoffPolicy
  import opened HandoffProjection
  import opened ProjectionExactness
  import opened ProjectionLaws

  // ---- What the runtime binds ----

  predicate Missing(e: Document, key: string) {
    key !in e || e[key].Null?
  }

  predicate HasHandoffs(e: Document) {
    "handoffs" in e && e["handoffs"].Arr?
  }

  predicate ResearcherProfile(profile: string) {
    exists p :: p in PROFILE_POLICY && p.profile == profile && "researcher" in p.roles
  }

  /** Semantic envelopes and flat researcher reports get the metadata they lack, when a
      profile is known. */
  function BindMetadata(e: Document, profile: string): Document {
    if profile == "" || (!HasHandoffs(e) && !("summary" in e && ResearcherProfile(profile))) then e
    else
      var d := if Missing(e, "profile") then e["profile" := Str(profile)] else e;
      if HasHandoffs(e) && Missing(e, "protocol") then d["protocol" := Str(PROTOCOL)] else d
  }

  /** The researcher profiles are exactly three names. */
  lemma ResearcherProfileNames(profile: string)
    ensures ResearcherProfile(profile) <==> profile in [RESEARCHER_PIPELINE, RESEARCHER_REPORT, RESEARCH_INVESTIGATION]
  {
    var names := [RESEARCHER_PIPELINE, RESEARCHER_REPORT, RESEARCH_INVESTIGATION];
    if p :| p in PROFILE_POLICY && p.profile == profile && "researcher" in p.roles {
      var i :| 0 <= i < |PROFILE_POLICY| && PROFILE_POLICY[i] == p;
      ResearcherRow(i);
      assert names[if i == 6 then 2 else i] == profile;
    }
    if profile in names {
      var i :| 0 <= i < |names| && names[i] == profile;
      var row := PROFILE_POLICY[[0, 1, 6][i]];
      assert row.roles[0] == "researcher" && row in PROFILE_POLICY && row.profile == profile;
    }
  }

  lemma ResearcherRow(i: nat)
    requires i < |PROFILE_POLICY| && "researcher" in PROFILE_POLICY[i].roles
    ensures i == 0 || i == 1 || i == 6
  {
    assert "researcher"[0] == 'r' && "planner"[0] == 'p' && "dev"[0] == 'd' && "fix"[0] == 'f';
    assert "artificer"[0] == 'a' && "assessor"[0] == 'a' && "subagent"[0] == 's';
  }

  /** What a key holds after binding: its own value, or the default when it was absent
      or null. */
  function OwnOr(e: Document, key: string, text: string): Json {
    if key in e && e[key] != Null then e[key] else Str(text)
  }

  /** Binding, key by key, on every document: a report with handoffs ends with a protocol
      and a profile, a flat researcher report with a profile, each its own if it had one;
      every other key and every other document is left alone. */
  lemma BindsByKey(e: Document, profile: string, key: string)
    ensures var d := BindMetadata(e, profile);
            var nested := profile != "" && "handoffs" in e && e["handoffs"].Arr?;
            var flat := "summary" in e && profile in [RESEARCHER_PIPELINE, RESEARCHER_REPORT, RESEARCH_INVESTIGATION];
            if key == "profile" && (nested || flat) then key in d && d[key] == OwnOr(e, key, profile)
            else if key == "protocol" && nested then key in d && d[key] == OwnOr(e, key, "posse.agent_handoff.v1")
            else (key in d <==> key in e) && (key in e ==> d[key] == e[key])
  {
    ResearcherProfileNames(profile);
    NamesNotEmpty();
  }

  lemma NamesNotEmpty()
    ensures "" !in [RESEARCHER_PIPELINE, RESEARCHER_REPORT, RESEARCH_INVESTIGATION]
  {
    assert RESEARCHER_PIPELINE[0] == 'r' && RESEARCHER_REPORT[0] == 'r' && RESEARCH_INVESTIGATION[0] == 'r';
  }

  /** Bound documents are bound once: binding again changes nothing. */
  lemma BindTwice(e: Document, profile: string, other: string)
    requires ResearcherProfile(profile) <==> ResearcherProfile(other)
    ensures profile != "" || other == "" ==>
              BindMetadata(BindMetadata(e, profile), other) == BindMetadata(e, profile)
  {
  }

  // ---- Building blocks ----

  function OneOfTexts(values: seq<string>): Schema {
    EMPTY_SCHEMA.(facets := NO_FACETS.(types := Some({TString}), enumeration := Some(values)))
  }

  function Is(profile: string): Schema {
    EMPTY_SCHEMA.(facets := NO_FACETS.(constant := Some(profile)))
  }

  function Negation(rule: Schema): Schema {
    EMPTY_SCHEMA.(negated := Present(rule))
  }

  function Among(profiles: seq<string>): Schema {
    EMPTY_SCHEMA.(facets := NO_FACETS.(enumeration := Some(profiles)))
  }

  /** `{if: {properties: {profile: rule}, required: ["profile"]}, then, else}`. */
  function When(rule: Schema, then_: Slot, else_: Slot): Schema {
    EMPTY_SCHEMA.(
      cond := Present(EMPTY_SCHEMA.(properties := Table(map["profile" := rule]), required := Some(["profile"]))),
      then_ := then_,
      else_ := else_)
  }

  function OnlyProperty(key: string, content: Schema): Schema {
    EMPTY_SCHEMA.(properties := Table(map[key := content]))
  }

  function Requiring(keys: seq<string>): Schema {
    EMPTY_SCHEMA.(required := Some(keys))
  }

  /** A closed handoff object: some content fields, the metadata, the outcome and
      rules on the profile. */
  function HandoffObject(
    fields: map<string, Schema>, withProtocol: bool, profiles: seq<string>, outcomes: seq<string>,
    required: seq<string>, rules: Slots): Schema
  {
    var listed := fields["profile" := OneOfTexts(profiles)]["outcome" := OneOfTexts(outcomes)];
    EMPTY_SCHEMA.(
      facets := NO_FACETS.(types := Some({TObject})),
      properties := Table(if withProtocol then listed["protocol" := OneOfTexts([PROTOCOL])] else listed),
      required := Some(required),
      additional := Allowed(false),
      allOf := rules)
  }

  predicate PlainFields(fields: map<string, Schema>) {
    && "profile" !in fields && "outcome" !in fields && "protocol" !in fields
    && forall k :: k in fields ==> !HasProfileConstraint(fields[k])
  }

  // ---- Side conditions of the building blocks ----

  /** The roles of each row of the policy table. */
  lemma RolesOfRow(i: nat, role: string)
    requires i < |PROFILE_POLICY| && role in PROFILE_POLICY[i].roles
    ensures i == 0 || i == 1 || i == 6 ==> role == "researcher"
    ensures i == 2 ==> role == "planner"
    ensures i == 3 ==> role == "dev" || role == "fix"
    ensures i == 4 ==> role == "artificer"
    ensures i == 5 ==> role == "assessor"
    ensures i == 7 ==> role == "subagent"
  {
  }

  /** Only the two ordinary researcher profiles share a role. */
  lemma SharedRole(i: nat, j: nat, role: string)
    requires i < j < |PROFILE_POLICY| && i != 6 && j != 6
    requires role in PROFILE_POLICY[i].roles && role in PROFILE_POLICY[j].roles
    ensures i == 0 && j == 1
  {
    RolesOfRow(i, role);
    RolesOfRow(j, role);
    assert "assessor"[0] != "subagent"[0];
  }

  /** A profile of a role, by its row in the table. */
  lemma RoleProfileRow(role: string, p: Policy) returns (i: nat)
    requires p in RoleProfiles(role)
    ensures i < |PROFILE_POLICY| && PROFILE_POLICY[i] == p && i != 6 && NormalizedRole(role) in p.roles
  {
    assert p in PROFILE_POLICY;
    i :| 0 <= i < |PROFILE_POLICY| && PROFILE_POLICY[i] == p;
    assert PROFILE_POLICY[6].profile == RESEARCH_INVESTIGATION;
  }

  lemma RowNamed(i: nat)
    requires i < |PROFILE_POLICY|
    ensures PROFILE_POLICY[i].profile != ""
  {
  }

  /** Every profile of a role has a name. */
  lemma ProfileNamed(role: string, p: Policy)
    requires p in RoleProfiles(role)
    ensures p.profile != ""
  {
    var i := RoleProfileRow(role, p);
    RowNamed(i);
  }

  lemma ResearcherOutcomesDisjoint(o: string)
    requires o in PROFILE_POLICY[0].outcomes
    ensures o !in PROFILE_POLICY[1].outcomes
  {
  }

  /** Two profiles of one role never share an outcome. */
  lemma RoleOutcomesDisjoint(role: string, p: Policy, q: Policy, o: string)
    requires p in RoleProfiles(role) && q in RoleProfiles(role)
    requires o in p.outcomes && o in q.outcomes
    ensures p == q
  {
    var i := RoleProfileRow(role, p);
    var j := RoleProfileRow(role, q);
    if i < j {
      SharedRole(i, j, NormalizedRole(role));
      ResearcherOutcomesDisjoint(o);
    } else if j < i {
      SharedRole(j, i, NormalizedRole(role));
      ResearcherOutcomesDisjoint(o);
    }
  }

  /** For every role, any rule separates the profiles by their outcomes. */
  lemma RoleSeparates(role: string, rule: Schema)
    ensures SeparatesOutcomes(rule, RoleProfiles(role))
  {
    forall p, q, o |
      && p in RoleProfiles(role) && q in RoleProfiles(role)
      && Matches(rule, p) && !Matches(rule, q) && o in p.outcomes
      ensures o !in q.outcomes
    {
      if o in q.outcomes {
        RoleOutcomesDisjoint(role, p, q, o);
      }
    }
  }

  /** A branch that only constrains one content property. */
  lemma OnlyPropertyErasable(rx: Regex, profiles: seq<Policy>, policy: Policy, withProtocol: bool, key: string, content: Schema)
    requires key !in {"profile", "protocol", "outcome"} && !HasProfileConstraint(content)
    ensures Erasable(rx, profiles, policy, withProtocol, OnlyProperty(key, content))
  {
  }

  lemma RequiringErasable(rx: Regex, profiles: seq<Policy>, policy: Policy, withProtocol: bool, keys: seq<string>)
    requires "protocol" !in keys
    ensures Erasable(rx, profiles, policy, withProtocol, Requiring(keys))
    ensures Erasable(rx, profiles, policy, withProtocol, Negation(Requiring(keys)))
  {
  }

  lemma WhenErasable(rx: Regex, role: string, policy: Policy, withProtocol: bool, rule: Schema, then_: Slot, else_: Slot)
    requires PureRule(rule)
    requires SlotErasable(rx, RoleProfiles(role), policy, withProtocol, then_)
    requires SlotErasable(rx, RoleProfiles(role), policy, withProtocol, else_)
    requires then_.Present? ==> ProfileRule(then_.schema).None?
    requires else_.Present? ==> ProfileRule(else_.schema).None?
    ensures Erasable(rx, RoleProfiles(role), policy, withProtocol, When(rule, then_, else_))
  {
    RoleSeparates(role, rule);
    var s := When(rule, then_, else_);
    assert WithoutConditional(s) == EMPTY_SCHEMA;
    assert BranchSafe(s, then_) && BranchSafe(s, else_);
    assert ProfileRule(s) == Some(rule);
  }

  lemma TextAccepted(rx: Regex, values: seq<string>, text: string)
    ensures Accepts(rx, OneOfTexts(values), Str(text)) <==> text in values
  {
    assert HasType(TString, Str(text));
  }

  /** Every schema of a sequence meets the side conditions for the role. */
  ghost predicate AllErasable(rx: Regex, role: string, policy: Policy, withProtocol: bool, ss: seq<Schema>) {
    forall s :: s in ss ==> Erasable(rx, RoleProfiles(role), policy, withProtocol, s)
  }

  /** A closed handoff object is erasable when its profile list has the profile, or
      its outcome list has none of the profile's outcomes. */
  lemma HandoffObjectErasable(
    rx: Regex, role: string, policy: Policy, fields: map<string, Schema>, withProtocol: bool,
    profiles: seq<string>, outcomes: seq<string>, required: seq<string>, rules: Slots)
    requires PlainFields(fields)
    requires policy.profile in profiles || forall o :: o in policy.outcomes ==> o !in outcomes
    requires "protocol" in required ==> withProtocol
    requires rules.List? ==> AllErasable(rx, role, policy, withProtocol, rules.schemas)
    ensures Erasable(rx, RoleProfiles(role), policy, withProtocol,
                     HandoffObject(fields, withProtocol, profiles, outcomes, required, rules))
  {
    var s := HandoffObject(fields, withProtocol, profiles, outcomes, required, rules);
    var t := s.properties.entries;
    forall k | k in t
      ensures !HasProfileConstraint(t[k])
    {
      if k !in fields {
        assert t[k] == OneOfTexts([PROTOCOL]) || t[k] == OneOfTexts(profiles) || t[k] == OneOfTexts(outcomes);
      }
    }
    TextAccepted(rx, [PROTOCOL], PROTOCOL);
    TextAccepted(rx, profiles, policy.profile);
    forall o | o in policy.outcomes && o !in outcomes
      ensures !Accepts(rx, t["outcome"], Str(o))
    {
      TextAccepted(rx, outcomes, o);
    }
    assert NodeErasable(rx, policy, withProtocol, s);
  }

  // ---- From erasable schemas to bound documents ----

  /** Every accepted document with an outcome is an envelope with handoffs. */
  ghost predicate EnvelopeForm(rx: Regex, s: Schema) {
    forall d: Document :: Accepts(rx, s, Obj(d)) && "outcome" in d ==> HasHandoffs(d)
  }

  /** Every accepted document is a flat report with a summary and no handoffs. */
  ghost predicate FlatForm(rx: Regex, s: Schema) {
    forall d: Document :: Accepts(rx, s, Obj(d)) ==> "summary" in d && "handoffs" !in d && "profile" in d
  }

  /** The issued form of an envelope schema accepts a document exactly when the
      canonical schema accepts it after the runtime has bound the metadata. */
  lemma EnvelopeBindingExact(rx: Regex, role: string, policy: Policy, s: Schema, e: Document)
    requires policy in RoleProfiles(role) && Bare(e) && Reports(e, policy)
    requires Erasable(rx, RoleProfiles(role), policy, true, s) && EnvelopeForm(rx, s)
    requires forall d: Document :: Accepts(rx, s, Obj(d)) && "outcome" in d ==> "profile" in d
    ensures ProjectForRole(role, s).Ok?
    ensures Accepts(rx, s, Obj(BindMetadata(e, policy.profile))) <==> Accepts(rx, ProjectForRole(role, s).value, Obj(e))
  {
    ProjectionExact(rx, RoleProfiles(role), policy, true, s, e);
    ProfileNamed(role, policy);
    var full := Bound(e, policy.profile, true);
    assert HasHandoffs(full) <==> HasHandoffs(e);
    if HasHandoffs(e) {
      assert BindMetadata(e, policy.profile) == full;
    } else {
      var d := BindMetadata(e, policy.profile);
      assert "outcome" in d && !HasHandoffs(d);
      assert "outcome" in full;
    }
  }

  /** The same for flat researcher reports, which carry no protocol. */
  lemma FlatBindingExact(rx: Regex, role: string, policy: Policy, s: Schema, e: Document)
    requires policy in RoleProfiles(role) && Bare(e) && Reports(e, policy) && ResearcherProfile(policy.profile)
    requires Erasable(rx, RoleProfiles(role), policy, false, s) && FlatForm(rx, s)
    ensures ProjectForRole(role, s).Ok?
    ensures Accepts(rx, s, Obj(BindMetadata(e, policy.profile))) <==> Accepts(rx, ProjectForRole(role, s).value, Obj(e))
  {
    ProjectionExact(rx, RoleProfiles(role), policy, false, s, e);
    ProfileNamed(role, policy);
    var full := Bound(e, policy.profile, false);
    var d := BindMetadata(e, policy.profile);
    if "handoffs" !in e && "summary" in e {
      assert d == full;
    } else if "handoffs" in e {
      assert "handoffs" in d && "handoffs" in full;
    } else {
      assert "summary" !in d && "summary" !in full;
    }
  }
}
