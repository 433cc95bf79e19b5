/** The handoff tool that a role is issued: a schema selected by role and options, then
    projected.  Selection trims and lower-cases the role and projection does not. */
module IssuedTools {
  import opened Basics
  import opened JsonSchema
  import opened Text
  import opened HandoffPolicy
  import opened HandoffProjection
  import opened ProjectionLaws
  import opened HandoffTools
  import opened CoverageVariants

  /** The parameters of the catalogued handoff tools. */
  datatype Tools = Tools(
    canonical: Schema, dev: Schema, artificer: Schema, assessor: Schema, assessorV3: Schema,
    researcher: Schema, researcherV3: Schema, researcherV4: Schema, planner: Schema, plannerV3: Schema,
    citation: Schema, researchChild: Schema)

  datatype Options = Options(
    compactCompletion: bool, compactV3: bool, compactV4: bool, requireCoverage: bool, researchInvestigation: bool)

  function Spelling(role: string): string {
    Lower(Trim(role))
  }

  function Select(t: Tools, role: string, o: Options): Schema {
    SelectSpelled(t, Spelling(role), o)
  }

  function SelectSpelled(t: Tools, n: string, o: Options): Schema {
    if n == "researcher" && o.researchInvestigation then t.researchChild
    else if !o.compactCompletion then t.canonical
    else if n == "dev" || n == "fix" then t.dev
    else if n == "artificer" then t.artificer
    else if n == "assessor" then (if o.compactV3 then t.assessorV3 else t.assessor)
    else if n == "researcher" then
      SelectCoverage(if o.compactV3 && o.compactV4 then t.researcherV4
                     else if o.compactV3 then t.researcherV3 else t.researcher, o.requireCoverage)
    else if n == "planner" then (if o.compactV3 then t.plannerV3 else t.planner)
    else if n == "subagent" then t.citation
    else t.canonical
  }

  /** The tool as issued. */
  function Issued(t: Tools, role: string, o: Options): Result<Schema, ProjectionError> {
    ProjectForRole(role, Select(t, role, o))
  }

  const KNOWN_ROLES: seq<string> := ["researcher", "planner", "dev", "fix", "artificer", "assessor", "subagent"]

  lemma RowOfRole(i: nat)
    requires i < |KNOWN_ROLES|
    ensures var row := [0, 2, 3, 3, 4, 5, 7][i];
            NormalizedRole(KNOWN_ROLES[i]) in PROFILE_POLICY[row].roles && PROFILE_POLICY[row].profile != RESEARCH_INVESTIGATION
  {
    var row := [0, 2, 3, 3, 4, 5, 7][i];
    assert PROFILE_POLICY[row].roles[0] == NormalizedRole(KNOWN_ROLES[i]);
    NotTheChild(row);
  }

  lemma NotTheChild(row: nat)
    requires row < |PROFILE_POLICY| && row != 6
    ensures PROFILE_POLICY[row].profile != RESEARCH_INVESTIGATION
  {
    assert RESEARCH_INVESTIGATION[8] == '_';
    assert RESEARCH_INVESTIGATION[0] == 'r';
    assert PROFILE_POLICY[row].profile[0] != 'r' || PROFILE_POLICY[row].profile[8] != '_';
  }

  /** The roles that have profiles are exactly seven strings, spelled so. */
  lemma RolesWithProfiles(role: string)
    ensures RoleProfiles(role) != [] <==> role in KNOWN_ROLES
  {
    if role in KNOWN_ROLES {
      var i :| 0 <= i < |KNOWN_ROLES| && KNOWN_ROLES[i] == role;
      RowOfRole(i);
      assert PROFILE_POLICY[[0, 2, 3, 3, 4, 5, 7][i]] in RoleProfiles(role);
    }
    if RoleProfiles(role) != [] {
      var i := RoleProfileRow(role, RoleProfiles(role)[0]);
      RolesOfRow(i, NormalizedRole(role));
      assert KNOWN_ROLES[0] == "researcher" && KNOWN_ROLES[1] == "planner" && KNOWN_ROLES[2] == "dev" && KNOWN_ROLES[3] == "fix";
      assert KNOWN_ROLES[4] == "artificer" && KNOWN_ROLES[5] == "assessor" && KNOWN_ROLES[6] == "subagent";
    }
  }

  lemma KnownSpelling(i: nat)
    requires i < |KNOWN_ROLES|
    ensures Spelling(KNOWN_ROLES[i]) == KNOWN_ROLES[i]
  {
    var role := KNOWN_ROLES[i];
    KnownLetters(i);
    TrimmedIsFixed(role);
    assert Lower(role) == role;
  }

  lemma KnownLetters(i: nat)
    requires i < |KNOWN_ROLES|
    ensures KNOWN_ROLES[i] != [] && forall k :: 0 <= k < |KNOWN_ROLES[i]| ==> IsLower(KNOWN_ROLES[i][k])
  {
  }

  lemma SpellingTwice(role: string)
    ensures Spelling(Spelling(role)) == Spelling(role)
  {
    TrimIsTrimmed(role);
    assert Trimmed(Lower(Trim(role)));
    TrimmedIsFixed(Lower(Trim(role)));
    assert Lower(Lower(Trim(role))) == Lower(Trim(role));
  }

  /** The issued schema is projected if and only if the role is one of the seven known
      roles in exactly that spelling; any other string gets the selected schema as it
      is, and selection does not see the difference. */
  lemma IssuedExactly(t: Tools, role: string, o: Options)
    ensures Select(t, role, o) == Select(t, Lower(Trim(role)), o)
    ensures Issued(t, role, o) ==
              if role in KNOWN_ROLES then Project(RoleProfiles(role), Select(t, role, o)) else Ok(Select(t, role, o))
  {
    SpellingTwice(role);
    RolesWithProfiles(role);
  }

  lemma KnownIsSpelled(role: string)
    requires role in KNOWN_ROLES
    ensures Spelling(role) == role
  {
    var i :| 0 <= i < |KNOWN_ROLES| && KNOWN_ROLES[i] == role;
    KnownSpelling(i);
  }

  /** Projection leaves exactly the settled schemas as they are. */
  lemma FixedIffSettled(profiles: seq<Policy>, s: Schema)
    ensures Project(profiles, s) == Ok(s) <==> Settled(s)
  {
    if Settled(s) {
      SettledIsFixed(profiles, s);
    }
    if Project(profiles, s) == Ok(s) {
      ProjectionSettles(profiles, s);
    }
  }

  /** Another spelling of a known role is issued the same tool exactly when it is the
      known one after all, or the selected schema has no metadata to erase. */
  lemma SpellingMatters(t: Tools, known: string, role: string, o: Options)
    requires known in KNOWN_ROLES && Spelling(role) == known
    ensures Issued(t, role, o) == Issued(t, known, o) <==> role == known || Settled(Select(t, known, o))
  {
    KnownIsSpelled(known);
    IssuedExactly(t, role, o);
    IssuedExactly(t, known, o);
    FixedIffSettled(RoleProfiles(known), Select(t, known, o));
    if role in KNOWN_ROLES {
      KnownIsSpelled(role);
    }
  }
}
