/** Which handoff profiles a role uses and which outcomes each profile allows. */
module HandoffPolicy {
  import opened Basics

  const PROTOCOL := "posse.agent_handoff.v1"
  const RESEARCHER_PIPELINE := "researcher.pipeline.v1"
  const RESEARCHER_REPORT := "researcher.report.v1"
  const PLANNER_PLAN := "planner.plan.v1"
  const DEV_RESULT := "dev.result.v1"
  const ARTIFICER_RESULT := "artificer.result.v1"
  const ASSESSOR_VERDICT := "assessor.verdict.v1"
  const RESEARCH_INVESTIGATION := "research_investigation.v1"
  const CITATION_SYNTHESIS := "citation_synthesis.v1"

  datatype Policy = Policy(profile: string, roles: seq<string>, outcomes: seq<string>)

  const PROFILE_POLICY: seq<Policy> := [
    Policy(RESEARCHER_PIPELINE, ["researcher"], ["success", "gap", "input_required"]),
    Policy(RESEARCHER_REPORT, ["researcher"], ["complete"]),
    Policy(PLANNER_PLAN, ["planner"], ["success"]),
    Policy(DEV_RESULT, ["dev", "fix"], ["complete", "failed", "blocked"]),
    Policy(ARTIFICER_RESULT, ["artificer"], ["complete", "failed", "blocked"]),
    Policy(ASSESSOR_VERDICT, ["assessor"], ["pass", "fail", "needs_replan", "needs_review", "blocked"]),
    Policy(RESEARCH_INVESTIGATION, ["researcher"], ["complete", "partial", "failed"]),
    Policy(CITATION_SYNTHESIS, ["subagent"], ["complete", "partial", "failed"])
  ]

  function NormalizedRole(role: string): string {
    if role == "fix" then "dev" else role
  }

  /** The profiles the projection considers for a role: the research child's
      profile is never one of them. */
  function RoleProfiles(role: string): seq<Policy> {
    Filter((p: Policy) => NormalizedRole(role) in p.roles && p.profile != RESEARCH_INVESTIGATION, PROFILE_POLICY)
  }
}
