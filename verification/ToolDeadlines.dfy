/** The per-call deadline that a provider's client must allow for the tools it is
    issued, and the timeouts that have to fit below it. */
module ToolDeadlines {
  import opened Basics
  import opened Text

  datatype Class =
    | Default | ComposedCheck | LiveWait | CitationChild | AgentDispatch | ImageGeneration | FinalReview
    | EnvironmentSetup

  const REQUEST_MS := 210000
  const COMPOSED_CHECK_MS := 30 * 60 * 1000
  const TRANSPORT_MS := 2 * COMPOSED_CHECK_MS + 30000
  const MARGIN_MS := 30000
  const CAP_MS := TRANSPORT_MS - 1000
  const DATABASE_PROVISION_MS := 8 * 60000
  const SETUP_FINALIZE_MS := 6 * 60000 + DATABASE_PROVISION_MS
  const SETUP_LIVE_MAX_MS := 10 * 60000 + 5 * 60000 + 30 * 60000 + SETUP_FINALIZE_MS
  const CITATION_CHILD_MS := 60000
  const IMAGE_MS := 600000
  const FINAL_REVIEW_MS := 40 * 60 * 1000

  /** The owner's bound of a class; agent dispatch takes its gate's timeout instead. */
  function ClassMs(c: Class): int {
    match c
    case Default => REQUEST_MS
    case ComposedCheck => COMPOSED_CHECK_MS
    case LiveWait => SETUP_LIVE_MAX_MS
    case CitationChild => CITATION_CHILD_MS
    case AgentDispatch => REQUEST_MS
    case ImageGeneration => 2 * IMAGE_MS
    case FinalReview => FINAL_REVIEW_MS
    case EnvironmentSetup => SETUP_LIVE_MAX_MS
  }

  function BareName(name: string): string {
    var raw := Trim(name);
    if "tools." <= raw || "tools_" <= raw then raw[6..] else raw
  }

  function ClassOfBare(bare: string): Class {
    if bare == "run_scoped_checks" || bare == "run_unit_test" then ComposedCheck
    else if bare == "request_scope" then LiveWait
    else if bare == "sub_agent" then CitationChild
    else if bare == "dispatch_agent" then AgentDispatch
    else if bare == "generate_image" then ImageGeneration
    else if bare == "final_review" then FinalReview
    else if bare in ["request_clarification", "setup_environment", "install_dependencies", "setup_database"] then
      EnvironmentSetup
    else Default
  }

  /** The class of an issued tool. */
  function ToolClass(name: string): Class {
    ClassOfBare(BareName(name))
  }

  /** The dispatch gate's timeout, if one is configured, and the margin. */
  datatype Options = Options(dispatch: Option<real>, margin: real)

  function Fallback(o: Options): real {
    REQUEST_MS as real + o.margin
  }

  function Bound(c: Class, o: Options): real {
    if c == AgentDispatch then
      if o.dispatch.Some? && o.dispatch.value > 0.0 then o.dispatch.value else Fallback(o)
    else ClassMs(c) as real + o.margin
  }

  function Ceil(x: real): (n: int)
    ensures x <= n as real < x + 1.0
  {
    -((-x).Floor)
  }

  function Min(a: int, b: int): int {
    if a <= b then a else b
  }

  function Max(a: int, b: int): int {
    if a >= b then a else b
  }

  /** The largest bound, or zero. */
  function Longest(classes: seq<Class>, o: Options): (r: real)
    ensures r >= 0.0
    ensures forall c :: c in classes ==> Bound(c, o) <= r
    ensures r == 0.0 || exists c :: c in classes && Bound(c, o) == r
  {
    if classes == [] then 0.0
    else
      var n := |classes| - 1;
      var rest := Longest(classes[..n], o);
      assert forall c :: c in classes <==> c in classes[..n] || c == classes[n];
      if Bound(classes[n], o) > rest then Bound(classes[n], o) else rest
  }

  /** One more tool raises the maximum to its bound or leaves it. */
  lemma LongestStep(classes: seq<Class>, i: nat, o: Options)
    requires i < |classes|
    ensures Longest(classes[..i + 1], o)
         == if Bound(classes[i], o) > Longest(classes[..i], o) then Bound(classes[i], o) else Longest(classes[..i], o)
  {
    assert classes[..i + 1][..i] == classes[..i];
  }

  function Classes(names: seq<string>): (r: seq<Class>)
    ensures |r| == |names| && forall i :: 0 <= i < |names| ==> r[i] == ToolClass(names[i])
  {
    seq(|names|, i requires 0 <= i < |names| => ToolClass(names[i]))
  }

  function DeadlineOf(classes: seq<Class>, o: Options): int {
    Min(Ceil(if classes == [] then Fallback(o) else Longest(classes, o)), CAP_MS)
  }

  /** The deadline as the code computes it, raising `deadline` tool by tool. */
  method ClientDeadlineMs(names: seq<string>, o: Options) returns (ms: int)
    ensures ms == DeadlineOf(Classes(names), o)
  {
    var fallback := REQUEST_MS as real + o.margin;
    var deadline := if |names| == 0 then fallback else 0.0;
    ghost var classes := Classes(names);
    for i := 0 to |names|
      invariant deadline == if |names| == 0 then fallback else Longest(classes[..i], o)
    {
      var cls := ToolClass(names[i]);
      var bound := if cls == AgentDispatch then
                     if o.dispatch.Some? && o.dispatch.value > 0.0 then o.dispatch.value else fallback
                   else ClassMs(cls) as real + o.margin;
      if bound > deadline {
        deadline := bound;
      }
      LongestStep(classes, i, o);
    }
    assert classes[..|names|] == classes;
    return Min(Ceil(deadline), CAP_MS);
  }

  // ---- The fold is a maximum ----

  lemma BoundPositive(c: Class, o: Options)
    requires o.margin >= 0.0
    ensures Bound(c, o) > 0.0
  {
  }

  lemma CeilMonotone(x: real, y: real)
    requires x <= y
    ensures Ceil(x) <= Ceil(y)
  {
  }

  /** For a non-empty list and a margin that is not negative, the deadline is the
      rounded-up bound of one of the tools, cut at the cap, and no tool's is larger. */
  lemma DeadlineIsMaximum(classes: seq<Class>, o: Options)
    requires classes != [] && o.margin >= 0.0
    ensures DeadlineOf(classes, o) <= CAP_MS
    ensures forall c :: c in classes ==> Min(Ceil(Bound(c, o)), CAP_MS) <= DeadlineOf(classes, o)
    ensures exists c :: c in classes && DeadlineOf(classes, o) == Min(Ceil(Bound(c, o)), CAP_MS)
  {
    var longest := Longest(classes, o);
    forall c | c in classes ensures Ceil(Bound(c, o)) <= Ceil(longest) {
      CeilMonotone(Bound(c, o), longest);
    }
    assert classes[0] in classes;
    BoundPositive(classes[0], o);
  }

  /** Order and repetition do not matter: lists of the same tools have one deadline. */
  lemma DeadlineOfSet(a: seq<Class>, b: seq<Class>, o: Options)
    requires forall c :: c in a <==> c in b
    ensures DeadlineOf(a, o) == DeadlineOf(b, o)
  {
    NonEmptyWithin(a, b);
    NonEmptyWithin(b, a);
  }

  /** A server that exposes two lists needs the larger of their deadlines. */
  lemma DeadlineOfConcat(a: seq<Class>, b: seq<Class>, o: Options)
    requires a != [] && b != []
    ensures DeadlineOf(a + b, o) == Max(DeadlineOf(a, o), DeadlineOf(b, o))
  {
    var x, y, z := Longest(a, o), Longest(b, o), Longest(a + b, o);
    assert z == if x >= y then x else y by {
      forall c | c in a || c in b ensures c in a + b {
      }
    }
    if x >= y {
      CeilMonotone(y, x);
    } else {
      CeilMonotone(x, y);
    }
  }

  /** A server that exposes only agent dispatch takes the gate's timeout exactly. */
  lemma DispatchOnlyIsExact(classes: seq<Class>, o: Options, ms: int)
    requires classes != [] && forall c :: c in classes ==> c == AgentDispatch
    requires o.dispatch == Some(ms as real) && 0 < ms <= CAP_MS
    ensures DeadlineOf(classes, o) == ms
  {
    assert classes[0] in classes;
    assert Longest(classes, o) == ms as real;
  }

  // ---- Between the tools and the transport ----

  function DeadlineSec(classes: seq<Class>, o: Options): int {
    Ceil(DeadlineOf(classes, o) as real / 1000.0)
  }

  /** Rounding up to seconds loses no time, adds less than a second, and stays below
      the transport's timeout. */
  lemma SecondsKeepDeadline(classes: seq<Class>, o: Options)
    ensures DeadlineOf(classes, o) <= DeadlineSec(classes, o) * 1000 < DeadlineOf(classes, o) + 1000
    ensures DeadlineSec(classes, o) * 1000 < TRANSPORT_MS
  {
    var ms := DeadlineOf(classes, o);
    var sec := DeadlineSec(classes, o);
    assert ms as real / 1000.0 * 1000.0 == ms as real;
    assert ms as real <= (sec * 1000) as real;
    assert (sec * 1000) as real < ms as real + 1000.0;
  }

  /** The shipped numbers: with the standard margin every fixed bound fits the cap. */
  lemma ClassesFitCap(c: Class)
    ensures 0 < ClassMs(c) + MARGIN_MS <= CAP_MS < TRANSPORT_MS
  {
  }

  /** With the standard margin and a dispatch timeout within the cap, the deadline
      covers every issued tool's own bound: no client gives up before its owner. */
  lemma DeadlineCoversTools(classes: seq<Class>, dispatch: Option<int>, c: Class)
    requires c in classes && (dispatch.Some? ==> 0 < dispatch.value <= CAP_MS)
    ensures var o := Options(if dispatch.Some? then Some(dispatch.value as real) else None, MARGIN_MS as real);
            Bound(c, o) <= DeadlineOf(classes, o) as real < TRANSPORT_MS as real
  {
    var o := Options(if dispatch.Some? then Some(dispatch.value as real) else None, MARGIN_MS as real);
    ClassesFitCap(c);
    DeadlineIsMaximum(classes, o);
    assert Min(Ceil(Bound(c, o)), CAP_MS) <= DeadlineOf(classes, o);
    assert Bound(c, o) <= CAP_MS as real;
    assert Ceil(Bound(c, o)) <= CAP_MS;
  }

  /** The bound of each shipped tool in milliseconds, the margin apart. */
  lemma BoundsInFigures(name: string, o: Options)
    ensures var bare := BareName(name);
            Bound(ToolClass(name), o) ==
              if bare in ["run_scoped_checks", "run_unit_test"] then 1800000.0 + o.margin
              else if bare == "sub_agent" then 60000.0 + o.margin
              else if bare == "generate_image" then 1200000.0 + o.margin
              else if bare == "final_review" then 2400000.0 + o.margin
              else if bare == "request_scope" || bare == "request_clarification" then 3540000.0 + o.margin
              else if bare in ["setup_environment", "install_dependencies", "setup_database"] then 3540000.0 + o.margin
              else if bare == "dispatch_agent" && o.dispatch.Some? && o.dispatch.value > 0.0 then o.dispatch.value
              else 210000.0 + o.margin
  {
  }

  /** A server without tools takes the default bound, cut at the cap. */
  lemma NoToolsDeadline(o: Options)
    ensures DeadlineOf([], o) == Min(Ceil(210000.0 + o.margin), 3629000)
  {
  }

  // ---- Planner dispatch ----

  datatype Range = Range(min: int, max: int, default: int)

  const RETURN_MARGIN_MS := 10000
  const CHILD_TIMEOUT := Range(5000, TRANSPORT_MS - RETURN_MARGIN_MS - 1000, 1200000)
  const TOOL_TIMEOUT_SEC := Range(60, (TRANSPORT_MS - 1) / 1000, 1500)

  /** A saved value is clamped to its range; one that is no integer is the default. */
  function Clamp(r: Range, saved: Option<int>): int {
    if saved.None? then r.default else Max(r.min, Min(r.max, saved.value))
  }

  function ChildTimeoutMs(child: Option<int>, toolSec: Option<int>): int {
    Min(Clamp(CHILD_TIMEOUT, child), Clamp(TOOL_TIMEOUT_SEC, toolSec) * 1000 - RETURN_MARGIN_MS)
  }

  /** Whatever the settings hold, a research child that uses its whole timeout and the
      margin for returning its result ends by the dispatch deadline, which itself ends
      before the transport gives up. */
  lemma ChildFitsDispatch(classes: seq<Class>, child: Option<int>, toolSec: Option<int>)
    requires AgentDispatch in classes
    ensures var dispatch := Clamp(TOOL_TIMEOUT_SEC, toolSec) * 1000;
            var o := Options(Some(dispatch as real), MARGIN_MS as real);
            && CHILD_TIMEOUT.min <= ChildTimeoutMs(child, toolSec)
            && ChildTimeoutMs(child, toolSec) + RETURN_MARGIN_MS <= dispatch <= DeadlineOf(classes, o)
            && DeadlineOf(classes, o) <= CAP_MS < TRANSPORT_MS
  {
    var dispatch := Clamp(TOOL_TIMEOUT_SEC, toolSec) * 1000;
    assert TOOL_TIMEOUT_SEC.max == 3629;
    DeadlineCoversTools(classes, Some(dispatch), AgentDispatch);
  }

  /** A child gets the longest timeout that is no longer than its setting, clamped, and
      leaves the return margin of the dispatch timeout; settings in range count as they
      are, and settings out of range as the nearer end. */
  lemma ChildTimeoutIsLongest(child: Option<int>, toolSec: Option<int>, ms: int)
    ensures ms <= ChildTimeoutMs(child, toolSec) <==>
              && ms <= (if child.None? then 1200000 else Max(5000, Min(3619000, child.value)))
              && ms + 10000 <= 1000 * (if toolSec.None? then 1500 else Max(60, Min(3629, toolSec.value)))
  {
  }

  /** The largest child timeout leaves exactly its return margin below the cap, and the
      largest dispatch timeout is the cap. */
  lemma LargestTimeoutsMeetCap()
    ensures CHILD_TIMEOUT.max + RETURN_MARGIN_MS == CAP_MS
    ensures TOOL_TIMEOUT_SEC.max * 1000 == CAP_MS
    ensures ChildTimeoutMs(Some(CHILD_TIMEOUT.max), Some(TOOL_TIMEOUT_SEC.max)) == CHILD_TIMEOUT.max
  {
  }

  // ---- Tool names ----

  /** A tool has one class whether or not it is named with the `tools` prefix. */
  lemma PrefixDoesNotMatter(name: string)
    requires Trimmed(name) && name != "" && BareName(name) == name
    ensures ToolClass("tools." + name) == ToolClass(name) == ToolClass("tools_" + name)
  {
    TrimmedIsFixed(name);
    PrefixDrops("tools.", name);
    PrefixDrops("tools_", name);
  }

  lemma PrefixDrops(prefix: string, name: string)
    requires prefix in ["tools.", "tools_"] && Trimmed(name) && name != ""
    ensures BareName(prefix + name) == name
  {
    var text := prefix + name;
    assert text[|text| - 1] == name[|name| - 1] && text[0] == 't';
    TrimmedIsFixed(text);
    assert text[6..] == name;
  }
}
