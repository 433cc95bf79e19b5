/** The read definitions that Bossy publishes: the parameters of the twelve Atlas read
    actions, which meet the side conditions of the narrowing. */
module ReadDefinitions {
  import opened Basics
  import opened JsonSchema
  import opened PublicSchema

  // ---- Parameters of a read action ----

  function Alternatives(keys: seq<seq<string>>): (r: seq<Schema>)
    ensures |r| == |keys|
    ensures forall i :: 0 <= i < |keys| ==> r[i] == EMPTY_SCHEMA.(required := Some(keys[i]))
  {
    if keys == [] then [] else [EMPTY_SCHEMA.(required := Some(keys[0]))] + Alternatives(keys[1..])
  }

  /** The parameters of a read action: a closed object, some required keys, and
      alternatives that only require keys. */
  function ReadParameters(fields: map<string, Schema>, required: seq<string>, alternatives: seq<seq<string>>): Schema {
    EMPTY_SCHEMA.(
      facets := NO_FACETS.(types := Some({TObject})),
      properties := Table(fields),
      required := Some(required),
      additional := Allowed(false),
      anyOf := if alternatives == [] then NoList else List(Alternatives(alternatives)))
  }

  /** What a read action publishes never admits an internal-only property, accepts
      nothing the internal schema refuses, and bounds the size of every argument
      object. */
  lemma ReadParametersPublished(
    rx: Regex, fields: map<string, Schema>, required: seq<string>, alternatives: seq<seq<string>>, v: Json)
    requires forall k :: k in fields ==> Narrowable(fields[k])
    requires forall k :: k in fields && !fields[k].internalOnly ==> FullyTyped(fields[k])
    requires Accepts(rx, Public(ReadParameters(fields, required, alternatives), ""), v)
    ensures Accepts(rx, ReadParameters(fields, required, alternatives), v)
    ensures v.Obj? && forall k :: k in v.fields ==>
              k in fields && !fields[k].internalOnly && WithinLimits(rx, fields[k], k, v.fields[k])
    ensures FullyTyped(ReadParameters(fields, required, alternatives))
    ensures Size(v) <= SizeBound(ReadParameters(fields, required, alternatives))
  {
    var s := ReadParameters(fields, required, alternatives);
    ReadParametersNarrowable(fields, required, alternatives);
    PublicExact(rx, s, "", v);
    assert s.properties.entries == fields;
    assert v.Obj? by {
      assert FacetsHold(rx, s.facets, v);
    }
    forall k | k in v.fields
      ensures k in fields && !fields[k].internalOnly && WithinLimits(rx, fields[k], k, v.fields[k])
    {
      assert AcceptsFields(rx, s, v.fields) && FieldsWithin(rx, s, v.fields);
      assert Listed(s.properties, k);
    }
    PublicSizeBounded(rx, s, "", v);
  }

  lemma ReadParametersNarrowable(fields: map<string, Schema>, required: seq<string>, alternatives: seq<seq<string>>)
    requires forall k :: k in fields ==> Narrowable(fields[k])
    ensures Narrowable(ReadParameters(fields, required, alternatives))
  {
  }

  // ---- Kinds of parameters ----

  /** What narrowing needs of a parameter: no reversing operator, closed where it hides
      something, and fully typed when it is published. */
  predicate Publishable(s: Schema) {
    Narrowable(s) && FullyTyped(s)
  }

  datatype Entry = Entry(name: string, schema: Schema)

  /** A parameter: publishable, or hidden and at least narrowable. */
  predicate GoodEntry(e: Entry) {
    Narrowable(e.schema) && (e.schema.internalOnly || FullyTyped(e.schema))
  }

  type Parameter = e: Entry | GoodEntry(e) witness Entry("", Flag())

  function Typed(t: JsonType): Facets {
    NO_FACETS.(types := Some({t}))
  }

  function Flag(): (s: Schema)
    ensures Publishable(s) && !s.internalOnly
  {
    EMPTY_SCHEMA.(facets := Typed(TBoolean))
  }

  function Text(): (s: Schema)
    ensures Publishable(s) && !s.internalOnly
  {
    EMPTY_SCHEMA.(facets := Typed(TString))
  }

  function NonEmptyText(): (s: Schema)
    ensures Publishable(s) && !s.internalOnly
  {
    EMPTY_SCHEMA.(facets := Typed(TString).(minLength := Some(1)))
  }

  function Matched(pattern: string): (s: Schema)
    ensures Publishable(s) && !s.internalOnly
  {
    EMPTY_SCHEMA.(facets := Typed(TString).(pattern := Some(pattern)))
  }

  function Choice(values: seq<string>): (s: Schema)
    ensures Publishable(s) && !s.internalOnly
  {
    EMPTY_SCHEMA.(facets := Typed(TString).(enumeration := Some(values)))
  }

  function Numeric(t: JsonType, least: Option<real>, most: Option<real>): (s: Schema)
    requires t == TInteger || t == TNumber
    ensures Publishable(s) && !s.internalOnly
  {
    EMPTY_SCHEMA.(facets := Typed(t).(minimum := least, maximum := most))
  }

  function Whole(): (s: Schema)
    ensures Publishable(s) && !s.internalOnly
  {
    Numeric(TInteger, None, None)
  }

  function WholeWithin(least: real, most: real): (s: Schema)
    ensures Publishable(s) && !s.internalOnly
  {
    Numeric(TInteger, Some(least), Some(most))
  }

  function ListOf(item: Schema, least: Option<nat>, most: Option<nat>): (s: Schema)
    requires Publishable(item)
    ensures Publishable(s) && !s.internalOnly
  {
    EMPTY_SCHEMA.(facets := Typed(TArray).(minItems := least, maxItems := most), items := Present(item))
  }

  /** A text or a list of such texts. */
  function TextOrList(pattern: Option<string>, item: Schema): (s: Schema)
    requires Publishable(item)
    ensures Publishable(s) && !s.internalOnly
  {
    EMPTY_SCHEMA.(
      facets := NO_FACETS.(types := Some({TString, TArray}), pattern := pattern),
      items := Present(item))
  }

  function FieldsOf(entries: seq<Parameter>): (fields: map<string, Schema>)
    ensures forall k :: k in fields ==> Narrowable(fields[k]) && (fields[k].internalOnly || FullyTyped(fields[k]))
  {
    if entries == [] then map[]
    else
      var last := entries[|entries| - 1];
      FieldsOf(entries[..|entries| - 1])[last.name := last.schema]
  }

  /** A closed object. */
  function Record(entries: seq<Parameter>, required: seq<string>, alternatives: seq<seq<string>>): (s: Schema)
    ensures Publishable(s) && !s.internalOnly
  {
    ReadParametersNarrowable(FieldsOf(entries), required, alternatives);
    ReadParameters(FieldsOf(entries), required, alternatives)
  }

  /** A closed object or a list of such objects. */
  function RecordOrList(entries: seq<Parameter>, required: seq<string>): (s: Schema)
    ensures Publishable(s) && !s.internalOnly
  {
    var one := Record(entries, required, []);
    one.(facets := NO_FACETS.(types := Some({TObject, TArray})), items := Present(one))
  }

  /** A list of open objects, as a compatibility alias has it. */
  function ListOfOpen(entries: seq<Parameter>, required: seq<string>): (s: Schema)
    requires forall e :: e in entries ==> !e.schema.internalOnly
    ensures Narrowable(s)
  {
    OpenNarrowable(entries, required);
    EMPTY_SCHEMA.(
      facets := Typed(TArray),
      items := Present(Record(entries, required, []).(additional := Allowed(true))))
  }

  lemma {:induction false} NoneHidden(entries: seq<Parameter>)
    requires forall e :: e in entries ==> !e.schema.internalOnly
    ensures forall k :: k in FieldsOf(entries) ==> !FieldsOf(entries)[k].internalOnly
  {
    if entries != [] {
      var n := |entries| - 1;
      forall e | e in entries[..n] ensures !e.schema.internalOnly {
        assert e in entries;
      }
      NoneHidden(entries[..n]);
      assert entries[n] in entries;
    }
  }

  lemma OpenNarrowable(entries: seq<Parameter>, required: seq<string>)
    requires forall e :: e in entries ==> !e.schema.internalOnly
    ensures Narrowable(Record(entries, required, []).(additional := Allowed(true)))
  {
    NoneHidden(entries);
    var s := Record(entries, required, []);
    assert s.properties.entries == FieldsOf(entries);
  }

  function Shown(name: string, s: Schema): (p: Parameter)
    requires Publishable(s)
    ensures p.name == name && p.schema == s
  {
    Entry(name, s)
  }

  lemma HiddenNarrowable(s: Schema)
    requires Narrowable(s)
    ensures Narrowable(s.(internalOnly := true))
  {
  }

  function Hidden(name: string, s: Schema): (p: Parameter)
    requires Narrowable(s)
    ensures p.name == name && p.schema == s.(internalOnly := true)
  {
    HiddenNarrowable(s);
    Entry(name, s.(internalOnly := true))
  }

  // ---- The twelve actions ----

  datatype ReadAction =
    | SymbolSearch | SymbolGet | SymbolCard | SymbolCallers | SymbolOverview
    | TreeBranch | TreeExpand
    | CodeSkeleton | CodeLens | CodeWindow | CodeStructure | CodeSurvey

  const SYMBOL_ID := "^[0-9a-f]{64}:[0-9]+$"
  const SAFE_WINDOW_TOKENS := 200000.0
  const BATCH_ITEMS: nat := 10
  const BATCH_TOKENS := 8000.0

  function Id(): (s: Schema)
    ensures Publishable(s)
  {
    Matched(SYMBOL_ID)
  }

  function Texts(): (s: Schema)
    ensures Publishable(s)
  {
    ListOf(Text(), None, None)
  }

  /** The fields of a symbol looked up by name. */
  function SymbolRef(): seq<Parameter> {
    [Shown("name", Text()), Shown("file", Text()), Shown("kind", Text()), Shown("exportedOnly", Flag())]
  }

  function SearchParameters(): seq<Parameter> {
    [ Shown("query", Text()), Shown("limit", Whole()), Shown("semantic", Flag()),
      Hidden("vectorCandidateLimit", WholeWithin(1.0, 1000.0)),
      Hidden("filterDeclarationFiles", Flag()), Hidden("filterToolingPaths", Flag()),
      Hidden("genericSymbolFrequencyThreshold", WholeWithin(2.0, 100.0)),
      Hidden("hierarchicalFileLimit", WholeWithin(1.0, 40.0)),
      Hidden("withinFileSymbolRerank", Flag()),
      Hidden("fileLexicalOverlapWeight", Numeric(TNumber, Some(0.0), Some(1.0))),
      Hidden("monorepoPackagePriors", Flag()), Hidden("semanticQueryNormalization", Flag()),
      Shown("scope", Choice(["name", "body", "either"])),
      Hidden("entities", ListOf(Choice(["symbols", "feedback"]), None, None)),
      Hidden("sessionId", Text()), Hidden("taskText", Text()),
      Hidden("taskType", Choice(["debug", "review", "implement", "explain"])) ]
  }

  function CardParameters(): seq<Parameter> {
    [ Shown("symbolId", TextOrList(Some(SYMBOL_ID), Id())),
      Shown("symbolRef", RecordOrList(SymbolRef(), ["name"])),
      Hidden("symbolIds", ListOf(Id(), None, None)),
      Hidden("symbolRefs", ListOfOpen(SymbolRef(), ["name"])),
      Hidden("ifNoneMatch", Text()), Hidden("minCallConfidence", Numeric(TNumber, None, None)),
      Hidden("includeResolutionMetadata", Flag()), Hidden("sessionId", Text()) ]
  }

  function CallersParameters(): seq<Parameter> {
    [ Shown("symbolId", Id()), Shown("mode", Choice(["caller", "reference", "all"])),
      Shown("limit", WholeWithin(1.0, 100.0)), Shown("offset", WholeWithin(0.0, 100000.0)),
      Hidden("minConfidence", Numeric(TNumber, Some(0.0), Some(100.0))),
      Hidden("projection", Choice(["compact-v1"])), Hidden("indexVersion", Text()) ]
  }

  /** One independent selector of a batch. */
  function BatchItem(): (s: Schema)
    ensures Publishable(s)
  {
    Record(
      [ Shown("symbolId", Id()), Shown("symbolRef", Record(SymbolRef(), ["name"], [])), Shown("file", Text()),
        Shown("identifiersToFind", ListOf(Text(), None, Some(50))), Shown("maxTokens", WholeWithin(1.0, BATCH_TOKENS)) ],
      [], [["symbolId"], ["symbolRef"]])
  }

  function GetParameters(): seq<Parameter> {
    [ Shown("symbols", ListOf(NonEmptyText(), Some(1), Some(BATCH_ITEMS))),
      Shown("items", ListOf(BatchItem(), Some(1), Some(BATCH_ITEMS))),
      Shown("symbolId", Id()),
      Shown("symbolRef", Record(
        [ Shown("name", NonEmptyText()), Shown("file", NonEmptyText()), Shown("kind", NonEmptyText()),
          Shown("exportedOnly", Flag()) ], ["name"], [])),
      Shown("file", NonEmptyText()),
      Shown("identifiersToFind", ListOf(NonEmptyText(), Some(1), Some(50))),
      Shown("maxTokens", WholeWithin(1.0, BATCH_TOKENS)) ]
  }

  function OverviewParameters(): seq<Parameter> {
    [ Shown("symbolId", Id()),
      Shown("kind", ListOf(
        Choice(["calls", "references", "reads", "writes", "uses_type", "imports", "extends", "implements"]), None, None)),
      Shown("limit", Whole()), Shown("minConfidence", Numeric(TNumber, None, None)), Shown("includeUnresolved", Flag()) ]
  }

  function BranchParameters(): seq<Parameter> {
    [ Shown("nodeId", Text()), Shown("path", Text()), Shown("symbolId", Id()),
      Shown("refType", Choice(["cluster", "process"])), Shown("refId", Text()),
      Shown("maxDepth", Whole()), Shown("limit", Whole()), Shown("offset", Whole()), Shown("includeAggregates", Flag()),
      Hidden("includeTerms", Flag()), Hidden("includeRefs", Flag()), Hidden("includeLatestRun", Flag()) ]
  }

  function ExpandParameters(): seq<Parameter> {
    [ Shown("paths", TextOrList(None, Text())), Hidden("editedFiles", Texts()), Hidden("path", Text()),
      Shown("symbolIds", TextOrList(Some(SYMBOL_ID), Id())), Hidden("symbolId", Id()),
      Shown("nodeIds", TextOrList(None, Text())),
      Shown("refs", RecordOrList(
        [Shown("refType", Choice(["cluster", "process"])), Shown("refId", Text())], ["refType", "refId"])),
      Hidden("refType", Choice(["cluster", "process"])), Hidden("refId", Text()), Shown("maxFiles", Whole()),
      Hidden("maxBranches", Whole()), Hidden("branchFileCap", Whole()), Hidden("refMatchLimit", Whole()) ]
  }

  function SkeletonParameters(): seq<Parameter> {
    [ Shown("symbolId", Id()), Shown("file", Text()), Shown("exportedOnly", Flag()),
      Hidden("maxLines", Whole()), Hidden("maxTokens", Whole()), Shown("identifiersToFind", Texts()),
      Hidden("ifNoneMatch", Text()), Hidden("sessionId", Text()),
      Hidden("surveyGap", EMPTY_SCHEMA.(facets := Typed(TString).(minLength := Some(3)))) ]
  }

  function LensParameters(): seq<Parameter> {
    [ Shown("symbolId", Id()), Shown("file", Text()),
      Shown("identifiersToFind", ListOf(NonEmptyText(), Some(1), None)), Shown("contextLines", WholeWithin(0.0, 8.0)),
      Hidden("ifNoneMatch", Text()), Hidden("sessionId", Text()) ]
  }

  function WindowParameters(): seq<Parameter> {
    [ Shown("symbolId", Id()), Shown("file", Text()), Shown("reason", Text()),
      Shown("identifiersToFind", ListOf(NonEmptyText(), Some(1), None)), Shown("expectedLines", Whole()),
      Shown("autoFill", Flag()), Shown("granularity", Choice(["symbol", "block", "fileWindow"])),
      Shown("maxTokens", WholeWithin(1.0, SAFE_WINDOW_TOKENS)),
      Hidden("sliceContext", EMPTY_SCHEMA.(facets := Typed(TObject))), Hidden("sessionId", Text()) ]
  }

  function StructureParameters(): seq<Parameter> {
    [ Shown("paths", TextOrList(None, Text())),
      Shown("edgeKinds", ListOf(Choice(["imports", "calls", "references", "extends", "implements", "uses_type"]), None, None)),
      Shown("maxFiles", Whole()), Shown("includeSymbols", Flag()), Shown("includeEdges", Flag()) ]
  }

  function SurveyParameters(): seq<Parameter> {
    [ Shown("paths", TextOrList(None, Text())), Shown("symbols", Texts()), Shown("maxFiles", WholeWithin(1.0, 64.0)),
      Hidden("sessionId", Text()) ]
  }

  /** Parameters, required keys and alternatives of an action. */
  datatype Definition = Definition(parameters: seq<Parameter>, required: seq<string>, alternatives: seq<seq<string>>)

  function DefinitionOf(a: ReadAction): Definition {
    match a
    case SymbolSearch => Definition(SearchParameters(), ["query"], [])
    case SymbolGet => Definition(GetParameters(), [], [["file", "symbols"], ["items"], ["symbolId"], ["symbolRef"]])
    case SymbolCard => Definition(CardParameters(), [], [])
    case SymbolCallers => Definition(CallersParameters(), ["symbolId"], [])
    case SymbolOverview => Definition(OverviewParameters(), ["symbolId"], [])
    case TreeBranch => Definition(BranchParameters(), [], [])
    case TreeExpand => Definition(ExpandParameters(), [], [])
    case CodeSkeleton => Definition(SkeletonParameters(), [], [])
    case CodeLens => Definition(LensParameters(), ["identifiersToFind"], [["symbolId"], ["file"]])
    case CodeWindow =>
      Definition(WindowParameters(), [], [["reason", "symbolId"], ["reason", "file", "identifiersToFind"]])
    case CodeStructure => Definition(StructureParameters(), ["paths"], [])
    case CodeSurvey => Definition(SurveyParameters(), ["paths"], [])
  }

  function Internal(d: Definition): Schema {
    ReadParameters(FieldsOf(d.parameters), d.required, d.alternatives)
  }

  /** The published parameters accept an argument object if and only if the internal
      ones do and it is within the public limits; it then carries no internal-only
      argument, and its size is bounded by a number computed from the parameters. */
  ghost predicate PublishedExactly(rx: Regex, s: Schema, v: Json) {
    && FullyTyped(s)
    && (Accepts(rx, Public(s, ""), v) <==> Accepts(rx, s, v) && WithinLimits(rx, s, "", v))
    && (Accepts(rx, Public(s, ""), v) ==>
          && v.Obj?
          && (forall k :: k in v.fields ==> Listed(s.properties, k) && !s.properties.entries[k].internalOnly)
          && Size(v) <= SizeBound(s))
  }

  lemma DefinitionPublished(rx: Regex, d: Definition, v: Json)
    ensures PublishedExactly(rx, Internal(d), v)
  {
    var fields := FieldsOf(d.parameters);
    var s := Internal(d);
    ReadParametersNarrowable(fields, d.required, d.alternatives);
    PublicExact(rx, s, "", v);
    if Accepts(rx, Public(s, ""), v) {
      ReadParametersPublished(rx, fields, d.required, d.alternatives, v);
    }
  }

  /** Each of the twelve shipped read actions is published exactly. */
  lemma ReadActionPublished(rx: Regex, a: ReadAction, v: Json)
    ensures PublishedExactly(rx, Internal(DefinitionOf(a)), v)
  {
    DefinitionPublished(rx, DefinitionOf(a), v);
  }
}
