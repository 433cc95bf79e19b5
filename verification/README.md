# Posse catalog: verified models

Posse coordinates agents through a catalog of schemas, tables and small algorithms
under `posse/lib/catalog`. This project models the parts of that catalog that compute
something and proves what the rest of the system relies on. `dafny verify dfyconfig.toml`
checks all of it.

**Schemas.** `JsonSchema` gives JSON schemas and values a meaning, `Accepts`, after JSON
Schema 2020-12 Core (sections 10.2.1, 10.2.2, 10.3.1.2, 10.3.2) and Validation (sections
6.1 to 6.5). Regular expressions are an oracle, so every theorem holds for every engine.

- `HandoffProjection` is the partial evaluator that erases `protocol` and `profile` from a
  handoff tool once the role is known, resolving `if profile` conditionals or rewriting
  them into tests on `outcome`. `ProjectionExactness` states its side conditions and proves
  that under them it is exact, at every polarity. `ProjectionLaws` has the loop the code
  runs, idempotence and the exact error condition. `HandoffTools` and `ShippedHandoffs`
  show that the shipped tools meet the side conditions, with the runtime's own injection
  (`bindHandoffMetadata`) as the inverse. `ForeignOutcomes` and `ShippedOutcomes` say
  exactly when the two forms agree on any document, whatever outcome it reports and
  whether or not it brings metadata of its own, and `ProjectionLimits` shows that two of
  the conditions cannot be dropped.
  `NestedConditionals` says what the search for nested conditionals finds.
- `IssuedTools` composes the selection of a tool by role with its projection, and
  `ShippedTools` applies that to the twelve shipped tools. `IssuedMeanings` says what each
  role's issued tool accepts, by the role's name, the options, the outcomes and the nested
  content alone.
- `CoverageVariants` treats the researcher schema without and with mandatory `coverage`.
- `PublicSchema` is the recursive narrowing of Atlas tool parameters, and `ReadDefinitions`
  the twelve read actions it is applied to.
- `EditModes` is the `oneOf` of `edit_file`.

**Human gates.** `GateTable` is the closed table of gates and actions; the theorems are
about any sound catalog and `GateTable.ShippedIsSound` says the shipped one is. `HumanGates`
resolves a gate's identity and narrows its actions, `QuestionChoices` is the validator
written apart from it, and `ChoiceAgreement` proves what the two agree on;
`MergeQuestions` compares the merge gate's structured question with its offer.
`GateContracts` builds and validates the durable contract, `AnswerParsing` reads answers,
`ApprovalPolicies` decides unattended ones, `GateOrder` is the canonical order of recovery
actions.

**Text, time and words.** `FieldCase` converts field names, `HashSelectors` reads and writes
hash references, `ToolDeadlines` computes client deadlines, `PairingCommand` scans a
pairing command.

Loops and reassigned variables of the code are methods, each proved equal to a function
that the lemmas are about.

## What the proofs found

- The issued researcher schema agrees with the canonical one on every document without
  metadata of its own that reports an outcome of the bound profile. On the others without
  metadata it agrees exactly when the content is refused anyway or the rules picked by the
  outcome and by the profile give one verdict (`ShippedOutcomes.CompactExactly`,
  `EnvelopeExactly`, `ResearcherHandoffExactly`); a report without claims sent under a
  pipeline outcome is a document on which they part
  (`ProjectionLimits.ClaimlessReportPasses`). The issued form refuses every document that
  brings metadata, so there the two agree exactly when the canonical form refuses what the
  runtime makes of the document (`ForeignOutcomes.OwnMetadataExactly`).
- For the roles planner, dev, fix, artificer, assessor and subagent, which are exactly
  those with one profile, `agent_handoff` agrees on every document without metadata of its
  own (`ShippedOutcomes.SoleProfileAgrees`, `ShippedTools.SingleProfileExactly`).
- The role is trimmed and lower-cased to select a tool but not to project it, so a role in
  any other spelling gets the tool with its metadata. Of the shipped tools only the research
  child, the completions, the plans and the compact verdict are the same in every spelling
  (`ShippedTools.SpellingExactly`); "Researcher" is never issued what "researcher" is, the
  research child apart, and with compact completions no document passes both
  (`ShippedTools.CapitalMatters`, `MisspelledShareNothing`).
- A one-shot scope gate without a well-formed selector offers `plan` and `cancel`, which
  its own validator refuses (`ChoiceAgreement.OneShotValidatesIffSelector`).
- The gate accepts at most twelve selector options and the validator 32, so a longer
  well-formed selector is a valid question while the gate offers `plan` and `cancel`
  (`ChoiceAgreement.SelectorIsShortQuestion`).
- The merge gate's question and its offer part in three ways
  (`MergeQuestions.QuestionAgreesExactly`): a malformed saved list is shown as saved while
  the gate offers something else; a saved waiver in a labelled record is shown while the
  gate, which reads bare text only, drops it (`MergeQuestions.LabelledWaiverParts`); and
  without a review type the gate narrows nothing.
- So a merge gate named only by its kind, subtype or question kind offers the test waiver
  without evidence, and offers it again after any run that had left it out
  (`ChoiceAgreement.WaiverOfferedExactly`, `WaiverReturnsExactly`).
- The scope mode's own resolver looks at the payload and not at its gate. It approves file
  requests without a review type or subtype of any gate, a plan approval included, and it
  passes over a scope gate with a subtype, or with neither a review type nor file requests.
  The policy resolver approves exactly the scope gates in that mode
  (`ApprovalPolicies.ScopeModeAgreesExactly`). The comment above the first resolver says
  only known file-scope gates qualify.
- The prompt's unattended answer takes a choice that a clarification offers, although the
  contract of the gate allows only `respond`
  (`ApprovalPolicies.PromptAnswersAClarification`).
- Some conventional snake names, `a_b_c` among them, do not survive the conversion to
  camelCase and back (`FieldCase.SnakeRoundTrip` says exactly which strings do).
- The search for nested profile conditionals takes a property that is itself called `if`
  for a conditional when it lists `profile`, so projection fails on a schema without any
  (`NestedConditionals.SearchFindsExactly`, `FormWithIfFails`).

## Model

| member | source | states |
|---|---|---|
| ProjectionExactness.PureRuleAgrees | posse/lib/catalog/handoff-schema.js:4-9 | a rule of const, enum and not is decided by the static evaluator as the schema semantics decides it on the profile's name |
| ProjectionExactness.MergeIsConjunction | posse/lib/catalog/handoff-schema.js:39-41 | spreading a branch over its node means requiring both, when they share no keyword and do not split properties from additionalProperties |
| ProjectionExactness.MetadataFreeExact | posse/lib/catalog/handoff-schema.js:44-46 | a subschema that never looks at the metadata gives one verdict with and without it |
| ProjectionExactness.ProfileTestDecides | posse/lib/catalog/handoff-schema.js:37-38 | a profile test accepts the bound document exactly when the rule matches its profile |
| ProjectionExactness.OutcomeTestDecides | posse/lib/catalog/handoff-schema.js:42 | the rewritten test on outcome selects the same branch as the test on profile, when the rule separates the profiles by outcomes |
| ProjectionExactness.ResolvedExact | posse/lib/catalog/handoff-schema.js:39-41 | a conditional settled for the whole role equals its rest together with the selected branch |
| ProjectionExactness.ProjectionExact | posse/lib/catalog/handoff-schema.js:17-49 | projection is exact: under the side conditions, the original accepts the document with its metadata if and only if the projected schema accepts it without, and projection raises no error |
| ProjectionLaws.ProjectionSettles | posse/lib/catalog/handoff-schema.js:32-46 | no visited node of a projected schema mentions protocol or profile in properties, required or a conditional |
| ProjectionLaws.SettledIsFixed | posse/lib/catalog/handoff-schema.js:25-48 | a schema without visible metadata is left unchanged for every role |
| ProjectionLaws.ProjectionIsIdempotent | posse/lib/catalog/handoff-schema.js:25-48 | projecting a projected schema again changes nothing, even for another role |
| ProjectionLaws.RuleFailsUnlessSupported | posse/lib/catalog/handoff-schema.js:4-9 | a profile rule raises an error exactly when it is not built from const and enum under nots |
| ProjectionLaws.FailsExactlyWhenRefused | posse/lib/catalog/handoff-schema.js:25-49 | projection raises an error if and only if it visits a refused node: one whose properties or items the search for profile conditionals finds, or whose own profile rule is unsupported |
| NestedConditionals.SearchFindsExactly | posse/lib/catalog/handoff-schema.js:11-15 | the search finds a schema if and only if it has a profile conditional at some depth, or a property table at some depth with an entry called if that lists profile |
| NestedConditionals.RefusedExactly | posse/lib/catalog/handoff-schema.js:29-31 | a node is refused if and only if its properties or items have such a conditional or such a table, or its own rule is unsupported |
| NestedConditionals.FormWithIfFails | posse/lib/catalog/handoff-schema.js:13 | a schema without any conditional on which projection raises the nested-constraint error |
| ProjectionLaws.ProjectSchema | posse/lib/catalog/handoff-schema.js:25-48 | the copy whose keywords are reassigned one after another ends as the projected schema, errors included |
| ProjectionLaws.ProjectKeyword | posse/lib/catalog/handoff-schema.js:44-46 | one keyword of the loop is replaced by its projection |
| ProjectionLaws.ProjectArray | posse/lib/catalog/handoff-schema.js:27 | a list of schemas is projected element by element, failing at the first error |
| HandoffTools.BindTwice | posse/lib/domains/handoff/functions/helpers/runtime-handoff-input.js:62-72 | binding the metadata is stable: a document bound to a profile is not bound again |
| HandoffTools.BindsByKey | posse/lib/domains/handoff/functions/helpers/runtime-handoff-input.js:62-73 | binding key by key on every document: with a handoffs array the protocol and the profile, in a flat researcher report the profile, each its own value unless absent or null; every other key and document, and every document without a known profile, unchanged |
| HandoffTools.ResearcherProfileNames | posse/lib/catalog/handoff.js:189-238 | the profiles that make a report with a summary a researcher report are exactly three |
| HandoffTools.RoleOutcomesDisjoint | posse/lib/catalog/handoff.js:189-238 | two profiles of one role never share an outcome |
| HandoffTools.RoleSeparates | posse/lib/catalog/handoff-schema.js:17-24 | for every role, every rule separates the role's profiles by their outcomes, as the comment on the projection promises |
| HandoffTools.WhenErasable | posse/lib/catalog/native-tools.js:816-892 | a rule of the form if profile then meets the side conditions for every role |
| HandoffTools.HandoffObjectErasable | posse/lib/catalog/native-tools.js:1144-1183 | a closed handoff object meets the side conditions when its lists fit the profile |
| HandoffTools.EnvelopeBindingExact | posse/lib/catalog/native-tools.js:1861-1863 | the issued form of an envelope accepts a document exactly when the canonical form accepts it after the runtime has bound the metadata |
| HandoffTools.FlatBindingExact | posse/lib/catalog/native-tools.js:1861-1863 | the same for flat researcher reports, which carry no protocol |
| ShippedHandoffs.AgentHandoffBindingExact | posse/lib/catalog/native-tools.js:671-892 | the shipped agent_handoff, with its six rules, is exact for every role and every outcome of its profiles |
| ShippedHandoffs.ResearcherEnvelopeBindingExact | posse/lib/catalog/native-tools.js:1360-1413 | the researcher envelope is exact for both researcher profiles |
| ShippedHandoffs.ResearcherCompactBindingExact | posse/lib/catalog/native-tools.js:1479-1613 | the compact researcher form is exact for both researcher profiles |
| ShippedHandoffs.ReportCompactBindingExact | posse/lib/catalog/native-tools.js:1620-1662 | the report-only form is exact for both researcher profiles, though it names only one |
| ShippedHandoffs.RoleEnvelopeBindingExact | posse/lib/catalog/native-tools.js:1144-1183 | a tool built as a role envelope is exact for the roles that have its profile, provided its rules meet the side conditions |
| ShippedHandoffs.SingleProfileBindingExact | posse/lib/catalog/native-tools.js:1450-1474 | the assessor envelope, and likewise the citation envelope, is exact |
| ShippedHandoffs.OutcomeDeterminesBinding | posse/lib/catalog/handoff-schema.js:17-19 | the outcome of a document without metadata determines the one profile that can have been erased |
| ForeignOutcomes.RuleProjects | posse/lib/catalog/handoff-schema.js:37-43 | a rule is projected to one branch when the profiles of the role agree on its test, and to a test on the outcome when they do not |
| ForeignOutcomes.CanonicalVerdict | posse/lib/catalog/native-tools.js:1144-1183 | on a bound document a handoff object means its content and the branches its rules pick for the profile |
| ForeignOutcomes.IssuedVerdict | posse/lib/catalog/handoff-schema.js:25-48 | on any document the issued form means the same content and the branches its rules pick for the reported outcome |
| ForeignOutcomes.FormExactly | posse/lib/catalog/handoff-schema.js:17-49 | whatever outcome a document without metadata reports, issued and canonical form agree on it if and only if its content is refused or both pick branches of one verdict |
| ForeignOutcomes.UnlistedOutcomeRefused | posse/lib/catalog/native-tools.js:1144-1183 | a document without metadata that reports no listed outcome is refused by both |
| ForeignOutcomes.MetadataRefused | posse/lib/catalog/handoff-schema.js:32-36 | the issued form refuses every document that brings its own protocol or profile |
| ForeignOutcomes.CanonicalMeans | posse/lib/catalog/native-tools.js:1144-1183 | on any document at all the canonical form means that its metadata is listed, its content accepted and the branches of the profile it names accept it |
| ForeignOutcomes.OwnMetadataExactly | posse/lib/catalog/native-tools.js:1861-1863 | on a document that brings metadata of its own the two forms agree if and only if the canonical form refuses what the runtime makes of it |
| ForeignOutcomes.SoleProfileBranches | posse/lib/catalog/handoff-schema.js:40-41 | for a role with one profile the branches never differ |
| ShippedOutcomes.CompactExactly | posse/lib/catalog/native-tools.js:1479-1613 | the compact researcher form is exact on a document without metadata of its own if and only if it reports an outcome of the bound profile, or its content is refused, or the two rules give one verdict; on one with metadata, if and only if the canonical form refuses it bound |
| ShippedOutcomes.EnvelopeExactly | posse/lib/catalog/native-tools.js:1360-1413 | the same for every document and the researcher envelope with its two rules on the handoffs |
| ShippedOutcomes.ReportExactly | posse/lib/catalog/native-tools.js:1620-1662 | the report-only form is exact on every document without metadata bound as a report, and bound for the pipeline only on refused content; on one with metadata, if and only if the canonical form refuses it bound |
| ShippedOutcomes.RoleEnvelopeExactly | posse/lib/catalog/native-tools.js:1144-1183 | the condition for any role envelope with any plain rules, on every document |
| ShippedOutcomes.AssessorAgrees | posse/lib/catalog/native-tools.js:1450-1474 | the assessor envelope is exact on a document if and only if the document has no metadata of its own, whatever it reports, or the canonical form refuses it bound |
| ShippedOutcomes.CitationAgrees | posse/lib/catalog/native-tools.js:1699-1711 | the same for the citation envelope |
| ShippedOutcomes.AgentHandoffExactly | posse/lib/catalog/native-tools.js:671-892 | the condition for agent_handoff, every role and every document, completions and documents with metadata of their own included |
| ShippedOutcomes.SoleProfileAgrees | posse/lib/catalog/native-tools.js:671-892 | for planner, dev, fix, artificer, assessor and subagent agent_handoff is exact on a document if and only if the document has no metadata of its own, whatever it reports, or the canonical form refuses it bound |
| ShippedOutcomes.ResearcherHandoffExactly | posse/lib/catalog/native-tools.js:816-892 | for researchers the condition, on every document, in terms of the two limits on the handoffs and the rules both profiles share |
| ProjectionLimits.ClaimlessReportPasses | posse/lib/catalog/native-tools.js:1579-1611 | a report without claims, sent under a pipeline outcome within the pipeline limits, passes the issued schema while the canonical schema refuses it bound |
| ProjectionLimits.ForeignOutcomeIsNotExact | posse/lib/catalog/native-tools.js:1579-1611 | there is such a document under the shipped summary and claim limits, whatever one claim looks like |
| ProjectionLimits.OverwritingMergeLosesConstraint | posse/lib/catalog/handoff-schema.js:39-41 | a branch that repeats a keyword of its node loses the node's constraint, so exactness fails without that side condition |
| CoverageVariants.WithoutCoverageAccepts | posse/lib/catalog/native-tools.js:1826-1837 | the stripped schema accepts precisely the documents the base schema accepts that have no coverage |
| CoverageVariants.MandatoryCoverageAccepts | posse/lib/catalog/native-tools.js:1838-1853 | the mandatory schema accepts precisely the accepted documents with a non-empty coverage ledger |
| CoverageVariants.CoverageCommutesWithProjection | posse/lib/catalog/native-tools.js:1804-1863 | deriving a coverage variant and projecting it gives the same schema as projecting first |
| CoverageVariants.VariantIssued | posse/lib/catalog/native-tools.js:1821-1863 | the issued variant of any researcher form accepts what the issued form accepts with the ledger the variant wants, none or a non-empty one |
| CoverageVariants.IssuedCoverageExact | posse/lib/catalog/native-tools.js:1821-1863 | the issued compact form, in either variant, accepts exactly what the canonical form accepts bound with that ledger |
| CoverageVariants.IssuedReportCoverageExact | posse/lib/catalog/native-tools.js:1821-1863 | the same for the report-only form |
| CoverageVariants.IssuedEnvelopeCoverageExact | posse/lib/catalog/native-tools.js:1821-1863 | the same for the envelope |
| IssuedTools.RolesWithProfiles | posse/lib/catalog/handoff-schema.js:21-24 | the roles with profiles are exactly seven strings |
| IssuedTools.IssuedExactly | posse/lib/catalog/native-tools.js:1804-1863 | the issued schema is projected if and only if the role is one of those strings in exactly that spelling, while selection goes by the trimmed and lower-cased role |
| IssuedTools.FixedIffSettled | posse/lib/catalog/handoff-schema.js:25-48 | projection leaves a schema as it is if and only if no visited node mentions the metadata |
| IssuedTools.SpellingMatters | posse/lib/catalog/native-tools.js:1861-1863 | another spelling of a known role is issued the same tool exactly when it is the known spelling or the selected schema has nothing to erase |
| ShippedTools.SettledExactly | posse/lib/catalog/native-tools.js:1804-1858 | of the shipped tools, exactly the research child, the compact completions and plans and the compact verdict have no metadata to erase, by role and options |
| ShippedTools.SpellingExactly | posse/lib/catalog/native-tools.js:1804-1863 | another spelling of a known role is issued the shipped tool of that role if and only if it is the known spelling or the role and options select one of those tools |
| ShippedTools.CapitalMatters | posse/lib/catalog/native-tools.js:1811-1824 | a capital letter changes the tool of a researcher unless the research child is selected |
| ShippedTools.MisspelledShareNothing | posse/lib/catalog/native-tools.js:1804-1863 | where the spelling matters under compact completions, the two tools accept no document in common |
| ShippedTools.SingleProfileExactly | posse/lib/catalog/handoff.js:189-238 | the roles with one profile are exactly planner, dev, fix, artificer, assessor and subagent |
| IssuedMeanings.IssuedHandoffMeans | posse/lib/catalog/native-tools.js:671-892 | the agent_handoff issued to each of the seven roles accepts exactly the completions and the reports whose handoffs and confidence meet the conditions of that role, for researchers by the reported outcome |
| IssuedMeanings.EnvelopeMeans | posse/lib/catalog/native-tools.js:1360-1413 | the issued researcher envelope accepts exactly the reports within the limits of a pipeline outcome, or with the claims that complete asks for |
| IssuedMeanings.CompactMeans | posse/lib/catalog/native-tools.js:1479-1613 | the same for the compact researcher form, with at least one claim in a claims list under complete |
| IssuedMeanings.VerdictFormMeans | posse/lib/catalog/native-tools.js:1748-1802 | the compact verdict asks a failed verdict for repair and evidence and refuses both of any other |
| IssuedMeanings.IssuedToolMeans | posse/lib/catalog/native-tools.js:1804-1863 | for every known role, all options and every document, the issued tool accepts exactly the documents that role and those options are meant for |
| PublicSchema.PublicExact | posse/lib/catalog/bossy-atlas.js:15-36 | on negation-free schemas whose objects with internal fields are closed, the public schema accepts a value if and only if the original does and the value has no internal property and keeps every cap at every depth |
| PublicSchema.CapsInFigures | posse/lib/catalog/bossy-atlas.js:26-35 | the caps that PublicExact speaks of, in figures: 4096 characters, 64 elements, and 1 to 6000, 100, 64 and 4 for the five budget fields |
| PublicSchema.PublicIsIdempotent | posse/lib/catalog/bossy-atlas.js:15-36 | publishing a published schema changes nothing |
| PublicSchema.PublicSizeBounded | posse/lib/catalog/bossy-atlas.js:27-35 | every value accepted by the public form of a fully typed schema is no larger than a bound computed from the schema |
| ReadDefinitions.ReadParametersPublished | posse/lib/catalog/bossy-atlas.js:38-48 | given narrowable and fully typed fields, published parameters admit no internal property, accept nothing the internal ones refuse and bound every argument |
| ReadDefinitions.Record | posse/lib/catalog/atlas-tools.js:671-724 | a closed record of good parameters is itself publishable |
| ReadDefinitions.FieldsOf | posse/lib/catalog/atlas-tools.js:498-1034 | every parameter of a definition meets the side conditions of the narrowing |
| ReadDefinitions.ReadActionPublished | posse/lib/catalog/bossy-atlas.js:38-48 | for each of the twelve shipped read actions, the published parameters accept exactly the internally accepted arguments within the limits, with no internal argument and a bounded size |
| PublicSchema.OpenObjectWidens | posse/lib/catalog/bossy-atlas.js:20-24 | on an open object, dropping an internal property makes the public schema accept more |
| PublicSchema.PublicSchemaOf | posse/lib/catalog/bossy-atlas.js:15-36 | the loop that fills the result and then caps it computes the public schema |
| PublicSchema.PublicSlotOf | posse/lib/catalog/bossy-atlas.js:17-25 | a child schema, when there is one, is replaced by its public schema |
| PublicSchema.PublicListOf | posse/lib/catalog/bossy-atlas.js:16 | a list of schemas is published element by element |
| PublicSchema.PublicProperties | posse/lib/catalog/bossy-atlas.js:20-24 | filtering and publishing the properties in any order gives the public table |
| EditModes.ModeAccepts | posse/lib/catalog/native-tools.js:96-104 | one mode accepts exactly the objects whose keys are path and its fields |
| EditModes.OneOfIsExactlyOneMode | posse/lib/catalog/native-tools.js:187 | the oneOf accepts exactly the objects that use one mode; none uses two, so oneOf and anyOf coincide |
| EditModes.ShippedModesDiffer | posse/lib/catalog/native-tools.js:85-94 | the eight shipped modes take different fields |
| EditModes.EditFileAccepts | posse/lib/catalog/native-tools.js:106-190 | edit_file accepts exactly path and one mode's fields, each of its type |
| GateTable.NamesDiffer | posse/lib/catalog/tools/interaction.js:5-42 | distinct gates have distinct names |
| GateTable.ShippedIsSound | posse/lib/catalog/tools/interaction.js:5-42 | the shipped table has trimmed distinct names and, per gate, one to nine trimmed distinct actions of the form the narrowing relies on |
| HumanGates.GateForExactly | posse/lib/catalog/human-input.js:506-514 | a payload names a gate exactly when each of its four aliases that is not blank is that gate's name and, if all are blank, the gate is file scope approval or clarification by its file requests |
| HumanGates.RefusedFor | posse/lib/catalog/human-input.js:506-514 | any other payload is refused for an unknown name if and only if its first alias is one, and otherwise for a mismatch |
| HumanGates.CanonicalIsStable | posse/lib/catalog/human-input.js:521-524 | canonicalization keeps the gate, is idempotent, gives the payload the review type that the narrowing goes by and changes nothing but aliases |
| HumanGates.NormalizeChoices | posse/lib/catalog/human-input.js:578-587 | normalized choices are distinct, trimmed, non-empty and at most the limit |
| HumanGates.NormalizeExactly | posse/lib/catalog/human-input.js:578-587 | the normalized choices are the trimmed texts that are not empty, each once, in the order of their first occurrences, and a limit keeps the first ones |
| HumanGates.NormalRoundTrip | posse/lib/catalog/human-input.js:578-587 | a list of distinct trimmed choices within the limit is read back as written |
| HumanGates.InOrderIffSubsequence | posse/lib/catalog/human-input.js:613-618 | the order test of the review gates accepts exactly the subsequences of the table |
| QuestionChoices.CheckOrder | posse/lib/catalog/question-choices.js:42-48 | the scan with previous decides that every id stands after the one before it |
| QuestionChoices.OrderedIffSubsequence | posse/lib/catalog/question-choices.js:42-48 | that scan accepts exactly the subsequences of the vocabulary |
| QuestionChoices.NarrowableQuestion | posse/lib/catalog/question-choices.js:9-23 | a question of the thirteen narrowable kinds is valid if and only if its ids are a non-empty subsequence of the gate's table |
| QuestionChoices.MergeQuestion | posse/lib/catalog/question-choices.js:40-51 | the merge question is valid if and only if its ids are a subsequence of the table that misses at most the waiver |
| QuestionChoices.FixedQuestion | posse/lib/catalog/question-choices.js:52 | a question of the other closed kinds is valid if and only if its ids are the whole table |
| QuestionChoices.SelectorQuestion | posse/lib/catalog/question-choices.js:31-38 | the one-shot question is valid if and only if its distinct ids are candidates by digest, then plan, then cancel, 32 at most |
| QuestionChoices.FreeTextQuestion | posse/lib/catalog/question-choices.js:31-52 | free text has no valid question |
| ChoiceAgreement.NarrowedIsSubsequence | posse/lib/catalog/human-input.js:610-634 | the narrowed list is a non-empty subsequence of the gate's table, and the whole table unless the gate narrows |
| ChoiceAgreement.OfferValidates | posse/lib/catalog/question-choices.js:31-53 | what an accepted payload of a closed gate offers is a non-empty subsequence of the table and passes the validator |
| ChoiceAgreement.OneShotValidatesIffSelector | posse/lib/catalog/human-input.js:643-648 | the one-shot offer passes the validator if and only if its selector is well formed |
| ChoiceAgreement.SelectorIsShortQuestion | posse/lib/catalog/question-choices.js:31-38 | a selector is well formed for the gate if and only if its options are a valid question of at most twelve choices |
| ChoiceAgreement.OfferedIsAllowed | posse/lib/catalog/human-input.js:526-552 | the durable contract of a closed gate allows exactly what the payload offers |
| ChoiceAgreement.FreeTextAllowsRespond | posse/lib/catalog/human-input.js:537-538 | a free-text gate allows respond and nothing else |
| ChoiceAgreement.ReviewOffer | posse/lib/catalog/human-input.js:610-618 | the six ordered reviews offer the saved choices when these are a non-empty subsequence of the table, and the whole table otherwise |
| ChoiceAgreement.DispositionOffer | posse/lib/catalog/human-input.js:625-633 | the two dispositions offer an action if and only if it is available and saved, or nothing available is saved, and a work item failure without acceptable jobs never offers accept |
| ChoiceAgreement.WholeOffer | posse/lib/catalog/human-input.js:610-651 | every other closed gate, and any closed gate without a review type, offers its whole table |
| ChoiceAgreement.FreeTextOffer | posse/lib/catalog/human-input.js:653-657 | a free-text gate offers the saved choices, or approve and reject for file requests, or nothing |
| ChoiceAgreement.OfferIsFixpoint | posse/lib/catalog/human-input.js:636-658 | persisting an offer and asking again gives the same offer, for every gate |
| ChoiceAgreement.WaiverOfferedExactly | posse/lib/catalog/human-input.js:597-602 | the merge gate offers its waiver if and only if the payload has no review type, or its evidence is complete and no narrower saved offer has given the waiver up |
| ChoiceAgreement.WaiverNeverReturns | posse/lib/catalog/human-input.js:594-602 | with a review type, over every run of new evidence and persisted offers, a waiver once left out never comes back |
| ChoiceAgreement.WaiverReturnsExactly | posse/lib/catalog/human-input.js:594-611 | over every run, a waiver that was left out is offered again if and only if the payload has no review type |
| MergeQuestions.QuestionAgreesExactly | posse/lib/catalog/question-choices.js:55-67 | for every accepted merge-gate payload, records and absent lists included, the question shows what the gate offers if and only if the saved list is empty or valid and both decide the waiver alike: by bare text when there is a review type, always kept by the gate when there is none |
| MergeQuestions.QuestionShows | posse/lib/catalog/question-choices.js:55-67 | the entries of the question themselves: saved entries keep their labels, the waiver needs complete evidence, and a malformed list or another gate's is shown as saved |
| MergeQuestions.LabelledWaiverParts | posse/lib/catalog/question-choices.js:57-67 | on complete evidence a valid list with the waiver in a record shows it in the question, while the gate drops it |
| MergeQuestions.LabelledListParts | posse/lib/catalog/question-choices.js:57-67 | the gate's own actions as records are such a list |
| GateContracts.TransitionNotBlank | posse/lib/catalog/human-input.js:458-488 | every action has a transition, provider retries and unknown actions included |
| GateContracts.TransitionExactly | posse/lib/catalog/human-input.js:458-488 | a retry of a named provider, an action of the table and any other text each have the effect that the table and its fallbacks give, with or without white space around them |
| GateContracts.DefectExactly | posse/lib/catalog/human-input.js:490-504 | any contract passes validation if and only if it has the version, a complete profile and a transition per allowed action, and otherwise fails for the first of these that it lacks |
| GateContracts.BuiltContractDefect | posse/lib/catalog/human-input.js:490-504 | validating a built contract can only fail for the first field its profile leaves blank |
| GateContracts.BuiltContractPasses | posse/lib/catalog/human-input.js:526-552 | a contract built from an accepted payload passes validation if and only if its gate's profile is complete; it allows what the payload allows, with the transition of each |
| Basics.FindFirst | posse/lib/catalog/human-input.js:718 | the found choice is the first that passes the test, and none is found only if none passes |
| AnswerParsing.ParsedIsLongest | posse/lib/catalog/human-input.js:713-725 | the parsed choice is a longest choice that the text selects, of these the first, and there is none exactly when the text selects none |
| AnswerParsing.SortIsStable | posse/lib/catalog/human-input.js:720-721 | the sort by length keeps choices of one length in their order |
| AnswerParsing.ParseIgnoresOrder | posse/lib/catalog/human-input.js:713-725 | the order of the choices does not matter when no two differ only in case |
| AnswerParsing.ChoiceWithFeedbackRoundTrip | posse/lib/catalog/human-input.js:732-737 | a choice spelled in any case, a colon and feedback give back the choice and the trimmed feedback if and only if the text selects no longer choice |
| AnswerParsing.NoFeedback | posse/lib/catalog/human-input.js:732-737 | a bare choice, in any case, and an answer that selects none carry no feedback |
| AnswerParsing.LongerRetryWins | posse/lib/catalog/human-input.js:720-723 | a provider's retry with feedback is not read as a plain retry |
| ApprovalPolicies.PolicyForPayload | posse/lib/catalog/approval-policies.js:14-37 | the reassigned policy and source end as the decision function says |
| ApprovalPolicies.DecisionExactly | posse/lib/catalog/approval-policies.js:14-37 | who decides a gate in every case of settings and flags, what the policy then is, and which action is answered: exactly one that this policy selects, the payload offers and the contract allows, when no person is required |
| ApprovalPolicies.PolicyBySettings | posse/lib/catalog/approval-policies.js:17-34 | the policy read off the raw settings and flags: a saved fail_closed or auto:reject stands against --auto-approve, which only fills in where nothing is saved |
| ApprovalPolicies.PlanAnswered | posse/lib/catalog/approval-policies.js:17-37 | without flags a plan is answered, with approve alone, if and only if plan_approval_mode is auto_approve, no person is required and the gate offers it |
| ApprovalPolicies.AuthorizedExactly | posse/lib/catalog/approval-policies.js:39-46 | a resolution is authorized if and only if an attending person gave it or the gate's standing policy selects that same offered and allowed action |
| ApprovalPolicies.PlanAuthorized | posse/lib/catalog/approval-policies.js:17-46 | on a plan, a resolution that no person gave is authorized under exactly those conditions |
| ApprovalPolicies.OnlyStandingPolicyAuthorizes | posse/lib/catalog/approval-policies.js:39-46 | a recorded unattended answer is authorized later exactly when the standing policy gave it, never when a flag did |
| ApprovalPolicies.PromptAgreesWithPolicy | posse/lib/catalog/human-input.js:683-689 | the prompt's own unattended answer is the policy's if and only if a person is required, the gate is closed, or the policy selects nothing, respond, or nothing offered |
| ApprovalPolicies.PromptAnswersAClarification | posse/lib/catalog/human-input.js:683-689 | on a clarification that offers the choice its setting selects, the prompt answers and the policy does not |
| ApprovalPolicies.ScopeModeAgreesExactly | posse/lib/catalog/human-input.js:671-681 | on every accepted payload the two scope-mode resolvers agree if and only if a person is required, or a scope-gate payload has no subtype and a review type or file requests, or a payload of another gate does not look like file requests; both answer approve |
| ApprovalPolicies.ScopeModePartsBothWays | posse/lib/catalog/human-input.js:677-681 | a plan that only the scope mode approves, and a scope gate that only the policy approves |
| ApprovalPolicies.PolicyKeysDiffer | posse/lib/catalog/approval-policies.js:7 | no two gates share a setting |
| ApprovalPolicies.OptionsAnswerTheirGate | posse/lib/catalog/approval-policies.js:8-12 | a standing choice answers exactly the payloads that offer it, and every such choice is among the setting's options |
| ApprovalPolicies.OptionsExactly | posse/lib/catalog/approval-policies.js:8-12 | a setting may ask, fail closed, or select one of its gate's actions but respond |
| FieldCase.CamelToSnakeIsLocal | posse/lib/catalog/field-case.js:6-12 | the two regular-expression passes and the early return amount to one local rule for every name |
| FieldCase.SnakeRoundTrip | posse/lib/catalog/field-case.js:6-18 | any string comes back from camelCase if and only if it has no capitals and every underscore before a letter or digit stands between a word that keeps its case and a letter |
| FieldCase.ConventionalRoundTrip | posse/lib/catalog/field-case.js:6-18 | for a conventional snake name that means every one-letter segment between two others is followed by one whose second character is a letter |
| FieldCase.KeptSnakeNamesDiffer | posse/lib/catalog/field-case.js:14-18 | names that come back never share a camel name |
| FieldCase.CamelRoundTrip | posse/lib/catalog/field-case.js:6-18 | any string comes back from snake_case if and only if each capital follows a lower-case letter or digit, or ends a run that a lower-case letter follows, and no underscore stands before a lower-case letter or digit |
| FieldCase.NotEveryNameComesBack | posse/lib/catalog/field-case.js:6-18 | a_b_c and aBC do not come back |
| HashSelectors.ParseIffGrammar | posse/lib/catalog/hash-store.js:31-60 | parsing decides the selector pattern with its number checks on the text as it is or behind a hash sign, and the pattern is unambiguous |
| HashSelectors.AliasExactly | posse/lib/catalog/hash-store.js:33-41 | a reference is an alias if and only if its text matches the pattern as it is or behind a hash sign, and that is its normal form |
| HashSelectors.LeadingZero | posse/lib/catalog/hash-store.js:48-49 | leading zeros do not change a line number |
| HashSelectors.FormatParses | posse/lib/catalog/hash-store.js:62-70 | a selector can be written exactly for an alias and an ordered range, and is then read back the same |
| HashSelectors.FormatIsWritten | posse/lib/catalog/hash-store.js:62-70 | the written form is the normalized alias and two line numbers with an L each |
| HashSelectors.DecimalIsShortest | posse/lib/catalog/hash-store.js:69 | line numbers are written without leading zeros |
| HashSelectors.CanonicalFormIsStable | posse/lib/catalog/hash-store.js:43-70 | formatting a parsed value keeps its selector and is stable |
| HashSelectors.SameSelectorIffSameForm | posse/lib/catalog/hash-store.js:43-70 | two values have one selector if and only if they have one canonical form |
| ToolDeadlines.ClientDeadlineMs | posse/lib/catalog/mcp.js:103-117 | the loop that raises the deadline computes the rounded, capped maximum |
| ToolDeadlines.DeadlineIsMaximum | posse/lib/catalog/mcp.js:96-117 | the deadline is the rounded-up bound of one of the tools, cut at the cap, and no tool's is larger |
| ToolDeadlines.BoundsInFigures | posse/lib/catalog/mcp.js:53-76 | the bound of every tool by name, in milliseconds |
| ToolDeadlines.NoToolsDeadline | posse/lib/catalog/mcp.js:103-107 | a server without tools takes the default bound, cut at the cap |
| ToolDeadlines.DeadlineOfSet | posse/lib/catalog/mcp.js:103-117 | order and repetition of the tools do not matter |
| ToolDeadlines.DeadlineOfConcat | posse/lib/catalog/mcp.js:103-117 | the deadline of two lists together is the larger of theirs |
| ToolDeadlines.DispatchOnlyIsExact | posse/lib/catalog/mcp.js:106-107 | a server with only agent dispatch takes the gate's timeout exactly |
| ToolDeadlines.SecondsKeepDeadline | posse/lib/catalog/mcp.js:119-121 | rounding to seconds loses no time and stays below the transport's timeout |
| ToolDeadlines.DeadlineCoversTools | posse/lib/catalog/mcp.js:31-38 | with the shipped numbers the deadline covers every issued tool's own bound and ends before the transport gives up |
| ToolDeadlines.ChildFitsDispatch | posse/lib/domains/planning/functions/planner-dispatch-policy.js:12-50 | whatever the settings hold, a child's whole timeout and its return margin fit the dispatch deadline, and that the transport's |
| ToolDeadlines.ChildTimeoutIsLongest | posse/lib/domains/planning/functions/planner-dispatch-policy.js:12-50 | a child gets the longest timeout that its clamped setting and the dispatch timeout less its return margin allow |
| ToolDeadlines.LargestTimeoutsMeetCap | posse/lib/catalog/planner-dispatch.js:21-43 | the largest child timeout leaves exactly its return margin below the cap and the largest dispatch timeout is the cap |
| ToolDeadlines.PrefixDoesNotMatter | posse/lib/catalog/mcp.js:90-94 | a tool has one class with and without its tools prefix |
| PairingCommand.OpensSession | posse/lib/catalog/pairing-command.js:30-41 | the index scan with its extra step decides like the recursive reading |
| PairingCommand.ScanFindsFirstPositional | posse/lib/catalog/pairing-command.js:23-41 | however a command is grouped into options, values and words, the scan judges its first positional word: none, host, join and any word that is no action open a session |
| PairingCommand.Grouped | posse/lib/catalog/pairing-command.js:30-41 | every command has such a grouping |
| PairingCommand.ShippedActionDecides | posse/lib/catalog/pairing-command.js:9-20 | a command that starts with a shipped action opens a session exactly when the action is host or join |
| GateOrder.OrderedIsCanonical | posse/lib/catalog/gate-actions.js:8-14 | ordering fails exactly on repeated or unknown actions, and otherwise gives the one subsequence of the order with the requested actions |
| GateOrder.OrderedIsStable | posse/lib/catalog/gate-actions.js:8-14 | the result depends only on the set requested and is already in order |

## Left out

- Scheduler, shared trunk, budgets, bridges, command line, process and network code: input and output around the catalog, not part of this model.
- Regular-expression engines and Unicode: `pattern` is an oracle; the few fixed patterns are character scans over ASCII text.
- JavaScript number precision: numbers are exact, so a line number beyond the safe integers or a fractional setting is not treated as the code would.
- Prototype lookups, frozen objects and shared references: objects are plain values, and a schema copy shares nothing with its original.
- `description` and `default` annotations: they do not affect acceptance.
- Object and array values in `enum` and `const`: the shipped schemas compare scalars only.
- The nested report and handoff contents of the shipped tools are parameters of the theorems: any content without a profile conditional.
- Profile texts of the gates and the lists of allowed source states: prose and data; completeness of the profile table is the condition in `GateContracts.BuiltContractPasses`.
- Choices that are neither text nor a record (numbers, booleans): only their string form would matter.
- ProjectionExactness.ProjectionExact: states exactness for documents that report an outcome of the bound profile; for the shipped forms `ShippedOutcomes` gives the exact condition on all the others.
- HashSelectors.FormatParses: line numbers are unbounded integers, so inputs that are not integers are not modelled.
