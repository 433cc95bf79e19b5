/** Human gates: which gate a payload names, and which of the gate's actions the
    payload offers after its persisted choices have narrowed them. */
module HumanGates {
  import opened Basics
  import opened Text
  import opened GateTable

  /** A persisted choice: bare text, or a record that carries labels. */
  datatype Entry = Text(text: string) | Record(choiceId: Option<string>, value: Option<string>, id: Option<string>)

  /** The parts of a gate payload that the catalog reads.  An identity that is
      absent is None; the merge evidence is the pair of facts the merge gate tests. */
  datatype Payload = Payload(
    gateKind: Option<string>,
    reviewType: Option<string>,
    subtype: Option<string>,
    questionKind: Option<string>,
    fileRequests: nat,
    choices: Option<seq<Entry>>,
    selectorOptions: Option<seq<string>>,
    acceptableJobs: Option<nat>,
    candidateTree: bool,
    targetHead: bool,
    interactive: bool)

  datatype GateError = UnknownGate | IdentityMismatch

  // ---- Gate identity ----

  function Identity(alias: Option<string>): seq<string> {
    if alias.Some? && Trim(alias.value) != "" then [Trim(alias.value)] else []
  }

  function Identities(p: Payload): seq<string> {
    Identity(p.gateKind) + Identity(p.reviewType) + Identity(p.subtype) + Identity(p.questionKind)
  }

  function DefaultName(cat: Catalog, p: Payload): string {
    cat.name(if p.fileRequests > 0 then FileScopeApproval else Clarification)
  }

  function GateFor(cat: Catalog, p: Payload): Result<Gate, GateError> {
    var ids := Identities(p);
    var name := if ids != [] then ids[0] else DefaultName(cat, p);
    match cat.gateOf(name)
    case None => Err(UnknownGate)
    case Some(g) => if exists id :: id in ids && id != name then Err(IdentityMismatch) else Ok(g)
  }

  function Canonical(cat: Catalog, p: Payload): Result<Payload, GateError> {
    var g :- GateFor(cat, p);
    Ok(p.(reviewType := Some(cat.name(g)), gateKind := Some(cat.name(g)), questionKind := Some(cat.name(g))))
  }

  /** An alias that carries no identity. */
  predicate Silent(alias: Option<string>) {
    alias.None? || Trim(alias.value) == ""
  }

  predicate Says(alias: Option<string>, name: string) {
    Silent(alias) || Trim(alias.value) == name
  }

  lemma AliasIds(alias: Option<string>, name: string)
    ensures AllAre(Identity(alias), name) <==> Says(alias, name)
    ensures Identity(alias) == [] <==> Silent(alias)
  {
    if !Silent(alias) {
      assert Trim(alias.value) in Identity(alias);
    }
  }

  predicate AllAre(ids: seq<string>, name: string) {
    forall id :: id in ids ==> id == name
  }

  lemma AllAreConcat(a: seq<string>, b: seq<string>, name: string)
    ensures AllAre(a + b, name) <==> AllAre(a, name) && AllAre(b, name)
  {
    if AllAre(a + b, name) {
      forall id | id in a || id in b ensures id == name {
        assert id in a + b;
      }
    }
  }

  lemma AllIds(p: Payload, name: string)
    ensures AllAre(Identities(p), name) <==>
              Says(p.gateKind, name) && Says(p.reviewType, name) && Says(p.subtype, name) && Says(p.questionKind, name)
    ensures Identities(p) == [] <==> Silent(p.gateKind) && Silent(p.reviewType) && Silent(p.subtype) && Silent(p.questionKind)
  {
    var (a, b, c, d) := (Identity(p.gateKind), Identity(p.reviewType), Identity(p.subtype), Identity(p.questionKind));
    AliasIds(p.gateKind, name);
    AliasIds(p.reviewType, name);
    AliasIds(p.subtype, name);
    AliasIds(p.questionKind, name);
    AllAreConcat(a, b, name);
    AllAreConcat(a + b, c, name);
    AllAreConcat(a + b + c, d, name);
  }

  lemma NameIsGate(cat: Catalog, a: Gate, b: Gate)
    requires SoundNames(cat) && cat.name(a) == cat.name(b)
    ensures a == b
  {
    assert cat.gateOf(cat.name(a)) == Some(a) && cat.gateOf(cat.name(b)) == Some(b);
  }

  lemma GateForIds(cat: Catalog, p: Payload, g: Gate)
    requires SoundNames(cat)
    ensures GateFor(cat, p) == Ok(g) <==>
              if Identities(p) == [] then cat.name(g) == DefaultName(cat, p)
              else AllAre(Identities(p), cat.name(g))
  {
    var ids := Identities(p);
    if ids != [] {
      assert ids[0] in ids;
    }
  }

  /** A payload names a gate exactly when each of its four aliases that is not blank is
      that gate's name and, if all are blank, the gate is file scope approval for a
      payload with file requests and clarification otherwise. */
  lemma GateForExactly(cat: Catalog, p: Payload, g: Gate)
    requires SoundNames(cat)
    ensures GateFor(cat, p) == Ok(g) <==>
              && Says(p.gateKind, cat.name(g)) && Says(p.reviewType, cat.name(g))
              && Says(p.subtype, cat.name(g)) && Says(p.questionKind, cat.name(g))
              && (Silent(p.gateKind) && Silent(p.reviewType) && Silent(p.subtype) && Silent(p.questionKind) ==>
                    g == if p.fileRequests > 0 then FileScopeApproval else Clarification)
  {
    GateForIds(cat, p, g);
    AllIds(p, cat.name(g));
    var byDefault := if p.fileRequests > 0 then FileScopeApproval else Clarification;
    if cat.name(g) == cat.name(byDefault) {
      NameIsGate(cat, g, byDefault);
    }
  }

  /** The first alias that is not blank. */
  function FirstAlias(p: Payload): string {
    if !Silent(p.gateKind) then Trim(p.gateKind.value)
    else if !Silent(p.reviewType) then Trim(p.reviewType.value)
    else if !Silent(p.subtype) then Trim(p.subtype.value)
    else if !Silent(p.questionKind) then Trim(p.questionKind.value)
    else ""
  }

  lemma FirstId(p: Payload)
    ensures Identities(p) == [] ==> FirstAlias(p) == ""
    ensures Identities(p) != [] ==> Identities(p)[0] == FirstAlias(p)
  {
  }

  lemma DefaultIsKnown(cat: Catalog, p: Payload)
    requires SoundNames(cat) && Identities(p) == []
    ensures GateFor(cat, p).Ok?
  {
    var g := if p.fileRequests > 0 then FileScopeApproval else Clarification;
    assert DefaultName(cat, p) == cat.name(g) && cat.gateOf(cat.name(g)) == Some(g);
  }

  /** A payload that names no gate is refused for an unknown name if and only if its
      first alias is one, and for a mismatch otherwise. */
  lemma RefusedFor(cat: Catalog, p: Payload)
    requires SoundNames(cat) && GateFor(cat, p).Err?
    ensures GateFor(cat, p).error == UnknownGate <==> cat.gateOf(FirstAlias(p)).None?
  {
    FirstId(p);
    if Identities(p) == [] {
      DefaultIsKnown(cat, p);
    }
  }

  /** Canonicalization keeps the gate, is idempotent, gives the payload the review type
      that the narrowing goes by, and leaves everything but the aliases alone. */
  lemma CanonicalIsStable(cat: Catalog, p: Payload)
    requires SoundNames(cat) && Canonical(cat, p).Ok?
    ensures var q := Canonical(cat, p).value;
            && q.gateKind == q.reviewType == q.questionKind
            && GateFor(cat, p).Ok? && ReviewGate(cat, q) == Some(GateFor(cat, p).value)
            && q.(gateKind := p.gateKind, reviewType := p.reviewType, questionKind := p.questionKind) == p
    ensures GateFor(cat, Canonical(cat, p).value) == GateFor(cat, p)
    ensures Canonical(cat, Canonical(cat, p).value) == Canonical(cat, p)
  {
    var g := GateFor(cat, p).value;
    var q := Canonical(cat, p).value;
    TrimmedIsFixed(cat.name(g));
    GateForIds(cat, p, g);
    assert Identity(Some(cat.name(g))) == [cat.name(g)];
    forall id | id in Identities(q) ensures id == cat.name(g) {
      if id in Identity(p.subtype) {
        assert id in Identities(p);
      }
    }
    GateForIds(cat, q, g);
    assert Identities(q) != [];
  }

  // ---- Choices ----

  function EntryText(e: Entry): string {
    if e.Text? then Trim(e.text) else "[object Object]"
  }

  function EntryTexts(es: seq<Entry>): (r: seq<string>)
    ensures |r| == |es| && forall i :: 0 <= i < |es| ==> r[i] == EntryText(es[i])
  {
    seq(|es|, i requires 0 <= i < |es| => EntryText(es[i]))
  }

  /** The trimmed, non-empty, distinct choices, at most `limit` of them. */
  function NormalizeChoices(choices: Option<seq<Entry>>, limit: Option<nat>): (r: seq<string>)
    ensures Distinct(r)
    ensures forall c :: c in r ==> c != "" && Trimmed(c)
    ensures limit.Some? ==> |r| <= limit.value
  {
    if choices.None? then []
    else
      var texts := EntryTexts(choices.value);
      assert forall c :: c in texts ==> Trimmed(c) by {
        forall i | 0 <= i < |texts| ensures Trimmed(texts[i]) {
          if choices.value[i].Text? {
            TrimIsTrimmed(choices.value[i].text);
          }
        }
      }
      var all := Dedup(Filter((c: string) => c != "", texts));
      assert forall c :: c in all ==> c in texts && c != "";
      if limit.Some? && limit.value < |all| then
        assert forall c :: c in all[..limit.value] ==> c in all;
        all[..limit.value]
      else all
  }

  lemma NormalizedMember(choices: seq<Entry>, c: string)
    ensures c in NormalizeChoices(Some(choices), None)
       <==> c != "" && exists i :: 0 <= i < |choices| && EntryText(choices[i]) == c
  {
    var texts := EntryTexts(choices);
    assert c in texts <==> exists i :: 0 <= i < |choices| && EntryText(choices[i]) == c;
  }

  lemma {:induction false} FilterKeepsOrder(keep: string -> bool, s: seq<string>, x: string, y: string)
    requires x in Filter(keep, s) && y in Filter(keep, s) && IndexOf(Filter(keep, s), x) < IndexOf(Filter(keep, s), y)
    ensures IndexOf(s, x) < IndexOf(s, y)
  {
    if !keep(s[0]) || (x != s[0] && y != s[0]) {
      FilterKeepsOrder(keep, s[1..], x, y);
    }
  }

  lemma {:induction false} IndexInFront(front: seq<string>, last: string, x: string)
    ensures IndexOf(front + [last], x) == if x in front then IndexOf(front, x) else if x == last then |front| else -1
  {
    if front == [] {
      assert front + [last] == [last];
    } else {
      assert (front + [last])[1..] == front[1..] + [last];
      IndexInFront(front[1..], last, x);
    }
  }

  lemma {:induction false} DedupKeepsOrder(s: seq<string>, i: nat, j: nat)
    requires i < j < |Dedup(s)|
    ensures IndexOf(s, Dedup(s)[i]) < IndexOf(s, Dedup(s)[j])
  {
    var front, last := s[..|s| - 1], s[|s| - 1];
    var r := Dedup(front);
    assert s == front + [last];
    assert Dedup(s)[i] == r[i] && r[i] in front;
    IndexInFront(front, last, r[i]);
    IndexInFront(front, last, Dedup(s)[j]);
    if j < |r| {
      DedupKeepsOrder(front, i, j);
      assert r[j] in front;
    }
  }

  /** Without a limit the choices are the trimmed texts that are not empty, each once and
      in the order of their first occurrences; a limit keeps the first ones. */
  lemma NormalizeExactly(choices: seq<Entry>, c: string, i: nat, j: nat, limit: nat)
    ensures c in NormalizeChoices(Some(choices), None)
       <==> c != "" && exists k :: 0 <= k < |choices| && EntryText(choices[k]) == c
    ensures var r := NormalizeChoices(Some(choices), None);
            i < j < |r| ==> IndexOf(EntryTexts(choices), r[i]) < IndexOf(EntryTexts(choices), r[j])
    ensures var r := NormalizeChoices(Some(choices), None);
            NormalizeChoices(Some(choices), Some(limit)) == if limit < |r| then r[..limit] else r
    ensures NormalizeChoices(None, Some(limit)) == NormalizeChoices(None, None) == []
  {
    NormalizedMember(choices, c);
    var texts := EntryTexts(choices);
    var kept := Filter((t: string) => t != "", texts);
    var r := NormalizeChoices(Some(choices), None);
    if i < j < |r| {
      DedupKeepsOrder(kept, i, j);
      assert r[i] in r && r[j] in r;
      FilterKeepsOrder((t: string) => t != "", texts, r[i], r[j]);
    }
  }

  function Offered(p: Payload): seq<string> {
    NormalizeChoices(p.choices, Some(CHOICE_LIMIT))
  }

  function Texts(cs: seq<string>): (r: seq<Entry>)
    ensures |r| == |cs| && forall i :: 0 <= i < |cs| ==> r[i] == Text(cs[i])
  {
    seq(|cs|, i requires 0 <= i < |cs| => Text(cs[i]))
  }

  /** Persisting a list of choices. */
  function Persist(p: Payload, cs: seq<string>): Payload {
    p.(choices := Some(Texts(cs)))
  }

  /** A list that is already normal is read back as it was written. */
  lemma NormalRoundTrip(cs: seq<string>, limit: Option<nat>)
    requires Distinct(cs) && (forall c :: c in cs ==> c != "" && Trimmed(c)) && (limit.Some? ==> |cs| <= limit.value)
    ensures NormalizeChoices(Some(Texts(cs)), limit) == cs
  {
    var texts := EntryTexts(Texts(cs));
    forall i | 0 <= i < |cs| ensures texts[i] == cs[i] {
      assert cs[i] in cs;
      TrimmedIsFixed(cs[i]);
    }
    assert texts == cs;
    FilterAll((c: string) => c != "", cs);
    DedupDistinct(cs);
  }

  /** Whether the merge gate may offer its waiver: complete evidence, and persisted
      choices that do not leave it out. */
  predicate CanWaive(evidence: bool, choices: seq<string>) {
    evidence && (choices == [] || "waive_tests" in choices)
  }

  /** The actions of the merge gate that are eligible now. */
  function MergeFailureChoices(actions: seq<string>, evidence: bool, allowWaive: bool, choices: seq<string>): seq<string> {
    var canWaive := allowWaive && CanWaive(evidence, choices);
    Filter((c: string) => c != "waive_tests" || canWaive, actions)
  }

  const ORDERED_REVIEWS: set<Gate> := {
    AssessmentReview, AssessmentEvidenceMissing, AssessmentTransportRecovery, AssessmentRetryLimit,
    PipelineHeadRecovery, UnexecutedReplanRecovery}

  /** Every choice is an action and each stands after the one before it. */
  predicate InTableOrder(choices: seq<string>, actions: seq<string>) {
    && (forall c :: c in choices ==> c in actions)
    && forall i :: 0 < i < |choices| ==> IndexOf(actions, choices[i]) > IndexOf(actions, choices[i - 1])
  }

  /** The gate whose name is the payload's review type. */
  function ReviewGate(cat: Catalog, p: Payload): Option<Gate> {
    cat.gateOf(if p.reviewType.Some? then Trim(p.reviewType.value) else "")
  }

  /** Whether a disposition gate keeps an action. */
  predicate Kept(offered: seq<string>, acceptUnavailable: bool, c: string) {
    c in offered && !(acceptUnavailable && c == "accept")
  }

  /** A disposition gate keeps the offered actions; an empty or foreign offer leaves
      the whole table, without `accept` when nothing can be accepted. */
  function DispositionChoices(offered: seq<string>, acceptUnavailable: bool, actions: seq<string>): seq<string> {
    var narrowed := Filter((c: string) => Kept(offered, acceptUnavailable, c), actions);
    if narrowed != [] then narrowed
    else if acceptUnavailable then Filter((c: string) => c != "accept", actions)
    else actions
  }

  /** The narrowing by review type. */
  function Narrow(
    review: Option<Gate>, offered: seq<string>, evidence: bool, noneAcceptable: bool,
    actions: seq<string>, mergeActions: seq<string>): seq<string>
  {
    if review.None? then actions
    else if review.value in ORDERED_REVIEWS && offered != [] && InTableOrder(offered, actions) then offered
    else if review.value == MergeFailureRecovery then MergeFailureChoices(mergeActions, evidence, true, offered)
    else if review.value !in DISPOSITIONS then actions
    else DispositionChoices(offered, review.value == WorkItemFailureDisposition && noneAcceptable, actions)
  }

  function NarrowedChoices(cat: Catalog, p: Payload, actions: seq<string>): seq<string> {
    Narrow(ReviewGate(cat, p), Offered(p), p.candidateTree && p.targetHead, p.acceptableJobs == Some(0),
           actions, cat.actions(MergeFailureRecovery))
  }

  predicate IsHexDigit(c: char) {
    IsDigit(c) || 'a' <= c <= 'f'
  }

  /** `candidate:sha256:` and 64 hexadecimal digits. */
  predicate IsCandidate(s: string) {
    && |s| == 81
    && s[..17] == "candidate:sha256:"
    && forall i :: 17 <= i < 81 ==> IsHexDigit(s[i])
  }

  /** A selector offers one to ten candidates, then `plan`, then `cancel`. */
  predicate SelectorOffer(options: seq<string>) {
    && 3 <= |options| <= 12
    && Distinct(options)
    && options[|options| - 2] == "plan" && options[|options| - 1] == "cancel"
    && forall i :: 0 <= i < |options| - 2 ==> IsCandidate(options[i])
  }

  /** The choices a payload offers. */
  function OfferFor(cat: Catalog, p: Payload): Result<seq<string>, GateError> {
    var g :- GateFor(cat, p);
    if g == OneShotFileScope && p.selectorOptions.Some? && SelectorOffer(p.selectorOptions.value) then
      Ok(p.selectorOptions.value)
    else
      var actions := Filter((c: string) => c != "respond", cat.actions(g));
      if actions != [] then Ok(NarrowedChoices(cat, p, actions))
      else if Offered(p) != [] then Ok(Offered(p))
      else if p.fileRequests > 0 then Ok(["approve", "reject"])
      else Ok([])
  }

  /** The actions the durable contract accepts. */
  function AllowedFor(cat: Catalog, p: Payload): Result<seq<string>, GateError> {
    var g :- GateFor(cat, p);
    if g == OneShotFileScope then
      var offer :- OfferFor(cat, p);
      Ok(Dedup(offer))
    else Ok(Dedup(NarrowedChoices(cat, p, cat.actions(g))))
  }

  // ---- Subsequences of the table ----

  /** Strictly increasing positions at which `b` holds the elements of `a`. */
  ghost predicate Embeds(at: seq<nat>, a: seq<string>, b: seq<string>) {
    && |at| == |a|
    && (forall i :: 0 <= i < |a| ==> at[i] < |b| && b[at[i]] == a[i])
    && forall i, j :: 0 <= i < j < |a| ==> at[i] < at[j]
  }

  ghost predicate Subsequence(a: seq<string>, b: seq<string>) {
    exists at :: Embeds(at, a, b)
  }

  /** A distinct table has one position per action. */
  lemma IndexIsPosition(table: seq<string>, i: nat)
    requires Distinct(table) && i < |table|
    ensures IndexOf(table, table[i]) == i
  {
  }

  lemma {:induction false} AdjacentOrder(choices: seq<string>, actions: seq<string>, i: nat, j: nat)
    requires InTableOrder(choices, actions) && i < j < |choices|
    ensures IndexOf(actions, choices[i]) < IndexOf(actions, choices[j])
    decreases j
  {
    if i < j - 1 {
      AdjacentOrder(choices, actions, i, j - 1);
    }
  }

  /** The order test holds exactly of the subsequences of the table. */
  lemma InOrderIffSubsequence(choices: seq<string>, actions: seq<string>)
    requires Distinct(actions)
    ensures InTableOrder(choices, actions) <==> Subsequence(choices, actions)
  {
    if InTableOrder(choices, actions) {
      assert forall c :: c in choices ==> IndexOf(actions, c) >= 0;
      var at: seq<nat> := seq(|choices|, i requires 0 <= i < |choices| => IndexOf(actions, choices[i]) as nat);
      forall i, j | 0 <= i < j < |choices| ensures at[i] < at[j] {
        AdjacentOrder(choices, actions, i, j);
      }
      assert Embeds(at, choices, actions);
    }
    if at :| Embeds(at, choices, actions) {
      forall i | 0 <= i < |choices| ensures IndexOf(actions, choices[i]) == at[i] {
        IndexIsPosition(actions, at[i]);
      }
    }
  }

  lemma SubsequenceSkips(a: seq<string>, x: string, b: seq<string>)
    requires Subsequence(a, b)
    ensures Subsequence(a, [x] + b) && Subsequence([x] + a, [x] + b)
  {
    var at :| Embeds(at, a, b);
    var shifted: seq<nat> := seq(|at|, i requires 0 <= i < |at| => at[i] + 1);
    assert Embeds(shifted, a, [x] + b);
    assert Embeds([0] + shifted, [x] + a, [x] + b);
  }

  /** A filter is a subsequence of what it filters. */
  lemma {:induction false} FilterIsSubsequence(keep: string -> bool, s: seq<string>)
    ensures Subsequence(Filter(keep, s), s)
  {
    if s == [] {
      assert Embeds([], [], s);
    } else {
      FilterIsSubsequence(keep, s[1..]);
      SubsequenceSkips(Filter(keep, s[1..]), s[0], s[1..]);
      assert s == [s[0]] + s[1..];
    }
  }
}
