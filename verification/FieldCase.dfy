/** Field names between camelCase and snake_case: the two passes of the conversion,
    the one local rule they amount to, and exactly which names survive a round trip
    in each direction. */
module FieldCase {
  import opened Basics
  import opened Text

  predicate LowerOrDigit(c: char) {
    IsLower(c) || IsDigit(c)
  }

  /** Replaces every `[a-z0-9][A-Z]` by the two characters with `_` between them. */
  function BreakAfterLower(s: string): string {
    if |s| < 2 then s
    else if LowerOrDigit(s[0]) && IsUpper(s[1]) then [s[0], '_', s[1]] + BreakAfterLower(s[2..])
    else [s[0]] + BreakAfterLower(s[1..])
  }

  /** The length of the run of capitals that a string starts with. */
  function Run(s: string): (k: nat)
    ensures k <= |s| && (forall i :: 0 <= i < k ==> IsUpper(s[i])) && (k < |s| ==> !IsUpper(s[k]))
  {
    if s != [] && IsUpper(s[0]) then 1 + Run(s[1..]) else 0
  }

  /** A greedy `[A-Z]+[A-Z][a-z]` matches here. */
  predicate AcronymHere(s: string) {
    Run(s) >= 2 && Run(s) < |s| && IsLower(s[Run(s)])
  }

  /** A run of `k` capitals and the character after it, with `_` before its last
      capital, and a rest. */
  function BreakRun(s: string, k: nat, rest: string): string
    requires 0 < k < |s|
  {
    s[..k - 1] + ['_', s[k - 1], s[k]] + rest
  }

  /** Replaces every `[A-Z]+[A-Z][a-z]`, with `_` before its last capital. */
  function BreakAcronyms(s: string): string {
    if s == [] then []
    else if AcronymHere(s) then
      var k := Run(s);
      BreakRun(s, k, BreakAcronyms(s[k + 1..]))
    else [s[0]] + BreakAcronyms(s[1..])
  }

  function CamelToSnake(key: string): string {
    if !exists c :: c in key && IsUpper(c) then key
    else Lower(BreakAcronyms(BreakAfterLower(key)))
  }

  /** Replaces every `_[a-z0-9]` by the upper case of its second character. */
  function Capitalize(s: string): string {
    if s == [] then []
    else if |s| >= 2 && s[0] == '_' && LowerOrDigit(s[1]) then [UpperChar(s[1])] + Capitalize(s[2..])
    else [s[0]] + Capitalize(s[1..])
  }

  function SnakeToCamel(key: string): string {
    if '_' !in key then key else Capitalize(key)
  }

  // ---- The local rule ----

  /** A capital starts a word: after a lower-case letter or a digit, or as the last
      capital of a run that a lower-case letter follows. */
  predicate AfterLower(prev: Option<char>, s: string) {
    prev.Some? && LowerOrDigit(prev.value) && s != [] && IsUpper(s[0])
  }

  predicate EndsAcronym(prev: Option<char>, s: string) {
    prev.Some? && IsUpper(prev.value) && |s| > 1 && IsUpper(s[0]) && IsLower(s[1])
  }

  predicate Breaks(prev: Option<char>, s: string) {
    AfterLower(prev, s) || EndsAcronym(prev, s)
  }

  /** `_` before every character at which a test of the one before and the rest holds. */
  function Insert(test: (Option<char>, string) -> bool, prev: Option<char>, s: string): string
    decreases |s|
  {
    if s == [] then []
    else (if test(prev, s) then "_" else "") + [s[0]] + Insert(test, Some(s[0]), s[1..])
  }

  lemma InsertHead(test: (Option<char>, string) -> bool, prev: Option<char>, c: char, rest: string)
    ensures Insert(test, prev, [c] + rest)
         == (if test(prev, [c] + rest) then "_" else "") + [c] + Insert(test, Some(c), rest)
  {
    assert ([c] + rest)[1..] == rest;
  }

  lemma {:induction false} BreakAfterLowerIsLocal(prev: Option<char>, s: string)
    requires !AfterLower(prev, s)
    ensures BreakAfterLower(s) == Insert(AfterLower, prev, s)
    decreases |s|
  {
    if s == [] {
    } else if |s| == 1 {
      assert s[1..] == [];
    } else if AfterLower(Some(s[0]), s[1..]) {
      assert s[1..][1..] == s[2..];
      BreakAfterLowerIsLocal(Some(s[1]), s[2..]);
    } else {
      BreakAfterLowerIsLocal(Some(s[0]), s[1..]);
    }
  }

  lemma RunTail(s: string)
    requires s != [] && IsUpper(s[0])
    ensures Run(s) == 1 + Run(s[1..])
  {
  }

  /** Inside a run that a lower-case letter follows, only its last capital breaks. */
  lemma {:induction false} RunIsLocal(prev: Option<char>, s: string)
    requires 1 <= Run(s) < |s| && IsLower(s[Run(s)])
    requires Run(s) >= 2 || (prev.Some? && IsUpper(prev.value))
    ensures var k := Run(s);
            Insert(EndsAcronym, prev, s) == BreakRun(s, k, Insert(EndsAcronym, Some(s[k]), s[k + 1..]))
    decreases |s|
  {
    var k := Run(s);
    var rest := s[1..];
    RunTail(s);
    assert s == [s[0]] + rest;
    InsertHead(EndsAcronym, prev, s[0], rest);
    if k == 1 {
      assert rest == [s[1]] + s[2..];
      InsertHead(EndsAcronym, Some(s[0]), s[1], s[2..]);
    } else {
      RunIsLocal(Some(s[0]), rest);
      assert rest[k..] == s[k + 1..];
      BreakRunTail(s, k, Insert(EndsAcronym, Some(s[k]), s[k + 1..]));
    }
  }

  lemma BreakRunTail(s: string, k: nat, rest: string)
    requires 1 < k < |s|
    ensures BreakRun(s, k, rest) == [s[0]] + BreakRun(s[1..], k - 1, rest)
  {
    assert s[..k - 1] == [s[0]] + s[1..][..k - 2];
  }

  lemma AcronymStep(prev: Option<char>, s: string)
    requires AcronymHere(s) && BreakAcronyms(s[Run(s) + 1..]) == Insert(EndsAcronym, Some(s[Run(s)]), s[Run(s) + 1..])
    ensures BreakAcronyms(s) == Insert(EndsAcronym, prev, s)
  {
    RunIsLocal(prev, s);
  }

  lemma PlainCharStep(prev: Option<char>, s: string)
    requires s != [] && !AcronymHere(s) && !EndsAcronym(prev, s)
    requires BreakAcronyms(s[1..]) == Insert(EndsAcronym, Some(s[0]), s[1..])
    ensures BreakAcronyms(s) == Insert(EndsAcronym, prev, s)
  {
    InsertHead(EndsAcronym, prev, s[0], s[1..]);
    assert s == [s[0]] + s[1..];
  }

  /** No acronym ends here or further on in the run of capitals that starts here. */
  predicate NoAcronymInRun(s: string) {
    Run(s) == 0 || Run(s) == |s| || !IsLower(s[Run(s)])
  }

  lemma NoAcronymStep(prev: Option<char>, s: string)
    requires s != [] && !AcronymHere(s)
    requires prev.Some? && IsUpper(prev.value) ==> NoAcronymInRun(s)
    ensures !EndsAcronym(prev, s) && (IsUpper(s[0]) ==> NoAcronymInRun(s[1..]))
  {
    if IsUpper(s[0]) {
      RunTail(s);
    }
  }

  lemma {:induction false} BreakAcronymsIsLocal(prev: Option<char>, s: string)
    requires prev.Some? && IsUpper(prev.value) ==> NoAcronymInRun(s)
    ensures BreakAcronyms(s) == Insert(EndsAcronym, prev, s)
    decreases |s|
  {
    if s == [] {
    } else if AcronymHere(s) {
      BreakAcronymsIsLocal(Some(s[Run(s)]), s[Run(s) + 1..]);
      AcronymStep(prev, s);
    } else {
      NoAcronymStep(prev, s);
      BreakAcronymsIsLocal(Some(s[0]), s[1..]);
      PlainCharStep(prev, s);
    }
  }

  lemma FirstOfInsert(test: (Option<char>, string) -> bool, prev: Option<char>, s: string)
    requires s != []
    ensures Insert(test, prev, s) != []
    ensures !test(prev, s) ==> Insert(test, prev, s)[0] == s[0] && Insert(test, prev, s)[1..] == Insert(test, Some(s[0]), s[1..])
  {
  }

  /** The second pass sees the same acronyms after the first as before it. */
  lemma SameAcronym(prev: Option<char>, s: string)
    requires s != [] && !AfterLower(prev, s)
    ensures EndsAcronym(prev, [s[0]] + Insert(AfterLower, Some(s[0]), s[1..])) <==> EndsAcronym(prev, s)
  {
    if |s| > 1 {
      FirstOfInsert(AfterLower, Some(s[0]), s[1..]);
    } else {
      assert s[1..] == [];
    }
  }

  /** The passes agree on the rest of a string. */
  predicate Compose(prev: Option<char>, s: string) {
    Insert(EndsAcronym, prev, Insert(AfterLower, prev, s)) == Insert(Breaks, prev, s)
  }

  lemma ComposeAfterLower(prev: Option<char>, s: string)
    requires AfterLower(prev, s) && Compose(Some(s[0]), s[1..])
    ensures Compose(prev, s)
  {
    var rest := Insert(AfterLower, Some(s[0]), s[1..]);
    assert Insert(AfterLower, prev, s) == ['_'] + ([s[0]] + rest);
    InsertHead(EndsAcronym, prev, '_', [s[0]] + rest);
    InsertHead(EndsAcronym, Some('_'), s[0], rest);
  }

  lemma ComposeElsewhere(prev: Option<char>, s: string)
    requires s != [] && !AfterLower(prev, s) && Compose(Some(s[0]), s[1..])
    ensures Compose(prev, s)
  {
    var rest := Insert(AfterLower, Some(s[0]), s[1..]);
    assert Insert(AfterLower, prev, s) == [s[0]] + rest;
    SameAcronym(prev, s);
    InsertHead(EndsAcronym, prev, s[0], rest);
  }

  lemma {:induction false} PassesCompose(prev: Option<char>, s: string)
    ensures Compose(prev, s)
    decreases |s|
  {
    if s != [] {
      PassesCompose(Some(s[0]), s[1..]);
      if AfterLower(prev, s) {
        ComposeAfterLower(prev, s);
      } else {
        ComposeElsewhere(prev, s);
      }
    }
  }

  lemma {:induction false} NothingBreaks(prev: Option<char>, s: string)
    requires forall c :: c in s ==> !IsUpper(c)
    ensures Insert(Breaks, prev, s) == s && Lower(s) == s
    decreases |s|
  {
    if s != [] {
      NothingBreaks(Some(s[0]), s[1..]);
    }
  }

  /** The two passes and the early return are one local rule: `_` before every capital
      that starts a word, then lower case. */
  lemma CamelToSnakeIsLocal(key: string)
    ensures CamelToSnake(key) == Lower(Insert(Breaks, None, key))
  {
    if forall c :: c in key ==> !IsUpper(c) {
      NothingBreaks(None, key);
    }
    BreakAfterLowerIsLocal(None, key);
    BreakAcronymsIsLocal(None, BreakAfterLower(key));
    PassesCompose(None, key);
  }

  // ---- Snake names that survive ----

  predicate NoCapitals(key: string) {
    forall c :: c in key ==> !IsUpper(c)
  }

  /** `_` before a letter or digit, which the conversion to camelCase takes out. */
  predicate Joint(key: string, i: nat) {
    i + 1 < |key| && key[i] == '_' && LowerOrDigit(key[i + 1])
  }

  /** The conversion back puts this `_` in again: a letter follows it and a letter or
      digit stands before it, which is not itself a capital by then unless the joint
      starts a word of at least two letters. */
  predicate JointReturns(key: string, i: nat)
    requires Joint(key, i)
  {
    && IsLower(key[i + 1])
    && i > 0 && LowerOrDigit(key[i - 1])
    && (i >= 2 && key[i - 2] == '_' && IsLower(key[i - 1]) ==> i + 2 < |key| && IsLower(key[i + 2]))
  }

  predicate JointsReturn(key: string, from: nat) {
    forall i :: from <= i < |key| && Joint(key, i) ==> JointReturns(key, i)
  }

  /** The position does not stand behind the `_` of a joint. */
  predicate Boundary(key: string, i: nat) {
    i <= |key| && (i > 0 ==> !Joint(key, i - 1))
  }

  /** The camel character before a boundary. */
  function CamelBefore(key: string, i: nat): Option<char>
    requires i <= |key|
  {
    if i == 0 then None
    else if i >= 2 && Joint(key, i - 2) then Some(UpperChar(key[i - 1]))
    else Some(key[i - 1])
  }

  lemma CapitalizeWithout(s: string)
    requires '_' !in s
    ensures Capitalize(s) == s
  {
  }

  /** The first camel character of the rest of a name is lower case exactly when its
      first snake character is. */
  lemma CapitalizeFirst(s: string)
    requires NoCapitals(s)
    ensures s != [] <==> Capitalize(s) != []
    ensures s != [] ==> (IsLower(Capitalize(s)[0]) <==> IsLower(s[0]))
  {
  }

  /** What a joint becomes starts a word exactly when the joint returns. */
  lemma JointBreaks(key: string, i: nat)
    requires NoCapitals(key) && Joint(key, i)
    ensures Breaks(CamelBefore(key, i), [UpperChar(key[i + 1])] + Capitalize(key[i + 2..])) <==> JointReturns(key, i)
  {
    var rest := key[i + 2..];
    assert forall j :: 0 <= j < |rest| ==> rest[j] == key[i + 2 + j];
    assert forall c :: c in rest ==> c in key;
    CapitalizeFirst(rest);
    if i > 0 {
      assert key[i - 1] in key;
    }
  }

  lemma LowerInsert(prev: Option<char>, c: char, rest: string)
    ensures Lower(Insert(Breaks, prev, [c] + rest))
         == (if Breaks(prev, [c] + rest) then "_" else "") + [LowerChar(c)] + Lower(Insert(Breaks, Some(c), rest))
  {
    InsertHead(Breaks, prev, c, rest);
  }

  lemma JointRest(key: string, i: nat)
    requires Joint(key, i)
    ensures key[i..] == ['_', key[i + 1]] + key[i + 2..]
    ensures Capitalize(key[i..]) == [UpperChar(key[i + 1])] + Capitalize(key[i + 2..])
  {
    assert key[i..][2..] == key[i + 2..];
  }

  lemma JointsStep(key: string, i: nat, next: nat)
    requires i < next <= |key| && forall j :: i < j < next ==> !Joint(key, j)
    ensures JointsReturn(key, i) <==> (Joint(key, i) ==> JointReturns(key, i)) && JointsReturn(key, next)
  {
  }

  /** Comparing after a letter, with or without its `_`. */
  lemma SameAfterBreak(breaks: bool, c: char, a: string, b: string)
    requires c != '_'
    ensures (if breaks then "_" else "") + [c] + a == ['_', c] + b <==> breaks && a == b
  {
    var left := (if breaks then "_" else "") + [c] + a;
    if breaks {
      assert left[2..] == a && (['_', c] + b)[2..] == b;
    } else {
      assert left[0] == c;
    }
  }

  /** What comes back of the rest of a name. */
  function ReturnedFrom(key: string, i: nat): string
    requires i <= |key|
  {
    Lower(Insert(Breaks, CamelBefore(key, i), Capitalize(key[i..])))
  }

  lemma PlainStep(key: string, i: nat)
    requires NoCapitals(key) && i < |key| && !Joint(key, i) && Boundary(key, i)
    ensures ReturnedFrom(key, i) == [key[i]] + ReturnedFrom(key, i + 1)
  {
    assert key[i] in key;
    assert key[i..][1..] == key[i + 1..];
    LowerInsert(CamelBefore(key, i), key[i], Capitalize(key[i + 1..]));
  }

  lemma JointStep(key: string, i: nat)
    requires NoCapitals(key) && Joint(key, i) && Boundary(key, i)
    ensures ReturnedFrom(key, i)
         == (if JointReturns(key, i) then "_" else "") + [key[i + 1]] + ReturnedFrom(key, i + 2)
  {
    JointRest(key, i);
    JointBreaks(key, i);
    LowerInsert(CamelBefore(key, i), UpperChar(key[i + 1]), Capitalize(key[i + 2..]));
  }

  /** The rest of the name comes back exactly when its joints return. */
  predicate SuffixReturns(key: string, i: nat)
    requires i <= |key|
  {
    ReturnedFrom(key, i) == key[i..] <==> JointsReturn(key, i)
  }

  lemma PlainSuffix(key: string, i: nat)
    requires NoCapitals(key) && i < |key| && !Joint(key, i) && Boundary(key, i) && SuffixReturns(key, i + 1)
    ensures SuffixReturns(key, i)
  {
    PlainStep(key, i);
    JointsStep(key, i, i + 1);
    assert key[i..] == [key[i]] + key[i + 1..];
    SameHead(key[i], ReturnedFrom(key, i + 1), key[i], key[i + 1..]);
  }

  lemma JointSuffix(key: string, i: nat)
    requires NoCapitals(key) && Joint(key, i) && Boundary(key, i) && SuffixReturns(key, i + 2)
    ensures SuffixReturns(key, i)
  {
    JointStep(key, i);
    JointsStep(key, i, i + 2);
    JointRest(key, i);
    SameAfterBreak(JointReturns(key, i), key[i + 1], ReturnedFrom(key, i + 2), key[i + 2..]);
  }

  /** From any boundary, the rest comes back if and only if every joint from there on
      returns. */
  lemma {:induction false} SnakeSuffixRoundTrip(key: string, i: nat)
    requires NoCapitals(key) && Boundary(key, i)
    ensures SuffixReturns(key, i)
    decreases |key| - i
  {
    if i == |key| {
      assert key[i..] == [];
    } else if !Joint(key, i) {
      SnakeSuffixRoundTrip(key, i + 1);
      PlainSuffix(key, i);
    } else {
      SnakeSuffixRoundTrip(key, i + 2);
      JointSuffix(key, i);
    }
  }

  lemma SameHead(c: char, a: string, d: char, b: string)
    ensures [c] + a == [d] + b <==> c == d && a == b
  {
    assert ([c] + a)[1..] == a && ([d] + b)[1..] == b;
    assert ([c] + a)[0] == c && ([d] + b)[0] == d;
  }

  /** A converted name has no capitals. */
  lemma SnakeHasNoCapitals(key: string)
    ensures NoCapitals(CamelToSnake(key))
  {
  }

  /** Any string at all comes back from camelCase if and only if it has no capitals and
      each of its joints returns. */
  lemma SnakeRoundTrip(key: string)
    ensures CamelToSnake(SnakeToCamel(key)) == key <==> NoCapitals(key) && JointsReturn(key, 0)
  {
    if NoCapitals(key) {
      if '_' !in key {
        CapitalizeWithout(key);
      }
      CamelToSnakeIsLocal(SnakeToCamel(key));
      assert key[0..] == key;
      SnakeSuffixRoundTrip(key, 0);
    } else {
      SnakeHasNoCapitals(SnakeToCamel(key));
    }
  }

  /** Names that come back never share a camel name. */
  lemma KeptSnakeNamesDiffer(a: string, b: string)
    requires NoCapitals(a) && JointsReturn(a, 0) && NoCapitals(b) && JointsReturn(b, 0)
    requires SnakeToCamel(a) == SnakeToCamel(b)
    ensures a == b
  {
    SnakeRoundTrip(a);
    SnakeRoundTrip(b);
  }

  /** A conventional snake name: letters and digits in segments joined by single
      `_`, each later segment starting with a letter. */
  predicate SnakeName(key: string) {
    && key != "" && key[0] != '_' && key[|key| - 1] != '_'
    && (forall i :: 0 <= i < |key| ==> LowerOrDigit(key[i]) || key[i] == '_')
    && forall i :: 0 <= i < |key| && key[i] == '_' ==> IsLower(key[i + 1])
  }

  /** A one-letter segment that is neither first nor last, and so ends at `_`. */
  predicate ShortSegmentEnds(key: string, i: nat)
    requires i < |key|
  {
    i >= 2 && key[i] == '_' && key[i - 2] == '_'
  }

  lemma SnakeNameJoint(key: string, i: nat)
    requires SnakeName(key) && i < |key|
    ensures Joint(key, i) <==> key[i] == '_'
    ensures Joint(key, i) ==>
              (JointReturns(key, i) <==> (ShortSegmentEnds(key, i) ==> i + 2 < |key| && IsLower(key[i + 2])))
  {
    if key[i] == '_' {
      assert key[i - 1] != '_';
    }
  }

  lemma SnakeNameLower(key: string)
    requires SnakeName(key)
    ensures NoCapitals(key)
  {
    forall c | c in key ensures !IsUpper(c) {
      var i :| 0 <= i < |key| && key[i] == c;
    }
  }

  /** Every one-letter segment between two others is followed by a segment whose second
      character is a letter. */
  predicate ShortSegmentsKept(key: string) {
    forall i :: 0 <= i < |key| && ShortSegmentEnds(key, i) ==> i + 2 < |key| && IsLower(key[i + 2])
  }

  /** For a conventional name that is when it comes back. */
  lemma ConventionalRoundTrip(key: string)
    requires SnakeName(key)
    ensures CamelToSnake(SnakeToCamel(key)) == key <==> ShortSegmentsKept(key)
  {
    SnakeRoundTrip(key);
    SnakeNameLower(key);
    forall i | 0 <= i < |key|
      ensures (Joint(key, i) ==> JointReturns(key, i)) <==> (ShortSegmentEnds(key, i) ==> i + 2 < |key| && IsLower(key[i + 2]))
    {
      SnakeNameJoint(key, i);
    }
  }

  // ---- Camel names that survive ----

  /** The capital at a position starts a word. */
  predicate WordStart(key: string, i: nat)
    requires i < |key|
  {
    && i > 0
    && (LowerOrDigit(key[i - 1]) || (IsUpper(key[i - 1]) && i + 1 < |key| && IsLower(key[i + 1])))
  }

  function Before(key: string, i: nat): Option<char>
    requires i <= |key|
  {
    if i == 0 then None else Some(key[i - 1])
  }

  predicate CapitalsStartWords(key: string, from: nat) {
    forall i :: from <= i < |key| && IsUpper(key[i]) ==> WordStart(key, i)
  }

  lemma BreaksAreWordStarts(key: string, i: nat)
    requires i < |key|
    ensures Breaks(Before(key, i), key[i..]) <==> IsUpper(key[i]) && WordStart(key, i)
  {
  }

  lemma CapitalizeStep(breaks: bool, c: char, rest: string)
    requires c != '_' && (breaks ==> IsUpper(c))
    ensures Capitalize((if breaks then "_" else "") + [LowerChar(c)] + rest)
         == [if breaks then c else LowerChar(c)] + Capitalize(rest)
  {
    var text := (if breaks then "_" else "") + [LowerChar(c)] + rest;
    if breaks {
      assert text[2..] == rest;
    } else {
      assert text[1..] == rest;
    }
  }

  /** No `_` from a position on stands before a letter or digit. */
  predicate NoJoints(key: string, from: nat) {
    forall i :: from <= i < |key| ==> !Joint(key, i)
  }

  /** What comes back of the rest of a camel name. */
  function CamelFrom(key: string, i: nat): string
    requires i <= |key|
  {
    Capitalize(Lower(Insert(Breaks, Before(key, i), key[i..])))
  }

  lemma LetterStep(key: string, i: nat)
    requires i < |key| && key[i] != '_'
    ensures CamelFrom(key, i)
         == [if IsUpper(key[i]) && WordStart(key, i) then key[i] else LowerChar(key[i])] + CamelFrom(key, i + 1)
  {
    var rest := Lower(Insert(Breaks, Some(key[i]), key[i + 1..]));
    assert key[i..] == [key[i]] + key[i + 1..];
    LowerInsert(Before(key, i), key[i], key[i + 1..]);
    BreaksAreWordStarts(key, i);
    CapitalizeStep(Breaks(Before(key, i), key[i..]), key[i], rest);
  }

  /** `_` stays unless a letter or digit follows it, which then takes its place. */
  lemma UnderscoreStep(key: string, i: nat)
    requires i < |key| && key[i] == '_'
    ensures if i + 1 < |key| && (LowerOrDigit(key[i + 1]) || IsUpper(key[i + 1])) then CamelFrom(key, i)[..1] != "_"
            else CamelFrom(key, i) == ['_'] + CamelFrom(key, i + 1)
  {
    var rest := Lower(Insert(Breaks, Some('_'), key[i + 1..]));
    assert key[i..] == ['_'] + key[i + 1..];
    LowerInsert(Before(key, i), '_', key[i + 1..]);
    assert (['_'] + rest)[1..] == rest;
    if i + 1 < |key| {
      FirstOfInsert(Breaks, Some('_'), key[i + 1..]);
      assert rest[0] == LowerChar(key[i + 1]);
    } else {
      assert key[i + 1..] == [];
    }
  }

  lemma {:induction false} CamelSuffixRoundTrip(key: string, i: nat)
    requires i <= |key|
    ensures CamelFrom(key, i) == key[i..] <==> CapitalsStartWords(key, i) && NoJoints(key, i)
    decreases |key| - i
  {
    if i == |key| {
      assert key[i..] == [];
    } else {
      CamelSuffixRoundTrip(key, i + 1);
      assert key[i..] == [key[i]] + key[i + 1..];
      if key[i] != '_' {
        LetterStep(key, i);
        SameHead(if IsUpper(key[i]) && WordStart(key, i) then key[i] else LowerChar(key[i]), CamelFrom(key, i + 1),
                 key[i], key[i + 1..]);
      } else {
        UnderscoreStep(key, i);
        SameHead('_', CamelFrom(key, i + 1), '_', key[i + 1..]);
        if i + 1 < |key| && (LowerOrDigit(key[i + 1]) || IsUpper(key[i + 1])) {
          assert key[i..][..1] == "_";
          assert Joint(key, i) || (IsUpper(key[i + 1]) && !WordStart(key, i + 1));
        }
      }
    }
  }

  /** Any string at all comes back from snake_case if and only if every capital in it
      starts a word and no `_` in it stands before a lower-case letter or digit. */
  lemma CamelRoundTrip(key: string)
    ensures SnakeToCamel(CamelToSnake(key)) == key <==> CapitalsStartWords(key, 0) && NoJoints(key, 0)
  {
    CamelToSnakeIsLocal(key);
    if '_' !in CamelToSnake(key) {
      CapitalizeWithout(CamelToSnake(key));
    }
    assert key[0..] == key;
    CamelSuffixRoundTrip(key, 0);
  }

  /** Two names that do not come back: a one-letter segment before another, and two
      capitals that no lower-case letter follows. */
  lemma NotEveryNameComesBack()
    ensures CamelToSnake(SnakeToCamel("a_b_c")) != "a_b_c"
    ensures SnakeToCamel(CamelToSnake("aBC")) != "aBC"
  {
    assert Joint("a_b_c", 3) && !JointReturns("a_b_c", 3);
    SnakeRoundTrip("a_b_c");
    assert IsUpper("aBC"[2]) && !WordStart("aBC", 2);
    CamelRoundTrip("aBC");
  }
}
