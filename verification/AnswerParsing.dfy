/** Reading an operator's answer: which choice it selects and what feedback it
    carries.  Choices are given as bare texts. */
module AnswerParsing {
  import opened Basics
  import opened Text
  import opened HumanGates

  /** The choice is the whole text, or the text up to a colon, in any case. */
  predicate Selects(choice: string, text: string) {
    Lower(choice) == Lower(text) || Lower(choice) + ":" <= Lower(text)
  }

  predicate LongestFirst(s: seq<string>) {
    forall i, j :: 0 <= i < j < |s| ==> |s[i]| >= |s[j]|
  }

  /** Inserts before the first element that is not longer: the sort is stable. */
  function Insert(c: string, s: seq<string>): (r: seq<string>)
    ensures |r| == |s| + 1
    ensures forall x :: x in r <==> x == c || x in s
  {
    if s == [] then [c]
    else if |c| >= |s[0]| then [c] + s
    else [s[0]] + Insert(c, s[1..])
  }

  /** `sort((a, b) => b.length - a.length)`. */
  function SortLongestFirst(s: seq<string>): (r: seq<string>)
    ensures |r| == |s|
    ensures forall x :: x in r <==> x in s
  {
    if s == [] then [] else Insert(s[0], SortLongestFirst(s[1..]))
  }

  lemma {:induction false} InsertSorted(c: string, s: seq<string>)
    requires LongestFirst(s)
    ensures LongestFirst(Insert(c, s))
  {
    if s != [] && |c| < |s[0]| {
      InsertSorted(c, s[1..]);
      var rest := Insert(c, s[1..]);
      forall i | 0 <= i < |rest| ensures |rest[i]| <= |s[0]| {
        assert rest[i] in rest;
        if rest[i] != c {
          var j :| 0 <= j < |s[1..]| && s[1..][j] == rest[i];
          assert s[j + 1] == rest[i];
        }
      }
    }
  }

  lemma {:induction false} SortSorts(s: seq<string>)
    ensures LongestFirst(SortLongestFirst(s))
  {
    if s != [] {
      SortSorts(s[1..]);
      InsertSorted(s[0], SortLongestFirst(s[1..]));
    }
  }

  lemma {:induction false} InsertBefore(c: string, s: seq<string>, x: string)
    requires x in s && c !in s && |c| >= |x|
    ensures IndexOf(Insert(c, s), c) < IndexOf(Insert(c, s), x)
  {
    if |c| < |s[0]| {
      InsertBefore(c, s[1..], x);
    }
  }

  lemma {:induction false} InsertKeepsOrder(c: string, s: seq<string>, x: string, y: string)
    requires c != x && c != y && y in s && 0 <= IndexOf(s, x) < IndexOf(s, y)
    ensures IndexOf(Insert(c, s), x) < IndexOf(Insert(c, s), y)
  {
    if |c| < |s[0]| && s[0] != x {
      InsertKeepsOrder(c, s[1..], x, y);
    }
  }

  /** The sort is stable: choices of one length keep their order. */
  lemma {:induction false} SortIsStable(s: seq<string>, x: string, y: string)
    requires Distinct(s) && y in s && |x| == |y| && 0 <= IndexOf(s, x) < IndexOf(s, y)
    ensures IndexOf(SortLongestFirst(s), x) < IndexOf(SortLongestFirst(s), y)
  {
    var tail := SortLongestFirst(s[1..]);
    if x == s[0] {
      InsertBefore(x, tail, y);
    } else {
      SortIsStable(s[1..], x, y);
      InsertKeepsOrder(s[0], tail, x, y);
    }
  }

  function ChoiceFromAnswer(answer: string, choices: seq<Entry>): Option<string> {
    var text := Trim(answer);
    if text == "" then None
    else
      var normal := NormalizeChoices(Some(choices), None);
      var exact := FindFirst((c: string) => Lower(c) == Lower(text), normal);
      if exact.Some? then exact
      else FindFirst((c: string) => Lower(c) + ":" <= Lower(text), SortLongestFirst(normal))
  }

  /** What a text says beside the choice it selects. */
  function FeedbackBeside(choice: Option<string>, text: string): string {
    if choice.None? || Lower(text) == Lower(choice.value) then ""
    else if |choice.value| + 1 > |text| then ""
    else Trim(text[|choice.value| + 1..])
  }

  function ChoiceFeedback(answer: string, choices: seq<Entry>): string {
    var text := Trim(answer);
    FeedbackBeside(ChoiceFromAnswer(text, choices), text)
  }

  // ---- Maximal munch ----

  lemma {:induction false} FirstIsLongest(test: string -> bool, s: seq<string>, other: string)
    requires LongestFirst(s) && other in s && test(other)
    ensures FindFirst(test, s).Some? && |other| <= |FindFirst(test, s).value|
  {
    if !test(s[0]) {
      assert other in s[1..];
      FirstIsLongest(test, s[1..], other);
    } else {
      var i :| 0 <= i < |s| && s[i] == other;
    }
  }

  /** A choice is preferred to another when it is longer, or as long and earlier. */
  predicate Preferred(choices: seq<string>, r: string, c: string) {
    |c| < |r| || (|c| == |r| && IndexOf(choices, r) <= IndexOf(choices, c))
  }

  lemma FirstIsPreferred(test: string -> bool, s: seq<string>, other: string)
    requires Distinct(s) && other in s && test(other)
    ensures FindFirst(test, SortLongestFirst(s)).Some?
    ensures Preferred(s, FindFirst(test, SortLongestFirst(s)).value, other)
  {
    var sorted := SortLongestFirst(s);
    SortSorts(s);
    FirstIsLongest(test, sorted, other);
    var r := FindFirst(test, sorted).value;
    if |r| == |other| && IndexOf(s, other) < IndexOf(s, r) {
      SortIsStable(s, other, r);
    }
  }

  lemma WholeIsPreferred(s: seq<string>, text: string, other: string)
    requires other in s && Selects(other, text)
    requires FindFirst((c: string) => Lower(c) == Lower(text), s).Some?
    ensures Preferred(s, FindFirst((c: string) => Lower(c) == Lower(text), s).value, other)
  {
    var exact := FindFirst((c: string) => Lower(c) == Lower(text), s).value;
    assert |Lower(other)| <= |Lower(text)|;
    if |other| == |exact| {
      SelectedByLength(other, exact, text);
    }
  }

  /** The parsed choice is a longest normalized choice that the text selects, and of these
      the first; there is none exactly when no choice is selected. */
  lemma ParsedIsLongest(answer: string, choices: seq<Entry>)
    ensures var text := Trim(answer);
            var normal := NormalizeChoices(Some(choices), None);
            match ChoiceFromAnswer(answer, choices)
            case None => text == "" || forall c :: c in normal ==> !Selects(c, text)
            case Some(r) => && r in normal && Selects(r, text)
                            && forall c :: c in normal && Selects(c, text) ==> Preferred(normal, r, c)
  {
    var text := Trim(answer);
    var normal := NormalizeChoices(Some(choices), None);
    var whole := (c: string) => Lower(c) == Lower(text);
    var prefix := (c: string) => Lower(c) + ":" <= Lower(text);
    if text != "" {
      var exact := FindFirst(whole, normal);
      if exact.Some? {
        forall c | c in normal && Selects(c, text) ensures Preferred(normal, exact.value, c) {
          WholeIsPreferred(normal, text, c);
        }
      } else {
        var sorted := SortLongestFirst(normal);
        forall c | c in normal && Selects(c, text)
          ensures FindFirst(prefix, sorted).Some? && Preferred(normal, FindFirst(prefix, sorted).value, c)
        {
          FirstIsPreferred(prefix, normal, c);
        }
      }
    }
  }

  /** No two choices differ only in case. */
  predicate CaseDistinct(choices: seq<string>) {
    forall c, d :: c in choices && d in choices && Lower(c) == Lower(d) ==> c == d
  }

  /** Two selected choices of one length are equal up to case. */
  lemma SelectedByLength(c: string, d: string, text: string)
    requires Selects(c, text) && Selects(d, text) && |c| == |d|
    ensures Lower(c) == Lower(d)
  {
    var t := Lower(text);
    assert Lower(c) == t[..|c|] by {
      if Lower(c) + ":" <= t {
        assert t[..|c|] == (Lower(c) + ":")[..|c|];
      }
    }
    assert Lower(d) == t[..|d|] by {
      if Lower(d) + ":" <= t {
        assert t[..|d|] == (Lower(d) + ":")[..|d|];
      }
    }
  }

  /** The parse does not depend on the order of the choices. */
  lemma ParseIgnoresOrder(answer: string, a: seq<Entry>, b: seq<Entry>)
    requires var x, y := NormalizeChoices(Some(a), None), NormalizeChoices(Some(b), None);
             CaseDistinct(x) && forall c :: c in x <==> c in y
    ensures ChoiceFromAnswer(answer, a) == ChoiceFromAnswer(answer, b)
  {
    ParsedIsLongest(answer, a);
    ParsedIsLongest(answer, b);
    var p, q := ChoiceFromAnswer(answer, a), ChoiceFromAnswer(answer, b);
    if p.Some? && q.Some? {
      SelectedByLength(p.value, q.value, Trim(answer));
    }
  }

  // ---- Choice and feedback round trip ----

  lemma AnswerTrims(choice: string, feedback: string)
    requires choice != "" && Trimmed(choice)
    ensures Trim(choice + ":" + feedback) == choice + ":" + TrimEnd(feedback)
  {
    TrimEndPrefix(choice + ":", feedback);
    assert (choice + ":" + TrimEnd(feedback))[0] == choice[0];
  }

  lemma ChoiceSelectsItsAnswer(choice: string, word: string, rest: string)
    requires Lower(word) == Lower(choice)
    ensures Selects(choice, word + ":" + rest)
  {
    LowerConcat(word + ":", rest);
    LowerConcat(word, ":");
    assert Lower(":") == ":";
  }

  lemma SpelledTrimmed(word: string, choice: string)
    requires Lower(word) == Lower(choice) && choice != "" && Trimmed(choice)
    ensures word != "" && Trimmed(word)
  {
    assert |word| == |Lower(word)| && Lower(word)[0] == LowerChar(word[0]);
    var n := |word| - 1;
    assert Lower(word)[n] == LowerChar(word[n]) && Lower(choice)[n] == LowerChar(choice[n]);
    assert Lower(choice)[0] == LowerChar(choice[0]);
    SpaceIsLower(word[0]);
    SpaceIsLower(word[n]);
    SpaceIsLower(choice[0]);
    SpaceIsLower(choice[n]);
  }

  lemma SpaceIsLower(c: char)
    ensures IsSpace(LowerChar(c)) <==> IsSpace(c)
  {
  }

  /** Answering with a choice, in any case, a colon and feedback gives back that choice
      and the trimmed feedback if and only if no longer choice is selected by the text. */
  lemma ChoiceWithFeedbackRoundTrip(word: string, choice: string, feedback: string, choices: seq<Entry>)
    requires var normal := NormalizeChoices(Some(choices), None); choice in normal && CaseDistinct(normal)
    requires Lower(word) == Lower(choice)
    ensures var answer := word + ":" + feedback;
            (ChoiceFromAnswer(answer, choices) == Some(choice) && ChoiceFeedback(answer, choices) == Trim(feedback)) <==>
            forall c :: c in NormalizeChoices(Some(choices), None) && |c| > |choice| ==> !Selects(c, Trim(answer))
  {
    var answer := word + ":" + feedback;
    SpelledTrimmed(word, choice);
    AnswerTrims(word, feedback);
    var text := Trim(answer);
    ChoiceSelectsItsAnswer(choice, word, TrimEnd(feedback));
    ParsedIsLongest(answer, choices);
    var parsed := ChoiceFromAnswer(answer, choices);
    assert parsed.Some?;
    assert |Lower(word)| == |Lower(choice)|;
    if |parsed.value| == |choice| {
      SelectedByLength(parsed.value, choice, text);
      FeedbackIsRest(word, choice, feedback, choices);
    }
  }

  lemma FeedbackAfterColon(choice: string, word: string, rest: string)
    requires |word| == |choice|
    ensures FeedbackBeside(Some(choice), word + ":" + rest) == Trim(rest)
  {
    var text := word + ":" + rest;
    assert |Lower(text)| > |Lower(choice)|;
    assert text[|choice| + 1..] == rest;
  }

  lemma TrimTwice(answer: string)
    ensures Trim(Trim(answer)) == Trim(answer)
  {
    TrimIsTrimmed(answer);
    TrimmedIsFixed(Trim(answer));
  }

  /** Trimming an answer before parsing it changes nothing. */
  lemma ParseTrims(answer: string, choices: seq<Entry>)
    ensures ChoiceFromAnswer(Trim(answer), choices) == ChoiceFromAnswer(answer, choices)
  {
    TrimTwice(answer);
  }

  lemma FeedbackIsRest(word: string, choice: string, feedback: string, choices: seq<Entry>)
    requires word != "" && Trimmed(word) && |word| == |choice|
    requires ChoiceFromAnswer(word + ":" + feedback, choices) == Some(choice)
    ensures ChoiceFeedback(word + ":" + feedback, choices) == Trim(feedback)
  {
    AnswerTrims(word, feedback);
    ParseTrims(word + ":" + feedback, choices);
    FeedbackAfterColon(choice, word, TrimEnd(feedback));
    TrimAfterTrimEnd(feedback);
  }

  /** An answer that is a choice alone, in any case, or that selects none has no
      feedback. */
  lemma NoFeedback(answer: string, choices: seq<Entry>)
    requires var parsed := ChoiceFromAnswer(answer, choices);
             parsed.None? || Lower(Trim(answer)) == Lower(parsed.value)
    ensures ChoiceFeedback(answer, choices) == ""
  {
    ParseTrims(answer, choices);
  }

  /** So a bare colon after a provider-specific retry reads as that retry, not as
      `retry` with feedback. */
  lemma LongerRetryWins(feedback: string)
    ensures ChoiceFromAnswer("retry:codex:" + feedback, Texts(["retry", "retry:codex"])) == Some("retry:codex")
  {
    var both := ["retry", "retry:codex"];
    assert !IsSpace("retry"[0]) && !IsSpace("retry"[4]) && !IsSpace("retry:codex"[0]) && !IsSpace("retry:codex"[10]);
    NormalRoundTrip(both, None);
    AnswerTrims("retry:codex", feedback);
    assert "retry:codex:" + feedback == "retry:codex" + ":" + feedback;
    ChoiceSelectsItsAnswer("retry:codex", "retry:codex", TrimEnd(feedback));
    ParsedIsLongest("retry:codex:" + feedback, Texts(both));
  }
}
