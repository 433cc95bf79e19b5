/** Hash-reference selectors: `#alias`, with or without a range of lines. */
module HashSelectors {
  import opened Basics
  import opened Text

  datatype Lines = Lines(start: int, end: int)

  datatype Selector = Selector(ref: string, lines: Option<Lines>)

  predicate AliasChar(c: char) {
    IsDigit(c) || IsLower(c)
  }

  /** `#` and four to twelve letters and digits. */
  predicate AliasPattern(s: string) {
    && 5 <= |s| <= 13 && s[0] == '#'
    && forall i :: 1 <= i < |s| ==> AliasChar(s[i])
  }

  function WithHash(s: string): string {
    if s != "" && s[0] == '#' then s else "#" + s
  }

  function NormalizeAlias(value: string): string {
    var raw := Lower(Trim(value));
    if raw == "" then "" else WithHash(raw)
  }

  predicate IsAlias(value: string) {
    AliasPattern(NormalizeAlias(value))
  }

  // ---- Decimal numbers ----

  predicate Digits(s: string) {
    s != "" && forall c :: c in s ==> IsDigit(c)
  }

  function DigitValue(c: char): (d: nat)
    ensures IsDigit(c) ==> d < 10
  {
    if IsDigit(c) then c as nat - '0' as nat else 0
  }

  /** `Number` of a run of digits; leading zeros do not matter. */
  function Value(s: string): nat {
    if s == "" then 0 else 10 * Value(s[..|s| - 1]) + DigitValue(s[|s| - 1])
  }

  function Decimal(n: nat): (s: string)
    ensures Digits(s)
  {
    var last := [('0' as int + n % 10) as char];
    if n < 10 then last else Decimal(n / 10) + last
  }

  lemma {:induction false} DecimalRoundTrip(n: nat)
    ensures Value(Decimal(n)) == n
  {
    var s := Decimal(n);
    if n >= 10 {
      DecimalRoundTrip(n / 10);
      assert s[..|s| - 1] == Decimal(n / 10);
    } else {
      assert Value(s[..0]) == 0;
    }
  }

  /** A number is written without leading zeros. */
  lemma {:induction false} DecimalIsShortest(n: nat)
    ensures Decimal(n)[0] == '0' <==> n == 0
    ensures n == 0 ==> Decimal(n) == "0"
  {
    if n >= 10 {
      DecimalIsShortest(n / 10);
      assert Decimal(n)[0] == Decimal(n / 10)[0];
    }
  }

  /** Leading zeros do not change a number. */
  lemma {:induction false} LeadingZero(s: string)
    ensures Value("0" + s) == Value(s)
  {
    if s == "" {
      assert ("0" + s)[..0] == "";
    } else {
      LeadingZero(s[..|s| - 1]);
      assert ("0" + s)[..|s|] == "0" + s[..|s| - 1];
    }
  }

  // ---- Parsing and formatting ----

  function DropL(s: string): string {
    if s != "" && s[0] == 'l' then s[1..] else s
  }

  /** `l?(\d+)-l?(\d+)`. */
  function ParseLines(s: string): Option<Lines> {
    var dash := IndexOf(s, '-');
    if dash == -1 then None
    else
      var (from, to) := (DropL(s[..dash]), DropL(s[dash + 1..]));
      if Digits(from) && Digits(to) then Some(Lines(Value(from), Value(to))) else None
  }

  predicate ValidLines(l: Lines) {
    1 <= l.start <= l.end
  }

  function ParseText(text: string): Option<Selector> {
    var colon := IndexOf(text, ':');
    if colon == -1 then
      if AliasPattern(text) then Some(Selector(text, None)) else None
    else if !AliasPattern(text[..colon]) then None
    else match ParseLines(text[colon + 1..])
      case None => None
      case Some(l) => if ValidLines(l) then Some(Selector(text[..colon], Some(l))) else None
  }

  function Parse(value: string): Option<Selector> {
    ParseText(WithHash(Lower(Trim(value))))
  }

  /** The empty string stands for a selector that cannot be written. */
  function Format(ref: string, lines: Option<Lines>): string {
    var alias := NormalizeAlias(ref);
    if !IsAlias(alias) then ""
    else match lines
      case None => alias
      case Some(l) => if ValidLines(l) then alias + ":L" + Decimal(l.start) + "-L" + Decimal(l.end) else ""
  }

  // ---- The grammar ----

  /** `l?(\d+)` with a number. */
  predicate NumberText(s: string, n: int) {
    || (Digits(s) && n == Value(s))
    || (s != "" && s[0] == 'l' && Digits(s[1..]) && n == Value(s[1..]))
  }

  /** The part of a selector after its alias, as the pattern describes it. */
  ghost predicate LinesText(s: string, l: Lines) {
    exists from: string, to: string :: s == from + "-" + to && NumberText(from, l.start) && NumberText(to, l.end)
  }

  /** The texts of a selector: the whole pattern with the checks on the numbers. */
  ghost predicate SelectorText(text: string, s: Selector) {
    && AliasPattern(s.ref)
    && match s.lines
       case None => text == s.ref
       case Some(l) => ValidLines(l) && RangeText(text, s.ref, l)
  }

  ghost predicate RangeText(text: string, alias: string, l: Lines) {
    exists r :: text == alias + ":" + r && LinesText(r, l)
  }

  lemma {:induction false} FirstAt(a: string, c: char, b: string)
    requires c !in a
    ensures IndexOf(a + [c] + b, c) == |a|
    ensures (a + [c] + b)[..|a|] == a && (a + [c] + b)[|a| + 1..] == b
  {
    if a != [] {
      assert (a + [c] + b)[1..] == a[1..] + [c] + b;
      FirstAt(a[1..], c, b);
    }
  }

  lemma AliasHasNoColon(s: string)
    requires AliasPattern(s)
    ensures ':' !in s
  {
  }

  lemma NumberTextDrops(s: string, n: int)
    ensures NumberText(s, n) <==> Digits(DropL(s)) && n == Value(DropL(s))
    ensures NumberText(s, n) ==> '-' !in s
  {
    if Digits(s) {
      assert s[0] in s;
    }
  }

  lemma ParsedLinesText(s: string, l: Lines)
    requires ParseLines(s) == Some(l)
    ensures LinesText(s, l)
  {
    var dash := IndexOf(s, '-');
    var from, to := s[..dash], s[dash + 1..];
    NumberTextDrops(from, l.start);
    NumberTextDrops(to, l.end);
    assert s == from + "-" + to;
  }

  lemma LinesTextParses(from: string, to: string, l: Lines)
    requires NumberText(from, l.start) && NumberText(to, l.end)
    ensures ParseLines(from + "-" + to) == Some(l)
  {
    NumberTextDrops(from, l.start);
    NumberTextDrops(to, l.end);
    FirstAt(from, '-', to);
  }

  /** Parsing the range decides its grammar. */
  lemma ParseLinesIffGrammar(s: string, l: Lines)
    ensures ParseLines(s) == Some(l) <==> LinesText(s, l)
  {
    if ParseLines(s) == Some(l) {
      ParsedLinesText(s, l);
    }
    if from: string, to: string :| s == from + "-" + to && NumberText(from, l.start) && NumberText(to, l.end) {
      LinesTextParses(from, to, l);
    }
  }

  /** The text splits at its first colon into the alias and a range that parses. */
  predicate Splits(text: string, alias: string, l: Lines) {
    var colon := IndexOf(text, ':');
    colon >= 0 && text[..colon] == alias && ParseLines(text[colon + 1..]) == Some(l)
  }

  lemma JoinedSplits(text: string, alias: string, r: string, l: Lines)
    requires ':' !in alias && text == alias + ":" + r && LinesText(r, l)
    ensures Splits(text, alias, l)
  {
    FirstAt(alias, ':', r);
    ParseLinesIffGrammar(r, l);
  }

  lemma SplitJoins(text: string, alias: string, l: Lines)
    requires Splits(text, alias, l)
    ensures RangeText(text, alias, l)
  {
    var r := text[IndexOf(text, ':') + 1..];
    assert text == alias + ":" + r;
    ParseLinesIffGrammar(r, l);
  }

  /** A text with a colon has just one split into alias and range. */
  lemma RangeTextSplits(text: string, alias: string, l: Lines)
    requires AliasPattern(alias)
    ensures RangeText(text, alias, l) <==> Splits(text, alias, l)
  {
    AliasHasNoColon(alias);
    if r :| text == alias + ":" + r && LinesText(r, l) {
      JoinedSplits(text, alias, r, l);
    }
    if Splits(text, alias, l) {
      SplitJoins(text, alias, l);
    }
  }

  lemma ParseTextIffGrammar(text: string, s: Selector)
    ensures ParseText(text) == Some(s) <==> SelectorText(text, s)
  {
    if AliasPattern(s.ref) {
      AliasHasNoColon(s.ref);
      if s.lines.Some? {
        RangeTextSplits(text, s.ref, s.lines.value);
      }
    }
  }

  /** At most one of a text and the text behind a `#` is a selector's. */
  lemma HashOnce(raw: string, s: Selector)
    ensures SelectorText(WithHash(raw), s) <==> SelectorText(raw, s) || SelectorText("#" + raw, s)
  {
    if SelectorText(raw, s) {
      SelectorStarts(raw, s);
    }
    if SelectorText("#" + raw, s) {
      SelectorStarts("#" + raw, s);
      assert raw != "" ==> ("#" + raw)[1] == raw[0];
    }
  }

  /** A selector's text starts with `#` and then a letter or digit. */
  lemma SelectorStarts(text: string, s: Selector)
    requires SelectorText(text, s)
    ensures |text| >= 2 && text[0] == '#' && AliasChar(text[1])
  {
    if s.lines.Some? {
      var r :| text == s.ref + ":" + r && LinesText(r, s.lines.value);
      assert text[0] == s.ref[0] && text[1] == s.ref[1];
    }
  }

  /** Parsing decides the grammar, and the grammar is unambiguous: a value has the
      selector s if and only if its text, as it is or behind a `#`, is one of the texts
      of s. */
  lemma ParseIffGrammar(value: string, s: Selector)
    ensures Parse(value) == Some(s) <==>
              SelectorText(Lower(Trim(value)), s) || SelectorText("#" + Lower(Trim(value)), s)
  {
    ParseTextIffGrammar(WithHash(Lower(Trim(value))), s);
    HashOnce(Lower(Trim(value)), s);
  }

  /** A reference is an alias if and only if its text matches the pattern, as it is or
      behind a `#`, and that is its normal form. */
  lemma AliasExactly(ref: string, alias: string)
    ensures IsAlias(ref) && NormalizeAlias(ref) == alias <==>
              AliasPattern(alias) && (Lower(Trim(ref)) == alias || "#" + Lower(Trim(ref)) == alias)
  {
    var raw := Lower(Trim(ref));
    if raw != "" {
      assert ("#" + raw)[1] == raw[0];
    }
  }

  // ---- Round trips ----

  lemma PatternIsNormal(s: string)
    requires AliasPattern(s)
    ensures Trim(s) == s && Lower(s) == s && NormalizeAlias(s) == s && IsAlias(s)
  {
    assert AliasChar(s[|s| - 1]);
    TrimmedIsFixed(s);
  }

  lemma LowerDigits(s: string)
    requires Digits(s)
    ensures Lower(s) == s
  {
    forall i | 0 <= i < |s| ensures Lower(s)[i] == s[i] {
      assert s[i] in s;
    }
  }

  function Written(alias: string, l: string, from: string, to: string): string {
    alias + ":" + l + from + "-" + l + to
  }

  lemma LowerWritten(alias: string, from: string, to: string)
    requires AliasPattern(alias) && Digits(from) && Digits(to)
    ensures Lower(Written(alias, "L", from, to)) == Written(alias, "l", from, to)
  {
    PatternIsNormal(alias);
    LowerDigits(from);
    LowerDigits(to);
    LowerConcat(alias + ":" + "L" + from + "-" + "L", to);
    LowerConcat(alias + ":" + "L" + from, "-" + "L");
    LowerConcat(alias + ":" + "L", from);
    LowerConcat(alias, ":" + "L");
    assert Lower(":" + "L") == ":" + "l" && Lower("-" + "L") == "-" + "l";
    assert alias + ":" + "L" + from + "-" + "L" == alias + ":" + "L" + from + ("-" + "L");
    assert alias + ":" + "L" == alias + (":" + "L");
  }

  lemma WrittenTrimmed(alias: string, from: string, to: string)
    requires AliasPattern(alias) && Digits(from) && Digits(to)
    ensures Trim(Written(alias, "L", from, to)) == Written(alias, "L", from, to)
    ensures WithHash(Written(alias, "l", from, to)) == Written(alias, "l", from, to)
  {
    var text := Written(alias, "L", from, to);
    assert text[|text| - 1] == to[|to| - 1] && to[|to| - 1] in to;
    assert text[0] == '#' && Written(alias, "l", from, to)[0] == '#';
    TrimmedIsFixed(text);
  }

  lemma WrittenMatches(alias: string, from: string, to: string, l: Lines)
    requires AliasPattern(alias) && Digits(from) && Digits(to) && ValidLines(l)
    requires l == Lines(Value(from), Value(to))
    ensures SelectorText(Written(alias, "l", from, to), Selector(alias, Some(l)))
  {
    var r := ("l" + from) + "-" + ("l" + to);
    NumberWithL(from);
    NumberWithL(to);
    assert LinesText(r, l);
    assert Written(alias, "l", from, to) == alias + ":" + r;
  }

  lemma NumberWithL(digits: string)
    requires Digits(digits)
    ensures NumberText("l" + digits, Value(digits))
  {
    assert ("l" + digits)[1..] == digits;
  }

  /** A selector can be written exactly when its reference is an alias and its range
      is in order, and then it is read back with the alias normalized. */
  lemma FormatParses(ref: string, lines: Option<Lines>)
    ensures Parse(Format(ref, lines)) ==
              if IsAlias(ref) && (lines.Some? ==> ValidLines(lines.value)) then Some(Selector(NormalizeAlias(ref), lines))
              else None
  {
    var alias := NormalizeAlias(ref);
    if AliasPattern(alias) && (lines.Some? ==> ValidLines(lines.value)) {
      PatternIsNormal(alias);
      if lines.None? {
        ParseIffGrammar(alias, Selector(alias, None));
      } else {
        var from, to := Decimal(lines.value.start), Decimal(lines.value.end);
        FormatIsWritten(ref, lines.value);
        DecimalRoundTrip(lines.value.start);
        DecimalRoundTrip(lines.value.end);
        WrittenTrimmed(alias, from, to);
        LowerWritten(alias, from, to);
        WrittenMatches(alias, from, to, lines.value);
        ParseIffGrammar(Written(alias, "L", from, to), Selector(alias, lines));
      }
    } else {
      NotWritten(ref, lines);
      assert !AliasPattern("#");
    }
  }

  lemma WrittenForm(alias: string, from: string, to: string)
    ensures Written(alias, "L", from, to) == alias + ":L" + from + "-L" + to
  {
    assert alias + ":" + "L" == alias + ":L";
    assert alias + ":L" + from + "-" + "L" == alias + ":L" + from + "-L";
  }

  /** The written form: the normalized alias and, behind a colon, the two line numbers with
      an `L` each. */
  lemma FormatIsWritten(ref: string, l: Lines)
    requires IsAlias(ref) && ValidLines(l)
    ensures Format(ref, None) == NormalizeAlias(ref)
    ensures Format(ref, Some(l)) == Written(NormalizeAlias(ref), "L", Decimal(l.start), Decimal(l.end))
  {
    PatternIsNormal(NormalizeAlias(ref));
    WrittenForm(NormalizeAlias(ref), Decimal(l.start), Decimal(l.end));
  }

  lemma NotWritten(ref: string, lines: Option<Lines>)
    requires !IsAlias(ref) || (lines.Some? && !ValidLines(lines.value))
    ensures Format(ref, lines) == ""
  {
    if IsAlias(NormalizeAlias(ref)) {
      NormalizeTwice(ref);
    }
  }

  lemma LowerKeepsEnds(s: string)
    requires Trimmed(s)
    ensures Trimmed(Lower(s)) && Lower(Lower(s)) == Lower(s)
  {
  }

  lemma WithHashKeeps(s: string)
    requires Trimmed(s) && Lower(s) == s && s != ""
    ensures Trimmed(WithHash(s)) && Lower(WithHash(s)) == WithHash(s) && WithHash(WithHash(s)) == WithHash(s)
  {
    if s[0] != '#' {
      HashPrefixed(s);
    }
  }

  lemma HashPrefixed(s: string)
    requires Lower(s) == s && s != "" && !IsSpace(s[|s| - 1])
    ensures Trimmed("#" + s) && Lower("#" + s) == "#" + s
  {
    var text := "#" + s;
    forall i | 0 <= i < |text| ensures LowerChar(text[i]) == text[i] {
      if i > 0 {
        assert text[i] == Lower(s)[i - 1];
      }
    }
    assert text[|text| - 1] == s[|s| - 1];
  }

  lemma NormalizeTwice(ref: string)
    ensures NormalizeAlias(NormalizeAlias(ref)) == NormalizeAlias(ref)
  {
    var raw := Lower(Trim(ref));
    TrimIsTrimmed(ref);
    LowerKeepsEnds(Trim(ref));
    if raw != "" {
      WithHashKeeps(raw);
      TrimmedIsFixed(WithHash(raw));
    }
  }

  lemma ParsedIsValid(value: string)
    requires Parse(value).Some?
    ensures var s := Parse(value).value; AliasPattern(s.ref) && (s.lines.Some? ==> ValidLines(s.lines.value))
  {
    ParseIffGrammar(value, Parse(value).value);
  }

  /** The canonical form of a value that has a selector. */
  function CanonicalForm(value: string): string
    requires Parse(value).Some?
  {
    Format(Parse(value).value.ref, Parse(value).value.lines)
  }

  /** The canonical form has the same selector and is its own canonical form. */
  lemma CanonicalFormIsStable(value: string)
    requires Parse(value).Some?
    ensures Parse(CanonicalForm(value)) == Parse(value)
    ensures CanonicalForm(CanonicalForm(value)) == CanonicalForm(value)
  {
    var s := Parse(value).value;
    ParsedIsValid(value);
    PatternIsNormal(s.ref);
    FormatParses(s.ref, s.lines);
  }

  /** Two values have one selector if and only if they have one canonical form. */
  lemma SameSelectorIffSameForm(a: string, b: string)
    requires Parse(a).Some? && Parse(b).Some?
    ensures Parse(a) == Parse(b) <==> CanonicalForm(a) == CanonicalForm(b)
  {
    CanonicalFormIsStable(a);
    CanonicalFormIsStable(b);
  }
}
