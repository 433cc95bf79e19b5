/** Whether a pairing command opens a session, read off its words before the command
    is parsed. */
module PairingCommand {
  import opened Basics

  /** The options that take the next word as their value, and the actions. */
  datatype Words = Words(valueOptions: seq<string>, actions: seq<string>)

  const SHIPPED := Words(
    ["--remote", "--branch", "--merge-mode", "--deploy-mode", "--approve-source-oid", "--approve-origin-oid"],
    ["host", "join", "leave", "close", "status", "admit", "members", "pending", "kick", "invite", "scope", "policy",
     "publication", "integrate", "abandon-integration", "hold", "resume", "merge", "deploy", "auto"])

  predicate IsOption(w: Words, arg: string) {
    arg in w.valueOptions || (arg != "" && arg[0] == '-')
  }

  /** The words of a command in groups: an option with the value it takes, an option
      whose value is missing at the end, an option alone, or a positional word. */
  datatype Group =
    | Valued(option: string, value: string)
    | Dangling(option: string)
    | Plain(option: string)
    | Positional(word: string)

  predicate GroupOf(w: Words, g: Group) {
    match g
    case Valued(option, value) => option in w.valueOptions
    case Dangling(option) => option in w.valueOptions
    case Plain(option) => option !in w.valueOptions && option != "" && option[0] == '-'
    case Positional(word) => !IsOption(w, word)
  }

  function GroupWords(g: Group): seq<string> {
    match g
    case Valued(option, value) => [option, value]
    case Dangling(option) => [option]
    case Plain(option) => [option]
    case Positional(word) => [word]
  }

  function Spell(groups: seq<Group>): seq<string> {
    if groups == [] then [] else GroupWords(groups[0]) + Spell(groups[1..])
  }

  /** Groups of the command's grammar, with a value missing only at the end. */
  predicate Grammatical(w: Words, groups: seq<Group>) {
    groups == [] || (&& GroupOf(w, groups[0])
                     && (groups[0].Dangling? ==> |groups| == 1)
                     && Grammatical(w, groups[1..]))
  }

  /** Every command has a grouping. */
  function Grouped(w: Words, args: seq<string>): (groups: seq<Group>)
    ensures Grammatical(w, groups) && Spell(groups) == args
    decreases |args|
  {
    if args == [] then []
    else if args[0] in w.valueOptions then
      if |args| == 1 then [Dangling(args[0])] else [Valued(args[0], args[1])] + Grouped(w, args[2..])
    else if IsOption(w, args[0]) then [Plain(args[0])] + Grouped(w, args[1..])
    else [Positional(args[0])] + Grouped(w, args[1..])
  }

  /** The first word that is neither an option nor an option's value. */
  function FirstPositional(groups: seq<Group>): Option<string> {
    if groups == [] then None
    else if groups[0].Positional? then Some(groups[0].word)
    else FirstPositional(groups[1..])
  }

  /** A session opens without an action, and by `host`, `join` or an invite code. */
  predicate Opens(w: Words, word: Option<string>) {
    word.None? || word.value == "host" || word.value == "join" || word.value !in w.actions
  }

  /** Whether the words from a position on open a session. */
  predicate OpensFrom(w: Words, args: seq<string>, from: nat)
    decreases |args| - from
  {
    if from >= |args| then true
    else if args[from] in w.valueOptions then OpensFrom(w, args, from + 2)
    else if IsOption(w, args[from]) then OpensFrom(w, args, from + 1)
    else Opens(w, Some(args[from]))
  }

  /** The scan as the code runs it, stepping over the value of an option. */
  method OpensSession(w: Words, args: seq<string>) returns (opens: bool)
    ensures opens == OpensFrom(w, args, 0)
  {
    var index := 0;
    while index < |args|
      invariant OpensFrom(w, args, 0) == OpensFrom(w, args, index)
    {
      var arg := args[index];
      if arg in w.valueOptions {
        index := index + 2;
      } else if arg != "" && arg[0] == '-' {
        index := index + 1;
      } else {
        return arg == "host" || arg == "join" || arg !in w.actions;
      }
    }
    return true;
  }

  lemma {:induction false} ScanSuffix(w: Words, before: seq<string>, args: seq<string>, from: nat)
    ensures OpensFrom(w, before + args, |before| + from) == OpensFrom(w, args, from)
    decreases |args| - from
  {
    if from < |args| {
      assert (before + args)[|before| + from] == args[from];
      ScanSuffix(w, before, args, from + 2);
      ScanSuffix(w, before, args, from + 1);
    }
  }

  /** However a command's words are grouped, the scan judges its first positional word
      and no other: not an option, an option's value, or anything after it.  A session
      opens without one, and by any word but an action other than `host` and `join`. */
  lemma {:induction false} ScanFindsFirstPositional(w: Words, groups: seq<Group>)
    requires Grammatical(w, groups)
    ensures OpensFrom(w, Spell(groups), 0) <==>
              match FirstPositional(groups)
              case None => true
              case Some(word) => word in w.actions ==> word == "host" || word == "join"
  {
    if groups != [] {
      var rest := Spell(groups[1..]);
      var head := GroupWords(groups[0]);
      assert (head + rest)[0] == head[0];
      if !groups[0].Positional? {
        ScanFindsFirstPositional(w, groups[1..]);
        ScanSuffix(w, head, rest, 0);
      }
    }
  }

  lemma ShippedValueOption(i: nat)
    requires i < |SHIPPED.valueOptions|
    ensures SHIPPED.valueOptions[i] != "" && SHIPPED.valueOptions[i][0] == '-'
  {
  }

  lemma ShippedAction(i: nat)
    requires i < |SHIPPED.actions|
    ensures SHIPPED.actions[i] != "" && SHIPPED.actions[i][0] != '-'
  {
  }

  /** In the shipped table no action reads as an option. */
  lemma ActionIsNoOption(action: string)
    requires action in SHIPPED.actions
    ensures !IsOption(SHIPPED, action)
  {
    var i :| 0 <= i < |SHIPPED.actions| && SHIPPED.actions[i] == action;
    ShippedAction(i);
    if action in SHIPPED.valueOptions {
      var k :| 0 <= k < |SHIPPED.valueOptions| && SHIPPED.valueOptions[k] == action;
      ShippedValueOption(k);
      assert false;
    }
  }

  /** A command that starts with a shipped action opens a session exactly when the
      action is `host` or `join`. */
  lemma ShippedActionDecides(action: string, rest: seq<string>)
    requires action in SHIPPED.actions
    ensures OpensFrom(SHIPPED, [action] + rest, 0) <==> action == "host" || action == "join"
  {
    ActionIsNoOption(action);
    FirstWordDecides(SHIPPED, action, rest);
  }

  lemma FirstWordDecides(w: Words, word: string, rest: seq<string>)
    requires !IsOption(w, word)
    ensures OpensFrom(w, [word] + rest, 0) <==> Opens(w, Some(word))
  {
    assert ([word] + rest)[0] == word;
  }
}
