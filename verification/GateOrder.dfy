/** The canonical order of recovery actions, and the lists put in that order. */
module GateOrder {
  import opened Basics
  import opened HumanGates
  import ChoiceAgreement
  import QuestionChoices

  const GATE_ACTION_ORDER: seq<string> := [
    "send_back", "retry_assessment", "retry", "recheck", "replan", "pass", "fail", "explicit_waiver"]

  datatype OrderError = NotDistinctMembers

  /** The requested actions in canonical order. */
  function Ordered(order: seq<string>, actions: seq<string>): Result<seq<string>, OrderError> {
    if Distinct(actions) && forall a :: a in actions ==> a in order then
      Ok(Filter((a: string) => a in actions, order))
    else Err(NotDistinctMembers)
  }

  lemma {:induction false} FilterKeepsLength(order: seq<string>, actions: seq<string>)
    requires Distinct(order) && Distinct(actions) && forall a :: a in actions ==> a in order
    ensures |Filter((a: string) => a in actions, order)| == |actions|
    decreases order
  {
    NonEmptyWithin(actions, order);
    if order == [] {
    } else if order[0] in actions {
      var k :| 0 <= k < |actions| && actions[k] == order[0];
      var others := actions[..k] + actions[k + 1..];
      Without(actions, k);
      FilterKeepsLength(order[1..], others);
      ChoiceAgreement.FilterAgrees((a: string) => a in others, (a: string) => a in actions, order[1..]);
    } else {
      FilterKeepsLength(order[1..], actions);
    }
  }

  /** A distinct list without one element. */
  lemma Without(s: seq<string>, k: nat)
    requires Distinct(s) && k < |s|
    ensures var others := s[..k] + s[k + 1..];
            Distinct(others) && forall a :: a in others <==> a in s && a != s[k]
  {
    var others := s[..k] + s[k + 1..];
    forall a | a in s && a != s[k] ensures a in others {
      var i :| 0 <= i < |s| && s[i] == a;
      assert others[if i < k then i else i - 1] == a;
    }
    forall a | a in others ensures a in s && a != s[k] {
      var i :| 0 <= i < |others| && others[i] == a;
      assert s[if i < k then i else i + 1] == a;
    }
    forall i, j | 0 <= i < j < |others| ensures others[i] != others[j] {
      assert others[i] == s[if i < k then i else i + 1] && others[j] == s[if j < k then j else j + 1];
    }
  }

  /** Ordering fails exactly on repeated or unknown actions; otherwise its result is
      the one subsequence of the canonical order with the requested actions. */
  lemma OrderedIsCanonical(order: seq<string>, actions: seq<string>)
    requires Distinct(order)
    ensures Ordered(order, actions).Err? <==> !Distinct(actions) || exists a :: a in actions && a !in order
    ensures Ordered(order, actions).Ok? ==>
              var r := Ordered(order, actions).value;
              && |r| == |actions| && (forall a :: a in r <==> a in actions)
              && Subsequence(r, order)
              && forall other :: Subsequence(other, order) && (forall a :: a in other <==> a in actions) ==> other == r
  {
    if Ordered(order, actions).Ok? {
      var r := Ordered(order, actions).value;
      FilterKeepsLength(order, actions);
      FilterIsSubsequence((a: string) => a in actions, order);
      forall other | Subsequence(other, order) && forall a :: a in other <==> a in actions ensures other == r {
        ChoiceAgreement.SubsequenceIsFilter(other, order);
        ChoiceAgreement.FilterAgrees((a: string) => a in other, (a: string) => a in actions, order);
      }
    }
  }

  /** Ordering forgets the order of its argument and changes nothing already in
      order. */
  lemma OrderedIsStable(order: seq<string>, a: seq<string>, b: seq<string>)
    requires Distinct(order) && Ordered(order, a).Ok? && Ordered(order, b).Ok?
    requires forall x :: x in a <==> x in b
    ensures Ordered(order, a) == Ordered(order, b)
    ensures Ordered(order, Ordered(order, a).value) == Ordered(order, a)
  {
    OrderedIsCanonical(order, a);
    OrderedIsCanonical(order, b);
    var r := Ordered(order, a).value;
    QuestionChoices.SubsequenceDistinct(r, order);
    OrderedIsCanonical(order, r);
  }

  lemma ShippedOrderDistinct()
    ensures Distinct(GATE_ACTION_ORDER)
  {
  }
}
