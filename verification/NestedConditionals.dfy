/** What the search for nested profile conditionals really finds: the conditionals, and
    the property tables that look like one. */
module NestedConditionals {
  import opened Basics
  import opened JsonSchema
  import opened HandoffPolicy
  import opened HandoffProjection
  import opened ProjectionLaws

  /** A conditional on the profile at this node or in any subschema. */
  predicate HasConditional(s: Schema)
    decreases s
  {
    || ProfileRule(s).Some?
    || (s.properties.Table? && exists k :: k in s.properties.entries && HasConditional(s.properties.entries[k]))
    || (s.additional.Matching? && HasConditional(s.additional.extra))
    || SlotHasConditional(s.items)
    || ListHasConditional(s.allOf) || ListHasConditional(s.anyOf) || ListHasConditional(s.oneOf)
    || SlotHasConditional(s.negated)
    || SlotHasConditional(s.cond) || SlotHasConditional(s.then_) || SlotHasConditional(s.else_)
  }

  predicate SlotHasConditional(slot: Slot)
    decreases slot
  {
    slot.Present? && HasConditional(slot.schema)
  }

  predicate ListHasConditional(list: Slots)
    decreases list
  {
    list.List? && exists i :: 0 <= i < |list.schemas| && HasConditional(list.schemas[i])
  }

  /** The node's table has a property called `if` whose schema lists `profile`. */
  predicate IfTable(t: Table) {
    t.Table? && "if" in t.entries && Listed(t.entries["if"].properties, "profile")
  }

  /** Such a table at this node or in any subschema. */
  predicate HasIfTable(s: Schema)
    decreases s
  {
    || IfTable(s.properties)
    || (s.properties.Table? && exists k :: k in s.properties.entries && HasIfTable(s.properties.entries[k]))
    || (s.additional.Matching? && HasIfTable(s.additional.extra))
    || SlotHasIfTable(s.items)
    || ListHasIfTable(s.allOf) || ListHasIfTable(s.anyOf) || ListHasIfTable(s.oneOf)
    || SlotHasIfTable(s.negated)
    || SlotHasIfTable(s.cond) || SlotHasIfTable(s.then_) || SlotHasIfTable(s.else_)
  }

  predicate SlotHasIfTable(slot: Slot)
    decreases slot
  {
    slot.Present? && HasIfTable(slot.schema)
  }

  predicate ListHasIfTable(list: Slots)
    decreases list
  {
    list.List? && exists i :: 0 <= i < |list.schemas| && HasIfTable(list.schemas[i])
  }

  lemma {:induction false} SlotSearch(slot: Slot)
    ensures SlotHasConstraint(slot) <==> SlotHasConditional(slot) || SlotHasIfTable(slot)
    decreases slot
  {
    if slot.Present? {
      SearchFindsExactly(slot.schema);
    }
  }

  lemma {:induction false} ListSearch(list: Slots)
    ensures ListHasConstraint(list) <==> ListHasConditional(list) || ListHasIfTable(list)
    decreases list
  {
    if list.List? {
      forall i | 0 <= i < |list.schemas|
        ensures HasProfileConstraint(list.schemas[i]) <==> HasConditional(list.schemas[i]) || HasIfTable(list.schemas[i])
      {
        SearchFindsExactly(list.schemas[i]);
      }
    }
  }

  /** A nested conditional or a nested table that looks like one. */
  predicate EntriesFound(t: Table) {
    t.Table? && exists k :: k in t.entries && (HasConditional(t.entries[k]) || HasIfTable(t.entries[k]))
  }

  lemma {:induction false} EntriesSearch(t: Table)
    ensures EntriesHaveConstraint(t) <==> EntriesFound(t)
    decreases t
  {
    if t.Table? {
      forall k | k in t.entries
        ensures HasProfileConstraint(t.entries[k]) <==> HasConditional(t.entries[k]) || HasIfTable(t.entries[k])
      {
        SearchFindsExactly(t.entries[k]);
      }
    }
  }

  /** The search finds a schema if and only if it has a conditional on the profile at
      some depth, or a property table at some depth that has an entry called `if`
      listing `profile`. */
  lemma {:induction false} SearchFindsExactly(s: Schema)
    ensures HasProfileConstraint(s) <==> HasConditional(s) || HasIfTable(s)
    decreases s
  {
    EntriesSearch(s.properties);
    if s.additional.Matching? {
      SearchFindsExactly(s.additional.extra);
    }
    SlotSearch(s.items);
    ListSearch(s.allOf);
    ListSearch(s.anyOf);
    ListSearch(s.oneOf);
    SlotSearch(s.negated);
    SlotSearch(s.cond);
    SlotSearch(s.then_);
    SlotSearch(s.else_);
  }

  /** The code refuses a node if and only if one of its properties or its items has a
      conditional on the profile or such a table, or its own rule has an unknown form. */
  lemma RefusedExactly(s: Schema)
    ensures Refused(s) <==>
              || EntriesFound(s.properties)
              || SlotHasConditional(s.items) || SlotHasIfTable(s.items)
              || (ProfileRule(s).Some? && !SupportedRule(ProfileRule(s).value))
  {
    EntriesSearch(s.properties);
    SlotSearch(s.items);
  }

  function Holding(key: string, content: Schema): Schema {
    EMPTY_SCHEMA.(properties := Table(map[key := content]))
  }

  /** A form with a property called `if`: it has no conditional anywhere, and the
      projection still fails on it. */
  lemma FormWithIfFails(profiles: seq<Policy>)
    ensures var s := Holding("form", Holding("if", Holding("profile", EMPTY_SCHEMA)));
            !HasConditional(s) && Project(profiles, s) == Err(NestedConstraint)
  {
    var inner := Holding("if", Holding("profile", EMPTY_SCHEMA));
    var s := Holding("form", inner);
    assert inner.properties.entries["if"] == Holding("profile", EMPTY_SCHEMA);
    assert Listed(inner.properties.entries["if"].properties, "profile");
    assert "form" in s.properties.entries && HasProfileConstraint(s.properties.entries["form"]);
    NoConditionalInside("profile", EMPTY_SCHEMA);
    NoConditionalInside("if", Holding("profile", EMPTY_SCHEMA));
    NoConditionalInside("form", inner);
  }

  lemma NoConditionalInside(key: string, content: Schema)
    requires !HasConditional(content)
    ensures !HasConditional(Holding(key, content))
  {
  }
}
