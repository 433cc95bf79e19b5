/** The public form of an internal tool schema: internal-only properties are
    dropped and strings, arrays and budget fields are capped. */
module PublicSchema {
  import opened Basics
  import opened JsonSchema

  const MAX_TEXT := 4096
  const MAX_ELEMENTS := 64

  /** The cap of a budget field, by property name. */
  function Cap(field: string): Option<real> {
    if field == "maxTokens" then Some(6000.0)
    else if field == "limit" then Some(100.0)
    else if field == "maxFiles" then Some(64.0)
    else if field == "depth" || field == "maxDepth" then Some(4.0)
    else None
  }

  predicate Allows(f: Facets, t: JsonType) {
    f.types.Some? && t in f.types.value
  }

  function AtMost<T>(limit: Option<T>, cap: T, less: (T, T) -> bool): T {
    if limit.Some? && less(limit.value, cap) then limit.value else cap
  }

  function PublicFacets(f: Facets, field: string): Facets {
    var strings := if Allows(f, TString)
                   then f.(maxLength := Some(AtMost(f.maxLength, MAX_TEXT, (a, b) => a < b))) else f;
    var arrays := if Allows(f, TArray)
                  then strings.(maxItems := Some(AtMost(f.maxItems, MAX_ELEMENTS, (a, b) => a < b))) else strings;
    if Cap(field).Some? then
      arrays.(minimum := Some(if f.minimum.Some? && f.minimum.value > 1.0 then f.minimum.value else 1.0),
              maximum := Some(AtMost(f.maximum, Cap(field).value, (a, b) => a < b)))
    else arrays
  }

  function Public(s: Schema, field: string): Schema
    decreases s
  {
    Schema(
      PublicFacets(s.facets, field),
      PublicTable(s.properties),
      s.required,
      match s.additional case Matching(extra) => Matching(Public(extra, "")) case _ => s.additional,
      PublicSlot(s.items),
      PublicList(s.allOf), PublicList(s.anyOf), PublicList(s.oneOf),
      PublicSlot(s.negated), PublicSlot(s.cond), PublicSlot(s.then_), PublicSlot(s.else_),
      false)
  }

  function PublicTable(t: Table): Table
    decreases t
  {
    if t.NoTable? then NoTable
    else Table(map k | k in t.entries && !t.entries[k].internalOnly :: Public(t.entries[k], k))
  }

  function PublicSlot(slot: Slot): Slot
    decreases slot
  {
    if slot.Absent? then Absent else Present(Public(slot.schema, ""))
  }

  function PublicList(list: Slots): Slots
    decreases list
  {
    if list.NoList? then NoList else List(PublicSeq(list.schemas))
  }

  function PublicSeq(ss: seq<Schema>): (r: seq<Schema>)
    ensures |r| == |ss|
    ensures forall i :: 0 <= i < |ss| ==> r[i] == Public(ss[i], "")
    decreases ss
  {
    if ss == [] then [] else [Public(ss[0], "")] + PublicSeq(ss[1..])
  }

  // ---- The public schema accepts exactly the accepted values within the limits ----

  predicate HasInternal(t: Table) {
    t.Table? && exists k :: k in t.entries && t.entries[k].internalOnly
  }

  /** No operator that reverses acceptance, and every object that has an
      internal-only property is closed. */
  predicate Narrowable(s: Schema)
    decreases s
  {
    && s.oneOf.NoList? && s.negated.Absent? && s.cond.Absent?
    && (HasInternal(s.properties) ==> s.additional == Allowed(false))
    && (s.properties.Table? ==> forall k :: k in s.properties.entries ==> Narrowable(s.properties.entries[k]))
    && (s.additional.Matching? ==> Narrowable(s.additional.extra))
    && (s.items.Present? ==> Narrowable(s.items.schema))
    && (s.allOf.List? ==> forall i :: 0 <= i < |s.allOf.schemas| ==> Narrowable(s.allOf.schemas[i]))
    && (s.anyOf.List? ==> forall i :: 0 <= i < |s.anyOf.schemas| ==> Narrowable(s.anyOf.schemas[i]))
  }

  /** The public limits, stated on the value: no internal-only property at any
      depth, and every string, array and budget number within its cap. */
  predicate WithinLimits(rx: Regex, s: Schema, field: string, v: Json)
    decreases s
  {
    && ScalarWithin(s.facets, field, v)
    && (v.Obj? ==> FieldsWithin(rx, s, v.fields))
    && ItemsWithin(rx, s.items, v)
    && AllWithin(rx, s.allOf, v)
    && AnyWithin(rx, s.anyOf, v)
  }

  predicate ItemsWithin(rx: Regex, items: Slot, v: Json)
    decreases items
  {
    v.Arr? && items.Present? ==> forall i :: 0 <= i < |v.elems| ==> WithinLimits(rx, items.schema, "", v.elems[i])
  }

  predicate AllWithin(rx: Regex, list: Slots, v: Json)
    decreases list
  {
    list.List? ==> forall i :: 0 <= i < |list.schemas| ==> WithinLimits(rx, list.schemas[i], "", v)
  }

  /** One alternative both accepts the value and finds it within its limits. */
  predicate AnyWithin(rx: Regex, list: Slots, v: Json)
    decreases list
  {
    list.List? ==> exists i ::
      0 <= i < |list.schemas| && Accepts(rx, list.schemas[i], v) && WithinLimits(rx, list.schemas[i], "", v)
  }

  predicate ScalarWithin(f: Facets, field: string, v: Json) {
    && (v.Str? && Allows(f, TString) ==> |v.text| <= MAX_TEXT)
    && (v.Arr? && Allows(f, TArray) ==> |v.elems| <= MAX_ELEMENTS)
    && (v.Number? && Cap(field).Some? ==> 1.0 <= v.num <= Cap(field).value)
  }

  /** The caps in figures, for a scalar under any property name. */
  lemma CapsInFigures(f: Facets, field: string, v: Json)
    ensures ScalarWithin(f, field, v) <==>
              && (v.Str? && Allows(f, TString) ==> |v.text| <= 4096)
              && (v.Arr? && Allows(f, TArray) ==> |v.elems| <= 64)
              && (v.Number? && field == "maxTokens" ==> 1.0 <= v.num <= 6000.0)
              && (v.Number? && field == "limit" ==> 1.0 <= v.num <= 100.0)
              && (v.Number? && field == "maxFiles" ==> 1.0 <= v.num <= 64.0)
              && (v.Number? && field in ["depth", "maxDepth"] ==> 1.0 <= v.num <= 4.0)
  {
    assert "maxTokens"[3] == 'T' && "maxFiles"[3] == 'F' && "maxDepth"[3] == 'D' && "limit"[0] == 'l' && "depth"[0] == 'd';
  }

  predicate FieldsWithin(rx: Regex, s: Schema, fields: map<string, Json>)
    decreases s, 0
  {
    && (s.properties.Table? ==> forall k :: k in fields && k in s.properties.entries ==>
          !s.properties.entries[k].internalOnly && WithinLimits(rx, s.properties.entries[k], k, fields[k]))
    && (s.additional.Matching? ==> forall k :: k in fields && !Listed(s.properties, k) ==>
          WithinLimits(rx, s.additional.extra, "", fields[k]))
  }

  lemma PublicFacetsExact(rx: Regex, f: Facets, field: string, v: Json)
    ensures FacetsHold(rx, PublicFacets(f, field), v) <==> FacetsHold(rx, f, v) && ScalarWithin(f, field, v)
  {
    assert PublicFacets(f, field).types == f.types;
  }

  lemma {:induction false} PublicFieldsExact(rx: Regex, s: Schema, fields: map<string, Json>)
    requires Narrowable(s)
    ensures AcceptsFields(rx, Public(s, ""), fields) <==> AcceptsFields(rx, s, fields) && FieldsWithin(rx, s, fields)
    decreases s, 0
  {
    if s.properties.Table? {
      forall k | k in fields && k in s.properties.entries
        ensures Accepts(rx, Public(s.properties.entries[k], k), fields[k]) <==>
                  Accepts(rx, s.properties.entries[k], fields[k]) && WithinLimits(rx, s.properties.entries[k], k, fields[k])
      {
        PublicExact(rx, s.properties.entries[k], k, fields[k]);
      }
    }
    if s.additional.Matching? {
      forall k | k in fields && !Listed(s.properties, k)
        ensures Accepts(rx, Public(s.additional.extra, ""), fields[k]) <==>
                  Accepts(rx, s.additional.extra, fields[k]) && WithinLimits(rx, s.additional.extra, "", fields[k])
      {
        PublicExact(rx, s.additional.extra, "", fields[k]);
      }
    }
    if AcceptsFields(rx, Public(s, ""), fields) {
      FieldsForward(rx, s, fields);
    }
    if AcceptsFields(rx, s, fields) && FieldsWithin(rx, s, fields) {
      FieldsBack(rx, s, fields);
    }
  }

  /** What a table entry and its public form say, for every field of the object. */
  ghost predicate EntriesExact(rx: Regex, s: Schema, fields: map<string, Json>) {
    && (s.properties.Table? ==> forall k :: k in fields && k in s.properties.entries ==>
          (Accepts(rx, Public(s.properties.entries[k], k), fields[k]) <==>
            Accepts(rx, s.properties.entries[k], fields[k]) && WithinLimits(rx, s.properties.entries[k], k, fields[k])))
    && (s.additional.Matching? ==> forall k :: k in fields && !Listed(s.properties, k) ==>
          (Accepts(rx, Public(s.additional.extra, ""), fields[k]) <==>
            Accepts(rx, s.additional.extra, fields[k]) && WithinLimits(rx, s.additional.extra, "", fields[k])))
  }

  lemma PublicListed(s: Schema, field: string, k: string)
    ensures Listed(Public(s, field).properties, k) <==> Listed(s.properties, k) && !s.properties.entries[k].internalOnly
    ensures Listed(Public(s, field).properties, k) ==>
              Public(s, field).properties.entries[k] == Public(s.properties.entries[k], k)
  {
  }

  lemma FieldsForward(rx: Regex, s: Schema, fields: map<string, Json>)
    requires Narrowable(s) && EntriesExact(rx, s, fields) && AcceptsFields(rx, Public(s, ""), fields)
    ensures AcceptsFields(rx, s, fields) && FieldsWithin(rx, s, fields)
  {
    forall k ensures Listed(Public(s, "").properties, k) <==> Listed(s.properties, k) && !s.properties.entries[k].internalOnly {
      PublicListed(s, "", k);
    }
    forall k | k in fields && Listed(s.properties, k)
      ensures !s.properties.entries[k].internalOnly
      ensures Accepts(rx, s.properties.entries[k], fields[k]) && WithinLimits(rx, s.properties.entries[k], k, fields[k])
    {
      PublicListed(s, "", k);
      assert Listed(Public(s, "").properties, k);
    }
  }

  lemma FieldsBack(rx: Regex, s: Schema, fields: map<string, Json>)
    requires Narrowable(s) && EntriesExact(rx, s, fields)
    requires AcceptsFields(rx, s, fields) && FieldsWithin(rx, s, fields)
    ensures AcceptsFields(rx, Public(s, ""), fields)
  {
    var p := Public(s, "");
    forall k ensures Listed(p.properties, k) <==> Listed(s.properties, k) && !s.properties.entries[k].internalOnly {
      PublicListed(s, "", k);
    }
    forall k | k in fields && Listed(p.properties, k)
      ensures Accepts(rx, p.properties.entries[k], fields[k])
    {
      PublicListed(s, "", k);
    }
  }

  /** Acceptance by parts, for a schema without reversing operators. */
  lemma AcceptsByParts(rx: Regex, s: Schema, v: Json)
    requires s.oneOf.NoList? && s.negated.Absent? && s.cond.Absent?
    ensures Accepts(rx, s, v) <==>
              && FacetsHold(rx, s.facets, v) && (v.Obj? ==> AcceptsFields(rx, s, v.fields))
              && AcceptsItems(rx, s.items, v) && AcceptsAll(rx, s.allOf, v) && AcceptsAny(rx, s.anyOf, v)
  {
  }

  /** The public node differs from its parts published only in its field's cap. */
  lemma PublicParts(s: Schema, field: string)
    requires Narrowable(s)
    ensures var p := Public(s, field);
            && p.facets == PublicFacets(s.facets, field) && p.items == PublicSlot(s.items)
            && p.allOf == PublicList(s.allOf) && p.anyOf == PublicList(s.anyOf)
            && p.oneOf.NoList? && p.negated.Absent? && p.cond.Absent?
            && p.properties == Public(s, "").properties && p.required == Public(s, "").required
            && p.additional == Public(s, "").additional
  {
  }

  lemma SameFields(rx: Regex, a: Schema, b: Schema, fields: map<string, Json>)
    requires a.properties == b.properties && a.required == b.required && a.additional == b.additional
    ensures AcceptsFields(rx, a, fields) <==> AcceptsFields(rx, b, fields)
  {
  }

  /** A node whose parts are published exactly is published exactly. */
  lemma PublicPartsAgree(rx: Regex, s: Schema, p: Schema, field: string, v: Json)
    requires s.oneOf.NoList? && s.negated.Absent? && s.cond.Absent?
    requires p.oneOf.NoList? && p.negated.Absent? && p.cond.Absent?
    requires FacetsHold(rx, p.facets, v) <==> FacetsHold(rx, s.facets, v) && ScalarWithin(s.facets, field, v)
    requires v.Obj? ==> (AcceptsFields(rx, p, v.fields) <==> AcceptsFields(rx, s, v.fields) && FieldsWithin(rx, s, v.fields))
    requires AcceptsItems(rx, p.items, v) <==> AcceptsItems(rx, s.items, v) && ItemsWithin(rx, s.items, v)
    requires AcceptsAll(rx, p.allOf, v) <==> AcceptsAll(rx, s.allOf, v) && AllWithin(rx, s.allOf, v)
    requires AcceptsAny(rx, p.anyOf, v) <==> AcceptsAny(rx, s.anyOf, v) && AnyWithin(rx, s.anyOf, v)
    ensures Accepts(rx, p, v) <==> Accepts(rx, s, v) && WithinLimits(rx, s, field, v)
  {
    AcceptsByParts(rx, s, v);
    AcceptsByParts(rx, p, v);
  }

  /** The public schema accepts a value if and only if the original accepts it and
      it is within the public limits. */
  lemma {:induction false} PublicExact(rx: Regex, s: Schema, field: string, v: Json)
    requires Narrowable(s)
    ensures Accepts(rx, Public(s, field), v) <==> Accepts(rx, s, v) && WithinLimits(rx, s, field, v)
    decreases s
  {
    var p := Public(s, field);
    PublicParts(s, field);
    PublicFacetsExact(rx, s.facets, field, v);
    if v.Obj? {
      PublicFieldsExact(rx, s, v.fields);
      SameFields(rx, p, Public(s, ""), v.fields);
    }
    PublicItemsExact(rx, s.items, v);
    PublicAllExact(rx, s.allOf, v);
    PublicAnyExact(rx, s.anyOf, v);
    PublicPartsAgree(rx, s, p, field, v);
  }

  lemma {:induction false} PublicItemsExact(rx: Regex, items: Slot, v: Json)
    requires items.Present? ==> Narrowable(items.schema)
    ensures AcceptsItems(rx, PublicSlot(items), v) <==> AcceptsItems(rx, items, v) && ItemsWithin(rx, items, v)
    decreases items
  {
    if items.Present? && v.Arr? {
      forall i | 0 <= i < |v.elems|
        ensures Accepts(rx, Public(items.schema, ""), v.elems[i]) <==>
                  Accepts(rx, items.schema, v.elems[i]) && WithinLimits(rx, items.schema, "", v.elems[i])
      {
        PublicExact(rx, items.schema, "", v.elems[i]);
      }
    }
  }

  lemma {:induction false} PublicAllExact(rx: Regex, list: Slots, v: Json)
    requires list.List? ==> forall i :: 0 <= i < |list.schemas| ==> Narrowable(list.schemas[i])
    ensures AcceptsAll(rx, PublicList(list), v) <==> AcceptsAll(rx, list, v) && AllWithin(rx, list, v)
    decreases list
  {
    if list.List? {
      var before, after := Verdicts(rx, list.schemas, v), Verdicts(rx, PublicSeq(list.schemas), v);
      forall i | 0 <= i < |list.schemas|
        ensures after[i] == (before[i] && WithinLimits(rx, list.schemas[i], "", v))
      {
        PublicExact(rx, list.schemas[i], "", v);
      }
      assert false in after <==> exists i :: 0 <= i < |after| && !after[i];
      assert false in before <==> exists i :: 0 <= i < |before| && !before[i];
    }
  }

  lemma {:induction false} PublicAnyExact(rx: Regex, list: Slots, v: Json)
    requires list.List? ==> forall i :: 0 <= i < |list.schemas| ==> Narrowable(list.schemas[i])
    ensures AcceptsAny(rx, PublicList(list), v) <==> AnyWithin(rx, list, v)
    ensures AnyWithin(rx, list, v) ==> AcceptsAny(rx, list, v)
    decreases list
  {
    if list.List? {
      var before, after := Verdicts(rx, list.schemas, v), Verdicts(rx, PublicSeq(list.schemas), v);
      forall i | 0 <= i < |list.schemas|
        ensures after[i] == (before[i] && WithinLimits(rx, list.schemas[i], "", v))
      {
        PublicExact(rx, list.schemas[i], "", v);
      }
      assert true in after <==> exists i :: 0 <= i < |after| && after[i];
      if i :| 0 <= i < |list.schemas| && Accepts(rx, list.schemas[i], v) && WithinLimits(rx, list.schemas[i], "", v) {
        assert before[i] && after[i];
      }
    }
  }

  // ---- Idempotence ----

  lemma PublicFacetsTwice(f: Facets, field: string)
    ensures PublicFacets(PublicFacets(f, field), field) == PublicFacets(f, field)
  {
  }

  /** Publishing a published schema changes nothing. */
  lemma {:induction false} PublicIsIdempotent(s: Schema, field: string)
    ensures Public(Public(s, field), field) == Public(s, field)
    decreases s
  {
    PublicFacetsTwice(s.facets, field);
    PublicTableTwice(s.properties);
    if s.additional.Matching? {
      PublicIsIdempotent(s.additional.extra, "");
    }
    PublicSlotTwice(s.items);
    PublicListTwice(s.allOf);
    PublicListTwice(s.anyOf);
    PublicListTwice(s.oneOf);
    PublicSlotTwice(s.negated);
    PublicSlotTwice(s.cond);
    PublicSlotTwice(s.then_);
    PublicSlotTwice(s.else_);
  }

  lemma {:induction false} PublicTableTwice(t: Table)
    ensures PublicTable(PublicTable(t)) == PublicTable(t)
    decreases t
  {
    if t.Table? {
      var once := PublicTable(t).entries;
      var twice := PublicTable(PublicTable(t)).entries;
      forall k | k in once
        ensures k in twice && twice[k] == once[k]
      {
        PublicIsIdempotent(t.entries[k], k);
      }
      assert once == twice;
    }
  }

  lemma {:induction false} PublicSlotTwice(slot: Slot)
    ensures PublicSlot(PublicSlot(slot)) == PublicSlot(slot)
    decreases slot
  {
    if slot.Present? {
      PublicIsIdempotent(slot.schema, "");
    }
  }

  lemma {:induction false} PublicListTwice(list: Slots)
    ensures PublicList(PublicList(list)) == PublicList(list)
    decreases list
  {
    if list.List? {
      forall i | 0 <= i < |list.schemas|
        ensures Public(Public(list.schemas[i], ""), "") == Public(list.schemas[i], "")
      {
        PublicIsIdempotent(list.schemas[i], "");
      }
      assert PublicSeq(PublicSeq(list.schemas)) == PublicSeq(list.schemas);
    }
  }

  // ---- The size of what a public schema accepts ----

  /** Characters of text and keys, plus one for every node. */
  ghost function Size(v: Json): (n: nat)
    ensures n > 0
    decreases v, 0
  {
    match v
    case Str(text) => 1 + |text|
    case Arr(elems) => 1 + ElemsSize(elems)
    case Obj(fields) => 1 + KeysSize(v, fields.Keys)
    case _ => 1
  }

  ghost function ElemsSize(elems: seq<Json>): nat
    decreases elems, 0
  {
    if elems == [] then 0 else Size(elems[0]) + ElemsSize(elems[1..])
  }

  ghost function KeysSize(v: Json, keys: set<string>): nat
    requires v.Obj? && keys <= v.fields.Keys
    decreases v, 0, keys
  {
    if keys == {} then 0
    else
      var k :| k in keys;
      |k| + Size(v.fields[k]) + KeysSize(v, keys - {k})
  }

  /** Every value is a scalar, an array of typed items or a closed object of typed
      properties. */
  predicate FullyTyped(s: Schema)
    decreases s
  {
    && s.facets.types.Some?
    && (Allows(s.facets, TArray) ==> s.items.Present? && FullyTyped(s.items.schema))
    && (Allows(s.facets, TObject) ==>
          && s.additional == Allowed(false)
          && s.properties.Table?
          && forall k :: k in s.properties.entries && !s.properties.entries[k].internalOnly ==>
               FullyTyped(s.properties.entries[k]))
  }

  /** The bound computed from the schema. */
  ghost function SizeBound(s: Schema): (n: nat)
    requires FullyTyped(s)
    ensures n > 0
    decreases s, 0
  {
    1 + (if Allows(s.facets, TString) then MAX_TEXT else 0)
      + (if Allows(s.facets, TArray) then MAX_ELEMENTS * SizeBound(s.items.schema) else 0)
      + (if Allows(s.facets, TObject) then KeysBound(s.properties, PublicKeys(s.properties)) else 0)
  }

  ghost function PublicKeys(t: Table): set<string>
    requires t.Table?
  {
    set k | k in t.entries && !t.entries[k].internalOnly
  }

  ghost function KeysBound(t: Table, keys: set<string>): nat
    requires t.Table? && keys <= PublicKeys(t)
    requires forall k :: k in PublicKeys(t) ==> FullyTyped(t.entries[k])
    decreases t, 0, keys
  {
    if keys == {} then 0
    else
      var k :| k in keys;
      |k| + SizeBound(t.entries[k]) + KeysBound(t, keys - {k})
  }

  lemma {:induction false} KeysBoundStep(t: Table, keys: set<string>, k: string)
    requires t.Table? && k in keys && keys <= PublicKeys(t)
    requires forall j :: j in PublicKeys(t) ==> FullyTyped(t.entries[j])
    ensures KeysBound(t, keys) == |k| + SizeBound(t.entries[k]) + KeysBound(t, keys - {k})
    decreases keys
  {
    var j :| j in keys && KeysBound(t, keys) == |j| + SizeBound(t.entries[j]) + KeysBound(t, keys - {j});
    if j != k {
      KeysBoundStep(t, keys - {j}, k);
      KeysBoundStep(t, keys - {k}, j);
      assert keys - {j} - {k} == keys - {k} - {j};
    }
  }

  lemma {:induction false} KeysSizeBounded(v: Json, keys: set<string>, t: Table, listed: set<string>)
    requires v.Obj? && t.Table? && keys <= v.fields.Keys && keys <= listed <= PublicKeys(t)
    requires forall k :: k in PublicKeys(t) ==> FullyTyped(t.entries[k])
    requires forall k :: k in keys ==> Size(v.fields[k]) <= SizeBound(t.entries[k])
    ensures KeysSize(v, keys) <= KeysBound(t, listed)
    decreases keys
  {
    if keys != {} {
      var k :| k in keys && KeysSize(v, keys) == |k| + Size(v.fields[k]) + KeysSize(v, keys - {k});
      KeysSizeBounded(v, keys - {k}, t, listed - {k});
      KeysBoundStep(t, listed, k);
    }
  }

  lemma {:induction false} ElemsSizeBounded(elems: seq<Json>, each: nat)
    requires forall i :: 0 <= i < |elems| ==> Size(elems[i]) <= each
    ensures ElemsSize(elems) <= |elems| * each
  {
    if elems != [] {
      ElemsSizeBounded(elems[1..], each);
      OneMoreElement(|elems| - 1, each);
    }
  }

  lemma OneMoreElement(n: nat, each: nat)
    ensures (n + 1) * each == each + n * each
  {
  }

  lemma MoreElements(few: nat, many: nat, each: nat)
    requires few <= many
    ensures few * each <= many * each
  {
  }

  lemma {:induction false} ArraySizeBounded(rx: Regex, items: Schema, v: Json)
    requires FullyTyped(items) && v.Arr? && |v.elems| <= MAX_ELEMENTS
    requires AcceptsItems(rx, Present(Public(items, "")), v)
    ensures Size(v) <= 1 + MAX_ELEMENTS * SizeBound(items)
    decreases items, 2
  {
    forall i | 0 <= i < |v.elems| ensures Size(v.elems[i]) <= SizeBound(items) {
      PublicSizeBounded(rx, items, "", v.elems[i]);
    }
    ElemsSizeBounded(v.elems, SizeBound(items));
    MoreElements(|v.elems|, MAX_ELEMENTS, SizeBound(items));
  }

  lemma {:induction false} ObjectSizeBounded(rx: Regex, s: Schema, field: string, v: Json)
    requires s.properties.Table? && s.additional == Allowed(false) && v.Obj?
    requires forall k :: k in PublicKeys(s.properties) ==> FullyTyped(s.properties.entries[k])
    requires AcceptsFields(rx, Public(s, field), v.fields)
    ensures Size(v) <= 1 + KeysBound(s.properties, PublicKeys(s.properties))
    decreases s, 0
  {
    forall k | k in v.fields
      ensures k in PublicKeys(s.properties) && Size(v.fields[k]) <= SizeBound(s.properties.entries[k])
    {
      PublicListed(s, field, k);
      assert Listed(Public(s, field).properties, k);
      PublicSizeBounded(rx, s.properties.entries[k], k, v.fields[k]);
    }
    KeysSizeBounded(v, v.fields.Keys, s.properties, PublicKeys(s.properties));
  }

  /** Whatever a public, fully typed schema accepts is no larger than the bound
      computed from the schema. */
  lemma {:induction false} PublicSizeBounded(rx: Regex, s: Schema, field: string, v: Json)
    requires FullyTyped(s) && Accepts(rx, Public(s, field), v)
    ensures Size(v) <= SizeBound(s)
    decreases s, 1
  {
    var p := Public(s, field);
    PublicFacetsExact(rx, s.facets, field, v);
    if v.Arr? {
      assert s.items.Present? && PublicSlot(s.items) == Present(Public(s.items.schema, ""));
      assert AcceptsItems(rx, p.items, v);
      ArraySizeBounded(rx, s.items.schema, v);
    } else if v.Obj? {
      ObjectSizeBounded(rx, s, field, v);
    }
  }

  // ---- Why closedness is needed ----

  /** An open object is why closedness is needed: dropping the property drops its
      constraint, so the public schema accepts what the internal one refuses. */
  lemma OpenObjectWidens(rx: Regex)
    ensures var hidden := EMPTY_SCHEMA.(facets := NO_FACETS.(types := Some({TString})), internalOnly := true);
            var s := EMPTY_SCHEMA.(properties := Table(map["hidden" := hidden]));
            var v := Obj(map["hidden" := Null]);
            Accepts(rx, Public(s, ""), v) && !Accepts(rx, s, v)
  {
    var hidden := EMPTY_SCHEMA.(facets := NO_FACETS.(types := Some({TString})), internalOnly := true);
    var s := EMPTY_SCHEMA.(properties := Table(map["hidden" := hidden]));
    var v := Obj(map["hidden" := Null]);
    assert !Accepts(rx, s.properties.entries["hidden"], v.fields["hidden"]);
    assert !AcceptsFields(rx, s, v.fields);
    assert PublicTable(s.properties).entries == map[];
    assert Public(s, "").properties == PublicTable(s.properties);
    assert AcceptsFields(rx, Public(s, ""), v.fields);
  }

  // ---- The imperative form ----

  datatype Keyword =
    | KFacets | KProperties | KRequired | KAdditional | KItems | KAllOf | KAnyOf | KOneOf
    | KNot | KIf | KThen | KElse | KInternalOnly

  const KEYWORDS := [
    KFacets, KProperties, KRequired, KAdditional, KItems, KAllOf, KAnyOf, KOneOf,
    KNot, KIf, KThen, KElse, KInternalOnly]

  function Position(key: Keyword): nat {
    match key
    case KFacets => 0 case KProperties => 1 case KRequired => 2 case KAdditional => 3 case KItems => 4
    case KAllOf => 5 case KAnyOf => 6 case KOneOf => 7 case KNot => 8 case KIf => 9 case KThen => 10
    case KElse => 11 case KInternalOnly => 12
  }

  lemma KeywordPositions(n: nat)
    requires n < |KEYWORDS|
    ensures Position(KEYWORDS[n]) == n
  {
  }

  /** The first n keywords are copied from the target and the others are absent. */
  ghost predicate Filled(result: Schema, target: Schema, n: nat) {
    && result.facets == (if n > 0 then target.facets else NO_FACETS)
    && result.properties == (if n > 1 then target.properties else NoTable)
    && result.required == (if n > 2 then target.required else None)
    && result.additional == (if n > 3 then target.additional else Unset)
    && result.items == (if n > 4 then target.items else Absent)
    && result.allOf == (if n > 5 then target.allOf else NoList)
    && result.anyOf == (if n > 6 then target.anyOf else NoList)
    && result.oneOf == (if n > 7 then target.oneOf else NoList)
    && result.negated == (if n > 8 then target.negated else Absent)
    && result.cond == (if n > 9 then target.cond else Absent)
    && result.then_ == (if n > 10 then target.then_ else Absent)
    && result.else_ == (if n > 11 then target.else_ else Absent)
    && !result.internalOnly
  }

  /** The public schema before the caps are applied: what the loop leaves. */
  function Uncapped(s: Schema): Schema {
    Public(s, "").(facets := s.facets)
  }

  /** `publicSchema` as the code runs it: the loop fills `result` keyword by
      keyword, then the caps update it. */
  method PublicSchemaOf(value: Schema, field: string) returns (result: Schema)
    ensures result == Public(value, field)
    decreases value, 2
  {
    result := EMPTY_SCHEMA;
    for n := 0 to |KEYWORDS|
      invariant Filled(result, Uncapped(value), n)
    {
      var key := KEYWORDS[n];
      KeywordPositions(n);
      match key {
        case KFacets => result := result.(facets := value.facets);
        case KProperties =>
          var table := PublicProperties(value.properties);
          result := result.(properties := table);
        case KRequired => result := result.(required := value.required);
        case KAdditional =>
          var additional := value.additional;
          if additional.Matching? {
            var extra := PublicSchemaOf(additional.extra, "");
            additional := Matching(extra);
          }
          result := result.(additional := additional);
        case KItems => var items := PublicSlotOf(value.items); result := result.(items := items);
        case KAllOf => var list := PublicListOf(value.allOf); result := result.(allOf := list);
        case KAnyOf => var list := PublicListOf(value.anyOf); result := result.(anyOf := list);
        case KOneOf => var list := PublicListOf(value.oneOf); result := result.(oneOf := list);
        case KNot => var slot := PublicSlotOf(value.negated); result := result.(negated := slot);
        case KIf => var slot := PublicSlotOf(value.cond); result := result.(cond := slot);
        case KThen => var slot := PublicSlotOf(value.then_); result := result.(then_ := slot);
        case KElse => var slot := PublicSlotOf(value.else_); result := result.(else_ := slot);
        case KInternalOnly =>
      }
    }
    assert result == Uncapped(value);
    if Allows(result.facets, TString) {
      result := result.(facets := result.facets.(maxLength := Some(AtMost(result.facets.maxLength, MAX_TEXT, (a, b) => a < b))));
    }
    if Allows(result.facets, TArray) {
      result := result.(
        facets := result.facets.(maxItems := Some(AtMost(result.facets.maxItems, MAX_ELEMENTS, (a, b) => a < b))));
    }
    var cap := Cap(field);
    if cap.Some? {
      var low := if result.facets.minimum.Some? && result.facets.minimum.value > 1.0 then result.facets.minimum.value else 1.0;
      var high := AtMost(result.facets.maximum, cap.value, (a, b) => a < b);
      result := result.(facets := result.facets.(minimum := Some(low), maximum := Some(high)));
    }
  }

  method PublicSlotOf(slot: Slot) returns (r: Slot)
    ensures r == PublicSlot(slot)
    decreases slot, 3
  {
    if slot.Absent? {
      return Absent;
    }
    var s := PublicSchemaOf(slot.schema, "");
    return Present(s);
  }

  method PublicListOf(list: Slots) returns (r: Slots)
    ensures r == PublicList(list)
    decreases list, 3
  {
    if list.NoList? {
      return NoList;
    }
    var out: seq<Schema> := [];
    for i := 0 to |list.schemas|
      invariant out == PublicSeq(list.schemas)[..i]
    {
      var s := PublicSchemaOf(list.schemas[i], "");
      out := out + [s];
    }
    return List(out);
  }

  /** Internal-only entries are filtered out and the others published by name, in
      whatever order the entries come. */
  method PublicProperties(t: Table) returns (r: Table)
    ensures r == PublicTable(t)
    decreases t, 3
  {
    if t.NoTable? {
      return NoTable;
    }
    var out: map<string, Schema> := map[];
    var left := t.entries.Keys;
    while left != {}
      invariant left <= t.entries.Keys
      invariant forall k :: k in out <==> k in t.entries && k !in left && !t.entries[k].internalOnly
      invariant forall k :: k in out ==> out[k] == Public(t.entries[k], k)
      decreases left
    {
      var k :| k in left;
      if !t.entries[k].internalOnly {
        var s := PublicSchemaOf(t.entries[k], k);
        out := out[k := s];
      }
      left := left - {k};
    }
    return Table(out);
  }
}
