/** JSON values and the subset of JSON Schema (2020-12) that the cataloged tool
    schemas use, with its validation semantics.

    A schema object is a record with one field per keyword.  Every keyword can be
    absent, because the code tests for presence and merges objects key by key.
    Annotations (`description`, `default`) do not affect acceptance and are left
    out; `enum` and `const` hold strings, as they do in every cataloged schema. */
module JsonSchema {
  import opened Basics

  datatype Json =
    | Null
    | Bool(flag: bool)
    | Number(num: real)
    | Str(text: string)
    | Arr(elems: seq<Json>)
    | Obj(fields: map<string, Json>)

  datatype JsonType = TNull | TBoolean | TInteger | TNumber | TString | TArray | TObject

  /** The keywords that assert something about one value and hold no subschema. */
  datatype Facets = Facets(
    types: Option<set<JsonType>>,
    enumeration: Option<seq<string>>,
    constant: Option<string>,
    pattern: Option<string>,
    minLength: Option<nat>,
    maxLength: Option<nat>,
    minItems: Option<nat>,
    maxItems: Option<nat>,
    uniqueItems: Option<bool>,
    minimum: Option<real>,
    maximum: Option<real>,
    maxProperties: Option<nat>)

  datatype Slot = Absent | Present(schema: Schema)
  datatype Slots = NoList | List(schemas: seq<Schema>)
  datatype Table = NoTable | Table(entries: map<string, Schema>)
  datatype Additional = Unset | Allowed(any: bool) | Matching(extra: Schema)

  datatype Schema = Schema(
    facets: Facets,
    properties: Table,
    required: Option<seq<string>>,
    additional: Additional,
    items: Slot,
    allOf: Slots,
    anyOf: Slots,
    oneOf: Slots,
    negated: Slot,
    cond: Slot,
    then_: Slot,
    else_: Slot,
    internalOnly: bool)

  /** The meaning of `pattern` is left to a regular-expression oracle, so every
      theorem holds for any regular-expression engine. */
  type Regex = (string, string) -> bool

  predicate HasType(t: JsonType, v: Json) {
    match t
    case TNull => v.Null?
    case TBoolean => v.Bool?
    case TInteger => v.Number? && v.num.Floor as real == v.num
    case TNumber => v.Number?
    case TString => v.Str?
    case TArray => v.Arr?
    case TObject => v.Obj?
  }

  predicate FacetsHold(rx: Regex, f: Facets, v: Json) {
    && (f.types.Some? ==> exists t :: t in f.types.value && HasType(t, v))
    && (f.enumeration.Some? ==> v.Str? && v.text in f.enumeration.value)
    && (f.constant.Some? ==> v == Str(f.constant.value))
    && (v.Str? ==>
          && (f.pattern.Some? ==> rx(f.pattern.value, v.text))
          && (f.minLength.Some? ==> f.minLength.value <= |v.text|)
          && (f.maxLength.Some? ==> |v.text| <= f.maxLength.value))
    && (v.Arr? ==>
          && (f.minItems.Some? ==> f.minItems.value <= |v.elems|)
          && (f.maxItems.Some? ==> |v.elems| <= f.maxItems.value)
          && (f.uniqueItems == Some(true) ==> Distinct(v.elems)))
    && (v.Number? ==>
          && (f.minimum.Some? ==> f.minimum.value <= v.num)
          && (f.maximum.Some? ==> v.num <= f.maximum.value))
    && (v.Obj? ==> f.maxProperties.Some? ==> |v.fields| <= f.maxProperties.value)
  }

  /** Whether an object property is described by `properties`. */
  predicate Listed(t: Table, key: string) {
    t.Table? && key in t.entries
  }

  /** Whether a value is valid against a schema: JSON Schema Core sections 10.2.1,
      10.2.2, 10.3.1.2 and 10.3.2, Validation sections 6.1 to 6.5. */
  predicate Accepts(rx: Regex, s: Schema, v: Json)
    decreases s
  {
    && FacetsHold(rx, s.facets, v)
    && (v.Obj? ==> AcceptsFields(rx, s, v.fields))
    && AcceptsItems(rx, s.items, v)
    && AcceptsAll(rx, s.allOf, v)
    && AcceptsAny(rx, s.anyOf, v)
    && AcceptsOne(rx, s.oneOf, v)
    && (s.negated.Present? ==> !AcceptsSlot(rx, s.negated, v))
    && (s.cond.Present? ==> AcceptsSlot(rx, if AcceptsSlot(rx, s.cond, v) then s.then_ else s.else_, v))
  }

  predicate AcceptsSlot(rx: Regex, slot: Slot, v: Json)
    decreases slot
  {
    slot.Present? ==> Accepts(rx, slot.schema, v)
  }

  predicate AcceptsItems(rx: Regex, items: Slot, v: Json)
    decreases items
  {
    v.Arr? && items.Present? ==> forall i :: 0 <= i < |v.elems| ==> Accepts(rx, items.schema, v.elems[i])
  }

  /** The verdict of every schema of a list on one value. */
  function Verdicts(rx: Regex, ss: seq<Schema>, v: Json): (r: seq<bool>)
    ensures |r| == |ss|
    ensures forall i :: 0 <= i < |ss| ==> r[i] == Accepts(rx, ss[i], v)
    decreases ss
  {
    if ss == [] then [] else [Accepts(rx, ss[0], v)] + Verdicts(rx, ss[1..], v)
  }

  predicate ExactlyOne(r: seq<bool>) {
    exists i :: 0 <= i < |r| && r[i] && forall j :: 0 <= j < |r| && j != i ==> !r[j]
  }

  predicate AcceptsAll(rx: Regex, list: Slots, v: Json)
    decreases list
  {
    list.List? ==> false !in Verdicts(rx, list.schemas, v)
  }

  predicate AcceptsAny(rx: Regex, list: Slots, v: Json)
    decreases list
  {
    list.List? ==> true in Verdicts(rx, list.schemas, v)
  }

  predicate AcceptsOne(rx: Regex, list: Slots, v: Json)
    decreases list
  {
    list.List? ==> ExactlyOne(Verdicts(rx, list.schemas, v))
  }

  /** `required`, `properties` and `additionalProperties` on an object. */
  predicate AcceptsFields(rx: Regex, s: Schema, fields: map<string, Json>)
    decreases s, 0
  {
    && (s.required.Some? ==> forall k :: k in s.required.value ==> k in fields)
    && (s.properties.Table? ==>
          forall k :: k in fields && k in s.properties.entries ==> Accepts(rx, s.properties.entries[k], fields[k]))
    && (s.additional == Allowed(false) ==> forall k :: k in fields ==> Listed(s.properties, k))
    && (s.additional.Matching? ==>
          forall k :: k in fields && !Listed(s.properties, k) ==> Accepts(rx, s.additional.extra, fields[k]))
  }

  /** Two schemas whose parts give the same verdicts on two objects give the same
      verdict. */
  lemma ObjectPartsAgree(rx: Regex, s: Schema, v: Json, t: Schema, w: Json)
    requires v.Obj? && w.Obj?
    requires FacetsHold(rx, s.facets, v) <==> FacetsHold(rx, t.facets, w)
    requires AcceptsFields(rx, s, v.fields) <==> AcceptsFields(rx, t, w.fields)
    requires AcceptsAll(rx, s.allOf, v) <==> AcceptsAll(rx, t.allOf, w)
    requires AcceptsAny(rx, s.anyOf, v) <==> AcceptsAny(rx, t.anyOf, w)
    requires AcceptsOne(rx, s.oneOf, v) <==> AcceptsOne(rx, t.oneOf, w)
    requires s.negated.Present? <==> t.negated.Present?
    requires AcceptsSlot(rx, s.negated, v) <==> AcceptsSlot(rx, t.negated, w)
    requires s.cond.Present? <==> t.cond.Present?
    requires AcceptsSlot(rx, s.cond, v) <==> AcceptsSlot(rx, t.cond, w)
    requires AcceptsSlot(rx, s.then_, v) <==> AcceptsSlot(rx, t.then_, w)
    requires AcceptsSlot(rx, s.else_, v) <==> AcceptsSlot(rx, t.else_, w)
    ensures Accepts(rx, s, v) <==> Accepts(rx, t, w)
  {
  }

  const NO_FACETS := Facets(None, None, None, None, None, None, None, None, None, None, None, None)

  /** The empty schema object, which accepts every value. */
  const EMPTY_SCHEMA :=
    Schema(NO_FACETS, NoTable, None, Unset, Absent, NoList, NoList, NoList, Absent, Absent, Absent, Absent, false)

  lemma EmptyAccepts(rx: Regex, v: Json)
    ensures Accepts(rx, EMPTY_SCHEMA, v)
  {
  }
}
