/** The mutually exclusive modes of `edit_file`. */
module EditModes {
  import opened Basics
  import opened JsonSchema

  const EDIT_FILE_MODES: seq<seq<string>> := [
    ["find", "replace"], ["replaceLines"], ["edits"], ["replacePattern"],
    ["insertAt"], ["append"], ["jsonPath", "jsonValue"], ["executable"]]

  function ModeKeys(fields: seq<string>): set<string> {
    {"path"} + set f | f in fields
  }

  /** A closed object with `path` and the fields of one mode, all required. */
  function ExclusiveEditMode(fields: seq<string>): Schema {
    EMPTY_SCHEMA.(
      facets := NO_FACETS.(types := Some({TObject})),
      properties := Table(map k | k in ModeKeys(fields) :: EMPTY_SCHEMA),
      required := Some(["path"] + fields),
      additional := Allowed(false))
  }

  function ModeSchemas(modes: seq<seq<string>>): (r: seq<Schema>)
    ensures |r| == |modes|
    ensures forall i :: 0 <= i < |modes| ==> r[i] == ExclusiveEditMode(modes[i])
  {
    if modes == [] then [] else [ExclusiveEditMode(modes[0])] + ModeSchemas(modes[1..])
  }

  /** No two modes take the same fields. */
  ghost predicate ModesDiffer(modes: seq<seq<string>>) {
    forall i, j :: 0 <= i < j < |modes| ==> ModeKeys(modes[i]) != ModeKeys(modes[j])
  }

  ghost predicate UsesMode(v: Json, fields: seq<string>) {
    v.Obj? && v.fields.Keys == ModeKeys(fields)
  }

  /** One mode accepts exactly the objects whose keys are `path` and its fields. */
  lemma ModeAccepts(rx: Regex, fields: seq<string>, v: Json)
    ensures Accepts(rx, ExclusiveEditMode(fields), v) <==> UsesMode(v, fields)
  {
    var s := ExclusiveEditMode(fields);
    assert FacetsHold(rx, s.facets, v) <==> HasType(TObject, v);
    if v.Obj? {
      forall k | k in v.fields ensures Accepts(rx, EMPTY_SCHEMA, v.fields[k]) {
        EmptyAccepts(rx, v.fields[k]);
      }
      assert forall k :: Listed(s.properties, k) <==> k in ModeKeys(fields);
      assert forall k :: k in s.required.value <==> k in ModeKeys(fields);
      assert AcceptsFields(rx, s, v.fields) <==> v.fields.Keys == ModeKeys(fields);
    }
  }

  /** For distinct modes the `oneOf` accepts exactly the objects that use one of
      them, and no object uses two: `oneOf` and `anyOf` coincide. */
  lemma OneOfIsExactlyOneMode(rx: Regex, modes: seq<seq<string>>, v: Json)
    requires ModesDiffer(modes)
    ensures AcceptsOne(rx, List(ModeSchemas(modes)), v) <==> exists i :: 0 <= i < |modes| && UsesMode(v, modes[i])
    ensures AcceptsOne(rx, List(ModeSchemas(modes)), v) <==> AcceptsAny(rx, List(ModeSchemas(modes)), v)
  {
    var verdicts := Verdicts(rx, ModeSchemas(modes), v);
    forall i | 0 <= i < |modes| ensures verdicts[i] == UsesMode(v, modes[i]) {
      ModeAccepts(rx, modes[i], v);
    }
    if i :| 0 <= i < |modes| && UsesMode(v, modes[i]) {
      forall j | 0 <= j < |verdicts| && j != i ensures !verdicts[j] {
        assert ModeKeys(modes[if i < j then i else j]) != ModeKeys(modes[if i < j then j else i]);
      }
      assert verdicts[i];
    }
  }

  lemma FirstFieldDiffers(a: seq<string>, b: seq<string>)
    requires a != [] && b != [] && a[0] !in b && a[0] != "path"
    ensures ModeKeys(a) != ModeKeys(b)
  {
    assert a[0] in ModeKeys(a);
  }

  /** The shipped modes are distinct: each has a field no other mode has. */
  lemma ShippedModesDiffer()
    ensures ModesDiffer(EDIT_FILE_MODES)
  {
    forall i, j | 0 <= i < j < |EDIT_FILE_MODES|
      ensures ModeKeys(EDIT_FILE_MODES[i]) != ModeKeys(EDIT_FILE_MODES[j])
    {
      FirstFieldUnique(i, j);
      FirstFieldDiffers(EDIT_FILE_MODES[i], EDIT_FILE_MODES[j]);
    }
  }

  lemma FirstFieldUnique(i: nat, j: nat)
    requires i < j < |EDIT_FILE_MODES|
    ensures EDIT_FILE_MODES[i][0] !in EDIT_FILE_MODES[j] && EDIT_FILE_MODES[i][0] != "path"
  {
    assert "find"[0] != "path"[0];
    assert "append"[0] != "insertAt"[0];
    assert "insertAt"[0] != "jsonPath"[0];
    assert "replaceLines"[0] != "executable"[0];
  }

  /** An object with typed fields that must use exactly one mode. */
  function ModalObject(modes: seq<seq<string>>, types: map<string, Schema>): Schema {
    EMPTY_SCHEMA.(
      facets := NO_FACETS.(types := Some({TObject})),
      properties := Table(types),
      required := Some(["path"]),
      oneOf := List(ModeSchemas(modes)),
      additional := Allowed(false))
  }

  ghost predicate FieldsTyped(rx: Regex, types: map<string, Schema>, fields: map<string, Json>) {
    forall k :: k in fields ==> k in types && Accepts(rx, types[k], fields[k])
  }

  lemma ModalObjectAccepts(rx: Regex, modes: seq<seq<string>>, types: map<string, Schema>, v: Json)
    requires ModesDiffer(modes)
    ensures Accepts(rx, ModalObject(modes, types), v) <==>
              v.Obj? && (exists i :: 0 <= i < |modes| && UsesMode(v, modes[i])) && FieldsTyped(rx, types, v.fields)
  {
    OneOfIsExactlyOneMode(rx, modes, v);
    var s := ModalObject(modes, types);
    assert FacetsHold(rx, s.facets, v) <==> HasType(TObject, v);
    if v.Obj? {
      assert AcceptsFields(rx, s, v.fields) <==> "path" in v.fields && FieldsTyped(rx, types, v.fields);
      if i :| 0 <= i < |modes| && UsesMode(v, modes[i]) {
        assert "path" in ModeKeys(modes[i]);
        assert "path" in v.fields.Keys;
      }
    }
  }

  /** `edit_file` accepts exactly the objects whose keys are `path` and one mode's
      fields, each of its declared type. */
  lemma EditFileAccepts(rx: Regex, types: map<string, Schema>, v: Json)
    ensures Accepts(rx, ModalObject(EDIT_FILE_MODES, types), v) <==>
              v.Obj? && (exists i :: 0 <= i < |EDIT_FILE_MODES| && UsesMode(v, EDIT_FILE_MODES[i]))
              && FieldsTyped(rx, types, v.fields)
  {
    ShippedModesDiffer();
    ModalObjectAccepts(rx, EDIT_FILE_MODES, types, v);
  }
}
