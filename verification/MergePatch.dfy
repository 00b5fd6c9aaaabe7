/** packages/core/src/maintenance.ts and maintenance-file.ts: JSON merge patch
    (section 2 of RFC 7396), as a recursion on values and as edits of paths in a
    document that keeps its formatting. */
module MergePatch {
  import opened Wrappers

  datatype Json =
    | Null | Bool(b: bool) | Number(n: int) | String(s: string)
    | Array(items: seq<Json>) | Object(fields: map<string, Json>)

  type Fields = map<string, Json>

  /** A mapping's fields; anything else counts as an empty mapping. */
  function FieldsOf(value: Option<Json>): Fields {
    if value.Some? && value.value.Object? then value.value.fields else map[]
  }

  function Field(fields: Fields, key: string): Option<Json> {
    if key in fields then Some(fields[key]) else None
  }

  // ---------------------------------------------------------------------
  // The RFC's recursion
  // ---------------------------------------------------------------------

  /** `MergePatch(Target, Patch)` of the RFC. */
  function Merged(target: Option<Json>, patch: Json): Json
    decreases patch
  {
    if !patch.Object? then patch
    else
      var base := FieldsOf(target);
      Object(map k | k in base.Keys + patch.fields.Keys && (k in patch.fields ==> !patch.fields[k].Null?) ::
               if k in patch.fields then Merged(Field(base, k), patch.fields[k]) else base[k])
  }

  /** What the patch makes of one field. */
  function MergedField(prior: Option<Json>, change: Option<Json>): Option<Json> {
    match change
    case None => prior
    case Some(value) => if value.Null? then None else Some(Merged(prior, value))
  }

  lemma FieldOfMerged(target: Option<Json>, patch: Json, k: string)
    requires patch.Object?
    ensures Merged(target, patch).Object?
    ensures Field(Merged(target, patch).fields, k) == MergedField(Field(FieldsOf(target), k), Field(patch.fields, k))
  {
  }

  /** `applyJsonMergePatch`: the loop over the patch's entries, on a copy of the target. */
  method ApplyJsonMergePatch(target: Option<Json>, patch: Json) returns (result: Json)
    ensures result == Merged(target, patch)
    decreases patch
  {
    if !patch.Object? { return patch; }
    hide Merged;
    var original := FieldsOf(target);
    var base, todo := original, patch.fields.Keys;
    while todo != {}
      invariant todo <= patch.fields.Keys
      invariant forall k ::
                  Field(base, k) == MergedField(Field(original, k), if k in todo then None else Field(patch.fields, k))
      decreases |todo|
    {
      var key := Pick(todo);
      var value := patch.fields[key];
      todo := todo - {key};
      if value.Null? {
        base := base - {key};
      } else {
        var merged := ApplyJsonMergePatch(Field(base, key), value);
        base := base[key := merged];
      }
    }
    result := Object(base);
    FieldOfMerged(target, patch, "");
    forall k ensures Field(base, k) == Field(Merged(target, patch).fields, k) {
      FieldOfMerged(target, patch, k);
    }
    SameFields(base, Merged(target, patch).fields);
  }

  lemma SameFields(a: Fields, b: Fields)
    requires forall k :: Field(a, k) == Field(b, k)
    ensures a == b
  {
    forall k ensures k in a <==> k in b {
      assert Field(a, k) == Field(b, k);
    }
    forall k | k in a ensures a[k] == b[k] {
      assert Field(a, k) == Field(b, k);
    }
  }

  method Pick(s: set<string>) returns (x: string)
    requires s != {}
    ensures x in s
  {
    ghost var e := Element(s);
    x :| x in s;
  }

  /** Applying a patch twice is applying it once. */
  lemma {:induction false} PatchIsIdempotent(target: Option<Json>, patch: Json)
    ensures Merged(Some(Merged(target, patch)), patch) == Merged(target, patch)
    decreases patch
  {
    if patch.Object? {
      var once, base := Merged(target, patch), FieldsOf(target);
      var twice := Merged(Some(once), patch);
      forall k ensures Field(twice.fields, k) == Field(once.fields, k) {
        if k in patch.fields && !patch.fields[k].Null? {
          PatchIsIdempotent(Field(base, k), patch.fields[k]);
        }
      }
      SameFields(twice.fields, once.fields);
    }
  }

  // ---------------------------------------------------------------------
  // Path edits
  // ---------------------------------------------------------------------

  /** The value at a path, if every step on the way is a mapping that has it. */
  function At(doc: Json, path: seq<string>): Option<Json> {
    if path == [] then Some(doc)
    else if doc.Object? && path[0] in doc.fields then At(doc.fields[path[0]], path[1..])
    else None
  }

  /** `setIn`, `deleteIn` and `modify`, at a path whose parent is a mapping of the document. */
  function Edited(doc: Json, path: seq<string>, value: Option<Json>): Json
    requires path != []
  {
    if !doc.Object? then doc
    else if |path| == 1 then Object(if value.Some? then doc.fields[path[0] := value.value] else doc.fields - {path[0]})
    else if path[0] in doc.fields then Object(doc.fields[path[0] := Edited(doc.fields[path[0]], path[1..], value)])
    else doc
  }

  /** The document with the mapping at a path replaced. */
  function Replaced(doc: Json, path: seq<string>, fields: Fields): Json {
    if path == [] then Object(fields)
    else if doc.Object? && path[0] in doc.fields
        then Object(doc.fields[path[0] := Replaced(doc.fields[path[0]], path[1..], fields)])
    else doc
  }

  lemma {:induction false} EditOfReplaced(doc: Json, path: seq<string>, fields: Fields, key: string,
                                          value: Option<Json>)
    requires At(doc, path).Some?
    ensures Edited(Replaced(doc, path, fields), path + [key], value)
            == Replaced(doc, path, if value.Some? then fields[key := value.value] else fields - {key})
    ensures At(Replaced(doc, path, fields), path) == Some(Object(fields))
  {
    var longer := path + [key];
    if path != [] {
      assert longer[1..] == path[1..] + [key] && longer[0] == path[0];
      EditOfReplaced(doc.fields[path[0]], path[1..], fields, key, value);
    }
  }

  lemma {:induction false} ReplaceInside(doc: Json, path: seq<string>, fields: Fields, key: string, inner: Fields)
    requires At(doc, path).Some? && key in fields
    ensures Replaced(Replaced(doc, path, fields), path + [key], inner) == Replaced(doc, path,
            fields[key := Object(inner)])
    ensures At(Replaced(doc, path, fields), path + [key]) == Some(fields[key])
  {
    var longer := path + [key];
    if path != [] {
      assert longer[1..] == path[1..] + [key] && longer[0] == path[0];
      ReplaceInside(doc.fields[path[0]], path[1..], fields, key, inner);
    } else {
      assert longer[1..] == [];
    }
  }

  lemma {:induction false} ReplacedByItself(doc: Json, path: seq<string>, fields: Fields)
    requires At(doc, path) == Some(Object(fields))
    ensures Replaced(doc, path, fields) == doc
  {
    if path != [] { ReplacedByItself(doc.fields[path[0]], path[1..], fields); }
  }

  /** What one entry of a patch makes of a field, by path edits: an absent or explicit
      null is left alone when the patch says null. */
  function EditedField(prior: Option<Json>, value: Json): Option<Json>
    decreases value, 1
  {
    if value.Object? then Some(Object(EditedFields(FieldsOf(prior), value, value.fields.Keys)))
    else if value.Null? then (if prior == Some(Null) then prior else None)
    else Some(value)
  }

  /** What the entries of `done` make of the fields of a mapping. */
  function EditedFields(base: Fields, change: Json, done: set<string>): Fields
    requires change.Object?
    decreases change, 0
  {
    map k | k in base.Keys + change.fields.Keys
            && (if k in change.fields
               && k in done then EditedField(Field(base, k), change.fields[k]).Some? else k in base) ::
      if k in change.fields && k in done then EditedField(Field(base, k), change.fields[k]).value else base[k]
  }

  class ConfigDocument {
    var root: Json

    constructor (root: Json)
      ensures this.root == root
    {
      this.root := root;
    }

    method Set(path: seq<string>, value: Option<Json>)
      requires path != []
      modifies this
      ensures root == Edited(old(root), path, value)
    {
      root := Edited(root, path, value);
    }

    /** `walk`: edits leaf by leaf, against the values the document had before. */
    method Walk(base: Option<Json>, change: Json, path: seq<string>)
      requires change.Object? && At(root, path) == Some(Object(FieldsOf(base)))
      modifies this
      ensures root == Replaced(old(root), path, EditedFields(FieldsOf(base), change, change.fields.Keys))
      decreases change, 0
    {
      hide EditedFields, Edited, Replaced, At;
      ghost var doc, fields := root, FieldsOf(base);
      NothingDone(fields, change);
      ReplacedByItself(doc, path, fields);
      var todo := change.fields.Keys;
      while todo != {}
        invariant todo <= change.fields.Keys && At(doc, path) == Some(Object(fields))
        invariant root == Replaced(doc, path, EditedFields(fields, change, change.fields.Keys - todo))
        decreases |todo|
      {
        var key := Pick(todo);
        ghost var done := change.fields.Keys - todo;
        ghost var soFar := EditedFields(fields, change, done);
        var value := change.fields[key];
        var before := Field(FieldsOf(base), key);
        todo := todo - {key};
        OneMoreField(fields, change, done, key);
        assert change.fields.Keys - todo == done + {key};
        if value.Null? && before.None? {
          assert soFar - {key} == soFar;
          continue;
        }
        if value.Object? {
          WalkInto(before, value, path, key, doc, soFar);
        } else if before != Some(value) {
          EditOfReplaced(doc, path, soFar, key, if value.Null? then None else Some(value));
          Set(path + [key], if value.Null? then None else Some(value));
        } else {
          assert soFar[key := value] == soFar;
        }
      }
      assert change.fields.Keys - {} == change.fields.Keys;
    }

    /** The branch of `walk` for a nested mapping: the mapping is created if there was
        none, and walked. */
    method WalkInto(before: Option<Json>, change: Json, path: seq<string>, key: string, ghost doc: Json,
                    ghost fields: Fields)
      requires change.Object? && At(doc, path).Some? && root == Replaced(doc, path, fields)
               && Field(fields, key) == before
      modifies this
      ensures root == Replaced(doc, path,
                               fields[key := Object(EditedFields(FieldsOf(before), change, change.fields.Keys))])
      decreases change, 1
    {
      hide EditedFields, Edited, Replaced, At;
      ghost var inner := FieldsOf(before);
      if !(before.Some? && before.value.Object?) {
        EditOfReplaced(doc, path, fields, key, Some(Object(map[])));
        Set(path + [key], Some(Object(map[])));
      } else {
        assert fields[key := Object(inner)] == fields;
      }
      ReplaceInside(doc, path, fields[key := Object(inner)], key, EditedFields(inner, change, change.fields.Keys));
      Walk(before, change, path + [key]);
      assert fields[key := Object(inner)][key := Object(EditedFields(inner, change, change.fields.Keys))]
             == fields[key := Object(EditedFields(inner, change, change.fields.Keys))];
    }
  }

  lemma NothingDone(fields: Fields, change: Json)
    requires change.Object?
    ensures EditedFields(fields, change, change.fields.Keys - change.fields.Keys) == fields
  {
  }

  lemma OneMoreField(fields: Fields, change: Json, done: set<string>, key: string)
    requires change.Object? && key in change.fields && key !in done
    ensures var soFar, r := EditedFields(fields, change, done), EditedField(Field(fields, key), change.fields[key]);
            && EditedFields(fields, change, done + {key}) == (if r.Some? then soFar[key := r.value] else soFar - {key})
            && Field(soFar, key) == Field(fields, key)
  {
    var soFar, more := EditedFields(fields, change, done), EditedFields(fields, change, done + {key});
    var r := EditedField(Field(fields, key), change.fields[key]);
    SameFields(more, if r.Some? then soFar[key := r.value] else soFar - {key});
  }

  // ---------------------------------------------------------------------
  // Recursion and path edits
  // ---------------------------------------------------------------------

  /** The patch says null where the target has an explicit null. */
  predicate NullAtNull(target: Option<Json>, patch: Json)
    decreases patch, 1
  {
    patch.Object? && exists k | k in patch.fields :: DiffersAt(FieldsOf(target), patch, k)
  }

  predicate DiffersAt(base: Fields, patch: Json, k: string)
    requires patch.Object?
    decreases patch, 0
  {
    k in patch.fields
    && ((patch.fields[k].Null? && Field(base, k) == Some(Null)) || NullAtNull(Field(base, k), patch.fields[k]))
  }

  /** The path edits give the RFC's result exactly when the patch nowhere deletes an
      explicit null: `walk` leaves such a null in place, the RFC removes it. */
  lemma {:induction false} EditsMeetTheRfcIff(target: Option<Json>, patch: Json)
    requires patch.Object?
    ensures EditedField(target, patch) == Some(Merged(target, patch)) <==> !NullAtNull(target, patch)
    decreases patch
  {
    var base, edited, merged := FieldsOf(target), EditedField(target, patch).value.fields, Merged(target, patch).fields;
    forall k
      ensures Field(edited, k) == Field(merged, k) <==> !DiffersAt(base, patch, k)
    {
      FieldOfMerged(target, patch, k);
      FieldOfEdited(base, patch, k);
      if k in patch.fields && patch.fields[k].Object? {
        EditsMeetTheRfcIff(Field(base, k), patch.fields[k]);
      }
    }
    hide Merged, EditedField, EditedFields;
    if !NullAtNull(target, patch) {
      SameFields(edited, merged);
    } else {
      var k :| k in patch.fields && DiffersAt(base, patch, k);
      assert Field(edited, k) != Field(merged, k);
    }
  }

  lemma FieldOfEdited(base: Fields, change: Json, k: string)
    requires change.Object?
    ensures Field(EditedFields(base, change, change.fields.Keys), k)
            == if k in change.fields then EditedField(Field(base, k), change.fields[k]) else Field(base, k)
  {
  }

  datatype PatchFailure = PolicyDenied | InvalidParams

  /** `configPatch`, on parsed values: `redacted` and `wellFormed` are what the
      placeholder and tree checks say about the patch. A change is committed only if
      it is the RFC's result. */
  method ConfigPatch(current: Json, patch: Json, allowed: set<string>, redacted: bool, wellFormed: bool)
    returns (r: Result<Json, PatchFailure>)
    ensures r.Ok? ==> r.value == Merged(Some(current), patch) && r.value.Object?
    ensures r.Ok? ==> forall k | k !in allowed :: Field(FieldsOf(Some(r.value)), k) == Field(FieldsOf(Some(current)), k)
    ensures r.Ok? <==>
              && !redacted && wellFormed && patch.Object? && current.Object?
              && allowed != {} && patch.fields.Keys <= allowed && !NullAtNull(Some(current), patch)
  {
    if redacted || !patch.Object? { return Err(InvalidParams); }
    if allowed == {} || !(patch.fields.Keys <= allowed) { return Err(PolicyDenied); }
    if !current.Object? || !wellFormed { return Err(InvalidParams); }
    var doc := new ConfigDocument(current);
    doc.Walk(Some(current), patch, []);
    var expected := ApplyJsonMergePatch(Some(current), patch);
    EditsMeetTheRfcIff(Some(current), patch);
    if doc.root != expected { return Err(InvalidParams); }
    return Ok(doc.root);
  }
}
