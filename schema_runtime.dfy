/**
 * The runtime configuration checker: a type-string test, a validator for
 * dict-shaped values against a small schema, and the schema derived from an
 * action-catalog entry's shorthand.
 */
module SchemaRuntime {
  import opened Wrappers
  import opened JsonValues

  /** `list[T]`: at least six characters, the prefix `list[` and a final `]`. */
  predicate IsListType(t: string) {
    |t| >= 6 && t[..5] == "list[" && t[|t| - 1] == ']'
  }

  /** The type strings with a fixed meaning. */
  const NamedTypes: set<string> := {"int", "float", "bool", "str", "dict", "list"}

  /** `_is_type(v, t)`: booleans are neither ints nor floats; an unknown type string accepts anything. */
  function IsType(v: Json, t: string): bool
    decreases |t|
  {
    if t == "int" then v.JInt?
    else if t == "float" then v.JInt? || v.JFloat?
    else if t == "bool" then v.JBool?
    else if t == "str" then v.JStr?
    else if t == "dict" then v.JObj?
    else if t == "list" then v.JList?
    else if IsListType(t) then
      v.JList? && forall i :: 0 <= i < |v.items| ==> IsType(v.items[i], t[5..|t| - 1])
    else true
  }

  /** Every int is a float; no boolean is an int or a float; an unrecognised type string accepts every value. */
  lemma IsTypeBasics(v: Json, t: string)
    ensures IsType(v, "int") ==> IsType(v, "float")
    ensures v.JBool? ==> !IsType(v, "int") && !IsType(v, "float") && IsType(v, "bool")
    ensures t !in NamedTypes && !IsListType(t) ==> IsType(v, t)
  {
  }

  /** `list[T]` holds of exactly the lists whose every element is a `T`, and every such value is a `list`. */
  lemma ListTypeElements(v: Json, inner: string)
    ensures IsType(v, "list[" + inner + "]") <==>
      v.JList? && forall i :: 0 <= i < |v.items| ==> IsType(v.items[i], inner)
    ensures IsType(v, "list[" + inner + "]") ==> IsType(v, "list")
  {
    var t := "list[" + inner + "]";
    assert t[..5] == "list[" && t[|t| - 1] == ']';
    assert t[5..|t| - 1] == inner;
    assert t !in NamedTypes;
  }

  /** A list of `T` is a concatenation of lists of `T`. */
  lemma ListTypeAppend(a: seq<Json>, b: seq<Json>, inner: string)
    ensures IsType(JList(a + b), "list[" + inner + "]") <==>
      IsType(JList(a), "list[" + inner + "]") && IsType(JList(b), "list[" + inner + "]")
  {
    ListTypeElements(JList(a + b), inner);
    ListTypeElements(JList(a), inner);
    ListTypeElements(JList(b), inner);
    if IsType(JList(a), "list[" + inner + "]") && IsType(JList(b), "list[" + inner + "]") {
      forall i | 0 <= i < |a + b|
        ensures IsType((a + b)[i], inner)
      {
        if i >= |a| {
          assert (a + b)[i] == b[i - |a|];
        }
      }
    }
    if IsType(JList(a + b), "list[" + inner + "]") {
      forall i | 0 <= i < |a|
        ensures IsType(a[i], inner)
      {
        assert (a + b)[i] == a[i];
      }
      forall i | 0 <= i < |b|
        ensures IsType(b[i], inner)
      {
        assert (a + b)[|a| + i] == b[i];
      }
    }
  }

  // ---------------------------------------------------------------------
  // validate_object

  /**
   * A schema: the required keys in order, the declared type of each property
   * (`None` when its spec has no truthy `type`), and whether undeclared keys
   * are refused (`additionalProperties` is `False`).
   */
  datatype Schema = Schema(required: seq<string>, properties: map<string, Option<string>>, closed: bool)

  datatype ErrorKind = NotAnObject | MissingField | WrongType(expected: string) | UnexpectedField

  datatype ValidationError = ValidationError(path: string, kind: ErrorKind)

  function Child(path: string, key: string): string {
    path + "." + key
  }

  /** The first loop: one error per absent required key, in the schema's order. */
  function MissingErrors(required: seq<string>, obj: Entries, path: string): seq<ValidationError> {
    if |required| == 0 then []
    else
      var k := required[|required| - 1];
      MissingErrors(required[..|required| - 1], obj, path)
      + (if k !in Keys(obj) then [ValidationError(Child(path, k), MissingField)] else [])
  }

  /** The error one entry of the object draws, if any. */
  function FieldError(k: string, v: Json, s: Schema, path: string): Option<ValidationError> {
    if k in s.properties then
      var typ := s.properties[k];
      if typ.Some? && typ.value != "" && !IsType(v, typ.value) then Some(ValidationError(Child(path, k), WrongType(typ.value)))
      else None
    else if s.closed then Some(ValidationError(Child(path, k), UnexpectedField))
    else None
  }

  /** The second loop: the errors of the object's entries, in the object's order. */
  function FieldErrors(obj: Entries, s: Schema, path: string): seq<ValidationError> {
    if |obj| == 0 then []
    else
      var (k, v) := obj[|obj| - 1];
      var e := FieldError(k, v, s, path);
      FieldErrors(obj[..|obj| - 1], s, path) + (if e.Some? then [e.value] else [])
  }

  /** `validate_object(obj, schema, path)`. */
  function Errors(obj: Json, s: Schema, path: string): seq<ValidationError> {
    if !obj.JObj? then [ValidationError(path, NotAnObject)]
    else MissingErrors(s.required, obj.entries, path) + FieldErrors(obj.entries, s, path)
  }

  /** The entry draws no error: its declared type, if any, holds, and it is declared when the schema is closed. */
  predicate FieldOk(k: string, v: Json, s: Schema) {
    if k in s.properties then
      s.properties[k].None? || s.properties[k].value == "" || IsType(v, s.properties[k].value)
    else !s.closed
  }

  /** A missing-field error is reported exactly for each absent required key. */
  lemma {:induction false} MissingErrorsExact(required: seq<string>, obj: Entries, path: string, e: ValidationError)
    ensures e in MissingErrors(required, obj, path) <==>
      exists k :: k in required && k !in Keys(obj) && e == ValidationError(Child(path, k), MissingField)
  {
    if |required| > 0 {
      var init := required[..|required| - 1];
      MissingErrorsExact(init, obj, path, e);
      assert required == init + [required[|required| - 1]];
    }
  }

  /** Missing-field errors follow the order of the required list. */
  lemma {:induction false} MissingErrorsAppend(a: seq<string>, b: seq<string>, obj: Entries, path: string)
    ensures MissingErrors(a + b, obj, path) == MissingErrors(a, obj, path) + MissingErrors(b, obj, path)
    decreases |b|
  {
    if |b| > 0 {
      var b0 := b[..|b| - 1];
      assert (a + b)[..|a + b| - 1] == a + b0;
      MissingErrorsAppend(a, b0, obj, path);
    } else {
      assert a + b == a;
    }
  }

  lemma {:induction false} MissingErrorsEmpty(required: seq<string>, obj: Entries, path: string)
    ensures MissingErrors(required, obj, path) == [] <==> forall k :: k in required ==> k in Keys(obj)
  {
    if |required| > 0 {
      var init := required[..|required| - 1];
      MissingErrorsEmpty(init, obj, path);
      var last := required[|required| - 1];
      assert required == init + [last];
      var tail := if last !in Keys(obj) then [ValidationError(Child(path, last), MissingField)] else [];
      assert MissingErrors(required, obj, path) == MissingErrors(init, obj, path) + tail;
      assert MissingErrors(required, obj, path) == [] <==> MissingErrors(init, obj, path) == [] && tail == [];
      if forall k :: k in required ==> k in Keys(obj) {
        assert last in required;
        assert forall k :: k in init ==> k in required;
      } else {
        var k :| k in required && k !in Keys(obj);
        assert k in init || k == last;
      }
    }
  }

  lemma {:induction false} FieldErrorsEmpty(obj: Entries, s: Schema, path: string)
    ensures FieldErrors(obj, s, path) == [] <==> forall i :: 0 <= i < |obj| ==> FieldOk(obj[i].0, obj[i].1, s)
  {
    if |obj| > 0 {
      var init := obj[..|obj| - 1];
      FieldErrorsEmpty(init, s, path);
      assert forall i :: 0 <= i < |init| ==> init[i] == obj[i];
    }
  }

  /**
   * A value that is not a dict draws exactly one error, at `path`; a dict
   * draws none exactly when every required key is present, every present
   * declared property has its type, and no undeclared key appears in a closed
   * schema.
   */
  lemma ErrorsEmptyIff(obj: Json, s: Schema, path: string)
    ensures !obj.JObj? ==> Errors(obj, s, path) == [ValidationError(path, NotAnObject)]
    ensures obj.JObj? ==>
      (Errors(obj, s, path) == [] <==>
        (forall k :: k in s.required ==> k in Keys(obj.entries))
        && (forall i :: 0 <= i < |obj.entries| ==> FieldOk(obj.entries[i].0, obj.entries[i].1, s)))
  {
    if obj.JObj? {
      MissingErrorsEmpty(s.required, obj.entries, path);
      FieldErrorsEmpty(obj.entries, s, path);
    }
  }

  /** `validate_object`, accumulating `errs` as the two loops do. */
  method ValidateObject(obj: Json, s: Schema, path: string) returns (errs: seq<ValidationError>)
    ensures errs == Errors(obj, s, path)
  {
    if !obj.JObj? {
      return [ValidationError(path, NotAnObject)];
    }
    var missing := MissingLoop(s.required, obj.entries, path);
    var wrong := FieldLoop(obj.entries, s, path);
    errs := missing + wrong;
  }

  /** The first loop of `validate_object`: a missing-field error per absent required key. */
  method MissingLoop(required: seq<string>, obj: Entries, path: string) returns (errs: seq<ValidationError>)
    ensures errs == MissingErrors(required, obj, path)
  {
    errs := [];
    var i := 0;
    while i < |required|
      invariant 0 <= i <= |required|
      invariant errs == MissingErrors(required[..i], obj, path)
    {
      assert required[..i + 1][..i] == required[..i];
      var k := required[i];
      if k !in Keys(obj) {
        errs := errs + [ValidationError(Child(path, k), MissingField)];
      }
      i := i + 1;
    }
    assert required[..i] == required;
  }

  /** The second loop of `validate_object`: the type and closed-schema errors of the entries, in order. */
  method FieldLoop(obj: Entries, s: Schema, path: string) returns (errs: seq<ValidationError>)
    ensures errs == FieldErrors(obj, s, path)
  {
    errs := [];
    var j := 0;
    while j < |obj|
      invariant 0 <= j <= |obj|
      invariant errs == FieldErrors(obj[..j], s, path)
    {
      assert obj[..j + 1][..j] == obj[..j];
      var (k, v) := obj[j];
      if k in s.properties {
        var typ := s.properties[k];
        if typ.Some? && typ.value != "" && !IsType(v, typ.value) {
          errs := errs + [ValidationError(Child(path, k), WrongType(typ.value))];
        }
      } else if s.closed {
        errs := errs + [ValidationError(Child(path, k), UnexpectedField)];
      }
      j := j + 1;
    }
    assert obj[..j] == obj;
  }

  // ---------------------------------------------------------------------
  // action_schema_from_catalog

  /** The declared type a shorthand value gives; only a non-empty string declares one. */
  function TypeName(v: Json): Option<string> {
    if v.JStr? && v.s != "" then Some(v.s) else None
  }

  /** `it.get("schema", {}) or {}`: the shorthand of a catalog entry, empty when missing or falsy. */
  function Shorthand(item: Entries): Entries {
    var sc := Get(item, "schema");
    if sc.Some? && sc.value.JObj? then sc.value.entries else []
  }

  /** `{k: {"type": v} for k, v in simple.items()}` (a dict's keys are distinct, so the order of insertion is immaterial). */
  function PropsOf(simple: Entries): map<string, Option<string>> {
    if |simple| == 0 then map[]
    else PropsOf(simple[1..])[simple[0].0 := TypeName(simple[0].1)]
  }

  /** The schema built from a catalog entry: every shorthand key required and typed, nothing else allowed. */
  function SchemaOf(item: Entries): Schema {
    var simple := Shorthand(item);
    Schema(Keys(simple), PropsOf(simple), true)
  }

  predicate Matches(item: Entries, actionType: string) {
    Get(item, "type") == Some(JStr(actionType))
  }

  /** `action_schema_from_catalog`: the schema of the first entry of the given type; `None` when there is none. */
  function ActionSchema(catalog: seq<Entries>, actionType: string): Option<Schema> {
    if |catalog| == 0 then None
    else if Matches(catalog[0], actionType) then Some(SchemaOf(catalog[0]))
    else ActionSchema(catalog[1..], actionType)
  }

  /** The comprehension declares exactly the shorthand's keys, each with the type of its own value. */
  lemma {:induction false} PropsOfLookup(simple: Entries, k: string)
    ensures k in PropsOf(simple) <==> k in Keys(simple)
    ensures k in Keys(simple) ==> PropsOf(simple)[k] == TypeName(Get(simple, k).value)
  {
    if |simple| > 0 && simple[0].0 != k {
      PropsOfLookup(simple[1..], k);
    }
  }

  /**
   * The schema comes from the first entry of the requested type, or is
   * `None` when no entry has it; it requires every shorthand key in order,
   * declares exactly those keys with the shorthand's types, and refuses
   * anything else.
   */
  lemma {:induction false} ActionSchemaProperties(catalog: seq<Entries>, actionType: string)
    ensures ActionSchema(catalog, actionType).None? <==> forall i :: 0 <= i < |catalog| ==> !Matches(catalog[i], actionType)
    ensures ActionSchema(catalog, actionType).Some? ==>
      exists i :: 0 <= i < |catalog| && Matches(catalog[i], actionType)
        && (forall j :: 0 <= j < i ==> !Matches(catalog[j], actionType))
        && ActionSchema(catalog, actionType).value == SchemaOf(catalog[i])
  {
    if |catalog| > 0 {
      ActionSchemaProperties(catalog[1..], actionType);
      if !Matches(catalog[0], actionType) && ActionSchema(catalog, actionType).Some? {
        var i :| 0 <= i < |catalog[1..]| && Matches(catalog[1..][i], actionType)
          && (forall j :: 0 <= j < i ==> !Matches(catalog[1..][j], actionType))
          && ActionSchema(catalog[1..], actionType).value == SchemaOf(catalog[1..][i]);
        assert catalog[i + 1] == catalog[1..][i];
        forall j | 0 <= j < i + 1
          ensures !Matches(catalog[j], actionType)
        {
          if j > 0 {
            assert catalog[j] == catalog[1..][j - 1];
          }
        }
      }
      if ActionSchema(catalog, actionType).None? {
        forall i | 0 <= i < |catalog|
          ensures !Matches(catalog[i], actionType)
        {
          if i > 0 {
            assert catalog[i] == catalog[1..][i - 1];
          }
        }
      }
    }
  }

  /**
   * The derived schema is closed, requires exactly its declared keys, and
   * gives each the type its shorthand names.
   */
  lemma SchemaOfProperties(item: Entries, k: string)
    ensures var s := SchemaOf(item);
      s.closed
      && (k in s.properties <==> k in s.required)
      && (k in s.required ==> s.properties[k] == TypeName(Get(Shorthand(item), k).value))
  {
    PropsOfLookup(Shorthand(item), k);
  }
}
