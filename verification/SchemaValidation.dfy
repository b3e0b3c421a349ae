/** Which schemas are valid, and the shape their fields have once every reference
    is replaced. */
module SchemaValidation {
  import opened Wrappers
  import opened Text
  import opened Schemas
  import opened SchemaCycles
  import opened SchemaExpansion
  import opened FieldComparison

  const SUPPORTED_SCHEMA_VERSION := 1

  function DefinitionsOf(types: seq<NamedObject>): Definitions {
    if types == [] then map[]
    else
      var last := types[|types| - 1];
      DefinitionsOf(types[..|types| - 1])[last.name := last.definition]
  }

  // ---- Names ----

  predicate IsLower(c: char) {
    'a' <= c <= 'z'
  }

  predicate IsAlphanumeric(c: char) {
    IsLower(c) || 'A' <= c <= 'Z' || IsDigit(c)
  }

  predicate Alphanumeric(text: string) {
    text != "" && forall c | c in text :: IsAlphanumeric(c)
  }

  /** identifierPattern */
  predicate IsIdentifier(text: string) {
    Alphanumeric(text) && !IsDigit(text[0])
  }

  /** methodPattern: two segments or more, each from a lower-case letter. */
  predicate IsMethodName(text: string) {
    var segments := Split(text, '.');
    |segments| >= 2 && forall i | 0 <= i < |segments| :: Alphanumeric(segments[i]) && IsLower(segments[i][0])
  }

  /** fieldNamePattern: words between single underscores, the first an identifier. */
  predicate IsFieldName(text: string) {
    var words := Split(text, '_');
    IsIdentifier(words[0]) && forall i | 0 <= i < |words| :: Alphanumeric(words[i])
  }

  predicate JoinsMethod(text: string, segments: seq<string>) {
    && |segments| >= 2 && text == Join(segments, '.')
    && forall i | 0 <= i < |segments| :: Alphanumeric(segments[i]) && IsLower(segments[i][0])
  }

  predicate JoinsField(text: string, words: seq<string>) {
    && |words| >= 1 && text == Join(words, '_') && IsIdentifier(words[0])
    && forall i | 0 <= i < |words| :: Alphanumeric(words[i])
  }

  /** The two patterns as grammars: what is joined by the separator. */
  lemma MethodGrammar(text: string)
    ensures IsMethodName(text) <==> exists segments :: JoinsMethod(text, segments)
  {
    SplitJoin(text, '.');
    if IsMethodName(text) {
      assert JoinsMethod(text, Split(text, '.'));
    }
    if segments :| JoinsMethod(text, segments) {
      NoSeparator(segments, '.');
      JoinSplit(segments, '.');
    }
  }

  lemma FieldGrammar(text: string)
    ensures IsFieldName(text) <==> exists words :: JoinsField(text, words)
  {
    SplitJoin(text, '_');
    if IsFieldName(text) {
      assert JoinsField(text, Split(text, '_'));
    }
    if words :| JoinsField(text, words) {
      NoSeparator(words, '_');
      JoinSplit(words, '_');
    }
  }

  lemma NoSeparator(words: seq<string>, sep: char)
    requires !IsAlphanumeric(sep) && forall i | 0 <= i < |words| :: Alphanumeric(words[i])
    ensures forall i | 0 <= i < |words| :: sep !in words[i]
  {
  }

  predicate TypesNamed(o: Object) {
    IsIdentifier(o.goType) && IsIdentifier(o.dartType)
  }

  /** An object and the inline objects inside it. */
  function Objects(o: Object): seq<Object>
    decreases o, 1
  {
    [o] + FieldObjects(o.fields)
  }

  function FieldObjects(fields: seq<Field>): seq<Object>
    decreases fields, 0
  {
    if fields == [] then []
    else (if fields[0].inline.Some? then Objects(fields[0].inline.value) else []) + FieldObjects(fields[1..])
  }

  function MethodObjects(m: Method): seq<Object> {
    (if m.params.Some? then Objects(m.params.value) else []) + Objects(m.result) + FieldObjects(m.meta)
  }

  /** Every object for which types are generated. */
  function TypeObjects(types: seq<NamedObject>): seq<Object> {
    if types == [] then [] else Objects(types[0].definition) + TypeObjects(types[1..])
  }

  function AllMethodObjects(methods: seq<Method>): seq<Object> {
    if methods == [] then [] else MethodObjects(methods[0]) + AllMethodObjects(methods[1..])
  }

  predicate TypesDistinct(objects: seq<Object>) {
    forall i, j | 0 <= i < j < |objects| ::
      objects[i].goType != objects[j].goType && objects[i].dartType != objects[j].dartType
  }

  // ---- Fields ----

  /** The type, object and reference of a field. */
  predicate ValidKind(definitions: Definitions, f: Field) {
    if f.kind == "object" then
      (f.inline.None? || f.ref == "") && (f.ref != "" ==> f.ref in definitions) && (f.inline.Some? || f.ref != "")
    else
      && (f.kind == "string" || f.kind == "integer" || f.kind == "number" || f.kind == "boolean" || f.kind == "file")
      && f.inline.None? && f.ref == "" && (f.kind == "file" ==> !f.isArray)
  }

  predicate ValidEnum(enum: seq<string>) {
    && (forall i | 0 <= i < |enum| :: enum[i] != "")
    && forall i, j | 0 <= i < j < |enum| :: enum[i] != enum[j]
  }

  /** Options that only some scalar types take. */
  predicate ValidOptions(f: Field) {
    var text, number := f.kind == "string" && !f.isArray, f.kind == "integer" && !f.isArray;
    && (f.format != "" ==> f.kind == "string" && f.format == "date-time")
    && f.minLength >= 0 && f.maxLength >= 0
    && (f.minLength > 0 || f.maxLength > 0 || f.trim || f.enum != [] ==> text)
    && (f.maxLength > 0 ==> f.minLength <= f.maxLength)
    && (f.minimum.Some? || f.maximum.Some? ==> number)
    && (f.minimum.Some? && f.maximum.Some? ==> f.minimum.value <= f.maximum.value)
    && ValidEnum(f.enum)
  }

  predicate ValidField(definitions: Definitions, f: Field)
    decreases f, 0
  {
    && IsFieldName(f.name) && ValidKind(definitions, f) && ValidOptions(f)
    && (f.inline.Some? ==>
          TypesNamed(f.inline.value) && f.inline.value.fields != [] && ValidFields(definitions, f.inline.value.fields))
  }

  predicate ValidFields(definitions: Definitions, fields: seq<Field>)
    decreases fields
  {
    && (forall i, j | 0 <= i < j < |fields| :: fields[i].name != fields[j].name)
    && forall i | 0 <= i < |fields| :: ValidField(definitions, fields[i])
  }

  predicate ValidObject(definitions: Definitions, o: Object) {
    TypesNamed(o) && o.fields != [] && ValidFields(definitions, o.fields)
  }

  predicate ValidMethod(definitions: Definitions, m: Method) {
    && IsMethodName(m.name) && IsIdentifier(m.clientName)
    && (m.params.Some? ==> ValidObject(definitions, m.params.value))
    && ValidObject(definitions, m.result) && ValidFields(definitions, m.meta)
  }

  /** What Validate checks before and after the search for cycles. The clashes
      among the constants, fields and members that a name generates are taken as
      one check. */
  predicate ValidParts(schema: Schema, generates: Schema -> bool) {
    var definitions := DefinitionsOf(schema.types);
    && schema.schemaVersion == SUPPORTED_SCHEMA_VERSION && schema.protocolVersion >= 1 && schema.methods != []
    && (forall i | 0 <= i < |schema.types| :: IsIdentifier(schema.types[i].name))
    && (forall i, j | 0 <= i < j < |schema.types| :: schema.types[i].name != schema.types[j].name)
    && (forall i | 0 <= i < |schema.types| :: ValidObject(definitions, schema.types[i].definition))
    && (forall i, j | 0 <= i < j < |schema.methods| ::
          schema.methods[i].name != schema.methods[j].name
              && schema.methods[i].clientName != schema.methods[j].clientName)
    && (forall i | 0 <= i < |schema.methods| :: ValidMethod(definitions, schema.methods[i]))
    && TypesDistinct(TypeObjects(schema.types) + AllMethodObjects(schema.methods))
    && generates(schema)
  }

  ghost predicate ValidSchema(schema: Schema, generates: Schema -> bool) {
    ValidParts(schema, generates) && Acyclic(DefinitionsOf(schema.types))
  }

  ghost predicate TypesOrdered(schema: Schema, order: seq<string>) {
    var definitions := DefinitionsOf(schema.types);
    Ordered(definitions, order) && forall name | name in definitions :: name in order
  }

  method Validate(schema: Schema, generates: Schema -> bool) returns (ok: bool, ghost order: seq<string>)
    ensures ok <==> ValidSchema(schema, generates)
    ensures ok ==> TypesOrdered(schema, order)
  {
    var acyclic;
    acyclic, order := ValidateReferenceCycles(DefinitionsOf(schema.types));
    ok := acyclic && ValidParts(schema, generates);
  }

  // ---- Resolving a valid schema ----

  ghost predicate AllValid(definitions: Definitions) {
    forall name | name in definitions :: ValidFields(definitions, definitions[name].fields)
  }

  lemma {:induction false} DefinitionAt(types: seq<NamedObject>, name: string)
    requires name in DefinitionsOf(types)
    ensures exists i | 0 <= i < |types| :: DefinitionsOf(types)[name] == types[i].definition
  {
    var last := |types| - 1;
    if types[last].name == name {
      assert DefinitionsOf(types)[name] == types[last].definition;
    } else {
      DefinitionAt(types[..last], name);
      var i :| 0 <= i < last && DefinitionsOf(types[..last])[name] == types[..last][i].definition;
      assert DefinitionsOf(types)[name] == types[i].definition;
    }
  }

  lemma PartsAllValid(schema: Schema, generates: Schema -> bool)
    requires ValidParts(schema, generates)
    ensures AllValid(DefinitionsOf(schema.types))
  {
    forall name | name in DefinitionsOf(schema.types)
      ensures ValidFields(DefinitionsOf(schema.types), DefinitionsOf(schema.types)[name].fields)
    {
      DefinitionAt(schema.types, name);
    }
  }

  lemma {:induction false} ValidTail(definitions: Definitions, fields: seq<Field>)
    requires ValidFields(definitions, fields) && fields != []
    ensures ValidField(definitions, fields[0]) && ValidFields(definitions, fields[1..])
  {
    assert forall i | 0 <= i < |fields[1..]| :: fields[1..][i] == fields[i + 1];
  }

  lemma {:induction false} ValidRefs(definitions: Definitions, fields: seq<Field>)
    requires ValidFields(definitions, fields)
    ensures Refs(fields) <= definitions.Keys
    decreases fields
  {
    if fields != [] {
      ValidTail(definitions, fields);
      if fields[0].inline.Some? {
        ValidRefs(definitions, fields[0].inline.value.fields);
      }
      ValidRefs(definitions, fields[1..]);
    }
  }

  lemma {:induction false} ExpansionAt(definitions: Definitions, fields: seq<Field>, out: seq<Field>, i: nat)
    requires IsExpansion(definitions, fields, out) && i < |out|
    ensures |out| == |fields| && out[i].(inline := None) == fields[i].(inline := None)
    ensures out[i].inline.Some? <==> Source(definitions, fields[i]).Some?
    ensures out[i].inline.Some? ==>
              IsExpansion(definitions, Source(definitions, fields[i]).value.fields, out[i].inline.value.fields)
    decreases i
  {
    if i > 0 {
      ExpansionAt(definitions, fields[1..], out[1..], i - 1);
    }
  }

  /** The expansion of valid fields has the shape the comparison works on. */
  lemma {:induction false} ExpansionIsShaped(definitions: Definitions, fields: seq<Field>, out: seq<Field>)
    requires AllValid(definitions) && ValidFields(definitions, fields) && IsExpansion(definitions, fields, out)
    ensures WellShaped(out)
    decreases out
  {
    forall i | 0 <= i < |out|
      ensures out[i].name == fields[i].name
      ensures (out[i].kind == "object" <==> out[i].inline.Some?) && (out[i].kind == "file" ==> !out[i].isArray)
      ensures out[i].inline.Some? ==> WellShaped(out[i].inline.value.fields)
    {
      ExpansionAt(definitions, fields, out, i);
      var bare := out[i].(inline := None);
      assert bare.name == fields[i].name && bare.kind == fields[i].kind && bare.isArray == fields[i].isArray;
      assert ValidField(definitions, fields[i]);
      if out[i].inline.Some? {
        ExpansionIsShaped(definitions, Source(definitions, fields[i]).value.fields, out[i].inline.value.fields);
      }
    }
  }

  ghost predicate ObjectExpands(definitions: Definitions, o: Object, out: Object) {
    out.goType == o.goType && out.dartType == o.dartType && IsExpansion(definitions, o.fields, out.fields)
  }

  /** resolveReferences for one method. */
  ghost predicate MethodExpands(definitions: Definitions, m: Method, out: Method) {
    && out.name == m.name && out.clientName == m.clientName && out.stream == m.stream
    && (out.params.Some? <==> m.params.Some?)
    && (m.params.Some? ==> ObjectExpands(definitions, m.params.value, out.params.value))
    && ObjectExpands(definitions, m.result, out.result)
    && IsExpansion(definitions, m.meta, out.meta)
  }

  predicate MethodShaped(m: Method) {
    && (m.params.Some? ==> WellShaped(m.params.value.fields))
    && WellShaped(m.result.fields) && WellShaped(m.meta)
  }

  method ResolveFieldList(definitions: Definitions, fields: seq<Field>, ghost order: seq<string>)
    returns (out: seq<Field>)
    requires AllValid(definitions) && ValidFields(definitions, fields)
    requires Ordered(definitions, order) && forall name | name in definitions :: name in order
    ensures IsExpansion(definitions, fields, out) && WellShaped(out)
  {
    ValidRefs(definitions, fields);
    assert order[..|order|] == order;
    out := ResolveFields(definitions, fields, order, |order|);
    ResolveExpands(definitions, fields, order, |order|);
    ExpansionIsShaped(definitions, fields, out);
  }

  method ResolveMethod(definitions: Definitions, m: Method, ghost order: seq<string>) returns (out: Method)
    requires AllValid(definitions) && ValidMethod(definitions, m)
    requires Ordered(definitions, order) && forall name | name in definitions :: name in order
    ensures MethodExpands(definitions, m, out) && MethodShaped(out)
  {
    out := m;
    if m.params.Some? {
      var params := ResolveFieldList(definitions, m.params.value.fields, order);
      out := out.(params := Some(m.params.value.(fields := params)));
    }
    var result := ResolveFieldList(definitions, m.result.fields, order);
    var meta := ResolveFieldList(definitions, m.meta, order);
    out := out.(result := m.result.(fields := result), meta := meta);
  }

  /** resolveReferences, for the methods of a valid schema. */
  method ResolveReferences(schema: Schema, ghost generates: Schema -> bool, ghost order: seq<string>)
    returns (methods: seq<Method>)
    requires ValidSchema(schema, generates) && TypesOrdered(schema, order)
    ensures |methods| == |schema.methods|
    ensures forall i | 0 <= i < |methods| ::
              MethodExpands(DefinitionsOf(schema.types), schema.methods[i], methods[i]) && MethodShaped(methods[i])
  {
    PartsAllValid(schema, generates);
    methods := [];
    while |methods| < |schema.methods|
      invariant |methods| <= |schema.methods|
      invariant forall i | 0 <= i < |methods| ::
                  MethodExpands(DefinitionsOf(schema.types), schema.methods[i], methods[i]) && MethodShaped(methods[i])
    {
      var out := ResolveMethod(DefinitionsOf(schema.types), schema.methods[|methods|], order);
      methods := methods + [out];
    }
  }
}
