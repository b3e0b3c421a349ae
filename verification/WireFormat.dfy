/** What crosses the wire: the values the generated Dart decoders take and the
    request payloads the generated Go code accepts, for resolved fields. */
module WireFormat {
  import opened Wrappers
  import opened Schemas

  /** JSON values; a number without fraction or exponent is an Integer. */
  datatype Json =
    | Null
    | Bool(value: bool)
    | Integer(number: int)
    | Fraction(finite: bool)
    | Text(text: string)
    | List(items: seq<Json>)
    | Members(members: map<string, Json>)

  type Payload = map<string, Json>

  /** Checks of leaves that are taken as given. */
  datatype Leaves = Leaves(
    parsesDate: string -> bool,
    decodesFile: Json -> bool,
    bindsFile: Json -> bool,
    trimmed: string -> string)

  const MAX_INT := 0x7fff_ffff_ffff_ffff

  /** A map lookup; an absent key reads as null in Dart. */
  function At(m: Payload, name: string): Json {
    if name in m then m[name] else Null
  }

  predicate HasName(fields: seq<Field>, name: string) {
    exists i | 0 <= i < |fields| :: fields[i].name == name
  }

  // ---- Responses: the generated decoder ----

  /** value is T, for the Dart type of a scalar. */
  predicate IsScalar(l: Leaves, f: Field, v: Json) {
    if f.kind == "number" then v.Integer? || (v.Fraction? && v.finite)
    else if f.format == "date-time" then v.Text? && l.parsesDate(v.text)
    else if f.kind == "string" then v.Text?
    else if f.kind == "integer" then v.Integer?
    else f.kind == "boolean" && v.Bool?
  }

  /** One value, or one item of a list. */
  predicate DecodesOne(l: Leaves, f: Field, v: Json)
    decreases f, 0
  {
    if f.kind == "number" then IsScalar(l, f, v)
    else if f.kind == "file" then v.Members? && l.decodesFile(v)
    else if f.inline.Some? then v.Members? && DecodesAll(l, f.inline.value.fields, v.members)
    else IsScalar(l, f, v)
  }

  predicate DecodesField(l: Leaves, f: Field, m: Payload)
    decreases f, 1
  {
    var v := At(m, f.name);
    if v.Null? then f.nullable
    else if f.isArray && f.kind != "file" then v.List? && forall i | 0 <= i < |v.items| :: DecodesOne(l, f, v.items[i])
    else DecodesOne(l, f, v)
  }

  /** The fromJson factory reads the fields it knows and ignores the rest. */
  predicate DecodesAll(l: Leaves, fields: seq<Field>, m: Payload)
    decreases fields
  {
    forall i | 0 <= i < |fields| :: DecodesField(l, fields[i], m)
  }

  /** The members are those of the schema, at every depth: what an encoder for
      the fields writes. */
  predicate ClosedOne(f: Field, v: Json)
    decreases f, 0
  {
    f.inline.Some? && v.Members? ==> ClosedAll(f.inline.value.fields, v.members)
  }

  predicate ClosedAll(fields: seq<Field>, m: Payload)
    decreases fields
  {
    && (forall name | name in m :: HasName(fields, name))
    && forall i | 0 <= i < |fields| && fields[i].name in m ::
         var v := m[fields[i].name];
         if v.List? then forall k | 0 <= k < |v.items| :: ClosedOne(fields[i], v.items[k]) else ClosedOne(fields[i], v)
  }

  /** A response of a server with these fields that its own client decodes. */
  predicate Responds(l: Leaves, fields: seq<Field>, m: Payload) {
    ClosedAll(fields, m) && DecodesAll(l, fields, m)
  }

  // ---- Requests: bind, presence, rules ----

  /** Go's strict decoder; null leaves any target at its zero value. */
  predicate BindsOne(l: Leaves, f: Field, v: Json)
    decreases f, 0
  {
    if v.Null? then true
    else if f.inline.Some? then v.Members? && BindsAll(l, f.inline.value.fields, v.members)
    else if f.kind == "file" then l.bindsFile(v)
    else if f.kind == "string" then v.Text?
    else if f.kind == "integer" then v.Integer? && -MAX_INT - 1 <= v.number <= MAX_INT
    else if f.kind == "number" then v.Integer? || (v.Fraction? && v.finite)
    else f.kind == "boolean" && v.Bool?
  }

  predicate BindsField(l: Leaves, f: Field, v: Json)
    decreases f, 1
  {
    if v.Null? then true
    else if f.isArray then v.List? && forall i | 0 <= i < |v.items| :: BindsOne(l, f, v.items[i])
    else BindsOne(l, f, v)
  }

  predicate BindsAll(l: Leaves, fields: seq<Field>, m: Payload)
    decreases fields
  {
    && (forall name | name in m :: HasName(fields, name))
    && forall i | 0 <= i < |fields| :: BindsField(l, fields[i], At(m, fields[i].name))
  }

  /** ValidateRequestPayload: required members are there and not null, also in
      nested objects but not in lists. */
  predicate PresentField(f: Field, v: Json)
    decreases f
  {
    if v.Null? then f.nullable
    else if f.isArray || f.inline.None? then true
    else v.Members? && PresentAll(f.inline.value.fields, v.members)
  }

  predicate PresentAll(fields: seq<Field>, m: Payload)
    decreases fields
  {
    forall i | 0 <= i < |fields| :: PresentField(fields[i], At(m, fields[i].name))
  }

  /** The rules on the text a field decodes to, trimmed first when asked to. */
  predicate TextRules(l: Leaves, f: Field, text: string) {
    var t := if f.trim then l.trimmed(text) else text;
    && (f.minLength > 0 ==> |t| >= f.minLength)
    && (f.maxLength > 0 ==> |t| <= f.maxLength)
    && (f.enum != [] ==> t in f.enum)
  }

  predicate NumberRules(f: Field, n: int) {
    (f.minimum.Some? ==> n >= f.minimum.value) && (f.maximum.Some? ==> n <= f.maximum.value)
  }

  /** A value that was null or absent is validated as its zero value. */
  predicate PassesOne(l: Leaves, f: Field, v: Json)
    decreases f, 0
  {
    if f.inline.Some? then PassesAll(l, f.inline.value.fields, if v.Members? then v.members else map[])
    else if f.isArray then true
    else TextRules(l, f, if v.Text? then v.text else "") && NumberRules(f, if v.Integer? then v.number else 0)
  }

  predicate PassesField(l: Leaves, f: Field, v: Json)
    decreases f, 1
  {
    if v.Null? && f.nullable then true
    else if f.isArray && f.inline.Some? then
      v.List? ==> forall i | 0 <= i < |v.items| :: PassesOne(l, f, v.items[i])
    else PassesOne(l, f, v)
  }

  predicate PassesAll(l: Leaves, fields: seq<Field>, m: Payload)
    decreases fields
  {
    forall i | 0 <= i < |fields| :: PassesField(l, fields[i], At(m, fields[i].name))
  }

  /** BindAndValidate; a missing payload counts as the empty object. */
  predicate Accepts(l: Leaves, fields: seq<Field>, payload: Option<Json>) {
    var v := if payload.Some? then payload.value else Members(map[]);
    v.Members? && BindsAll(l, fields, v.members) && PresentAll(fields, v.members) && PassesAll(l, fields, v.members)
  }
}
