/** Schemas as the code generator reads them: objects, fields and references to
    reusable types. */
module Schemas {
  import opened Wrappers

  datatype Field = Field(
    name: string, kind: string, format: string, isArray: bool, nullable: bool, enum: seq<string>,
    inline: Option<Object>, ref: string, minLength: int, maxLength: int, minimum: Option<int>, maximum: Option<int>,
    trim: bool)

  datatype Object = Object(goType: string, dartType: string, fields: seq<Field>)

  datatype NamedObject = NamedObject(name: string, definition: Object)

  datatype Method = Method(
    name: string, clientName: string, stream: bool, params: Option<Object>, result: Object, meta: seq<Field>)

  datatype Schema = Schema(schemaVersion: int, protocolVersion: int, types: seq<NamedObject>, methods: seq<Method>)

  type Definitions = map<string, Object>

  /** A Go map gives the empty object for an unknown name. */
  function DefinitionOf(definitions: Definitions, name: string): Object {
    if name in definitions then definitions[name] else Object("", "", [])
  }

  /** The reusable types named by the fields, through nested inline objects too. */
  function Refs(fields: seq<Field>): (refs: set<string>)
    decreases fields
  {
    if fields == [] then {}
    else
      (if fields[0].ref != "" then {fields[0].ref} else {})
      + (if fields[0].inline.Some? then Refs(fields[0].inline.value.fields) else {})
      + Refs(fields[1..])
  }

  predicate Edge(definitions: Definitions, from: string, to: string) {
    to in Refs(DefinitionOf(definitions, from).fields)
  }

  ghost predicate IsPath(definitions: Definitions, path: seq<string>) {
    forall i | 0 <= i < |path| - 1 :: Edge(definitions, path[i], path[i + 1])
  }

  ghost predicate IsCycle(definitions: Definitions, path: seq<string>) {
    |path| >= 2 && path[0] == path[|path| - 1] && IsPath(definitions, path)
  }

  ghost predicate Acyclic(definitions: Definitions) {
    forall path :: !IsCycle(definitions, path)
  }
}
