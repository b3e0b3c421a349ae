/** Replacing every reference by the object it names, which the cycle check makes
    safe. */
module SchemaExpansion {
  import opened Wrappers
  import opened Schemas
  import opened SchemaCycles

  /** All the types the fields refer to come before the level. */
  ghost predicate Below(definitions: Definitions, fields: seq<Field>, order: seq<string>, level: nat) {
    && Ordered(definitions, order) && level <= |order|
    && forall to | to in Refs(fields) :: to in order[..level]
  }

  lemma BelowParts(definitions: Definitions, fields: seq<Field>, order: seq<string>, level: nat)
    requires Below(definitions, fields, order, level) && fields != []
    ensures Below(definitions, fields[1..], order, level)
    ensures fields[0].inline.Some? ==> Below(definitions, fields[0].inline.value.fields, order, level)
    ensures fields[0].ref != "" ==>
              && IndexOf(order, fields[0].ref) < level
              && Below(definitions, DefinitionOf(definitions, fields[0].ref).fields, order,
                  IndexOf(order, fields[0].ref))
  {
    var ref := fields[0].ref;
    if ref != "" {
      assert ref in Refs(fields) && ref in order[..level];
      var k :| 0 <= k < level && order[k] == ref;
      var i := IndexOf(order, ref);
      forall to | to in Refs(DefinitionOf(definitions, ref).fields)
        ensures to in order[..i]
      {
        assert Edge(definitions, order[i], to);
      }
    }
  }

  /** A reference wins over an inline object; other fields keep what they have. */
  function ResolveFields(definitions: Definitions, fields: seq<Field>, ghost order: seq<string>, ghost level: nat)
    : (resolved: seq<Field>)
    requires Below(definitions, fields, order, level)
    ensures |resolved| == |fields|
    decreases level, fields
  {
    if fields == [] then []
    else
      BelowParts(definitions, fields, order, level);
      var field := fields[0];
      var first :=
        if field.ref != "" then
          var target := DefinitionOf(definitions, field.ref);
          field.(inline := Some(target.(fields := ResolveFields(definitions, target.fields, order,
              IndexOf(order, field.ref)))))
        else if field.inline.Some? then
          var target := field.inline.value;
          field.(inline := Some(target.(fields := ResolveFields(definitions, target.fields, order, level))))
        else field;
      [first] + ResolveFields(definitions, fields[1..], order, level)
  }

  // ---- What an expansion is, whatever computes it ----

  /** The object that the source of a field stands for. */
  function Source(definitions: Definitions, field: Field): Option<Object> {
    if field.ref != "" then Some(DefinitionOf(definitions, field.ref)) else field.inline
  }

  /** The fields with the object of every reference and inline object in place,
      at every depth. */
  predicate IsExpansion(definitions: Definitions, fields: seq<Field>, out: seq<Field>)
    decreases out
  {
    |out| == |fields| &&
    (out == [] ||
     (out[0].(inline := None) == fields[0].(inline := None)
      && (match (Source(definitions, fields[0]), out[0].inline)
          case (None, None) => true
          case (Some(source), Some(target)) =>
            target.goType == source.goType && target.dartType == source.dartType
            && IsExpansion(definitions, source.fields, target.fields)
          case _ => false)
      && IsExpansion(definitions, fields[1..], out[1..])))
  }

  /** Every reference has an object, at every depth. */
  predicate FullyResolved(fields: seq<Field>)
    decreases fields
  {
    fields == [] ||
    ((fields[0].ref != "" ==> fields[0].inline.Some?)
     && (fields[0].inline.Some? ==> FullyResolved(fields[0].inline.value.fields))
     && FullyResolved(fields[1..]))
  }

  lemma {:induction false} ResolveExpands(definitions: Definitions, fields: seq<Field>, order: seq<string>, level: nat)
    requires Below(definitions, fields, order, level)
    ensures IsExpansion(definitions, fields, ResolveFields(definitions, fields, order, level))
    decreases level, fields
  {
    if fields != [] {
      BelowParts(definitions, fields, order, level);
      if fields[0].ref != "" {
        ResolveExpands(definitions, DefinitionOf(definitions, fields[0].ref).fields, order,
            IndexOf(order, fields[0].ref));
      } else if fields[0].inline.Some? {
        ResolveExpands(definitions, fields[0].inline.value.fields, order, level);
      }
      ResolveExpands(definitions, fields[1..], order, level);
    }
  }

  /** There is only one expansion, so the search order does not matter. */
  lemma {:induction false} ExpansionUnique(definitions: Definitions, fields: seq<Field>, a: seq<Field>, b: seq<Field>)
    requires IsExpansion(definitions, fields, a) && IsExpansion(definitions, fields, b)
    ensures a == b
    decreases a
  {
    if a != [] {
      var source := Source(definitions, fields[0]);
      if source.Some? {
        ExpansionUnique(definitions, source.value.fields, a[0].inline.value.fields, b[0].inline.value.fields);
      }
      ExpansionUnique(definitions, fields[1..], a[1..], b[1..]);
      assert a == [a[0]] + a[1..] && b == [b[0]] + b[1..];
      assert a[0] == a[0].(inline := None).(inline := a[0].inline);
    }
  }

  lemma {:induction false} ExpansionIsResolved(definitions: Definitions, fields: seq<Field>, out: seq<Field>)
    requires IsExpansion(definitions, fields, out)
    ensures FullyResolved(out)
    decreases out
  {
    if out != [] {
      assert out[0].ref == out[0].(inline := None).ref;
      if out[0].inline.Some? {
        ExpansionIsResolved(definitions, Source(definitions, fields[0]).value.fields, out[0].inline.value.fields);
      }
      ExpansionIsResolved(definitions, fields[1..], out[1..]);
    }
  }

  /** Expanding again changes nothing. */
  lemma {:induction false} ExpansionIsFixed(definitions: Definitions, fields: seq<Field>, out: seq<Field>)
    requires IsExpansion(definitions, fields, out)
    ensures IsExpansion(definitions, out, out)
    decreases out
  {
    if out != [] {
      assert out[0].ref == out[0].(inline := None).ref == fields[0].ref;
      if out[0].inline.Some? {
        ExpansionIsFixed(definitions, Source(definitions, fields[0]).value.fields, out[0].inline.value.fields);
      }
      ExpansionIsFixed(definitions, fields[1..], out[1..]);
    }
  }

  // ---- An expansion exists exactly when there is no cycle ----

  /** No field has both a reference and an inline object. */
  predicate OneShape(fields: seq<Field>)
    decreases fields
  {
    fields == [] ||
    (!(fields[0].ref != "" && fields[0].inline.Some?)
     && (fields[0].inline.Some? ==> OneShape(fields[0].inline.value.fields))
     && OneShape(fields[1..]))
  }

  ghost predicate OneShapes(definitions: Definitions) {
    forall name | name in definitions :: OneShape(definitions[name].fields)
  }

  function Size(fields: seq<Field>): (n: nat)
    decreases fields
  {
    if fields == [] then 0
    else 1 + (if fields[0].inline.Some? then Size(fields[0].inline.value.fields) else 0) + Size(fields[1..])
  }

  /** The expansion of a type holds that of every type it refers to. */
  lemma {:induction false} ExpansionInside(definitions: Definitions, fields: seq<Field>, out: seq<Field>, to: string)
      returns (inside: seq<Field>)
    requires IsExpansion(definitions, fields, out) && OneShape(fields) && to in Refs(fields)
    ensures IsExpansion(definitions, DefinitionOf(definitions, to).fields, inside) && Size(inside) < Size(out)
    decreases fields
  {
    if fields[0].ref != "" && fields[0].ref == to {
      inside := out[0].inline.value.fields;
    } else if fields[0].inline.Some? && to in Refs(fields[0].inline.value.fields) {
      inside := ExpansionInside(definitions, fields[0].inline.value.fields, out[0].inline.value.fields, to);
    } else {
      inside := ExpansionInside(definitions, fields[1..], out[1..], to);
    }
  }

  lemma {:induction false} ExpansionAlong(definitions: Definitions, path: seq<string>, out: seq<Field>)
      returns (last: seq<Field>)
    requires OneShapes(definitions) && IsPath(definitions, path) && path != []
    requires IsExpansion(definitions, DefinitionOf(definitions, path[0]).fields, out)
    ensures IsExpansion(definitions, DefinitionOf(definitions, path[|path| - 1]).fields, last)
    ensures Size(last) + |path| - 1 <= Size(out)
    decreases |path|
  {
    if |path| == 1 {
      last := out;
    } else {
      assert Edge(definitions, path[0], path[1]);
      var inside := ExpansionInside(definitions, DefinitionOf(definitions, path[0]).fields, out, path[1]);
      last := ExpansionAlong(definitions, path[1..], inside);
    }
  }

  lemma CycleHasNoExpansion(definitions: Definitions, cycle: seq<string>, out: seq<Field>)
    requires OneShapes(definitions) && IsCycle(definitions, cycle)
    ensures !IsExpansion(definitions, DefinitionOf(definitions, cycle[0]).fields, out)
  {
    if IsExpansion(definitions, DefinitionOf(definitions, cycle[0]).fields, out) {
      var last := ExpansionAlong(definitions, cycle, out);
      ExpansionUnique(definitions, DefinitionOf(definitions, cycle[0]).fields, out, last);
    }
  }

  ghost predicate Expandable(definitions: Definitions) {
    forall name :: HasExpansion(definitions, DefinitionOf(definitions, name).fields)
  }

  ghost predicate HasExpansion(definitions: Definitions, fields: seq<Field>) {
    exists out :: IsExpansion(definitions, fields, out)
  }

  lemma DefinitionIsBelow(definitions: Definitions, order: seq<string>, name: string)
    requires Ordered(definitions, order) && name in definitions && name in order
    ensures Below(definitions, definitions[name].fields, order, IndexOf(order, name))
  {
    var i := IndexOf(order, name);
    forall to | to in Refs(definitions[name].fields)
      ensures to in order[..i]
    {
      assert Edge(definitions, order[i], to);
    }
  }

  lemma OrderedIsExpandable(definitions: Definitions, order: seq<string>)
    requires Ordered(definitions, order) && forall name | name in definitions :: name in order
    ensures Expandable(definitions)
  {
    forall name
      ensures HasExpansion(definitions, DefinitionOf(definitions, name).fields)
    {
      if name in definitions {
        DefinitionIsBelow(definitions, order, name);
        ResolveExpands(definitions, definitions[name].fields, order, IndexOf(order, name));
      } else {
        assert IsExpansion(definitions, [], []);
      }
    }
  }

  lemma CyclicIsNotExpandable(definitions: Definitions)
    requires OneShapes(definitions) && !Acyclic(definitions)
    ensures !Expandable(definitions)
  {
    var cycle :| IsCycle(definitions, cycle);
    if Expandable(definitions) {
      assert HasExpansion(definitions, DefinitionOf(definitions, cycle[0]).fields);
      var out :| IsExpansion(definitions, DefinitionOf(definitions, cycle[0]).fields, out);
      CycleHasNoExpansion(definitions, cycle, out);
    }
  }

  /** The gate is exact: the types are refused when there is a cycle, which is
      when no expansion exists, and are expanded at every depth otherwise. */
  method ResolveTypes(definitions: Definitions) returns (r: Option<Definitions>, ghost order: seq<string>)
    ensures r.Some? <==> Acyclic(definitions)
    ensures OneShapes(definitions) ==> (r.Some? <==> Expandable(definitions))
    ensures r.Some? ==> Ordered(definitions, order) && forall name | name in definitions :: name in order
    ensures r.Some? ==> r.value.Keys == definitions.Keys
    ensures r.Some? ==>
              forall name | name in definitions ::
                && r.value[name].(fields := []) == definitions[name].(fields := [])
                && IsExpansion(definitions, definitions[name].fields, r.value[name].fields)
                && FullyResolved(r.value[name].fields)
  {
    var ok;
    ok, order := ValidateReferenceCycles(definitions);
    if !ok {
      if OneShapes(definitions) { CyclicIsNotExpandable(definitions); }
      return None, order;
    }
    OrderedIsExpandable(definitions, order);
    forall name | name in definitions
      ensures Below(definitions, definitions[name].fields, order, IndexOf(order, name))
      ensures var out := ResolveFields(definitions, definitions[name].fields, order, IndexOf(order, name));
              IsExpansion(definitions, definitions[name].fields, out) && FullyResolved(out)
    {
      DefinitionIsBelow(definitions, order, name);
      ResolveExpands(definitions, definitions[name].fields, order, IndexOf(order, name));
      ExpansionIsResolved(definitions, definitions[name].fields,
                          ResolveFields(definitions, definitions[name].fields, order, IndexOf(order, name)));
    }
    r := Some(map name | name in definitions ::
                definitions[name].(fields := ResolveFields(definitions, definitions[name].fields, order,
                    IndexOf(order, name))));
  }
}
