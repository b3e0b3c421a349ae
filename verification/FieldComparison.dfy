/** Comparing two lists of resolved fields, and what a comparison without a
    breaking change says about each field. */
module FieldComparison {
  import opened Schemas
  import opened StringSets
  import opened WireFormat

  datatype Direction = Request | Response

  datatype Change = Change(code: string, path: string, breaking: bool)

  function FieldsByName(fields: seq<Field>): map<string, Field> {
    if fields == [] then map[]
    else
      var last := fields[|fields| - 1];
      FieldsByName(fields[..|fields| - 1])[last.name := last]
  }

  function FieldPath(path: string, f: Field): string {
    path + "[" + f.name + "]"
  }

  predicate SameRules(b: Field, c: Field) {
    && b.minLength == c.minLength && b.maxLength == c.maxLength
    && b.minimum == c.minimum && b.maximum == c.maximum
    && b.trim == c.trim && EqualStringSet(b.enum, c.enum)
  }

  /** What changed in the field itself, not in the object it may hold. */
  function OwnChanges(path: string, b: Field, c: Field, direction: Direction): seq<Change> {
    (if b.nullable != c.nullable then [Change("field_nullability_changed", path + ".nullable", true)] else [])
    + (if direction.Request? && !SameRules(b, c) then [Change("request_rules_changed", path, true)] else [])
  }

  function CompareField(path: string, b: Field, c: Field, direction: Direction): seq<Change>
    decreases b, 0
  {
    if b.kind != c.kind || b.isArray != c.isArray || b.format != c.format then
      [Change("field_shape_changed", path, true)]
    else
      OwnChanges(path, b, c, direction)
      + (if b.kind != "object" || b.inline.None? || c.inline.None? then []
         else CompareFields(path + ".object.fields", b.inline.value.fields, c.inline.value.fields, direction))
  }

  /** A field of the baseline, removed or compared with the current one. */
  function Kept(path: string, b: Field, current: seq<Field>, direction: Direction): seq<Change>
    decreases b, 1
  {
    if b.name in FieldsByName(current) then
      CompareField(FieldPath(path, b), b, FieldsByName(current)[b.name], direction)
    else if direction.Request? || !b.nullable then [Change("field_removed", FieldPath(path, b), true)]
    else [Change("nullable_response_field_removed", FieldPath(path, b), false)]
  }

  function AllKept(path: string, baseline: seq<Field>, current: seq<Field>, direction: Direction): seq<Change>
    decreases baseline, 0
  {
    if baseline == [] then []
    else Kept(path, baseline[0], current, direction) + AllKept(path, baseline[1..], current, direction)
  }

  function Added(path: string, baseline: seq<Field>, c: Field, direction: Direction): seq<Change> {
    if c.name in FieldsByName(baseline) then []
    else if direction.Request? || !c.nullable then [Change("field_added", FieldPath(path, c), true)]
    else [Change("nullable_response_field_added", FieldPath(path, c), false)]
  }

  function AllAdded(path: string, baseline: seq<Field>, current: seq<Field>, direction: Direction): seq<Change> {
    if current == [] then []
    else Added(path, baseline, current[0], direction) + AllAdded(path, baseline, current[1..], direction)
  }

  /** Every change between two lists of fields, in the order they are reported. */
  function CompareFields(path: string, baseline: seq<Field>, current: seq<Field>, direction: Direction): seq<Change>
    decreases baseline, 1
  {
    AllKept(path, baseline, current, direction) + AllAdded(path, baseline, current, direction)
  }

  // ---- The loops that append to the list of changes ----

  method ReportField(path: string, b: Field, c: Field, direction: Direction, changes: seq<Change>)
    returns (out: seq<Change>)
    ensures out == changes + CompareField(path, b, c, direction)
    decreases b, 0
  {
    out := changes;
    if b.kind != c.kind || b.isArray != c.isArray || b.format != c.format {
      out := out + [Change("field_shape_changed", path, true)];
      return;
    }
    if b.nullable != c.nullable {
      out := out + [Change("field_nullability_changed", path + ".nullable", true)];
    }
    if direction.Request? && !SameRules(b, c) {
      out := out + [Change("request_rules_changed", path, true)];
    }
    assert out == changes + OwnChanges(path, b, c, direction);
    hide OwnChanges, SameRules, CompareFields;
    if b.kind != "object" || b.inline.None? || c.inline.None? {
      assert OwnChanges(path, b, c, direction) + [] == OwnChanges(path, b, c, direction);
      return;
    }
    out := ReportFields(path + ".object.fields", b.inline.value.fields, c.inline.value.fields, direction, out);
  }

  method ReportFields(path: string, baseline: seq<Field>, current: seq<Field>, direction: Direction,
      changes: seq<Change>)
    returns (out: seq<Change>)
    ensures out == changes + CompareFields(path, baseline, current, direction)
    decreases baseline, 1
  {
    out := changes;
    out := ReportKept(path, baseline, current, direction, out);
    out := ReportAdded(path, baseline, current, direction, out);
  }

  method ReportKept(path: string, baseline: seq<Field>, current: seq<Field>, direction: Direction, changes: seq<Change>)
    returns (out: seq<Change>)
    ensures out == changes + AllKept(path, baseline, current, direction)
    decreases baseline, 0
  {
    out := changes;
    var i := 0;
    assert baseline[0..] == baseline;
    while i < |baseline|
      invariant i <= |baseline|
      invariant out + AllKept(path, baseline[i..], current, direction) ==
                  changes + AllKept(path, baseline, current, direction)
    {
      var b := baseline[i];
      assert baseline[i..][1..] == baseline[i + 1..];
      if b.name !in FieldsByName(current) {
        out := out + [if direction.Request? || !b.nullable then Change("field_removed", FieldPath(path, b), true)
                      else Change("nullable_response_field_removed", FieldPath(path, b), false)];
      } else {
        out := ReportField(FieldPath(path, b), b, FieldsByName(current)[b.name], direction, out);
      }
      i := i + 1;
    }
  }

  method ReportAdded(path: string, baseline: seq<Field>, current: seq<Field>, direction: Direction,
      changes: seq<Change>)
    returns (out: seq<Change>)
    ensures out == changes + AllAdded(path, baseline, current, direction)
  {
    out := changes;
    var j := 0;
    assert current[0..] == current;
    while j < |current|
      invariant j <= |current|
      invariant out + AllAdded(path, baseline, current[j..], direction) ==
                  changes + AllAdded(path, baseline, current, direction)
    {
      var c := current[j];
      assert current[j..][1..] == current[j + 1..];
      if c.name !in FieldsByName(baseline) {
        out := out + [if direction.Request? || !c.nullable then Change("field_added", FieldPath(path, c), true)
                      else Change("nullable_response_field_added", FieldPath(path, c), false)];
      }
      j := j + 1;
    }
  }

  // ---- What the absence of breaking changes says ----

  ghost predicate NoBreak(changes: seq<Change>) {
    forall i | 0 <= i < |changes| :: !changes[i].breaking
  }

  lemma NoBreakParts(a: seq<Change>, b: seq<Change>)
    ensures NoBreak(a + b) <==> NoBreak(a) && NoBreak(b)
  {
    if NoBreak(a + b) {
      assert forall i | 0 <= i < |a| :: a[i] == (a + b)[i];
      assert forall i | 0 <= i < |b| :: b[i] == (a + b)[|a| + i];
    }
  }

  /** Resolved fields of a valid schema. */
  predicate WellShaped(fields: seq<Field>)
    decreases fields
  {
    && (forall i, j | 0 <= i < j < |fields| :: fields[i].name != fields[j].name)
    && forall i | 0 <= i < |fields| ::
         && (fields[i].kind == "object" <==> fields[i].inline.Some?)
         && (fields[i].kind == "file" ==> !fields[i].isArray)
         && (fields[i].inline.Some? ==> WellShaped(fields[i].inline.value.fields))
  }

  lemma {:induction false} ByName(fields: seq<Field>, name: string)
    ensures name in FieldsByName(fields) <==> HasName(fields, name)
    ensures name in FieldsByName(fields) ==>
              exists i | 0 <= i < |fields| :: fields[i].name == name && FieldsByName(fields)[name] == fields[i]
  {
    if fields != [] {
      ByName(fields[..|fields| - 1], name);
      if fields[|fields| - 1].name != name && name in FieldsByName(fields) {
        var i :| 0 <= i < |fields| - 1 && fields[..|fields| - 1][i].name == name
                 && FieldsByName(fields[..|fields| - 1])[name] == fields[..|fields| - 1][i];
        assert fields[i].name == name;
      }
      if HasName(fields, name) && fields[|fields| - 1].name != name {
        var i :| 0 <= i < |fields| && fields[i].name == name;
        assert fields[..|fields| - 1][i].name == name;
      }
    }
  }

  lemma {:induction false} AllKeptAt(path: string, baseline: seq<Field>, current: seq<Field>, direction: Direction,
      i: nat)
    requires NoBreak(AllKept(path, baseline, current, direction)) && i < |baseline|
    ensures NoBreak(Kept(path, baseline[i], current, direction))
  {
    NoBreakParts(Kept(path, baseline[0], current, direction), AllKept(path, baseline[1..], current, direction));
    if i > 0 {
      AllKeptAt(path, baseline[1..], current, direction, i - 1);
    }
  }

  lemma {:induction false} AllAddedAt(path: string, baseline: seq<Field>, current: seq<Field>, direction: Direction,
      j: nat)
    requires NoBreak(AllAdded(path, baseline, current, direction)) && j < |current|
    ensures NoBreak(Added(path, baseline, current[j], direction))
    decreases current
  {
    NoBreakParts(Added(path, baseline, current[0], direction), AllAdded(path, baseline, current[1..], direction));
    if j > 0 {
      AllAddedAt(path, baseline, current[1..], direction, j - 1);
    }
  }

  /** Two fields of the same name that were compared without a breaking change. */
  ghost predicate Pair(path: string, b: Field, c: Field, direction: Direction) {
    b.name == c.name && NoBreak(CompareField(FieldPath(path, b), b, c, direction))
  }

  ghost predicate Unbroken(path: string, baseline: seq<Field>, current: seq<Field>, direction: Direction) {
    NoBreak(CompareFields(path, baseline, current, direction)) && WellShaped(baseline) && WellShaped(current)
  }

  lemma OneField(kept: seq<Change>, code: string, path: string, breaking: bool)
    requires NoBreak(kept) && kept == [Change(code, path, breaking)]
    ensures !breaking
  {
    assert !kept[0].breaking;
  }

  /** The current field a baseline field was compared with, or none. */
  lemma Partner(path: string, baseline: seq<Field>, current: seq<Field>, direction: Direction, i: nat) returns (j: int)
    requires Unbroken(path, baseline, current, direction) && i < |baseline|
    ensures j < |current|
    ensures j >= 0 ==> Pair(path, baseline[i], current[j], direction)
    ensures j < 0 ==> direction.Response? && baseline[i].nullable && !HasName(current, baseline[i].name)
  {
    var b := baseline[i];
    NoBreakParts(AllKept(path, baseline, current, direction), AllAdded(path, baseline, current, direction));
    AllKeptAt(path, baseline, current, direction, i);
    ByName(current, b.name);
    j := -1;
    if b.name in FieldsByName(current) {
      j :| 0 <= j < |current| && current[j].name == b.name && FieldsByName(current)[b.name] == current[j];
    } else if direction.Request? || !b.nullable {
      OneField(Kept(path, b, current, direction), "field_removed", FieldPath(path, b), true);
    }
  }

  lemma PartnerBack(path: string, baseline: seq<Field>, current: seq<Field>, direction: Direction, j: nat)
    returns (i: int)
    requires Unbroken(path, baseline, current, direction) && j < |current|
    ensures i < |baseline|
    ensures i >= 0 ==> Pair(path, baseline[i], current[j], direction)
    ensures i < 0 ==> direction.Response? && current[j].nullable && !HasName(baseline, current[j].name)
  {
    var c := current[j];
    NoBreakParts(AllKept(path, baseline, current, direction), AllAdded(path, baseline, current, direction));
    AllAddedAt(path, baseline, current, direction, j);
    ByName(baseline, c.name);
    i := -1;
    if c.name in FieldsByName(baseline) {
      i :| 0 <= i < |baseline| && baseline[i].name == c.name;
      assert HasName(current, baseline[i].name);
      var k := Partner(path, baseline, current, direction, i);
      assert current[k].name == current[j].name;
    } else if direction.Request? || !c.nullable {
      OneField(Added(path, baseline, c, direction), "field_added", FieldPath(path, c), true);
    }
  }

  /** The contract that an unbroken pair of fields shares. */
  lemma PairParts(path: string, b: Field, c: Field, direction: Direction)
    requires Pair(path, b, c, direction)
    ensures b.kind == c.kind && b.isArray == c.isArray && b.format == c.format && b.nullable == c.nullable
    ensures direction.Request? ==> SameRules(b, c)
    ensures b.kind == "object" && b.inline.Some? && c.inline.Some? ==>
              NoBreak(CompareFields(FieldPath(path, b) + ".object.fields", b.inline.value.fields,
                  c.inline.value.fields, direction))
  {
    var p := FieldPath(path, b);
    if b.kind != c.kind || b.isArray != c.isArray || b.format != c.format {
      OneField(CompareField(p, b, c, direction), "field_shape_changed", p, true);
    } else {
      var first := if b.nullable != c.nullable then [Change("field_nullability_changed", p + ".nullable", true)]
          else [];
      var second := if direction.Request? && !SameRules(b, c) then [Change("request_rules_changed", p, true)] else [];
      var third := if b.kind != "object" || b.inline.None? || c.inline.None? then []
                   else CompareFields(p + ".object.fields", b.inline.value.fields, c.inline.value.fields, direction);
      assert CompareField(p, b, c, direction) == first + second + third;
      NoBreakParts(first + second, third);
      NoBreakParts(first, second);
      if b.nullable != c.nullable {
        OneField(first, "field_nullability_changed", p + ".nullable", true);
      }
      if direction.Request? && !SameRules(b, c) {
        OneField(second, "request_rules_changed", p, true);
      }
    }
  }
}
