/** When two lists of fields have the same contract, said of the fields alone,
    and that the comparison finds a breaking change exactly when they do not. */
module FieldContracts {
  import opened Schemas
  import opened StringSets
  import opened WireFormat
  import opened FieldComparison

  /** The rules a request value must pass; the allowed values in any order. */
  predicate SamePassing(b: Field, c: Field) {
    && b.minLength == c.minLength && b.maxLength == c.maxLength && b.trim == c.trim
    && b.minimum == c.minimum && b.maximum == c.maximum && multiset(b.enum) == multiset(c.enum)
  }

  ghost predicate SameField(b: Field, c: Field, direction: Direction)
    decreases b, 0
  {
    && b.name == c.name && b.kind == c.kind && b.isArray == c.isArray && b.format == c.format
    && b.nullable == c.nullable && (direction.Request? ==> SamePassing(b, c))
    && (b.inline.Some? ==>
          c.inline.Some? && SameFields(b.inline.value.fields, c.inline.value.fields, direction))
  }

  /** The field has its like in the list; only a nullable one of a response may
      have none. */
  ghost predicate Lasts(b: Field, current: seq<Field>, direction: Direction)
    decreases b, 1
  {
    || (exists j | 0 <= j < |current| :: SameField(b, current[j], direction))
    || (direction.Response? && b.nullable && !HasName(current, b.name))
  }

  /** Only a nullable field of a response may be new. */
  predicate MayBeNew(baseline: seq<Field>, c: Field, direction: Direction) {
    HasName(baseline, c.name) || (direction.Response? && c.nullable)
  }

  ghost predicate SameFields(baseline: seq<Field>, current: seq<Field>, direction: Direction)
    decreases baseline, 1
  {
    && (forall i | 0 <= i < |baseline| :: Lasts(baseline[i], current, direction))
    && forall j | 0 <= j < |current| :: MayBeNew(baseline, current[j], direction)
  }

  // ---- No breaking change: the same contract ----

  lemma {:induction false} UnbrokenIsSame(path: string, baseline: seq<Field>, current: seq<Field>, direction: Direction)
    requires Unbroken(path, baseline, current, direction)
    ensures SameFields(baseline, current, direction)
    decreases baseline, 1
  {
    hide Unbroken, Pair, WellShaped;
    forall i | 0 <= i < |baseline|
      ensures Lasts(baseline[i], current, direction)
    {
      var j := Partner(path, baseline, current, direction, i);
      if j >= 0 {
        UnbrokenShapes(path, baseline, current, direction, i, j);
        PairIsSame(path, baseline[i], current[j], direction);
      }
    }
    forall j | 0 <= j < |current|
      ensures MayBeNew(baseline, current[j], direction)
    {
      var i := PartnerBack(path, baseline, current, direction, j);
      if i >= 0 { PairNames(path, baseline[i], current[j], direction); }
    }
  }

  predicate ShapedField(f: Field) {
    (f.kind == "object" <==> f.inline.Some?) && (f.inline.Some? ==> WellShaped(f.inline.value.fields))
  }

  lemma UnbrokenShapes(path: string, baseline: seq<Field>, current: seq<Field>, direction: Direction, i: nat, j: nat)
    requires Unbroken(path, baseline, current, direction) && i < |baseline| && j < |current|
    ensures ShapedField(baseline[i]) && ShapedField(current[j])
  {
  }

  lemma PairNames(path: string, b: Field, c: Field, direction: Direction)
    requires Pair(path, b, c, direction)
    ensures b.name == c.name
  {
  }

  lemma {:induction false} PairIsSame(path: string, b: Field, c: Field, direction: Direction)
    requires Pair(path, b, c, direction) && ShapedField(b) && ShapedField(c)
    ensures SameField(b, c, direction)
    decreases b, 0
  {
    PairParts(path, b, c, direction);
    EqualStringSetIsMultiset(b.enum, c.enum);
    if b.inline.Some? {
      UnbrokenIsSame(FieldPath(path, b) + ".object.fields", b.inline.value.fields, c.inline.value.fields, direction);
    }
  }

  // ---- The same contract: no breaking change ----

  lemma {:induction false} SameIsUnbroken(path: string, baseline: seq<Field>, current: seq<Field>, direction: Direction)
    requires SameFields(baseline, current, direction) && WellShaped(baseline) && WellShaped(current)
    ensures NoBreak(CompareFields(path, baseline, current, direction))
    decreases baseline, 1
  {
    hide NoBreak, CompareField, FieldsByName, FieldPath;
    forall i | 0 <= i < |baseline|
      ensures NoBreak(Kept(path, baseline[i], current, direction))
    {
      assert Lasts(baseline[i], current, direction);
      if j :| 0 <= j < |current| && SameField(baseline[i], current[j], direction) {
        SameNames(baseline[i], current[j], direction);
        ByUniqueName(current, j);
        SameIsPair(FieldPath(path, baseline[i]), baseline[i], current[j], direction);
      } else {
        MissingByName(current, baseline[i].name);
        HarmlessChange("nullable_response_field_removed", FieldPath(path, baseline[i]));
      }
    }
    forall j | 0 <= j < |current|
      ensures NoBreak(Added(path, baseline, current[j], direction))
    {
      assert MayBeNew(baseline, current[j], direction);
      ByName(baseline, current[j].name);
      HarmlessChange("nullable_response_field_added", FieldPath(path, current[j]));
    }
    AllKeptFrom(path, baseline, current, direction);
    AllAddedFrom(path, baseline, current, direction);
    NoBreakParts(AllKept(path, baseline, current, direction), AllAdded(path, baseline, current, direction));
  }

  lemma SameNames(b: Field, c: Field, direction: Direction)
    requires SameField(b, c, direction)
    ensures b.name == c.name
  {
  }

  lemma MissingByName(fields: seq<Field>, name: string)
    requires !HasName(fields, name)
    ensures name !in FieldsByName(fields)
  {
    ByName(fields, name);
  }

  lemma HarmlessChange(code: string, path: string)
    ensures NoBreak([]) && NoBreak([Change(code, path, false)])
  {
  }

  /** In a list of distinct names, the map finds the field itself. */
  lemma ByUniqueName(fields: seq<Field>, j: nat)
    requires j < |fields| && WellShaped(fields)
    ensures fields[j].name in FieldsByName(fields) && FieldsByName(fields)[fields[j].name] == fields[j]
  {
    ByName(fields, fields[j].name);
  }

  lemma {:induction false} SameIsPair(path: string, b: Field, c: Field, direction: Direction)
    requires SameField(b, c, direction) && ShapedField(b) && ShapedField(c)
    ensures NoBreak(CompareField(path, b, c, direction))
    decreases b, 0
  {
    EqualStringSetIsMultiset(b.enum, c.enum);
    if b.inline.Some? {
      var nested := path + ".object.fields";
      SameIsUnbroken(nested, b.inline.value.fields, c.inline.value.fields, direction);
      assert CompareField(path, b, c, direction) ==
          [] + [] + CompareFields(nested, b.inline.value.fields, c.inline.value.fields, direction);
      hide CompareField, CompareFields;
      assert [] + [] + CompareFields(nested, b.inline.value.fields, c.inline.value.fields, direction)
          == CompareFields(nested, b.inline.value.fields, c.inline.value.fields, direction);
    }
  }

  lemma {:induction false} AllKeptFrom(path: string, baseline: seq<Field>, current: seq<Field>, direction: Direction)
    requires forall i | 0 <= i < |baseline| :: NoBreak(Kept(path, baseline[i], current, direction))
    ensures NoBreak(AllKept(path, baseline, current, direction))
  {
    hide Kept;
    if baseline != [] {
      assert forall i | 0 <= i < |baseline[1..]| :: baseline[1..][i] == baseline[i + 1];
      AllKeptFrom(path, baseline[1..], current, direction);
      NoBreakParts(Kept(path, baseline[0], current, direction), AllKept(path, baseline[1..], current, direction));
    }
  }

  lemma {:induction false} AllAddedFrom(path: string, baseline: seq<Field>, current: seq<Field>, direction: Direction)
    requires forall j | 0 <= j < |current| :: NoBreak(Added(path, baseline, current[j], direction))
    ensures NoBreak(AllAdded(path, baseline, current, direction))
    decreases current
  {
    hide Added;
    if current != [] {
      assert forall j | 0 <= j < |current[1..]| :: current[1..][j] == current[j + 1];
      AllAddedFrom(path, baseline, current[1..], direction);
      NoBreakParts(Added(path, baseline, current[0], direction), AllAdded(path, baseline, current[1..], direction));
    }
  }

  /** A comparison of fields finds a breaking change exactly when their contracts
      differ, at whatever depth. */
  lemma FieldsExact(path: string, baseline: seq<Field>, current: seq<Field>, direction: Direction)
    requires WellShaped(baseline) && WellShaped(current)
    ensures NoBreak(CompareFields(path, baseline, current, direction)) <==> SameFields(baseline, current, direction)
  {
    if NoBreak(CompareFields(path, baseline, current, direction)) {
      UnbrokenIsSame(path, baseline, current, direction);
    } else if SameFields(baseline, current, direction) {
      SameIsUnbroken(path, baseline, current, direction);
    }
  }

  /** In a request nothing may come or go. */
  lemma RequestNames(baseline: seq<Field>, current: seq<Field>)
    requires SameFields(baseline, current, Request)
    ensures forall name :: HasName(baseline, name) <==> HasName(current, name)
  {
    forall j | 0 <= j < |current|
      ensures HasName(baseline, current[j].name)
    {
      assert MayBeNew(baseline, current[j], Request);
    }
    forall name | HasName(baseline, name)
      ensures HasName(current, name)
    {
      var i :| 0 <= i < |baseline| && baseline[i].name == name;
      assert Lasts(baseline[i], current, Request);
      var j :| 0 <= j < |current| && SameField(baseline[i], current[j], Request);
      assert current[j].name == name;
    }
  }

  // ---- Which changes are reported ----

  predicate SameShape(b: Field, c: Field) {
    b.kind == c.kind && b.isArray == c.isArray && b.format == c.format
  }

  /** The change is one between two fields of one name, at whatever depth. */
  ghost predicate FieldDiffers(path: string, b: Field, c: Field, direction: Direction, x: Change)
    decreases b, 0
  {
    if !SameShape(b, c) then x == Change("field_shape_changed", path, true)
    else
      || (b.nullable != c.nullable && x == Change("field_nullability_changed", path + ".nullable", true))
      || (direction.Request? && !SamePassing(b, c) && x == Change("request_rules_changed", path, true))
      || (b.inline.Some? && c.inline.Some? &&
          FieldsDiffer(path + ".object.fields", b.inline.value.fields, c.inline.value.fields, direction, x))
  }

  ghost predicate PartnerDiffers(path: string, b: Field, current: seq<Field>, direction: Direction, x: Change)
    decreases b, 1
  {
    exists j | 0 <= j < |current| :: b.name == current[j].name && FieldDiffers(FieldPath(path, b), b, current[j],
                                                                               direction, x)
  }

  /** A field without its like on the other side. */
  predicate LoneDiffers(path: string, f: Field, others: seq<Field>, direction: Direction, lost: string,
                        harmless: string, x: Change)
  {
    && !HasName(others, f.name)
    && x == if direction.Response? && f.nullable then Change(harmless, FieldPath(path, f), false)
            else Change(lost, FieldPath(path, f), true)
  }

  ghost predicate KeptDiffers(path: string, b: Field, current: seq<Field>, direction: Direction, x: Change)
    decreases b, 2
  {
    || PartnerDiffers(path, b, current, direction, x)
    || LoneDiffers(path, b, current, direction, "field_removed", "nullable_response_field_removed", x)
  }

  predicate AddedDiffers(path: string, baseline: seq<Field>, c: Field, direction: Direction, x: Change) {
    LoneDiffers(path, c, baseline, direction, "field_added", "nullable_response_field_added", x)
  }

  ghost predicate FieldsDiffer(path: string, baseline: seq<Field>, current: seq<Field>, direction: Direction, x: Change)
    decreases baseline, 3
  {
    || (exists i | 0 <= i < |baseline| :: KeptDiffers(path, baseline[i], current, direction, x))
    || (exists j | 0 <= j < |current| :: AddedDiffers(path, baseline, current[j], direction, x))
  }

  lemma {:induction false} InAllKept(path: string, baseline: seq<Field>, current: seq<Field>, direction: Direction,
      x: Change)
    ensures x in AllKept(path, baseline, current, direction) <==>
            exists i | 0 <= i < |baseline| :: x in Kept(path, baseline[i], current, direction)
  {
    hide Kept;
    if baseline != [] {
      var rest := baseline[1..];
      InAllKept(path, rest, current, direction, x);
      assert forall i | 0 <= i < |rest| :: rest[i] == baseline[i + 1];
      if i :| 0 <= i < |baseline| && x in Kept(path, baseline[i], current, direction) {
        assert i == 0 || x in Kept(path, rest[i - 1], current, direction);
      }
    }
  }

  lemma {:induction false} InAllAdded(path: string, baseline: seq<Field>, current: seq<Field>, direction: Direction,
      x: Change)
    ensures x in AllAdded(path, baseline, current, direction) <==>
            exists j | 0 <= j < |current| :: x in Added(path, baseline, current[j], direction)
    decreases current
  {
    hide Added;
    if current != [] {
      var rest := current[1..];
      InAllAdded(path, baseline, rest, direction, x);
      assert forall j | 0 <= j < |rest| :: rest[j] == current[j + 1];
      if j :| 0 <= j < |current| && x in Added(path, baseline, current[j], direction) {
        assert j == 0 || x in Added(path, baseline, rest[j - 1], direction);
      }
    }
  }

  /** The report holds exactly the changes there are. */
  lemma {:induction false} ReportedExactly(path: string, baseline: seq<Field>, current: seq<Field>,
      direction: Direction, x: Change)
    requires WellShaped(baseline) && WellShaped(current)
    ensures x in CompareFields(path, baseline, current, direction) <==>
            FieldsDiffer(path, baseline, current, direction, x)
    decreases baseline, 2
  {
    InAllKept(path, baseline, current, direction, x);
    InAllAdded(path, baseline, current, direction, x);
    hide AllKept, AllAdded, Kept, Added, KeptDiffers, AddedDiffers, WellShaped;
    forall i | 0 <= i < |baseline|
      ensures x in Kept(path, baseline[i], current, direction) <==>
              KeptDiffers(path, baseline[i], current, direction, x)
    {
      ListShapes(baseline, i);
      KeptExactly(path, baseline[i], current, direction, x);
    }
    forall j | 0 <= j < |current|
      ensures x in Added(path, baseline, current[j], direction) <==>
              AddedDiffers(path, baseline, current[j], direction, x)
    {
      AddedExactly(path, baseline, current[j], direction, x);
    }
  }

  lemma ListShapes(fields: seq<Field>, i: nat)
    requires WellShaped(fields) && i < |fields|
    ensures ShapedField(fields[i])
  {
  }

  lemma AddedExactly(path: string, baseline: seq<Field>, c: Field, direction: Direction, x: Change)
    ensures x in Added(path, baseline, c, direction) <==> AddedDiffers(path, baseline, c, direction, x)
  {
    ByName(baseline, c.name);
  }

  lemma {:induction false} KeptExactly(path: string, b: Field, current: seq<Field>, direction: Direction, x: Change)
    requires ShapedField(b) && WellShaped(current)
    ensures x in Kept(path, b, current, direction) <==> KeptDiffers(path, b, current, direction, x)
    decreases b, 1
  {
    ByName(current, b.name);
    hide WellShaped, CompareField, FieldDiffers, FieldsByName, FieldPath;
    if HasName(current, b.name) {
      var j :| 0 <= j < |current| && current[j].name == b.name && FieldsByName(current)[b.name] == current[j];
      ListShapes(current, j);
      FieldExactly(FieldPath(path, b), b, current[j], direction, x);
      if k :| 0 <= k < |current| && b.name == current[k].name
              && FieldDiffers(FieldPath(path, b), b, current[k], direction, x) {
        OneOfName(current, j, k);
      }
    } else {
      assert forall k | 0 <= k < |current| :: current[k].name != b.name;
    }
  }

  lemma OneOfName(fields: seq<Field>, j: nat, k: nat)
    requires WellShaped(fields) && j < |fields| && k < |fields| && fields[j].name == fields[k].name
    ensures j == k
  {
  }

  lemma {:induction false} FieldExactly(path: string, b: Field, c: Field, direction: Direction, x: Change)
    requires ShapedField(b) && ShapedField(c)
    ensures x in CompareField(path, b, c, direction) <==> FieldDiffers(path, b, c, direction, x)
    decreases b, 0
  {
    EqualStringSetIsMultiset(b.enum, c.enum);
    if SameShape(b, c) && b.inline.Some? {
      ReportedExactly(path + ".object.fields", b.inline.value.fields, c.inline.value.fields, direction, x);
    }
  }
}
