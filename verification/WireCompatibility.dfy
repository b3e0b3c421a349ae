/** Fields compared without a breaking change accept the same requests and decode
    each other's responses, at every depth. */
module WireCompatibility {
  import opened Wrappers
  import opened Schemas
  import opened StringSets
  import opened WireFormat
  import opened FieldComparison

  // ---- Responses ----

  lemma {:induction false} DecodesForward(l: Leaves, path: string, baseline: seq<Field>, current: seq<Field>,
      m: Payload)
    requires Unbroken(path, baseline, current, Response) && Responds(l, baseline, m)
    ensures DecodesAll(l, current, m)
    decreases baseline, 1
  {
    forall j | 0 <= j < |current|
      ensures DecodesField(l, current[j], m)
    {
      var i := PartnerBack(path, baseline, current, Response, j);
      if i >= 0 {
        FieldForward(l, path, baseline[i], current[j], m);
      }
    }
  }

  ghost predicate ClosedField(f: Field, v: Json) {
    if v.List? then forall k | 0 <= k < |v.items| :: ClosedOne(f, v.items[k]) else ClosedOne(f, v)
  }

  ghost predicate Shaped(f: Field) {
    && (f.kind == "object" <==> f.inline.Some?) && (f.kind == "file" ==> !f.isArray)
    && (f.inline.Some? ==> WellShaped(f.inline.value.fields))
  }

  lemma {:induction false} FieldForward(l: Leaves, path: string, b: Field, c: Field, m: Payload)
    requires Pair(path, b, c, Response) && Shaped(b) && Shaped(c)
    requires DecodesField(l, b, m) && (b.name in m ==> ClosedField(b, m[b.name]))
    ensures DecodesField(l, c, m)
    decreases b, 2
  {
    PairParts(path, b, c, Response);
    var v := At(m, b.name);
    if !v.Null? {
      if b.isArray && b.kind != "file" {
        forall k | 0 <= k < |v.items|
          ensures DecodesOne(l, c, v.items[k])
        {
          OneForward(l, path, b, c, v.items[k]);
        }
      } else {
        OneForward(l, path, b, c, v);
      }
    }
  }

  lemma {:induction false} OneForward(l: Leaves, path: string, b: Field, c: Field, v: Json)
    requires Pair(path, b, c, Response) && Shaped(b) && Shaped(c) && DecodesOne(l, b, v) && ClosedOne(b, v)
    ensures DecodesOne(l, c, v)
    decreases b, 0
  {
    PairParts(path, b, c, Response);
    if b.inline.Some? {
      DecodesForward(l, FieldPath(path, b) + ".object.fields", b.inline.value.fields, c.inline.value.fields, v.members);
    }
  }

  lemma {:induction false} DecodesBackward(l: Leaves, path: string, baseline: seq<Field>, current: seq<Field>,
      m: Payload)
    requires Unbroken(path, baseline, current, Response) && Responds(l, current, m)
    ensures DecodesAll(l, baseline, m)
    decreases baseline, 1
  {
    forall i | 0 <= i < |baseline|
      ensures DecodesField(l, baseline[i], m)
    {
      var j := Partner(path, baseline, current, Response, i);
      if j >= 0 {
        FieldBackward(l, path, baseline[i], current[j], m);
      }
    }
  }

  lemma {:induction false} FieldBackward(l: Leaves, path: string, b: Field, c: Field, m: Payload)
    requires Pair(path, b, c, Response) && Shaped(b) && Shaped(c)
    requires DecodesField(l, c, m) && (c.name in m ==> ClosedField(c, m[c.name]))
    ensures DecodesField(l, b, m)
    decreases b, 2
  {
    PairParts(path, b, c, Response);
    var v := At(m, b.name);
    if !v.Null? {
      if b.isArray && b.kind != "file" {
        forall k | 0 <= k < |v.items|
          ensures DecodesOne(l, b, v.items[k])
        {
          OneBackward(l, path, b, c, v.items[k]);
        }
      } else {
        OneBackward(l, path, b, c, v);
      }
    }
  }

  lemma {:induction false} OneBackward(l: Leaves, path: string, b: Field, c: Field, v: Json)
    requires Pair(path, b, c, Response) && Shaped(b) && Shaped(c) && DecodesOne(l, c, v) && ClosedOne(c, v)
    ensures DecodesOne(l, b, v)
    decreases b, 0
  {
    PairParts(path, b, c, Response);
    if b.inline.Some? {
      DecodesBackward(l, FieldPath(path, b) + ".object.fields", b.inline.value.fields, c.inline.value.fields,
          v.members);
    }
  }

  // ---- Requests ----

  lemma NamesSame(path: string, baseline: seq<Field>, current: seq<Field>, name: string)
    requires Unbroken(path, baseline, current, Request)
    ensures HasName(baseline, name) <==> HasName(current, name)
  {
    if HasName(baseline, name) {
      var i :| 0 <= i < |baseline| && baseline[i].name == name;
      var j := Partner(path, baseline, current, Request, i);
      assert current[j].name == name;
    }
    if HasName(current, name) {
      var j :| 0 <= j < |current| && current[j].name == name;
      var i := PartnerBack(path, baseline, current, Request, j);
      assert baseline[i].name == name;
    }
  }

  lemma {:induction false} BindsSame(l: Leaves, path: string, baseline: seq<Field>, current: seq<Field>, m: Payload)
    requires Unbroken(path, baseline, current, Request)
    ensures BindsAll(l, baseline, m) <==> BindsAll(l, current, m)
    decreases baseline, 1
  {
    forall name | name in m
      ensures HasName(baseline, name) <==> HasName(current, name)
    {
      NamesSame(path, baseline, current, name);
    }
    forall j | 0 <= j < |current|
      ensures BindsAll(l, baseline, m) ==> BindsField(l, current[j], At(m, current[j].name))
    {
      var i := PartnerBack(path, baseline, current, Request, j);
      BindsFieldSame(l, path, baseline[i], current[j], At(m, current[j].name));
    }
    forall i | 0 <= i < |baseline|
      ensures BindsAll(l, current, m) ==> BindsField(l, baseline[i], At(m, baseline[i].name))
    {
      var j := Partner(path, baseline, current, Request, i);
      BindsFieldSame(l, path, baseline[i], current[j], At(m, baseline[i].name));
    }
  }

  lemma {:induction false} BindsFieldSame(l: Leaves, path: string, b: Field, c: Field, v: Json)
    requires Pair(path, b, c, Request) && Shaped(b) && Shaped(c)
    ensures BindsField(l, b, v) <==> BindsField(l, c, v)
    decreases b, 2
  {
    PairParts(path, b, c, Request);
    if b.isArray && v.List? {
      forall k | 0 <= k < |v.items|
        ensures BindsOne(l, b, v.items[k]) <==> BindsOne(l, c, v.items[k])
      {
        BindsOneSame(l, path, b, c, v.items[k]);
      }
    } else {
      BindsOneSame(l, path, b, c, v);
    }
  }

  lemma {:induction false} BindsOneSame(l: Leaves, path: string, b: Field, c: Field, v: Json)
    requires Pair(path, b, c, Request) && Shaped(b) && Shaped(c)
    ensures BindsOne(l, b, v) <==> BindsOne(l, c, v)
    decreases b, 0
  {
    PairParts(path, b, c, Request);
    if b.inline.Some? && v.Members? {
      BindsSame(l, FieldPath(path, b) + ".object.fields", b.inline.value.fields, c.inline.value.fields, v.members);
    }
  }

  lemma {:induction false} PresentSame(path: string, baseline: seq<Field>, current: seq<Field>, m: Payload)
    requires Unbroken(path, baseline, current, Request)
    ensures PresentAll(baseline, m) <==> PresentAll(current, m)
    decreases baseline, 1
  {
    forall j | 0 <= j < |current|
      ensures PresentAll(baseline, m) ==> PresentField(current[j], At(m, current[j].name))
    {
      var i := PartnerBack(path, baseline, current, Request, j);
      PresentFieldSame(path, baseline[i], current[j], At(m, current[j].name));
    }
    forall i | 0 <= i < |baseline|
      ensures PresentAll(current, m) ==> PresentField(baseline[i], At(m, baseline[i].name))
    {
      var j := Partner(path, baseline, current, Request, i);
      PresentFieldSame(path, baseline[i], current[j], At(m, baseline[i].name));
    }
  }

  lemma {:induction false} PresentFieldSame(path: string, b: Field, c: Field, v: Json)
    requires Pair(path, b, c, Request) && Shaped(b) && Shaped(c)
    ensures PresentField(b, v) <==> PresentField(c, v)
    decreases b, 0
  {
    PairParts(path, b, c, Request);
    if b.inline.Some? && v.Members? {
      PresentSame(FieldPath(path, b) + ".object.fields", b.inline.value.fields, c.inline.value.fields, v.members);
    }
  }

  lemma {:induction false} PassesSame(l: Leaves, path: string, baseline: seq<Field>, current: seq<Field>, m: Payload)
    requires Unbroken(path, baseline, current, Request)
    ensures PassesAll(l, baseline, m) <==> PassesAll(l, current, m)
    decreases baseline, 1
  {
    forall j | 0 <= j < |current|
      ensures PassesAll(l, baseline, m) ==> PassesField(l, current[j], At(m, current[j].name))
    {
      var i := PartnerBack(path, baseline, current, Request, j);
      PassesFieldSame(l, path, baseline[i], current[j], At(m, current[j].name));
    }
    forall i | 0 <= i < |baseline|
      ensures PassesAll(l, current, m) ==> PassesField(l, baseline[i], At(m, baseline[i].name))
    {
      var j := Partner(path, baseline, current, Request, i);
      PassesFieldSame(l, path, baseline[i], current[j], At(m, baseline[i].name));
    }
  }

  lemma {:induction false} PassesFieldSame(l: Leaves, path: string, b: Field, c: Field, v: Json)
    requires Pair(path, b, c, Request) && Shaped(b) && Shaped(c)
    ensures PassesField(l, b, v) <==> PassesField(l, c, v)
    decreases b, 2
  {
    PairParts(path, b, c, Request);
    if b.isArray && b.inline.Some? && v.List? {
      forall k | 0 <= k < |v.items|
        ensures PassesOne(l, b, v.items[k]) <==> PassesOne(l, c, v.items[k])
      {
        PassesOneSame(l, path, b, c, v.items[k]);
      }
    } else {
      PassesOneSame(l, path, b, c, v);
    }
  }

  lemma {:induction false} PassesOneSame(l: Leaves, path: string, b: Field, c: Field, v: Json)
    requires Pair(path, b, c, Request) && Shaped(b) && Shaped(c)
    ensures PassesOne(l, b, v) <==> PassesOne(l, c, v)
    decreases b, 0
  {
    PairParts(path, b, c, Request);
    if b.inline.Some? {
      PassesSame(l, FieldPath(path, b) + ".object.fields", b.inline.value.fields, c.inline.value.fields,
                 if v.Members? then v.members else map[]);
    } else {
      var text := if v.Text? then v.text else "";
      EqualStringSetMembers(b.enum, c.enum, if b.trim then l.trimmed(text) else text);
    }
  }

  /** No breaking request change: exactly the same payloads are accepted. */
  lemma AcceptsSame(l: Leaves, path: string, baseline: seq<Field>, current: seq<Field>, payload: Option<Json>)
    requires Unbroken(path, baseline, current, Request)
    ensures Accepts(l, baseline, payload) <==> Accepts(l, current, payload)
  {
    var v := if payload.Some? then payload.value else Members(map[]);
    if v.Members? {
      BindsSame(l, path, baseline, current, v.members);
      PresentSame(path, baseline, current, v.members);
      PassesSame(l, path, baseline, current, v.members);
    }
  }

  // ---- Comparing fields with themselves ----

  lemma {:induction false} FieldsSelf(path: string, fields: seq<Field>, direction: Direction)
    requires WellShaped(fields)
    ensures CompareFields(path, fields, fields, direction) == []
    decreases fields, 2
  {
    KeptSelf(path, fields, fields, direction);
    AddedSelf(path, fields, fields, direction);
  }

  lemma {:induction false} KeptSelf(path: string, part: seq<Field>, fields: seq<Field>, direction: Direction)
    requires WellShaped(fields) && part <= fields
    ensures AllKept(path, part, fields, direction) == []
    decreases part, 1
  {
    forall i | 0 <= i < |part|
      ensures Kept(path, part[i], fields, direction) == []
    {
      assert part[i] == fields[i];
      ByName(fields, part[i].name);
      FieldSelf(FieldPath(path, part[i]), part[i], direction);
    }
    KeptNothing(path, part, fields, direction);
  }

  lemma {:induction false} KeptNothing(path: string, part: seq<Field>, fields: seq<Field>, direction: Direction)
    requires forall i | 0 <= i < |part| :: Kept(path, part[i], fields, direction) == []
    ensures AllKept(path, part, fields, direction) == []
  {
    if part != [] {
      assert forall i | 0 <= i < |part[1..]| :: part[1..][i] == part[i + 1];
      KeptNothing(path, part[1..], fields, direction);
    }
  }

  lemma {:induction false} FieldSelf(path: string, f: Field, direction: Direction)
    requires Shaped(f)
    ensures CompareField(path, f, f, direction) == []
    decreases f, 0
  {
    if f.inline.Some? {
      FieldsSelf(path + ".object.fields", f.inline.value.fields, direction);
    }
  }

  lemma {:induction false} AddedSelf(path: string, fields: seq<Field>, part: seq<Field>, direction: Direction)
    requires forall i | 0 <= i < |part| :: part[i] in fields
    ensures AllAdded(path, fields, part, direction) == []
    decreases part
  {
    if part != [] {
      ByName(fields, part[0].name);
      AddedSelf(path, fields, part[1..], direction);
    }
  }
}
