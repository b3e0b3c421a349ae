/** The compatibility verdict on two schemas and what it promises on the wire. */
module SchemaCompatibility {
  import opened Wrappers
  import opened Schemas
  import opened SchemaExpansion
  import opened SchemaValidation
  import opened WireFormat
  import opened FieldComparison
  import opened FieldContracts
  import opened WireCompatibility

  datatype Status = Compatible | VersionedBreak | Incompatible

  datatype Report = Report(
    status: Status, baselineVersion: int, currentVersion: int, bumpRequired: bool, bumpPresent: bool,
    minimumVersion: int, breakingChanges: nat, changes: seq<Change>)

  datatype Invalid = BaselineInvalid | CurrentInvalid

  function MethodsByName(methods: seq<Method>): map<string, Method> {
    if methods == [] then map[]
    else
      var last := methods[|methods| - 1];
      MethodsByName(methods[..|methods| - 1])[last.name := last]
  }

  function MethodPath(name: string): string {
    "methods[" + name + "]"
  }

  function CompareParams(path: string, b: Option<Object>, c: Option<Object>): seq<Change> {
    match (b, c)
    case (None, Some(_)) => [Change("params_added", path, true)]
    case (Some(_), None) => [Change("params_removed", path, true)]
    case (Some(x), Some(y)) => CompareFields(path + ".fields", x.fields, y.fields, Request)
    case (None, None) => []
  }

  function CompareMethod(path: string, b: Method, c: Method): seq<Change> {
    StreamChange(path + ".stream", b, c)
    + CompareParams(path + ".params", b.params, c.params)
    + CompareFields(path + ".result.fields", b.result.fields, c.result.fields, Response)
    + CompareFields(path + ".meta", b.meta, c.meta, Response)
  }

  function MethodKept(b: Method, current: seq<Method>): seq<Change> {
    if b.name in MethodsByName(current) then CompareMethod(MethodPath(b.name), b, MethodsByName(current)[b.name])
    else [Change("method_removed", MethodPath(b.name), true)]
  }

  function MethodsKept(baseline: seq<Method>, current: seq<Method>): seq<Change> {
    if baseline == [] then [] else MethodKept(baseline[0], current) + MethodsKept(baseline[1..], current)
  }

  function MethodsAdded(baseline: seq<Method>, current: seq<Method>): seq<Change> {
    if current == [] then []
    else
      (if current[0].name in MethodsByName(baseline) then []
       else [Change("method_added", MethodPath(current[0].name), false)])
      + MethodsAdded(baseline, current[1..])
  }

  function SchemaChanges(baseline: seq<Method>, current: seq<Method>): seq<Change> {
    MethodsKept(baseline, current) + MethodsAdded(baseline, current)
  }

  // ---- The loops ----

  method ReportParams(path: string, b: Option<Object>, c: Option<Object>, changes: seq<Change>)
    returns (out: seq<Change>)
    ensures out == changes + CompareParams(path, b, c)
  {
    out := changes;
    if b.None? && c.Some? {
      out := out + [Change("params_added", path, true)];
    } else if b.Some? && c.None? {
      out := out + [Change("params_removed", path, true)];
    } else if b.Some? && c.Some? {
      out := ReportFields(path + ".fields", b.value.fields, c.value.fields, Request, out);
    }
  }

  lemma InOrder(changes: seq<Change>, first: seq<Change>, second: seq<Change>, third: seq<Change>, fourth: seq<Change>)
    ensures changes + first + second + third + fourth == changes + (first + second + third + fourth)
  {
  }

  function StreamChange(path: string, b: Method, c: Method): seq<Change> {
    if b.stream != c.stream then [Change("streaming_changed", path, true)] else []
  }

  method ReportMethod(path: string, b: Method, c: Method, changes: seq<Change>) returns (out: seq<Change>)
    ensures out == changes + CompareMethod(path, b, c)
  {
    out := changes + StreamChange(path + ".stream", b, c);
    out := ReportParams(path + ".params", b.params, c.params, out);
    out := ReportFields(path + ".result.fields", b.result.fields, c.result.fields, Response, out);
    out := ReportFields(path + ".meta", b.meta, c.meta, Response, out);
    InOrder(changes, StreamChange(path + ".stream", b, c), CompareParams(path + ".params", b.params, c.params),
            CompareFields(path + ".result.fields", b.result.fields, c.result.fields, Response),
            CompareFields(path + ".meta", b.meta, c.meta, Response));
  }

  method ReportMethods(baseline: seq<Method>, current: seq<Method>) returns (out: seq<Change>)
    ensures out == SchemaChanges(baseline, current)
  {
    out := ReportKeptMethods(baseline, current);
    out := ReportAddedMethods(baseline, current, out);
  }

  lemma NextMethod(baseline: seq<Method>, current: seq<Method>, i: nat)
    requires i < |baseline|
    ensures MethodsKept(baseline[i..], current) == MethodKept(baseline[i], current)
              + MethodsKept(baseline[i + 1..], current)
  {
    assert baseline[i..][1..] == baseline[i + 1..];
  }

  lemma Regroup(a: seq<Change>, b: seq<Change>, c: seq<Change>)
    ensures a + b + c == a + (b + c)
  {
  }

  method ReportKept(b: Method, current: seq<Method>, changes: seq<Change>) returns (out: seq<Change>)
    ensures out == changes + MethodKept(b, current)
  {
    if b.name !in MethodsByName(current) {
      out := changes + [Change("method_removed", MethodPath(b.name), true)];
    } else {
      out := ReportMethod(MethodPath(b.name), b, MethodsByName(current)[b.name], changes);
    }
  }

  method ReportKeptMethods(baseline: seq<Method>, current: seq<Method>) returns (out: seq<Change>)
    ensures out == MethodsKept(baseline, current)
  {
    out := [];
    var i := 0;
    assert baseline[0..] == baseline;
    while i < |baseline|
      invariant i <= |baseline|
      invariant out + MethodsKept(baseline[i..], current) == MethodsKept(baseline, current)
    {
      NextMethod(baseline, current, i);
      Regroup(out, MethodKept(baseline[i], current), MethodsKept(baseline[i + 1..], current));
      out := ReportKept(baseline[i], current, out);
      i := i + 1;
    }
  }

  method ReportAddedMethods(baseline: seq<Method>, current: seq<Method>, changes: seq<Change>)
    returns (out: seq<Change>)
    ensures out == changes + MethodsAdded(baseline, current)
  {
    out := changes;
    var j := 0;
    assert current[0..] == current;
    while j < |current|
      invariant j <= |current|
      invariant out + MethodsAdded(baseline, current[j..]) == changes + MethodsAdded(baseline, current)
    {
      assert current[j..][1..] == current[j + 1..];
      if current[j].name !in MethodsByName(baseline) {
        out := out + [Change("method_added", MethodPath(current[j].name), false)];
      }
      j := j + 1;
    }
  }

  function BreakingIn(changes: seq<Change>): nat {
    if changes == [] then 0 else (if changes[0].breaking then 1 else 0) + BreakingIn(changes[1..])
  }

  lemma {:induction false} BreakingNone(changes: seq<Change>)
    ensures BreakingIn(changes) == 0 <==> NoBreak(changes)
  {
    if changes != [] {
      assert changes == [changes[0]] + changes[1..];
      NoBreakParts([changes[0]], changes[1..]);
      assert NoBreak([changes[0]]) <==> ![changes[0]][0].breaking;
      BreakingNone(changes[1..]);
    }
  }

  method CountBreaking(changes: seq<Change>) returns (n: nat)
    ensures n == BreakingIn(changes)
  {
    n := 0;
    var i := 0;
    assert changes[0..] == changes;
    while i < |changes|
      invariant i <= |changes| && n + BreakingIn(changes[i..]) == BreakingIn(changes)
    {
      assert changes[i..][1..] == changes[i + 1..];
      if changes[i].breaking {
        n := n + 1;
      }
      i := i + 1;
    }
  }

  // ---- What the verdict promises ----

  /** The two sides of one method understand each other on the wire. */
  ghost predicate WireSame(l: Leaves, b: Method, c: Method) {
    && b.stream == c.stream
    && (b.params.Some? <==> c.params.Some?)
    && (b.params.Some? ==>
          forall payload :: Accepts(l, b.params.value.fields, payload) <==> Accepts(l, c.params.value.fields, payload))
    && ReadsEachOther(l, b.result.fields, c.result.fields)
    && ReadsEachOther(l, b.meta, c.meta)
  }

  /** Either side's responses decode on the other side. */
  ghost predicate ReadsEachOther(l: Leaves, b: seq<Field>, c: seq<Field>) {
    && (forall m :: Responds(l, b, m) ==> DecodesAll(l, c, m))
    && (forall m :: Responds(l, c, m) ==> DecodesAll(l, b, m))
  }

  lemma UnbrokenReads(l: Leaves, path: string, b: seq<Field>, c: seq<Field>)
    requires Unbroken(path, b, c, Response)
    ensures ReadsEachOther(l, b, c)
  {
    forall m | Responds(l, b, m)
      ensures DecodesAll(l, c, m)
    {
      DecodesForward(l, path, b, c, m);
    }
    forall m | Responds(l, c, m)
      ensures DecodesAll(l, b, m)
    {
      DecodesBackward(l, path, b, c, m);
    }
  }

  lemma MethodParts(path: string, b: Method, c: Method)
    requires NoBreak(CompareMethod(path, b, c))
    ensures b.stream == c.stream
    ensures NoBreak(CompareParams(path + ".params", b.params, c.params))
    ensures NoBreak(CompareFields(path + ".result.fields", b.result.fields, c.result.fields, Response))
    ensures NoBreak(CompareFields(path + ".meta", b.meta, c.meta, Response))
  {
    var stream := StreamChange(path + ".stream", b, c);
    var params := CompareParams(path + ".params", b.params, c.params);
    var result := CompareFields(path + ".result.fields", b.result.fields, c.result.fields, Response);
    var meta := CompareFields(path + ".meta", b.meta, c.meta, Response);
    NoBreakParts(stream + params + result, meta);
    NoBreakParts(stream + params, result);
    NoBreakParts(stream, params);
    if b.stream != c.stream {
      OneField(stream, "streaming_changed", path + ".stream", true);
    }
  }

  lemma ParamsParts(path: string, b: Option<Object>, c: Option<Object>)
    requires NoBreak(CompareParams(path, b, c))
    ensures b.Some? <==> c.Some?
  {
    if b.None? && c.Some? {
      OneField(CompareParams(path, b, c), "params_added", path, true);
    } else if b.Some? && c.None? {
      OneField(CompareParams(path, b, c), "params_removed", path, true);
    }
  }

  lemma MethodSound(l: Leaves, path: string, b: Method, c: Method)
    requires NoBreak(CompareMethod(path, b, c)) && MethodShaped(b) && MethodShaped(c)
    ensures WireSame(l, b, c)
  {
    MethodParts(path, b, c);
    ParamsParts(path + ".params", b.params, c.params);
    if b.params.Some? {
      forall payload
        ensures Accepts(l, b.params.value.fields, payload) <==> Accepts(l, c.params.value.fields, payload)
      {
        AcceptsSame(l, path + ".params" + ".fields", b.params.value.fields, c.params.value.fields, payload);
      }
    }
    UnbrokenReads(l, path + ".result.fields", b.result.fields, c.result.fields);
    UnbrokenReads(l, path + ".meta", b.meta, c.meta);
  }

  lemma {:induction false} MethodsKeptAt(baseline: seq<Method>, current: seq<Method>, i: nat)
    requires NoBreak(MethodsKept(baseline, current)) && i < |baseline|
    ensures NoBreak(MethodKept(baseline[i], current))
  {
    NoBreakParts(MethodKept(baseline[0], current), MethodsKept(baseline[1..], current));
    if i > 0 {
      MethodsKeptAt(baseline[1..], current, i - 1);
    }
  }

  lemma {:induction false} MethodNamed(methods: seq<Method>, name: string)
    requires name in MethodsByName(methods)
    ensures exists j | 0 <= j < |methods| :: methods[j].name == name && MethodsByName(methods)[name] == methods[j]
  {
    var last := |methods| - 1;
    if methods[last].name == name {
      assert MethodsByName(methods)[name] == methods[last];
    } else {
      MethodNamed(methods[..last], name);
      var j :| 0 <= j < last && methods[..last][j].name == name
          && MethodsByName(methods[..last])[name] == methods[..last][j];
      assert methods[j].name == name;
    }
  }

  ghost predicate AllShaped(methods: seq<Method>) {
    forall i | 0 <= i < |methods| :: MethodShaped(methods[i])
  }

  /** Every baseline method has a current one of its name on the same wire. */
  ghost predicate AllWireSame(l: Leaves, baseline: seq<Method>, current: seq<Method>) {
    forall i | 0 <= i < |baseline| :: HasWireSame(l, baseline[i], current)
  }

  ghost predicate HasWireSame(l: Leaves, b: Method, current: seq<Method>) {
    exists j | 0 <= j < |current| :: current[j].name == b.name && WireSame(l, b, current[j])
  }

  /** No breaking change: the wire contract of every baseline method still holds. */
  lemma VerdictSound(l: Leaves, baseline: seq<Method>, current: seq<Method>)
    requires NoBreak(SchemaChanges(baseline, current)) && AllShaped(baseline) && AllShaped(current)
    ensures AllWireSame(l, baseline, current)
  {
    NoBreakParts(MethodsKept(baseline, current), MethodsAdded(baseline, current));
    forall i | 0 <= i < |baseline|
      ensures HasWireSame(l, baseline[i], current)
    {
      var b := baseline[i];
      MethodsKeptAt(baseline, current, i);
      if b.name !in MethodsByName(current) {
        OneField(MethodKept(b, current), "method_removed", MethodPath(b.name), true);
      }
      MethodNamed(current, b.name);
      var j :| 0 <= j < |current| && current[j].name == b.name && MethodsByName(current)[b.name] == current[j];
      MethodSound(l, MethodPath(b.name), b, current[j]);
    }
  }

  // ---- And what a breaking change means ----

  /** The two sides of one method have the same contract, said of the schemas. */
  ghost predicate SameMethod(b: Method, c: Method) {
    && b.name == c.name && b.stream == c.stream && (b.params.Some? <==> c.params.Some?)
    && (b.params.Some? ==> SameFields(b.params.value.fields, c.params.value.fields, Request))
    && SameFields(b.result.fields, c.result.fields, Response) && SameFields(b.meta, c.meta, Response)
  }

  ghost predicate MethodLasts(b: Method, current: seq<Method>) {
    exists j | 0 <= j < |current| :: SameMethod(b, current[j])
  }

  ghost predicate SameSchema(baseline: seq<Method>, current: seq<Method>) {
    forall i | 0 <= i < |baseline| :: MethodLasts(baseline[i], current)
  }

  ghost predicate DistinctNames(methods: seq<Method>) {
    forall a, b | 0 <= a < b < |methods| :: methods[a].name != methods[b].name
  }

  lemma MethodExact(path: string, b: Method, c: Method)
    requires MethodShaped(b) && MethodShaped(c) && b.name == c.name
    ensures NoBreak(CompareMethod(path, b, c)) <==> SameMethod(b, c)
  {
    hide CompareFields, SameFields, WellShaped;
    if b.params.Some? && c.params.Some? {
      FieldsExact(path + ".params" + ".fields", b.params.value.fields, c.params.value.fields, Request);
    }
    FieldsExact(path + ".result.fields", b.result.fields, c.result.fields, Response);
    FieldsExact(path + ".meta", b.meta, c.meta, Response);
    if NoBreak(CompareMethod(path, b, c)) {
      MethodParts(path, b, c);
      ParamsParts(path + ".params", b.params, c.params);
    }
    if SameMethod(b, c) {
      SameMethodUnbroken(path, b, c);
    }
  }

  lemma SameMethodUnbroken(path: string, b: Method, c: Method)
    requires b.stream == c.stream && NoBreak(CompareParams(path + ".params", b.params, c.params))
    requires NoBreak(CompareFields(path + ".result.fields", b.result.fields, c.result.fields, Response))
    requires NoBreak(CompareFields(path + ".meta", b.meta, c.meta, Response))
    ensures NoBreak(CompareMethod(path, b, c))
  {
    var params := CompareParams(path + ".params", b.params, c.params);
    var result := CompareFields(path + ".result.fields", b.result.fields, c.result.fields, Response);
    NoBreakParts([] + params, result);
    NoBreakParts([] + params + result, CompareFields(path + ".meta", b.meta, c.meta, Response));
    assert [] + params == params;
  }

  lemma {:induction false} KeptFrom(baseline: seq<Method>, current: seq<Method>)
    requires forall i | 0 <= i < |baseline| :: NoBreak(MethodKept(baseline[i], current))
    ensures NoBreak(MethodsKept(baseline, current))
  {
    hide MethodKept;
    if baseline != [] {
      assert forall i | 0 <= i < |baseline[1..]| :: baseline[1..][i] == baseline[i + 1];
      KeptFrom(baseline[1..], current);
      NoBreakParts(MethodKept(baseline[0], current), MethodsKept(baseline[1..], current));
    }
  }

  /** What is new breaks nothing. */
  lemma {:induction false} AddedUnbroken(baseline: seq<Method>, current: seq<Method>)
    ensures NoBreak(MethodsAdded(baseline, current))
    decreases current
  {
    if current != [] {
      AddedUnbroken(baseline, current[1..]);
      var first := if current[0].name in MethodsByName(baseline) then []
          else [Change("method_added", MethodPath(current[0].name), false)];
      NoBreakParts(first, MethodsAdded(baseline, current[1..]));
    }
  }

  lemma MethodKeptExact(b: Method, current: seq<Method>)
    requires MethodShaped(b) && AllShaped(current) && DistinctNames(current)
    ensures NoBreak(MethodKept(b, current)) <==> MethodLasts(b, current)
  {
    hide CompareMethod, MethodShaped;
    if b.name in MethodsByName(current) {
      MethodNamed(current, b.name);
      var j :| 0 <= j < |current| && current[j].name == b.name && MethodsByName(current)[b.name] == current[j];
      MethodExact(MethodPath(b.name), b, current[j]);
    } else {
      if j :| 0 <= j < |current| && SameMethod(b, current[j]) {
        OwnName(current, j);
      }
      if NoBreak(MethodKept(b, current)) {
        OneField(MethodKept(b, current), "method_removed", MethodPath(b.name), true);
      }
    }
  }

  /** A schema is reported without a breaking change exactly when every method of
      the baseline lasts with its contract: added methods, and nullable response
      fields that come or go, are never breaking. */
  lemma VerdictExact(baseline: seq<Method>, current: seq<Method>)
    requires AllShaped(baseline) && AllShaped(current) && DistinctNames(current)
    ensures NoBreak(SchemaChanges(baseline, current)) <==> SameSchema(baseline, current)
  {
    NoBreakParts(MethodsKept(baseline, current), MethodsAdded(baseline, current));
    AddedUnbroken(baseline, current);
    assert SchemaChanges(baseline, current) == MethodsKept(baseline, current) + MethodsAdded(baseline, current);
    hide MethodKept, MethodLasts, DistinctNames, MethodsAdded, SchemaChanges, NoBreak;
    forall i | 0 <= i < |baseline|
      ensures NoBreak(MethodKept(baseline[i], current)) <==> MethodLasts(baseline[i], current)
      ensures NoBreak(MethodsKept(baseline, current)) ==> NoBreak(MethodKept(baseline[i], current))
    {
      MethodKeptExact(baseline[i], current);
      if NoBreak(MethodsKept(baseline, current)) { MethodsKeptAt(baseline, current, i); }
    }
    if forall i | 0 <= i < |baseline| :: NoBreak(MethodKept(baseline[i], current)) {
      KeptFrom(baseline, current);
    }
  }

  // ---- Which changes are reported ----

  predicate NamesMethod(methods: seq<Method>, name: string) {
    exists j | 0 <= j < |methods| :: methods[j].name == name
  }

  /** The change is one between two methods of one name. */
  ghost predicate MethodDiffers(path: string, b: Method, c: Method, x: Change) {
    || (b.stream != c.stream && x == Change("streaming_changed", path + ".stream", true))
    || (b.params.None? && c.params.Some? && x == Change("params_added", path + ".params", true))
    || (b.params.Some? && c.params.None? && x == Change("params_removed", path + ".params", true))
    || (b.params.Some? && c.params.Some? &&
        FieldsDiffer(path + ".params" + ".fields", b.params.value.fields, c.params.value.fields, Request, x))
    || FieldsDiffer(path + ".result.fields", b.result.fields, c.result.fields, Response, x)
    || FieldsDiffer(path + ".meta", b.meta, c.meta, Response, x)
  }

  ghost predicate KeptMethodDiffers(b: Method, current: seq<Method>, x: Change) {
    || (!NamesMethod(current, b.name) && x == Change("method_removed", MethodPath(b.name), true))
    || exists j | 0 <= j < |current| :: current[j].name == b.name && MethodDiffers(MethodPath(b.name), b, current[j], x)
  }

  predicate AddedMethodDiffers(baseline: seq<Method>, c: Method, x: Change) {
    !NamesMethod(baseline, c.name) && x == Change("method_added", MethodPath(c.name), false)
  }

  ghost predicate SchemaDiffers(baseline: seq<Method>, current: seq<Method>, x: Change) {
    || (exists i | 0 <= i < |baseline| :: KeptMethodDiffers(baseline[i], current, x))
    || exists j | 0 <= j < |current| :: AddedMethodDiffers(baseline, current[j], x)
  }

  lemma {:induction false} NamedIsKey(methods: seq<Method>, name: string)
    ensures name in MethodsByName(methods) <==> NamesMethod(methods, name)
  {
    if methods != [] {
      var last := |methods| - 1;
      NamedIsKey(methods[..last], name);
      if NamesMethod(methods, name) && methods[last].name != name {
        var j :| 0 <= j < |methods| && methods[j].name == name;
        assert methods[..last][j].name == name;
      }
      if NamesMethod(methods[..last], name) {
        var j :| 0 <= j < last && methods[..last][j].name == name;
        assert methods[j].name == name;
      }
    }
  }

  lemma MethodExactly(path: string, b: Method, c: Method, x: Change)
    requires MethodShaped(b) && MethodShaped(c)
    ensures x in CompareMethod(path, b, c) <==> MethodDiffers(path, b, c, x)
  {
    hide CompareFields, FieldsDiffer, WellShaped;
    if b.params.Some? && c.params.Some? {
      ReportedExactly(path + ".params" + ".fields", b.params.value.fields, c.params.value.fields, Request, x);
    }
    ReportedExactly(path + ".result.fields", b.result.fields, c.result.fields, Response, x);
    ReportedExactly(path + ".meta", b.meta, c.meta, Response, x);
  }

  lemma KeptMethodExactly(b: Method, current: seq<Method>, x: Change)
    requires MethodShaped(b) && AllShaped(current) && DistinctNames(current)
    ensures x in MethodKept(b, current) <==> KeptMethodDiffers(b, current, x)
  {
    NamedIsKey(current, b.name);
    hide CompareMethod, MethodShaped, MethodDiffers, MethodPath;
    if b.name in MethodsByName(current) {
      MethodNamed(current, b.name);
      var j :| 0 <= j < |current| && current[j].name == b.name && MethodsByName(current)[b.name] == current[j];
      MethodExactly(MethodPath(b.name), b, current[j], x);
    }
  }

  lemma {:induction false} InMethodsKept(baseline: seq<Method>, current: seq<Method>, x: Change)
    ensures x in MethodsKept(baseline, current) <==>
            exists i | 0 <= i < |baseline| :: x in MethodKept(baseline[i], current)
  {
    hide MethodKept;
    if baseline != [] {
      var rest := baseline[1..];
      InMethodsKept(rest, current, x);
      assert forall i | 0 <= i < |rest| :: rest[i] == baseline[i + 1];
      if i :| 0 <= i < |baseline| && x in MethodKept(baseline[i], current) {
        assert i == 0 || x in MethodKept(rest[i - 1], current);
      }
    }
  }

  lemma {:induction false} InMethodsAdded(baseline: seq<Method>, current: seq<Method>, x: Change)
    ensures x in MethodsAdded(baseline, current) <==>
            exists j | 0 <= j < |current| :: AddedMethodDiffers(baseline, current[j], x)
    decreases current
  {
    if current != [] {
      var rest := current[1..];
      InMethodsAdded(baseline, rest, x);
      NamedIsKey(baseline, current[0].name);
      hide AddedMethodDiffers, MethodPath, NamesMethod;
      AddedFirst(baseline, current, x);
      assert forall j | 0 <= j < |rest| :: rest[j] == current[j + 1];
      if j :| 0 <= j < |current| && AddedMethodDiffers(baseline, current[j], x) {
        assert j == 0 || AddedMethodDiffers(baseline, rest[j - 1], x);
      }
    }
  }

  lemma AddedFirst(baseline: seq<Method>, current: seq<Method>, x: Change)
    requires current != []
    ensures x in MethodsAdded(baseline, current) <==>
            AddedMethodDiffers(baseline, current[0], x) || x in MethodsAdded(baseline, current[1..])
  {
    NamedIsKey(baseline, current[0].name);
  }

  /** The report holds exactly the differences between the two schemas. */
  lemma SchemaReportedExactly(baseline: seq<Method>, current: seq<Method>, x: Change)
    requires AllShaped(baseline) && AllShaped(current) && DistinctNames(current)
    ensures x in SchemaChanges(baseline, current) <==> SchemaDiffers(baseline, current, x)
  {
    InMethodsKept(baseline, current, x);
    InMethodsAdded(baseline, current, x);
    hide MethodKept, KeptMethodDiffers, AddedMethodDiffers, DistinctNames, MethodsAdded, MethodsKept;
    forall i | 0 <= i < |baseline|
      ensures x in MethodKept(baseline[i], current) <==> KeptMethodDiffers(baseline[i], current, x)
    {
      KeptMethodExactly(baseline[i], current, x);
    }
  }

  // ---- A schema against itself ----

  lemma {:induction false} OwnName(methods: seq<Method>, i: nat)
    requires DistinctNames(methods) && i < |methods|
    ensures methods[i].name in MethodsByName(methods) && MethodsByName(methods)[methods[i].name] == methods[i]
  {
    var last := |methods| - 1;
    if i < last {
      OwnName(methods[..last], i);
    }
  }

  lemma MethodSelf(path: string, m: Method)
    requires MethodShaped(m)
    ensures CompareMethod(path, m, m) == []
  {
    if m.params.Some? {
      FieldsSelf(path + ".params" + ".fields", m.params.value.fields, Request);
    }
    FieldsSelf(path + ".result.fields", m.result.fields, Response);
    FieldsSelf(path + ".meta", m.meta, Response);
  }

  lemma {:induction false} KeptSelf(part: seq<Method>, methods: seq<Method>)
    requires forall i | 0 <= i < |part| :: MethodKept(part[i], methods) == []
    ensures MethodsKept(part, methods) == []
  {
    if part != [] {
      assert forall i | 0 <= i < |part[1..]| :: part[1..][i] == part[i + 1];
      KeptSelf(part[1..], methods);
    }
  }

  lemma {:induction false} AddedSelf(methods: seq<Method>, part: seq<Method>)
    requires forall i | 0 <= i < |part| :: part[i].name in MethodsByName(methods)
    ensures MethodsAdded(methods, part) == []
    decreases part
  {
    if part != [] {
      assert forall i | 0 <= i < |part[1..]| :: part[1..][i] == part[i + 1];
      AddedSelf(methods, part[1..]);
    }
  }

  lemma SelfUnchanged(methods: seq<Method>)
    requires DistinctNames(methods) && AllShaped(methods)
    ensures SchemaChanges(methods, methods) == []
  {
    forall i | 0 <= i < |methods|
      ensures MethodKept(methods[i], methods) == [] && methods[i].name in MethodsByName(methods)
    {
      OwnName(methods, i);
      MethodSelf(MethodPath(methods[i].name), methods[i]);
    }
    KeptSelf(methods, methods);
    AddedSelf(methods, methods);
  }

  // ---- CompareSchemas ----

  ghost predicate Resolves(schema: Schema, methods: seq<Method>) {
    |methods| == |schema.methods| &&
    forall i | 0 <= i < |methods| ::
      MethodExpands(DefinitionsOf(schema.types), schema.methods[i], methods[i]) && MethodShaped(methods[i])
  }

  lemma MethodExpandsUnique(definitions: Definitions, m: Method, a: Method, b: Method)
    requires MethodExpands(definitions, m, a) && MethodExpands(definitions, m, b)
    ensures a == b
  {
    if m.params.Some? {
      ExpansionUnique(definitions, m.params.value.fields, a.params.value.fields, b.params.value.fields);
    }
    ExpansionUnique(definitions, m.result.fields, a.result.fields, b.result.fields);
    ExpansionUnique(definitions, m.meta, a.meta, b.meta);
  }

  lemma ResolvesUnique(schema: Schema, a: seq<Method>, b: seq<Method>)
    requires Resolves(schema, a) && Resolves(schema, b)
    ensures a == b
  {
    forall i | 0 <= i < |a|
      ensures a[i] == b[i]
    {
      MethodExpandsUnique(DefinitionsOf(schema.types), schema.methods[i], a[i], b[i]);
    }
  }

  method CompareSchemas(baseline: Schema, current: Schema, generates: Schema -> bool)
    returns (r: Result<Report, Invalid>, ghost before: seq<Method>, ghost after: seq<Method>)
    ensures r.Ok? <==> ValidSchema(baseline, generates) && ValidSchema(current, generates)
    ensures r.Err? ==> (r.error == BaselineInvalid <==> !ValidSchema(baseline, generates))
    ensures r.Ok? ==> Resolves(baseline, before) && Resolves(current, after)
    ensures r.Ok? ==> r.value.changes == SchemaChanges(before, after)
    ensures r.Ok? ==> forall x :: x in r.value.changes <==> SchemaDiffers(before, after, x)
    ensures r.Ok? ==> r.value.breakingChanges == BreakingIn(r.value.changes)
    ensures r.Ok? ==> (r.value.bumpRequired <==> !SameSchema(before, after))
                      && (r.value.bumpPresent <==> current.protocolVersion > baseline.protocolVersion)
                      && r.value.minimumVersion == baseline.protocolVersion + if r.value.bumpRequired then 1 else 0
    ensures r.Ok? ==> (r.value.status == Compatible <==>
                         SameSchema(before, after) && current.protocolVersion >= baseline.protocolVersion)
    ensures r.Ok? ==> (r.value.status == Incompatible <==> current.protocolVersion < r.value.minimumVersion)
    ensures r.Ok? && r.value.status == Compatible ==> forall l :: AllWireSame(l, before, after)
    ensures r.Ok? && baseline == current ==> r.value.changes == [] && r.value.status == Compatible
  {
    before, after := [], [];
    ghost var order, order';
    var ok;
    ok, order := Validate(baseline, generates);
    if !ok { return Err(BaselineInvalid), before, after; }
    ok, order' := Validate(current, generates);
    if !ok { return Err(CurrentInvalid), before, after; }
    var b := ResolveReferences(baseline, generates, order);
    var c := ResolveReferences(current, generates, order');
    before, after := b, c;
    var changes := ReportMethods(b, c);
    var breaking := CountBreaking(changes);
    var required, present := breaking > 0, current.protocolVersion > baseline.protocolVersion;
    var minimum := if required then baseline.protocolVersion + 1 else baseline.protocolVersion;
    var compatible := current.protocolVersion >= baseline.protocolVersion && (!required || present);
    var status := if !compatible then Incompatible else if required then VersionedBreak else Compatible;
    r := Ok(Report(status, baseline.protocolVersion, current.protocolVersion, required, present, minimum, breaking,
        changes));
    if baseline == current {
      ResolvesUnique(baseline, b, c);
      SelfUnchanged(b);
    }
    BreakingNone(changes);
    VerdictExact(b, c);
    forall x
      ensures x in changes <==> SchemaDiffers(b, c, x)
    {
      SchemaReportedExactly(b, c, x);
    }
    if NoBreak(changes) {
      forall l
        ensures AllWireSame(l, b, c)
      {
        VerdictSound(l, b, c);
      }
    }
  }
}
