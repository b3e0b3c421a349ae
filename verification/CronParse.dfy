/** The five cron fields: their grammar, the parser that fills the allowed
    values, and the agreement between the two. */
module CronParse {
  import opened Wrappers
  import opened Text
  import opened CronSearch

  const NO_NAMES: map<string, int> := map[]

  const MONTH_NAMES: map<string, int> := map[
    "JAN" := 1, "FEB" := 2, "MAR" := 3, "APR" := 4, "MAY" := 5, "JUN" := 6,
    "JUL" := 7, "AUG" := 8, "SEP" := 9, "OCT" := 10, "NOV" := 11, "DEC" := 12]

  const WEEKDAY_NAMES: map<string, int> := map[
    "SUN" := 0, "MON" := 1, "TUE" := 2, "WED" := 3, "THU" := 4, "FRI" := 5, "SAT" := 6]

  /** The bounds and the names of one of the five fields. */
  datatype AnyBounds = AnyBounds(minimum: int, maximum: int, names: map<string, int>)

  predicate IsCapital(c: char) {
    'A' <= c <= 'Z'
  }

  predicate Capitals(name: string) {
    name != "" && forall i | 0 <= i < |name| :: IsCapital(name[i])
  }

  predicate ValidBounds(b: AnyBounds) {
    && 0 <= b.minimum <= b.maximum <= 59
    && forall name | name in b.names :: Capitals(name) && b.minimum <= b.names[name] <= b.maximum
  }

  type Bounds = b: AnyBounds | ValidBounds(b) witness AnyBounds(0, 59, map[])

  function Minutes(): (b: Bounds) ensures b.minimum == 0 && b.maximum == 59 { AnyBounds(0, 59, NO_NAMES) }

  function Hours(): (b: Bounds) ensures b.minimum == 0 && b.maximum == 23 { AnyBounds(0, 23, NO_NAMES) }

  function Days(): (b: Bounds) ensures b.minimum == 1 && b.maximum == 31 { AnyBounds(1, 31, NO_NAMES) }

  function Months(): (b: Bounds) ensures b.minimum == 1 && b.maximum == 12 { AnyBounds(1, 12, MONTH_NAMES) }

  function Weekdays(): (b: Bounds) ensures b.minimum == 0 && b.maximum == 7 { AnyBounds(0, 7, WEEKDAY_NAMES) }

  /** The values start, start + step, ... up to end. */
  datatype Span = Span(start: int, end: int, step: int)

  ghost predicate Denotes(span: Span, v: int)
    requires span.step > 0
  {
    span.start <= v <= span.end && (v - span.start) % span.step == 0
  }

  /** The last of them. */
  function LastMember(span: Span): int
    requires span.step > 0
  {
    span.end - (span.end - span.start) % span.step
  }

  /** The loop over the values adds the step once more after the last one, and
      that sum is beyond the machine's integers. */
  predicate Overruns(span: Span)
    requires span.step > 0
  {
    LastMember(span) + span.step > MAX_INT64
  }

  /** Addition of 64-bit integers. */
  function AddInt64(a: int, b: int): int {
    if a + b > MAX_INT64 then a + b - 0x1_0000_0000_0000_0000 else a + b
  }

  // ---- One list item ----

  datatype Step = Step(base: string, step: int, hasStep: bool)

  function ParseStep(item: string): (r: Option<Step>)
    ensures r.Some? ==> 0 < r.value.step <= MAX_INT64 && r.value.base != ""
  {
    var parts := Split(item, '/');
    if |parts| > 2 || parts[0] == "" then None
    else if |parts| == 1 then Some(Step(parts[0], 1, false))
    else
      var step := Atoi(parts[1]);
      if step.None? || step.value <= 0 then None else Some(Step(parts[0], step.value, true))
  }

  function ParseValue(text: string, b: Bounds): (r: Option<int>)
    ensures r.Some? ==> b.minimum <= r.value <= b.maximum
  {
    if text in b.names then Some(b.names[text])
    else
      var parsed := Atoi(text);
      if parsed.None? || parsed.value < b.minimum || parsed.value > b.maximum then None else parsed
  }

  function ParseBase(base: string, step: int, hasStep: bool, b: Bounds): (r: Option<Span>)
    requires step > 0
    ensures r.Some? ==> b.minimum <= r.value.start <= r.value.end <= b.maximum && r.value.step == step
  {
    if base == "*" then Some(Span(b.minimum, b.maximum, step))
    else if '-' in base then
      var ends := Split(base, '-');
      if |ends| != 2 || ends[0] == "" || ends[1] == "" then None
      else
        var start, end := ParseValue(ends[0], b), ParseValue(ends[1], b);
        if start.None? || end.None? || start.value > end.value then None
        else Some(Span(start.value, end.value, step))
    else
      var start := ParseValue(base, b);
      if start.None? then None
      else Some(Span(start.value, if hasStep then b.maximum else start.value, step))
  }

  function ParseItem(item: string, b: Bounds): (r: Option<Span>)
    ensures r.Some? ==> b.minimum <= r.value.start <= r.value.end <= b.maximum && 0 < r.value.step <= MAX_INT64
  {
    if item == "" then None
    else
      var parsed := ParseStep(item);
      if parsed.None? then None
      else ParseBase(parsed.value.base, parsed.value.step, parsed.value.hasStep, b)
  }

  // ---- The grammar, and how it is written ----

  predicate IsLetter(c: char) {
    'a' <= c <= 'z' || IsCapital(c)
  }

  type Digits = d: string | d != "" && AllDigits(d) witness "0"

  type Word = w: string | w != "" && forall i | 0 <= i < |w| :: IsLetter(w[i]) witness "A"

  datatype Count = Count(plus: bool, digits: Digits)

  datatype Value = Number(count: Count) | Named(word: Word)

  datatype Base = Every | Single(value: Value) | Range(low: Value, high: Value)

  datatype Item = Item(base: Base, step: Option<Count>)

  function WriteCount(c: Count): string {
    (if c.plus then "+" else "") + c.digits
  }

  function WriteValue(v: Value): string {
    if v.Number? then WriteCount(v.count) else v.word
  }

  function WriteBase(base: Base): string {
    match base
    case Every => "*"
    case Single(v) => WriteValue(v)
    case Range(low, high) => WriteValue(low) + ['-'] + WriteValue(high)
  }

  function Write(item: Item): string {
    if item.step.None? then WriteBase(item.base) else WriteBase(item.base) + ['/'] + WriteCount(item.step.value)
  }

  // ---- The meaning crontab gives the grammar ----

  function ValueMeaning(v: Value, b: Bounds): Option<int> {
    match v
    case Number(c) =>
      if b.minimum <= DigitsValue(c.digits) <= b.maximum then Some(DigitsValue(c.digits)) else None
    case Named(word) => if ToUpper(word) in b.names then Some(b.names[ToUpper(word)]) else None
  }

  function BaseMeaning(base: Base, step: int, hasStep: bool, b: Bounds): (r: Option<Span>)
    ensures r.Some? ==> r.value.step == step
  {
    match base
    case Every => Some(Span(b.minimum, b.maximum, step))
    case Single(v) =>
      var value := ValueMeaning(v, b);
      if value.None? then None else Some(Span(value.value, if hasStep then b.maximum else value.value, step))
    case Range(low, high) =>
      var start, end := ValueMeaning(low, b), ValueMeaning(high, b);
      if start.None? || end.None? || start.value > end.value then None
      else Some(Span(start.value, end.value, step))
  }

  function StepMeaning(step: Option<Count>): nat {
    if step.None? then 1 else DigitsValue(step.value.digits)
  }

  /** None when the item has no meaning within the bounds. */
  function Meaning(item: Item, b: Bounds): (r: Option<Span>)
    ensures r.Some? ==> r.value.step > 0
  {
    var step := StepMeaning(item.step);
    if step == 0 || step > MAX_INT64 then None else BaseMeaning(item.base, step, item.step.Some?, b)
  }

  ghost predicate AllMean(items: seq<Item>, b: Bounds) {
    forall i | 0 <= i < |items| :: Meaning(items[i], b).Some?
  }

  ghost predicate ItemMeans(item: Item, b: Bounds, v: int) {
    Meaning(item, b).Some? && Denotes(Meaning(item, b).value, v)
  }

  ghost predicate SomeMeans(items: seq<Item>, b: Bounds, v: int) {
    exists i | 0 <= i < |items| :: ItemMeans(items[i], b, v)
  }

  function Texts(items: seq<Item>): seq<string> {
    seq(|items|, i requires 0 <= i < |items| => ToUpper(Write(items[i])))
  }

  /** The text lists the items between commas, in any letter case. */
  predicate Lists(text: string, items: seq<Item>) {
    |items| >= 1 && ToUpper(text) == Join(Texts(items), ',')
  }

  /** The text is a cron field: some list of items with a meaning. */
  ghost predicate IsField(text: string, b: Bounds) {
    exists items :: Lists(text, items) && AllMean(items, b)
  }

  ghost predicate FieldAllows(text: string, b: Bounds, v: int) {
    exists items :: Lists(text, items) && AllMean(items, b) && SomeMeans(items, b, v)
  }

  // ---- Reading what was written ----

  /** No mark of the grammar occurs in a value. */
  predicate Unmarked(text: string) {
    forall i | 0 <= i < |text| :: text[i] == '+' || IsDigit(text[i]) || IsCapital(text[i])
  }

  lemma UpperCount(c: Count)
    ensures ToUpper(WriteCount(c)) == WriteCount(c)
    ensures Unmarked(WriteCount(c)) && WriteCount(c) != "" && !IsCapital(WriteCount(c)[0])
    ensures Atoi(WriteCount(c)) == if DigitsValue(c.digits) <= MAX_INT64 then Some(DigitsValue(c.digits)) else None
  {
    var text := WriteCount(c);
    if c.plus {
      assert text[0] == '+' && text[1..] == c.digits;
    } else {
      assert text == c.digits && IsDigit(text[0]);
    }
  }

  lemma ReadValue(v: Value, b: Bounds)
    ensures var text := ToUpper(WriteValue(v));
            Unmarked(text) && text != "" && ParseValue(text, b) == ValueMeaning(v, b)
  {
    match v
    case Number(c) => UpperCount(c);
    case Named(word) =>
      var text := ToUpper(word);
      assert IsCapital(text[0]);
  }

  lemma UpperJoin(a: string, mark: char, c: string)
    ensures ToUpper(a + [mark] + c) == ToUpper(a) + [UpperChar(mark)] + ToUpper(c)
  {
  }

  lemma NoMarks(text: string)
    requires Unmarked(text)
    ensures '/' !in text && ',' !in text && '-' !in text && text != "*"
  {
    if text != "" {
      assert text[0] != '*';
    }
  }

  /** No mark of the lists and steps occurs in a base. */
  lemma UpperBase(base: Base, b: Bounds)
    ensures var text := ToUpper(WriteBase(base)); text != "" && '/' !in text && ',' !in text
  {
    match base
    case Every =>
    case Single(v) =>
      ReadValue(v, b);
      hide ToUpper, WriteValue, ParseValue, ValueMeaning;
      NoMarks(ToUpper(WriteValue(v)));
    case Range(low, high) =>
      ReadValue(low, b);
      ReadValue(high, b);
      UpperJoin(WriteValue(low), '-', WriteValue(high));
      hide ToUpper, WriteValue, ParseValue, ValueMeaning;
      NoMarks(ToUpper(WriteValue(low)));
      NoMarks(ToUpper(WriteValue(high)));
  }

  lemma ReadStep(item: Item, b: Bounds)
    ensures ToUpper(Write(item)) != "" && ',' !in ToUpper(Write(item))
    ensures ParseStep(ToUpper(Write(item))) ==
            if 0 < StepMeaning(item.step) <= MAX_INT64 then
              Some(Step(ToUpper(WriteBase(item.base)), StepMeaning(item.step), item.step.Some?))
            else None
  {
    var base := ToUpper(WriteBase(item.base));
    UpperBase(item.base, b);
    hide WriteBase;
    if item.step.None? {
      SplitWhole(base, '/');
    } else {
      var count := item.step.value;
      UpperCount(count);
      UpperJoin(WriteBase(item.base), '/', WriteCount(count));
      NoMarks(WriteCount(count));
      hide ToUpper, WriteCount, Atoi, DigitsValue;
      SplitWhole(WriteCount(count), '/');
      SplitFirst(base, '/', WriteCount(count));
    }
  }

  lemma ReadRange(low: Value, high: Value, b: Bounds)
    ensures var text := ToUpper(WriteBase(Range(low, high)));
            '-' in text && text != "*" && Split(text, '-') == [ToUpper(WriteValue(low)), ToUpper(WriteValue(high))]
  {
    ReadValue(low, b);
    ReadValue(high, b);
    UpperJoin(WriteValue(low), '-', WriteValue(high));
    var start, end := ToUpper(WriteValue(low)), ToUpper(WriteValue(high));
    NoMarks(start);
    NoMarks(end);
    hide ToUpper, WriteValue, ParseValue, ValueMeaning;
    assert (start + ['-'] + end)[|start|] == '-';
    SplitWhole(end, '-');
    SplitFirst(start, '-', end);
  }

  lemma ReadBase(base: Base, step: int, hasStep: bool, b: Bounds)
    requires step > 0
    ensures ParseBase(ToUpper(WriteBase(base)), step, hasStep, b) == BaseMeaning(base, step, hasStep, b)
  {
    match base
    case Every => assert ToUpper("*") == "*";
    case Single(v) =>
      ReadValue(v, b);
      NoMarks(ToUpper(WriteValue(v)));
    case Range(low, high) =>
      ReadRange(low, high, b);
      ReadValue(low, b);
      ReadValue(high, b);
      hide ToUpper, WriteValue, ParseValue, ValueMeaning, Split, WriteBase;
  }

  /** Reading a written item gives exactly its crontab meaning, and fails
      exactly when it has none. */
  lemma ItemRoundTrip(item: Item, b: Bounds)
    ensures ParseItem(ToUpper(Write(item)), b) == Meaning(item, b)
  {
    ReadStep(item, b);
    hide ParseStep, ParseBase, BaseMeaning, ToUpper, WriteBase, Write, StepMeaning;
    if 0 < StepMeaning(item.step) <= MAX_INT64 {
      ReadBase(item.base, StepMeaning(item.step), item.step.Some?, b);
    }
  }

  // ---- Whatever is accepted was written in the grammar ----

  lemma CountIsWritten(text: string) returns (c: Count)
    requires Atoi(text).Some? && text[0] != '-'
    ensures WriteCount(c) == text
  {
    if text[0] == '+' {
      c := Count(true, text[1..]);
      assert text == "+" + text[1..];
    } else {
      c := Count(false, text);
    }
  }

  lemma ValueIsWritten(text: string, b: Bounds) returns (v: Value)
    requires ParseValue(text, b).Some? && '-' !in text
    ensures WriteValue(v) == text
  {
    if text in b.names {
      v := Named(text);
    } else {
      var c := CountIsWritten(text);
      v := Number(c);
    }
  }

  lemma StepIsWritten(text: string) returns (step: Option<Count>)
    requires ParseStep(text).Some?
    ensures var base := ParseStep(text).value.base;
            text == if step.None? then base else base + ['/'] + WriteCount(step.value)
  {
    var parts := Split(text, '/');
    SplitJoin(text, '/');
    step := None;
    if |parts| == 2 {
      assert Join(parts, '/') == parts[0] + ['/'] + Join(parts[1..], '/');
      var c := CountIsWritten(parts[1]);
      step := Some(c);
    }
  }

  lemma RangeIsWritten(base: string, b: Bounds) returns (low: Value, high: Value)
    requires var ends := Split(base, '-'); |ends| == 2 && ParseValue(ends[0], b).Some? && ParseValue(ends[1], b).Some?
    ensures base == WriteBase(Range(low, high))
  {
    var ends := Split(base, '-');
    SplitJoin(base, '-');
    assert Join(ends, '-') == ends[0] + ['-'] + Join(ends[1..], '-');
    low := ValueIsWritten(ends[0], b);
    high := ValueIsWritten(ends[1], b);
  }

  lemma ItemIsWritten(text: string, b: Bounds) returns (item: Item)
    requires ParseItem(text, b).Some?
    ensures Write(item) == text
  {
    var base := ParseStep(text).value.base;
    var step := StepIsWritten(text);
    if base == "*" {
      item := Item(Every, step);
    } else if '-' in base {
      var low, high := RangeIsWritten(base, b);
      item := Item(Range(low, high), step);
    } else {
      var v := ValueIsWritten(base, b);
      item := Item(Single(v), step);
    }
  }

  lemma ItemUpper(text: string, b: Bounds) returns (item: Item)
    requires ParseItem(text, b).Some? && ToUpper(text) == text
    ensures ToUpper(Write(item)) == text && Meaning(item, b).Some?
  {
    item := ItemIsWritten(text, b);
    ItemRoundTrip(item, b);
  }

  lemma {:induction false} ItemsAreWritten(parts: seq<string>, b: Bounds) returns (items: seq<Item>)
    requires AllParse(parts, b) && forall i | 0 <= i < |parts| :: ToUpper(parts[i]) == parts[i]
    ensures Texts(items) == parts && AllMean(items, b)
  {
    hide ParseItem, Meaning, ToUpper, Write;
    if parts == [] {
      items := [];
    } else {
      var n := |parts| - 1;
      var last := ItemUpper(parts[n], b);
      var rest := ItemsAreWritten(parts[..n], b);
      items := rest + [last];
      assert Texts(items) == Texts(rest) + [parts[n]];
    }
  }

  // ---- A whole field ----

  function Items(text: string): (items: seq<string>)
    ensures |items| >= 1
  {
    Split(ToUpper(text), ',')
  }

  ghost predicate AllParse(items: seq<string>, b: Bounds) {
    forall i | 0 <= i < |items| :: ParseItem(items[i], b).Some?
  }

  lemma {:induction false} PartsAreUpper(text: string, sep: char)
    requires forall i | 0 <= i < |text| :: UpperChar(text[i]) == text[i]
    ensures forall i | 0 <= i < |Split(text, sep)| :: ToUpper(Split(text, sep)[i]) == Split(text, sep)[i]
  {
    if text != "" {
      PartsAreUpper(text[1..], sep);
      var rest := Split(text[1..], sep);
      assert ToUpper([text[0]] + rest[0]) == [text[0]] + rest[0] by {
        assert ToUpper(rest[0]) == rest[0];
        assert forall i | 0 <= i < |rest[0]| :: UpperChar(rest[0][i]) == ToUpper(rest[0])[i];
      }
    }
  }

  lemma ListedItems(text: string, items: seq<Item>, b: Bounds)
    requires Lists(text, items)
    ensures Items(text) == Texts(items)
  {
    forall i | 0 <= i < |items|
      ensures ',' !in Texts(items)[i]
    {
      ReadStep(items[i], b);
    }
    JoinSplit(Texts(items), ',');
  }

  /** A listed field is accepted exactly when every item has a meaning, and
      allows exactly what the items mean together. */
  lemma FieldMeaning(text: string, items: seq<Item>, b: Bounds)
    requires Lists(text, items)
    ensures AllParse(Items(text), b) <==> AllMean(items, b)
    ensures forall v :: SomeItemDenotes(Items(text), b, v) <==> SomeMeans(items, b, v)
  {
    ListedItems(text, items, b);
    forall i | 0 <= i < |items|
      ensures ParseItem(Texts(items)[i], b) == Meaning(items[i], b)
    {
      ItemRoundTrip(items[i], b);
    }
    hide ParseItem, Meaning, Lists, Texts;
    forall v
      ensures SomeItemDenotes(Items(text), b, v) <==> SomeMeans(items, b, v)
    {
      forall i | 0 <= i < |items|
        ensures ItemDenotes(Items(text)[i], b, v) <==> ItemMeans(items[i], b, v)
      {
      }
    }
  }

  /** An accepted field lists items with a meaning. */
  lemma FieldIsListed(text: string, b: Bounds) returns (items: seq<Item>)
    requires AllParse(Items(text), b)
    ensures Lists(text, items) && AllMean(items, b)
  {
    PartsAreUpper(ToUpper(text), ',');
    items := ItemsAreWritten(Items(text), b);
    SplitJoin(ToUpper(text), ',');
  }

  /** Marking the values of some item overruns, and all before it have a meaning. */
  ghost predicate OverrunsAt(items: seq<Item>, b: Bounds, i: nat) {
    i < |items| && AllMean(items[..i + 1], b) && Overruns(Meaning(items[i], b).value)
  }

  ghost predicate SomeOverruns(items: seq<string>, b: Bounds) {
    exists i :: ParsedOverrunsAt(items, b, i)
  }

  ghost predicate ParsedOverrunsAt(items: seq<string>, b: Bounds, i: nat) {
    i < |items| && AllParse(items[..i + 1], b) && Overruns(ParseItem(items[i], b).value)
  }

  /** The text lists items with a meaning, and marking one of them overruns. */
  ghost predicate FieldOverruns(text: string, b: Bounds) {
    exists items, i :: Lists(text, items) && AllMean(items, b) && OverrunsAt(items, b, i)
  }

  lemma SameOverruns(items: seq<Item>, texts: seq<string>, b: Bounds, i: nat)
    requires |texts| == |items|
    requires forall k | 0 <= k < |items| :: ParseItem(texts[k], b) == Meaning(items[k], b)
    ensures OverrunsAt(items, b, i) <==> ParsedOverrunsAt(texts, b, i)
  {
    hide ParseItem, Meaning;
    if i < |items| {
      assert forall k | 0 <= k <= i :: texts[..i + 1][k] == texts[k] && items[..i + 1][k] == items[k];
    }
  }

  lemma ListOverruns(text: string, items: seq<Item>, b: Bounds, i: nat)
    requires Lists(text, items)
    ensures OverrunsAt(items, b, i) <==> ParsedOverrunsAt(Items(text), b, i)
  {
    ListedItems(text, items, b);
    forall k | 0 <= k < |items|
      ensures ParseItem(Texts(items)[k], b) == Meaning(items[k], b)
    {
      ItemRoundTrip(items[k], b);
    }
    hide *;
    SameOverruns(items, Items(text), b, i);
  }

  /** On a cron field the parser overruns exactly when the grammar says so. */
  lemma OverrunMeaning(text: string, b: Bounds)
    requires IsField(text, b)
    ensures SomeOverruns(Items(text), b) <==> FieldOverruns(text, b)
  {
    hide AllMean, Lists, Items, OverrunsAt, ParsedOverrunsAt;
    forall items, i: nat | Lists(text, items)
      ensures OverrunsAt(items, b, i) <==> ParsedOverrunsAt(Items(text), b, i)
    {
      ListOverruns(text, items, b, i);
    }
  }

  /** A step that is no further from the largest integer than the bounds never
      does. */
  lemma SmallStepsDoNot(span: Span)
    requires span.step > 0 && 0 <= span.start <= span.end <= 59 && span.step <= MAX_INT64 - 59
    ensures !Overruns(span)
  {
  }

  /** The largest step does, from any start but zero. */
  lemma LargestStepOverruns(v: nat, b: Bounds)
    requires b.minimum <= v <= b.maximum && v > 0
    ensures var item := Item(Single(Number(Count(false, Decimal(v)))), Some(Count(false, Decimal(MAX_INT64))));
            Meaning(item, b).Some? && Overruns(Meaning(item, b).value)
  {
    DecimalValue(v);
    DecimalValue(MAX_INT64);
  }

  /** So the parser accepts exactly the cron fields, with the values they mean. */
  lemma AcceptsFields(text: string, b: Bounds)
    ensures AllParse(Items(text), b) <==> IsField(text, b)
    ensures IsField(text, b) ==> forall v :: SomeItemDenotes(Items(text), b, v) <==> FieldAllows(text, b, v)
  {
    hide AllParse, Items, SomeItemDenotes, Lists, AllMean, SomeMeans;
    forall items | Lists(text, items)
      ensures AllParse(Items(text), b) <==> AllMean(items, b)
      ensures forall v :: SomeItemDenotes(Items(text), b, v) <==> SomeMeans(items, b, v)
    {
      FieldMeaning(text, items, b);
    }
    if AllParse(Items(text), b) {
      var items := FieldIsListed(text, b);
    }
  }

  ghost predicate ItemDenotes(item: string, b: Bounds, v: int)
  {
    ParseItem(item, b).Some? && Denotes(ParseItem(item, b).value, v)
  }

  ghost predicate SomeItemDenotes(items: seq<string>, b: Bounds, v: int)
  {
    exists i | 0 <= i < |items| :: ItemDenotes(items[i], b, v)
  }

  /** What the parser hands back for a valid field. */
  ghost predicate Parsed(text: string, b: Bounds, allowed: seq<bool>) {
    && |allowed| == b.maximum + 1
    && (forall v | 0 <= v <= b.maximum :: allowed[v] <==> FieldAllows(text, b, v))
    && AllowsSome(allowed, b.minimum, b.maximum)
  }

  lemma OneMoreItem(items: seq<string>, item: string, b: Bounds)
    ensures forall v :: SomeItemDenotes(items + [item], b, v) <==>
              SomeItemDenotes(items, b, v) || ItemDenotes(item, b, v)
  {
    var all := items + [item];
    forall v
      ensures SomeItemDenotes(all, b, v) <==> SomeItemDenotes(items, b, v) || ItemDenotes(item, b, v)
    {
      if SomeItemDenotes(items, b, v) {
        var i :| 0 <= i < |items| && ItemDenotes(items[i], b, v);
        assert all[i] == items[i];
      }
      assert all[|items|] == item;
    }
  }

  ghost predicate Marked(items: seq<string>, b: Bounds, allowed: seq<bool>) {
    && |allowed| == b.maximum + 1
    && forall v | 0 <= v <= b.maximum :: allowed[v] <==> SomeItemDenotes(items, b, v)
  }

  lemma OneMoreMarked(items: seq<string>, index: nat, b: Bounds, before: seq<bool>, after: seq<bool>)
    requires index < |items| && ParseItem(items[index], b).Some?
    requires AllParse(items[..index], b) && Marked(items[..index], b, before)
    requires Adds(before, ParseItem(items[index], b).value, after)
    ensures AllParse(items[..index + 1], b) && Marked(items[..index + 1], b, after)
  {
    assert items[..index + 1] == items[..index] + [items[index]];
    OneMoreItem(items[..index], items[index], b);
  }

  /** A valid field is never empty: an item denotes at least its start. */
  lemma Nonempty(items: seq<string>, b: Bounds)
    requires |items| >= 1 && ParseItem(items[0], b).Some?
    ensures exists v | b.minimum <= v <= b.maximum :: SomeItemDenotes(items, b, v)
  {
    var first := ParseItem(items[0], b).value;
    assert ItemDenotes(items[0], b, first.start);
    assert SomeItemDenotes(items, b, first.start);
  }

  lemma Multiples(k: int, step: int)
    requires step > 0
    ensures k >= 1 ==> k * step >= step
    ensures k <= -1 ==> k * step <= -step
  {
    if k >= 1 {
      assert k * step == (k - 1) * step + step;
    } else if k <= -1 {
      assert k * step == (k + 1) * step - step;
    }
  }

  lemma Remainder(x: int, q: int, step: int)
    requires step > 0 && x == q * step
    ensures x % step == 0
  {
    var d := x / step - q;
    assert x == (x / step) * step + x % step;
    assert (x / step) * step == d * step + q * step;
    Multiples(d, step);
  }

  lemma NextMultiple(start: int, current: int, step: int, v: int)
    requires step > 0 && (current - start) % step == 0 && (v - start) % step == 0
    requires current <= v < current + step
    ensures v == current
  {
    var m, n := (current - start) / step, (v - start) / step;
    assert current - start == m * step && v - start == n * step;
    assert v - current == (n - m) * step;
    Multiples(n - m, step);
  }

  lemma AddStep(start: int, current: int, step: int)
    requires step > 0 && (current - start) % step == 0
    ensures (current + step - start) % step == 0
  {
    var m := (current - start) / step;
    assert current - start == m * step;
    assert current + step - start == (m + 1) * step;
    Remainder(current + step - start, m + 1, step);
  }

  /** One span's values were added to the allowed ones, and nothing else. */
  ghost predicate Adds(before: seq<bool>, span: Span, after: seq<bool>)
    requires span.step > 0
  {
    |after| == |before| && forall v | 0 <= v < |after| :: after[v] <==> before[v] || Denotes(span, v)
  }

  lemma LastIs(span: Span, current: int)
    requires span.step > 0 && Denotes(span, current) && span.end < current + span.step
    ensures LastMember(span) == current
  {
    var start, end, step := span.start, span.end, span.step;
    var q, n := (end - start) / step, (current - start) / step;
    assert end - start == q * step + (end - start) % step && current - start == n * step;
    assert LastMember(span) - current == (q - n) * step;
    Multiples(q - n, step);
  }

  /** The values below are marked, and the rest as before; or the sum wrapped. */
  ghost predicate Marking(span: Span, before: seq<bool>, allowed: seq<bool>, current: int)
    requires span.step > 0
  {
    if current < 0 then Overruns(span)
    else
      && span.start <= current && (current - span.start) % span.step == 0
      && (current > span.end ==> !Overruns(span))
      && |allowed| == |before|
      && forall v | 0 <= v < |before| :: allowed[v] <==> before[v] || (Denotes(span, v) && v < current)
  }

  /** One value is marked and the step added. */
  lemma MarkOne(span: Span, before: seq<bool>, allowed: seq<bool>, current: int)
    requires 0 <= span.start && span.end < |allowed| <= 60 && 0 < span.step <= MAX_INT64
    requires Marking(span, before, allowed, current) && 0 <= current <= span.end
    ensures Marking(span, before, allowed[current := true], AddInt64(current, span.step))
    ensures var next := AddInt64(current, span.step); next < 0 || next > current
  {
    forall v | Denotes(span, v) && current <= v < current + span.step
      ensures v == current
    {
      NextMultiple(span.start, current, span.step, v);
    }
    AddStep(span.start, current, span.step);
    if span.end < current + span.step { LastIs(span, current); }
  }

  lemma MarkingEnds(span: Span, before: seq<bool>, allowed: seq<bool>, current: int)
    requires 0 <= span.start <= span.end && span.step > 0
    requires Marking(span, before, allowed, current) && (current < 0 || current > span.end)
    ensures current < 0 <==> Overruns(span)
    ensures current >= 0 ==> Adds(before, span, allowed)
  {
  }

  /** Marks the values of one span, in place. The sum after the last one can wrap
      around, and then the next index is below zero. */
  method MarkSpan(allowed: array<bool>, span: Span) returns (panics: bool)
    requires 0 <= span.start <= span.end < allowed.Length <= 60 && 0 < span.step <= MAX_INT64
    modifies allowed
    ensures panics <==> Overruns(span)
    ensures !panics ==> Adds(old(allowed[..]), span, allowed[..])
  {
    ghost var before := allowed[..];
    var current := span.start;
    while 0 <= current <= span.end
      invariant Marking(span, before, allowed[..], current)
      decreases if current < 0 then 0 else 1 + span.end - current
    {
      hide Marking, AddInt64;
      MarkOne(span, before, allowed[..], current);
      allowed[current] := true;
      current := AddInt64(current, span.step);
    }
    MarkingEnds(span, before, allowed[..], current);
    panics := current < 0;
  }

  /** What becomes of a text: read, refused with an error, or a panic. */
  datatype Parse<T> = Read(value: T) | Refused | Panics

  /** The items read so far were marked, and none overran. */
  ghost predicate ReadSoFar(items: seq<string>, b: Bounds, index: nat, allowed: seq<bool>) {
    && index <= |items| && AllParse(items[..index], b) && Marked(items[..index], b, allowed)
    && forall i: nat | i < index :: !ParsedOverrunsAt(items, b, i)
  }

  lemma ReadNext(items: seq<string>, b: Bounds, index: nat, before: seq<bool>, after: seq<bool>)
    requires ReadSoFar(items, b, index, before) && index < |items| && ParseItem(items[index], b).Some?
    requires !Overruns(ParseItem(items[index], b).value) && Adds(before, ParseItem(items[index], b).value, after)
    ensures ReadSoFar(items, b, index + 1, after)
  {
    OneMoreMarked(items, index, b, before, after);
  }

  lemma ReadRefuses(items: seq<string>, b: Bounds, index: nat, allowed: seq<bool>)
    requires ReadSoFar(items, b, index, allowed) && index < |items| && ParseItem(items[index], b).None?
    ensures !AllParse(items, b) && !SomeOverruns(items, b)
  {
    forall i: nat
      ensures !ParsedOverrunsAt(items, b, i)
    {
      if index <= i < |items| {
        assert items[..i + 1][index] == items[index];
      }
    }
  }

  lemma ReadPanics(items: seq<string>, b: Bounds, index: nat, allowed: seq<bool>)
    requires ReadSoFar(items, b, index, allowed) && index < |items| && ParseItem(items[index], b).Some?
    requires Overruns(ParseItem(items[index], b).value)
    ensures SomeOverruns(items, b)
  {
    assert ParsedOverrunsAt(items, b, index);
  }

  lemma ReadAll(items: seq<string>, b: Bounds, allowed: seq<bool>)
    requires ReadSoFar(items, b, |items|, allowed)
    ensures AllParse(items, b) && Marked(items, b, allowed) && !SomeOverruns(items, b)
  {
    assert items[..|items|] == items;
  }

  method ParseItems(items: seq<string>, b: Bounds) returns (r: Parse<seq<bool>>)
    ensures r.Panics? <==> SomeOverruns(items, b)
    ensures r.Read? <==> AllParse(items, b) && !SomeOverruns(items, b)
    ensures r.Read? ==> Marked(items, b, r.value)
  {
    var allowed := new bool[b.maximum + 1](_ => false);
    var index := 0;
    while index < |items|
      invariant 0 <= index <= |items| && allowed.Length == b.maximum + 1
      invariant ReadSoFar(items, b, index, allowed[..])
    {
      hide Overruns, Adds;
      var span := ParseItem(items[index], b);
      ghost var before := allowed[..];
      if span.None? {
        ReadRefuses(items, b, index, before);
        return Refused;
      }
      var panics := MarkSpan(allowed, span.value);
      if panics {
        ReadPanics(items, b, index, before);
        return Panics;
      }
      ReadNext(items, b, index, before, allowed[..]);
      index := index + 1;
    }
    ReadAll(items, b, allowed[..]);
    r := Read(allowed[..]);
  }

  method ParseField(text: string, b: Bounds) returns (r: Parse<seq<bool>>)
    ensures r.Panics? <==> SomeOverruns(Items(text), b)
    ensures r.Read? <==> IsField(text, b) && !FieldOverruns(text, b)
    ensures IsField(text, b) ==> (r.Panics? <==> FieldOverruns(text, b))
    ensures r.Read? ==> Parsed(text, b, r.value)
  {
    r := ParseItems(Items(text), b);
    AcceptsFields(text, b);
    if IsField(text, b) {
      OverrunMeaning(text, b);
    }
    if r.Read? {
      Nonempty(Items(text), b);
    }
  }

  // ---- The five fields ----

  /** strings.Fields gave five words and each is a cron field. */
  ghost predicate ExpressionValid(words: seq<string>) {
    && |words| == 5
    && IsField(words[0], Minutes()) && IsField(words[1], Hours()) && IsField(words[2], Days())
    && IsField(words[3], Months()) && IsField(words[4], Weekdays())
  }

  /** Marking some value of a field overruns. */
  ghost predicate ExpressionOverruns(words: seq<string>)
    requires |words| == 5
  {
    || FieldOverruns(words[0], Minutes()) || FieldOverruns(words[1], Hours()) || FieldOverruns(words[2], Days())
    || FieldOverruns(words[3], Months()) || FieldOverruns(words[4], Weekdays())
  }

  /** The expression allows what the words denote; weekday 7 is Sunday again. */
  ghost predicate Agrees(words: seq<string>, e: CronExpression)
    requires |words| == 5 && WellFormed(e)
  {
    && (forall v | 0 <= v < 60 :: e.minutes[v] <==> FieldAllows(words[0], Minutes(), v))
    && (forall v | 0 <= v < 24 :: e.hours[v] <==> FieldAllows(words[1], Hours(), v))
    && (forall v | 1 <= v <= 31 :: e.daysOfMonth[v] <==> FieldAllows(words[2], Days(), v))
    && (forall v | 1 <= v <= 12 :: e.months[v] <==> FieldAllows(words[3], Months(), v))
    && (forall v | 1 <= v < 7 :: e.weekdays[v] <==> FieldAllows(words[4], Weekdays(), v))
    && (e.weekdays[0] <==> FieldAllows(words[4], Weekdays(), 0) || FieldAllows(words[4], Weekdays(), 7))
  }

  /** Day 7 is day 0 again. */
  ghost predicate Folded(allowed: seq<bool>, folded: seq<bool>) {
    && |allowed| == 8 && |folded| == 7 && AllowsSome(folded, 0, 6)
    && folded[0] == (allowed[0] || allowed[7])
    && forall v | 1 <= v < 7 :: folded[v] == allowed[v]
  }

  method FoldSunday(allowed: seq<bool>) returns (folded: seq<bool>)
    requires |allowed| == 8 && AllowsSome(allowed, 0, 7)
    ensures Folded(allowed, folded)
  {
    folded := allowed[0 := allowed[0] || allowed[7]][..7];
    ghost var some :| 0 <= some <= 7 && allowed[some];
    assert folded[if some == 7 then 0 else some];
  }

  datatype FieldMarks = FieldMarks(
    minutes: seq<bool>, hours: seq<bool>, daysOfMonth: seq<bool>, months: seq<bool>, weekdays: seq<bool>)

  ghost predicate AllParsed(words: seq<string>, f: FieldMarks)
    requires |words| == 5
  {
    && Parsed(words[0], Minutes(), f.minutes) && Parsed(words[1], Hours(), f.hours)
    && Parsed(words[2], Days(), f.daysOfMonth) && Parsed(words[3], Months(), f.months)
    && Parsed(words[4], Weekdays(), f.weekdays)
  }

  /** One field after the other; the first that is not read decides. */
  method ParseFields(words: seq<string>) returns (r: Parse<FieldMarks>)
    requires |words| == 5
    ensures r.Read? <==> ExpressionValid(words) && !ExpressionOverruns(words)
    ensures ExpressionValid(words) ==> (r.Panics? <==> ExpressionOverruns(words))
    ensures r.Read? ==> AllParsed(words, r.value)
  {
    hide IsField, FieldOverruns, SomeOverruns, Parsed, Items;
    var minutes := ParseField(words[0], Minutes());
    if !minutes.Read? { return if minutes.Panics? then Panics else Refused; }
    var hours := ParseField(words[1], Hours());
    if !hours.Read? { return if hours.Panics? then Panics else Refused; }
    var daysOfMonth := ParseField(words[2], Days());
    if !daysOfMonth.Read? { return if daysOfMonth.Panics? then Panics else Refused; }
    var months := ParseField(words[3], Months());
    if !months.Read? { return if months.Panics? then Panics else Refused; }
    var weekdays := ParseField(words[4], Weekdays());
    if !weekdays.Read? { return if weekdays.Panics? then Panics else Refused; }
    r := Read(FieldMarks(minutes.value, hours.value, daysOfMonth.value, months.value, weekdays.value));
  }

  function Assembled(f: FieldMarks, weekdays: seq<bool>): CronExpression
    requires |f.daysOfMonth| == 32 && |weekdays| == 7
  {
    CronExpression(f.minutes, f.hours, f.daysOfMonth, f.months, weekdays,
                   AllowsEvery(f.daysOfMonth, 1, 31), AllowsEvery(weekdays, 0, 6))
  }

  lemma AssembledAgrees(words: seq<string>, f: FieldMarks, weekdays: seq<bool>)
    requires |words| == 5 && AllParsed(words, f) && Folded(f.weekdays, weekdays)
    ensures WellFormed(Assembled(f, weekdays)) && Agrees(words, Assembled(f, weekdays))
  {
    hide FieldAllows;
  }

  method ParseCronExpression(text: string) returns (r: Parse<CronExpression>)
    ensures r.Read? <==> ExpressionValid(Fields(text)) && !ExpressionOverruns(Fields(text))
    ensures ExpressionValid(Fields(text)) ==> (r.Panics? <==> ExpressionOverruns(Fields(text)))
    ensures r.Read? ==> WellFormed(r.value) && Agrees(Fields(text), r.value)
  {
    var parts := Fields(text);
    if |parts| != 5 { return Refused; }
    hide IsField, ExpressionOverruns, FieldAllows, Fields, Agrees, WellFormed;
    var fields := ParseFields(parts);
    match fields
    case Refused => r := Refused;
    case Panics => r := Panics;
    case Read(f) =>
      var weekdays := FoldSunday(f.weekdays);
      AssembledAgrees(parts, f, weekdays);
      r := Read(Assembled(f, weekdays));
  }
}
