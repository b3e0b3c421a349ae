/** ASCII text: splitting, decimal numbers and the byte-wise order of strings. */
module Text {
  import opened Wrappers

  const MAX_INT64 := 0x7fff_ffff_ffff_ffff

  // ---- strings.Split with a one-character separator ----

  function Split(s: string, sep: char): (parts: seq<string>)
    ensures |parts| >= 1
  {
    if s == "" then [""]
    else
      var rest := Split(s[1..], sep);
      if s[0] == sep then [""] + rest
      else [[s[0]] + rest[0]] + rest[1..]
  }

  function Join(parts: seq<string>, sep: char): string
    requires |parts| >= 1
  {
    if |parts| == 1 then parts[0] else parts[0] + [sep] + Join(parts[1..], sep)
  }

  /** Splitting loses nothing, and leaves no separator inside a part. */
  lemma {:induction false} SplitJoin(s: string, sep: char)
    ensures Join(Split(s, sep), sep) == s
    ensures forall i | 0 <= i < |Split(s, sep)| :: sep !in Split(s, sep)[i]
  {
    if s != "" {
      SplitJoin(s[1..], sep);
      var rest := Split(s[1..], sep);
      if s[0] == sep {
        assert ([""] + rest)[1..] == rest;
      } else {
        var parts := [[s[0]] + rest[0]] + rest[1..];
        assert parts[1..] == rest[1..];
        assert Join(parts, sep) == [s[0]] + Join(rest, sep);
      }
    }
  }

  lemma {:induction false} SplitWhole(s: string, sep: char)
    requires sep !in s
    ensures Split(s, sep) == [s]
  {
    if s != "" {
      SplitWhole(s[1..], sep);
      assert s == [s[0]] + s[1..];
    }
  }

  lemma {:induction false} SplitFirst(a: string, sep: char, b: string)
    requires sep !in a
    ensures Split(a + [sep] + b, sep) == [a] + Split(b, sep)
  {
    var s := a + [sep] + b;
    if a == "" {
      assert s[1..] == b;
    } else {
      assert s[1..] == a[1..] + [sep] + b;
      SplitFirst(a[1..], sep, b);
      assert s[0] == a[0] && a == [a[0]] + a[1..];
      assert ([a[1..]] + Split(b, sep))[1..] == Split(b, sep);
    }
  }

  /** And joining parts without a separator loses nothing either. */
  lemma {:induction false} JoinSplit(parts: seq<string>, sep: char)
    requires |parts| >= 1 && forall i | 0 <= i < |parts| :: sep !in parts[i]
    ensures Split(Join(parts, sep), sep) == parts
  {
    if |parts| == 1 {
      SplitWhole(parts[0], sep);
    } else {
      JoinSplit(parts[1..], sep);
      SplitFirst(parts[0], sep, Join(parts[1..], sep));
      assert parts == [parts[0]] + parts[1..];
    }
  }

  // ---- Decimal numbers ----

  predicate IsDigit(c: char) {
    '0' <= c <= '9'
  }

  predicate AllDigits(s: string) {
    forall i | 0 <= i < |s| :: IsDigit(s[i])
  }

  function DigitsValue(s: string): nat
    requires AllDigits(s)
  {
    if s == "" then 0 else 10 * DigitsValue(s[..|s| - 1]) + (s[|s| - 1] - '0') as nat
  }

  /** strconv.FormatUint and friends, base ten. */
  function Decimal(n: nat): (s: string)
    ensures s != "" && AllDigits(s)
  {
    var last := [(n % 10) as char + '0'];
    if n < 10 then last else Decimal(n / 10) + last
  }

  lemma {:induction false} DecimalValue(n: nat)
    ensures DigitsValue(Decimal(n)) == n
  {
    var s := Decimal(n);
    if n >= 10 {
      DecimalValue(n / 10);
      assert s[..|s| - 1] == Decimal(n / 10);
    } else {
      assert s[..|s| - 1] == "";
    }
  }

  /** strconv.Atoi: an optional sign and digits, within 64 bits. */
  function Atoi(s: string): Option<int> {
    if s == "" then None
    else
      var signed := s[0] == '+' || s[0] == '-';
      var digits := if signed then s[1..] else s;
      if digits == "" || !AllDigits(digits) then None
      else
        var value: int := if s[0] == '-' then -(DigitsValue(digits) as int) else DigitsValue(digits);
        if -MAX_INT64 - 1 <= value <= MAX_INT64 then Some(value) else None
  }

  lemma AtoiDecimal(n: nat)
    ensures Atoi(Decimal(n)) == if n <= MAX_INT64 then Some(n) else None
  {
    DecimalValue(n);
    assert IsDigit(Decimal(n)[0]);
  }

  /** With a sign, within 64 bits. */
  lemma AtoiSigned(n: nat)
    ensures Atoi("-" + Decimal(n)) == if n <= MAX_INT64 + 1 then Some(-(n as int)) else None
    ensures Atoi("+" + Decimal(n)) == if n <= MAX_INT64 then Some(n) else None
  {
    DecimalValue(n);
    assert ("-" + Decimal(n))[1..] == Decimal(n) && ("+" + Decimal(n))[1..] == Decimal(n);
  }

  // ---- Letters and words ----

  function UpperChar(c: char): char {
    if 'a' <= c <= 'z' then c - 32 as char else c
  }

  function ToUpper(s: string): (u: string)
    ensures |u| == |s|
    ensures forall i | 0 <= i < |s| :: u[i] == UpperChar(s[i])
  {
    seq(|s|, i requires 0 <= i < |s| => UpperChar(s[i]))
  }

  const SMALL := "abcdefghijklmnopqrstuvwxyz"
  const CAPITAL := "ABCDEFGHIJKLMNOPQRSTUVWXYZ"

  /** A small letter becomes the capital in its place of the alphabet, and nothing
      else changes. */
  lemma UpperAlphabet(c: char)
    ensures forall i | 0 <= i < 26 && c == SMALL[i] :: UpperChar(c) == CAPITAL[i]
    ensures c !in SMALL ==> UpperChar(c) == c
  {
    assert forall i | 0 <= i < 26 :: SMALL[i] as int == 'a' as int + i && CAPITAL[i] as int == 'A' as int + i;
    if 'a' <= c <= 'z' {
      assert c == SMALL[c as int - 'a' as int];
    }
  }

  predicate IsSpace(c: char) {
    c == ' ' || c == '\t' || c == '\n' || c == '\r' || c == 11 as char || c == 12 as char
  }

  /** The blank and the five controls from tab to carriage return. */
  lemma SpaceCodes(c: char)
    ensures IsSpace(c) <==> c as int == 32 || 9 <= c as int <= 13
  {
  }

  /** strings.Fields: the maximal runs without white space. */
  function Fields(s: string): (words: seq<string>)
    ensures forall i | 0 <= i < |words| :: words[i] != "" && forall c | c in words[i] :: !IsSpace(c)
  {
    if s == "" then []
    else if IsSpace(s[0]) then Fields(s[1..])
    else
      var rest := Fields(s[1..]);
      if |s| > 1 && !IsSpace(s[1]) && |rest| > 0 then [[s[0]] + rest[0]] + rest[1..]
      else [[s[0]]] + rest
  }

  predicate Spaces(s: string) {
    forall c | c in s :: IsSpace(c)
  }

  predicate OneWord(s: string) {
    s != "" && forall c | c in s :: !IsSpace(c)
  }

  /** The first word of a text, with white space before it and at its end. */
  lemma {:induction false} FieldsFirst(before: string, word: string, rest: string)
    requires Spaces(before) && OneWord(word) && (rest == "" || IsSpace(rest[0]))
    ensures Fields(before + word + rest) == [word] + Fields(rest)
    decreases |before| + |word|
  {
    var s := before + word + rest;
    if before != "" {
      assert s[1..] == before[1..] + word + rest;
      FieldsFirst(before[1..], word, rest);
    } else if |word| == 1 {
      assert s == word + rest && s[1..] == rest && word == [s[0]];
      if rest != "" {
        assert s[1] == rest[0];
      }
    } else {
      assert s[1..] == [] + word[1..] + rest && s[1] == word[1];
      FieldsFirst([], word[1..], rest);
      assert word == [word[0]] + word[1..];
    }
  }

  lemma {:induction false} NoFields(s: string)
    requires Spaces(s)
    ensures Fields(s) == []
  {
    if s != "" {
      NoFields(s[1..]);
    }
  }

  // ---- The byte order of strings ----

  predicate Less(a: string, b: string) {
    if b == "" then false
    else if a == "" then true
    else a[0] < b[0] || (a[0] == b[0] && Less(a[1..], b[1..]))
  }

  lemma {:induction false} LessTotal(a: string, b: string)
    ensures Less(a, b) || Less(b, a) || a == b
    ensures !(Less(a, b) && Less(b, a))
    ensures !Less(a, a)
  {
    if a != "" {
      LessTotal(a[1..], a[1..]);
      if b != "" && a[0] == b[0] {
        LessTotal(a[1..], b[1..]);
        assert a == [a[0]] + a[1..] && b == [b[0]] + b[1..];
      }
    }
  }

  lemma {:induction false} LessTransitive(a: string, b: string, c: string)
    requires Less(a, b) && Less(b, c)
    ensures Less(a, c)
  {
    if a != "" && a[0] == b[0] && b[0] == c[0] {
      LessTransitive(a[1..], b[1..], c[1..]);
    }
  }

  /** Equal-length prefixes decide first; the rests only on a tie. */
  lemma {:induction false} LessPrefixed(p: string, a: string, q: string, b: string)
    requires |p| == |q|
    ensures Less(p + a, q + b) <==> Less(p, q) || (p == q && Less(a, b))
  {
    if p == "" {
      assert p + a == a && q + b == b;
    } else {
      assert (p + a)[1..] == p[1..] + a && (q + b)[1..] == q[1..] + b;
      LessPrefixed(p[1..], a, q[1..], b);
      assert p == [p[0]] + p[1..] && q == [q[0]] + q[1..];
    }
  }

  // ---- Texts that are not in use ----

  function Repeated(c: char, n: nat): (t: string)
    ensures |t| == n
  {
    seq(n, _ => c)
  }

  /** As many texts as wanted, each longer than the one before. */
  function Longer(from: nat, n: nat): (texts: seq<string>)
    ensures |texts| == n && forall i | 0 <= i < n :: |texts[i]| == from + i
  {
    if n == 0 then [] else Longer(from, n - 1) + [Repeated('0', from + n - 1)]
  }

  lemma {:induction false} Longest(used: set<string>) returns (n: nat)
    ensures forall t | t in used :: |t| <= n
  {
    n := 0;
    if t :| t in used {
      n := Longest(used - {t});
      n := if n < |t| then |t| else n;
    }
  }

  predicate Distinct(texts: seq<string>) {
    forall i, j | 0 <= i < j < |texts| :: texts[i] != texts[j]
  }

  /** There are always enough of them. */
  lemma UnusedTexts(used: set<string>, n: nat) returns (texts: seq<string>)
    ensures |texts| == n && Distinct(texts)
    ensures forall i | 0 <= i < n :: texts[i] != "" && texts[i] !in used
  {
    var longest := Longest(used);
    texts := Longer(longest + 1, n);
  }

  /** strings.TrimSpace */
  function TrimSpace(s: string): (trimmed: string)
    ensures trimmed != "" ==> !IsSpace(trimmed[0]) && !IsSpace(trimmed[|trimmed| - 1])
    ensures |trimmed| <= |s|
  {
    if s == "" then ""
    else if IsSpace(s[0]) then TrimSpace(s[1..])
    else if IsSpace(s[|s| - 1]) then TrimSpace(s[..|s| - 1])
    else s
  }

  /** Only white space is taken off. */
  lemma {:induction false} TrimmedParts(s: string) returns (before: string, after: string)
    ensures s == before + TrimSpace(s) + after && Spaces(before) && Spaces(after)
    decreases |s|
  {
    before, after := "", "";
    if s != "" && IsSpace(s[0]) {
      before, after := TrimmedParts(s[1..]);
      before := [s[0]] + before;
      assert s == [s[0]] + s[1..];
    } else if s != "" && IsSpace(s[|s| - 1]) {
      before, after := TrimmedParts(s[..|s| - 1]);
      after := after + [s[|s| - 1]];
      assert s == s[..|s| - 1] + [s[|s| - 1]];
    }
  }
}
