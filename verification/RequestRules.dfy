/** Whether the rules of a valid request field can be met at all. */
module RequestRules {
  import opened Wrappers
  import opened Text
  import opened Schemas
  import opened SchemaValidation
  import opened WireFormat

  /** Trimming leaves a text without white space alone. */
  ghost predicate TrimKeepsWords(l: Leaves) {
    forall n: nat :: l.trimmed(Repeated('x', n)) == Repeated('x', n)
  }

  predicate InBounds(f: Field, n: int) {
    (f.minLength > 0 ==> n >= f.minLength) && (f.maxLength > 0 ==> n <= f.maxLength)
  }

  /** The bounds a valid text field may have are those that some text meets. */
  lemma TextBounds(l: Leaves, f: Field)
    requires TrimKeepsWords(l) && f.minLength >= 0 && f.maxLength >= 0 && f.enum == []
    ensures (exists text :: TextRules(l, f, text)) <==> (f.maxLength > 0 ==> f.minLength <= f.maxLength)
  {
    if f.maxLength > 0 ==> f.minLength <= f.maxLength {
      assert TextRules(l, f, Repeated('x', f.minLength));
    }
  }

  /** And those of a number field are those that some number meets. */
  lemma NumberBounds(f: Field)
    ensures (exists n :: NumberRules(f, n)) <==>
            (f.minimum.Some? && f.maximum.Some? ==> f.minimum.value <= f.maximum.value)
  {
    if f.minimum.Some? && f.maximum.Some? ==> f.minimum.value <= f.maximum.value {
      var least := if f.minimum.Some? then f.minimum.value else if f.maximum.Some? then f.maximum.value else 0;
      assert NumberRules(f, least);
    }
  }

  /** A list of allowed values can be met exactly when one of them is within the
      bounds and is what trimming leaves of some text. */
  lemma EnumBounds(l: Leaves, f: Field)
    requires f.enum != []
    ensures (exists text :: TextRules(l, f, text)) <==>
            exists i | 0 <= i < |f.enum| :: InBounds(f, |f.enum[i]|) && (f.trim ==> Trims(l, f.enum[i]))
  {
    if text :| TextRules(l, f, text) {
      var t := if f.trim then l.trimmed(text) else text;
      var i :| 0 <= i < |f.enum| && f.enum[i] == t;
      assert InBounds(f, |f.enum[i]|) && (f.trim ==> Trims(l, f.enum[i]));
    }
    if i :| 0 <= i < |f.enum| && InBounds(f, |f.enum[i]|) && (f.trim ==> Trims(l, f.enum[i])) {
      if f.trim {
        var text :| l.trimmed(text) == f.enum[i];
        assert TextRules(l, f, text);
      } else {
        assert TextRules(l, f, f.enum[i]);
      }
    }
  }

  ghost predicate Trims(l: Leaves, value: string) {
    exists text :: l.trimmed(text) == value
  }

  /** Validation does not look at that: a valid field can refuse every text. */
  lemma ValidFieldRefusesAll(l: Leaves, definitions: Definitions) returns (f: Field)
    ensures ValidField(definitions, f) && f.kind == "string" && !f.nullable
    ensures forall text :: !TextRules(l, f, text)
  {
    f := Field("f", "string", "", false, false, ["no"], None, "", 0, 1, None, None, false);
    assert Split("f", '_') == ["f"] by {
      SplitWhole("f", '_');
    }
    assert IsFieldName(f.name);
  }
}
