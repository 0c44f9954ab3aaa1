/** What acceptance of a value means, field type by field type. */
module SubmissionMeanings {
  import opened Common
  import opened Text
  import opened Submissions

  /** `n` is the bound that a validation sets: under the first spelling if that holds a number, and
      else under the second. */
  predicate Sets(validation: map<string, Value>, camel: string, snake: string, n: real) {
    || (camel in validation && validation[camel] == Num(Some(n)))
    || (!(camel in validation && validation[camel].Num? && validation[camel].number.Some?)
        && snake in validation && validation[snake] == Num(Some(n)))
  }

  lemma BoundIs(validation: map<string, Value>, camel: string, snake: string)
    ensures forall n :: Bound(validation, camel, snake) == Some(n) <==> Sets(validation, camel, snake, n)
  {
  }

  /** The pattern of a field, if it has one. */
  predicate Asks(f: Field, pattern: string) {
    "pattern" in f.validation && f.validation["pattern"] == Str(pattern) && pattern != ""
  }

  ghost predicate LengthAllowed(f: Field, length: nat) {
    && (forall n :: Sets(f.validation, "minLength", "min_length", n) && n > 0.0 ==> n.Floor <= length)
    && (forall n :: Sets(f.validation, "maxLength", "max_length", n) && n > 0.0 ==> length <= n.Floor)
  }

  ghost predicate Matches(fmt: Formats, f: Field, s: string) {
    forall p :: Asks(f, p) ==> fmt.pattern(p).Some? && fmt.pattern(p).value(s)
  }

  lemma LengthFitsIff(f: Field, s: string)
    ensures LengthFits(f, s) <==> LengthAllowed(f, ByteLength(s))
  {
    hide Bound, ByteLength, Sets;
    BoundIs(f.validation, "minLength", "min_length");
    BoundIs(f.validation, "maxLength", "max_length");
  }

  lemma PatternFitsIff(fmt: Formats, f: Field, s: string)
    ensures PatternFits(fmt, f, s) <==> Matches(fmt, f, s)
  {
    if "pattern" in f.validation && f.validation["pattern"].Str? && f.validation["pattern"].text != "" {
      assert Asks(f, f.validation["pattern"].text);
    }
  }

  /** A missing value, null or the empty text, is accepted exactly if the field is optional. */
  lemma EmptyAcceptedIff(fmt: Formats, f: Field, v: Value)
    requires v == Null || v == Str("")
    ensures ValidValue(fmt, f, v) <==> !f.required
  {
  }

  /** Texts: their lengths in bytes keep to the bounds; an address or a number of a phone has its form
      and matches the pattern of the field. */
  lemma TextAcceptedIff(fmt: Formats, f: Field, v: Value)
    requires v != Null && v != Str("")
    ensures f.fieldType == PlainText || f.fieldType == TextArea ==>
              (ValidValue(fmt, f, v) <==> v.Str? && LengthAllowed(f, ByteLength(v.text)))
    ensures f.fieldType == Email ==>
              (ValidValue(fmt, f, v) <==>
               v.Str? && LengthAllowed(f, ByteLength(v.text)) && fmt.email(v.text) && Matches(fmt, f, v.text))
    ensures f.fieldType == Phone ==>
              (ValidValue(fmt, f, v) <==>
               v.Str? && LengthAllowed(f, ByteLength(v.text)) && fmt.phone(v.text) && Matches(fmt, f, v.text))
  {
    hide LengthFits, LengthAllowed, PatternFits, Matches, ByteLength;
    if v.Str? {
      LengthFitsIff(f, v.text);
      PatternFitsIff(fmt, f, v.text);
    }
  }

  /** Numbers: within the bounds, under either spelling. */
  lemma NumberAcceptedIff(fmt: Formats, f: Field, v: Value)
    requires v != Null && v != Str("") && (f.fieldType == Number || f.fieldType == Decimal)
    ensures ValidValue(fmt, f, v) <==>
            && v.Num? && v.number.Some?
            && (forall n :: Sets(f.validation, "minValue", "min_value", n) ==> n <= v.number.value)
            && (forall n :: Sets(f.validation, "maxValue", "max_value", n) ==> v.number.value <= n)
  {
    hide Bound, Sets;
    BoundIs(f.validation, "minValue", "min_value");
    BoundIs(f.validation, "maxValue", "max_value");
  }

  /** Dates, flags and choices; a type that is not known accepts everything. */
  lemma OtherAcceptedIff(fmt: Formats, f: Field, v: Value)
    requires v != Null && v != Str("")
    ensures f.fieldType == Date ==> (ValidValue(fmt, f, v) <==> v.Str? && fmt.date(v.text))
    ensures f.fieldType == Datetime ==> (ValidValue(fmt, f, v) <==> v.Str? && fmt.datetime(v.text))
    ensures f.fieldType == Boolean || f.fieldType == Checkbox ==> (ValidValue(fmt, f, v) <==> v.Bool?)
    ensures f.fieldType == Select || f.fieldType == Radio ==> (ValidValue(fmt, f, v) <==> v.Str? && v.text in f.options)
    ensures f.fieldType == MultiSelect ==>
              (ValidValue(fmt, f, v) <==>
               v.List? && forall i :: 0 <= i < |v.items| ==> v.items[i].Str? && v.items[i].text in f.options)
    ensures f.fieldType.Unknown? ==> ValidValue(fmt, f, v)
  {
  }

  /** A submission is accepted exactly if each of its keys is the key of a field, and every field is
      optional or present, and accepts the value that is there. */
  lemma SubmissionAcceptedIff(fmt: Formats, data: Data, fields: seq<Field>)
    ensures ValidSubmission(fmt, data, fields) <==>
            && (forall key :: key in data ==> exists i :: 0 <= i < |fields| && fields[i].key == key)
            && forall i :: 0 <= i < |fields| ==>
                 (if fields[i].key in data then ValidValue(fmt, fields[i], data[fields[i].key])
                  else !fields[i].required)
  {
    hide ValidValue;
    if ValidSubmission(fmt, data, fields) {
      forall key | key in data ensures exists i :: 0 <= i < |fields| && fields[i].key == key {
        assert IsFieldKey(fields, key);
      }
      assert forall i :: 0 <= i < |fields| ==> FieldSatisfied(fmt, data, fields[i]);
    }
  }
}
