/** Validation of form submissions against the fields of a form version. */
module Submissions {
  import opened Common
  import opened Text

  /** A decoded JSON value. A number is `None` when its literal cannot be converted. */
  datatype Value =
    | Null
    | Str(text: string)
    | Num(number: Option<real>)
    | Bool(flag: bool)
    | List(items: seq<Value>)
    | Object(entries: map<string, Value>)

  datatype FieldType =
    | PlainText | TextArea | Email | Phone | Number | Decimal | Date | Datetime
    | Boolean | Checkbox | Select | Radio | MultiSelect | Unknown(name: string)

  datatype Field = Field(key: string, fieldType: FieldType, required: bool,
                         validation: map<string, Value>, options: seq<string>)

  datatype Error = UnknownFields | FieldValidationFailed | OptionValidationFailed

  /** The recognizers that come from libraries. `pattern` compiles a regular expression. */
  datatype Formats = Formats(email: string -> bool, phone: string -> bool, date: string -> bool,
                             datetime: string -> bool, pattern: string -> Option<string -> bool>)

  type Data = map<string, Value>

  // ----- what a valid value is -----

  predicate Empty(v: Value) {
    v == Null || v == Str("")
  }

  /** `validationNumber`: the first of two spellings that holds a number. */
  function Bound(validation: map<string, Value>, camel: string, snake: string): Option<real> {
    if camel in validation && validation[camel].Num? && validation[camel].number.Some? then validation[camel].number
    else if snake in validation && validation[snake].Num? then validation[snake].number
    else None
  }

  /** A length bound counts only if it is positive; its fraction is dropped. */
  predicate LengthFits(f: Field, s: string) {
    var low, high := Bound(f.validation, "minLength", "min_length"), Bound(f.validation, "maxLength", "max_length");
    && (low.Some? && low.value > 0.0 ==> low.value.Floor <= ByteLength(s))
    && (high.Some? && high.value > 0.0 ==> ByteLength(s) <= high.value.Floor)
  }

  predicate PatternFits(fmt: Formats, f: Field, s: string) {
    "pattern" in f.validation && f.validation["pattern"].Str? && f.validation["pattern"].text != "" ==>
      var compiled := fmt.pattern(f.validation["pattern"].text);
      compiled.Some? && compiled.value(s)
  }

  predicate InRange(f: Field, n: real) {
    var low, high := Bound(f.validation, "minValue", "min_value"), Bound(f.validation, "maxValue", "max_value");
    (low.Some? ==> low.value <= n) && (high.Some? ==> n <= high.value)
  }

  predicate IsText(t: FieldType) {
    t in {PlainText, TextArea, Email, Phone}
  }

  /** A value that is present and not empty fits the type of its field. */
  predicate Fits(fmt: Formats, f: Field, v: Value) {
    match f.fieldType
    case PlainText => v.Str? && LengthFits(f, v.text)
    case TextArea => v.Str? && LengthFits(f, v.text)
    case Email => v.Str? && LengthFits(f, v.text) && fmt.email(v.text) && PatternFits(fmt, f, v.text)
    case Phone => v.Str? && LengthFits(f, v.text) && fmt.phone(v.text) && PatternFits(fmt, f, v.text)
    case Number => v.Num? && v.number.Some? && InRange(f, v.number.value)
    case Decimal => v.Num? && v.number.Some? && InRange(f, v.number.value)
    case Date => v.Str? && fmt.date(v.text)
    case Datetime => v.Str? && fmt.datetime(v.text)
    case Boolean => v.Bool?
    case Checkbox => v.Bool?
    case Select => v.Str? && v.text in f.options
    case Radio => v.Str? && v.text in f.options
    case MultiSelect => v.List? && forall i :: 0 <= i < |v.items| ==> v.items[i].Str? && v.items[i].text in f.options
    case Unknown(_) => true
  }

  predicate ValidValue(fmt: Formats, f: Field, v: Value) {
    if Empty(v) then !f.required else Fits(fmt, f, v)
  }

  /** A submission is valid when it has no key that is not a field, every required field is
      there, and every value that is there is valid for every field of that key. */
  predicate ValidSubmission(fmt: Formats, data: Data, fields: seq<Field>) {
    && (forall key :: key in data ==> IsFieldKey(fields, key))
    && (forall i :: 0 <= i < |fields| ==> FieldSatisfied(fmt, data, fields[i]))
  }

  predicate IsFieldKey(fields: seq<Field>, key: string) {
    exists i :: 0 <= i < |fields| && fields[i].key == key
  }

  predicate FieldSatisfied(fmt: Formats, data: Data, f: Field) {
    if f.key in data then ValidValue(fmt, f, data[f.key]) else !f.required
  }

  // ----- the validator -----

  method OptionSet(options: seq<string>) returns (valid: set<string>)
    ensures forall s :: s in valid <==> s in options
  {
    valid := {};
    for i := 0 to |options|
      invariant forall s :: s in valid <==> s in options[..i]
    {
      valid := valid + {options[i]};
    }
    assert options[..|options|] == options;
  }

  method ValidatePattern(fmt: Formats, f: Field, s: string) returns (err: Option<Error>)
    ensures err.None? <==> PatternFits(fmt, f, s)
    ensures err.Some? ==> err.value == FieldValidationFailed
  {
    if "pattern" !in f.validation || !f.validation["pattern"].Str? || f.validation["pattern"].text == "" {
      return None;
    }
    var compiled := fmt.pattern(f.validation["pattern"].text);
    if compiled.None? {
      return Some(FieldValidationFailed);
    }
    if !compiled.value(s) {
      return Some(FieldValidationFailed);
    }
    return None;
  }

  method ValidateText(fmt: Formats, f: Field, v: Value) returns (err: Option<Error>)
    requires IsText(f.fieldType)
    ensures err.None? <==> Fits(fmt, f, v)
    ensures err.Some? ==> err.value == FieldValidationFailed
  {
    hide ByteLength, Bound, PatternFits;
    var minLength := Bound(f.validation, "minLength", "min_length");
    var maxLength := Bound(f.validation, "maxLength", "max_length");
    if !v.Str? {
      return Some(FieldValidationFailed);
    }
    var s := v.text;
    if minLength.Some? && minLength.value > 0.0 && ByteLength(s) < minLength.value.Floor {
      return Some(FieldValidationFailed);
    }
    if maxLength.Some? && maxLength.value > 0.0 && ByteLength(s) > maxLength.value.Floor {
      return Some(FieldValidationFailed);
    }
    if f.fieldType == Email {
      if !fmt.email(s) {
        return Some(FieldValidationFailed);
      }
      err := ValidatePattern(fmt, f, s);
      return;
    }
    if f.fieldType == Phone {
      if !fmt.phone(s) {
        return Some(FieldValidationFailed);
      }
      err := ValidatePattern(fmt, f, s);
      return;
    }
    return None;
  }

  method ValidateOptions(f: Field, v: Value) returns (err: Option<Error>)
    requires f.fieldType in {Select, Radio, MultiSelect}
    ensures forall fmt :: err.None? <==> Fits(fmt, f, v)
    ensures err == Some(FieldValidationFailed) <==> if f.fieldType == MultiSelect then !v.List? else !v.Str?
    ensures err != Some(UnknownFields)
  {
    if f.fieldType == MultiSelect {
      if !v.List? {
        return Some(FieldValidationFailed);
      }
      var valid := OptionSet(f.options);
      for i := 0 to |v.items|
        invariant forall k :: 0 <= k < i ==> v.items[k].Str? && v.items[k].text in f.options
      {
        if !v.items[i].Str? || v.items[i].text !in valid {
          return Some(OptionValidationFailed);
        }
      }
      return None;
    }
    if !v.Str? {
      return Some(FieldValidationFailed);
    }
    var valid := OptionSet(f.options);
    if v.text !in valid {
      return Some(OptionValidationFailed);
    }
    return None;
  }

  /** `validateFieldValue`. */
  method ValidateFieldValue(fmt: Formats, f: Field, v: Value) returns (err: Option<Error>)
    ensures err.None? <==> ValidValue(fmt, f, v)
    ensures err == Some(OptionValidationFailed) ==>
              f.fieldType in {Select, Radio, MultiSelect} && (if f.fieldType == MultiSelect then v.List? else v.Str?)
    ensures err != Some(UnknownFields)
  {
    hide LengthFits, PatternFits, Bound;
    if f.required && (v == Null || v == Str("")) {
      return Some(FieldValidationFailed);
    }
    if v == Null || v == Str("") {
      return None;
    }
    match f.fieldType
    case PlainText => err := ValidateText(fmt, f, v);
    case TextArea => err := ValidateText(fmt, f, v);
    case Email => err := ValidateText(fmt, f, v);
    case Phone => err := ValidateText(fmt, f, v);
    case Number => err := ValidateNumber(f, v);
    case Decimal => err := ValidateNumber(f, v);
    case Date =>
      err := if v.Str? && fmt.date(v.text) then None else Some(FieldValidationFailed);
    case Datetime =>
      err := if v.Str? && fmt.datetime(v.text) then None else Some(FieldValidationFailed);
    case Boolean =>
      err := if v.Bool? then None else Some(FieldValidationFailed);
    case Checkbox =>
      err := if v.Bool? then None else Some(FieldValidationFailed);
    case Select => err := ValidateOptions(f, v);
    case Radio => err := ValidateOptions(f, v);
    case MultiSelect => err := ValidateOptions(f, v);
    case Unknown(_) => err := None;
  }

  method ValidateNumber(f: Field, v: Value) returns (err: Option<Error>)
    ensures err.None? <==> v.Num? && v.number.Some? && InRange(f, v.number.value)
    ensures err.Some? ==> err.value == FieldValidationFailed
  {
    if !v.Num? || v.number.None? {
      return Some(FieldValidationFailed);
    }
    var n := v.number.value;
    var minVal := Bound(f.validation, "minValue", "min_value");
    if minVal.Some? && n < minVal.value {
      return Some(FieldValidationFailed);
    }
    var maxVal := Bound(f.validation, "maxValue", "max_value");
    if maxVal.Some? && n > maxVal.value {
      return Some(FieldValidationFailed);
    }
    return None;
  }

  /** `validateSubmissionData`: accepts exactly the valid submissions; an unknown key takes
      precedence over every other error. */
  method ValidateSubmissionData(fmt: Formats, data: Data, fields: seq<Field>) returns (err: Option<Error>)
    ensures err.None? <==> ValidSubmission(fmt, data, fields)
    ensures err == Some(UnknownFields) <==> exists key :: key in data && !IsFieldKey(fields, key)
  {
    hide ValidValue;
    var fieldKeys: set<string> := {};
    for i := 0 to |fields|
      invariant forall key :: key in fieldKeys <==> exists k :: 0 <= k < i && fields[k].key == key
    {
      fieldKeys := fieldKeys + {fields[i].key};
    }
    var todo := data.Keys;
    while todo != {}
      invariant todo <= data.Keys
      invariant forall key :: key in data && key !in todo ==> IsFieldKey(fields, key)
      decreases todo
    {
      var key :| key in todo;
      todo := todo - {key};
      if key !in fieldKeys {
        assert !IsFieldKey(fields, key);
        return Some(UnknownFields);
      }
    }
    for i := 0 to |fields|
      invariant forall k :: 0 <= k < i ==> FieldSatisfied(fmt, data, fields[k])
    {
      var field := fields[i];
      if field.key !in data {
        if field.required {
          assert !FieldSatisfied(fmt, data, fields[i]);
          return Some(FieldValidationFailed);
        }
        continue;
      }
      err := ValidateFieldValue(fmt, field, data[field.key]);
      if err.Some? {
        assert !FieldSatisfied(fmt, data, fields[i]);
        return;
      }
    }
    return None;
  }
}
