/**
 * Rule-based field and form validation (src/utils/validation.ts).
 *
 * A field value is `Some(text)` or `None` for `undefined`/`null`. A JavaScript
 * value is truthy here when it is present and not the empty string.
 */
module Validation {
  import opened Wrappers

  /** What a custom validator returns: `boolean | string`. */
  datatype Verdict = Passed(ok: bool) | Message(text: string)

  /**
   * `ValidationRule`. An absent `required` is `false`; the regular expression
   * behind `pattern` is the predicate `test`.
   */
  datatype Rule = Rule(
    required: bool,
    minLength: Option<int>,
    maxLength: Option<int>,
    pattern: Option<string -> bool>,
    validator: Option<Option<string> -> Verdict>)

  /** `{}` */
  const NoRules: Rule := Rule(false, None, None, None, None)

  const RequiredMessage: string := "Ce champ est requis"
  const PatternMessage: string := "Format invalide"
  const CustomMessage: string := "Validation personnalisée échouée"

  function TooShortMessage(n: int): string {
    "Doit contenir au moins " + IntToString(n) + " caractères"
  }

  function TooLongMessage(n: int): string {
    "Ne doit pas dépasser " + IntToString(n) + " caractères"
  }

  /** Decimal text of an integer, as a template literal prints it. */
  function IntToString(n: int): (r: string)
    ensures r != []
    ensures n < 0 <==> r[0] == '-'
    ensures forall i :: 1 <= i < |r| ==> IsDigit(r[i])
    ensures n >= 0 ==> IsDigit(r[0])
  {
    if n < 0 then "-" + NatToString(-n) else NatToString(n)
  }

  predicate IsDigit(c: char) {
    '0' <= c <= '9'
  }

  function NatToString(n: nat): (r: string)
    ensures r != []
    ensures forall i :: 0 <= i < |r| ==> IsDigit(r[i])
    ensures r[0] == '0' ==> n == 0
  {
    if n < 10 then ["0123456789"[n]] else NatToString(n / 10) + ["0123456789"[n % 10]]
  }

  /** The number a string of decimal digits denotes. */
  function DecimalValue(s: string): nat
    requires forall i :: 0 <= i < |s| ==> IsDigit(s[i])
  {
    if s == [] then 0
    else
      assert IsDigit(s[|s| - 1]);
      10 * DecimalValue(s[..|s| - 1]) + (s[|s| - 1] as int - '0' as int)
  }

  // ---------------------------------------------------------------- JavaScript string semantics

  predicate Truthy(v: Option<string>) {
    v.Some? && v.value != ""
  }

  /** A number option is truthy when present and non-zero. */
  predicate Enabled(n: Option<int>) {
    n.Some? && n.value != 0
  }

  /** `String.prototype.length`: UTF-16 code units, so characters beyond U+FFFF count twice. */
  function Utf16Length(s: string): (r: nat)
    ensures |s| <= r <= 2 * |s|
    ensures r == |s| <==> forall i :: 0 <= i < |s| ==> s[i] as int < 0x1_0000
  {
    if s == [] then 0 else (if s[0] as int >= 0x1_0000 then 2 else 1) + Utf16Length(s[1..])
  }

  /** The characters `String.prototype.trim` removes: white space and line terminators. */
  predicate IsTrimmed(c: char) {
    || c == '\t' || c == '\n' || c == '\U{000B}' || c == '\U{000C}' || c == '\r' || c == ' '
    || c == '\U{00A0}' || c == '\U{1680}' || ('\U{2000}' <= c <= '\U{200A}')
    || c == '\U{2028}' || c == '\U{2029}' || c == '\U{202F}' || c == '\U{205F}'
    || c == '\U{3000}' || c == '\U{FEFF}'
  }

  /** Drops the leading white space: what remains is a suffix that starts with a kept character. */
  function TrimStart(s: string): (r: string)
    ensures |r| <= |s| && r == s[|s| - |r|..]
    ensures forall i :: 0 <= i < |s| - |r| ==> IsTrimmed(s[i])
    ensures r == [] || !IsTrimmed(r[0])
  {
    if s != [] && IsTrimmed(s[0]) then TrimStart(s[1..]) else s
  }

  /** Drops the trailing white space: what remains is a prefix that ends with a kept character. */
  function TrimEnd(s: string): (r: string)
    ensures |r| <= |s| && r == s[..|r|]
    ensures forall i :: |r| <= i < |s| ==> IsTrimmed(s[i])
    ensures r == [] || !IsTrimmed(r[|r| - 1])
  {
    if s != [] && IsTrimmed(s[|s| - 1]) then TrimEnd(s[..|s| - 1]) else s
  }

  /** `String.prototype.trim` */
  function Trim(s: string): (r: string)
    ensures |r| <= |s|
    ensures r == [] || (!IsTrimmed(r[0]) && !IsTrimmed(r[|r| - 1]))
  {
    TrimEnd(TrimStart(s))
  }

  // ---------------------------------------------------------------- the five checks

  predicate RequiredFails(value: Option<string>, rules: Rule) {
    rules.required && (!Truthy(value) || Trim(value.value) == "")
  }

  predicate TooShort(value: Option<string>, rules: Rule) {
    Enabled(rules.minLength) && Truthy(value) && Utf16Length(value.value) < rules.minLength.value
  }

  predicate TooLong(value: Option<string>, rules: Rule) {
    Enabled(rules.maxLength) && Truthy(value) && Utf16Length(value.value) > rules.maxLength.value
  }

  predicate PatternFails(value: Option<string>, rules: Rule) {
    rules.pattern.Some? && Truthy(value) && !rules.pattern.value(value.value)
  }

  /** What the custom validator contributes: its message verbatim, the generic message for `false`, nothing for `true`. */
  function CustomErrors(value: Option<string>, rules: Rule): seq<string> {
    match rules.validator
    case None => []
    case Some(f) =>
      match f(value)
      case Message(m) => [m]
      case Passed(ok) => if ok then [] else [CustomMessage]
  }

  function RequiredErrors(value: Option<string>, rules: Rule): seq<string> {
    if RequiredFails(value, rules) then [RequiredMessage] else []
  }

  function MinLengthErrors(value: Option<string>, rules: Rule): seq<string> {
    if TooShort(value, rules) then [TooShortMessage(rules.minLength.value)] else []
  }

  function MaxLengthErrors(value: Option<string>, rules: Rule): seq<string> {
    if TooLong(value, rules) then [TooLongMessage(rules.maxLength.value)] else []
  }

  function PatternErrors(value: Option<string>, rules: Rule): seq<string> {
    if PatternFails(value, rules) then [PatternMessage] else []
  }

  /** The errors of one field: every failing check, in the order required, min, max, pattern, custom. */
  function FieldErrors(value: Option<string>, rules: Rule): (r: seq<string>)
    ensures r == [] <==>
              !RequiredFails(value, rules) && !TooShort(value, rules) && !TooLong(value, rules)
              && !PatternFails(value, rules) && CustomErrors(value, rules) == []
    ensures |r| <= 5
    ensures RequiredFails(value, rules) ==> r[0] == RequiredMessage
  {
    RequiredErrors(value, rules) + MinLengthErrors(value, rules) + MaxLengthErrors(value, rules)
    + PatternErrors(value, rules) + CustomErrors(value, rules)
  }

  /** `validateField`: pushes one message per failing check. */
  method ValidateField(value: Option<string>, rules: Rule) returns (errors: seq<string>)
    ensures errors == FieldErrors(value, rules)
  {
    errors := [];
    if rules.required && (!Truthy(value) || Trim(value.value) == "") {
      errors := errors + [RequiredMessage];
    }
    assert errors == RequiredErrors(value, rules);
    if Enabled(rules.minLength) && Truthy(value) && Utf16Length(value.value) < rules.minLength.value {
      errors := errors + [TooShortMessage(rules.minLength.value)];
    }
    assert errors == RequiredErrors(value, rules) + MinLengthErrors(value, rules);
    if Enabled(rules.maxLength) && Truthy(value) && Utf16Length(value.value) > rules.maxLength.value {
      errors := errors + [TooLongMessage(rules.maxLength.value)];
    }
    assert errors == RequiredErrors(value, rules) + MinLengthErrors(value, rules) + MaxLengthErrors(value, rules);
    if rules.pattern.Some? && Truthy(value) && !rules.pattern.value(value.value) {
      errors := errors + [PatternMessage];
    }
    assert errors == RequiredErrors(value, rules) + MinLengthErrors(value, rules) + MaxLengthErrors(value, rules)
      + PatternErrors(value, rules);
    if rules.validator.Some? {
      var custom := rules.validator.value(value);
      match custom {
        case Message(m) => errors := errors + [m];
        case Passed(ok) =>
          if !ok {
            errors := errors + [CustomMessage];
          }
      }
    }
  }

  // ---------------------------------------------------------------- forms

  /** `formData[key]`: a key the form does not hold reads as `undefined`. */
  function Lookup(formData: map<string, Option<string>>, key: string): (r: Option<string>)
    ensures key in formData ==> r == formData[key]
    ensures key !in formData ==> !Truthy(r) && r == None
  {
    if key in formData then formData[key] else None
  }

  /** `validateForm`: one entry per schema key, the errors of that key's value under its rule. */
  method ValidateForm(formData: map<string, Option<string>>, schema: map<string, Rule>)
    returns (errors: map<string, seq<string>>)
    ensures errors.Keys == schema.Keys
    ensures forall key :: key in schema ==> errors[key] == FieldErrors(Lookup(formData, key), schema[key])
  {
    errors := map[];
    var pending := schema.Keys;
    while pending != {}
      invariant pending <= schema.Keys
      invariant errors.Keys == schema.Keys - pending
      invariant forall key :: key in errors ==> errors[key] == FieldErrors(Lookup(formData, key), schema[key])
      decreases pending
    {
      var key :| key in pending;
      var value := Lookup(formData, key);
      var fieldErrors := ValidateField(value, schema[key]);
      errors := errors[key := fieldErrors];
      pending := pending - {key};
    }
  }

  /** The form is valid when every entry's error list is empty. */
  predicate NoErrors(errors: map<string, seq<string>>) {
    forall key :: key in errors ==> errors[key] == []
  }

  /** `Object.values(errors).every(arr => arr.length === 0)` */
  method AllEmpty(errors: map<string, seq<string>>) returns (ok: bool)
    ensures ok <==> NoErrors(errors)
  {
    ok := true;
    var pending := errors.Keys;
    while pending != {}
      invariant pending <= errors.Keys
      invariant ok <==> forall key :: key in errors.Keys - pending ==> errors[key] == []
      decreases pending
    {
      var key :| key in pending;
      ok := ok && |errors[key]| == 0;
      pending := pending - {key};
    }
  }
}
