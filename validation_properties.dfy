/** Properties of field and form validation. */
module ValidationProperties {
  import opened Wrappers
  import opened Validation

  // ---------------------------------------------------------------- message formatting

  lemma DecimalValueSnoc(s: string, c: char)
    requires forall i :: 0 <= i < |s| ==> IsDigit(s[i])
    requires IsDigit(c)
    ensures DecimalValue(s + [c]) == 10 * DecimalValue(s) + (c as int - '0' as int)
  {
    assert (s + [c])[..|s|] == s;
  }

  /** The digits printed for `n` denote `n` again, so distinct limits give distinct messages. */
  lemma {:induction false} NatToStringRoundTrip(n: nat)
    ensures DecimalValue(NatToString(n)) == n
  {
    if n < 10 {
      assert DecimalValue(NatToString(n)) == DecimalValue([] + [NatToString(n)[0]]);
      DecimalValueSnoc([], NatToString(n)[0]);
    } else {
      NatToStringRoundTrip(n / 10);
      DecimalValueSnoc(NatToString(n / 10), "0123456789"[n % 10]);
    }
  }

  lemma NatToStringInjective(a: nat, b: nat)
    requires NatToString(a) == NatToString(b)
    ensures a == b
  {
    NatToStringRoundTrip(a);
    NatToStringRoundTrip(b);
  }

  /** The text of a limit reads back as the limit, with a leading `-` for a negative one. */
  lemma IntToStringRoundTrip(n: int)
    ensures n >= 0 ==> DecimalValue(IntToString(n)) == n
    ensures n < 0 ==> IntToString(n)[0] == '-' && DecimalValue(IntToString(n)[1..]) == -n
  {
    if n >= 0 {
      NatToStringRoundTrip(n);
    } else {
      assert IntToString(n)[1..] == NatToString(-n);
      NatToStringRoundTrip(-n);
    }
  }

  /** Different limits print differently, so a length message names its own limit. */
  lemma IntToStringInjective(a: int, b: int)
    requires IntToString(a) == IntToString(b)
    ensures a == b
  {
    IntToStringRoundTrip(a);
    IntToStringRoundTrip(b);
  }

  // ---------------------------------------------------------------- JavaScript string semantics

  /** `trim` keeps a contiguous middle part and drops only white space around it. */
  lemma TrimKeepsMiddle(s: string)
    ensures exists i, j ::
              && 0 <= i <= j <= |s| && Trim(s) == s[i..j]
              && (forall k :: 0 <= k < i ==> IsTrimmed(s[k]))
              && (forall k :: j <= k < |s| ==> IsTrimmed(s[k]))
  {
    var t := TrimStart(s);
    var i := |s| - |t|;
    var j := i + |TrimEnd(t)|;
    assert Trim(s) == s[i..j];
  }

  /** A value is blank for `required` exactly when all its characters are white space. */
  lemma TrimEmptyIffBlank(s: string)
    ensures Trim(s) == "" <==> forall k :: 0 <= k < |s| ==> IsTrimmed(s[k])
  {
  }

  /** A character beyond U+FFFF counts twice towards `length`. */
  lemma AstralCountsTwice()
    ensures Utf16Length("\U{1F436}") == 2
    ensures Utf16Length("a\U{1F436}b") == 4
  {
  }

  // ---------------------------------------------------------------- one field

  /** An absent or empty value skips the length and pattern checks; the custom validator still runs. */
  lemma FalsyValueSkipsLengthAndPattern(value: Option<string>, rules: Rule)
    requires !Truthy(value)
    ensures FieldErrors(value, rules) == (if rules.required then [RequiredMessage] else []) + CustomErrors(value, rules)
  {
  }

  /** The empty rule set `{}` accepts every value. */
  lemma NoRulesNoErrors(value: Option<string>)
    ensures FieldErrors(value, NoRules) == []
  {
  }

  /** `minLength: 0` is falsy and so disables the check. */
  lemma MinLengthZeroDisabled(value: Option<string>, rules: Rule)
    requires rules.minLength == Some(0)
    ensures !TooShort(value, rules)
  {
  }

  /** `validateField("", {required: true})` reports only that the field is required. */
  lemma EmptyRequiredExample()
    ensures FieldErrors(Some(""), NoRules.(required := true)) == ["Ce champ est requis"]
  {
  }

  /** `validateField("ab", {minLength: 3})` reports one length error. */
  lemma TooShortExample()
    ensures FieldErrors(Some("ab"), NoRules.(minLength := Some(3))) == ["Doit contenir au moins 3 caractères"]
  {
    var r := NoRules.(minLength := Some(3));
    assert Utf16Length("ab") == 2;
    assert TooShort(Some("ab"), r);
    assert RequiredErrors(Some("ab"), r) == [];
    assert MinLengthErrors(Some("ab"), r) == [TooShortMessage(3)];
    assert MaxLengthErrors(Some("ab"), r) == [];
    assert PatternErrors(Some("ab"), r) == [];
    assert CustomErrors(Some("ab"), r) == [];
    assert IntToString(3) == "3";
    assert TooShortMessage(3) == "Doit contenir au moins " + "3" + " caractères";
    assert TooShortMessage(3) == "Doit contenir au moins 3 caractères";
  }

  /** `validateField("abc", {minLength: 3, maxLength: 5})` accepts. */
  lemma WithinBoundsExample()
    ensures FieldErrors(Some("abc"), NoRules.(minLength := Some(3), maxLength := Some(5))) == []
  {
  }

  /**
   * Blank text fails `required` after trimming, but the length checks measure
   * the untrimmed text: two spaces under `{required: true, minLength: 3}` fail both.
   */
  lemma TwoSpacesTrimToEmpty()
    ensures Trim("  ") == ""
  {
    assert IsTrimmed(' ');
    assert "  "[1..] == " " && " "[1..] == "";
    assert TrimStart("") == "";
    assert TrimStart(" ") == "";
    assert TrimStart("  ") == "";
    assert TrimEnd("") == "";
  }

  lemma BlankMeasuredUntrimmedExample()
    ensures FieldErrors(Some("  "), NoRules.(required := true, minLength := Some(3)))
         == ["Ce champ est requis", "Doit contenir au moins 3 caractères"]
  {
    var r := NoRules.(required := true, minLength := Some(3));
    TwoSpacesTrimToEmpty();
    assert RequiredErrors(Some("  "), r) == [RequiredMessage];
    assert Utf16Length("  ") == 2;
    assert MinLengthErrors(Some("  "), r) == [TooShortMessage(3)];
    assert MaxLengthErrors(Some("  "), r) == [];
    assert PatternErrors(Some("  "), r) == [];
    assert CustomErrors(Some("  "), r) == [];
    assert IntToString(3) == "3";
    assert TooShortMessage(3) == "Doit contenir au moins 3 caractères";
    assert FieldErrors(Some("  "), r) == [RequiredMessage] + [TooShortMessage(3)] + [] + [] + [];
  }

  // ---------------------------------------------------------------- forms

  /** A schema key missing from the form is validated as `undefined`. */
  lemma MissingKeyIsAbsent(formData: map<string, Option<string>>, key: string, rules: Rule)
    requires key !in formData
    ensures FieldErrors(Lookup(formData, key), rules) == (if rules.required then [RequiredMessage] else []) + CustomErrors(None, rules)
  {
    FalsyValueSkipsLengthAndPattern(None, rules);
  }

  /** Fields outside the schema have no influence on any schema key's errors. */
  lemma UnvalidatedFieldsIgnored(formData: map<string, Option<string>>, schema: map<string, Rule>, other: string, v: Option<string>)
    requires other !in schema
    ensures forall key :: key in schema ==>
      FieldErrors(Lookup(formData[other := v], key), schema[key]) == FieldErrors(Lookup(formData, key), schema[key])
  {
  }
}
