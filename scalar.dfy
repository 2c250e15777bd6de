/**
 * `parse_value`: turns a raw token into a typed leaf. The tests are tried in
 * a fixed order and the first that matches decides: blank or `null` gives
 * None, `true`/`false` a bool, an all-digit token an int, a token Python's
 * `float()` accepts a float, a quoted token the text between the quotes, and
 * anything else the stripped text itself.
 */
module ScalarValue {
  import opened PyStrings
  import opened Numerals
  import opened Nodes

  predicate IsDecimalDigit(c: char) {
    '0' <= c <= '9'
  }

  /** ASCII `str.isdigit`: non-empty and every character a decimal digit. */
  predicate IsDigitString(s: string) {
    |s| > 0 && forall i :: 0 <= i < |s| ==> IsDecimalDigit(s[i])
  }

  // ---------------------------------------------------------------------
  // The syntax Python's float() accepts (after its own strip)
  // ---------------------------------------------------------------------

  /** Every underscore sits between two decimal digits (PEP 515). */
  predicate UnderscoresBetweenDigits(s: string) {
    forall i :: 0 <= i < |s| && s[i] == '_' ==>
      0 < i < |s| - 1 && IsDecimalDigit(s[i - 1]) && IsDecimalDigit(s[i + 1])
  }

  /** The length of the leading run of decimal digits. */
  function DigitRun(s: string): (n: nat)
    ensures n <= |s|
    ensures forall i :: 0 <= i < n ==> IsDecimalDigit(s[i])
    ensures n == |s| || !IsDecimalDigit(s[n])
  {
    if s != [] && IsDecimalDigit(s[0]) then 1 + DigitRun(s[1..]) else 0
  }

  /** Nothing, or `e`/`E`, an optional sign and at least one digit. */
  predicate IsExponentOrEmpty(e: string) {
    e == [] ||
    ((e[0] == 'e' || e[0] == 'E') &&
     IsDigitString(if |e| > 1 && (e[1] == '+' || e[1] == '-') then e[2..] else e[1..]))
  }

  /** Digits, an optional point and more digits (at least one digit in all), then an
      optional exponent. */
  predicate IsDecimalFloat(u: string) {
    var a := DigitRun(u);
    var rest := u[a..];
    if rest != [] && rest[0] == '.' then
      var b := DigitRun(rest[1..]);
      a + b > 0 && IsExponentOrEmpty(rest[1 + b..])
    else
      a > 0 && IsExponentOrEmpty(rest)
  }

  /** An optional sign, then `inf`, `infinity` or `nan` in any case, or a decimal float. */
  predicate IsFloatSyntax(t: string) {
    var u := if |t| > 0 && (t[0] == '+' || t[0] == '-') then t[1..] else t;
    var l := Lower(u);
    l == "inf" || l == "infinity" || l == "nan" || IsDecimalFloat(u)
  }

  /** Whether Python's `float(s)` succeeds on a stripped ASCII token. */
  predicate IsFloatLiteral(s: string) {
    UnderscoresBetweenDigits(s) && IsFloatSyntax(WithoutUnderscores(s))
  }

  // ---------------------------------------------------------------------
  // Quotes
  // ---------------------------------------------------------------------

  /** Starts and ends with `"`, or starts and ends with `'` (one character counts). */
  predicate IsQuoted(v: string) {
    |v| >= 1 && ((v[0] == '"' && v[|v| - 1] == '"') || (v[0] == '\'' && v[|v| - 1] == '\''))
  }

  /** Python's `v[1:-1]`, which is empty for a string of one character. */
  function Unquote(v: string): (r: string)
    requires |v| >= 1
    ensures |v| >= 2 ==> v == [v[0]] + r + [v[|v| - 1]]
    ensures |v| < 2 ==> r == []
  {
    if |v| >= 2 then v[1..|v| - 1] else []
  }

  // ---------------------------------------------------------------------
  // parse_value
  // ---------------------------------------------------------------------

  /** `parse_value(raw)`: every token gives a scalar. */
  function ParseValue(raw: string): (r: Node)
    ensures r.IsScalar()
    ensures var v := Strip(raw);
      && (r.Null? <==> v == [] || Lower(v) == "null")
      && (r.Bool? <==> v != [] && (Lower(v) == "true" || Lower(v) == "false"))
      && (r.Bool? ==> r.b == (Lower(v) == "true"))
      && (r.Int? <==> IsDigitString(v))
      && (r.Int? ==> r.value == ValueOf(v, 10))
      && (r.Float? <==> !IsDigitString(v) && IsFloatLiteral(v) && Lower(v) != "null"
                        && Lower(v) != "true" && Lower(v) != "false")
      && (r.Float? ==> r.text == v)
      && (r.Str? ==> r.s == if IsQuoted(v) then Unquote(v) else v)
  {
    var v := Strip(raw);
    if v == [] then Null
    else if Lower(v) == "null" then Null
    else if Lower(v) == "true" then Bool(true)
    else if Lower(v) == "false" then Bool(false)
    else if IsDigitString(v) then
      assert forall i :: 0 <= i < |v| ==> DigitValue(v[i]) < 10;
      Int(ValueOf(v, 10))
    else if IsFloatLiteral(v) then Float(v)
    else if IsQuoted(v) then Str(Unquote(v))
    else Str(v)
  }

  /** The token is stripped before anything is decided. */
  lemma {:induction false} ParseValueStripsFirst(raw: string)
    ensures ParseValue(raw) == ParseValue(Strip(raw))
  {
    StripIdempotent(raw);
  }

  /** A decimal digit string is never one of the keywords. */
  lemma {:induction false} DigitStringIsNoKeyword(v: string)
    requires IsDigitString(v)
    ensures Lower(v) != "null" && Lower(v) != "true" && Lower(v) != "false"
  {
    assert Lower(v)[0] == v[0];
  }

  /** The decimal numeral of every natural number reads back as that int. */
  lemma {:induction false} ParseValueOfDecimal(n: nat)
    ensures ParseValue(ToDigits(n, 10)) == Int(n)
  {
    var d := ToDigits(n, 10);
    ToDigitsCanonical(n, 10);
    assert IsDigitString(d) by {
      forall i | 0 <= i < |d| ensures IsDecimalDigit(d[i]) {
        assert DigitValue(d[i]) < 10;
      }
    }
    StripUnchanged(d);
    DigitStringIsNoKeyword(d);
    ValueOfToDigits(n, 10);
  }

  /** Leading zeros are lost: the int is the value of the digits. */
  lemma {:induction false} ParseValueLeadingZeros(d: string)
    requires IsDigitString(d)
    ensures forall i :: 0 <= i < |d| ==> DigitValue(d[i]) < 10
    ensures ParseValue("0" + d) == Int(ValueOf(d, 10))
  {
    var z := "0" + d;
    assert IsDigitString(z) by {
      assert forall i :: 1 <= i < |z| ==> z[i] == d[i - 1];
    }
    StripUnchanged(z);
    DigitStringIsNoKeyword(z);
    assert forall i :: 0 <= i < |d| ==> DigitValue(d[i]) < 10;
    ValueOfLeadingZero(d, 10);
  }

  /** A minus sign before digits is not an int: such a token becomes a float. */
  lemma {:induction false} ParseValueNegativeIsFloat(d: string)
    requires IsDigitString(d)
    ensures ParseValue("-" + d) == Float("-" + d)
  {
    NegativeNotEarlier(d);
    NegativeIsFloatLiteral(d);
    FloatCase("-" + d);
  }

  /** `-digits` passes none of the tests before the float test. */
  lemma {:induction false} NegativeNotEarlier(d: string)
    requires IsDigitString(d)
    ensures var t := "-" + d; Strip(t) == t && t != [] && NotKeyword(t) && !IsDigitString(t)
  {
    var t := "-" + d;
    assert Strip(t) == t by {
      assert t[0] == '-' && t[|t| - 1] == d[|d| - 1];
      StripUnchanged(t);
    }
    assert NotKeyword(t) by {
      assert Lower(t)[0] == '-';
    }
    assert !IsDecimalDigit(t[0]);
  }

  /** `-digits` is a float literal. */
  lemma {:induction false} NegativeIsFloatLiteral(d: string)
    requires IsDigitString(d)
    ensures IsFloatLiteral("-" + d)
  {
    var t := "-" + d;
    forall i | 0 <= i < |t| ensures t[i] != '_' {
      if i > 0 { assert t[i] == d[i - 1]; }
    }
    WithoutUnderscoresDrops(t);
    assert t[1..] == d;
    DigitsAreDecimalFloat(d);
  }

  predicate NotKeyword(v: string) {
    Lower(v) != "null" && Lower(v) != "true" && Lower(v) != "false"
  }

  /** The float branch: a stripped, non-keyword, non-digit float literal. */
  lemma {:induction false} FloatCase(t: string)
    requires Strip(t) == t && t != [] && NotKeyword(t) && !IsDigitString(t)
    requires IsFloatLiteral(t)
    ensures ParseValue(t) == Float(t)
  {
  }

  /** The string branch: a stripped token that no earlier test accepts. */
  lemma {:induction false} StrCase(t: string)
    requires Strip(t) == t && t != [] && NotKeyword(t) && !IsDigitString(t)
    requires !IsFloatLiteral(t)
    ensures ParseValue(t) == Str(if IsQuoted(t) then Unquote(t) else t)
  {
  }

  /** A digit string is a float literal body. */
  lemma {:induction false} DigitsAreDecimalFloat(d: string)
    requires IsDigitString(d)
    ensures IsDecimalFloat(d)
    ensures Lower(d) != "inf" && Lower(d) != "infinity" && Lower(d) != "nan"
  {
    DigitRunAll(d);
    assert d[|d|..] == [];
    assert Lower(d)[0] == d[0];
  }

  lemma {:induction false} DigitRunAll(d: string)
    requires forall i :: 0 <= i < |d| ==> IsDecimalDigit(d[i])
    ensures DigitRun(d) == |d|
    decreases |d|
  {
    if d != [] {
      DigitRunAll(d[1..]);
    }
  }

  /** Text between a pair of double quotes comes out as that text, whatever it is
      (`"\"true\""` gives the string `true`, not a bool). */
  lemma {:induction false} ParseValueDoubleQuoted(s: string)
    ensures ParseValue("\"" + s + "\"") == Str(s)
  {
    var t := "\"" + s + "\"";
    QuotedToken(t);
    assert t[1..|t| - 1] == s;
  }

  /** The same for a pair of single quotes. */
  lemma {:induction false} ParseValueSingleQuoted(s: string)
    ensures ParseValue("'" + s + "'") == Str(s)
  {
    var t := "'" + s + "'";
    QuotedToken(t);
    assert t[1..|t| - 1] == s;
  }

  /** A token that starts and ends with the same quote is a string. */
  lemma {:induction false} QuotedToken(t: string)
    requires |t| >= 2 && IsQuoted(t)
    ensures ParseValue(t) == Str(Unquote(t))
  {
    QuoteFacts(t);
    StrCase(t);
  }

  /** A token whose first character is a quote passes none of the first five tests. */
  lemma {:induction false} QuoteFacts(t: string)
    requires |t| >= 1 && (t[0] == '"' || t[0] == '\'') && !IsSpace(t[|t| - 1])
    ensures Strip(t) == t && NotKeyword(t) && !IsDigitString(t) && !IsFloatLiteral(t)
  {
    assert Strip(t) == t by {
      StripUnchanged(t);
    }
    assert NotKeyword(t) by {
      assert Lower(t)[0] == t[0];
    }
    assert !IsDigitString(t) by {
      assert !IsDecimalDigit(t[0]);
    }
    assert !IsFloatLiteral(t) by {
      if UnderscoresBetweenDigits(t) {
        QuoteStartsWithoutUnderscores(t);
      }
    }
  }

  /** Removing underscores from a string whose first character is a quote keeps that
      quote first, and no float starts with a quote. */
  lemma {:induction false} QuoteStartsWithoutUnderscores(t: string)
    requires |t| >= 1 && (t[0] == '"' || t[0] == '\'')
    ensures !IsFloatSyntax(WithoutUnderscores(t))
  {
    var w := WithoutUnderscores(t);
    assert w == [t[0]] + WithoutUnderscores(t[1..]);
    assert w[0] == t[0];
    QuoteNotFloatSyntax(w);
  }

  /** No float starts with a quote: it is neither a sign, a digit, a point nor
      a letter of `inf`/`nan`. */
  lemma {:induction false} QuoteNotFloatSyntax(w: string)
    requires |w| >= 1 && (w[0] == '"' || w[0] == '\'')
    ensures !IsFloatSyntax(w)
  {
    var l := Lower(w);
    assert l[0] == w[0];
    assert l != "inf" && l != "infinity" && l != "nan";
    assert DigitRun(w) == 0;
    assert w[0..] == w;
  }

  /** The keyword branches: a token that strips to a keyword in any case. */
  lemma {:induction false} KeywordCase(raw: string)
    requires Lower(Strip(raw)) in {"null", "true", "false"}
    ensures ParseValue(raw) == if Lower(Strip(raw)) == "null" then Null else Bool(Lower(Strip(raw)) == "true")
  {
  }

  /** The int branch: a stripped digit string. */
  lemma {:induction false} IntCase(t: string)
    requires Strip(t) == t && IsDigitString(t)
    ensures forall i :: 0 <= i < |t| ==> DigitValue(t[i]) < 10
    ensures ParseValue(t) == Int(ValueOf(t, 10))
  {
    DigitStringIsNoKeyword(t);
  }

  /** A blank token is None. */
  lemma {:induction false} ParseValueBlank(raw: string)
    requires AllSpace(raw)
    ensures ParseValue(raw) == Null
  {
    StripEmpty(raw);
  }

  /** A keyword is recognised in any case and with whitespace around it. */
  lemma {:induction false} ParseValueKeywordPadded(pre: string, w: string, post: string)
    requires AllSpace(pre) && AllSpace(post)
    requires Lower(w) in {"null", "true", "false"}
    ensures ParseValue(pre + w + post) == if Lower(w) == "null" then Null else Bool(Lower(w) == "true")
  {
    assert !IsSpace(w[0]) && !IsSpace(w[|w| - 1]) by {
      assert Lower(w)[0] in "ntf" && Lower(w)[|w| - 1] in "le";
    }
    StripPadded(pre, w, post);
    KeywordCase(pre + w + post);
  }

  /** A quote at one end only stays part of the string. */
  lemma {:induction false} ParseValueMismatchedQuotes(t: string)
    requires |t| >= 2 && (t[0] == '"' || t[0] == '\'')
    requires t[|t| - 1] != t[0] && !IsSpace(t[|t| - 1])
    ensures ParseValue(t) == Str(t)
  {
    QuoteFacts(t);
    StrCase(t);
  }

  /** A lone quote character counts as quoted and gives the empty string (`'"'[1:-1]`). */
  lemma {:induction false} ParseValueLoneQuote(q: char)
    requires q == '"' || q == '\''
    ensures ParseValue([q]) == Str("")
  {
    QuoteFacts([q]);
    StrCase([q]);
  }
}
