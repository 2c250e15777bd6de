/**
 * `convertnum`: re-bases numeral text between binary, octal, decimal and
 * hexadecimal. In whole-value mode the text is one integer; in per-byte mode
 * each token is converted on its own and zero-padded to a minimum width
 * for its base. Python's `int(s, base)` and `format(n, spec)` are modelled
 * for ASCII text; where Python raises `ValueError` the result is None.
 */
module NumConvert {
  import opened PyStrings
  import opened Numerals
  import opened Nodes

  /** The keys of `valid_num_types`. */
  datatype NumType = Bin | Oct | Dec | Hex

  /** The name of a type in `valid_num_types`. */
  function Name(t: NumType): string {
    match t
    case Bin => "bin"
    case Oct => "oct"
    case Dec => "dec"
    case Hex => "hex"
  }

  /** The base `valid_num_types` gives a type. */
  function Base(t: NumType): (b: nat)
    ensures 2 <= b <= 16
  {
    match t
    case Bin => 2
    case Oct => 8
    case Dec => 10
    case Hex => 16
  }

  /** `valid_num_types` looked up by name: None for a name it does not hold. */
  function NumTypeOf(name: string): (t: Option<NumType>)
    ensures t.Some? ==> Name(t.value) == name
    ensures t.None? ==> forall u: NumType :: Name(u) != name
  {
    if name == "bin" then Some(Bin)
    else if name == "oct" then Some(Oct)
    else if name == "dec" then Some(Dec)
    else if name == "hex" then Some(Hex)
    else None
  }

  /** Every type is found under its own name, and the four bases differ. */
  lemma {:induction false} NumTypeTable(t: NumType, u: NumType)
    ensures NumTypeOf(Name(t)) == Some(t)
    ensures Base(t) == Base(u) ==> t == u
  {
  }

  /** The minimum width of a per-byte token: the `08b`, `03o`, `d` and `02x`
      format specs (`d` pads nothing). */
  function Width(t: NumType): nat {
    match t
    case Bin => 8
    case Oct => 3
    case Dec => 0
    case Hex => 2
  }

  // ---------------------------------------------------------------------
  // int(s, base)
  // ---------------------------------------------------------------------

  /** `0b`, `0o` or `0x` (either case) matching the base; base 10 has no prefix. */
  predicate HasPrefix(u: string, t: NumType) {
    |u| >= 2 && u[0] == '0' &&
    match t
    case Bin => u[1] == 'b' || u[1] == 'B'
    case Oct => u[1] == 'o' || u[1] == 'O'
    case Dec => false
    case Hex => u[1] == 'x' || u[1] == 'X'
  }

  /** Digits of the base with single underscores between them: at least one
      digit, no underscore first or last, and never two in a row. */
  predicate IsDigitBody(body: string, base: nat) {
    && body != [] && body[0] != '_' && body[|body| - 1] != '_'
    && (forall i :: 0 <= i < |body| ==> body[i] == '_' || DigitValue(body[i]) < base)
    && (forall i :: 0 <= i < |body| - 1 ==> !DoubleUnderscore(body, i))
  }

  /** Two underscores in a row, starting at `i`. */
  predicate DoubleUnderscore(body: string, i: nat)
    requires i + 1 < |body|
  {
    body[i] == '_' && body[i + 1] == '_'
  }

  /** The text after the sign. */
  function Unsigned(v: string): string {
    if |v| > 0 && (v[0] == '+' || v[0] == '-') then v[1..] else v
  }

  /** The text after the base prefix and the one underscore allowed after it. */
  function AfterPrefix(u: string, t: NumType): string {
    if HasPrefix(u, t) then (if |u| > 2 && u[2] == '_' then u[3..] else u[2..]) else u
  }

  /** The value of the digits after sign and prefix, read from the last digit
      back: every character a digit of the base, except that one underscore
      may stand between two digits. None for anything else, the empty text
      included. */
  function ParseBody(body: string, t: NumType): Option<nat>
    decreases |body|
  {
    if body == [] then None
    else
      var n := |body| - 1;
      var d := DigitValue(body[n]);
      if d >= Base(t) then None
      else if n == 0 then Some(d)
      else
        match ParseBody(body[..Before(body)], t)
        case None => None
        case Some(v) => Some(v * Base(t) + d)
  }

  /** Where the digits before the last one end: before the underscore in
      front of the last digit, if there is one. */
  function Before(body: string): (m: nat)
    requires |body| >= 2
    ensures m < |body| - 1 ==> m == |body| - 2 && body[m] == '_'
    ensures m == |body| - 1 ==> body[m - 1] != '_'
    ensures m == |body| - 2 || m == |body| - 1
  {
    if body[|body| - 2] == '_' then |body| - 2 else |body| - 1
  }

  /** The whitespace `int` skips around a number: the space and `\t` to `\r`.
      This is narrower than `str.isspace`, which also accepts `\x1c` to `\x1f`. */
  predicate IsIntSpace(c: char) {
    c == ' ' || '\t' <= c <= '\r'
  }

  /** `s` without the leading whitespace `int` skips. */
  function IntLStrip(s: string): (r: string)
    ensures |r| <= |s|
    ensures r == [] || !IsIntSpace(r[0])
  {
    if s != [] && IsIntSpace(s[0]) then IntLStrip(s[1..]) else s
  }

  /** `s` without the trailing whitespace `int` skips. */
  function IntRStrip(s: string): (r: string)
    ensures |r| <= |s|
    ensures r == [] || !IsIntSpace(r[|r| - 1])
  {
    if s != [] && IsIntSpace(s[|s| - 1]) then IntRStrip(s[..|s| - 1]) else s
  }

  /** The text `int` reads: `s` without the whitespace it skips at either end. */
  function IntStrip(s: string): string {
    IntRStrip(IntLStrip(s))
  }

  /** A text with nothing for `int` to skip at either end is read as it stands. */
  lemma {:induction false} IntStripUnchanged(s: string)
    requires s == [] || (!IsIntSpace(s[0]) && !IsIntSpace(s[|s| - 1]))
    ensures IntStrip(s) == s
  {
  }

  /** Blanks `int` skips on both sides of a word are what it removes. */
  lemma {:induction false} IntStripPadded(pre: string, w: string, post: string)
    requires forall i :: 0 <= i < |pre| ==> IsIntSpace(pre[i])
    requires forall i :: 0 <= i < |post| ==> IsIntSpace(post[i])
    requires w != [] && !IsIntSpace(w[0]) && !IsIntSpace(w[|w| - 1])
    ensures IntStrip(pre + w + post) == w
  {
    IntLStripBlanks(pre, w + post);
    assert pre + w + post == pre + (w + post);
    IntRStripBlanks(w, post);
  }

  lemma {:induction false} IntLStripBlanks(pre: string, x: string)
    requires forall i :: 0 <= i < |pre| ==> IsIntSpace(pre[i])
    requires x == [] || !IsIntSpace(x[0])
    ensures IntLStrip(pre + x) == x
    decreases |pre|
  {
    if pre == [] {
      assert pre + x == x;
    } else {
      assert (pre + x)[1..] == pre[1..] + x;
      IntLStripBlanks(pre[1..], x);
    }
  }

  lemma {:induction false} IntRStripBlanks(x: string, post: string)
    requires forall i :: 0 <= i < |post| ==> IsIntSpace(post[i])
    requires x == [] || !IsIntSpace(x[|x| - 1])
    ensures IntRStrip(x + post) == x
    decreases |post|
  {
    if post == [] {
      assert x + post == x;
    } else {
      assert (x + post)[..|x + post| - 1] == x + post[..|post| - 1];
      IntRStripBlanks(x, post[..|post| - 1]);
    }
  }

  /** Python's `int(s, base)` on ASCII text: surrounding blanks (`IsIntSpace`),
      one sign, the base's prefix, then digits with single underscores between
      them. None where Python raises `ValueError`. */
  function ParseInt(s: string, t: NumType): (r: Option<int>)
    ensures r.Some? ==> IntStrip(s) != [] && (r.value < 0 ==> IntStrip(s)[0] == '-')
  {
    var v := IntStrip(s);
    match ParseBody(AfterPrefix(Unsigned(v), t), t)
    case None => None
    case Some(n) => Some(if |v| > 0 && v[0] == '-' then -(n as int) else n)
  }

  // ---------------------------------------------------------------------
  // format(n, spec)
  // ---------------------------------------------------------------------

  /** Python's `format(n, "0<width><letter>")` for the base's letter `b`, `o`,
      `d` or `x`: a minus sign for a negative number, then the lower-case
      digits of its magnitude, zero-padded after the sign so that the whole
      is at least `width` characters. Width 0 is the plain spec. */
  function Format(n: int, t: NumType, width: nat): string {
    if n < 0 then "-" + ZeroPad(ToDigits(-n, Base(t)), if width > 0 then width - 1 else 0)
    else ZeroPad(ToDigits(n, Base(t)), width)
  }

  /** The numeral text Python writes for a natural number: lower-case digits of
      the base, no prefix, no sign, and no leading zero except in "0". */
  predicate IsCanonical(s: string, base: nat) {
    && IsNumeral(s, base)
    && (s[0] == '0' ==> s == "0")
    && forall i :: 0 <= i < |s| ==> !('A' <= s[i] <= 'Z')
  }

  /** The plain spec writes a natural number as its canonical numeral, and
      that numeral is the only canonical one with that value. */
  lemma {:induction false} FormatPlain(n: nat, t: NumType, s: string)
    ensures Format(n, t, 0) == ToDigits(n, Base(t))
    ensures IsCanonical(Format(n, t, 0), Base(t))
    ensures ValueOf(Format(n, t, 0), Base(t)) == n
    ensures IsCanonical(s, Base(t)) && ValueOf(s, Base(t)) == n ==> s == Format(n, t, 0)
  {
    ToDigitsCanonical(n, Base(t));
    ValueOfToDigits(n, Base(t));
    if IsCanonical(s, Base(t)) && ValueOf(s, Base(t)) == n {
      ToDigitsOfValue(s, Base(t));
    }
  }

  /** A padded natural number: a numeral of the base with the same value, as
      long as the width or as its canonical numeral, whichever is longer, and
      ending in that canonical numeral after nothing but zeros. The width is a
      minimum; nothing is ever cut off. */
  lemma {:induction false} FormatPadded(n: nat, t: NumType, width: nat)
    ensures var r := Format(n, t, width); var d := ToDigits(n, Base(t));
      && IsNumeral(r, Base(t))
      && ValueOf(r, Base(t)) == n
      && |r| == (if |d| < width then width else |d|)
      && r[|r| - |d|..] == d
      && (forall i :: 0 <= i < |r| - |d| ==> r[i] == '0')
  {
    var d := ToDigits(n, Base(t));
    var r := Format(n, t, width);
    ToDigitsCanonical(n, Base(t));
    ValueOfToDigits(n, Base(t));
    ValueOfZeroPad(d, Base(t), width);
    assert forall i :: 0 <= i < |r| ==> DigitValue(r[i]) < Base(t);
  }

  /** A negative number is a minus sign before its magnitude, padded to one
      less than the width. */
  lemma {:induction false} FormatNegative(n: int, t: NumType, width: nat)
    requires n < 0
    ensures Format(n, t, width) == "-" + Format(-n, t, if width > 0 then width - 1 else 0)
  {
  }

  /** No numeral of a base starts with that base's prefix: the prefix letter
      is not a digit of the base. */
  lemma {:induction false} NumeralHasNoPrefix(u: string, t: NumType)
    requires IsNumeral(u, Base(t))
    ensures !HasPrefix(u, t)
  {
    if |u| >= 2 {
      assert DigitValue(u[1]) < Base(t);
    }
  }

  /** A numeral is a digit body with no underscore to drop and no whitespace. */
  lemma {:induction false} NumeralIsDigitBody(u: string, b: nat)
    requires 2 <= b <= 16 && IsNumeral(u, b)
    ensures IsDigitBody(u, b) && WithoutUnderscores(u) == u && NoSpace(u)
  {
    forall i | 0 <= i < |u|
      ensures u[i] != '_' && !IsSpace(u[i])
    {
      assert DigitValue(u[i]) < b;
    }
    WithoutUnderscoresDrops(u);
  }

  /** How `int` reads a text once its body after sign and prefix is known. */
  lemma {:induction false} ParseIntOf(s: string, t: NumType, v: string, body: string, n: nat)
    requires v == IntStrip(s) && body == AfterPrefix(Unsigned(v), t) && ParseBody(body, t) == Some(n)
    ensures ParseInt(s, t) == Some(if |v| > 0 && v[0] == '-' then -(n as int) else n)
  {
  }

  /** The digits of a numeral are a body that reads as the numeral's value. */
  lemma {:induction false} ParseBodyNumeral(u: string, t: NumType)
    requires IsNumeral(u, Base(t))
    ensures ParseBody(u, t) == Some(ValueOf(u, Base(t)))
    ensures AfterPrefix(u, t) == u
  {
    ReadNumeral(u, t);
    NumeralHasNoPrefix(u, t);
  }

  lemma {:induction false} ReadNumeral(u: string, t: NumType)
    requires IsNumeral(u, Base(t))
    ensures ParseBody(u, t) == Some(ValueOf(u, Base(t)))
    decreases |u|
  {
    var n := |u| - 1;
    assert DigitValue(u[n]) < Base(t);
    if n > 0 {
      assert DigitValue(u[n - 1]) < Base(t);
      assert Before(u) == n;
      NumeralPrefix(u, n, Base(t));
      ReadNumeral(u[..n], t);
    }
  }

  lemma {:induction false} NumeralPrefix(u: string, n: nat, b: nat)
    requires IsNumeral(u, b) && 0 < n <= |u|
    ensures IsNumeral(u[..n], b)
  {
    forall i | 0 <= i < n ensures DigitValue(u[..n][i]) < b {
      assert u[..n][i] == u[i];
    }
  }

  /** The reader accepts exactly the digit bodies, and reads the digits left
      once the underscores are dropped. */
  lemma {:induction false} ParseBodySyntax(body: string, t: NumType)
    ensures ParseBody(body, t).Some? <==> IsDigitBody(body, Base(t))
    ensures ParseBody(body, t).Some? ==> ParseBody(body, t).value == ValueOf(WithoutUnderscores(body), Base(t))
  {
    ParseBodyAccepts(body, t);
    if ParseBody(body, t).Some? {
      ParseBodyValue(body, t);
    }
  }

  lemma {:induction false} ParseBodyAccepts(body: string, t: NumType)
    ensures ParseBody(body, t).Some? <==> IsDigitBody(body, Base(t))
    decreases |body|
  {
    var b := Base(t);
    if body == [] {
      return;
    }
    var n := |body| - 1;
    if DigitValue(body[n]) >= b {
      LastNoDigit(body, b);
    } else if n == 0 {
      SingleDigit(body, b);
    } else {
      var m := Before(body);
      ParseBodyAccepts(body[..m], t);
      DigitBodyStep(body, m, b);
    }
  }

  lemma {:induction false} ParseBodyValue(body: string, t: NumType)
    requires ParseBody(body, t).Some?
    ensures ParseBody(body, t).value == ValueOf(WithoutUnderscores(body), Base(t))
    decreases |body|
  {
    var n := |body| - 1;
    if n == 0 {
      SingleDigit(body, Base(t));
    } else {
      var m := Before(body);
      ParseBodyValue(body[..m], t);
      SnocValue(body, m, Base(t), ParseBody(body[..m], t).value);
    }
  }

  lemma {:induction false} LastNoDigit(body: string, b: nat)
    requires body != [] && DigitValue(body[|body| - 1]) >= b
    ensures !IsDigitBody(body, b)
  {
    var c := body[|body| - 1];
    if c != '_' {
      assert !(body[|body| - 1] == '_' || DigitValue(body[|body| - 1]) < b);
    }
  }

  lemma {:induction false} SingleDigit(body: string, b: nat)
    requires |body| == 1 && DigitValue(body[0]) < b <= 16
    ensures IsDigitBody(body, b)
    ensures ValueOf(WithoutUnderscores(body), b) == DigitValue(body[0])
  {
    assert body[0] != '_';
    assert body[1..] == [];
    assert WithoutUnderscores(body) == body;
    assert body[..0] == [];
  }

  /** The value of a body one digit longer than the part before `m`. */
  lemma {:induction false} SnocValue(body: string, m: nat, b: nat, v: nat)
    requires |body| >= 2 && m == Before(body) && DigitValue(body[|body| - 1]) < b <= 16
    requires v == ValueOf(WithoutUnderscores(body[..m]), b)
    ensures ValueOf(WithoutUnderscores(body), b) == v * b + DigitValue(body[|body| - 1])
  {
    var c := body[|body| - 1];
    var rest := body[..m];
    var mid := body[m..|body| - 1];
    assert c != '_';
    assert body == rest + mid + [c];
    WithoutUnderscoresAppend(rest, mid);
    WithoutUnderscoresAppend(rest + mid, [c]);
    assert WithoutUnderscores([c]) == [c] by {
      assert [c][1..] == [];
    }
    assert WithoutUnderscores(mid) == [] by {
      if mid != [] {
        assert mid == "_" && mid[1..] == [];
      }
    }
    var w := WithoutUnderscores(rest) + [c];
    assert WithoutUnderscores(body) == w;
    assert w[..|w| - 1] == WithoutUnderscores(rest);
  }

  /** One more digit, with or without an underscore before it, keeps a digit
      body a digit body and makes nothing else one. */
  lemma {:induction false} DigitBodyStep(body: string, m: nat, b: nat)
    requires 2 <= b <= 16 && |body| >= 2 && m == Before(body) && DigitValue(body[|body| - 1]) < b
    ensures IsDigitBody(body, b) <==> IsDigitBody(body[..m], b)
  {
    var n := |body| - 1;
    var rest := body[..m];
    assert body[n] != '_';
    if m == 0 {
      assert body[0] == '_';
      return;
    }
    assert forall i :: 0 <= i < m ==> rest[i] == body[i];
    if IsDigitBody(body, b) {
      forall i | 0 <= i < m - 1 ensures !DoubleUnderscore(rest, i) {
        assert !DoubleUnderscore(body, i);
      }
      if m < n {
        assert !DoubleUnderscore(body, m - 1);
      }
      forall i | 0 <= i < m ensures rest[i] == '_' || DigitValue(rest[i]) < b {
        assert body[i] == '_' || DigitValue(body[i]) < b;
      }
    }
    if IsDigitBody(rest, b) {
      forall i | 0 <= i < n ensures !DoubleUnderscore(body, i) {
        if i < m - 1 {
          assert !DoubleUnderscore(rest, i);
        }
      }
      forall i | 0 <= i < |body| ensures body[i] == '_' || DigitValue(body[i]) < b {
        if i < m {
          assert rest[i] == '_' || DigitValue(rest[i]) < b;
        }
      }
    }
  }

  /** A character no digit of the base and no underscore, anywhere in the
      body, makes the reader fail. */
  lemma {:induction false} ParseBodyRejects(body: string, t: NumType, i: nat)
    requires i < |body| && DigitValue(body[i]) >= Base(t) && body[i] != '_'
    ensures ParseBody(body, t) == None
    decreases |body|
  {
    var n := |body| - 1;
    if i < n && DigitValue(body[n]) < Base(t) {
      var m := Before(body);
      assert i < m && body[..m][i] == body[i];
      ParseBodyRejects(body[..m], t, i);
    }
  }

  /** A numeral has no blank to strip and no sign to take off. */
  lemma {:induction false} NumeralText(u: string, t: NumType)
    requires IsNumeral(u, Base(t))
    ensures IntStrip(u) == u && Unsigned(u) == u
    ensures IntStrip("-" + u) == "-" + u && Unsigned("-" + u) == u
  {
    assert DigitValue(u[0]) < Base(t) && DigitValue(u[|u| - 1]) < Base(t);
    UnsignedText(u);
  }

  /** The same, knowing only the first and last characters. */
  lemma {:induction false} UnsignedText(u: string)
    requires u != [] && DigitValue(u[0]) < 16 && DigitValue(u[|u| - 1]) < 16
    ensures IntStrip(u) == u && Unsigned(u) == u
    ensures IntStrip("-" + u) == "-" + u && Unsigned("-" + u) == u
  {
    var s := "-" + u;
    assert s[|s| - 1] == u[|u| - 1] && s[1..] == u;
    IntStripUnchanged(u);
    IntStripUnchanged(s);
  }

  /** A numeral of the base reads as its value. */
  lemma {:induction false} ParseNumeral(u: string, t: NumType)
    requires IsNumeral(u, Base(t))
    ensures ParseInt(u, t) == Some(ValueOf(u, Base(t)) as int)
  {
    NumeralText(u, t);
    ParseBodyNumeral(u, t);
    ParseIntOf(u, t, u, u, ValueOf(u, Base(t)));
  }

  /** A minus sign before a numeral of the base reads as the negated value. */
  lemma {:induction false} ParseNegNumeral(u: string, t: NumType)
    requires IsNumeral(u, Base(t))
    ensures ParseInt("-" + u, t) == Some(-(ValueOf(u, Base(t)) as int))
  {
    NumeralText(u, t);
    ParseBodyNumeral(u, t);
    ParseIntOf("-" + u, t, "-" + u, u, ValueOf(u, Base(t)));
  }

  /** A text known to be a minus sign and a numeral reads as the negated value. */
  lemma {:induction false} ParseMinus(s: string, f: string, t: NumType, n: int)
    requires s == "-" + f && IsNumeral(f, Base(t)) && ValueOf(f, Base(t)) == -n
    ensures ParseInt(s, t) == Some(n)
  {
    ParseNegNumeral(f, t);
  }

  /** `int` reads a word the same with any blanks it skips around it. */
  lemma {:induction false} ParseIntBlanks(pre: string, w: string, post: string, t: NumType)
    requires forall i :: 0 <= i < |pre| ==> IsIntSpace(pre[i])
    requires forall i :: 0 <= i < |post| ==> IsIntSpace(post[i])
    requires w != [] && !IsIntSpace(w[0]) && !IsIntSpace(w[|w| - 1])
    ensures ParseInt(pre + w + post, t) == ParseInt(w, t)
  {
    IntStripPadded(pre, w, post);
    IntStripUnchanged(w);
  }

  /** What `format` writes, `int` reads back: for every integer, width and
      base, parsing the formatted text in the same base gives the integer. */
  lemma {:induction false} FormatParses(n: int, t: NumType, width: nat)
    ensures ParseInt(Format(n, t, width), t) == Some(n)
  {
    if n < 0 {
      FormatParsesNegative(n, t, width);
    } else {
      FormatParsesNatural(n, t, width);
    }
  }

  lemma {:induction false} FormatParsesNatural(n: nat, t: NumType, width: nat)
    ensures ParseInt(Format(n, t, width), t) == Some(n)
  {
    FormatPadded(n, t, width);
    ParseNumeral(Format(n, t, width), t);
  }

  lemma {:induction false} FormatParsesNegative(n: int, t: NumType, width: nat)
    requires n < 0
    ensures ParseInt(Format(n, t, width), t) == Some(n)
  {
    var w := if width > 0 then width - 1 else 0;
    NegativeShape(n, t, width);
    ParseMinus(Format(n, t, width), Format(-n, t, w), t, n);
  }

  /** A negative number is written as a minus sign and a numeral of its magnitude. */
  lemma {:induction false} NegativeShape(n: int, t: NumType, width: nat)
    requires n < 0
    ensures var w := if width > 0 then width - 1 else 0;
      && Format(n, t, width) == "-" + Format(-n, t, w)
      && IsNumeral(Format(-n, t, w), Base(t))
      && ValueOf(Format(-n, t, w), Base(t)) == -n
  {
    var w := if width > 0 then width - 1 else 0;
    var m: nat := -n;
    var u := Format(m, t, w);
    FormatPadded(m, t, w);
    assert IsNumeral(u, Base(t)) && ValueOf(u, Base(t)) == m;
    FormatNegative(n, t, width);
  }

  /** Formatted text is a non-empty word: a sign and digits, no whitespace. */
  lemma {:induction false} FormatIsWord(n: int, t: NumType, width: nat)
    ensures Format(n, t, width) != [] && NoSpace(Format(n, t, width))
  {
    if n < 0 {
      NegativeIsWord(n, t, width);
    } else {
      PaddedIsWord(n, t, width);
    }
  }

  lemma {:induction false} NegativeIsWord(n: int, t: NumType, width: nat)
    requires n < 0
    ensures Format(n, t, width) != [] && NoSpace(Format(n, t, width))
  {
    var w := if width > 0 then width - 1 else 0;
    PaddedIsWord(-n, t, w);
    FormatNegative(n, t, width);
    SignedWord(Format(-n, t, w), Format(n, t, width));
  }

  lemma {:induction false} PaddedIsWord(n: nat, t: NumType, width: nat)
    ensures Format(n, t, width) != [] && NoSpace(Format(n, t, width))
  {
    FormatPadded(n, t, width);
    NumeralIsDigitBody(Format(n, t, width), Base(t));
  }

  lemma {:induction false} SignedWord(f: string, r: string)
    requires r == "-" + f && NoSpace(f)
    ensures r != [] && NoSpace(r)
  {
    forall i | 0 <= i < |r| ensures !IsSpace(r[i]) {
      if i > 0 {
        assert r[i] == f[i - 1];
      }
    }
  }

  /** What sign and prefix take off the front of the stripped text: its body
      is a suffix, and everything before it is a sign, a prefix or the
      underscore after the prefix. */
  lemma {:induction false} BodyIsSuffix(v: string, t: NumType)
    ensures var body := AfterPrefix(Unsigned(v), t);
      && |body| <= |v| && body == v[|v| - |body|..]
      && forall j :: 0 <= j < |v| - |body| ==> v[j] in "+-0bBoOxX_"
  {
    var u := Unsigned(v);
    var body := AfterPrefix(u, t);
    UnsignedIsSuffix(v);
    PrefixIsDropped(u, t);
    forall j | 0 <= j < |v| - |body|
      ensures v[j] in "+-0bBoOxX_"
    {
      if j >= |v| - |u| {
        assert v[j] == u[j - (|v| - |u|)];
      }
    }
  }

  lemma {:induction false} UnsignedIsSuffix(v: string)
    ensures var u := Unsigned(v);
      && |u| <= |v| && u == v[|v| - |u|..]
      && forall j :: 0 <= j < |v| - |u| ==> v[j] in "+-"
  {
  }

  lemma {:induction false} PrefixIsDropped(u: string, t: NumType)
    ensures var body := AfterPrefix(u, t);
      && |body| <= |u| && body == u[|u| - |body|..]
      && forall j :: 0 <= j < |u| - |body| ==> u[j] in "0bBoOxX_"
  {
  }

  /** A character that is no digit of the base, no sign, no underscore and no
      prefix letter makes `int` fail wherever it stands in the text left after
      the blanks at either end. */
  lemma {:induction false} ParseIntRejects(s: string, t: NumType, i: nat)
    requires i < |IntStrip(s)|
    requires var c := IntStrip(s)[i];
      DigitValue(c) >= Base(t) && c != '+' && c != '-' && c != '_' && !(c in "bBoOxX")
    ensures ParseInt(s, t) == None
  {
    var v := IntStrip(s);
    var body := AfterPrefix(Unsigned(v), t);
    BodyIsSuffix(v, t);
    var k := |v| - |body|;
    assert v[i] !in "+-0bBoOxX_" by {
      assert DigitValue('0') == 0;
    }
    assert i >= k;
    assert body[i - k] == v[i];
    ParseBodyRejects(body, t, i - k);
  }

  // ---------------------------------------------------------------------
  // convertnum
  // ---------------------------------------------------------------------

  /** The tokens of per-byte mode: the stripped text split on whitespace when
      it holds a space, otherwise the stripped text as one token. */
  function Parts(value: string): seq<string> {
    var v := Strip(value);
    if ' ' in v then SplitWhitespace(v) else [v]
  }

  /** The values of the tokens read one after the other in the input base;
      None when some token is no numeral of the base. */
  function ParseAll(parts: seq<string>, t: NumType): Option<seq<int>> {
    ReadAll(parts, Reader(t))
  }

  /** `int(part, base)` as a function of the token. */
  function Reader(t: NumType): string -> Option<int> {
    s => ParseInt(s, t)
  }

  /** The values of the tokens read one after the other by `read`; None as
      soon as one token does not read. */
  function ReadAll(parts: seq<string>, read: string -> Option<int>): Option<seq<int>>
    decreases |parts|
  {
    if parts == [] then Some([])
    else
      match ReadAll(parts[..|parts| - 1], read)
      case None => None
      case Some(vals) =>
        match read(parts[|parts| - 1])
        case None => None
        case Some(n) => Some(vals + [n])
  }

  /** Each value written with the output base's per-byte spec. */
  function FormatAll(vals: seq<int>, t: NumType): (out: seq<string>)
    ensures |out| == |vals|
    decreases |vals|
  {
    if vals == [] then []
    else FormatAll(vals[..|vals| - 1], t) + [Format(vals[|vals| - 1], t, Width(t))]
  }

  /** The k-th token is the k-th value with the per-byte spec. */
  lemma {:induction false} FormatAllAt(vals: seq<int>, t: NumType)
    ensures forall k :: 0 <= k < |vals| ==> FormatAll(vals, t)[k] == Format(vals[k], t, Width(t))
    decreases |vals|
  {
    if vals != [] {
      var init := vals[..|vals| - 1];
      FormatAllAt(init, t);
      var out := FormatAll(vals, t);
      var last := Format(vals[|vals| - 1], t, Width(t));
      assert out == FormatAll(init, t) + [last];
      forall k | 0 <= k < |vals| ensures out[k] == Format(vals[k], t, Width(t)) {
        if k < |init| {
          assert out[k] == FormatAll(init, t)[k] && init[k] == vals[k];
        } else {
          assert out[k] == last;
        }
      }
    }
  }

  /** Whole-value mode: the text as one integer of the input base, written
      in the output base with the plain spec. */
  function ConvertWhole(value: string, tout: NumType, tin: NumType): Option<string> {
    match ParseInt(value, tin)
    case None => None
    case Some(n) => Some(Format(n, tout, 0))
  }

  /** Per-byte mode: every token converted and padded, joined by single
      spaces; None when one token is no numeral of the input base. */
  function ConvertPerByte(value: string, tout: NumType, tin: NumType): Option<string> {
    match ParseAll(Parts(value), tin)
    case None => None
    case Some(vals) => Some(JoinSpaces(FormatAll(vals, tout)))
  }

  /** `convertnum(value, type_out, type_in, per_byte)`: None for a type name
      outside the table or a token that is no numeral of the input base. */
  function ConvertNum(value: string, typeOut: string, typeIn: string, perByte: bool): (r: Option<string>)
    ensures r.Some? ==> NumTypeOf(typeOut).Some? && NumTypeOf(typeIn).Some?
  {
    match (NumTypeOf(typeOut), NumTypeOf(typeIn))
    case (Some(tout), Some(tin)) =>
      if perByte then ConvertPerByte(value, tout, tin) else ConvertWhole(value, tout, tin)
    case _ => None
  }

  /** `convertnum` as the source runs it. */
  method ConvertNumber(value: string, typeOut: string, typeIn: string, perByte: bool) returns (r: Option<string>)
    ensures r == ConvertNum(value, typeOut, typeIn, perByte)
  {
    var typeO, typeI := NumTypeOf(typeOut), NumTypeOf(typeIn);
    if typeO.None? || typeI.None? {
      return None;
    }
    var tout, tin := typeO.value, typeI.value;
    if !perByte {
      var num := ParseInt(value, tin);
      if num.None? {
        return None;
      }
      return Some(Format(num.value, tout, 0));
    }
    r := ConvertBytes(value, tout, tin);
  }

  /** The per-byte branch: first the values of all tokens, then each of them
      formatted, then the join. */
  method ConvertBytes(value: string, tout: NumType, tin: NumType) returns (r: Option<string>)
    ensures r == ConvertPerByte(value, tout, tin)
  {
    var byteValues := ParseTokens(Parts(value), tin);
    if byteValues.None? {
      return None;
    }
    var output := FormatTokens(byteValues.value, tout);
    r := Some(JoinSpaces(output));
  }

  /** The first loop of the per-byte branch: `int(part, base)` for each token
      in turn; the first that fails ends the conversion. */
  method ParseTokens(parts: seq<string>, tin: NumType) returns (r: Option<seq<int>>)
    ensures r == ParseAll(parts, tin)
  {
    var byteValues: seq<int> := [];
    for k := 0 to |parts|
      invariant ParseAll(parts[..k], tin) == Some(byteValues)
    {
      ParseAllStep(parts, k, tin, byteValues);
      var b := ParseInt(parts[k], tin);
      if b.None? {
        ParseAllStops(parts, k + 1, tin);
        return None;
      }
      byteValues := byteValues + [b.value];
    }
    assert parts[..|parts|] == parts;
    r := Some(byteValues);
  }

  /** The second loop: `format(b, fmt)` for each value in turn. */
  method FormatTokens(vals: seq<int>, tout: NumType) returns (output: seq<string>)
    ensures output == FormatAll(vals, tout)
  {
    output := [];
    for k := 0 to |vals|
      invariant output == FormatAll(vals[..k], tout)
    {
      FormatAllSnoc(vals, k, tout);
      output := output + [Format(vals[k], tout, Width(tout))];
    }
    assert vals[..|vals|] == vals;
  }

  /** One more value formatted: its token is appended. */
  lemma {:induction false} FormatAllSnoc(vals: seq<int>, k: nat, t: NumType)
    requires k < |vals|
    ensures FormatAll(vals[..k + 1], t) == FormatAll(vals[..k], t) + [Format(vals[k], t, Width(t))]
  {
    assert vals[..k + 1][..k] == vals[..k];
  }

  /** Once a token fails, the whole sequence fails. */
  lemma {:induction false} ParseAllStops(parts: seq<string>, k: nat, t: NumType)
    requires k <= |parts| && ParseAll(parts[..k], t).None?
    ensures ParseAll(parts, t).None?
  {
    ReadAllStops(parts, k, Reader(t));
  }

  lemma {:induction false} ReadAllStops(parts: seq<string>, k: nat, read: string -> Option<int>)
    requires k <= |parts| && ReadAll(parts[..k], read).None?
    ensures ReadAll(parts, read).None?
    decreases |parts| - k
  {
    if k < |parts| {
      assert parts[..k + 1][..k] == parts[..k];
      ReadAllStops(parts, k + 1, read);
    } else {
      assert parts[..k] == parts;
    }
  }

  /** One more token read: its value is appended, or the reading fails. */
  lemma {:induction false} ParseAllStep(parts: seq<string>, k: nat, t: NumType, vals: seq<int>)
    requires k < |parts| && ParseAll(parts[..k], t) == Some(vals)
    ensures ParseInt(parts[k], t).None? ==> ParseAll(parts[..k + 1], t).None?
    ensures ParseInt(parts[k], t).Some? ==> ParseAll(parts[..k + 1], t) == Some(vals + [ParseInt(parts[k], t).value])
  {
    assert parts[..k + 1][..k] == parts[..k];
  }

  /** Tokens whose values are known read as those values, in order. */
  lemma {:induction false} ParseAllOf(parts: seq<string>, t: NumType, vals: seq<int>)
    requires |vals| == |parts|
    requires forall k :: 0 <= k < |parts| ==> ParseInt(parts[k], t) == Some(vals[k])
    ensures ParseAll(parts, t) == Some(vals)
  {
    ParseAllEvery(parts, t);
    ParseAllSome(parts, t);
    var found := ParseAll(parts, t).value;
    assert forall k :: 0 <= k < |parts| ==> found[k] == vals[k];
    assert found == vals;
  }

  /** The values are read token by token: there is one for each token, each
      the value of its token, and there are values exactly when every token
      is a numeral of the base. */
  lemma {:induction false} ParseAllValues(parts: seq<string>, t: NumType)
    ensures ParseAll(parts, t).Some? <==> forall k :: 0 <= k < |parts| ==> ParseInt(parts[k], t).Some?
    ensures ParseAll(parts, t).Some? ==> |ParseAll(parts, t).value| == |parts|
    ensures ParseAll(parts, t).Some? ==>
      forall k :: 0 <= k < |parts| ==> ParseInt(parts[k], t) == Some(ParseAll(parts, t).value[k])
  {
    if ParseAll(parts, t).Some? {
      ParseAllSome(parts, t);
    }
    if forall k :: 0 <= k < |parts| ==> ParseInt(parts[k], t).Some? {
      ParseAllEvery(parts, t);
    }
  }

  /** Values read: one per token, each its token's value. */
  lemma {:induction false} ParseAllSome(parts: seq<string>, t: NumType)
    requires ParseAll(parts, t).Some?
    ensures |ParseAll(parts, t).value| == |parts|
    ensures forall k :: 0 <= k < |parts| ==> ParseInt(parts[k], t) == Some(ParseAll(parts, t).value[k])
  {
    var read := Reader(t);
    ReadAllSome(parts, read);
    forall k | 0 <= k < |parts|
      ensures ParseInt(parts[k], t) == Some(ParseAll(parts, t).value[k])
    {
      assert read(parts[k]) == ParseInt(parts[k], t);
    }
  }

  lemma {:induction false} ReadAllSome(parts: seq<string>, read: string -> Option<int>)
    requires ReadAll(parts, read).Some?
    ensures |ReadAll(parts, read).value| == |parts|
    ensures forall k :: 0 <= k < |parts| ==> read(parts[k]) == Some(ReadAll(parts, read).value[k])
    decreases |parts|
  {
    if parts != [] {
      var n := |parts| - 1;
      var init := parts[..n];
      ReadAllSome(init, read);
      var vs := ReadAll(init, read).value;
      var vals := ReadAll(parts, read).value;
      assert vals == vs + [read(parts[n]).value];
      forall k | 0 <= k < |parts|
        ensures read(parts[k]) == Some(vals[k])
      {
        if k < n {
          assert init[k] == parts[k] && vals[k] == vs[k];
        }
      }
    }
  }

  /** Every token a numeral of the base: the values are read. */
  lemma {:induction false} ParseAllEvery(parts: seq<string>, t: NumType)
    requires forall k :: 0 <= k < |parts| ==> ParseInt(parts[k], t).Some?
    ensures ParseAll(parts, t).Some?
  {
    var read := Reader(t);
    forall k | 0 <= k < |parts| ensures read(parts[k]).Some? {
      assert read(parts[k]) == ParseInt(parts[k], t);
    }
    ReadAllEvery(parts, read);
  }

  lemma {:induction false} ReadAllEvery(parts: seq<string>, read: string -> Option<int>)
    requires forall k :: 0 <= k < |parts| ==> read(parts[k]).Some?
    ensures ReadAll(parts, read).Some?
    decreases |parts|
  {
    if parts != [] {
      var init := parts[..|parts| - 1];
      assert forall k :: 0 <= k < |init| ==> init[k] == parts[k];
      ReadAllEvery(init, read);
      assert read(parts[|parts| - 1]).Some?;
    }
  }

  // ---------------------------------------------------------------------
  // Whole-value mode
  // ---------------------------------------------------------------------

  /** A whole-value result is the canonical numeral of the input's value in
      the output base (lower case, no prefix, no leading zero), after a minus
      sign when the value is negative. */
  lemma {:induction false} WholeValueResult(value: string, tout: NumType, tin: NumType)
    requires ConvertNum(value, Name(tout), Name(tin), false).Some?
    ensures ParseInt(value, tin).Some?
    ensures var s := ConvertNum(value, Name(tout), Name(tin), false).value;
      var n := ParseInt(value, tin).value;
      && (n >= 0 ==> IsCanonical(s, Base(tout)) && ValueOf(s, Base(tout)) == n)
      && (n < 0 ==> s[0] == '-' && IsCanonical(s[1..], Base(tout)) && ValueOf(s[1..], Base(tout)) == -n)
  {
    NumTypeTable(tout, tin);
    NumTypeTable(tin, tout);
    var n := ParseInt(value, tin).value;
    assert ConvertNum(value, Name(tout), Name(tin), false) == Some(Format(n, tout, 0));
    FormatSigned(n, tout);
  }

  /** The plain spec on any integer: a canonical numeral, after a minus sign
      for a negative integer. */
  lemma {:induction false} FormatSigned(n: int, t: NumType)
    ensures var s := Format(n, t, 0);
      && (n >= 0 ==> IsCanonical(s, Base(t)) && ValueOf(s, Base(t)) == n)
      && (n < 0 ==> s[0] == '-' && IsCanonical(s[1..], Base(t)) && ValueOf(s[1..], Base(t)) == -n)
  {
    if n < 0 {
      FormatSignedNegative(n, t);
    } else {
      FormatPlain(n, t, []);
    }
  }

  lemma {:induction false} FormatSignedNegative(n: int, t: NumType)
    requires n < 0
    ensures var s := Format(n, t, 0);
      s[0] == '-' && IsCanonical(s[1..], Base(t)) && ValueOf(s[1..], Base(t)) == -n
  {
    var m: nat := -n;
    FormatPlain(m, t, []);
    FormatNegative(n, t, 0);
    MinusCanonical(Format(n, t, 0), Format(m, t, 0), Base(t), m);
  }

  lemma {:induction false} MinusCanonical(s: string, f: string, b: nat, m: nat)
    requires s == "-" + f && IsCanonical(f, b) && ValueOf(f, b) == m
    ensures s[0] == '-' && IsCanonical(s[1..], b) && ValueOf(s[1..], b) == m
  {
    assert s[1..] == f;
  }

  /** Converting A to B and back gives the canonical base-A text of the value. */
  lemma {:induction false} WholeValueRoundTrip(value: string, ta: NumType, tb: NumType)
    requires ConvertNum(value, Name(tb), Name(ta), false).Some?
    ensures ParseInt(value, ta).Some?
    ensures var s := ConvertNum(value, Name(tb), Name(ta), false).value;
      ConvertNum(s, Name(ta), Name(tb), false) == Some(Format(ParseInt(value, ta).value, ta, 0))
  {
    NumTypeTable(ta, tb);
    NumTypeTable(tb, ta);
    var n := ParseInt(value, ta).value;
    assert ConvertNum(value, Name(tb), Name(ta), false) == Some(Format(n, tb, 0));
    FormatParses(n, tb, 0);
  }

  /** A canonical numeral of base A comes back unchanged from A to B and back. */
  lemma {:induction false} WholeValueRoundTripCanonical(value: string, ta: NumType, tb: NumType)
    requires IsCanonical(value, Base(ta))
    ensures ConvertNum(value, Name(tb), Name(ta), false).Some?
    ensures ConvertNum(ConvertNum(value, Name(tb), Name(ta), false).value, Name(ta), Name(tb), false) == Some(value)
  {
    NumTypeTable(ta, tb);
    NumTypeTable(tb, ta);
    ParseNumeral(value, ta);
    assert ConvertNum(value, Name(tb), Name(ta), false).Some?;
    WholeValueRoundTrip(value, ta, tb);
    FormatPlain(ValueOf(value, Base(ta)), ta, value);
  }

  // ---------------------------------------------------------------------
  // Per-byte mode
  // ---------------------------------------------------------------------

  /** Every per-byte token is a non-empty word without whitespace. */
  lemma {:induction false} FormatAllAreWords(vals: seq<int>, t: NumType)
    ensures forall k :: 0 <= k < |FormatAll(vals, t)| ==> FormatAll(vals, t)[k] != [] && NoSpace(FormatAll(vals, t)[k])
  {
    var out := FormatAll(vals, t);
    FormatAllAt(vals, t);
    forall k | 0 <= k < |out|
      ensures out[k] != [] && NoSpace(out[k])
    {
      FormatIsWord(vals[k], t, Width(t));
    }
  }

  /** A per-byte result holds one token for each input token, in the same
      order: splitting it on whitespace gives the tokens back, the k-th being
      the value of the k-th input token with the output base's padding. */
  lemma {:induction false} PerByteResult(value: string, tout: NumType, tin: NumType)
    requires ConvertNum(value, Name(tout), Name(tin), true).Some?
    ensures ParseAll(Parts(value), tin).Some?
    ensures var s := ConvertNum(value, Name(tout), Name(tin), true).value;
      var parts := Parts(value);
      var out := SplitWhitespace(s);
      && |out| == |parts|
      && forall k :: 0 <= k < |parts| ==>
           ParseInt(parts[k], tin).Some? && out[k] == Format(ParseInt(parts[k], tin).value, tout, Width(tout))
  {
    NumTypeTable(tout, tin);
    NumTypeTable(tin, tout);
    assert ConvertNum(value, Name(tout), Name(tin), true) == ConvertPerByte(value, tout, tin);
    var vals := ParseAll(Parts(value), tin).value;
    ParseAllValues(Parts(value), tin);
    PerByteTokens(vals, tout);
  }

  /** The formatted values, joined and split again, one token per value. */
  lemma {:induction false} PerByteTokens(vals: seq<int>, t: NumType)
    ensures var out := SplitWhitespace(JoinSpaces(FormatAll(vals, t)));
      |out| == |vals| && forall k :: 0 <= k < |vals| ==> out[k] == Format(vals[k], t, Width(t))
  {
    FormatAllAreWords(vals, t);
    FormatAllAt(vals, t);
    SplitJoin(FormatAll(vals, t));
  }

  /** A text without whitespace is one token. */
  lemma {:induction false} PartsOfWord(w: string)
    requires w != [] && NoSpace(w)
    ensures Parts(w) == [w]
  {
    StripUnchanged(w);
    assert ' ' !in w by {
      forall i | 0 <= i < |w| ensures w[i] != ' ' {
        assert !IsSpace(w[i]);
      }
    }
  }

  /** The tokens of a space-joined sequence of words are those words. */
  lemma {:induction false} PartsOfJoin(words: seq<string>)
    requires |words| > 0
    requires forall i :: 0 <= i < |words| ==> words[i] != [] && NoSpace(words[i])
    ensures Parts(JoinSpaces(words)) == words
  {
    if |words| == 1 {
      PartsOfWord(words[0]);
    } else {
      var s := JoinSpaces(words);
      JoinSpacesEnds(words);
      StripUnchanged(s);
      SplitJoin(words);
      assert s == words[0] + " " + JoinSpaces(words[1..]);
      assert s[|words[0]|] == ' ';
    }
  }

  /** When the stripped text holds a space, the tokens are the words of the
      text and the text is those words with whitespace runs of any length and
      kind around and between them. */
  lemma {:induction false} PartsLayout(value: string)
    requires ' ' in Strip(value)
    ensures Parts(value) == SplitWhitespace(value)
    ensures Layout(Gaps(value), Parts(value))
    ensures value == Interleave(Gaps(value), Parts(value))
  {
    SplitStrip(value);
    SplitWhitespaceGaps(value);
  }

  /** Conversely, words laid out with whitespace gaps are the tokens, once the
      stripped text holds a space. */
  lemma {:induction false} PartsOfLayout(gaps: seq<string>, words: seq<string>)
    requires Layout(gaps, words) && ' ' in Strip(Interleave(gaps, words))
    ensures Parts(Interleave(gaps, words)) == words
  {
    SplitStrip(Interleave(gaps, words));
    SplitInterleave(gaps, words);
  }

  /** A join of words neither starts nor ends with whitespace. */
  lemma {:induction false} JoinSpacesEnds(words: seq<string>)
    requires |words| > 0
    requires forall i :: 0 <= i < |words| ==> words[i] != [] && NoSpace(words[i])
    ensures var s := JoinSpaces(words); s != [] && !IsSpace(s[0]) && !IsSpace(s[|s| - 1])
    decreases |words|
  {
    if |words| > 1 {
      JoinSpacesEnds(words[1..]);
      var t := JoinSpaces(words[1..]);
      var s := words[0] + " " + t;
      assert s[0] == words[0][0];
      assert s[|s| - 1] == t[|t| - 1];
    } else {
      assert JoinSpaces(words) == words[0];
      assert !IsSpace(words[0][|words[0]| - 1]);
    }
  }

  /** There is always at least one token. */
  lemma {:induction false} PartsNonEmpty(value: string)
    ensures |Parts(value)| > 0
  {
    var v := Strip(value);
    if ' ' in v {
      assert LStrip(v) == v;
    }
  }

  /** Reading back formatted values in their own base gives the values. */
  lemma {:induction false} ParseAllFormatted(vals: seq<int>, t: NumType)
    ensures ParseAll(FormatAll(vals, t), t) == Some(vals)
  {
    var out := FormatAll(vals, t);
    FormatAllAt(vals, t);
    forall k | 0 <= k < |out|
      ensures ParseInt(out[k], t) == Some(vals[k])
    {
      FormatParses(vals[k], t, Width(t));
    }
    ParseAllOf(out, t, vals);
  }

  /** Per-byte output of base B read back in base B and written in base A. */
  lemma {:induction false} PerByteBack(vals: seq<int>, ta: NumType, tb: NumType)
    requires |vals| > 0
    ensures ConvertPerByte(JoinSpaces(FormatAll(vals, tb)), ta, tb) == Some(JoinSpaces(FormatAll(vals, ta)))
  {
    var toks := FormatAll(vals, tb);
    FormatAllAreWords(vals, tb);
    PartsOfJoin(toks);
    ParseAllFormatted(vals, tb);
  }

  /** Converting per byte from A to B and back gives each token's value in
      base A with A's per-byte padding, in the original order. */
  lemma {:induction false} PerByteRoundTrip(value: string, ta: NumType, tb: NumType)
    requires ConvertNum(value, Name(tb), Name(ta), true).Some?
    ensures ParseAll(Parts(value), ta).Some?
    ensures var s := ConvertNum(value, Name(tb), Name(ta), true).value;
      ConvertNum(s, Name(ta), Name(tb), true) == Some(JoinSpaces(FormatAll(ParseAll(Parts(value), ta).value, ta)))
  {
    NumTypeTable(ta, tb);
    NumTypeTable(tb, ta);
    assert ConvertNum(value, Name(tb), Name(ta), true) == ConvertPerByte(value, tb, ta);
    var vals := ParseAll(Parts(value), ta).value;
    var toks := FormatAll(vals, tb);
    ParseAllValues(Parts(value), ta);
    PartsNonEmpty(value);
    PerByteBack(vals, ta, tb);
    assert ConvertNum(JoinSpaces(toks), Name(ta), Name(tb), true) == ConvertPerByte(JoinSpaces(toks), ta, tb);
  }

  // ---------------------------------------------------------------------
  // Failures
  // ---------------------------------------------------------------------

  /** A type name outside `valid_num_types` gives None, in either position. */
  lemma {:induction false} UnknownTypeFails(value: string, typeOut: string, typeIn: string, perByte: bool)
    requires NumTypeOf(typeOut).None? || NumTypeOf(typeIn).None?
    ensures ConvertNum(value, typeOut, typeIn, perByte) == None
  {
  }

  /** A per-byte token that holds a character no numeral of the input base can
      hold makes the whole conversion fail, with no partial output. */
  lemma {:induction false} PerByteBadToken(value: string, typeOut: string, tin: NumType, k: nat, i: nat)
    requires k < |Parts(value)| && i < |IntStrip(Parts(value)[k])|
    requires var c := IntStrip(Parts(value)[k])[i];
      DigitValue(c) >= Base(tin) && c != '+' && c != '-' && c != '_' && !(c in "bBoOxX")
    ensures ConvertNum(value, typeOut, Name(tin), true) == None
  {
    NumTypeTable(tin, tin);
    ParseIntRejects(Parts(value)[k], tin, i);
    ParseAllValues(Parts(value), tin);
  }

  /** The same in whole-value mode. */
  lemma {:induction false} WholeValueBadChar(value: string, typeOut: string, tin: NumType, i: nat)
    requires i < |IntStrip(value)|
    requires var c := IntStrip(value)[i];
      DigitValue(c) >= Base(tin) && c != '+' && c != '-' && c != '_' && !(c in "bBoOxX")
    ensures ConvertNum(value, typeOut, Name(tin), false) == None
  {
    NumTypeTable(tin, tin);
    ParseIntRejects(value, tin, i);
  }
}
