/**
 * Digit strings in a base from 2 to 36, read and written the way Python's
 * `int(s, base)` and `format(n, spec)` do for ASCII digits: letters of
 * either case stand for 10 to 35 on input, lower-case letters are emitted.
 */
module Numerals {

  /** The value Python gives an ASCII digit character; 36 for anything that is
      not a digit in any base. */
  function DigitValue(c: char): (d: nat)
    ensures d <= 36
  {
    if '0' <= c <= '9' then c as int - '0' as int
    else if 'a' <= c <= 'z' then c as int - 'a' as int + 10
    else if 'A' <= c <= 'Z' then c as int - 'A' as int + 10
    else 36
  }

  /** The string with every underscore taken out: Python allows single
      underscores between the digits of a numeral (PEP 515). */
  function WithoutUnderscores(s: string): string {
    if s == [] then [] else (if s[0] == '_' then [] else [s[0]]) + WithoutUnderscores(s[1..])
  }

  /** Dropping underscores leaves none, and changes nothing in a text without them. */
  lemma {:induction false} WithoutUnderscoresDrops(s: string)
    ensures forall i :: 0 <= i < |WithoutUnderscores(s)| ==> WithoutUnderscores(s)[i] != '_'
    ensures (forall i :: 0 <= i < |s| ==> s[i] != '_') ==> WithoutUnderscores(s) == s
    decreases |s|
  {
    if s != [] {
      WithoutUnderscoresDrops(s[1..]);
      assert forall i :: 1 <= i < |s| ==> s[1..][i - 1] == s[i];
    }
  }

  /** Dropping underscores distributes over concatenation. */
  lemma {:induction false} WithoutUnderscoresAppend(a: string, b: string)
    ensures WithoutUnderscores(a + b) == WithoutUnderscores(a) + WithoutUnderscores(b)
    decreases |a|
  {
    if a != [] {
      assert (a + b)[1..] == a[1..] + b;
      WithoutUnderscoresAppend(a[1..], b);
    } else {
      assert a + b == b;
    }
  }

  /** A non-empty string of digits of `base`. */
  predicate IsNumeral(s: string, base: nat) {
    |s| > 0 && forall i :: 0 <= i < |s| ==> DigitValue(s[i]) < base
  }

  /** The value of a digit string, most significant digit first. */
  function ValueOf(s: string, base: nat): nat {
    if s == [] then 0 else ValueOf(s[..|s| - 1], base) * base + DigitValue(s[|s| - 1])
  }

  /** The lower-case digit character for `d`. */
  function DigitChar(d: nat): (c: char)
    requires d < 36
    ensures DigitValue(c) == d
    ensures !('A' <= c <= 'Z')
  {
    if d < 10 then ('0' as int + d) as char else ('a' as int + d - 10) as char
  }

  /** The canonical numeral of `n` in `base`: most significant digit first. */
  function ToDigits(n: nat, base: nat): (s: string)
    requires 2 <= base <= 36
    ensures |s| > 0
    decreases n
  {
    if n < base then [DigitChar(n)] else ToDigits(n / base, base) + [DigitChar(n % base)]
  }

  /** The canonical numeral is a numeral of the base in lower-case letters
      with no prefix and no leading zero (the single digit "0" for zero). */
  lemma {:induction false} ToDigitsCanonical(n: nat, base: nat)
    requires 2 <= base <= 36
    ensures var s := ToDigits(n, base);
      && IsNumeral(s, base)
      && (s[0] == '0' ==> s == "0")
      && (forall i :: 0 <= i < |s| ==> !('A' <= s[i] <= 'Z'))
    decreases n
  {
    DivMod(n, base);
    if n >= base {
      ToDigitsCanonical(n / base, base);
      var p := ToDigits(n / base, base);
      assert p[0] != '0';
      assert ToDigits(n, base)[0] == p[0];
    }
  }

  /** `k` zero digits. */
  function Zeros(k: nat): (z: string)
    ensures |z| == k && forall i :: 0 <= i < k ==> z[i] == '0'
  {
    if k == 0 then [] else ['0'] + Zeros(k - 1)
  }

  /** `s` padded on the left with '0' up to `width` characters; never truncated. */
  function ZeroPad(s: string, width: nat): (r: string)
    ensures |r| == if |s| < width then width else |s|
    ensures r[|r| - |s|..] == s
    ensures forall i :: 0 <= i < |r| - |s| ==> r[i] == '0'
  {
    if |s| < width then Zeros(width - |s|) + s else s
  }

  /** Reading back the canonical numeral gives the number. */
  lemma {:induction false} ValueOfToDigits(n: nat, base: nat)
    requires 2 <= base <= 36
    ensures ValueOf(ToDigits(n, base), base) == n
    decreases n
  {
    var s := ToDigits(n, base);
    if n >= base {
      DivMod(n, base);
      ValueOfToDigits(n / base, base);
      assert s[..|s| - 1] == ToDigits(n / base, base);
    }
  }

  /** The canonical numeral of the value of a numeral without leading zeros is
      that numeral itself, up to the case of its letters. */
  lemma {:induction false} ToDigitsOfValue(s: string, base: nat)
    requires 2 <= base <= 36 && IsNumeral(s, base)
    requires s[0] == '0' ==> s == "0"
    requires forall i :: 0 <= i < |s| ==> !('A' <= s[i] <= 'Z')
    ensures ToDigits(ValueOf(s, base), base) == s
    decreases |s|
  {
    var c := s[|s| - 1];
    LowerDigitChar(c, base);
    if |s| == 1 {
      assert s == [c];
      OneDigit(c, base);
    } else {
      var init := s[..|s| - 1];
      InitCanonical(s, base);
      ToDigitsOfValue(init, base);
      AppendDigit(init, c, base);
      assert s == init + [c];
    }
  }

  /** One more digit after a canonical numeral of a positive number. */
  lemma {:induction false} AppendDigit(init: string, c: char, base: nat)
    requires 2 <= base <= 36 && IsNumeral(init, base) && init[0] != '0'
    requires DigitValue(c) < base && DigitChar(DigitValue(c)) == c
    requires ToDigits(ValueOf(init, base), base) == init
    ensures ToDigits(ValueOf(init + [c], base), base) == init + [c]
  {
    ValueOfPositive(init, base);
    ValueOfSnoc(init, c, base);
    ToDigitsStep(ValueOf(init, base), base, DigitValue(c));
  }

  lemma {:induction false} OneDigit(c: char, base: nat)
    requires 2 <= base <= 36 && DigitValue(c) < base && DigitChar(DigitValue(c)) == c
    ensures ValueOf([c], base) == DigitValue(c) && ToDigits(DigitValue(c), base) == [c]
  {
    assert [c][..0] == [];
  }

  /** Dropping the last digit of a canonical numeral of two or more digits
      leaves a canonical numeral. */
  lemma {:induction false} InitCanonical(s: string, base: nat)
    requires 2 <= base <= 36 && IsNumeral(s, base) && |s| >= 2
    requires s[0] == '0' ==> s == "0"
    requires forall i :: 0 <= i < |s| ==> !('A' <= s[i] <= 'Z')
    ensures var init := s[..|s| - 1];
      && IsNumeral(init, base) && init[0] != '0'
      && (forall i :: 0 <= i < |init| ==> !('A' <= init[i] <= 'Z'))
  {
  }

  lemma {:induction false} ValueOfSnoc(init: string, c: char, base: nat)
    requires forall i :: 0 <= i < |init| ==> DigitValue(init[i]) < base
    requires DigitValue(c) < base
    ensures forall i :: 0 <= i < |init + [c]| ==> DigitValue((init + [c])[i]) < base
    ensures ValueOf(init + [c], base) == ValueOf(init, base) * base + DigitValue(c)
  {
    assert (init + [c])[..|init|] == init;
  }

  /** Appending a digit to a positive number's numeral. */
  lemma {:induction false} ToDigitsStep(v: nat, base: nat, d: nat)
    requires 2 <= base <= 36 && v > 0 && d < base
    ensures ToDigits(v * base + d, base) == ToDigits(v, base) + [DigitChar(d)]
  {
    MulDiv(v, base, d);
    MulLe(1, v, base);
  }

  lemma {:induction false} DivMod(n: nat, b: nat)
    requires b >= 2
    ensures n == (n / b) * b + n % b && 0 <= n % b < b
    ensures n >= b ==> 1 <= n / b < n
  {
  }

  lemma {:induction false} MulLe(x: nat, y: nat, b: nat)
    requires x <= y
    ensures x * b <= y * b
    ensures (x + 1) * b == x * b + b
  {
    assert y * b == x * b + (y - x) * b;
  }

  lemma {:induction false} MulDiv(v: nat, b: nat, d: nat)
    requires b >= 2 && d < b
    ensures (v * b + d) / b == v && (v * b + d) % b == d
  {
    var n := v * b + d;
    DivMod(n, b);
    var q, r := n / b, n % b;
    assert q * b - v * b == (q - v) * b;
    assert (q - v) * b == d - r;
    if q > v {
      MulLe(1, q - v, b);
      assert false;
    } else if q < v {
      MulLe(1, v - q, b);
      assert false;
    }
  }

  lemma {:induction false} LowerDigitChar(c: char, base: nat)
    requires base <= 36 && DigitValue(c) < base && !('A' <= c <= 'Z')
    ensures DigitChar(DigitValue(c)) == c
  {
  }

  lemma {:induction false} ValueOfPositive(s: string, base: nat)
    requires 2 <= base && IsNumeral(s, base) && s[0] != '0'
    ensures ValueOf(s, base) > 0
    decreases |s|
  {
    if |s| > 1 {
      var init := s[..|s| - 1];
      assert init[0] == s[0];
      assert IsNumeral(init, base);
      ValueOfPositive(init, base);
      assert ValueOf(s, base) == ValueOf(init, base) * base + DigitValue(s[|s| - 1]);
      MulLe(1, ValueOf(init, base), base);
    } else {
      assert DigitValue(s[0]) > 0;
    }
  }

  /** A leading zero does not change the value. */
  lemma {:induction false} ValueOfLeadingZero(s: string, base: nat)
    requires base >= 1
    requires forall i :: 0 <= i < |s| ==> DigitValue(s[i]) < base
    ensures ValueOf(['0'] + s, base) == ValueOf(s, base)
    decreases |s|
  {
    if s != [] {
      assert (['0'] + s)[..|s|] == ['0'] + s[..|s| - 1];
      ValueOfLeadingZero(s[..|s| - 1], base);
    }
  }

  /** Zero padding does not change the value. */
  lemma {:induction false} ValueOfZeroPad(s: string, base: nat, width: nat)
    requires base >= 1
    requires forall i :: 0 <= i < |s| ==> DigitValue(s[i]) < base
    ensures forall i :: 0 <= i < |ZeroPad(s, width)| ==> DigitValue(ZeroPad(s, width)[i]) < base
    ensures ValueOf(ZeroPad(s, width), base) == ValueOf(s, base)
  {
    if |s| < width {
      ValueOfZeros(width - |s|, s, base);
      assert ZeroPad(s, width) == Zeros(width - |s|) + s;
    }
  }

  lemma {:induction false} ValueOfZeros(k: nat, s: string, base: nat)
    requires base >= 1
    requires forall i :: 0 <= i < |s| ==> DigitValue(s[i]) < base
    ensures ValueOf(Zeros(k) + s, base) == ValueOf(s, base)
    decreases k
  {
    if k > 0 {
      var z := Zeros(k - 1) + s;
      assert Zeros(k) + s == ['0'] + z;
      ValueOfZeros(k - 1, s, base);
      assert forall i :: 0 <= i < |z| ==> DigitValue(z[i]) < base by {
        forall i | 0 <= i < |z| ensures DigitValue(z[i]) < base {
          if i >= k - 1 {
            assert z[i] == s[i - (k - 1)];
          }
        }
      }
      ValueOfLeadingZero(z, base);
    } else {
      assert Zeros(k) + s == s;
    }
  }
}
