/**
 * `convertnum` on a few sample calls: a per-byte hex-to-binary
 * conversion, a whole-value decimal-to-hex one, a value that needs more
 * digits than the minimum width, and an unknown type name. Beside them:
 * blanks around a whole value, a character `strip` removes but `int` does
 * not, and per-byte tokens separated by mixed whitespace.
 *
 * Each fact about a literal text gets a lemma of its own, and the generic
 * helpers below chain them, so the verifier never evaluates a whole call
 * on literals at once.
 */
module NumExamples {
  import opened PyStrings
  import opened Numerals
  import opened Nodes
  import opened NumConvert

  // ---------------------------------------------------------------------
  // Generic steps
  // ---------------------------------------------------------------------

  /** Two tokens that each read as a number give the two values in order. */
  lemma {:induction false} ParsePair(a: string, b: string, t: NumType, x: int, y: int)
    requires ParseInt(a, t) == Some(x) && ParseInt(b, t) == Some(y)
    ensures ParseAll([a, b], t) == Some([x, y])
  {
    var parts := [a, b];
    assert parts[..0] == [] && parts[0] == a && parts[1] == b;
    assert ParseAll(parts[..0], t) == Some([]);
    ParseAllStep(parts, 0, t, []);
    assert [] + [x] == [x];
    assert parts[..1] == [a];
    ParseAllStep(parts, 1, t, [x]);
    assert parts[..2] == parts && [x] + [y] == [x, y];
  }

  /** A single token that reads as a number gives that one value. */
  lemma {:induction false} ParseSingle(a: string, t: NumType, x: int)
    requires ParseInt(a, t) == Some(x)
    ensures ParseAll([a], t) == Some([x])
  {
    ParseAllValues([a], t);
    assert ParseAll([a], t).value == [x];
  }

  /** Two values formatted as bytes, in order. */
  lemma {:induction false} FormatPair(x: int, y: int, t: NumType)
    ensures FormatAll([x, y], t) == [Format(x, t, Width(t)), Format(y, t, Width(t))]
  {
    assert [x, y][..1] == [x];
    assert [x][..0] == [];
  }

  /** A per-byte conversion is the join of the formatted token values. */
  lemma {:induction false} PerByteOf(value: string, tout: NumType, tin: NumType, vals: seq<int>, out: seq<string>, r: string)
    requires ParseAll(Parts(value), tin) == Some(vals)
    requires FormatAll(vals, tout) == out
    requires JoinSpaces(out) == r
    ensures ConvertNum(value, Name(tout), Name(tin), true) == Some(r)
  {
    NumTypeTable(tout, tin);
    NumTypeTable(tin, tout);
  }

  /** A whole-value conversion is the formatted value of the one integer. */
  lemma {:induction false} WholeOf(value: string, tout: NumType, tin: NumType, n: int, r: string)
    requires ParseInt(value, tin) == Some(n)
    requires Format(n, tout, 0) == r
    ensures ConvertNum(value, Name(tout), Name(tin), false) == Some(r)
  {
    NumTypeTable(tout, tin);
    NumTypeTable(tin, tout);
  }

  // ---------------------------------------------------------------------
  // Formatting
  // ---------------------------------------------------------------------

  /** `ff` is the canonical hex numeral of 255. */
  lemma {:induction false} Hex255()
    ensures Format(255, Hex, 0) == "ff"
  {
    assert ToDigits(255, 16) == "ff";
  }

  /** `11111111` is 255 in eight binary digits. */
  lemma {:induction false} Bin255()
    ensures Format(255, Bin, 8) == "11111111"
  {
    assert ToDigits(255, 2) == "11111111";
  }

  /** 10 in eight binary digits is `1010` after four zeros. */
  lemma {:induction false} Bin10()
    ensures Format(10, Bin, 8) == "00001010"
  {
    assert ToDigits(10, 2) == "1010";
    assert Zeros(4) == "0000";
  }

  /** 256 needs three hex digits: the width of two is a minimum, so nothing is cut. */
  lemma {:induction false} Hex256()
    ensures Format(256, Hex, 2) == "100"
  {
    assert ToDigits(256, 16) == "100";
  }

  // ---------------------------------------------------------------------
  // Whole calls
  // ---------------------------------------------------------------------

  /** `255` reads in decimal as 255. */
  lemma {:induction false} Dec255()
    ensures ParseInt("255", Dec) == Some(255)
  {
    assert ValueOf("255", 10) == 255 by {
      assert "255"[..2] == "25" && "25"[..1] == "2" && "2"[..0] == [];
    }
    ParseNumeral("255", Dec);
  }

  /** `convertnum("255", "hex", "dec", False)` is `"ff"`. */
  lemma {:induction false} WholeDecToHex()
    ensures ConvertNum("255", "hex", "dec", false) == Some("ff")
  {
    Dec255();
    Hex255();
    WholeOf("255", Hex, Dec, 255, "ff");
  }

  /** The two tokens of `FF 0A`, read in hex, are 255 and 10. */
  lemma {:induction false} HexTokens()
    ensures Parts("FF 0A") == ["FF", "0A"]
    ensures ParseAll(Parts("FF 0A"), Hex) == Some([255, 10])
  {
    var words := ["FF", "0A"];
    assert JoinSpaces(words) == "FF 0A";
    assert forall i :: 0 <= i < |words| ==> words[i] != [] && NoSpace(words[i]);
    PartsOfJoin(words);
    HexFF();
    Hex0A();
    ParsePair("FF", "0A", Hex, 255, 10);
  }

  /** `FF` reads in hex as 255. */
  lemma {:induction false} HexFF()
    ensures ParseInt("FF", Hex) == Some(255)
  {
    assert ValueOf("FF", 16) == 255 by {
      assert "FF"[..1] == "F" && "F"[..0] == [];
    }
    ParseNumeral("FF", Hex);
  }

  /** `0A` reads in hex as 10. */
  lemma {:induction false} Hex0A()
    ensures ParseInt("0A", Hex) == Some(10)
  {
    assert ValueOf("0A", 16) == 10 by {
      assert "0A"[..1] == "0" && "0"[..0] == [];
    }
    ParseNumeral("0A", Hex);
  }

  /** 255 and 10 as binary bytes are `11111111` and `00001010`. */
  lemma {:induction false} BinBytes()
    ensures FormatAll([255, 10], Bin) == ["11111111", "00001010"]
  {
    FormatPair(255, 10, Bin);
    Bin255();
    Bin10();
  }

  /** Two binary bytes joined by one space. */
  lemma {:induction false} JoinBinBytes()
    ensures JoinSpaces(["11111111", "00001010"]) == "11111111 00001010"
  {
  }

  /** `convertnum("FF 0A", "bin", "hex", True)` is `"11111111 00001010"`. */
  lemma {:induction false} PerByteHexToBin()
    ensures ConvertNum("FF 0A", "bin", "hex", true) == Some("11111111 00001010")
  {
    HexTokens();
    BinBytes();
    JoinBinBytes();
    PerByteOf("FF 0A", Bin, Hex, [255, 10], ["11111111", "00001010"], "11111111 00001010");
  }

  /** The one token of `256`, read in decimal, is 256. */
  lemma {:induction false} DecToken()
    ensures ParseAll(Parts("256"), Dec) == Some([256])
  {
    assert "256" != [] && NoSpace("256");
    PartsOfWord("256");
    assert ValueOf("256", 10) == 256 by {
      assert "256"[..2] == "25" && "25"[..1] == "2" && "2"[..0] == [];
    }
    ParseNumeral("256", Dec);
    ParseSingle("256", Dec, 256);
  }

  /** 256 as a hex byte keeps all three digits. */
  lemma {:induction false} HexWideByte()
    ensures FormatAll([256], Hex) == ["100"]
  {
    assert [256][..0] == [];
    Hex256();
  }

  /** `convertnum("256", "hex", "dec", True)` is `"100"`, not cut to two digits. */
  lemma {:induction false} PerByteNoTruncation()
    ensures ConvertNum("256", "hex", "dec", true) == Some("100")
  {
    DecToken();
    HexWideByte();
    PerByteOf("256", Hex, Dec, [256], ["100"], "100");
  }

  /** `int` skips blanks around the number:
      `convertnum(" \t255\n", "hex", "dec", False)` is `"ff"`. */
  lemma {:induction false} WholeBlanksSkipped()
    ensures ConvertNum(" \t255\n", "hex", "dec", false) == Some("ff")
  {
    assert " \t255\n" == " \t" + "255" + "\n";
    ParseIntBlanks(" \t", "255", "\n", Dec);
    Dec255();
    Hex255();
    WholeOf(" \t255\n", Hex, Dec, 255, "ff");
  }

  /** `\x1c` is whitespace to `str.isspace` but not a blank `int` skips:
      `convertnum("\x1c255", "hex", "dec", False)` gives no output. */
  lemma {:induction false} WholeFileSeparator()
    ensures ConvertNum("\U{1C}255", "hex", "dec", false) == None
  {
    var s := "\U{1C}255";
    assert IsSpace(s[0]) && !IsIntSpace(s[0]) && !IsIntSpace(s[|s| - 1]);
    IntStripUnchanged(s);
    assert DigitValue(s[0]) >= Base(Dec);
    WholeValueBadChar(s, "hex", Dec, 0);
  }

  /** Per-byte tokens may be separated by any run of whitespace:
      `"FF \t 0A"` has the tokens `FF` and `0A`. */
  lemma {:induction false} MixedGapTokens()
    ensures Parts("FF \t 0A") == ["FF", "0A"]
  {
    MixedGapLayout();
    assert ' ' in Strip("FF \t 0A") by {
      StripUnchanged("FF \t 0A");
      assert "FF \t 0A"[2] == ' ';
    }
    PartsOfLayout(["", " \t ", ""], ["FF", "0A"]);
  }

  /** `"FF \t 0A"` is the words `FF` and `0A` with the gap `" \t "` between them. */
  lemma {:induction false} MixedGapLayout()
    ensures Layout(["", " \t ", ""], ["FF", "0A"])
    ensures Interleave(["", " \t ", ""], ["FF", "0A"]) == "FF \t 0A"
  {
    var gaps, words := ["", " \t ", ""], ["FF", "0A"];
    assert words[1..] == ["0A"] && gaps[1..] == [" \t ", ""];
    assert Interleave(gaps[1..][1..], words[1..][1..]) == "";
  }

  /** `convertnum("FF \t 0A", "bin", "hex", True)` is `"11111111 00001010"`,
      as with a single space. */
  lemma {:induction false} PerByteMixedGaps()
    ensures ConvertNum("FF \t 0A", "bin", "hex", true) == Some("11111111 00001010")
  {
    MixedGapTokens();
    HexTokens();
    BinBytes();
    JoinBinBytes();
    PerByteOf("FF \t 0A", Bin, Hex, [255, 10], ["11111111", "00001010"], "11111111 00001010");
  }

  /** `convertnum("1", "dec", "qux", False)`: no such type, no output. */
  lemma {:induction false} UnknownTypeName()
    ensures ConvertNum("1", "dec", "qux", false) == None
  {
    assert NumTypeOf("qux") == None by {
      assert "qux"[0] == 'q' && "bin"[0] == 'b' && "oct"[0] == 'o' && "dec"[0] == 'd' && "hex"[0] == 'h';
    }
    UnknownTypeFails("1", "dec", "qux", false);
  }
}
