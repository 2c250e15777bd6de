# data_decoder core in Dafny

This project models the three algorithms at the centre of `data_decoder.py`.
They are the parts of the program that do not hand the work to a library.

- `parse_value` is the scalar normaliser. It turns one YAML token into `None`, a
  bool, an int, a float or a string. This is module `ScalarValue`, with the Python
  string primitives it uses in `PyStrings`, the decoded tree in `Nodes` and the
  digit arithmetic in `Numerals`.
- `decode_yaml` is the indentation-driven decoder. It keeps a stack of
  `(indent, container)` frames and rebinds the newest empty-dict placeholder to a
  list when the first `- ` item arrives.
  - Module `YamlDecoder` holds the functional specification: `Step`, `Run`,
    `Decode` and `Tree`.
  - The same module holds the loop as methods proved against that specification:
    `DecodeYaml`, `DecodeLine`, `DecodeItem`, `DecodeKey`, `PopFrames` and
    `FindNewestEmpty`.
  - It also holds the invariant `Valid` that every line keeps.
  - `YamlFacts` states general properties of the decoder. `YamlExamples` works
    whole documents through it.
- `convertnum` converts numerals between the four bases of `valid_num_types`, in
  whole-value or per-byte mode. This is module `NumConvert`, with sample
  calls worked through in `NumExamples`. Python's `int(s, base)` and
  `format(n, spec)` are modelled on ASCII text: sign, base prefix, single
  underscores between digits, surrounding blanks, zero padding after the
  sign.

Python's dict and list objects are shared by reference. The decoder's stack
holds the same objects that the root dict reaches. The model keeps every
container in an arena (`seq<Container>`) and refers to containers by index, so
that sharing is explicit. `Tree` reads the finished arena back into a `Node`.
Where the source raises an exception, the model returns a `Failure` that names
it. These are:

- `NoGrandparent`: `stack[-2]` on a one-frame stack, line 324.
- `GrandparentIsList`: `container[k]` with `k` a dict, lines 325-326.
- `KeyOnList`: `parent[key]` with `parent` a list, lines 351 and 354.

`convertnum` returns `None` where the source prints a message and returns `None`.

Some behaviour of the code is easy to overlook. The model keeps it as the
code has it:

- **Decoder exceptions.** The decoder does not always succeed. It raises the
  three exceptions above, and on those inputs the whole decode is a `Failure`.
  `DecodeTopLevelItem`, `DecodeKeyOnList` and `DecodeItemUnderListedDict` show
  each one.
- **Lines of neither kind.** A line that is neither an item nor a key line is
  not skipped. The code pops the stack before it looks at the line's kind, so
  a line such as `-x` still closes the deeper frames (`YamlFacts.ApplyOther`).
  Under `a:` / `  b:` / `  x` / `    c: 1` the key `c` goes into `a`'s dict
  beside `b` (`DecodeOtherLinePops`); without the `x` line it goes into `b`'s
  dict (`DecodeWithoutOtherLine`).
- **Which key gets the list.** The code scans the grandparent's keys from the
  last one back, in dict order, and a reassigned key keeps its first position.
  So the list can go to a different key from the one whose dict is on the
  stack, as `DecodeReassignedKey` shows. It can also go nowhere, as
  `DecodeUnattachedList` shows.
- **Per-byte tokens.** Per-byte mode splits on whitespace only when the
  stripped text contains a space character (line 381). A text whose only inner
  whitespace is a tab is a single token. When it does split, any run of
  whitespace separates two tokens (`PartsLayout`, `PerByteMixedGaps`).
- **No byte range.** Per-byte values are not limited to bytes. The width is a
  minimum (`PerByteNoTruncation`), and negative values keep their sign.
- **What `int` accepts.** Whole-value mode accepts everything Python's `int`
  accepts in the input base: a sign, the base prefix, underscores, and blanks
  at either end. The blanks `int` skips are the space and `\t`, `\n`, `\v`,
  `\f`, `\r` (`IsIntSpace`). That is fewer characters than `str.strip`
  removes: `\x1c` to `\x1f` count as whitespace for `strip` and `split` but not
  for `int` (`WholeFileSeparator`).

## Model

| member | source | states |
|---|---|---|
| NumConvert.NumTypeOf | data_decoder.py:30-35 | a name maps to a type exactly when it is one of the four table keys, and the type found carries that name |
| NumConvert.NumTypeTable | data_decoder.py:30-35 | each of the four types is found under its own name, and distinct types have distinct bases |
| NumConvert.Base | data_decoder.py:30-35 | every table base lies between 2 and 16 |
| NumConvert.ConvertNumber | data_decoder.py:359-405 | the method computes `ConvertNum`: None for an unknown type name, otherwise the whole-value or per-byte result |
| NumConvert.ConvertNum | data_decoder.py:361-363 | a result exists only when both type names are in the table |
| NumConvert.UnknownTypeFails | data_decoder.py:361-363 | an output or input type name outside the table gives no output, in either mode |
| NumConvert.ConvertBytes | data_decoder.py:381-401 | the per-byte branch equals `ConvertPerByte`: the tokens' values, each formatted, joined by single spaces |
| NumConvert.ParseTokens | data_decoder.py:382-393 | the loop over the tokens stops with None at the first token `int` rejects, else returns every value in order (`ParseAll`) |
| NumConvert.FormatTokens | data_decoder.py:396-399 | the loop formats every value with the output type's per-byte spec, in order (`FormatAll`) |
| NumConvert.ParseAllValues | data_decoder.py:383-391 | the token loop succeeds iff every token reads; then it has one value per token and the k-th value is the k-th token's |
| NumConvert.ParseAllStep | data_decoder.py:383-391 | one more token either stops the loop or appends exactly that token's value |
| NumConvert.ParseAllStops | data_decoder.py:383-391 | once a prefix of the tokens fails, the whole loop fails |
| NumConvert.ParseAllSome | data_decoder.py:383-391 | a successful read has one value per token, each the value of its token |
| NumConvert.ParseAllEvery | data_decoder.py:383-391 | if every token reads, the loop succeeds |
| NumConvert.ParseAllOf | data_decoder.py:383-391 | tokens that read as the given values, one each, give exactly those values |
| NumConvert.ReadAllSome | data_decoder.py:383-391 | for any reader, a successful fold has one value per token, each the reader's value of its token |
| NumConvert.ReadAllEvery | data_decoder.py:383-391 | for any reader that accepts every token, the fold succeeds |
| NumConvert.ReadAllStops | data_decoder.py:383-391 | for any reader, a failing prefix makes the whole fold fail |
| NumConvert.FormatAllAt | data_decoder.py:396-399 | the k-th output token is the k-th value under the per-byte spec, with as many tokens as values |
| NumConvert.FormatAllSnoc | data_decoder.py:396-399 | formatting one more value appends exactly its formatted text |
| NumConvert.FormatAllAreWords | data_decoder.py:396-399 | every formatted token is non-empty and free of whitespace, so the join can be split back |
| NumConvert.ParseBodySyntax | data_decoder.py:369 | `int` accepts the digits after sign and prefix iff they are digits of the base with single underscores only between digits, and the value is that of the digits without underscores |
| NumConvert.ParseBodyAccepts | data_decoder.py:369 | the digit reader succeeds exactly on well-formed digit bodies |
| NumConvert.ParseBodyValue | data_decoder.py:369 | an accepted body's value is the value of its digits with the underscores dropped |
| NumConvert.ParseBodyRejects | data_decoder.py:369 | a character that is neither a digit of the base nor an underscore makes the body unreadable |
| NumConvert.ParseBodyNumeral | data_decoder.py:369 | a plain numeral of the base reads as its value and has no prefix to remove |
| NumConvert.ReadNumeral | data_decoder.py:369 | the digit reader gives a numeral's positional value |
| NumConvert.DigitBodyStep | data_decoder.py:369 | a body ending in a digit is well formed iff the part before its last digit and that digit's underscore is well formed |
| NumConvert.SnocValue | data_decoder.py:369 | one more trailing digit multiplies the value by the base and adds the digit |
| NumConvert.LastNoDigit | data_decoder.py:369 | a body whose last character is no digit of the base is rejected |
| NumConvert.SingleDigit | data_decoder.py:369 | a single digit of the base is a body worth that digit |
| NumConvert.NumeralHasNoPrefix | data_decoder.py:369 | no numeral of a base starts with that base's prefix, because the prefix letter is not one of its digits |
| NumConvert.NumeralIsDigitBody | data_decoder.py:369 | a numeral is a well-formed body with no underscore and no whitespace |
| NumConvert.BodyIsSuffix | data_decoder.py:369 | what `int` reads after sign and prefix is a suffix of the stripped text, and everything before it is a sign, prefix letter, zero or underscore |
| NumConvert.UnsignedIsSuffix | data_decoder.py:369 | removing the sign leaves a suffix, and only a sign was removed |
| NumConvert.PrefixIsDropped | data_decoder.py:369 | removing the prefix leaves a suffix, and only prefix characters were removed |
| NumConvert.ParseIntRejects | data_decoder.py:369 | once the blanks at either end are removed, a character that is no digit of the base, and no sign, underscore or prefix letter, makes `int` fail wherever it stands |
| NumConvert.ParseIntOf | data_decoder.py:369 | once the body after sign and prefix reads as n, `int` gives n, negated after a leading minus |
| NumConvert.ParseInt | data_decoder.py:385-391 | `int(part, base)`: a result needs some text left after the blanks, and a negative result needs a leading minus; `ParseIntOf`, `ParseBodySyntax`, `ParseIntRejects` and `FormatParses` state what it accepts and the value |
| NumConvert.ParseBody | data_decoder.py:369 | no contract of its own: the digit reader after sign and prefix, whose accepted texts and values `ParseBodySyntax` states |
| NumConvert.IntStrip | data_decoder.py:385-391 | no contract of its own: the text `int` reads (here and at line 369) once the blanks it skips are removed at both ends; `IntStripUnchanged`, `IntStripPadded` and `ParseIntBlanks` state which blanks go |
| NumConvert.IntLStrip | data_decoder.py:369 | the text `int` reads starts with no blank, and is no longer than the input |
| NumConvert.IntRStrip | data_decoder.py:369 | the text `int` reads ends with no blank, and is no longer than the input |
| NumConvert.IntStripUnchanged | data_decoder.py:369 | a text with no blank (space, `\t` to `\r`) at either end is read as it stands |
| NumConvert.IntStripPadded | data_decoder.py:369 | blanks on both sides of a word are exactly what `int` skips |
| NumConvert.IntLStripBlanks | data_decoder.py:369 | blanks before a text that starts with no blank are removed |
| NumConvert.IntRStripBlanks | data_decoder.py:369 | blanks after a text that ends with no blank are removed |
| NumConvert.ParseIntBlanks | data_decoder.py:369 | `int` reads a word the same with any blanks it skips around it |
| NumConvert.NumeralText | data_decoder.py:369 | a numeral, with or without a minus sign in front, has no blank for `int` to skip, and only the minus comes off as a sign |
| NumConvert.ParseNumeral | data_decoder.py:369 | a numeral of the base reads as its positional value |
| NumConvert.ParseNegNumeral | data_decoder.py:369 | a minus sign and a numeral read as the negated value |
| NumConvert.ParseMinus | data_decoder.py:369 | a text that is a minus sign and a numeral of value m reads as -m |
| NumConvert.Format | data_decoder.py:398-399 | no contract of its own: `format(n, spec)` (here and at lines 370-375) writes a minus, then the magnitude's lower-case digits zero-padded to width-1; otherwise the digits zero-padded to width; `FormatPlain`, `FormatPadded`, `FormatNegative` and `FormatParses` state it |
| NumConvert.Width | data_decoder.py:398 | no contract of its own: the minimum per-byte widths 8, 3, 0 and 2 of the `08b`, `03o`, `d` and `02x` specs; `FormatPadded` states that a token is that wide or its digits' length, whichever is more |
| NumConvert.FormatPlain | data_decoder.py:370-375 | the plain spec writes a natural number as its canonical numeral (lower-case, no prefix, no leading zero), and this is the only canonical numeral of that value |
| NumConvert.FormatPadded | data_decoder.py:398-399 | a padded natural number is a numeral of the same value, exactly max(width, digits) long, ending in the canonical numeral after zeros only: nothing is cut |
| NumConvert.FormatNegative | data_decoder.py:398-399 | a negative number is a minus sign before its magnitude padded to one less than the width |
| NumConvert.NegativeShape | data_decoder.py:398-399 | a negative number's text is a minus sign and a numeral whose value is the magnitude |
| NumConvert.FormatSigned | data_decoder.py:370-375 | the plain spec on any integer: a canonical numeral of its value, after a minus sign when negative |
| NumConvert.FormatSignedNegative | data_decoder.py:370-375 | the plain spec on a negative integer is a minus sign and the canonical numeral of its magnitude |
| NumConvert.MinusCanonical | data_decoder.py:370-375 | a minus sign before a canonical numeral leaves that numeral after the sign |
| NumConvert.FormatParses | data_decoder.py:369-375 | for every integer, base and width, `int` reads the formatted text back as the integer |
| NumConvert.FormatParsesNatural | data_decoder.py:369-375 | the same for a natural number |
| NumConvert.FormatParsesNegative | data_decoder.py:369-375 | the same for a negative number |
| NumConvert.FormatIsWord | data_decoder.py:398-399 | formatted text is non-empty and contains no whitespace |
| NumConvert.NegativeIsWord | data_decoder.py:398-399 | the same for a negative number |
| NumConvert.PaddedIsWord | data_decoder.py:398-399 | the same for a natural number |
| NumConvert.WholeValueResult | data_decoder.py:368-375 | a whole-value result exists only if the input reads; it is the canonical numeral of that value in the output base, after a minus sign when negative |
| NumConvert.ConvertWhole | data_decoder.py:368-375 | no contract of its own: `int(value, base_in)` written with the plain spec; `WholeValueResult` and `WholeValueRoundTrip` state its result |
| NumConvert.WholeValueRoundTrip | data_decoder.py:368-375 | converting a whole-value result back gives the input's value in canonical form |
| NumConvert.WholeValueRoundTripCanonical | data_decoder.py:368-375 | a canonical numeral converted to another base and back is unchanged |
| NumConvert.WholeValueBadChar | data_decoder.py:368-369 | a character outside the base's digits, signs, underscore and prefix letters makes the whole-value conversion fail |
| NumConvert.PerByteResult | data_decoder.py:381-401 | a per-byte result exists only if every token reads; splitting it gives one token per input token, each the padded format of that token's value |
| NumConvert.ConvertPerByte | data_decoder.py:381-401 | no contract of its own: the tokens read, formatted and joined; `PerByteResult` and `PerByteRoundTrip` state its result |
| NumConvert.ParseAll | data_decoder.py:383-391 | no contract of its own: the token loop as a fold of `int` over the tokens; `ParseAllValues` states its result |
| NumConvert.FormatAll | data_decoder.py:396-399 | one output token per value; `FormatAllAt` states each token |
| NumConvert.PerByteTokens | data_decoder.py:396-401 | splitting the joined output gives back exactly the formatted tokens |
| NumConvert.PerByteBack | data_decoder.py:381-401 | converting per-byte output of a non-empty value list back gives those values padded in the original base |
| NumConvert.PerByteRoundTrip | data_decoder.py:381-401 | converting a per-byte result back gives the input's values padded in the input base |
| NumConvert.PerByteBadToken | data_decoder.py:383-391 | one bad character in one token makes the whole per-byte conversion fail |
| NumConvert.ParseAllFormatted | data_decoder.py:383-399 | reading formatted tokens in the same base gives back the values |
| NumConvert.PartsOfWord | data_decoder.py:381 | a text with no whitespace is one token |
| NumConvert.PartsOfJoin | data_decoder.py:381 | words joined by single spaces split back into those words |
| NumConvert.PartsNonEmpty | data_decoder.py:381 | there is always at least one token, the empty text included |
| NumConvert.Parts | data_decoder.py:381 | no contract of its own: the stripped text split on whitespace when it holds a space, else the stripped text alone; `PartsLayout`, `PartsOfLayout`, `PartsOfWord` and `PartsNonEmpty` state its result |
| NumConvert.PartsLayout | data_decoder.py:381 | when the stripped text holds a space, the tokens are `value.split()`: the text is those non-empty whitespace-free tokens with whitespace runs of any length and kind around them and a non-empty run between every two |
| NumConvert.PartsOfLayout | data_decoder.py:381 | conversely, words laid out with such whitespace runs are the tokens, once the stripped text holds a space |
| NumConvert.JoinSpacesEnds | data_decoder.py:401 | a join of non-empty words neither starts nor ends with whitespace |
| NumConvert.Before | data_decoder.py:369 | the digits before the last one end just before it, or just before its single underscore |
| NumExamples.WholeDecToHex | data_decoder.py:368-375 | `convertnum("255", "hex", "dec", False)` is `"ff"` |
| NumExamples.PerByteHexToBin | data_decoder.py:381-401 | `convertnum("FF 0A", "bin", "hex", True)` is `"11111111 00001010"` |
| NumExamples.PerByteMixedGaps | data_decoder.py:381-401 | `convertnum("FF \t 0A", "bin", "hex", True)` is also `"11111111 00001010"` |
| NumExamples.MixedGapTokens | data_decoder.py:381 | `"FF \t 0A"` has the two tokens `FF` and `0A` |
| NumExamples.MixedGapLayout | data_decoder.py:381 | `"FF \t 0A"` is the words `FF` and `0A` with the whitespace gap `" \t "` between them |
| NumExamples.WholeBlanksSkipped | data_decoder.py:369 | `convertnum(" \t255\n", "hex", "dec", False)` is `"ff"`: `int` skips the blanks |
| NumExamples.WholeFileSeparator | data_decoder.py:369 | `convertnum("\x1c255", "hex", "dec", False)` is `None`: `\x1c` is no blank `int` skips |
| NumExamples.PerByteNoTruncation | data_decoder.py:396-401 | `convertnum("256", "hex", "dec", True)` is `"100"`: the width is a minimum |
| NumExamples.UnknownTypeName | data_decoder.py:361-363 | `convertnum("1", "dec", "qux", False)` has no output |
| NumExamples.HexTokens | data_decoder.py:381-391 | `FF 0A` splits into two tokens that read in hex as 255 and 10 |
| NumExamples.BinBytes | data_decoder.py:396-399 | 255 and 10 as binary bytes are `11111111` and `00001010` |
| NumExamples.DecToken | data_decoder.py:381-391 | `256` is one token that reads in decimal as 256 |
| NumExamples.Hex256 | data_decoder.py:398-399 | 256 with the `02x` spec is `100` |
| NumExamples.Bin10 | data_decoder.py:398-399 | 10 with the `08b` spec is `00001010` |
| NumExamples.Dec255 | data_decoder.py:369 | `int("255", 10)` is 255 |
| NumExamples.PerByteOf | data_decoder.py:381-401 | a per-byte conversion is the join of the formatted token values |
| NumExamples.WholeOf | data_decoder.py:368-375 | a whole-value conversion is the formatted value of the one integer |
| ScalarValue.ParseValue | data_decoder.py:144-169 | the result is a scalar; it is None iff the stripped token is empty or `null` in any case, a bool iff `true`/`false` in any case, an int iff all ASCII digits (with their decimal value), a float iff a non-keyword, non-digit float literal (keeping its text), otherwise a string, unquoted when wrapped in matching quotes |
| ScalarValue.ParseValueStripsFirst | data_decoder.py:145 | surrounding whitespace never changes the result |
| ScalarValue.ParseValueBlank | data_decoder.py:145-148 | an all-whitespace token is None |
| ScalarValue.ParseValueKeywordPadded | data_decoder.py:150-155 | `null`, `true`, `false` in any case and with any surrounding whitespace give None, True, False |
| ScalarValue.KeywordCase | data_decoder.py:150-155 | a token that lower-cases to a keyword gives that keyword's value |
| ScalarValue.IntCase | data_decoder.py:157-158 | an all-digit token is the int of its decimal value |
| ScalarValue.ParseValueOfDecimal | data_decoder.py:157-158 | the decimal numeral of every natural number reads back as that number |
| ScalarValue.ParseValueLeadingZeros | data_decoder.py:157-158 | leading zeros are dropped: `0` before digits gives the digits' value |
| ScalarValue.DigitStringIsNoKeyword | data_decoder.py:150-158 | a digit string is never one of the keywords, so the int branch is reached |
| ScalarValue.ParseValueNegativeIsFloat | data_decoder.py:157-163 | a minus sign before digits fails `isdigit` and is returned as a float, with its text |
| ScalarValue.NegativeNotEarlier | data_decoder.py:145-158 | a minus sign before digits passes through strip, keywords and `isdigit` untouched |
| ScalarValue.NegativeIsFloatLiteral | data_decoder.py:160-161 | a minus sign before digits is a float literal |
| ScalarValue.FloatCase | data_decoder.py:160-161 | a stripped, non-keyword, non-digit float literal is a float of that text |
| ScalarValue.DigitsAreDecimalFloat | data_decoder.py:160-161 | a digit string is also float syntax, and no infinity or nan word |
| ScalarValue.StrCase | data_decoder.py:165-169 | a token that is nothing earlier is a string, unquoted when wrapped in matching quotes |
| ScalarValue.ParseValueDoubleQuoted | data_decoder.py:165-167 | any text in double quotes is that text |
| ScalarValue.ParseValueSingleQuoted | data_decoder.py:165-167 | any text in single quotes is that text |
| ScalarValue.QuotedToken | data_decoder.py:165-167 | a token wrapped in matching quotes is its inner text |
| ScalarValue.QuoteFacts | data_decoder.py:145-163 | a token starting with a quote is no keyword, no digit string and no float literal |
| ScalarValue.QuoteNotFloatSyntax | data_decoder.py:160-161 | text starting with a quote is not float syntax |
| ScalarValue.QuoteStartsWithoutUnderscores | data_decoder.py:160-161 | removing underscores from text starting with a quote still leaves no float syntax |
| ScalarValue.ParseValueMismatchedQuotes | data_decoder.py:165-169 | a token opening with one quote and ending in something else is returned verbatim |
| ScalarValue.ParseValueLoneQuote | data_decoder.py:165-167 | a lone quote character is the empty string, as `value[1:-1]` gives |
| ScalarValue.IsFloatLiteral | data_decoder.py:160-163 | no contract of its own: whether `float(value)` succeeds; `ParseValue`'s float clause, `NegativeIsFloatLiteral`, `DigitsAreDecimalFloat` and `QuoteFacts` state which tokens it accepts |
| ScalarValue.Unquote | data_decoder.py:167 | the text between the first and last characters, empty for a single character |
| ScalarValue.DigitRun | data_decoder.py:157 | the length of the leading run of decimal digits, which the run covers exactly |
| PyStrings.Strip | data_decoder.py:145 | `str.strip()` leaves no whitespace at either end |
| PyStrings.StripEmpty | data_decoder.py:147 | the stripped text is empty iff the text is all whitespace |
| PyStrings.StripIdempotent | data_decoder.py:145 | stripping twice is stripping once |
| PyStrings.StripUnchanged | data_decoder.py:145 | a text with no whitespace at either end is its own strip |
| PyStrings.StripPadded | data_decoder.py:145 | whitespace around a word strips off to the word |
| PyStrings.LStripSuffix | data_decoder.py:309 | `lstrip` removes a prefix, and only whitespace |
| PyStrings.RStripPrefix | data_decoder.py:304 | `rstrip` removes a suffix, and only whitespace |
| PyStrings.LStripSpaces | data_decoder.py:309 | whitespace before a non-space start is removed |
| PyStrings.RStripSpaces | data_decoder.py:304 | whitespace after a non-space end is removed |
| PyStrings.Lower | data_decoder.py:150-155 | `str.lower()` on ASCII: same length, upper-case letters lowered, everything else kept |
| PyStrings.LeadingSpaces | data_decoder.py:308 | the count of leading space characters, exactly |
| PyStrings.LeadingSpacesOf | data_decoder.py:308 | n spaces before text not starting with a space count as indent n |
| PyStrings.BeforeFirst | data_decoder.py:304 | `split("#", 1)[0]` is the prefix before the first `#`, or the whole text without one |
| PyStrings.BeforeFirstAt | data_decoder.py:304 | the text before a `#` that is the first one |
| PyStrings.SplitOnce | data_decoder.py:337 | `split(":", 1)` splits at the first colon: the head has none, and head, colon and tail make the text |
| PyStrings.SplitOnceAt | data_decoder.py:346 | a text with its first colon after `x` splits into `x` and the rest |
| PyStrings.IndexOf | data_decoder.py:304 | the position of the first occurrence, or the length when there is none |
| PyStrings.SplitWhitespace | data_decoder.py:381 | `str.split()` gives non-empty words with no whitespace in them; `SplitWhitespaceGaps` and `SplitInterleave` state that they are the text's maximal whitespace-free runs, in order |
| PyStrings.SplitJoin | data_decoder.py:381 | non-empty space-free words joined by single spaces split back into the same words |
| PyStrings.SplitWhitespaceGaps | data_decoder.py:381 | a text is its words with whitespace gaps: one gap before each word and one after the last, every gap all whitespace, every gap between two words non-empty |
| PyStrings.SplitInterleave | data_decoder.py:381 | conversely, non-empty whitespace-free words laid out with such gaps split back into exactly those words, whatever the gaps' lengths and characters |
| PyStrings.SplitStrip | data_decoder.py:381 | `s.strip().split()` is `s.split()` |
| PyStrings.SplitPadded | data_decoder.py:381 | whitespace added at both ends of a text does not change its split |
| PyStrings.StripParts | data_decoder.py:381 | a text is its strip with whitespace only before and after it |
| PyStrings.LStripSplit | data_decoder.py:381 | `lstrip` cuts a text into a whitespace prefix and the rest |
| PyStrings.SplitAfterSpace | data_decoder.py:381 | a leading space makes no difference to the split |
| PyStrings.JoinSpaces | data_decoder.py:401 | joining no words gives the empty text |
| PyStrings.WordLength | data_decoder.py:381 | the length of the first word, which ends at whitespace or the end |
| PyStrings.WordLengthOf | data_decoder.py:381 | a space-free word followed by whitespace or nothing is a first word of its own length |
| Numerals.ToDigitsCanonical | data_decoder.py:370-375 | a number's digits in a base are a lower-case numeral without a leading zero, except `0` |
| Numerals.ValueOfToDigits | data_decoder.py:369-375 | the digits of n read back as n |
| Numerals.ToDigitsOfValue | data_decoder.py:369-375 | a canonical numeral is the digits of its own value |
| Numerals.ValueOfZeroPad | data_decoder.py:398-399 | zero padding keeps a numeral's value |
| Numerals.ValueOfZeros | data_decoder.py:398-399 | zeros in front of a numeral keep its value |
| Numerals.ValueOfLeadingZero | data_decoder.py:157-158 | one zero in front of a numeral keeps its value |
| Numerals.ValueOfPositive | data_decoder.py:369 | a numeral not starting with zero has a positive value |
| Numerals.ValueOfSnoc | data_decoder.py:369 | a trailing digit multiplies the value by the base and adds the digit |
| Numerals.ToDigitsStep | data_decoder.py:370-375 | the digits of v*b+d are those of v followed by the digit d |
| Numerals.ZeroPad | data_decoder.py:398-399 | padding is max(width, length) long, zeros then the text |
| Numerals.WithoutUnderscoresDrops | data_decoder.py:369 | dropping underscores leaves none, and leaves an underscore-free text unchanged |
| Numerals.WithoutUnderscoresAppend | data_decoder.py:369 | dropping underscores distributes over concatenation |
| Numerals.DigitChar | data_decoder.py:370-375 | the digit character of d has value d and is lower case |
| YamlDecoder.DecodeYaml | data_decoder.py:299-356 | the loop over the lines returns `Decode(lines)`: the root dict read out of the arena, or the exception the source raises |
| YamlDecoder.Decode | data_decoder.py:299-356 | a successful decode is always a dict |
| YamlDecoder.DecodeLine | data_decoder.py:303-354 | one loop iteration is `Step`: read the line, then apply it to the arena and the stack |
| YamlDecoder.ApplyLine | data_decoder.py:305-354 | a read line applied: skip a blank, pop frames, then add an item or a key |
| YamlDecoder.DecodeItem | data_decoder.py:317-342 | the `- ` branch equals `AddItem`: start a list if the parent is no list, then append a one-key dict with a frame, or a scalar |
| YamlDecoder.DecodeStartList | data_decoder.py:320-330 | starting a list equals `StartList`: a new empty list replaces the top frame's container and is bound to the newest grandparent key holding an empty dict |
| YamlDecoder.DecodeKey | data_decoder.py:345-354 | the `key:` branch equals `AddKey`: a placeholder dict with a new frame, or a scalar, or `KeyOnList` on a list |
| YamlDecoder.PopFrames | data_decoder.py:311-312 | the pop loop equals `PopTo` |
| YamlDecoder.PopTo | data_decoder.py:311-312 | popping leaves a non-empty prefix of the stack whose top is shallower than the line, and removes only frames at least as deep |
| YamlDecoder.ParseLine | data_decoder.py:304-348 | no contract of its own: the comment cut, blank test, indent count and item/key test of one line; `YamlFacts.ParseLineBlank`, `ParseLineDropsComment`, `ParseLineIndented`, `ParseLineKey` and `ParseLineItem` state its result |
| YamlDecoder.Step | data_decoder.py:303-354 | no contract of its own: one iteration, `Apply` of the read line; `StepValid` states that it keeps the invariant |
| YamlDecoder.Apply | data_decoder.py:305-354 | no contract of its own: skip a blank, pop, then `AddItem` or `AddKey`; `ApplyValid` and the `YamlFacts.Apply…` lemmas state its effect |
| YamlDecoder.AddItem | data_decoder.py:317-342 | no contract of its own: the `- ` branch after the pops; `AddItemValid`, `YamlFacts.ApplyItemOnList`, `ApplyMapItemOnList`, `FirstItem`, `FirstMapItem` and `ApplyTopLevelItem` state its effect |
| YamlDecoder.AddKey | data_decoder.py:345-354 | no contract of its own: the `key:` branch after the pops; `AddKeyValid`, `YamlFacts.ApplyKeyValue`, `ApplyKeyPlaceholder` and `ApplyKeyOnList` state its effect |
| YamlDecoder.FindNewestEmpty | data_decoder.py:325-328 | the reversed scan equals `NewestEmptyMap` |
| YamlDecoder.IsEmptyMap | data_decoder.py:326 | no contract of its own: `container[k] == {}`, a reference to an empty dict; `NewestEmptyMap`'s contract is stated with it |
| YamlDecoder.ListAppend | data_decoder.py:334-340 | no contract of its own: `parent.append(...)` on the list, at lines 334 and 340; `ApplyItemOnList` and `ApplyMapItemOnList` state its effect |
| YamlDecoder.NewestEmptyMap | data_decoder.py:325-328 | the position found holds an empty dict and no later key does; no position means no key does |
| YamlDecoder.StartList | data_decoder.py:320-330 | a successful start appends one empty list to the arena and makes it the top frame's container, with the same indent |
| YamlDecoder.Initial | data_decoder.py:300-301 | the root dict and the sentinel frame satisfy the invariant |
| YamlDecoder.Run | data_decoder.py:303-354 | every successful run of lines ends in a state that satisfies the invariant |
| YamlDecoder.Tree | data_decoder.py:356 | a container reads out as a dict node iff it is a dict |
| YamlDecoder.TreeEntries | data_decoder.py:356 | a dict reads out with the same keys in the same order |
| YamlDecoder.TreeItems | data_decoder.py:356 | a list reads out with as many items |
| YamlDecoder.Find | data_decoder.py:351-354 | the first position holding the key, or the length when none does |
| YamlDecoder.Lookup | data_decoder.py:352 | no contract of its own: the read `parent[key]`; `PutLookup` and `YamlFacts.PutAssigns` state what it gives after an assignment |
| YamlDecoder.Put | data_decoder.py:351-354 | `d[key] = value` keeps every existing key in place and adds a new key at the end |
| YamlDecoder.PutLookup | data_decoder.py:351-354 | after `d[key] = v`, the key maps to v and every other key to what it did |
| YamlDecoder.FindIs | data_decoder.py:351-354 | a position holding the key with no earlier one is where the key is found |
| YamlDecoder.PopValid | data_decoder.py:311-312 | popping frames keeps the invariant |
| YamlDecoder.StepValid | data_decoder.py:303-354 | every successful line keeps the invariant |
| YamlDecoder.ApplyValid | data_decoder.py:311-354 | applying any read line keeps the invariant |
| YamlDecoder.AddKeyValid | data_decoder.py:345-354 | a key line keeps the invariant |
| YamlDecoder.KeyPlaceholderValid | data_decoder.py:350-352 | a placeholder dict and its frame keep the invariant |
| YamlDecoder.KeyValueValid | data_decoder.py:353-354 | assigning a scalar keeps the invariant |
| YamlDecoder.AddItemValid | data_decoder.py:317-342 | an item line keeps the invariant |
| YamlDecoder.MapItemValid | data_decoder.py:332-338 | appending a one-key dict to a list and pushing its frame keeps the invariant |
| YamlDecoder.AppendValid | data_decoder.py:339-340 | appending a scalar to the top list keeps the invariant |
| YamlDecoder.StartListValid | data_decoder.py:320-330 | starting a list keeps the invariant and the top frame's indent |
| YamlDecoder.SwapValid | data_decoder.py:322 | putting a fresh list in the top frame keeps the invariant |
| YamlDecoder.PushValid | data_decoder.py:335 | pushing a deeper frame for the newest container keeps the invariant |
| YamlDecoder.PutSlots | data_decoder.py:351-354 | a dict assignment of a slot that points forward keeps every slot pointing forward |
| YamlDecoder.ForwardGrow | data_decoder.py:321-351 | replacing one container by a forward one and appending empty containers keeps the arena forward |
| YamlDecoder.KindsKeptFrames | data_decoder.py:303-354 | an update that keeps container kinds and the lists under the top keeps the invariant |
| YamlFacts.ParseLineBlank | data_decoder.py:304-306 | a line is skipped iff its text before the first `#` is all whitespace |
| YamlFacts.ParseLineDropsComment | data_decoder.py:304 | anything after the first `#` is ignored, quotes or not |
| YamlFacts.ParseLineIndented | data_decoder.py:304-348 | an indented text is an item, a key line or neither, at the indent of its leading spaces |
| YamlFacts.IndentedCode | data_decoder.py:304 | a comment-free line with no trailing whitespace is kept whole |
| YamlFacts.ParseLineKey | data_decoder.py:345-348 | `key:value` is a key line with the key and the stripped value |
| YamlFacts.ParseLineItem | data_decoder.py:317-318 | `- value` is an item with the stripped value |
| YamlFacts.StepByLine | data_decoder.py:303-354 | two raw lines that read the same have the same effect |
| YamlFacts.RunAppend | data_decoder.py:303-354 | running two blocks of lines is running the first and then the second from where it ended, stopping at the first exception |
| YamlFacts.RunSameLines | data_decoder.py:303-354 | documents whose lines read the same decode the same |
| YamlFacts.CodeParts | data_decoder.py:304 | each line cut at its first `#` |
| YamlFacts.DecodeIgnoresComments | data_decoder.py:304 | removing every comment changes nothing |
| YamlFacts.DecodeSkipsBlank | data_decoder.py:305-306 | inserting a blank or comment-only line anywhere changes nothing |
| YamlFacts.DecodeAllBlank | data_decoder.py:299-306 | a document of blank lines decodes to the empty dict |
| YamlFacts.ApplyOther | data_decoder.py:308-345 | a line that is neither an item nor a key line pops the frames at least as deep as itself: the arena is unchanged, exactly the shallower frames stay, and the invariant holds |
| YamlFacts.PopKeepsShallower | data_decoder.py:311-312 | exactly the frames shallower than the line stay on the stack |
| YamlFacts.SentinelStays | data_decoder.py:301-312 | the sentinel frame `(-1, root)` is never popped |
| YamlFacts.PutAssigns | data_decoder.py:351-354 | `d[key] = v` binds the key to v, changes no other key, and keeps the key order, appending a new key |
| YamlFacts.Parent | data_decoder.py:314 | the parent is a container of the arena |
| YamlFacts.ApplyKeyValue | data_decoder.py:353-354 | `key: value` on a dict parent assigns the parsed scalar in the parent alone and pushes no frame |
| YamlFacts.ApplyKeyPlaceholder | data_decoder.py:350-352 | `key:` on a dict parent assigns a new empty dict and pushes its frame at the line's indent |
| YamlFacts.ApplyKeyOnList | data_decoder.py:345-354 | a key line whose parent is a list raises |
| YamlFacts.ApplyItemOnList | data_decoder.py:339-340 | `- x` under a list appends the parsed scalar to that list alone |
| YamlFacts.ApplyMapItemOnList | data_decoder.py:332-338 | `- k: v` under a list appends a new one-key dict and pushes its frame |
| YamlFacts.ApplyItem | data_decoder.py:311-342 | an item line pops frames, then adds the item |
| YamlFacts.FirstItem | data_decoder.py:320-340 | the first item without a colon under a placeholder makes a list holding its parsed value, bound in the grandparent dict to the newest key holding an empty dict (or to none) |
| YamlFacts.FirstMapItem | data_decoder.py:320-338 | the first `- key: value` item under a placeholder makes a list holding one new dict `{key: parse_value(value)}`, pushes that dict's frame at the item's indent, and binds the list as `FirstItem` does |
| YamlFacts.OpenedList | data_decoder.py:320-330 | the list start rebinds the newest empty-dict key, or none |
| YamlFacts.NewestEmptyMapGrow | data_decoder.py:325-328 | appending a container that is no empty dict does not change which key the scan finds |
| YamlFacts.ApplyTopLevelItem | data_decoder.py:320-324 | an item with only the sentinel left on the stack raises: there is no `stack[-2]` |
| YamlFacts.DecodeLeadingItem | data_decoder.py:320-324 | a document whose first line is an item raises, whatever follows |
| YamlFacts.GrandparentListFails | data_decoder.py:320-326 | an item under a dict whose own parent is a list raises, since the scan indexes the list by one of its dicts |
| YamlExamples.DecodeNestedList | data_decoder.py:299-356 | `a: x` / `b:` / indented `- y` / `- z` decodes to `{a: x, b: [y, z]}` |
| YamlExamples.DecodeListOfDicts | data_decoder.py:299-356 | a list of two dicts written with `- k: v` and a deeper key decodes to those dicts in order |
| YamlExamples.DecodeKeyOnList | data_decoder.py:345-354 | a key line at an item's indent after a list item raises |
| YamlExamples.DecodeTopLevelItem | data_decoder.py:320-324 | a leading item raises, whatever follows |
| YamlExamples.DecodeItemUnderListedDict | data_decoder.py:320-326 | a deeper item under a dict inside a list raises |
| YamlExamples.DecodeUnattachedList | data_decoder.py:320-330 | an item under a placeholder whose grandparent holds no empty dict is lost: the tree keeps the placeholder |
| YamlExamples.DecodeOtherLinePops | data_decoder.py:311-354 | for all keys and tokens, `ka:` / `kb:` / `x` / a deeper `kc: v` decode to {ka: {kb: {}, kc: v}}: the line `x` closes `kb`'s frame |
| YamlExamples.DecodeWithoutOtherLine | data_decoder.py:311-354 | without the line `x`, the same keys decode to {ka: {kb: {kc: v}}} |
| YamlExamples.DecodeReassignedKey | data_decoder.py:325-328 | when a key is reassigned to a new placeholder, the list goes to the later key that still holds an empty dict, not to the reassigned one |

## Left out

- The interactive command loop, the settings file, and the XML, CSV, SQLite and JSON front ends are not modelled. They only read input, call the core and print its output.
- The decoder takes the text as its list of lines. Reading and splitting files happens before this model.
- `convertnum` prints messages (lines 362 and 404). The model keeps only the `None` that follows them.
- The unreachable `raise ValueError("Unsupported input type")` of line 393 is not modelled. The type check of line 361 has already excluded every other input type.
- `ScalarValue.ParseValue`: a float is kept as its token text (`Float(text)`). The model decides exactly which tokens Python's `float` accepts, on ASCII text. It does not compute the binary floating-point value.
- Whitespace for `strip`, `lstrip`, `rstrip` and `split` is the ASCII whitespace that Python's `str.isspace` accepts, and the blanks `int` skips are the ASCII ones it skips (`IsIntSpace`). Unicode whitespace, Unicode digits and case mapping beyond ASCII letters are not modelled. Python's `isdigit` accepts more digits than `int` does: `'²'.isdigit()` is true but `int('²')` raises `ValueError`, so line 158 raises on such a token and the decoder raises with it. The model treats such a token as a string.
- Python 3.11's limit of 4300 decimal digits is not modelled. Python raises `ValueError` when `int` reads a decimal string longer than that, and when `format` writes an integer with more decimal digits than that (the `d` spec, in whole-value mode and in per-byte mode). `convertnum` then returns `None`. `NumConvert.ConvertWhole` and `NumConvert.ConvertPerByte` read and write numerals of any length instead, so for such input the model gives the converted text where the source gives `None`.
- ScalarValue.ParseValue: the same limit applies to `int(value)` at line 158, which no `try` guards. `parse_value` raises `ValueError` on a digit string longer than 4300 digits, and `decode_yaml` raises with it on a line such as `k: 111…1`. `ScalarValue.ParseValue`, `ScalarValue.ParseValueOfDecimal` and `YamlDecoder.Decode` give an int of any length instead.
- The decoder models the exceptions Python raises as `Failure` values. The traceback and the exception's message are not modelled.
