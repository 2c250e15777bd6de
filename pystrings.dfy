/**
 * The few Python `str` operations the decoder and the numeral converter rely on:
 * `strip`, `lstrip`, `rstrip`, `lstrip(" ")`, `lower`, `split(sep, 1)`, `split()`
 * and `" ".join`. Whitespace is the ASCII part of what `str.isspace` accepts.
 */
module PyStrings {

  /** The ASCII characters Python's `str.isspace` accepts. */
  predicate IsSpace(c: char) {
    c == ' ' || c == '\t' || c == '\n' || c == '\r' || c == '\U{B}' || c == '\U{C}'
    || ('\U{1C}' <= c <= '\U{1F}')
  }

  predicate NoSpace(s: string) {
    forall i :: 0 <= i < |s| ==> !IsSpace(s[i])
  }

  predicate AllSpace(s: string) {
    forall i :: 0 <= i < |s| ==> IsSpace(s[i])
  }

  // The three strip functions state only facts about their result: a postcondition
  // relating the result to slices of the argument makes `Strip(t) == t` a cyclic
  // equation that the solver unfolds without end. Those facts are lemmas below.

  /** `s.lstrip()`: `s` without its leading whitespace. */
  function LStrip(s: string): (r: string)
    ensures |r| <= |s|
    ensures r == [] || !IsSpace(r[0])
  {
    if s != [] && IsSpace(s[0]) then LStrip(s[1..]) else s
  }

  /** `s.rstrip()`: `s` without its trailing whitespace. */
  function RStrip(s: string): (r: string)
    ensures |r| <= |s|
    ensures r == [] || !IsSpace(r[|r| - 1])
  {
    if s != [] && IsSpace(s[|s| - 1]) then RStrip(s[..|s| - 1]) else s
  }

  /** `s.strip()`. */
  function Strip(s: string): (r: string)
    ensures |r| <= |s|
    ensures r == [] || (!IsSpace(r[0]) && !IsSpace(r[|r| - 1]))
  {
    var l := LStrip(s);
    RStripPrefix(l);
    RStrip(l)
  }

  /** What `lstrip` removes is whitespace, and what it keeps is a suffix. */
  lemma {:induction false} LStripSuffix(s: string)
    ensures LStrip(s) == s[|s| - |LStrip(s)|..]
    ensures AllSpace(s[..|s| - |LStrip(s)|])
    decreases |s|
  {
    var k := |s| - |LStrip(s)|;
    if s != [] && IsSpace(s[0]) {
      LStripSuffix(s[1..]);
      assert LStrip(s) == LStrip(s[1..]);
      assert s[1..][k - 1..] == s[k..];
      forall i | 0 <= i < k ensures IsSpace(s[..k][i]) {
        if i > 0 {
          assert s[..k][i] == s[1..][..k - 1][i - 1];
        }
      }
    }
  }

  /** What `rstrip` removes is whitespace, and what it keeps is a prefix. */
  lemma {:induction false} RStripPrefix(s: string)
    ensures RStrip(s) == s[..|RStrip(s)|]
    ensures AllSpace(s[|RStrip(s)|..])
    decreases |s|
  {
    if s != [] && IsSpace(s[|s| - 1]) {
      RStripPrefix(s[..|s| - 1]);
      assert s[..|s| - 1][..|RStrip(s)|] == s[..|RStrip(s)|];
      assert s[|RStrip(s)|..] == s[..|s| - 1][|RStrip(s)|..] + [s[|s| - 1]];
    }
  }

  /** A string strips to nothing exactly when it is all whitespace. */
  lemma {:induction false} StripEmpty(s: string)
    ensures Strip(s) == [] <==> AllSpace(s)
  {
    var l := LStrip(s);
    LStripSuffix(s);
    RStripPrefix(l);
    if Strip(s) == [] {
      assert s == s[..|s| - |l|] + l;
      assert l == l[0..];
    } else {
      assert l != [];
      assert l[0] == s[|s| - |l|];
    }
  }

  /** A string that neither starts nor ends with whitespace is its own strip. */
  lemma {:induction false} StripUnchanged(s: string)
    requires s == [] || (!IsSpace(s[0]) && !IsSpace(s[|s| - 1]))
    ensures Strip(s) == s
  {
  }

  /** Stripping twice is stripping once. */
  lemma {:induction false} StripIdempotent(s: string)
    ensures Strip(Strip(s)) == Strip(s)
  {
    StripUnchanged(Strip(s));
  }

  /** Whitespace on both sides of a word is what `strip` removes. */
  lemma {:induction false} StripPadded(pre: string, w: string, post: string)
    requires AllSpace(pre) && AllSpace(post)
    requires w != [] && !IsSpace(w[0]) && !IsSpace(w[|w| - 1])
    ensures Strip(pre + w + post) == w
  {
    assert pre + w + post == pre + (w + post);
    LStripSpaces(pre, w + post);
    RStripSpaces(w, post);
  }

  lemma {:induction false} LStripSpaces(pre: string, x: string)
    requires AllSpace(pre) && (x == [] || !IsSpace(x[0]))
    ensures LStrip(pre + x) == x
    decreases |pre|
  {
    if pre == [] {
      assert pre + x == x;
    } else {
      assert (pre + x)[1..] == pre[1..] + x;
      LStripSpaces(pre[1..], x);
    }
  }

  lemma {:induction false} RStripSpaces(x: string, post: string)
    requires AllSpace(post) && (x == [] || !IsSpace(x[|x| - 1]))
    ensures RStrip(x + post) == x
    decreases |post|
  {
    if post == [] {
      assert x + post == x;
    } else {
      assert (x + post)[..|x + post| - 1] == x + post[..|post| - 1];
      RStripSpaces(x, post[..|post| - 1]);
    }
  }

  /** `len(s) - len(s.lstrip(" "))`: the number of leading space characters
      (tabs and other whitespace are not counted). */
  function LeadingSpaces(s: string): (n: nat)
    ensures n <= |s|
    ensures forall i :: 0 <= i < n ==> s[i] == ' '
    ensures n == |s| || s[n] != ' '
  {
    if s != [] && s[0] == ' ' then 1 + LeadingSpaces(s[1..]) else 0
  }

  /** ASCII `str.lower`: upper-case ASCII letters become lower case, every other
      character is kept. */
  function Lower(s: string): (r: string)
    ensures |r| == |s|
    ensures forall i :: 0 <= i < |s| ==>
      r[i] == if 'A' <= s[i] <= 'Z' then (s[i] as int + 32) as char else s[i]
  {
    if s == [] then []
    else [if 'A' <= s[0] <= 'Z' then (s[0] as int + 32) as char else s[0]] + Lower(s[1..])
  }

  /** The index of the first occurrence of `c` in `s`, or `|s|` when there is none. */
  function IndexOf(s: string, c: char): (i: nat)
    ensures i <= |s|
    ensures i < |s| ==> s[i] == c
    ensures forall j :: 0 <= j < i ==> s[j] != c
    ensures i == |s| <==> c !in s
  {
    if s == [] then 0 else if s[0] == c then 0 else 1 + IndexOf(s[1..], c)
  }

  /** `s.split(c, 1)[0]`: everything before the first `c` (all of `s` without one). */
  function BeforeFirst(s: string, c: char): (r: string)
    ensures c !in r
    ensures r <= s
    ensures c !in s ==> r == s
    ensures c in s ==> |r| < |s| && s[|r|] == c
  {
    s[..IndexOf(s, c)]
  }

  /** `s.split(c, 1)` when `c` occurs in `s`: the text before the first `c` and the text after it. */
  function SplitOnce(s: string, c: char): (parts: (string, string))
    requires c in s
    ensures c !in parts.0
    ensures s == parts.0 + [c] + parts.1
  {
    var i := IndexOf(s, c);
    assert s == s[..i] + [c] + s[i + 1..];
    (s[..i], s[i + 1..])
  }

  /** `split(c, 1)` cuts at the first `c`: whatever precedes it cannot contain `c`. */
  lemma {:induction false} SplitOnceAt(x: string, c: char, y: string)
    requires c !in x
    ensures SplitOnce(x + [c] + y, c) == (x, y)
  {
    var s := x + [c] + y;
    var i := IndexOf(s, c);
    assert s[|x|] == c;
    assert forall j :: 0 <= j < |x| ==> s[j] == x[j];
    assert s[..i] == x && s[i + 1..] == y;
  }

  /** Everything from the first `c` on is dropped. */
  lemma {:induction false} BeforeFirstAt(x: string, c: char, y: string)
    requires c !in x
    ensures BeforeFirst(x + [c] + y, c) == x
  {
    SplitOnceAt(x, c, y);
  }

  /** `n` space characters. */
  function Spaces(n: nat): (s: string)
    ensures |s| == n && AllSpace(s)
    ensures forall i :: 0 <= i < n ==> s[i] == ' '
  {
    if n == 0 then [] else [' '] + Spaces(n - 1)
  }

  /** The indent of a line is the number of spaces in front of its first other character. */
  lemma {:induction false} LeadingSpacesOf(n: nat, t: string)
    requires t == [] || t[0] != ' '
    ensures LeadingSpaces(Spaces(n) + t) == n
    decreases n
  {
    if n > 0 {
      assert (Spaces(n) + t)[1..] == Spaces(n - 1) + t;
      LeadingSpacesOf(n - 1, t);
    } else {
      assert Spaces(n) + t == t;
    }
  }

  /** The length of the leading run of non-whitespace characters. */
  function WordLength(s: string): (n: nat)
    ensures n <= |s| && NoSpace(s[..n])
    ensures n == |s| || IsSpace(s[n])
  {
    if s != [] && !IsSpace(s[0]) then 1 + WordLength(s[1..]) else 0
  }

  /** `s.split()` without arguments: the maximal runs of non-whitespace characters, in order. */
  function SplitWhitespace(s: string): (words: seq<string>)
    ensures forall i :: 0 <= i < |words| ==> words[i] != [] && NoSpace(words[i])
    decreases |s|
  {
    var t := LStrip(s);
    if t == [] then []
    else
      var n := WordLength(t);
      [t[..n]] + SplitWhitespace(t[n..])
  }

  /** The whitespace runs around and between the words of `s.split()`: the run
      before the first word, one run after each word. */
  function Gaps(s: string): seq<string>
    decreases |s|
  {
    var t := LStrip(s);
    var g := s[..|s| - |t|];
    if t == [] then [g]
    else
      var n := WordLength(t);
      [g] + Gaps(t[n..])
  }

  /** `gaps[0] + words[0] + gaps[1] + ... + words[k - 1] + gaps[k]`. */
  function Interleave(gaps: seq<string>, words: seq<string>): string
    requires |gaps| == |words| + 1
    decreases |words|
  {
    if words == [] then gaps[0]
    else gaps[0] + words[0] + Interleave(gaps[1..], words[1..])
  }

  /** Words and gaps that make up a text as `str.split()` sees it: non-empty
      words without whitespace, gaps of whitespace only, and a non-empty gap
      between every two words. */
  predicate Layout(gaps: seq<string>, words: seq<string>) {
    && |gaps| == |words| + 1
    && (forall i :: 0 <= i < |words| ==> words[i] != [] && NoSpace(words[i]))
    && (forall i :: 0 <= i < |gaps| ==> AllSpace(gaps[i]))
    && (forall i :: 0 < i < |words| ==> gaps[i] != [])
  }

  /** `s.split()` takes the text apart into its words and the whitespace
      runs around them: the text is the words with the gaps between them. */
  lemma {:induction false} SplitWhitespaceGaps(s: string)
    ensures Layout(Gaps(s), SplitWhitespace(s))
    ensures s == Interleave(Gaps(s), SplitWhitespace(s))
    decreases |s|
  {
    var t := LStrip(s);
    LStripSplit(s);
    if t == [] {
      assert s == s[..|s| - |t|];
    } else {
      var g, n := s[..|s| - |t|], WordLength(t);
      var rest := t[n..];
      GapsStep(s, t, |s| - |t|, n);
      WordSplit(t);
      assert s == g + t[..n] + rest;
      SplitWhitespaceGaps(rest);
      if SplitWhitespace(rest) != [] {
        GapBeforeWord(rest);
      }
      LayoutCons(g, t[..n], Gaps(rest), SplitWhitespace(rest));
    }
  }

  /** One step of the split: the leading gap `s[..k]`, the first word
      `t[..n]`, and the rest `t[n..]`, which is empty or starts with whitespace. */
  lemma {:induction false} GapsStep(s: string, t: string, k: nat, n: nat)
    requires t == LStrip(s) && t != [] && k == |s| - |t| && n == WordLength(t)
    ensures Gaps(s) == [s[..k]] + Gaps(t[n..])
    ensures SplitWhitespace(s) == [t[..n]] + SplitWhitespace(t[n..])
  {
  }

  /** `lstrip` cuts a text into a whitespace prefix and the rest. */
  lemma {:induction false} LStripSplit(s: string)
    ensures var k := |s| - |LStrip(s)|; AllSpace(s[..k]) && s == s[..k] + LStrip(s)
  {
    var k := |s| - |LStrip(s)|;
    LStripSuffix(s);
    assert s == s[..k] + s[k..];
  }

  /** A text that starts with a non-space character is its first word and a
      rest that is empty or starts with whitespace. */
  lemma {:induction false} WordSplit(t: string)
    requires t != [] && !IsSpace(t[0])
    ensures var n := WordLength(t);
      && t == t[..n] + t[n..] && t[..n] != [] && NoSpace(t[..n])
      && (t[n..] == [] || IsSpace(t[n..][0]))
  {
    var n := WordLength(t);
    assert t == t[..n] + t[n..];
    if n < |t| {
      assert t[n..][0] == t[n];
    }
  }

  /** A gap and a word in front of a layout make a layout. */
  lemma {:induction false} LayoutCons(g: string, w: string, gaps: seq<string>, words: seq<string>)
    requires Layout(gaps, words) && AllSpace(g) && w != [] && NoSpace(w)
    requires words != [] ==> gaps[0] != []
    ensures Layout([g] + gaps, [w] + words)
    ensures Interleave([g] + gaps, [w] + words) == g + w + Interleave(gaps, words)
  {
    assert ([g] + gaps)[1..] == gaps && ([w] + words)[1..] == words;
    assert forall i :: 0 < i < |gaps| + 1 ==> ([g] + gaps)[i] == gaps[i - 1];
    assert forall i :: 0 < i < |words| + 1 ==> ([w] + words)[i] == words[i - 1];
  }

  /** A text that starts with whitespace and still holds a word has a
      non-empty gap before it. */
  lemma {:induction false} GapBeforeWord(rest: string)
    requires rest == [] || IsSpace(rest[0])
    requires SplitWhitespace(rest) != []
    ensures Gaps(rest)[0] != []
  {
    assert rest != [];
  }

  /** Conversely, any layout of words and gaps splits back into its words:
      `str.split()` ignores how long each gap is and which whitespace it holds. */
  lemma {:induction false} SplitInterleave(gaps: seq<string>, words: seq<string>)
    requires Layout(gaps, words)
    ensures SplitWhitespace(Interleave(gaps, words)) == words
    decreases |words|
  {
    if words == [] {
      LStripSpaces(gaps[0], []);
      assert gaps[0] + [] == Interleave(gaps, words);
    } else {
      LayoutTail(gaps, words);
      SplitInterleave(gaps[1..], words[1..]);
      RestStartsWithSpace(gaps[1..], words[1..]);
      SplitFront(gaps[0], words[0], Interleave(gaps[1..], words[1..]));
    }
  }

  /** The first gap and word of a layout, and the layout after them. */
  lemma {:induction false} LayoutTail(gaps: seq<string>, words: seq<string>)
    requires Layout(gaps, words) && words != []
    ensures Layout(gaps[1..], words[1..])
    ensures Interleave(gaps, words) == gaps[0] + words[0] + Interleave(gaps[1..], words[1..])
    ensures AllSpace(gaps[0]) && words[0] != [] && NoSpace(words[0])
    ensures words[1..] != [] ==> gaps[1..][0] != []
  {
    assert forall i :: 0 <= i < |words| - 1 ==> words[1..][i] == words[i + 1];
    assert forall i :: 0 <= i < |gaps| - 1 ==> gaps[1..][i] == gaps[i + 1];
  }

  /** A gap, a word and a rest that starts with whitespace split into the word
      followed by the split of the rest. */
  lemma {:induction false} SplitFront(g: string, w: string, rest: string)
    requires AllSpace(g) && w != [] && NoSpace(w)
    requires rest == [] || IsSpace(rest[0])
    ensures SplitWhitespace(g + w + rest) == [w] + SplitWhitespace(rest)
  {
    assert g + w + rest == g + (w + rest);
    LStripSpaces(g, w + rest);
    WordLengthOf(w, rest);
    assert (w + rest)[..|w|] == w && (w + rest)[|w|..] == rest;
  }

  /** Whitespace around a text does not change its split. */
  lemma {:induction false} SplitStrip(s: string)
    ensures SplitWhitespace(Strip(s)) == SplitWhitespace(s)
  {
    var l, v := LStrip(s), Strip(s);
    var pre, post := s[..|s| - |l|], l[|v|..];
    StripParts(s);
    SplitPadded(pre, v, post);
  }

  /** A text is its strip with whitespace before and after it. */
  lemma {:induction false} StripParts(s: string)
    ensures var l := LStrip(s); var pre := s[..|s| - |l|]; var post := l[|Strip(s)|..];
      AllSpace(pre) && AllSpace(post) && s == pre + Strip(s) + post
  {
    var l, v := LStrip(s), Strip(s);
    LStripSplit(s);
    RStripPrefix(l);
    assert l == v + l[|v|..];
  }

  /** Whitespace added at both ends of a text does not change its split. */
  lemma {:induction false} SplitPadded(pre: string, v: string, post: string)
    requires AllSpace(pre) && AllSpace(post)
    ensures SplitWhitespace(pre + v + post) == SplitWhitespace(v)
  {
    SplitWhitespaceGaps(v);
    var gaps, words := Gaps(v), SplitWhitespace(v);
    var g1 := gaps[0 := pre + gaps[0]];
    var g2 := g1[|g1| - 1 := g1[|g1| - 1] + post];
    InterleaveFront(pre, gaps, words);
    InterleaveBack(g1, words, post);
    LayoutWiden(pre, gaps, words, post);
    SplitInterleave(g2, words);
  }

  /** Whitespace added at both ends of a layout keeps it a layout. */
  lemma {:induction false} LayoutWiden(pre: string, gaps: seq<string>, words: seq<string>, post: string)
    requires Layout(gaps, words) && AllSpace(pre) && AllSpace(post)
    ensures var g1 := gaps[0 := pre + gaps[0]];
      Layout(g1[|g1| - 1 := g1[|g1| - 1] + post], words)
  {
    var g1 := gaps[0 := pre + gaps[0]];
    var g2 := g1[|g1| - 1 := g1[|g1| - 1] + post];
    AllSpaceAppend(pre, gaps[0]);
    AllSpaceAppend(g1[|g1| - 1], post);
    forall i | 0 <= i < |g2| ensures AllSpace(g2[i]) && (0 < i < |words| ==> g2[i] != []) {
      if i != 0 && i != |g1| - 1 {
        assert g2[i] == gaps[i];
      }
    }
  }

  lemma {:induction false} AllSpaceAppend(a: string, b: string)
    requires AllSpace(a) && AllSpace(b)
    ensures AllSpace(a + b)
  {
    forall i | 0 <= i < |a + b| ensures IsSpace((a + b)[i]) {
      if i >= |a| {
        assert (a + b)[i] == b[i - |a|];
      }
    }
  }

  /** Text before a layout joins its first gap. */
  lemma {:induction false} InterleaveFront(pre: string, gaps: seq<string>, words: seq<string>)
    requires |gaps| == |words| + 1
    ensures pre + Interleave(gaps, words) == Interleave(gaps[0 := pre + gaps[0]], words)
  {
    var g1 := gaps[0 := pre + gaps[0]];
    if words != [] {
      assert g1[1..] == gaps[1..];
    }
  }

  /** Text after a layout joins its last gap. */
  lemma {:induction false} InterleaveBack(gaps: seq<string>, words: seq<string>, post: string)
    requires |gaps| == |words| + 1
    ensures Interleave(gaps, words) + post == Interleave(gaps[|gaps| - 1 := gaps[|gaps| - 1] + post], words)
    decreases |words|
  {
    var g := gaps[|gaps| - 1 := gaps[|gaps| - 1] + post];
    if words != [] {
      InterleaveBack(gaps[1..], words[1..], post);
      assert g[1..] == gaps[1..][|gaps| - 2 := gaps[|gaps| - 1] + post];
      assert g[0] == gaps[0];
    }
  }

  /** What follows a word in a layout starts with whitespace, or is empty. */
  lemma {:induction false} RestStartsWithSpace(gaps: seq<string>, words: seq<string>)
    requires |gaps| == |words| + 1 && AllSpace(gaps[0])
    requires words != [] ==> gaps[0] != []
    ensures var r := Interleave(gaps, words); r == [] || IsSpace(r[0])
  {
    if words != [] {
      assert Interleave(gaps, words)[0] == gaps[0][0];
    } else if gaps[0] != [] {
      assert Interleave(gaps, words)[0] == gaps[0][0];
    }
  }

  /** `" ".join(words)`. */
  function JoinSpaces(words: seq<string>): (r: string)
    ensures words == [] ==> r == []
  {
    if words == [] then []
    else if |words| == 1 then words[0]
    else words[0] + " " + JoinSpaces(words[1..])
  }

  /** Splitting a space-joined sequence of non-empty words without whitespace
      gives the words back, so the join keeps their number and order. */
  lemma {:induction false} SplitJoin(words: seq<string>)
    requires forall i :: 0 <= i < |words| ==> words[i] != [] && NoSpace(words[i])
    ensures SplitWhitespace(JoinSpaces(words)) == words
    decreases |words|
  {
    if words == [] {
    } else {
      var w := words[0];
      var s := JoinSpaces(words);
      var rest := if |words| == 1 then [] else " " + JoinSpaces(words[1..]);
      assert s == w + rest;
      LStripNoSpaceStart(s);
      WordLengthOf(w, rest);
      assert s[..|w|] == w;
      assert s[|w|..] == rest;
      if |words| == 1 {
        assert SplitWhitespace([]) == [];
      } else {
        var tail := JoinSpaces(words[1..]);
        SplitJoin(words[1..]);
        LStripNoSpaceStart(tail);
        assert rest[1..] == tail;
        assert LStrip(rest) == LStrip(tail);
        SplitAfterSpace(tail);
      }
    }
  }

  lemma {:induction false} LStripNoSpaceStart(s: string)
    requires s == [] || !IsSpace(s[0])
    ensures LStrip(s) == s
  {
  }

  lemma {:induction false} WordLengthOf(w: string, rest: string)
    requires NoSpace(w)
    requires rest == [] || IsSpace(rest[0])
    ensures WordLength(w + rest) == |w|
    decreases |w|
  {
    if w != [] {
      var s := w + rest;
      assert s[0] == w[0] && !IsSpace(w[0]);
      assert s[1..] == w[1..] + rest;
      assert NoSpace(w[1..]) by {
        forall i | 0 <= i < |w| - 1 ensures !IsSpace(w[1..][i]) {
          assert w[1..][i] == w[i + 1];
        }
      }
      WordLengthOf(w[1..], rest);
    } else {
      assert w + rest == rest;
    }
  }

  lemma {:induction false} SplitAfterSpace(t: string)
    requires t == [] || !IsSpace(t[0])
    ensures SplitWhitespace(" " + t) == SplitWhitespace(t)
  {
    var s := " " + t;
    assert s[1..] == t;
    assert LStrip(s) == LStrip(t) == t;
  }
}
