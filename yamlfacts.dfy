/**
 * What `decode_yaml` promises, stated over the model of the decoder: how a
 * line is read, which lines leave the result alone, what each kind of line
 * does to the frame stack and the dicts, and when the decoder raises.
 */
module YamlFacts {
  import opened PyStrings
  import opened Nodes
  import opened ScalarValue
  import opened YamlDecoder

  // ---------------------------------------------------------------------
  // Reading a line
  // ---------------------------------------------------------------------

  /** A line is skipped exactly when nothing but whitespace precedes its first `#`. */
  lemma {:induction false} ParseLineBlank(raw: string)
    ensures ParseLine(raw) == Blank <==> AllSpace(BeforeFirst(raw, '#'))
  {
    var x := BeforeFirst(raw, '#');
    var line := RStrip(x);
    StripEmpty(line);
    RStripPrefix(x);
    assert x == line + x[|line|..];
    if AllSpace(line) {
      assert forall i :: 0 <= i < |x| ==> IsSpace(x[i]) by {
        forall i | 0 <= i < |x| ensures IsSpace(x[i]) {
          if i >= |line| {
            assert x[i] == x[|line|..][i - |line|];
          }
        }
      }
    }
  }

  /** Everything from the first `#` on is ignored, even inside quotes. */
  lemma {:induction false} ParseLineDropsComment(code: string, comment: string)
    requires '#' !in code
    ensures ParseLine(code + "#" + comment) == ParseLine(code)
  {
    BeforeFirstAt(code, '#', comment);
  }

  /** Text that starts and ends with something other than whitespace and holds
      no `#`, indented by `n` spaces, is classified by its text alone. */
  lemma {:induction false} ParseLineIndented(n: nat, text: string)
    requires text != [] && !IsSpace(text[0]) && !IsSpace(text[|text| - 1]) && '#' !in text
    ensures ParseLine(Spaces(n) + text) ==
      if |text| >= 2 && text[..2] == "- " then Item(n, Strip(text[2..]))
      else if ':' in text then
        KeyLine(n, Strip(SplitOnce(text, ':').0), Strip(SplitOnce(text, ':').1))
      else Other(n)
  {
    var raw := Spaces(n) + text;
    IndentedCode(n, text);
    assert raw[n] == text[0];
    StripEmpty(raw);
    LeadingSpacesOf(n, text);
    LStripSpaces(Spaces(n), text);
  }

  lemma {:induction false} IndentedCode(n: nat, text: string)
    requires text != [] && !IsSpace(text[|text| - 1]) && '#' !in text
    ensures RStrip(BeforeFirst(Spaces(n) + text, '#')) == Spaces(n) + text
  {
    var raw := Spaces(n) + text;
    assert forall i :: 0 <= i < |raw| ==> raw[i] != '#' by {
      forall i | 0 <= i < |raw| ensures raw[i] != '#' {
        if i >= n {
          assert raw[i] == text[i - n];
        }
      }
    }
    assert raw[|raw| - 1] == text[|text| - 1];
  }

  /** `key: value` indented by `n` spaces: the key is kept as written and the
      value is stripped. The split is at the first colon, so the value may hold more. */
  lemma {:induction false} ParseLineKey(n: nat, key: string, value: string)
    requires key != [] && !IsSpace(key[0]) && !IsSpace(key[|key| - 1])
    requires ':' !in key && '#' !in key && '#' !in value
    requires |key| >= 2 ==> key[..2] != "- "
    requires value == [] || !IsSpace(value[|value| - 1])
    ensures ParseLine(Spaces(n) + key + ":" + value) == KeyLine(n, key, Strip(value))
  {
    var text := key + ":" + value;
    var sp := Spaces(n);
    assert sp + key + ":" + value == sp + (key + ":") + value == sp + text;
    assert text[0] == key[0] && text[|key|] == ':';
    assert text[|text| - 1] == if value == [] then ':' else value[|value| - 1];
    assert '#' !in text;
    assert !(|text| >= 2 && text[..2] == "- ") by {
      if |key| >= 2 {
        assert text[..2] == key[..2];
      } else {
        assert text[1] == ':';
      }
    }
    SplitOnceAt(key, ':', value);
    StripUnchanged(key);
    ParseLineIndented(n, text);
  }

  /** `- value` indented by `n` spaces: the value is stripped. */
  lemma {:induction false} ParseLineItem(n: nat, value: string)
    requires value != [] && !IsSpace(value[|value| - 1]) && '#' !in value
    ensures ParseLine(Spaces(n) + "- " + value) == Item(n, Strip(value))
  {
    var text := "- " + value;
    assert Spaces(n) + "- " + value == Spaces(n) + text;
    assert text[|text| - 1] == value[|value| - 1];
    assert '#' !in text;
    assert text[..2] == "- " && text[2..] == value;
    ParseLineIndented(n, text);
  }

  // ---------------------------------------------------------------------
  // Lines that leave the result alone
  // ---------------------------------------------------------------------

  /** A step depends only on how the line reads. */
  lemma {:induction false} StepByLine(st: State, x: string, y: string)
    requires Valid(st) && ParseLine(x) == ParseLine(y)
    ensures Step(st, x) == Step(st, y)
  {
  }

  /** Running two parts in turn is running them together; an exception in
      the first part ends the run. */
  lemma {:induction false} RunAppend(st: State, l1: seq<string>, l2: seq<string>)
    requires Valid(st)
    ensures Run(st, l1 + l2) == match Run(st, l1)
      case Failure(e) => Failure(e)
      case Success(mid) => Run(mid, l2)
    decreases |l1|
  {
    if l1 == [] {
      assert l1 + l2 == l2;
    } else {
      assert (l1 + l2)[0] == l1[0] && (l1 + l2)[1..] == l1[1..] + l2;
      if Step(st, l1[0]).Success? {
        StepValid(st, l1[0]);
        RunAppend(Step(st, l1[0]).value, l1[1..], l2);
      }
    }
  }

  /** Lines that read the same give the same run. */
  lemma {:induction false} RunSameLines(st: State, l1: seq<string>, l2: seq<string>)
    requires Valid(st) && |l1| == |l2|
    requires forall i :: 0 <= i < |l1| ==> ParseLine(l1[i]) == ParseLine(l2[i])
    ensures Run(st, l1) == Run(st, l2)
    decreases |l1|
  {
    if l1 != [] {
      StepByLine(st, l1[0], l2[0]);
      if Step(st, l1[0]).Success? {
        StepValid(st, l1[0]);
        RunSameLines(Step(st, l1[0]).value, l1[1..], l2[1..]);
      }
    }
  }

  /** Each line cut at its first `#`. */
  function CodeParts(lines: seq<string>): (r: seq<string>)
    ensures |r| == |lines|
    ensures forall i :: 0 <= i < |lines| ==> r[i] == BeforeFirst(lines[i], '#')
  {
    if lines == [] then [] else [BeforeFirst(lines[0], '#')] + CodeParts(lines[1..])
  }

  /** Comments never matter: decoding the lines cut at their first `#` gives
      the same result, or the same exception. */
  lemma {:induction false} DecodeIgnoresComments(lines: seq<string>)
    ensures Decode(lines) == Decode(CodeParts(lines))
  {
    var c := CodeParts(lines);
    forall i | 0 <= i < |lines|
      ensures ParseLine(lines[i]) == ParseLine(c[i])
    {
      CodeLine(lines[i]);
    }
    RunSameLines(Initial(), lines, c);
  }

  /** A line and its text before the first `#` read the same. */
  lemma {:induction false} CodeLine(raw: string)
    ensures ParseLine(BeforeFirst(raw, '#')) == ParseLine(raw)
  {
    var x := BeforeFirst(raw, '#');
    assert '#' !in x;
    assert BeforeFirst(x, '#') == x;
  }

  /** A blank or comment-only line can be removed without changing anything. */
  lemma {:induction false} DecodeSkipsBlank(before: seq<string>, raw: string, after: seq<string>)
    requires AllSpace(BeforeFirst(raw, '#'))
    ensures Decode(before + [raw] + after) == Decode(before + after)
  {
    ParseLineBlank(raw);
    RunAppend(Initial(), before, [raw] + after);
    RunAppend(Initial(), before, after);
    assert before + [raw] + after == before + ([raw] + after);
    if Run(Initial(), before).Success? {
      var mid := Run(Initial(), before).value;
      assert ([raw] + after)[0] == raw && ([raw] + after)[1..] == after;
      assert Step(mid, raw) == Success(mid);
    }
  }

  /** Input without any line of content decodes to `{}`; in particular no
      input at all does. */
  lemma {:induction false} DecodeAllBlank(lines: seq<string>)
    requires forall i :: 0 <= i < |lines| ==> AllSpace(BeforeFirst(lines[i], '#'))
    ensures Decode(lines) == Success(Map([]))
    decreases |lines|
  {
    if lines == [] {
      DecodeNoLines();
    } else {
      var rest := lines[1..];
      assert forall i :: 0 <= i < |rest| ==> rest[i] == lines[i + 1];
      DecodeAllBlank(rest);
      assert [] + [lines[0]] + rest == lines && [] + rest == rest;
      DecodeSkipsBlank([], lines[0], rest);
    }
  }

  /** No lines at all decode to `{}`. */
  lemma {:induction false} DecodeNoLines()
    ensures Decode([]) == Success(Map([]))
  {
    assert TreeEntries(Initial().arena, 0, []) == [];
  }

  // ---------------------------------------------------------------------
  // The frame stack
  // ---------------------------------------------------------------------

  /** Popping keeps exactly the frames whose indent is below the line's: with
      indents increasing up the stack, the kept frames are a prefix. */
  lemma {:induction false} PopKeepsShallower(st: State, indent: nat)
    requires Valid(st)
    ensures var r := PopTo(st.stack, indent);
      forall j :: 0 <= j < |st.stack| ==> (j < |r| <==> st.stack[j].indent < indent)
  {
    var r := PopTo(st.stack, indent);
    forall j | 0 <= j < |st.stack|
      ensures j < |r| <==> st.stack[j].indent < indent
    {
      if j < |r| - 1 {
        assert st.stack[j].indent < st.stack[|r| - 1].indent;
        assert st.stack[|r| - 1] == r[|r| - 1];
      } else if j == |r| - 1 {
        assert st.stack[j] == r[|r| - 1];
      }
    }
  }

  /** A line that is neither an item nor a key line is not skipped: it pops
      every frame at least as deep as itself, keeps exactly the shallower ones
      and leaves every container as it was. */
  lemma {:induction false} ApplyOther(st: State, indent: nat)
    requires Valid(st)
    ensures Apply(st, Other(indent)).Success?
    ensures var r := Apply(st, Other(indent)).value;
      && Valid(r)
      && r.arena == st.arena
      && r.stack == st.stack[..|r.stack|]
      && forall j :: 0 <= j < |st.stack| ==> (j < |r.stack| <==> st.stack[j].indent < indent)
  {
    PopValid(st, indent);
    PopKeepsShallower(st, indent);
  }

  /** The sentinel is never popped. */
  lemma {:induction false} SentinelStays(st: State, raw: string)
    requires Valid(st) && Step(st, raw).Success?
    ensures Valid(Step(st, raw).value) && Step(st, raw).value.stack[0] == Frame(-1, 0)
  {
    StepValid(st, raw);
  }

  /** `d` updated at `key` with `v`: `key` now maps to `v`, every other key as
      before, and the key order is that of `e` with a new key last. */
  ghost predicate Assigned(e: seq<(string, Slot)>, d: seq<(string, Slot)>, key: string, v: Slot) {
    && Lookup(d, key) == Some(v)
    && (forall k :: k != key ==> Lookup(d, k) == Lookup(e, k))
    && Keys(d) == if key in Keys(e) then Keys(e) else Keys(e) + [key]
  }

  /** `d[key] = v` is such an update. */
  lemma {:induction false} PutAssigns(e: seq<(string, Slot)>, key: string, v: Slot)
    ensures Assigned(e, Put(e, key, v), key, v)
  {
    forall k | k != key
      ensures Lookup(Put(e, key, v), k) == Lookup(e, k)
    {
      PutLookup(e, key, v, k);
    }
    PutLookup(e, key, v, key);
    var r := Put(e, key, v);
    var i := Find(e, key);
    if key in Keys(e) {
      var j :| 0 <= j < |e| && Keys(e)[j] == key;
      assert i <= j;
      assert Keys(r) == Keys(e);
    } else {
      assert Keys(r) == Keys(e) + [key];
    }
  }

  /** The frame that holds the container a line at `indent` goes to. */
  function Parent(st: State, indent: nat): (id: nat)
    requires Valid(st)
    ensures id < |st.arena|
  {
    var s := PopTo(st.stack, indent);
    s[|s| - 1].id
  }

  /** `key: value` with a value: the dict of the frame under the line gets
      `key` set to the parsed value, no frame is pushed, and nothing else changes. */
  lemma {:induction false} ApplyKeyValue(st: State, indent: nat, key: string, value: string)
    requires Valid(st) && value != []
    requires st.arena[Parent(st, indent)].MapC?
    ensures Apply(st, KeyLine(indent, key, value)).Success?
    ensures var r := Apply(st, KeyLine(indent, key, value)).value; var p := Parent(st, indent);
      && r.stack == PopTo(st.stack, indent)
      && |r.arena| == |st.arena|
      && (forall i :: 0 <= i < |st.arena| && i != p ==> r.arena[i] == st.arena[i])
      && r.arena[p].MapC?
      && Assigned(st.arena[p].entries, r.arena[p].entries, key, Leaf(ParseValue(value)))
  {
    PopValid(st, indent);
    var s := PopTo(st.stack, indent);
    var p := Parent(st, indent);
    var e := st.arena[p].entries;
    assert Apply(st, KeyLine(indent, key, value)) == Success(State(st.arena[p := MapC(Put(e, key, Leaf(ParseValue(value))))], s));
    PutAssigns(e, key, Leaf(ParseValue(value)));
  }

  /** `key:` with nothing after the colon: the dict gets `key` set to a new
      empty dict, and a frame for that dict is pushed at the line's indent. */
  lemma {:induction false} ApplyKeyPlaceholder(st: State, indent: nat, key: string)
    requires Valid(st)
    requires st.arena[Parent(st, indent)].MapC?
    ensures Apply(st, KeyLine(indent, key, [])).Success?
    ensures var r := Apply(st, KeyLine(indent, key, [])).value; var p := Parent(st, indent); var child := |st.arena|;
      && r.stack == PopTo(st.stack, indent) + [Frame(indent, child)]
      && |r.arena| == child + 1 && r.arena[child] == MapC([])
      && (forall i :: 0 <= i < |st.arena| && i != p ==> r.arena[i] == st.arena[i])
      && r.arena[p].MapC?
      && Assigned(st.arena[p].entries, r.arena[p].entries, key, Ref(child))
  {
    PopValid(st, indent);
    var s := PopTo(st.stack, indent);
    var p := Parent(st, indent);
    var e := st.arena[p].entries;
    assert Apply(st, KeyLine(indent, key, [])) == Success(State((st.arena + [MapC([])])[p := MapC(Put(e, key, Ref(|st.arena|)))], s + [Frame(indent, |st.arena|)]));
    PutAssigns(e, key, Ref(|st.arena|));
  }

  /** A `key:` line whose frame holds a list raises (`parent[key]` on a list). */
  lemma {:induction false} ApplyKeyOnList(st: State, indent: nat, key: string, value: string)
    requires Valid(st)
    requires st.arena[Parent(st, indent)].ListC?
    ensures Apply(st, KeyLine(indent, key, value)) == Failure(KeyOnList)
  {
    PopValid(st, indent);
  }

  /** A later `- ` item at the level of a list appends to that list; an item
      without a colon appends its parsed value and pushes nothing. */
  lemma {:induction false} ApplyItemOnList(st: State, indent: nat, value: string)
    requires Valid(st) && ':' !in value
    requires st.arena[Parent(st, indent)].ListC?
    ensures Apply(st, Item(indent, value)).Success?
    ensures var r := Apply(st, Item(indent, value)).value; var p := Parent(st, indent);
      && r.stack == PopTo(st.stack, indent)
      && |r.arena| == |st.arena|
      && (forall i :: 0 <= i < |st.arena| && i != p ==> r.arena[i] == st.arena[i])
      && r.arena[p] == ListC(st.arena[p].items + [Leaf(ParseValue(value))])
  {
    PopValid(st, indent);
    var s := PopTo(st.stack, indent);
    var p := Parent(st, indent);
    assert Apply(st, Item(indent, value)) == AddItem(st.arena, s, indent, value);
    assert AddItem(st.arena, s, indent, value) == Success(State(ListAppend(st.arena, p, Leaf(ParseValue(value))), s));
  }

  /** `- key: value`: a new one-entry dict `{key: parse_value(value)}` is
      appended to the list and a frame for it is pushed at the item's indent,
      so deeper `key: value` lines go into that dict. An empty value gives None. */
  lemma {:induction false} ApplyMapItemOnList(st: State, indent: nat, value: string)
    requires Valid(st) && ':' in value
    requires st.arena[Parent(st, indent)].ListC?
    ensures Apply(st, Item(indent, value)).Success?
    ensures var r := Apply(st, Item(indent, value)).value; var p := Parent(st, indent); var item := |st.arena|;
      var parts := SplitOnce(value, ':');
      && r.stack == PopTo(st.stack, indent) + [Frame(indent, item)]
      && |r.arena| == item + 1
      && r.arena[item] == MapC([(Strip(parts.0), Leaf(ParseValue(Strip(parts.1))))])
      && (forall i :: 0 <= i < |st.arena| && i != p ==> r.arena[i] == st.arena[i])
      && r.arena[p] == ListC(st.arena[p].items + [Ref(item)])
  {
    PopValid(st, indent);
    var s := PopTo(st.stack, indent);
    var p := Parent(st, indent);
    var item := |st.arena|;
    var parts := SplitOnce(value, ':');
    var m := MapC([(Strip(parts.0), Leaf(ParseValue(Strip(parts.1))))]);
    var a2 := ListAppend(st.arena + [MapC([])], p, Ref(item));
    assert Apply(st, Item(indent, value)) == AddItem(st.arena, s, indent, value);
    assert AddItem(st.arena, s, indent, value) == Success(State(a2[item := m], s + [Frame(indent, item)]));
  }

  /** An item line goes to `AddItem` on the popped stack. */
  lemma {:induction false} ApplyItem(st: State, indent: nat, value: string)
    requires Valid(st)
    ensures Valid(State(st.arena, PopTo(st.stack, indent)))
    ensures Apply(st, Item(indent, value)) == AddItem(st.arena, PopTo(st.stack, indent), indent, value)
  {
    PopValid(st, indent);
  }

  /** The first `- ` item under a frame holding a dict, with a dict as
      grandparent: a new list takes the frame's place, the grandparent's newest
      key holding an empty dict is rebound to it (none: the list stays
      unattached), and the item goes into the list. `s` is the stack after the
      frames at or above the item's indent are popped. */
  lemma {:induction false} FirstItem(a: seq<Container>, s: seq<Frame>, indent: nat, value: string)
    requires Valid(State(a, s)) && ':' !in value
    requires |s| >= 2 && a[s[|s| - 1].id].MapC? && a[s[|s| - 2].id].MapC?
    ensures AddItem(a, s, indent, value).Success?
    ensures var r := AddItem(a, s, indent, value).value;
      var g := s[|s| - 2].id; var e := a[g].entries; var list := |a|;
      && r.stack == s[|s| - 1 := Frame(s[|s| - 1].indent, list)]
      && |r.arena| == list + 1 && r.arena[list] == ListC([Leaf(ParseValue(value))])
      && (forall i :: 0 <= i < |a| && i != g ==> r.arena[i] == a[i])
      && r.arena[g] == match NewestEmptyMap(a, e)
           case None => a[g]
           case Some(k) => MapC(e[k := (e[k].0, Ref(list))])
  {
    OpenedList(a, s);
  }

  /** The first `- key: value` item under a frame holding a dict, with a dict
      as grandparent: the new list takes the frame's place and is rebound as in
      `FirstItem`, it holds one new dict `{key: parse_value(value)}`, and a
      frame for that dict is pushed at the item's indent. */
  lemma {:induction false} FirstMapItem(a: seq<Container>, s: seq<Frame>, indent: nat, value: string)
    requires Valid(State(a, s)) && ':' in value
    requires |s| >= 2 && a[s[|s| - 1].id].MapC? && a[s[|s| - 2].id].MapC?
    ensures AddItem(a, s, indent, value).Success?
    ensures var r := AddItem(a, s, indent, value).value;
      var g := s[|s| - 2].id; var e := a[g].entries; var list := |a|;
      var parts := SplitOnce(value, ':');
      && r.stack == s[|s| - 1 := Frame(s[|s| - 1].indent, list)] + [Frame(indent, list + 1)]
      && |r.arena| == list + 2
      && r.arena[list] == ListC([Ref(list + 1)])
      && r.arena[list + 1] == MapC([(Strip(parts.0), Leaf(ParseValue(Strip(parts.1))))])
      && (forall i :: 0 <= i < |a| && i != g ==> r.arena[i] == a[i])
      && r.arena[g] == match NewestEmptyMap(a, e)
           case None => a[g]
           case Some(k) => MapC(e[k := (e[k].0, Ref(list))])
  {
    OpenedList(a, s);
    var list := |a|;
    var (a1, s1) := StartList(a, s).value;
    var parts := SplitOnce(value, ':');
    var m := MapC([(Strip(parts.0), Leaf(ParseValue(Strip(parts.1))))]);
    assert s1[|s1| - 1].id == list && a1[list] == ListC([]);
    assert [] + [Ref(list + 1)] == [Ref(list + 1)];
    assert AddItem(a, s, indent, value)
      == Success(State(ListAppend(a1 + [MapC([])], list, Ref(list + 1))[list + 1 := m], s1 + [Frame(indent, list + 1)]));
  }

  /** The new list of `StartList` when the grandparent holds a dict. */
  lemma {:induction false} OpenedList(a: seq<Container>, s: seq<Frame>)
    requires Valid(State(a, s))
    requires |s| >= 2 && a[s[|s| - 2].id].MapC?
    ensures StartList(a, s).Success?
    ensures var g := s[|s| - 2].id; var e := a[g].entries; var a1 := a + [ListC([])];
      StartList(a, s).value.0 == match NewestEmptyMap(a, e)
        case None => a1
        case Some(k) => a1[g := MapC(e[k := (e[k].0, Ref(|a|))])]
  {
    var g := s[|s| - 2].id;
    var e := a[g].entries;
    assert (a + [ListC([])])[g] == a[g];
    assert ContainerOk(a[g], g, |a|);
    NewestEmptyMapGrow(a, ListC([]), e);
  }

  /** Appending an unreferenced container changes no answer of the scan. */
  lemma {:induction false} NewestEmptyMapGrow(a: seq<Container>, c: Container, e: seq<(string, Slot)>)
    requires forall k :: 0 <= k < |e| ==> e[k].1.Ref? ==> e[k].1.id < |a|
    requires c != MapC([])
    ensures NewestEmptyMap(a + [c], e) == NewestEmptyMap(a, e)
    decreases |e|
  {
    if e != [] {
      var s := e[|e| - 1].1;
      assert IsEmptyMap(a + [c], s) == IsEmptyMap(a, s) by {
        if s.Ref? {
          assert (a + [c])[s.id] == a[s.id];
        }
      }
      NewestEmptyMapGrow(a, c, e[..|e| - 1]);
    }
  }

  // ---------------------------------------------------------------------
  // The exceptions
  // ---------------------------------------------------------------------

  /** A `- ` item with only the sentinel left on the stack raises: `stack[-2]`
      does not exist. So does every input whose first line of content is an item. */
  lemma {:induction false} ApplyTopLevelItem(st: State, indent: nat, value: string)
    requires Valid(st) && |PopTo(st.stack, indent)| == 1
    ensures Apply(st, Item(indent, value)) == Failure(NoGrandparent)
  {
    PopValid(st, indent);
  }

  lemma {:induction false} DecodeLeadingItem(raw: string, rest: seq<string>)
    requires ParseLine(raw).Item?
    ensures Decode([raw] + rest) == Failure(NoGrandparent)
  {
    var l := [raw] + rest;
    assert l[0] == raw;
    ApplyTopLevelItem(Initial(), ParseLine(raw).indent, ParseLine(raw).value);
  }

  /** A new list whose grandparent container is a list raises. The source
      iterates the grandparent list newest first and indexes it by each
      element; the invariant shows the first element it meets is always a dict
      (the item whose frame sits just above the list), and a list indexed by a
      dict raises `TypeError`. `s` is the stack after popping. */
  lemma {:induction false} GrandparentListFails(a: seq<Container>, s: seq<Frame>, indent: nat, value: string)
    requires Valid(State(a, s))
    requires |s| >= 2 && a[s[|s| - 1].id].MapC? && a[s[|s| - 2].id].ListC?
    ensures AddItem(a, s, indent, value) == Failure(GrandparentIsList)
    ensures var items := a[s[|s| - 2].id].items;
      |items| > 0 && items[|items| - 1].Ref? && a[items[|items| - 1].id].MapC?
  {
    var g := s[|s| - 2].id;
    assert (a + [ListC([])])[g] == a[g];
    assert ListFrameOk(a, g);
  }
}
