/**
 * Whole runs of `decode_yaml` on small documents, for any keys, scalar tokens
 * and indents that fit: the usual nesting of dicts and lists, the inputs on
 * which the source raises, and two inputs on which its list placement gives
 * a surprising result.
 */
module YamlExamples {
  import opened PyStrings
  import opened Nodes
  import opened ScalarValue
  import opened YamlDecoder
  import opened YamlFacts

  // ---------------------------------------------------------------------
  // Reading the example lines
  // ---------------------------------------------------------------------

  /** A word that neither starts nor ends with whitespace and holds no `#`. */
  predicate IsToken(v: string) {
    v != [] && !IsSpace(v[0]) && !IsSpace(v[|v| - 1]) && '#' !in v
  }

  /** A token that can stand before a colon: no colon, and not an item marker. */
  predicate IsKey(k: string) {
    IsToken(k) && ':' !in k && (|k| >= 2 ==> k[..2] != "- ")
  }

  /** `key: v` indented by `n`: one space after the colon. */
  lemma {:induction false} KeyValueLine(n: nat, key: string, v: string)
    requires IsKey(key) && IsToken(v)
    ensures ParseLine(Spaces(n) + key + ": " + v) == KeyLine(n, key, v)
  {
    SpaceBefore(v);
    ColonSpace(Spaces(n) + key, v);
    ParseLineKey(n, key, " " + v);
  }

  /** A token after one space: what `strip` gives back and what the line test sees. */
  lemma {:induction false} SpaceBefore(v: string)
    requires IsToken(v)
    ensures var w := " " + v; w[|w| - 1] == v[|v| - 1] && '#' !in w && Strip(w) == v
  {
    var w := " " + v;
    assert w[|w| - 1] == v[|v| - 1];
    assert w == " " + v + "";
    StripPadded(" ", v, "");
  }

  /** The item text `k + r + v` as one piece after the indent and the marker. */
  lemma {:induction false} Regroup(p: string, q: string, k: string, r: string, v: string)
    ensures p + q + k + r + v == p + q + (k + r + v)
  {
  }

  /** `: v` read as a colon followed by the value ` v`. */
  lemma {:induction false} ColonSpace(p: string, v: string)
    ensures p + ": " + v == p + ":" + (" " + v)
  {
  }

  /** `key:` indented by `n`. */
  lemma {:induction false} PlaceholderLine(n: nat, key: string)
    requires IsKey(key)
    ensures ParseLine(Spaces(n) + key + ":") == KeyLine(n, key, [])
  {
    assert Spaces(n) + key + ":" == Spaces(n) + key + ":" + [];
    ParseLineKey(n, key, []);
  }

  /** `- v` indented by `n`. */
  lemma {:induction false} ItemLine(n: nat, v: string)
    requires IsToken(v)
    ensures ParseLine(Spaces(n) + "- " + v) == Item(n, v)
  {
    ParseLineItem(n, v);
    StripUnchanged(v);
  }

  /** `- key: v` indented by `n`. */
  lemma {:induction false} MapItemLine(n: nat, key: string, v: string)
    requires IsKey(key) && IsToken(v)
    ensures ParseLine(Spaces(n) + "- " + key + ": " + v) == Item(n, key + ": " + v)
  {
    var w := key + ": " + v;
    SpaceBefore(v);
    assert IsToken(w) by {
      assert w[0] == key[0] && w[|w| - 1] == v[|v| - 1];
    }
    Regroup(Spaces(n), "- ", key, ": ", v);
    ItemLine(n, w);
  }

  /** How an item's text `key: v` splits into the new dict's entry. */
  lemma {:induction false} KeyValueText(key: string, v: string)
    requires IsKey(key) && IsToken(v)
    ensures ':' in key + ": " + v
    ensures SplitOnce(key + ": " + v, ':') == (key, " " + v)
    ensures Strip(key) == key && Strip(" " + v) == v
  {
    var w := key + ": " + v;
    assert w[|key|] == ':';
    SpaceBefore(v);
    ColonSpace(key, v);
    SplitOnceAt(key, ':', " " + v);
    StripUnchanged(key);
  }

  /** `key: v` at the top level. */
  lemma {:induction false} TopKeyValueLine(key: string, v: string)
    requires IsKey(key) && IsToken(v)
    ensures ParseLine(key + ": " + v) == KeyLine(0, key, v)
  {
    KeyValueLine(0, key, v);
    NoIndent(key, ": ", v);
  }

  /** `key:` at the top level. */
  lemma {:induction false} TopPlaceholderLine(key: string)
    requires IsKey(key)
    ensures ParseLine(key + ":") == KeyLine(0, key, [])
  {
    PlaceholderLine(0, key);
    NoIndent(key, ":", []);
    assert key + ":" + [] == key + ":";
  }

  /** A top-level line has no leading spaces. */
  lemma {:induction false} NoIndent(k: string, c: string, v: string)
    ensures Spaces(0) + k + c + v == k + c + v
  {
    assert Spaces(0) == [];
  }

  /** A line that reads as `line` and goes through. */
  lemma {:induction false} StepIs(st: State, raw: string, line: Line, next: State)
    requires Valid(st) && ParseLine(raw) == line && Apply(st, line) == Success(next)
    ensures Step(st, raw) == Success(next) && Valid(next)
  {
    StepValid(st, raw);
  }

  /** A line that reads as `line` and raises. */
  lemma {:induction false} StepFails(st: State, raw: string, line: Line, e: DecodeError)
    requires Valid(st) && ParseLine(raw) == line && Apply(st, line) == Failure(e)
    ensures Step(st, raw) == Failure(e)
  {
  }

  /** A run goes line by line. */
  lemma {:induction false} RunCons(st: State, x: string, rest: seq<string>, next: State)
    requires Valid(st) && Step(st, x) == Success(next) && Valid(next)
    ensures Run(st, [x] + rest) == Run(next, rest)
  {
    assert ([x] + rest)[0] == x && ([x] + rest)[1..] == rest;
  }

  /** ... and stops at the first line that raises. */
  lemma {:induction false} RunStops(st: State, x: string, rest: seq<string>, e: DecodeError)
    requires Valid(st) && Step(st, x) == Failure(e)
    ensures Run(st, [x] + rest) == Failure(e)
  {
    assert ([x] + rest)[0] == x;
  }

  /** One line that goes through. */
  lemma {:induction false} Run1(st: State, l0: string, s1: State)
    requires Valid(st) && Step(st, l0) == Success(s1) && Valid(s1)
    ensures Run(st, [l0]) == Success(s1)
  {
    assert [l0] == [l0] + [];
    RunCons(st, l0, [], s1);
  }

  /** Two lines that each go through. */
  lemma {:induction false} Run2(st: State, l0: string, l1: string, s1: State, s2: State)
    requires Valid(st) && Step(st, l0) == Success(s1)
    requires Valid(s1) && Step(s1, l1) == Success(s2) && Valid(s2)
    ensures Run(st, [l0, l1]) == Success(s2)
  {
    Run1(s1, l1, s2);
    assert [l0, l1][0] == l0 && [l0, l1][1..] == [l1];
  }

  /** Three lines that each go through. */
  lemma {:induction false} Run3(st: State, l0: string, l1: string, l2: string, s1: State, s2: State, s3: State)
    requires Valid(st) && Step(st, l0) == Success(s1)
    requires Valid(s1) && Step(s1, l1) == Success(s2)
    requires Valid(s2) && Step(s2, l2) == Success(s3) && Valid(s3)
    ensures Run(st, [l0, l1, l2]) == Success(s3)
  {
    Run2(s1, l1, l2, s2, s3);
    assert [l0, l1, l2][0] == l0 && [l0, l1, l2][1..] == [l1, l2];
  }

  /** Four lines that each go through. */
  lemma {:induction false} Run4(st: State, l0: string, l1: string, l2: string, l3: string,
             s1: State, s2: State, s3: State, s4: State)
    requires Valid(st) && Step(st, l0) == Success(s1)
    requires Valid(s1) && Step(s1, l1) == Success(s2)
    requires Valid(s2) && Step(s2, l2) == Success(s3)
    requires Valid(s3) && Step(s3, l3) == Success(s4) && Valid(s4)
    ensures Run(st, [l0, l1, l2, l3]) == Success(s4)
  {
    Run3(s1, l1, l2, l3, s2, s3, s4);
    assert [l0, l1, l2, l3][0] == l0 && [l0, l1, l2, l3][1..] == [l1, l2, l3];
  }

  /** Three lines that go through, then a fourth. */
  lemma {:induction false} Run3Then(st: State, l0: string, l1: string, l2: string, l3: string,
                 s1: State, s2: State, s3: State, s4: State)
    requires Valid(st) && Step(st, l0) == Success(s1)
    requires Valid(s1) && Step(s1, l1) == Success(s2)
    requires Valid(s2) && Step(s2, l2) == Success(s3)
    requires Valid(s3) && Step(s3, l3) == Success(s4)
    ensures Run(st, [l0, l1, l2, l3]) == Success(s4)
  {
    StepValid(s3, l3);
    Run4(st, l0, l1, l2, l3, s1, s2, s3, s4);
  }

  /** A line that goes through and a second that raises. */
  lemma {:induction false} Run2Fails(st: State, l0: string, l1: string, s1: State, e: DecodeError)
    requires Valid(st) && Step(st, l0) == Success(s1)
    requires Valid(s1) && Step(s1, l1) == Failure(e)
    ensures Run(st, [l0, l1]) == Failure(e)
  {
    assert [l1] == [l1] + [];
    RunStops(s1, l1, [], e);
    assert [l0, l1][0] == l0 && [l0, l1][1..] == [l1];
  }

  /** Two lines that go through and a third that raises. */
  lemma {:induction false} Run3Fails(st: State, l0: string, l1: string, l2: string, s1: State, s2: State, e: DecodeError)
    requires Valid(st) && Step(st, l0) == Success(s1)
    requires Valid(s1) && Step(s1, l1) == Success(s2)
    requires Valid(s2) && Step(s2, l2) == Failure(e)
    ensures Run(st, [l0, l1, l2]) == Failure(e)
  {
    Run2Fails(s1, l1, l2, s2, e);
    assert [l0, l1, l2][0] == l0 && [l0, l1, l2][1..] == [l1, l2];
  }

  // ---------------------------------------------------------------------
  // The states the examples pass through
  // ---------------------------------------------------------------------

  /** Dict entries that hold only scalars. */
  predicate Leaves(e: seq<(string, Slot)>) {
    forall k :: 0 <= k < |e| ==> e[k].1.Leaf?
  }

  /** Only the root dict, holding the scalar entries `e`. */
  function Root(e: seq<(string, Slot)>): State {
    State([MapC(e)], [Frame(-1, 0)])
  }

  /** After `key:` at the top level: `key` holds an empty dict, whose frame is on top. */
  function Opened(e: seq<(string, Slot)>, key: string): State {
    State([MapC(e + [(key, Ref(1))]), MapC([])], [Frame(-1, 0), Frame(0, 1)])
  }

  /** After items under `key:`: `key` holds the list, whose frame took the dict's place. */
  function Listed(e: seq<(string, Slot)>, key: string, items: seq<Slot>): State {
    State([MapC(e + [(key, Ref(2))]), MapC([]), ListC(items)], [Frame(-1, 0), Frame(0, 2)])
  }

  lemma {:induction false} PutNew<V>(e: seq<(string, V)>, key: string, v: V)
    requires key !in Keys(e)
    ensures Put(e, key, v) == e + [(key, v)]
  {
    assert forall j :: 0 <= j < |e| ==> e[j].0 == Keys(e)[j];
  }

  lemma {:induction false} KeysSnoc<V>(e: seq<(string, V)>, key: string, v: V)
    ensures Keys(e + [(key, v)]) == Keys(e) + [key]
  {
  }

  lemma {:induction false} RebindLast(e: seq<(string, Slot)>, key: string, s: Slot, t: Slot)
    ensures (e + [(key, s)])[|e| := ((e + [(key, s)])[|e|].0, t)] == e + [(key, t)]
  {
  }

  /** `key: x` at the top level adds a scalar entry to the root. */
  lemma {:induction false} RootKeyValue(e: seq<(string, Slot)>, key: string, x: string)
    requires Leaves(e) && key !in Keys(e) && x != []
    ensures Valid(Root(e)) && Leaves(e + [(key, Leaf(ParseValue(x)))])
    ensures Apply(Root(e), KeyLine(0, key, x)) == Success(Root(e + [(key, Leaf(ParseValue(x)))]))
  {
    var st := Root(e);
    var e2 := e + [(key, Leaf(ParseValue(x)))];
    assert Valid(st) by {
      assert ContainerOk(st.arena[0], 0, 1);
    }
    assert PopTo(st.stack, 0) == st.stack;
    PutNew(e, key, Leaf(ParseValue(x)));
    assert st.arena[0 := MapC(e2)] == [MapC(e2)];
  }

  /** `key:` at the top level adds an empty dict under `key` and pushes its frame. */
  lemma {:induction false} RootPlaceholder(e: seq<(string, Slot)>, key: string)
    requires Leaves(e) && key !in Keys(e)
    ensures Valid(Root(e)) && Valid(Opened(e, key))
    ensures Apply(Root(e), KeyLine(0, key, [])) == Success(Opened(e, key))
  {
    var st := Root(e);
    var e2 := e + [(key, Ref(1))];
    assert Valid(st) by {
      assert ContainerOk(st.arena[0], 0, 1);
    }
    OpenedValid(e, key);
    assert PopTo(st.stack, 0) == st.stack;
    assert Apply(st, KeyLine(0, key, [])) == AddKey(st.arena, st.stack, 0, key, []);
    PutNew(e, key, Ref(1));
    assert AddKey(st.arena, st.stack, 0, key, []) == Success(State((st.arena + [MapC([])])[0 := MapC(e2)], st.stack + [Frame(0, 1)]));
    assert (st.arena + [MapC([])])[0 := MapC(e2)] == [MapC(e2), MapC([])];
    assert st.stack + [Frame(0, 1)] == [Frame(-1, 0), Frame(0, 1)];
  }

  lemma {:induction false} OpenedValid(e: seq<(string, Slot)>, key: string)
    requires Leaves(e)
    ensures Valid(Opened(e, key))
  {
    assert ContainerOk(MapC(e + [(key, Ref(1))]), 0, 2);
  }

  /** The line `key: x` on the root. */
  lemma {:induction false} StepRootKeyValue(e: seq<(string, Slot)>, key: string, x: string)
    requires Leaves(e) && key !in Keys(e) && IsKey(key) && IsToken(x)
    ensures Valid(Root(e)) && Leaves(e + [(key, Leaf(ParseValue(x)))])
    ensures Step(Root(e), key + ": " + x) == Success(Root(e + [(key, Leaf(ParseValue(x)))]))
  {
    TopKeyValueLine(key, x);
    RootKeyValue(e, key, x);
    StepIs(Root(e), key + ": " + x, KeyLine(0, key, x), Root(e + [(key, Leaf(ParseValue(x)))]));
  }

  /** The line `key:` on the root. */
  lemma {:induction false} StepRootPlaceholder(e: seq<(string, Slot)>, key: string)
    requires Leaves(e) && key !in Keys(e) && IsKey(key)
    ensures Valid(Root(e)) && Valid(Opened(e, key))
    ensures Step(Root(e), key + ":") == Success(Opened(e, key))
  {
    TopPlaceholderLine(key);
    RootPlaceholder(e, key);
    StepIs(Root(e), key + ":", KeyLine(0, key, []), Opened(e, key));
  }

  /** The first item under `key:` opens a list that replaces `key`'s empty dict. */
  lemma {:induction false} OpenedList(e: seq<(string, Slot)>, key: string, n: nat)
    requires Leaves(e) && n > 0
    ensures Valid(Opened(e, key)) && PopTo(Opened(e, key).stack, n) == Opened(e, key).stack
    ensures StartList(Opened(e, key).arena, Opened(e, key).stack)
      == Success((Listed(e, key, []).arena, Listed(e, key, []).stack))
  {
    var st := Opened(e, key);
    var e1 := e + [(key, Ref(1))];
    assert Valid(st) by {
      assert ContainerOk(st.arena[0], 0, 2);
    }
    var a1 := st.arena + [ListC([])];
    assert a1[0].entries == e1;
    assert IsEmptyMap(a1, e1[|e|].1);
    assert NewestEmptyMap(a1, e1) == Some(|e|);
    RebindLast(e, key, Ref(1), Ref(2));
    assert a1[0 := MapC(e + [(key, Ref(2))])] == Listed(e, key, []).arena;
    assert st.stack[1 := Frame(0, 2)] == Listed(e, key, []).stack;
  }

  /** ... and the item's value goes into it. */
  lemma {:induction false} OpenedItem(e: seq<(string, Slot)>, key: string, y: string, n: nat)
    requires Leaves(e) && ':' !in y && n > 0
    ensures Valid(Opened(e, key))
    ensures Apply(Opened(e, key), Item(n, y)) == Success(Listed(e, key, [Leaf(ParseValue(y))]))
  {
    var st := Opened(e, key);
    var b := Listed(e, key, []).arena;
    OpenedList(e, key, n);
    ApplyItem(st, n, y);
    assert st.arena[1].MapC?;
    assert AddItem(st.arena, st.stack, n, y) == Success(State(ListAppend(b, 2, Leaf(ParseValue(y))), Listed(e, key, []).stack));
    assert [] + [Leaf(ParseValue(y))] == [Leaf(ParseValue(y))];
    assert ListAppend(b, 2, Leaf(ParseValue(y))) == Listed(e, key, [Leaf(ParseValue(y))]).arena;
  }

  /** A later item at the list's indent appends to it. */
  lemma {:induction false} ListedItem(e: seq<(string, Slot)>, key: string, items: seq<Slot>, z: string, n: nat)
    requires Valid(Listed(e, key, items)) && ':' !in z && n > 0
    ensures Apply(Listed(e, key, items), Item(n, z)) == Success(Listed(e, key, items + [Leaf(ParseValue(z))]))
  {
    var st := Listed(e, key, items);
    assert PopTo(st.stack, n) == st.stack;
    assert st.arena[2 := ListC(items + [Leaf(ParseValue(z))])] == Listed(e, key, items + [Leaf(ParseValue(z))]).arena;
  }

  /** A `key: value` line at the list's indent raises. */
  lemma {:induction false} ListedKey(e: seq<(string, Slot)>, key: string, items: seq<Slot>, k: string, v: string, n: nat)
    requires Valid(Listed(e, key, items)) && n > 0
    ensures Apply(Listed(e, key, items), KeyLine(n, k, v)) == Failure(KeyOnList)
  {
    var st := Listed(e, key, items);
    assert PopTo(st.stack, n) == st.stack;
    ApplyKeyOnList(st, n, k, v);
  }

  /** The line `- y` under `key:`. */
  lemma {:induction false} StepOpenedItem(e: seq<(string, Slot)>, key: string, y: string, n: nat)
    requires Leaves(e) && IsToken(y) && ':' !in y && n > 0
    ensures Valid(Opened(e, key)) && Valid(Listed(e, key, [Leaf(ParseValue(y))]))
    ensures Step(Opened(e, key), Spaces(n) + "- " + y) == Success(Listed(e, key, [Leaf(ParseValue(y))]))
  {
    ItemLine(n, y);
    OpenedItem(e, key, y, n);
    StepIs(Opened(e, key), Spaces(n) + "- " + y, Item(n, y), Listed(e, key, [Leaf(ParseValue(y))]));
  }

  /** The line `- z` at the list's indent. */
  lemma {:induction false} StepListedItem(e: seq<(string, Slot)>, key: string, items: seq<Slot>, z: string, n: nat)
    requires Valid(Listed(e, key, items)) && IsToken(z) && ':' !in z && n > 0
    ensures Valid(Listed(e, key, items + [Leaf(ParseValue(z))]))
    ensures Step(Listed(e, key, items), Spaces(n) + "- " + z) == Success(Listed(e, key, items + [Leaf(ParseValue(z))]))
  {
    ItemLine(n, z);
    ListedItem(e, key, items, z, n);
    StepIs(Listed(e, key, items), Spaces(n) + "- " + z, Item(n, z), Listed(e, key, items + [Leaf(ParseValue(z))]));
  }

  // ---------------------------------------------------------------------
  // A dict holding a scalar and a list
  //
  //   ka: x
  //   kb:
  //     - y
  //     - z
  // ---------------------------------------------------------------------

  /** Keys at the top level; an empty value opens a dict that the first deeper
      item turns into a list in its place, and later items at that indent append
      to the list. */
  lemma {:induction false} DecodeNestedList(ka: string, kb: string, x: string, y: string, z: string, n: nat)
    requires IsKey(ka) && IsKey(kb) && ka != kb && IsToken(x)
    requires IsToken(y) && ':' !in y && IsToken(z) && ':' !in z && n > 0
    ensures Decode([ka + ": " + x, kb + ":", Spaces(n) + "- " + y, Spaces(n) + "- " + z])
      == Success(Map([(ka, ParseValue(x)), (kb, List([ParseValue(y), ParseValue(z)]))]))
  {
    var e := [(ka, Leaf(ParseValue(x)))];
    NestedListRun(ka, kb, x, y, z, n);
    TreeNestedList(Listed(e, kb, [Leaf(ParseValue(y)), Leaf(ParseValue(z))]).arena, ka, kb, ParseValue(x), ParseValue(y), ParseValue(z));
  }

  lemma {:induction false} NestedListRun(ka: string, kb: string, x: string, y: string, z: string, n: nat)
    requires IsKey(ka) && IsKey(kb) && ka != kb && IsToken(x)
    requires IsToken(y) && ':' !in y && IsToken(z) && ':' !in z && n > 0
    ensures Run(Initial(), [ka + ": " + x, kb + ":", Spaces(n) + "- " + y, Spaces(n) + "- " + z])
      == Success(Listed([(ka, Leaf(ParseValue(x)))], kb, [Leaf(ParseValue(y)), Leaf(ParseValue(z))]))
  {
    var vx, vy, vz := ParseValue(x), ParseValue(y), ParseValue(z);
    var e := [(ka, Leaf(vx))];
    StepFirstKey(ka, x);
    StepRootPlaceholder(e, kb);
    NestedListItems(e, kb, y, z, n);
    Run3Then(Root([]), ka + ": " + x, kb + ":", Spaces(n) + "- " + y, Spaces(n) + "- " + z,
             Root(e), Opened(e, kb), Listed(e, kb, [Leaf(vy)]), Listed(e, kb, [Leaf(vy), Leaf(vz)]));
  }

  /** The line `ka: x` on the empty root. */
  lemma {:induction false} StepFirstKey(ka: string, x: string)
    requires IsKey(ka) && IsToken(x)
    ensures Valid(Root([])) && Leaves([(ka, Leaf(ParseValue(x)))])
    ensures Step(Root([]), ka + ": " + x) == Success(Root([(ka, Leaf(ParseValue(x)))]))
  {
    StepRootKeyValue([], ka, x);
    assert [] + [(ka, Leaf(ParseValue(x)))] == [(ka, Leaf(ParseValue(x)))];
  }

  lemma {:induction false} NestedListItems(e: seq<(string, Slot)>, kb: string, y: string, z: string, n: nat)
    requires Leaves(e) && IsToken(y) && ':' !in y && IsToken(z) && ':' !in z && n > 0
    ensures Valid(Opened(e, kb)) && Step(Opened(e, kb), Spaces(n) + "- " + y) == Success(Listed(e, kb, [Leaf(ParseValue(y))]))
    ensures Valid(Listed(e, kb, [Leaf(ParseValue(y))]))
    ensures Step(Listed(e, kb, [Leaf(ParseValue(y))]), Spaces(n) + "- " + z)
      == Success(Listed(e, kb, [Leaf(ParseValue(y)), Leaf(ParseValue(z))]))
  {
    StepOpenedItem(e, kb, y, n);
    StepListedItem(e, kb, [Leaf(ParseValue(y))], z, n);
    Snoc(Leaf(ParseValue(y)), Leaf(ParseValue(z)));
  }

  /** Two one-element sequences joined are the two-element sequence. */
  lemma {:induction false} Snoc<T>(a: T, b: T)
    ensures [a] + [b] == [a, b]
  {
  }

  lemma {:induction false} TreeNestedList(a: seq<Container>, ka: string, kb: string, x: Node, y: Node, z: Node)
    requires a == Listed([(ka, Leaf(x))], kb, [Leaf(y), Leaf(z)]).arena
    ensures Forward(a)
    ensures Tree(a, 0) == Map([(ka, x), (kb, List([y, z]))])
  {
    assert a[0].entries == [(ka, Leaf(x)), (kb, Ref(2))];
    assert Forward(a) by {
      assert ContainerOk(a[0], 0, 3);
    }
    assert TreeItems(a, 2, [Leaf(z)]) == [z];
    assert TreeItems(a, 2, a[2].items) == [y, z];
    assert Tree(a, 2) == List([y, z]);
    assert TreeEntries(a, 0, [(kb, Ref(2))]) == [(kb, List([y, z]))];
    assert TreeEntries(a, 0, a[0].entries) == [(ka, x), (kb, List([y, z]))];
  }

  // ---------------------------------------------------------------------
  // A key line inside a list
  //
  //   ka:
  //     - x
  //     kb: y
  // ---------------------------------------------------------------------

  /** A `key: value` line at the indent of a list's items raises: after the
      pops its frame is the list, and a list is indexed by a string. */
  lemma {:induction false} DecodeKeyOnList(ka: string, kb: string, x: string, y: string, n: nat)
    requires IsKey(ka) && IsKey(kb) && IsToken(x) && ':' !in x && IsToken(y) && n > 0
    ensures Decode([ka + ":", Spaces(n) + "- " + x, Spaces(n) + kb + ": " + y]) == Failure(KeyOnList)
  {
    StepRootPlaceholder([], ka);
    KeyOnListTail(ka, kb, x, y, n);
    Run3Fails(Root([]), ka + ":", Spaces(n) + "- " + x, Spaces(n) + kb + ": " + y,
              Opened([], ka), Listed([], ka, [Leaf(ParseValue(x))]), KeyOnList);
  }

  lemma {:induction false} KeyOnListTail(ka: string, kb: string, x: string, y: string, n: nat)
    requires IsKey(kb) && IsToken(x) && ':' !in x && IsToken(y) && n > 0
    ensures Valid(Opened([], ka)) && Valid(Listed([], ka, [Leaf(ParseValue(x))]))
    ensures Step(Opened([], ka), Spaces(n) + "- " + x) == Success(Listed([], ka, [Leaf(ParseValue(x))]))
    ensures Step(Listed([], ka, [Leaf(ParseValue(x))]), Spaces(n) + kb + ": " + y) == Failure(KeyOnList)
  {
    StepOpenedItem([], ka, x, n);
    KeyValueLine(n, kb, y);
    ListedKey([], ka, [Leaf(ParseValue(x))], kb, y, n);
    StepFails(Listed([], ka, [Leaf(ParseValue(x))]), Spaces(n) + kb + ": " + y, KeyLine(n, kb, y), KeyOnList);
  }

  // ---------------------------------------------------------------------
  // An item before any key
  //
  //   - y
  // ---------------------------------------------------------------------

  /** A first line that is a `- ` item raises, whatever follows: its frame is
      the sentinel, and `stack[-2]` does not exist. */
  lemma {:induction false} DecodeTopLevelItem(y: string, n: nat, rest: seq<string>)
    requires IsToken(y)
    ensures Decode([Spaces(n) + "- " + y] + rest) == Failure(NoGrandparent)
  {
    ItemLine(n, y);
    DecodeLeadingItem(Spaces(n) + "- " + y, rest);
  }

  // ---------------------------------------------------------------------
  // A list of dicts
  //
  //   ka:
  //     - kb: x
  //       kc: y
  //     - kb: z
  // ---------------------------------------------------------------------

  /** The list under `ka` holding one dict `d`, whose frame is on top. */
  function OneDict(ka: string, d: Container, n: nat): State {
    State([MapC([(ka, Ref(2))]), MapC([]), ListC([Ref(3)]), d], [Frame(-1, 0), Frame(0, 2), Frame(n, 3)])
  }

  /** The list under `ka` holding two dicts; the second one's frame is on top. */
  function TwoDicts(ka: string, d: Container, d2: Container, n: nat): State {
    State([MapC([(ka, Ref(2))]), MapC([]), ListC([Ref(3), Ref(4)]), d, d2], [Frame(-1, 0), Frame(0, 2), Frame(n, 4)])
  }

  /** `- kb: x` opens a dict in the list, `kc: y` deeper goes into that dict,
      and the next `- kb: z` at the list's indent opens the next dict. */
  lemma {:induction false} DecodeListOfDicts(ka: string, kb: string, kc: string, x: string, y: string, z: string, n: nat, m: nat)
    requires IsKey(ka) && IsKey(kb) && IsKey(kc) && kb != kc && IsToken(x) && IsToken(y) && IsToken(z)
    requires 0 < n < m
    ensures Decode([ka + ":", Spaces(n) + "- " + kb + ": " + x, Spaces(m) + kc + ": " + y, Spaces(n) + "- " + kb + ": " + z])
      == Success(Map([(ka, List([Map([(kb, ParseValue(x)), (kc, ParseValue(y))]), Map([(kb, ParseValue(z))])]))]))
  {
    var d := MapC([(kb, Leaf(ParseValue(x))), (kc, Leaf(ParseValue(y)))]);
    var d2 := MapC([(kb, Leaf(ParseValue(z)))]);
    ListOfDictsRun(ka, kb, kc, x, y, z, n, m);
    TreeListOfDicts(TwoDicts(ka, d, d2, n).arena, ka, kb, kc, ParseValue(x), ParseValue(y), ParseValue(z));
  }

  lemma {:induction false} ListOfDictsRun(ka: string, kb: string, kc: string, x: string, y: string, z: string, n: nat, m: nat)
    requires IsKey(ka) && IsKey(kb) && IsKey(kc) && kb != kc && IsToken(x) && IsToken(y) && IsToken(z)
    requires 0 < n < m
    ensures Run(Initial(), [ka + ":", Spaces(n) + "- " + kb + ": " + x, Spaces(m) + kc + ": " + y, Spaces(n) + "- " + kb + ": " + z])
      == Success(TwoDicts(ka, MapC([(kb, Leaf(ParseValue(x))), (kc, Leaf(ParseValue(y)))]), MapC([(kb, Leaf(ParseValue(z)))]), n))
  {
    var d1 := MapC([(kb, Leaf(ParseValue(x)))]);
    var d := MapC([(kb, Leaf(ParseValue(x))), (kc, Leaf(ParseValue(y)))]);
    StepRootPlaceholder([], ka);
    StepOpenedMapItem(ka, kb, x, n);
    ListOfDictsTail(ka, kb, kc, x, y, z, n, m);
    Run3Then(Root([]), ka + ":", Spaces(n) + "- " + kb + ": " + x, Spaces(m) + kc + ": " + y, Spaces(n) + "- " + kb + ": " + z,
             Opened([], ka), OneDict(ka, d1, n), OneDict(ka, d, n), TwoDicts(ka, d, MapC([(kb, Leaf(ParseValue(z)))]), n));
  }

  lemma {:induction false} ListOfDictsTail(ka: string, kb: string, kc: string, x: string, y: string, z: string, n: nat, m: nat)
    requires IsKey(kb) && IsKey(kc) && kb != kc && IsToken(x) && IsToken(y) && IsToken(z) && 0 < n < m
    ensures var d1 := MapC([(kb, Leaf(ParseValue(x)))]);
      var d := MapC([(kb, Leaf(ParseValue(x))), (kc, Leaf(ParseValue(y)))]);
      && Valid(OneDict(ka, d1, n)) && Step(OneDict(ka, d1, n), Spaces(m) + kc + ": " + y) == Success(OneDict(ka, d, n))
      && Valid(OneDict(ka, d, n))
      && Step(OneDict(ka, d, n), Spaces(n) + "- " + kb + ": " + z) == Success(TwoDicts(ka, d, MapC([(kb, Leaf(ParseValue(z)))]), n))
  {
    var d := MapC([(kb, Leaf(ParseValue(x))), (kc, Leaf(ParseValue(y)))]);
    StepSecondDictKey(ka, kb, kc, x, y, n, m);
    StepDictNextItem(ka, d, kb, z, n);
  }

  lemma {:induction false} StepSecondDictKey(ka: string, kb: string, kc: string, x: string, y: string, n: nat, m: nat)
    requires IsKey(kc) && kb != kc && IsToken(y) && 0 < n < m
    ensures var d1 := MapC([(kb, Leaf(ParseValue(x)))]);
      var d := MapC([(kb, Leaf(ParseValue(x))), (kc, Leaf(ParseValue(y)))]);
      && Valid(OneDict(ka, d1, n)) && Step(OneDict(ka, d1, n), Spaces(m) + kc + ": " + y) == Success(OneDict(ka, d, n))
      && Valid(OneDict(ka, d, n))
  {
    StepDictKey(ka, [(kb, Leaf(ParseValue(x)))], [(kb, Leaf(ParseValue(x))), (kc, Leaf(ParseValue(y)))], kc, y, n, m);
  }

  /** The list under `ka` holding dicts with scalar entries is well formed. */
  lemma {:induction false} OneDictValid(ka: string, de: seq<(string, Slot)>, n: nat)
    requires Leaves(de) && n > 0
    ensures Valid(OneDict(ka, MapC(de), n))
  {
    var a := OneDict(ka, MapC(de), n).arena;
    assert ContainerOk(a[0], 0, 4) && ContainerOk(a[2], 2, 4) && ContainerOk(a[3], 3, 4);
  }

  /** Once the list is ready, an item under a dict's frame goes into it. */
  lemma {:induction false} ItemAfterStart(a: seq<Container>, s: seq<Frame>, n: nat, v: string)
    requires Valid(State(a, s)) && s[|s| - 1].indent < n && a[s[|s| - 1].id].MapC? && StartList(a, s).Success?
    ensures Valid(State(StartList(a, s).value.0, StartList(a, s).value.1))
    ensures AddItem(a, s, n, v) == AddItem(StartList(a, s).value.0, StartList(a, s).value.1, n, v)
  {
    StartListValid(a, s);
  }

  /** `- x` on a list frame: its value is appended and nothing is pushed. */
  lemma {:induction false} ScalarItemOnList(a: seq<Container>, s: seq<Frame>, n: nat, x: string)
    requires Valid(State(a, s)) && a[s[|s| - 1].id].ListC? && ':' !in x
    ensures AddItem(a, s, n, x) == Success(State(ListAppend(a, s[|s| - 1].id, Leaf(ParseValue(x))), s))
  {
  }

  /** `- kb: x` on a list frame: a one-entry dict is appended and its frame pushed. */
  lemma {:induction false} MapItemOnList(a: seq<Container>, s: seq<Frame>, n: nat, kb: string, x: string)
    requires Valid(State(a, s)) && a[s[|s| - 1].id].ListC? && IsKey(kb) && IsToken(x)
    ensures AddItem(a, s, n, kb + ": " + x)
      == Success(State(ListAppend(a + [MapC([])], s[|s| - 1].id, Ref(|a|))[|a| := MapC([(kb, Leaf(ParseValue(x)))])],
                       s + [Frame(n, |a|)]))
  {
    KeyValueText(kb, x);
  }

  /** The first `- kb: x` under `ka:`. */
  lemma {:induction false} OpenedMapItem(ka: string, kb: string, x: string, n: nat)
    requires IsKey(kb) && IsToken(x) && n > 0
    ensures Valid(Opened([], ka))
    ensures Apply(Opened([], ka), Item(n, kb + ": " + x)) == Success(OneDict(ka, MapC([(kb, Leaf(ParseValue(x)))]), n))
  {
    var st := Opened([], ka);
    var v := kb + ": " + x;
    var l := Listed([], ka, []);
    OpenedList([], ka, n);
    ApplyItem(st, n, v);
    ItemAfterStart(st.arena, st.stack, n, v);
    MapItemOnList(l.arena, l.stack, n, kb, x);
    OneDictArena(ka, kb, x, n);
  }

  lemma {:induction false} OneDictArena(ka: string, kb: string, x: string, n: nat)
    ensures var l := Listed([], ka, []);
      && ListAppend(l.arena + [MapC([])], 2, Ref(3))[3 := MapC([(kb, Leaf(ParseValue(x)))])]
         == OneDict(ka, MapC([(kb, Leaf(ParseValue(x)))]), n).arena
      && l.stack + [Frame(n, 3)] == OneDict(ka, MapC([(kb, Leaf(ParseValue(x)))]), n).stack
  {
    assert [] + [(ka, Ref(2))] == [(ka, Ref(2))];
    assert [] + [Ref(3)] == [Ref(3)];
  }

  lemma {:induction false} StepOpenedMapItem(ka: string, kb: string, x: string, n: nat)
    requires IsKey(kb) && IsToken(x) && n > 0
    ensures Valid(Opened([], ka)) && Valid(OneDict(ka, MapC([(kb, Leaf(ParseValue(x)))]), n))
    ensures Step(Opened([], ka), Spaces(n) + "- " + kb + ": " + x) == Success(OneDict(ka, MapC([(kb, Leaf(ParseValue(x)))]), n))
  {
    MapItemLine(n, kb, x);
    OpenedMapItem(ka, kb, x, n);
    StepIs(Opened([], ka), Spaces(n) + "- " + kb + ": " + x, Item(n, kb + ": " + x), OneDict(ka, MapC([(kb, Leaf(ParseValue(x)))]), n));
  }

  /** A deeper `kc: y` goes into the dict on top: `de2` is its entries after. */
  lemma {:induction false} DictKey(ka: string, de: seq<(string, Slot)>, de2: seq<(string, Slot)>, kc: string, y: string, n: nat, m: nat)
    requires Leaves(de) && kc !in Keys(de) && y != [] && 0 < n < m
    requires de2 == de + [(kc, Leaf(ParseValue(y)))]
    ensures Valid(OneDict(ka, MapC(de), n))
    ensures Apply(OneDict(ka, MapC(de), n), KeyLine(m, kc, y)) == Success(OneDict(ka, MapC(de2), n))
  {
    var st := OneDict(ka, MapC(de), n);
    OneDictValid(ka, de, n);
    assert PopTo(st.stack, m) == st.stack;
    PutNew(de, kc, Leaf(ParseValue(y)));
    assert st.arena[3 := MapC(de2)] == OneDict(ka, MapC(de2), n).arena;
  }

  lemma {:induction false} StepDictKey(ka: string, de: seq<(string, Slot)>, de2: seq<(string, Slot)>, kc: string, y: string, n: nat, m: nat)
    requires Leaves(de) && kc !in Keys(de) && IsKey(kc) && IsToken(y) && 0 < n < m
    requires de2 == de + [(kc, Leaf(ParseValue(y)))]
    ensures Valid(OneDict(ka, MapC(de), n)) && Valid(OneDict(ka, MapC(de2), n))
    ensures Step(OneDict(ka, MapC(de), n), Spaces(m) + kc + ": " + y) == Success(OneDict(ka, MapC(de2), n))
  {
    KeyValueLine(m, kc, y);
    DictKey(ka, de, de2, kc, y, n, m);
    StepIs(OneDict(ka, MapC(de), n), Spaces(m) + kc + ": " + y, KeyLine(m, kc, y), OneDict(ka, MapC(de2), n));
  }

  /** The next `- kb: z` at the list's indent closes the dict and opens another. */
  lemma {:induction false} DictNextItem(ka: string, d: Container, kb: string, z: string, n: nat)
    requires Valid(OneDict(ka, d, n)) && IsKey(kb) && IsToken(z) && n > 0
    ensures Apply(OneDict(ka, d, n), Item(n, kb + ": " + z)) == Success(TwoDicts(ka, d, MapC([(kb, Leaf(ParseValue(z)))]), n))
  {
    var st := OneDict(ka, d, n);
    var s := [Frame(-1, 0), Frame(0, 2)];
    assert PopTo(st.stack, n) == s;
    ApplyItem(st, n, kb + ": " + z);
    MapItemOnList(st.arena, s, n, kb, z);
    TwoDictsArena(ka, d, kb, z, n);
  }

  lemma {:induction false} TwoDictsArena(ka: string, d: Container, kb: string, z: string, n: nat)
    ensures var a := OneDict(ka, d, n).arena;
      && ListAppend(a + [MapC([])], 2, Ref(4))[4 := MapC([(kb, Leaf(ParseValue(z)))])]
         == TwoDicts(ka, d, MapC([(kb, Leaf(ParseValue(z)))]), n).arena
      && [Frame(-1, 0), Frame(0, 2)] + [Frame(n, 4)] == TwoDicts(ka, d, MapC([(kb, Leaf(ParseValue(z)))]), n).stack
  {
    assert [Ref(3)] + [Ref(4)] == [Ref(3), Ref(4)];
  }

  lemma {:induction false} StepDictNextItem(ka: string, d: Container, kb: string, z: string, n: nat)
    requires Valid(OneDict(ka, d, n)) && IsKey(kb) && IsToken(z) && n > 0
    ensures Valid(TwoDicts(ka, d, MapC([(kb, Leaf(ParseValue(z)))]), n))
    ensures Step(OneDict(ka, d, n), Spaces(n) + "- " + kb + ": " + z) == Success(TwoDicts(ka, d, MapC([(kb, Leaf(ParseValue(z)))]), n))
  {
    MapItemLine(n, kb, z);
    DictNextItem(ka, d, kb, z, n);
    StepIs(OneDict(ka, d, n), Spaces(n) + "- " + kb + ": " + z, Item(n, kb + ": " + z), TwoDicts(ka, d, MapC([(kb, Leaf(ParseValue(z)))]), n));
  }

  lemma {:induction false} TreeListOfDicts(a: seq<Container>, ka: string, kb: string, kc: string, x: Node, y: Node, z: Node)
    requires a == TwoDicts(ka, MapC([(kb, Leaf(x)), (kc, Leaf(y))]), MapC([(kb, Leaf(z))]), 1).arena
    ensures Forward(a)
    ensures Tree(a, 0) == Map([(ka, List([Map([(kb, x), (kc, y)]), Map([(kb, z)])]))])
  {
    assert Forward(a) by {
      assert ContainerOk(a[0], 0, 5) && ContainerOk(a[2], 2, 5) && ContainerOk(a[3], 3, 5) && ContainerOk(a[4], 4, 5);
    }
    var d, d2 := Map([(kb, x), (kc, y)]), Map([(kb, z)]);
    TreeDicts(a, kb, kc, x, y, z);
    assert TreeItems(a, 2, [Ref(4)]) == [d2];
    assert TreeItems(a, 2, a[2].items) == [d, d2];
    assert Tree(a, 2) == List([d, d2]);
    assert TreeEntries(a, 0, a[0].entries) == [(ka, List([d, d2]))];
  }

  lemma {:induction false} TreeDicts(a: seq<Container>, kb: string, kc: string, x: Node, y: Node, z: Node)
    requires Forward(a) && |a| == 5 && a[3] == MapC([(kb, Leaf(x)), (kc, Leaf(y))]) && a[4] == MapC([(kb, Leaf(z))])
    ensures Tree(a, 3) == Map([(kb, x), (kc, y)]) && Tree(a, 4) == Map([(kb, z)])
  {
    assert TreeEntries(a, 3, [(kc, Leaf(y))]) == [(kc, y)];
    assert TreeEntries(a, 3, a[3].entries) == [(kb, x), (kc, y)];
    assert TreeEntries(a, 4, a[4].entries) == [(kb, z)];
  }

  // ---------------------------------------------------------------------
  // A deeper item inside a dict of a list
  //
  //   ka:
  //     - kb: x
  //         - y
  // ---------------------------------------------------------------------

  /** A deeper `- ` item under a dict that is itself a list item raises: the
      new list's grandparent is the outer list, which the source indexes by
      one of its own dicts. */
  lemma {:induction false} DecodeItemUnderListedDict(ka: string, kb: string, x: string, y: string, n: nat, m: nat)
    requires IsKey(ka) && IsKey(kb) && IsToken(x) && IsToken(y) && 0 < n < m
    ensures Decode([ka + ":", Spaces(n) + "- " + kb + ": " + x, Spaces(m) + "- " + y]) == Failure(GrandparentIsList)
  {
    var d := MapC([(kb, Leaf(ParseValue(x)))]);
    StepRootPlaceholder([], ka);
    StepOpenedMapItem(ka, kb, x, n);
    StepDeeperItem(ka, d, y, n, m);
    Run3Fails(Root([]), ka + ":", Spaces(n) + "- " + kb + ": " + x, Spaces(m) + "- " + y,
              Opened([], ka), OneDict(ka, d, n), GrandparentIsList);
  }

  lemma {:induction false} StepDeeperItem(ka: string, d: Container, y: string, n: nat, m: nat)
    requires Valid(OneDict(ka, d, n)) && d.MapC? && IsToken(y) && 0 < n < m
    ensures Step(OneDict(ka, d, n), Spaces(m) + "- " + y) == Failure(GrandparentIsList)
  {
    var st := OneDict(ka, d, n);
    ItemLine(m, y);
    assert PopTo(st.stack, m) == st.stack;
    ApplyItem(st, m, Strip(y));
    GrandparentListFails(st.arena, st.stack, m, Strip(y));
  }

  // ---------------------------------------------------------------------
  // An item under a nested empty dict
  //
  //   ka:
  //     kb:
  //     - x
  // ---------------------------------------------------------------------

  /** After `ka:` and a deeper `kb:`: two nested empty dicts, both frames pushed. */
  function Nested(ka: string, kb: string, n: nat): State {
    State([MapC([(ka, Ref(1))]), MapC([(kb, Ref(2))]), MapC([])], [Frame(-1, 0), Frame(0, 1), Frame(n, 2)])
  }

  /** The same dicts and an unattached list, whose frame replaced `ka`'s. */
  function Unattached(ka: string, kb: string, items: seq<Slot>): State {
    State([MapC([(ka, Ref(1))]), MapC([(kb, Ref(2))]), MapC([]), ListC(items)], [Frame(-1, 0), Frame(0, 3)])
  }

  /** An item at the indent of `kb:` pops `kb`'s frame, so the new list is
      meant for `ka`'s dict; but the scan looks in the root for a key holding an
      empty dict, `ka` no longer holds one, and the list and its items are lost. */
  lemma {:induction false} DecodeUnattachedList(ka: string, kb: string, x: string, n: nat)
    requires IsKey(ka) && IsKey(kb) && IsToken(x) && ':' !in x && n > 0
    ensures Decode([ka + ":", Spaces(n) + kb + ":", Spaces(n) + "- " + x])
      == Success(Map([(ka, Map([(kb, Map([]))]))]))
  {
    StepRootPlaceholder([], ka);
    UnattachedTail(ka, kb, x, n);
    Run3(Root([]), ka + ":", Spaces(n) + kb + ":", Spaces(n) + "- " + x,
         Opened([], ka), Nested(ka, kb, n), Unattached(ka, kb, [Leaf(ParseValue(x))]));
    TreeUnattached(Unattached(ka, kb, [Leaf(ParseValue(x))]).arena, ka, kb, ParseValue(x));
  }

  lemma {:induction false} UnattachedTail(ka: string, kb: string, x: string, n: nat)
    requires IsKey(kb) && IsToken(x) && ':' !in x && n > 0
    ensures Valid(Opened([], ka)) && Step(Opened([], ka), Spaces(n) + kb + ":") == Success(Nested(ka, kb, n))
    ensures Valid(Nested(ka, kb, n))
    ensures Step(Nested(ka, kb, n), Spaces(n) + "- " + x) == Success(Unattached(ka, kb, [Leaf(ParseValue(x))]))
    ensures Valid(Unattached(ka, kb, [Leaf(ParseValue(x))]))
  {
    PlaceholderLine(n, kb);
    OpenedPlaceholder(ka, kb, n);
    StepIs(Opened([], ka), Spaces(n) + kb + ":", KeyLine(n, kb, []), Nested(ka, kb, n));
    ItemLine(n, x);
    NestedItem(ka, kb, x, n);
    StepIs(Nested(ka, kb, n), Spaces(n) + "- " + x, Item(n, x), Unattached(ka, kb, [Leaf(ParseValue(x))]));
  }

  /** `kb:` deeper than `ka:`. */
  lemma {:induction false} OpenedPlaceholder(ka: string, kb: string, n: nat)
    requires n > 0
    ensures Valid(Opened([], ka))
    ensures Apply(Opened([], ka), KeyLine(n, kb, [])) == Success(Nested(ka, kb, n))
  {
    var st := Opened([], ka);
    OpenedValid([], ka);
    assert PopTo(st.stack, n) == st.stack;
    assert Put([], kb, Ref(2)) == [(kb, Ref(2))];
    assert [] + [(ka, Ref(1))] == [(ka, Ref(1))];
    assert (st.arena + [MapC([])])[1 := MapC([(kb, Ref(2))])] == Nested(ka, kb, n).arena;
    assert st.stack + [Frame(n, 2)] == Nested(ka, kb, n).stack;
  }

  /** `- x` at the indent of `kb:`. */
  lemma {:induction false} NestedItem(ka: string, kb: string, x: string, n: nat)
    requires ':' !in x && n > 0
    ensures Apply(Nested(ka, kb, n), Item(n, x)) == Success(Unattached(ka, kb, [Leaf(ParseValue(x))]))
  {
    var st := Nested(ka, kb, n);
    var s := [Frame(-1, 0), Frame(0, 1)];
    NestedValid(ka, kb, n);
    assert PopTo(st.stack, n) == s;
    ApplyItem(st, n, x);
    NestedStart(ka, kb, n);
    ItemAfterStart(st.arena, s, n, x);
    ScalarItemOnList(st.arena + [ListC([])], [Frame(-1, 0), Frame(0, 3)], n, x);
    UnattachedArena(ka, kb, n, ParseValue(x));
  }

  lemma {:induction false} NestedValid(ka: string, kb: string, n: nat)
    requires n > 0
    ensures Valid(Nested(ka, kb, n))
  {
    var a := Nested(ka, kb, n).arena;
    assert ContainerOk(a[0], 0, 3) && ContainerOk(a[1], 1, 3);
  }

  lemma {:induction false} UnattachedArena(ka: string, kb: string, n: nat, v: Node)
    ensures ListAppend(Nested(ka, kb, n).arena + [ListC([])], 3, Leaf(v)) == Unattached(ka, kb, [Leaf(v)]).arena
  {
    assert [] + [Leaf(v)] == [Leaf(v)];
  }

  /** No key of the root holds an empty dict: the list stays unattached. */
  lemma {:induction false} NestedStart(ka: string, kb: string, n: nat)
    ensures var a := Nested(ka, kb, n).arena;
      StartList(a, [Frame(-1, 0), Frame(0, 1)]) == Success((a + [ListC([])], [Frame(-1, 0), Frame(0, 3)]))
  {
    var a1 := Nested(ka, kb, n).arena + [ListC([])];
    var e := [(ka, Ref(1))];
    assert a1[0].entries == e;
    assert !IsEmptyMap(a1, e[0].1);
    assert e[..0] == [];
    assert NewestEmptyMap(a1, e) == None;
    assert [Frame(-1, 0), Frame(0, 1)][1 := Frame(0, 3)] == [Frame(-1, 0), Frame(0, 3)];
  }

  lemma {:induction false} TreeUnattached(a: seq<Container>, ka: string, kb: string, x: Node)
    requires a == Unattached(ka, kb, [Leaf(x)]).arena
    ensures Forward(a)
    ensures Tree(a, 0) == Map([(ka, Map([(kb, Map([]))]))])
  {
    assert Forward(a) by {
      assert ContainerOk(a[0], 0, 4) && ContainerOk(a[1], 1, 4) && ContainerOk(a[3], 3, 4);
    }
    assert Tree(a, 2) == Map([]);
    assert TreeEntries(a, 1, a[1].entries) == [(kb, Map([]))];
    assert Tree(a, 1) == Map([(kb, Map([]))]);
    assert TreeEntries(a, 0, a[0].entries) == [(ka, Map([(kb, Map([]))]))];
  }

  // ---------------------------------------------------------------------
  // A line of neither kind closes the deeper frames
  //
  //   ka:
  //     kb:
  //     x
  //       kc: v
  // ---------------------------------------------------------------------

  /** After `x`: the frame of `kb:` is popped and `ka`'s dict is on top again. */
  function Closed(ka: string, kb: string, entries: seq<(string, Slot)>): State {
    State([MapC([(ka, Ref(1))]), MapC(entries), MapC([])], [Frame(-1, 0), Frame(0, 1)])
  }

  /** A line that is neither an item nor a key line still pops `kb`'s frame, so
      the deeper `kc: v` goes into `ka`'s dict beside `kb`, not into `kb`'s. */
  lemma {:induction false} DecodeOtherLinePops(ka: string, kb: string, x: string, kc: string, v: string, n: nat, m: nat)
    requires IsKey(ka) && IsKey(kb) && IsKey(x) && IsKey(kc) && IsToken(v) && kb != kc && 0 < n < m
    ensures Decode([ka + ":", Spaces(n) + kb + ":", Spaces(n) + x, Spaces(m) + kc + ": " + v])
      == Success(Map([(ka, Map([(kb, Map([])), (kc, ParseValue(v))]))]))
  {
    var fin := Closed(ka, kb, [(kb, Ref(2)), (kc, Leaf(ParseValue(v)))]);
    StepRootPlaceholder([], ka);
    OtherLineTail(ka, kb, x, n);
    StepClosedKey(ka, kb, kc, v, m);
    Run4(Root([]), ka + ":", Spaces(n) + kb + ":", Spaces(n) + x, Spaces(m) + kc + ": " + v,
         Opened([], ka), Nested(ka, kb, n), Closed(ka, kb, [(kb, Ref(2))]), fin);
    TreeClosed(fin.arena, ka, kb, kc, ParseValue(v));
  }

  lemma {:induction false} OtherLineTail(ka: string, kb: string, x: string, n: nat)
    requires IsKey(kb) && IsKey(x) && n > 0
    ensures Valid(Opened([], ka)) && Step(Opened([], ka), Spaces(n) + kb + ":") == Success(Nested(ka, kb, n))
    ensures Valid(Nested(ka, kb, n))
    ensures Step(Nested(ka, kb, n), Spaces(n) + x) == Success(Closed(ka, kb, [(kb, Ref(2))]))
    ensures Valid(Closed(ka, kb, [(kb, Ref(2))]))
  {
    PlaceholderLine(n, kb);
    OpenedPlaceholder(ka, kb, n);
    StepIs(Opened([], ka), Spaces(n) + kb + ":", KeyLine(n, kb, []), Nested(ka, kb, n));
    OtherLinePops(ka, kb, x, n);
  }

  /** `x` at the indent of `kb:` reads as neither kind and pops `kb`'s frame. */
  lemma {:induction false} OtherLinePops(ka: string, kb: string, x: string, n: nat)
    requires IsKey(x) && n > 0
    ensures Valid(Nested(ka, kb, n)) && Valid(Closed(ka, kb, [(kb, Ref(2))]))
    ensures Step(Nested(ka, kb, n), Spaces(n) + x) == Success(Closed(ka, kb, [(kb, Ref(2))]))
  {
    var st := Nested(ka, kb, n);
    NestedValid(ka, kb, n);
    ParseLineIndented(n, x);
    assert ParseLine(Spaces(n) + x) == Other(n);
    ApplyOther(st, n);
    assert PopTo(st.stack, n) == [Frame(-1, 0), Frame(0, 1)];
    StepIs(st, Spaces(n) + x, Other(n), Closed(ka, kb, [(kb, Ref(2))]));
  }

  /** `kc: v`, deeper than `kb:`, after `kb`'s frame was popped. */
  lemma {:induction false} ClosedKey(ka: string, kb: string, kc: string, v: string, m: nat)
    requires Valid(Closed(ka, kb, [(kb, Ref(2))])) && kb != kc && v != [] && m > 0
    ensures Apply(Closed(ka, kb, [(kb, Ref(2))]), KeyLine(m, kc, v))
      == Success(Closed(ka, kb, [(kb, Ref(2)), (kc, Leaf(ParseValue(v)))]))
  {
    var st := Closed(ka, kb, [(kb, Ref(2))]);
    var e, w := [(kb, Ref(2))], Leaf(ParseValue(v));
    assert PopTo(st.stack, m) == st.stack;
    assert Apply(st, KeyLine(m, kc, v)) == AddKey(st.arena, st.stack, m, kc, v);
    assert st.arena[1] == MapC(e);
    assert AddKey(st.arena, st.stack, m, kc, v) == Success(State(st.arena[1 := MapC(Put(e, kc, w))], st.stack));
    PutSecond(kb, kc, w);
    assert st.arena[1 := MapC([(kb, Ref(2)), (kc, w)])] == Closed(ka, kb, [(kb, Ref(2)), (kc, w)]).arena;
  }

  lemma {:induction false} PutSecond(kb: string, kc: string, w: Slot)
    requires kb != kc
    ensures Put([(kb, Ref(2))], kc, w) == [(kb, Ref(2)), (kc, w)]
  {
    var e := [(kb, Ref(2))];
    assert Keys(e) == [kb];
    PutNew(e, kc, w);
    assert e + [(kc, w)] == [(kb, Ref(2)), (kc, w)];
  }

  lemma {:induction false} StepClosedKey(ka: string, kb: string, kc: string, v: string, m: nat)
    requires Valid(Closed(ka, kb, [(kb, Ref(2))])) && IsKey(kc) && IsToken(v) && kb != kc && m > 0
    ensures Step(Closed(ka, kb, [(kb, Ref(2))]), Spaces(m) + kc + ": " + v)
      == Success(Closed(ka, kb, [(kb, Ref(2)), (kc, Leaf(ParseValue(v)))]))
    ensures Valid(Closed(ka, kb, [(kb, Ref(2)), (kc, Leaf(ParseValue(v)))]))
  {
    KeyValueLine(m, kc, v);
    ClosedKey(ka, kb, kc, v, m);
    StepIs(Closed(ka, kb, [(kb, Ref(2))]), Spaces(m) + kc + ": " + v, KeyLine(m, kc, v),
           Closed(ka, kb, [(kb, Ref(2)), (kc, Leaf(ParseValue(v)))]));
  }

  lemma {:induction false} TreeClosed(a: seq<Container>, ka: string, kb: string, kc: string, y: Node)
    requires a == Closed(ka, kb, [(kb, Ref(2)), (kc, Leaf(y))]).arena
    ensures Forward(a)
    ensures Tree(a, 0) == Map([(ka, Map([(kb, Map([])), (kc, y)]))])
  {
    assert Forward(a) by {
      assert ContainerOk(a[0], 0, 3) && ContainerOk(a[1], 1, 3);
    }
    assert Tree(a, 2) == Map([]);
    var e := a[1].entries;
    assert e[1..] == [(kc, Leaf(y))] && e[1..][1..] == [];
    assert TreeEntries(a, 1, e[1..]) == [(kc, y)];
    assert TreeEntries(a, 1, e) == [(kb, Map([])), (kc, y)];
    assert Tree(a, 1) == Map([(kb, Map([])), (kc, y)]);
    assert TreeEntries(a, 0, a[0].entries) == [(ka, Map([(kb, Map([])), (kc, y)]))];
  }

  /** Without the line `x`, the frame of `kb:` stays and `kc: v` goes into `kb`'s dict. */
  lemma {:induction false} DecodeWithoutOtherLine(ka: string, kb: string, kc: string, v: string, n: nat, m: nat)
    requires IsKey(ka) && IsKey(kb) && IsKey(kc) && IsToken(v) && 0 < n < m
    ensures Decode([ka + ":", Spaces(n) + kb + ":", Spaces(m) + kc + ": " + v])
      == Success(Map([(ka, Map([(kb, Map([(kc, ParseValue(v))]))]))]))
  {
    var fin := Deeper(ka, kb, kc, ParseValue(v), n);
    StepRootPlaceholder([], ka);
    PlaceholderLine(n, kb);
    OpenedPlaceholder(ka, kb, n);
    StepIs(Opened([], ka), Spaces(n) + kb + ":", KeyLine(n, kb, []), Nested(ka, kb, n));
    StepNestedKey(ka, kb, kc, v, n, m);
    Run3(Root([]), ka + ":", Spaces(n) + kb + ":", Spaces(m) + kc + ": " + v, Opened([], ka), Nested(ka, kb, n), fin);
    TreeDeeper(fin.arena, ka, kb, kc, ParseValue(v));
  }

  /** After `kc: v` under `kb:`: `kb`'s dict holds `kc`. */
  function Deeper(ka: string, kb: string, kc: string, v: Node, n: nat): State {
    State([MapC([(ka, Ref(1))]), MapC([(kb, Ref(2))]), MapC([(kc, Leaf(v))])], [Frame(-1, 0), Frame(0, 1), Frame(n, 2)])
  }

  /** `kc: v` deeper than `kb:` goes into `kb`'s dict. */
  lemma {:induction false} NestedKey(ka: string, kb: string, kc: string, v: string, n: nat, m: nat)
    requires v != [] && 0 < n < m
    ensures Valid(Nested(ka, kb, n))
    ensures Apply(Nested(ka, kb, n), KeyLine(m, kc, v)) == Success(Deeper(ka, kb, kc, ParseValue(v), n))
  {
    var st := Nested(ka, kb, n);
    NestedValid(ka, kb, n);
    assert PopTo(st.stack, m) == st.stack;
    assert Put([], kc, Leaf(ParseValue(v))) == [(kc, Leaf(ParseValue(v)))];
    assert st.arena[2 := MapC([(kc, Leaf(ParseValue(v)))])] == Deeper(ka, kb, kc, ParseValue(v), n).arena;
  }

  lemma {:induction false} StepNestedKey(ka: string, kb: string, kc: string, v: string, n: nat, m: nat)
    requires IsKey(kc) && IsToken(v) && 0 < n < m
    ensures Valid(Nested(ka, kb, n))
    ensures Step(Nested(ka, kb, n), Spaces(m) + kc + ": " + v) == Success(Deeper(ka, kb, kc, ParseValue(v), n))
    ensures Valid(Deeper(ka, kb, kc, ParseValue(v), n))
  {
    KeyValueLine(m, kc, v);
    NestedKey(ka, kb, kc, v, n, m);
    StepIs(Nested(ka, kb, n), Spaces(m) + kc + ": " + v, KeyLine(m, kc, v), Deeper(ka, kb, kc, ParseValue(v), n));
  }

  lemma {:induction false} TreeDeeper(a: seq<Container>, ka: string, kb: string, kc: string, y: Node)
    requires a == [MapC([(ka, Ref(1))]), MapC([(kb, Ref(2))]), MapC([(kc, Leaf(y))])]
    ensures Forward(a)
    ensures Tree(a, 0) == Map([(ka, Map([(kb, Map([(kc, y)]))]))])
  {
    assert Forward(a) by {
      assert ContainerOk(a[0], 0, 3) && ContainerOk(a[1], 1, 3) && ContainerOk(a[2], 2, 3);
    }
    assert TreeEntries(a, 2, a[2].entries) == [(kc, y)];
    assert Tree(a, 2) == Map([(kc, y)]);
    assert TreeEntries(a, 1, a[1].entries) == [(kb, Map([(kc, y)]))];
    assert Tree(a, 1) == Map([(kb, Map([(kc, y)]))]);
    assert TreeEntries(a, 0, a[0].entries) == [(ka, Map([(kb, Map([(kc, y)]))]))];
  }

  // ---------------------------------------------------------------------
  // An item under a key that is set again
  //
  //   ka: x
  //   kb:
  //   ka:
  //     - y
  // ---------------------------------------------------------------------

  /** After `ka:` again: `ka` keeps its place and now holds a new empty dict. */
  function Reopened(ka: string, kb: string): State {
    State([MapC([(ka, Ref(2)), (kb, Ref(1))]), MapC([]), MapC([])], [Frame(-1, 0), Frame(0, 2)])
  }

  /** The list went to `kb`, the newest key holding an empty dict. */
  function Rebound(ka: string, kb: string, items: seq<Slot>): State {
    State([MapC([(ka, Ref(2)), (kb, Ref(3))]), MapC([]), MapC([]), ListC(items)], [Frame(-1, 0), Frame(0, 3)])
  }

  /** The scan for the key to rebind goes by insertion order, not by the key
      that opened the frame: the items under the second `ka:` end up under `kb`. */
  lemma {:induction false} DecodeReassignedKey(ka: string, kb: string, x: string, y: string, n: nat)
    requires IsKey(ka) && IsKey(kb) && ka != kb && IsToken(x) && IsToken(y) && ':' !in y && n > 0
    ensures Decode([ka + ": " + x, kb + ":", ka + ":", Spaces(n) + "- " + y])
      == Success(Map([(ka, Map([])), (kb, List([ParseValue(y)]))]))
  {
    var e := [(ka, Leaf(ParseValue(x)))];
    StepFirstKey(ka, x);
    StepRootPlaceholder(e, kb);
    ReassignedTail(ka, kb, x, y, n);
    Run3Then(Root([]), ka + ": " + x, kb + ":", ka + ":", Spaces(n) + "- " + y,
             Root(e), Opened(e, kb), Reopened(ka, kb), Rebound(ka, kb, [Leaf(ParseValue(y))]));
    TreeRebound(Rebound(ka, kb, [Leaf(ParseValue(y))]).arena, ka, kb, ParseValue(y));
  }

  lemma {:induction false} ReassignedTail(ka: string, kb: string, x: string, y: string, n: nat)
    requires IsKey(ka) && ka != kb && IsToken(y) && ':' !in y && n > 0
    ensures var e := [(ka, Leaf(ParseValue(x)))];
      && Valid(Opened(e, kb)) && Step(Opened(e, kb), ka + ":") == Success(Reopened(ka, kb))
      && Valid(Reopened(ka, kb))
      && Step(Reopened(ka, kb), Spaces(n) + "- " + y) == Success(Rebound(ka, kb, [Leaf(ParseValue(y))]))
  {
    var e := [(ka, Leaf(ParseValue(x)))];
    TopPlaceholderLine(ka);
    Rekey(ka, ParseValue(x), kb);
    StepIs(Opened(e, kb), ka + ":", KeyLine(0, ka, []), Reopened(ka, kb));
    ItemLine(n, y);
    ReopenedItem(ka, kb, y, n);
    StepIs(Reopened(ka, kb), Spaces(n) + "- " + y, Item(n, y), Rebound(ka, kb, [Leaf(ParseValue(y))]));
  }

  /** `ka:` again at the top level. */
  lemma {:induction false} Rekey(ka: string, vx: Node, kb: string)
    requires ka != kb
    ensures Valid(Opened([(ka, Leaf(vx))], kb))
    ensures Apply(Opened([(ka, Leaf(vx))], kb), KeyLine(0, ka, [])) == Success(Reopened(ka, kb))
  {
    var st := Opened([(ka, Leaf(vx))], kb);
    var e := [(ka, Leaf(vx)), (kb, Ref(1))];
    OpenedValid([(ka, Leaf(vx))], kb);
    assert st.arena[0].entries == e;
    assert PopTo(st.stack, 0) == [Frame(-1, 0)];
    assert Find(e, ka) == 0;
    assert Put(e, ka, Ref(2)) == [(ka, Ref(2)), (kb, Ref(1))];
    assert (st.arena + [MapC([])])[0 := MapC([(ka, Ref(2)), (kb, Ref(1))])] == Reopened(ka, kb).arena;
    assert [Frame(-1, 0)] + [Frame(0, 2)] == Reopened(ka, kb).stack;
  }

  /** The item under the second `ka:`. */
  lemma {:induction false} ReopenedItem(ka: string, kb: string, y: string, n: nat)
    requires ':' !in y && n > 0
    ensures Valid(Reopened(ka, kb))
    ensures Apply(Reopened(ka, kb), Item(n, y)) == Success(Rebound(ka, kb, [Leaf(ParseValue(y))]))
  {
    var st := Reopened(ka, kb);
    assert Valid(st) by {
      assert ContainerOk(st.arena[0], 0, 3);
    }
    assert PopTo(st.stack, n) == st.stack;
    ApplyItem(st, n, y);
    var b := (st.arena + [ListC([])])[0 := MapC([(ka, Ref(2)), (kb, Ref(3))])];
    ReopenedStart(ka, kb);
    ItemAfterStart(st.arena, st.stack, n, y);
    ScalarItemOnList(b, [Frame(-1, 0), Frame(0, 3)], n, y);
    ReboundArena(ka, kb, ParseValue(y));
  }

  lemma {:induction false} ReboundArena(ka: string, kb: string, v: Node)
    ensures ListAppend((Reopened(ka, kb).arena + [ListC([])])[0 := MapC([(ka, Ref(2)), (kb, Ref(3))])], 3, Leaf(v))
      == Rebound(ka, kb, [Leaf(v)]).arena
  {
    assert [] + [Leaf(v)] == [Leaf(v)];
  }

  /** The newest key holding an empty dict is `kb`: the list replaces it. */
  lemma {:induction false} ReopenedStart(ka: string, kb: string)
    ensures var st := Reopened(ka, kb);
      StartList(st.arena, st.stack)
        == Success(((st.arena + [ListC([])])[0 := MapC([(ka, Ref(2)), (kb, Ref(3))])], [Frame(-1, 0), Frame(0, 3)]))
  {
    var st := Reopened(ka, kb);
    var a1 := st.arena + [ListC([])];
    var e := [(ka, Ref(2)), (kb, Ref(1))];
    assert a1[0].entries == e;
    assert IsEmptyMap(a1, e[1].1);
    assert NewestEmptyMap(a1, e) == Some(1);
    assert e[1 := (kb, Ref(3))] == [(ka, Ref(2)), (kb, Ref(3))];
    assert st.stack[1 := Frame(0, 3)] == [Frame(-1, 0), Frame(0, 3)];
  }

  lemma {:induction false} TreeRebound(a: seq<Container>, ka: string, kb: string, y: Node)
    requires a == Rebound(ka, kb, [Leaf(y)]).arena
    ensures Forward(a)
    ensures Tree(a, 0) == Map([(ka, Map([])), (kb, List([y]))])
  {
    assert Forward(a) by {
      assert ContainerOk(a[0], 0, 4) && ContainerOk(a[3], 3, 4);
    }
    assert Tree(a, 2) == Map([]);
    assert TreeItems(a, 3, a[3].items) == [y];
    assert Tree(a, 3) == List([y]);
    assert TreeEntries(a, 0, [(kb, Ref(3))]) == [(kb, List([y]))];
    assert TreeEntries(a, 0, a[0].entries) == [(ka, Map([])), (kb, List([y]))];
  }
}
