/**
 * `decode_yaml`: a single pass over the lines of an indentation-based
 * YAML-like text, keeping a stack of `(indent, container)` frames that starts
 * from the sentinel `(-1, root)`.
 *
 * Python's dicts and lists are heap objects that the stack frames and the tree
 * share. Here they live in an arena: `arena[i]` is the container with identity
 * `i`, a frame names its container by identity, and a slot of a container
 * holds either a leaf value or the identity of a child container. Updating
 * `arena[i]` is how the source's in-place `d[k] = v`, `l.append(v)` and
 * `container[k] = new_list` are seen through every alias at once.
 */
module YamlDecoder {
  import opened PyStrings
  import opened Nodes
  import opened ScalarValue

  datatype Slot = Leaf(v: Node) | Ref(id: nat)

  /** A dict (keys in insertion order) or a list. */
  datatype Container = MapC(entries: seq<(string, Slot)>) | ListC(items: seq<Slot>)

  datatype Frame = Frame(indent: int, id: nat)

  datatype State = State(arena: seq<Container>, stack: seq<Frame>)

  /** The exceptions the source raises on malformed input. */
  datatype DecodeError =
    /** A `- ` item whose frame is the sentinel: `stack[-2]` on a one-frame stack. */
    | NoGrandparent
    /** A new list whose grandparent container is a list: a list indexed by a dict. */
    | GrandparentIsList
    /** A `key:` line whose frame holds a list: a list indexed by a string. */
    | KeyOnList

  /** What one input line is, once its comment, indentation and trailing
      whitespace are taken off. */
  datatype Line =
    | Blank
    /** Neither a list item nor a key: it only pops frames. */
    | Other(indent: nat)
    /** `- value`, with `value` stripped. */
    | Item(indent: nat, value: string)
    /** `key: value`, split at the first colon, both sides stripped. */
    | KeyLine(indent: nat, key: string, value: string)

  // ---------------------------------------------------------------------
  // Insertion-ordered dicts
  // ---------------------------------------------------------------------

  /** The position of `key`, or `|entries|` when it is absent. */
  function Find<V>(entries: seq<(string, V)>, key: string): (i: nat)
    ensures i <= |entries|
    ensures i < |entries| ==> entries[i].0 == key
    ensures forall j :: 0 <= j < i ==> entries[j].0 != key
  {
    if entries == [] then 0 else if entries[0].0 == key then 0 else 1 + Find(entries[1..], key)
  }

  /** `d[key]`, or None when the key is absent. */
  function Lookup<V>(entries: seq<(string, V)>, key: string): Option<V> {
    var i := Find(entries, key);
    if i < |entries| then Some(entries[i].1) else None
  }

  /** `d[key] = value`: an existing key keeps its position, a new key goes last. */
  function Put<V>(entries: seq<(string, V)>, key: string, value: V): (r: seq<(string, V)>)
    ensures |r| == if key in Keys(entries) then |entries| else |entries| + 1
    ensures forall j :: 0 <= j < |entries| ==> r[j].0 == entries[j].0
  {
    var i := Find(entries, key);
    if i < |entries| then entries[i := (key, value)] else entries + [(key, value)]
  }

  /** After `d[key] = value`, `d[key]` is `value` and every other key reads as before. */
  lemma {:induction false} PutLookup<V>(entries: seq<(string, V)>, key: string, value: V, other: string)
    ensures Lookup(Put(entries, key, value), key) == Some(value)
    ensures other != key ==> Lookup(Put(entries, key, value), other) == Lookup(entries, other)
  {
    var i := Find(entries, key);
    var r := Put(entries, key, value);
    assert forall j :: 0 <= j < |entries| && j != i ==> r[j] == entries[j];
    assert r[i] == (key, value);
    FindIs(r, key, i);
    if other != key {
      var f := Find(entries, other);
      if f < |entries| {
        FindIs(r, other, f);
      } else {
        FindIs(r, other, |r|);
      }
    }
  }

  /** The first position of `key` is the one before which it does not occur. */
  lemma {:induction false} FindIs<V>(entries: seq<(string, V)>, key: string, i: nat)
    requires i <= |entries| && (i < |entries| ==> entries[i].0 == key)
    requires forall j :: 0 <= j < i ==> entries[j].0 != key
    ensures Find(entries, key) == i
  {
  }

  // ---------------------------------------------------------------------
  // The arena and its well-formedness
  // ---------------------------------------------------------------------

  /** A slot of container `from` refers only to a later container. */
  predicate SlotBelow(s: Slot, from: nat, size: nat) {
    s.Ref? ==> from < s.id < size
  }

  predicate ContainerOk(c: Container, from: nat, size: nat) {
    match c
    case MapC(e) => forall k :: 0 <= k < |e| ==> SlotBelow(e[k].1, from, size)
    case ListC(items) => forall k :: 0 <= k < |items| ==> SlotBelow(items[k], from, size)
  }

  /** Every reference points forward, so the containers form a tree-shaped
      structure that can be read out from the root. */
  predicate Forward(a: seq<Container>) {
    forall i :: 0 <= i < |a| ==> ContainerOk(a[i], i, |a|)
  }

  /** The converse of each update: an update keeps the kind of every live
      container and only appends new ones. */
  predicate KindsKept(a: seq<Container>, b: seq<Container>) {
    |a| <= |b| && forall i :: 0 <= i < |a| ==> (a[i].MapC? <==> b[i].MapC?)
  }

  /** A list frame with a frame above it ends with the map that frame was
      pushed for. */
  predicate ListFrameOk(a: seq<Container>, id: nat)
    requires id < |a|
  {
    a[id].ListC? ==>
      var items := a[id].items;
      |items| > 0 && items[|items| - 1].Ref? && items[|items| - 1].id < |a|
      && a[items[|items| - 1].id].MapC?
  }

  /** The decoder's invariant: the root dict is container 0 and the sentinel
      frame `(-1, root)` is at the bottom of the stack; indents and identities
      strictly increase up the stack; every list frame below the top ends with
      a map. */
  predicate Valid(st: State) {
    var a, s := st.arena, st.stack;
    && |a| > 0 && a[0].MapC? && Forward(a)
    && |s| > 0 && s[0] == Frame(-1, 0)
    && (forall j :: 0 <= j < |s| ==> s[j].id < |a|)
    && (forall j, k :: 0 <= j < k < |s| ==> s[j].indent < s[k].indent && s[j].id < s[k].id)
    && (forall j :: 0 <= j < |s| - 1 ==> ListFrameOk(a, s[j].id))
  }

  // ---------------------------------------------------------------------
  // One line
  // ---------------------------------------------------------------------

  /** The textual part of one loop iteration (lines 303-311, 315-316, 332-334
      and 345-348): drop the comment and trailing whitespace, skip a blank
      line, count the leading spaces, and tell items, keys and other lines apart. */
  function ParseLine(raw: string): Line {
    var line := RStrip(BeforeFirst(raw, '#'));
    if Strip(line) == [] then Blank
    else
      var indent := LeadingSpaces(line);
      var text := LStrip(line);
      if |text| >= 2 && text[..2] == "- " then Item(indent, Strip(text[2..]))
      else if ':' in text then
        var parts := SplitOnce(text, ':');
        KeyLine(indent, Strip(parts.0), Strip(parts.1))
      else Other(indent)
  }

  /** `while indent <= stack[-1][0]: stack.pop()`. The sentinel's indent is
      below every line's, so it stays. */
  function PopTo(stack: seq<Frame>, indent: nat): (r: seq<Frame>)
    requires |stack| > 0 && stack[0].indent < 0
    ensures 0 < |r| <= |stack| && r == stack[..|r|]
    ensures r[|r| - 1].indent < indent
    ensures forall j :: |r| <= j < |stack| ==> indent <= stack[j].indent
    decreases |stack|
  {
    if indent <= stack[|stack| - 1].indent then PopTo(stack[..|stack| - 1], indent) else stack
  }

  /** `container[k] == {}` for a slot: a reference to an empty dict. */
  predicate IsEmptyMap(a: seq<Container>, s: Slot) {
    s.Ref? && s.id < |a| && a[s.id] == MapC([])
  }

  /** The scan `for k in reversed(container)` of lines 325-328: the position of
      the newest key whose value is an empty dict. */
  function NewestEmptyMap(a: seq<Container>, e: seq<(string, Slot)>): (r: Option<nat>)
    ensures r.Some? ==> r.value < |e| && IsEmptyMap(a, e[r.value].1)
    ensures r.Some? ==> forall j :: r.value < j < |e| ==> !IsEmptyMap(a, e[j].1)
    ensures r.None? ==> forall j :: 0 <= j < |e| ==> !IsEmptyMap(a, e[j].1)
    decreases |e|
  {
    if e == [] then None
    else if IsEmptyMap(a, e[|e| - 1].1) then Some(|e| - 1)
    else NewestEmptyMap(a, e[..|e| - 1])
  }

  /** `l.append(s)` on the list with identity `id`. */
  function ListAppend(a: seq<Container>, id: nat, s: Slot): seq<Container>
    requires id < |a| && a[id].ListC?
  {
    a[id := ListC(a[id].items + [s])]
  }

  /** Lines 320-330: the first item under a frame that holds a dict. A new list
      takes the top frame's place and is stored under the grandparent's newest
      key whose value is an empty dict; when there is none it stays unattached. */
  function StartList(a: seq<Container>, stack: seq<Frame>): (r: Result<(seq<Container>, seq<Frame>), DecodeError>)
    requires |stack| > 0 && forall j :: 0 <= j < |stack| ==> stack[j].id < |a|
    ensures r.Success? ==> |r.value.0| == |a| + 1 && r.value.0[|a|] == ListC([])
    ensures r.Success? ==> r.value.1 == stack[|stack| - 1 := Frame(stack[|stack| - 1].indent, |a|)]
  {
    var newList := |a|;
    var a1 := a + [ListC([])];
    var s1 := stack[|stack| - 1 := Frame(stack[|stack| - 1].indent, newList)];
    if |stack| < 2 then Failure(NoGrandparent)
    else
      var g := stack[|stack| - 2].id;
      match a1[g]
      case ListC(_) => Failure(GrandparentIsList)
      case MapC(e) =>
        match NewestEmptyMap(a1, e)
        case None => Success((a1, s1))
        case Some(i) => Success((a1[g := MapC(e[i := (e[i].0, Ref(newList))])], s1))
  }

  /** Lines 317-342, after the pops: a `- ` item. */
  function AddItem(a: seq<Container>, stack: seq<Frame>, indent: nat, value: string): Result<State, DecodeError>
    requires Valid(State(a, stack))
  {
    var top := stack[|stack| - 1];
    var ready := if a[top.id].ListC? then Success((a, stack)) else StartList(a, stack);
    match ready
    case Failure(e) => Failure(e)
    case Success(pair) =>
      var (a1, s1) := pair;
      var list := s1[|s1| - 1].id;
      if ':' in value then
        var parts := SplitOnce(value, ':');
        var item := |a1|;
        var a2 := ListAppend(a1 + [MapC([])], list, Ref(item));
        Success(State(a2[item := MapC([(Strip(parts.0), Leaf(ParseValue(Strip(parts.1))))])],
                      s1 + [Frame(indent, item)]))
      else
        Success(State(ListAppend(a1, list, Leaf(ParseValue(value))), s1))
  }

  /** Lines 345-354, after the pops: a `key: value` line. */
  function AddKey(a: seq<Container>, stack: seq<Frame>, indent: nat, key: string, value: string): Result<State, DecodeError>
    requires Valid(State(a, stack))
  {
    var parent := stack[|stack| - 1].id;
    match a[parent]
    case ListC(_) => Failure(KeyOnList)
    case MapC(e) =>
      if value == [] then
        var child := |a|;
        Success(State((a + [MapC([])])[parent := MapC(Put(e, key, Ref(child)))], stack + [Frame(indent, child)]))
      else
        Success(State(a[parent := MapC(Put(e, key, Leaf(ParseValue(value))))], stack))
  }

  /** One iteration of the loop of lines 303-354. */
  function Step(st: State, raw: string): Result<State, DecodeError>
    requires Valid(st)
  {
    Apply(st, ParseLine(raw))
  }

  /** What a line, once read, does to the arena and the stack. */
  function Apply(st: State, line: Line): Result<State, DecodeError>
    requires Valid(st)
  {
    match line
    case Blank => Success(st)
    case Other(indent) => Success(State(st.arena, PopTo(st.stack, indent)))
    case Item(indent, value) =>
      PopValid(st, indent);
      AddItem(st.arena, PopTo(st.stack, indent), indent, value)
    case KeyLine(indent, key, value) =>
      PopValid(st, indent);
      AddKey(st.arena, PopTo(st.stack, indent), indent, key, value)
  }

  /** `root = {}` and `stack = [(-1, root)]`. */
  function Initial(): (st: State)
    ensures Valid(st)
  {
    State([MapC([])], [Frame(-1, 0)])
  }

  /** The loop over all lines; the first exception ends it. */
  function Run(st: State, lines: seq<string>): (r: Result<State, DecodeError>)
    requires Valid(st)
    ensures r.Success? ==> Valid(r.value)
    decreases |lines|
  {
    if lines == [] then Success(st)
    else
      match Step(st, lines[0])
      case Failure(e) => Failure(e)
      case Success(next) =>
        StepValid(st, lines[0]);
        Run(next, lines[1..])
  }

  // ---------------------------------------------------------------------
  // Reading the tree out of the arena
  // ---------------------------------------------------------------------

  /** The value of container `id`, with every reference replaced by the value it names. */
  function Tree(a: seq<Container>, id: nat): (n: Node)
    requires Forward(a) && id < |a|
    ensures n.Map? <==> a[id].MapC?
    decreases |a| - id, 2, 0
  {
    match a[id]
    case MapC(e) => Map(TreeEntries(a, id, e))
    case ListC(items) => List(TreeItems(a, id, items))
  }

  function TreeEntries(a: seq<Container>, id: nat, e: seq<(string, Slot)>): (r: seq<(string, Node)>)
    requires Forward(a) && id < |a|
    requires forall k :: 0 <= k < |e| ==> SlotBelow(e[k].1, id, |a|)
    ensures |r| == |e| && forall k :: 0 <= k < |e| ==> r[k].0 == e[k].0
    decreases |a| - id, 1, |e|
  {
    if e == [] then [] else [(e[0].0, TreeSlot(a, id, e[0].1))] + TreeEntries(a, id, e[1..])
  }

  function TreeItems(a: seq<Container>, id: nat, items: seq<Slot>): (r: seq<Node>)
    requires Forward(a) && id < |a|
    requires forall k :: 0 <= k < |items| ==> SlotBelow(items[k], id, |a|)
    ensures |r| == |items|
    decreases |a| - id, 1, |items|
  {
    if items == [] then [] else [TreeSlot(a, id, items[0])] + TreeItems(a, id, items[1..])
  }

  function TreeSlot(a: seq<Container>, id: nat, s: Slot): Node
    requires Forward(a) && id < |a| && SlotBelow(s, id, |a|)
    decreases |a| - id, 0, 0
  {
    match s
    case Leaf(v) => v
    case Ref(j) => Tree(a, j)
  }

  /** `decode_yaml(lines)`: the root dict, or the exception the source raises. */
  function Decode(lines: seq<string>): (r: Result<Node, DecodeError>)
    ensures r.Success? ==> r.value.Map?
  {
    match Run(Initial(), lines)
    case Failure(e) => Failure(e)
    case Success(st) => Success(Tree(st.arena, 0))
  }

  // ---------------------------------------------------------------------
  // The invariant is kept
  // ---------------------------------------------------------------------

  /** Popping keeps the invariant. */
  lemma {:induction false} PopValid(st: State, indent: nat)
    requires Valid(st)
    ensures Valid(State(st.arena, PopTo(st.stack, indent)))
  {
    var r := PopTo(st.stack, indent);
    assert forall j :: 0 <= j < |r| ==> r[j] == st.stack[j];
  }

  /** Every line keeps the invariant. */
  lemma {:induction false} StepValid(st: State, raw: string)
    requires Valid(st)
    ensures Step(st, raw).Success? ==> Valid(Step(st, raw).value)
  {
    ApplyValid(st, ParseLine(raw));
  }

  lemma {:induction false} ApplyValid(st: State, line: Line)
    requires Valid(st)
    ensures Apply(st, line).Success? ==> Valid(Apply(st, line).value)
  {
    match line
    case Blank =>
    case Other(indent) => PopValid(st, indent);
    case Item(indent, value) =>
      PopValid(st, indent);
      AddItemValid(st.arena, PopTo(st.stack, indent), indent, value);
    case KeyLine(indent, key, value) =>
      PopValid(st, indent);
      AddKeyValid(st.arena, PopTo(st.stack, indent), indent, key, value);
  }

  lemma {:induction false} AddKeyValid(a: seq<Container>, stack: seq<Frame>, indent: nat, key: string, value: string)
    requires Valid(State(a, stack)) && stack[|stack| - 1].indent < indent
    ensures AddKey(a, stack, indent, key, value).Success? ==> Valid(AddKey(a, stack, indent, key, value).value)
  {
    var parent := stack[|stack| - 1].id;
    if a[parent].MapC? {
      if value == [] {
        KeyPlaceholderValid(a, stack, indent, key, parent);
      } else {
        KeyValueValid(a, stack, key, ParseValue(value), parent);
      }
    }
  }

  /** `key:` with nothing after it: a fresh dict in the arena, named in the
      parent and pushed with the line's indent. */
  lemma {:induction false} KeyPlaceholderValid(a: seq<Container>, stack: seq<Frame>, indent: nat, key: string, parent: nat)
    requires Valid(State(a, stack)) && stack[|stack| - 1].indent < indent
    requires parent == stack[|stack| - 1].id && a[parent].MapC?
    ensures Valid(State((a + [MapC([])])[parent := MapC(Put(a[parent].entries, key, Ref(|a|)))], stack + [Frame(indent, |a|)]))
  {
    var e := a[parent].entries;
    var child := |a|;
    var b := (a + [MapC([])])[parent := MapC(Put(e, key, Ref(child)))];
    PutSlots(e, key, Ref(child), parent, |b|);
    assert ContainerOk(b[parent], parent, |b|);
    ForwardGrow(a, b, parent);
    KindsKeptFrames(a, b, stack);
    PushValid(b, stack, indent, child);
  }

  /** `key: value`: the parent dict names the scalar; the stack stays. */
  lemma {:induction false} KeyValueValid(a: seq<Container>, stack: seq<Frame>, key: string, v: Node, parent: nat)
    requires Valid(State(a, stack))
    requires parent == stack[|stack| - 1].id && a[parent].MapC?
    ensures Valid(State(a[parent := MapC(Put(a[parent].entries, key, Leaf(v)))], stack))
  {
    var e := a[parent].entries;
    var b := a[parent := MapC(Put(e, key, Leaf(v)))];
    PutSlots(e, key, Leaf(v), parent, |b|);
    ForwardGrow(a, b, parent);
    KindsKeptFrames(a, b, stack);
  }

  /** A dict assignment of a slot that points forward keeps every slot pointing forward. */
  lemma {:induction false} PutSlots(e: seq<(string, Slot)>, key: string, s: Slot, from: nat, size: nat)
    requires forall k :: 0 <= k < |e| ==> SlotBelow(e[k].1, from, size)
    requires SlotBelow(s, from, size)
    ensures ContainerOk(MapC(Put(e, key, s)), from, size)
  {
  }

  /** Replacing container `i` of a forward arena by one whose slots point
      forward, and appending containers without references, keeps it forward. */
  lemma {:induction false} ForwardGrow(a: seq<Container>, b: seq<Container>, i: nat)
    requires Forward(a) && |a| <= |b| && i < |b|
    requires forall j :: 0 <= j < |b| && j != i ==> (j < |a| ==> b[j] == a[j]) && (j >= |a| ==> b[j] == MapC([]) || b[j] == ListC([]))
    requires ContainerOk(b[i], i, |b|)
    ensures Forward(b)
  {
    forall j | 0 <= j < |b| && j != i
      ensures ContainerOk(b[j], j, |b|)
    {
      if j < |a| {
        assert ContainerOk(a[j], j, |a|);
      }
    }
  }

  /** The frame conditions survive an update that keeps every kind and leaves
      the lists of lower frames alone. */
  lemma {:induction false} KindsKeptFrames(a: seq<Container>, b: seq<Container>, stack: seq<Frame>)
    requires Valid(State(a, stack)) && Forward(b) && KindsKept(a, b)
    requires forall j :: 0 <= j < |stack| - 1 && a[stack[j].id].ListC? ==> b[stack[j].id] == a[stack[j].id]
    ensures Valid(State(b, stack))
  {
    forall j | 0 <= j < |stack| - 1
      ensures ListFrameOk(b, stack[j].id)
    {
      assert ListFrameOk(a, stack[j].id);
    }
  }

  /** Pushing a frame for a fresh container at a deeper indent keeps the invariant. */
  lemma {:induction false} PushValid(a: seq<Container>, stack: seq<Frame>, indent: nat, child: nat)
    requires Valid(State(a, stack)) && stack[|stack| - 1].indent < indent
    requires child == |a| - 1 && forall j :: 0 <= j < |stack| ==> stack[j].id < child
    requires ListFrameOk(a, stack[|stack| - 1].id)
    ensures Valid(State(a, stack + [Frame(indent, child)]))
  {
    var s := stack + [Frame(indent, child)];
    assert forall j :: 0 <= j < |stack| ==> s[j] == stack[j];
    forall j, k | 0 <= j < k < |s|
      ensures s[j].indent < s[k].indent && s[j].id < s[k].id
    {
      if k == |stack| && j < |stack| - 1 {
        assert stack[j].indent < stack[|stack| - 1].indent;
      }
    }
  }

  lemma {:induction false} AddItemValid(a: seq<Container>, stack: seq<Frame>, indent: nat, value: string)
    requires Valid(State(a, stack)) && stack[|stack| - 1].indent < indent
    ensures AddItem(a, stack, indent, value).Success? ==> Valid(AddItem(a, stack, indent, value).value)
  {
    var top := stack[|stack| - 1];
    var ready := if a[top.id].ListC? then Success((a, stack)) else StartList(a, stack);
    if ready.Success? {
      var (a1, s1) := ready.value;
      if !a[top.id].ListC? {
        StartListValid(a, stack);
      }
      var list := s1[|s1| - 1].id;
      assert Valid(State(a1, s1)) && s1[|s1| - 1].indent < indent && a1[list].ListC?;
      if ':' in value {
        var parts := SplitOnce(value, ':');
        MapItemValid(a1, s1, indent, MapC([(Strip(parts.0), Leaf(ParseValue(Strip(parts.1))))]));
      } else {
        AppendValid(a1, s1, Leaf(ParseValue(value)));
      }
    }
  }

  /** Appending a new one-entry dict to the top list and pushing a frame for it
      keeps the invariant. */
  lemma {:induction false} MapItemValid(a1: seq<Container>, s1: seq<Frame>, indent: nat, m: Container)
    requires Valid(State(a1, s1)) && s1[|s1| - 1].indent < indent && a1[s1[|s1| - 1].id].ListC?
    requires m.MapC? && forall k :: 0 <= k < |m.entries| ==> m.entries[k].1.Leaf?
    ensures var item := |a1|;
      Valid(State(ListAppend(a1 + [MapC([])], s1[|s1| - 1].id, Ref(item))[item := m], s1 + [Frame(indent, item)]))
  {
    var list := s1[|s1| - 1].id;
    var item := |a1|;
    var a0 := a1 + [MapC([])];
    ForwardGrow(a1, a0, 0);
    KindsKeptFrames(a1, a0, s1);
    var a2 := ListAppend(a0, list, Ref(item));
    AppendValid(a0, s1, Ref(item));
    var a3 := a2[item := m];
    ForwardGrow(a2, a3, item);
    KindsKeptFrames(a2, a3, s1);
    assert ListFrameOk(a3, list);
    PushValid(a3, s1, indent, item);
  }

  /** Appending a forward slot to the top frame's list keeps the invariant. */
  lemma {:induction false} AppendValid(a: seq<Container>, stack: seq<Frame>, s: Slot)
    requires |a| > 0 && a[0].MapC? && Forward(a)
    requires |stack| > 0 && stack[0] == Frame(-1, 0)
    requires forall j :: 0 <= j < |stack| ==> stack[j].id < |a|
    requires forall j, k :: 0 <= j < k < |stack| ==> stack[j].indent < stack[k].indent && stack[j].id < stack[k].id
    requires forall j :: 0 <= j < |stack| - 1 ==> ListFrameOk(a, stack[j].id)
    requires a[stack[|stack| - 1].id].ListC? && SlotBelow(s, stack[|stack| - 1].id, |a|)
    ensures Valid(State(ListAppend(a, stack[|stack| - 1].id, s), stack))
    ensures s.Ref? && s.id < |a| && a[s.id].MapC? ==> ListFrameOk(ListAppend(a, stack[|stack| - 1].id, s), stack[|stack| - 1].id)
  {
    var list := stack[|stack| - 1].id;
    var b := ListAppend(a, list, s);
    assert ContainerOk(a[list], list, |a|);
    assert ContainerOk(b[list], list, |b|);
    ForwardGrow(a, b, list);
    forall j | 0 <= j < |stack| - 1 && a[stack[j].id].ListC?
      ensures b[stack[j].id] == a[stack[j].id]
    {
      assert stack[j].id < list;
    }
    KindsKeptFrames(a, b, stack);
  }

  lemma {:induction false} StartListValid(a: seq<Container>, stack: seq<Frame>)
    requires Valid(State(a, stack))
    ensures StartList(a, stack).Success? ==> Valid(State(StartList(a, stack).value.0, StartList(a, stack).value.1))
    ensures StartList(a, stack).Success? ==> StartList(a, stack).value.1[|stack| - 1].indent == stack[|stack| - 1].indent
  {
    if StartList(a, stack).Success? {
      var newList := |a|;
      var a1 := a + [ListC([])];
      var s1 := stack[|stack| - 1 := Frame(stack[|stack| - 1].indent, newList)];
      var g := stack[|stack| - 2].id;
      var e := a1[g].entries;
      ForwardGrow(a, a1, 0);
      KindsKeptFrames(a, a1, stack);
      var b := StartList(a, stack).value.0;
      if NewestEmptyMap(a1, e).Some? {
        var i := NewestEmptyMap(a1, e).value;
        assert b == a1[g := MapC(e[i := (e[i].0, Ref(newList))])];
        assert ContainerOk(a1[g], g, |a1|);
        assert ContainerOk(b[g], g, |b|);
        ForwardGrow(a1, b, g);
        KindsKeptFrames(a1, b, stack);
      }
      SwapValid(b, stack, newList);
    }
  }

  /** Putting a fresh list in the top frame's place keeps the invariant. */
  lemma {:induction false} SwapValid(b: seq<Container>, stack: seq<Frame>, newList: nat)
    requires Valid(State(b, stack)) && |stack| >= 2
    requires newList < |b| && b[newList] == ListC([]) && forall j :: 0 <= j < |stack| ==> stack[j].id < newList
    ensures Valid(State(b, stack[|stack| - 1 := Frame(stack[|stack| - 1].indent, newList)]))
  {
    var s1 := stack[|stack| - 1 := Frame(stack[|stack| - 1].indent, newList)];
    assert forall j :: 0 <= j < |stack| - 1 ==> s1[j] == stack[j];
  }

  // ---------------------------------------------------------------------
  // The decoder itself
  // ---------------------------------------------------------------------

  /** `decode_yaml(lines)`: the loop of lines 303-354 over a mutable arena and
      frame stack. */
  method DecodeYaml(lines: seq<string>) returns (r: Result<Node, DecodeError>)
    ensures r == Decode(lines)
  {
    var arena := [MapC([])];
    var stack := [Frame(-1, 0)];
    for n := 0 to |lines|
      invariant Valid(State(arena, stack))
      invariant Run(Initial(), lines) == Run(State(arena, stack), lines[n..])
    {
      assert lines[n..][0] == lines[n] && lines[n..][1..] == lines[n + 1..];
      var next := DecodeLine(arena, stack, lines[n]);
      if next.Failure? {
        return Failure(next.error);
      }
      StepValid(State(arena, stack), lines[n]);
      arena, stack := next.value.arena, next.value.stack;
    }
    assert lines[|lines|..] == [];
    r := Success(Tree(arena, 0));
  }

  /** One iteration of the loop: lines 304-354 on the current arena and stack. */
  method DecodeLine(arena: seq<Container>, stack: seq<Frame>, raw: string) returns (r: Result<State, DecodeError>)
    requires Valid(State(arena, stack))
    ensures r == Step(State(arena, stack), raw)
  {
    var line := ParseLine(raw);
    r := ApplyLine(arena, stack, line);
  }

  /** The same iteration once the line is read: what its kind does to the
      arena and the stack. */
  method ApplyLine(arena: seq<Container>, stack: seq<Frame>, line: Line) returns (r: Result<State, DecodeError>)
    requires Valid(State(arena, stack))
    ensures r == Apply(State(arena, stack), line)
  {
    match line
    case Blank =>
      r := Success(State(arena, stack));
    case Other(indent) =>
      var s := PopFrames(stack, indent);
      r := Success(State(arena, s));
    case Item(indent, value) =>
      var s := PopFrames(stack, indent);
      PopValid(State(arena, stack), indent);
      r := DecodeItem(arena, s, indent, value);
    case KeyLine(indent, key, value) =>
      var s := PopFrames(stack, indent);
      PopValid(State(arena, stack), indent);
      r := DecodeKey(arena, s, indent, key, value);
  }

  /** Lines 345-354 once the frames are popped: a `key: value` line. */
  method DecodeKey(arena: seq<Container>, stack: seq<Frame>, indent: nat, key: string, value: string)
    returns (r: Result<State, DecodeError>)
    requires Valid(State(arena, stack))
    ensures r == AddKey(arena, stack, indent, key, value)
  {
    var a, s := arena, stack;
    var parent := s[|s| - 1].id;
    if a[parent].ListC? {
      return Failure(KeyOnList);
    }
    var e := a[parent].entries;
    if value == [] {
      var child := |a|;
      a := a + [MapC([])];
      a := a[parent := MapC(Put(e, key, Ref(child)))];
      s := s + [Frame(indent, child)];
    } else {
      a := a[parent := MapC(Put(e, key, Leaf(ParseValue(value))))];
    }
    r := Success(State(a, s));
  }

  /** Lines 317-342 once the frames are popped: a `- ` item. */
  method DecodeItem(arena: seq<Container>, stack: seq<Frame>, indent: nat, value: string)
    returns (r: Result<State, DecodeError>)
    requires Valid(State(arena, stack))
    ensures r == AddItem(arena, stack, indent, value)
  {
    var a, s := arena, stack;
    if !a[s[|s| - 1].id].ListC? {
      var ready := DecodeStartList(a, s);
      if ready.Failure? {
        return Failure(ready.error);
      }
      a, s := ready.value.0, ready.value.1;
    }
    var parent := s[|s| - 1].id;
    if ':' in value {
      var parts := SplitOnce(value, ':');
      var item := |a|;
      a := a + [MapC([])];
      a := a[parent := ListC(a[parent].items + [Ref(item)])];
      s := s + [Frame(indent, item)];
      a := a[item := MapC([(Strip(parts.0), Leaf(ParseValue(Strip(parts.1))))])];
    } else {
      a := a[parent := ListC(a[parent].items + [Leaf(ParseValue(value))])];
    }
    r := Success(State(a, s));
  }

  /** Lines 320-330: a new list in the top frame's place, stored under the
      grandparent's newest key that holds an empty dict. */
  method DecodeStartList(arena: seq<Container>, stack: seq<Frame>)
    returns (r: Result<(seq<Container>, seq<Frame>), DecodeError>)
    requires |stack| > 0 && forall j :: 0 <= j < |stack| ==> stack[j].id < |arena|
    ensures r == StartList(arena, stack)
  {
    var a, s := arena, stack;
    var newList := |a|;
    a := a + [ListC([])];
    s := s[|s| - 1 := Frame(s[|s| - 1].indent, newList)];
    if |s| < 2 {
      return Failure(NoGrandparent);
    }
    var g := s[|s| - 2].id;
    if a[g].ListC? {
      return Failure(GrandparentIsList);
    }
    var e := a[g].entries;
    var found := FindNewestEmpty(a, e);
    if found.Some? {
      var i := found.value;
      a := a[g := MapC(e[i := (e[i].0, Ref(newList))])];
    }
    r := Success((a, s));
  }

  /** `while indent <= stack[-1][0]: stack.pop()`. */
  method PopFrames(stack: seq<Frame>, indent: nat) returns (s: seq<Frame>)
    requires |stack| > 0 && stack[0].indent < 0
    ensures s == PopTo(stack, indent)
  {
    s := stack;
    while indent <= s[|s| - 1].indent
      invariant 0 < |s| <= |stack| && s == stack[..|s|]
      invariant PopTo(s, indent) == PopTo(stack, indent)
      decreases |s|
    {
      s := s[..|s| - 1];
    }
  }

  /** `for k in reversed(container): if container[k] == {}: ... break`: the
      position of the newest key holding an empty dict. */
  method FindNewestEmpty(a: seq<Container>, e: seq<(string, Slot)>) returns (found: Option<nat>)
    ensures found == NewestEmptyMap(a, e)
  {
    found := None;
    var i := |e|;
    while i > 0
      invariant 0 <= i <= |e|
      invariant NewestEmptyMap(a, e) == NewestEmptyMap(a, e[..i])
    {
      i := i - 1;
      assert e[..i + 1][..i] == e[..i];
      if IsEmptyMap(a, e[i].1) {
        found := Some(i);
        break;
      }
    }
  }
}
