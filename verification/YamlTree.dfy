/** Nesting by indentation: a tree written as lines, and lines read back as a tree. */
module YamlTree {
  import opened Prelude
  import opened YamlText

  datatype Entry = Entry(key: string, node: Node)

  datatype Node = Leaf(value: Value) | Block(entries: seq<Entry>) | Sequence(items: seq<Item>)

  /** One item of a block sequence: a mapping. */
  datatype Item = Item(entries: seq<Entry>)

  // ---------- writing ----------

  /** Two spaces per level. */
  function EntriesLines(entries: seq<Entry>, indent: nat): seq<Line>
    decreases entries
  {
    if entries == [] then []
    else NodeLines(entries[0].key, entries[0].node, indent) + EntriesLines(entries[1..], indent)
  }

  function NodeLines(key: string, node: Node, indent: nat): (lines: seq<Line>)
    ensures lines != [] && lines[0].indent == indent && !lines[0].dash && lines[0].key == key
    decreases node
  {
    match node
    case Leaf(v) => [Line(indent, false, key, v)]
    case Block(es) => [Line(indent, false, key, Nothing)] + EntriesLines(es, indent + 2)
    case Sequence(items) => [Line(indent, false, key, Nothing)] + SequenceLines(items, indent + 2)
  }

  /** The dash of an item stands on the first line of its entries, two columns to their left. */
  function Dashed(lines: seq<Line>, indent: nat): seq<Line> {
    if lines == [] then [] else [lines[0].(dash := true, indent := indent)] + lines[1..]
  }

  function SequenceLines(items: seq<Item>, indent: nat): seq<Line>
    decreases items
  {
    if items == [] then []
    else Dashed(EntriesLines(items[0].entries, indent + 2), indent) + SequenceLines(items[1..], indent)
  }

  lemma {:induction false} EntriesLinesConcat(a: seq<Entry>, b: seq<Entry>, indent: nat)
    ensures EntriesLines(a + b, indent) == EntriesLines(a, indent) + EntriesLines(b, indent)
    decreases |a|
  {
    if a == [] {
      assert a + b == b;
    } else {
      assert (a + b)[1..] == a[1..] + b;
      EntriesLinesConcat(a[1..], b, indent);
    }
  }

  lemma {:induction false} SequenceLinesConcat(a: seq<Item>, b: seq<Item>, indent: nat)
    ensures SequenceLines(a + b, indent) == SequenceLines(a, indent) + SequenceLines(b, indent)
    decreases |a|
  {
    if a == [] {
      assert a + b == b;
    } else {
      assert (a + b)[1..] == a[1..] + b;
      SequenceLinesConcat(a[1..], b, indent);
    }
  }

  lemma OneEntryLines(e: Entry, indent: nat)
    ensures EntriesLines([e], indent) == NodeLines(e.key, e.node, indent)
  {
    assert [e][1..] == [];
  }

  // ---------- reading ----------

  /** How many lines belong to the block above: those indented deeper than `indent`. */
  function Deeper(lines: seq<Line>, indent: nat): (n: nat)
    ensures n <= |lines|
  {
    if lines == [] || lines[0].indent <= indent then 0 else 1 + Deeper(lines[1..], indent)
  }

  function ReadNode(value: Value, body: seq<Line>): Option<Node>
    decreases |body|, 2
  {
    if body == [] then Some(Leaf(value))
    else if !value.Nothing? then None
    else if body[0].dash then
      var items := ReadSequence(body, body[0].indent);
      if items.None? then None else Some(Sequence(items.value))
    else
      var entries := ReadEntries(body, body[0].indent);
      if entries.None? then None else Some(Block(entries.value))
  }

  function ReadEntries(lines: seq<Line>, indent: nat): Option<seq<Entry>>
    decreases |lines|, 0
  {
    if lines == [] then Some([])
    else if lines[0].dash || lines[0].indent != indent then None
    else
      var n := Deeper(lines[1..], indent);
      var node := ReadNode(lines[0].value, lines[1..][..n]);
      var more := ReadEntries(lines[1..][n..], indent);
      if node.None? || more.None? then None else Some([Entry(lines[0].key, node.value)] + more.value)
  }

  function Undashed(l: Line, indent: nat): Line {
    l.(dash := false, indent := indent)
  }

  function ReadSequence(lines: seq<Line>, indent: nat): Option<seq<Item>>
    decreases |lines|, 1
  {
    if lines == [] then Some([])
    else if !lines[0].dash || lines[0].indent != indent then None
    else
      var n := Deeper(lines[1..], indent);
      var item := ReadEntries([Undashed(lines[0], indent + 2)] + lines[1..][..n], indent + 2);
      var more := ReadSequence(lines[1..][n..], indent);
      if item.None? || more.None? then None else Some([Item(item.value)] + more.value)
  }

  // ---------- reading undoes writing ----------

  predicate GoodValue(v: Value) {
    match v
    case Nothing => true
    case Scalar(t) => OneLine(t)
    case Items(ts) => ts != [] && forall i | 0 <= i < |ts| :: OneLine(ts[i])
  }

  /**
   Text without line breaks, and no empty list or block: an empty block could not be told from an
   empty value.
   */
  predicate WellFormed(entries: seq<Entry>)
    decreases entries
  {
    entries == [] || (OneLine(entries[0].key) && WellFormedNode(entries[0].node) && WellFormed(entries[1..]))
  }

  predicate WellFormedNode(node: Node)
    decreases node
  {
    match node
    case Leaf(v) => GoodValue(v)
    case Block(es) => es != [] && WellFormed(es)
    case Sequence(items) => items != [] && WellFormedItems(items)
  }

  predicate WellFormedItems(items: seq<Item>)
    decreases items
  {
    items == [] || (items[0].entries != [] && WellFormed(items[0].entries) && WellFormedItems(items[1..]))
  }

  lemma {:induction false} WellFormedConcat(a: seq<Entry>, b: seq<Entry>)
    requires WellFormed(a) && WellFormed(b)
    ensures WellFormed(a + b)
  {
    if a == [] {
      assert a + b == b;
    } else {
      WellFormedConcat(a[1..], b);
      assert (a + b)[1..] == a[1..] + b;
    }
  }

  predicate GoodLines(lines: seq<Line>) {
    forall i | 0 <= i < |lines| :: Writable(lines[i]) && Printable(lines[i])
  }

  lemma {:induction false} GoodEntries(entries: seq<Entry>, indent: nat)
    requires WellFormed(entries)
    ensures GoodLines(EntriesLines(entries, indent))
    decreases entries
  {
    if entries != [] {
      GoodNode(entries[0].key, entries[0].node, indent);
      GoodEntries(entries[1..], indent);
    }
  }

  lemma {:induction false} GoodNode(key: string, node: Node, indent: nat)
    requires OneLine(key) && WellFormedNode(node)
    ensures GoodLines(NodeLines(key, node, indent))
    decreases node
  {
    match node {
      case Leaf(v) =>
      case Block(es) => GoodEntries(es, indent + 2);
      case Sequence(items) => GoodItems(items, indent + 2);
    }
  }

  lemma {:induction false} GoodItems(items: seq<Item>, indent: nat)
    requires WellFormedItems(items)
    ensures GoodLines(SequenceLines(items, indent))
    decreases items
  {
    if items != [] {
      GoodEntries(items[0].entries, indent + 2);
      GoodItems(items[1..], indent);
    }
  }

  /** All lines stand at `indent` or deeper. */
  predicate From(lines: seq<Line>, indent: nat) {
    forall i | 0 <= i < |lines| :: lines[i].indent >= indent
  }

  lemma {:induction false} EntriesFrom(entries: seq<Entry>, indent: nat)
    ensures From(EntriesLines(entries, indent), indent)
    decreases entries
  {
    if entries != [] {
      NodeFrom(entries[0].key, entries[0].node, indent);
      EntriesFrom(entries[1..], indent);
    }
  }

  lemma {:induction false} NodeFrom(key: string, node: Node, indent: nat)
    ensures From(NodeLines(key, node, indent)[1..], indent + 2)
    decreases node
  {
    match node {
      case Leaf(v) =>
      case Block(es) => EntriesFrom(es, indent + 2);
      case Sequence(items) => SequenceFrom(items, indent + 2);
    }
  }

  lemma {:induction false} SequenceFrom(items: seq<Item>, indent: nat)
    ensures From(SequenceLines(items, indent), indent)
    decreases items
  {
    if items != [] {
      EntriesFrom(items[0].entries, indent + 2);
      SequenceFrom(items[1..], indent);
    }
  }

  lemma {:induction false} DeeperOf(body: seq<Line>, rest: seq<Line>, indent: nat)
    requires From(body, indent + 1) && (rest == [] || rest[0].indent <= indent)
    ensures Deeper(body + rest, indent) == |body|
  {
    if body == [] {
      assert body + rest == rest;
    } else {
      assert (body + rest)[1..] == body[1..] + rest;
      DeeperOf(body[1..], rest, indent);
    }
  }

  lemma SplitBlock(body: seq<Line>, rest: seq<Line>, indent: nat)
    requires From(body, indent + 1) && (rest == [] || rest[0].indent <= indent)
    ensures var n := Deeper(body + rest, indent);
            n == |body| && (body + rest)[..n] == body && (body + rest)[n..] == rest
  {
    DeeperOf(body, rest, indent);
  }

  lemma ReadEntriesStep(lines: seq<Line>, body: seq<Line>, rest: seq<Line>, indent: nat, node: Node, more: seq<Entry>)
    requires lines != [] && !lines[0].dash && lines[0].indent == indent
    requires var n := Deeper(lines[1..], indent); lines[1..][..n] == body && lines[1..][n..] == rest
    requires ReadNode(lines[0].value, body) == Some(node) && ReadEntries(rest, indent) == Some(more)
    ensures ReadEntries(lines, indent) == Some([Entry(lines[0].key, node)] + more)
  {
  }

  lemma ReadSequenceStep(lines: seq<Line>, body: seq<Line>, rest: seq<Line>, indent: nat,
          item: seq<Entry>, more: seq<Item>)
    requires lines != [] && lines[0].dash && lines[0].indent == indent
    requires var n := Deeper(lines[1..], indent); lines[1..][..n] == body && lines[1..][n..] == rest
    requires ReadEntries([Undashed(lines[0], indent + 2)] + body, indent + 2) == Some(item)
    requires ReadSequence(rest, indent) == Some(more)
    ensures ReadSequence(lines, indent) == Some([Item(item)] + more)
  {
  }

  lemma ReadTreeCons(lines: seq<Line>, rest: seq<Line>, indent: nat, entry: Entry, more: seq<Entry>)
    requires lines != [] && !lines[0].dash && lines[0].indent == indent && lines[0].key == entry.key
    requires From(lines[1..], indent + 1) && (rest == [] || rest[0].indent <= indent)
    requires ReadNode(lines[0].value, lines[1..]) == Some(entry.node) && ReadEntries(rest, indent) == Some(more)
    ensures ReadEntries(lines + rest, indent) == Some([entry] + more)
  {
    var whole := lines + rest;
    assert !whole[0].dash && whole[0].indent == indent && whole[0].key == entry.key
           && whole[0].value == lines[0].value && whole[1..] == lines[1..] + rest by {
      ConcatFirst(lines, rest);
    }
    SplitBlock(lines[1..], rest, indent);
    ReadEntriesStep(whole, lines[1..], rest, indent, entry.node, more);
  }

  lemma DashedShape(plain: seq<Line>, rest: seq<Line>, indent: nat)
    requires plain != [] && !plain[0].dash && plain[0].indent == indent + 2 && From(plain, indent + 2)
    ensures var lines := Dashed(plain, indent) + rest;
            && lines != [] && lines[0].dash && lines[0].indent == indent && lines[1..] == plain[1..] + rest
            && [Undashed(lines[0], indent + 2)] + plain[1..] == plain && From(plain[1..], indent + 1)
  {
  }

  lemma ReadItemCons(plain: seq<Line>, rest: seq<Line>, indent: nat, item: seq<Entry>, more: seq<Item>)
    requires plain != [] && !plain[0].dash && plain[0].indent == indent + 2
    requires From(plain, indent + 2) && (rest == [] || rest[0].indent <= indent)
    requires ReadEntries(plain, indent + 2) == Some(item) && ReadSequence(rest, indent) == Some(more)
    ensures ReadSequence(Dashed(plain, indent) + rest, indent) == Some([Item(item)] + more)
  {
    DashedShape(plain, rest, indent);
    var lines := Dashed(plain, indent) + rest;
    SplitBlock(plain[1..], rest, indent);
    ReadSequenceStep(lines, plain[1..], rest, indent, item, more);
  }

  lemma FirstLine(entries: seq<Entry>, indent: nat)
    ensures var lines := EntriesLines(entries, indent);
            if entries == [] then lines == [] else lines != [] && lines[0].indent == indent && !lines[0].dash
  {
  }

  lemma FirstItemLine(items: seq<Item>, indent: nat)
    ensures var lines := SequenceLines(items, indent);
            lines == [] || items[0].entries == [] || lines[0].indent == indent
  {
    if items != [] {
      FirstLine(items[0].entries, indent + 2);
    }
  }

  /** Reading the lines of a tree gives the tree back. */
  lemma {:induction false} ReadTree(entries: seq<Entry>, indent: nat)
    requires WellFormed(entries)
    ensures ReadEntries(EntriesLines(entries, indent), indent) == Some(entries)
    decreases entries
  {
    if entries != [] {
      ReadTreeNode(entries[0].key, entries[0].node, indent);
      ReadTree(entries[1..], indent);
      FirstLine(entries[1..], indent);
      NodeFrom(entries[0].key, entries[0].node, indent);
      var lines := NodeLines(entries[0].key, entries[0].node, indent);
      ReadTreeCons(lines, EntriesLines(entries[1..], indent), indent, entries[0], entries[1..]);
      assert [entries[0]] + entries[1..] == entries;
    }
  }

  lemma {:induction false} ReadTreeNode(key: string, node: Node, indent: nat)
    requires WellFormedNode(node)
    ensures var lines := NodeLines(key, node, indent);
            ReadNode(lines[0].value, lines[1..]) == Some(node)
    decreases node
  {
    var lines := NodeLines(key, node, indent);
    match node {
      case Leaf(v) =>
      case Block(es) =>
        assert lines[1..] == EntriesLines(es, indent + 2);
        ReadTree(es, indent + 2);
      case Sequence(items) =>
        assert lines[1..] == SequenceLines(items, indent + 2);
        ReadTreeItems(items, indent + 2);
    }
  }

  lemma {:induction false} ReadTreeItems(items: seq<Item>, indent: nat)
    requires WellFormedItems(items)
    ensures ReadSequence(SequenceLines(items, indent), indent) == Some(items)
    decreases items
  {
    if items != [] {
      var plain, rest := EntriesLines(items[0].entries, indent + 2), SequenceLines(items[1..], indent);
      assert ReadEntries(plain, indent + 2) == Some(items[0].entries) by {
        ReadTree(items[0].entries, indent + 2);
      }
      assert ReadSequence(rest, indent) == Some(items[1..]) by {
        ReadTreeItems(items[1..], indent);
      }
      FirstLine(items[0].entries, indent + 2);
      FirstItemLine(items[1..], indent);
      EntriesFrom(items[0].entries, indent + 2);
      ReadItemCons(plain, rest, indent, items[0].entries, items[1..]);
      assert [Item(items[0].entries)] + items[1..] == items;
    }
  }

  /** Text to lines to tree. */
  function ReadYaml(text: string): Option<seq<Entry>> {
    var lines :- ReadLines(text);
    ReadEntries(lines, 0)
  }

  /** Reading the text of a tree gives the tree back exactly when its lines are legible. */
  lemma ReadYamlText(entries: seq<Entry>)
    requires WellFormed(entries) && entries != []
    ensures ReadYaml(DocumentText(EntriesLines(entries, 0)))
         == if AllLegible(EntriesLines(entries, 0)) then Some(entries) else None
  {
    GoodEntries(entries, 0);
    FirstLine(entries, 0);
    ReadDocument(EntriesLines(entries, 0));
    ReadTree(entries, 0);
  }
}
