/**
 Printing a directory tree with a prefix that grows and shrinks inside one fixed buffer.

 The module proves that the printer with its look-ahead of one entry and its mutated prefix prints what a recursive
 rendering says, that it gives the prefix back unchanged, and that it stays inside the buffer exactly for the trees that
 are not too deep; what every character of the drawing means; and that the output can be read back: names without
 newlines give the same forest again.
 */
module Tree {

  /** What readdir delivers. The entries "." and ".." are leaves here, as nothing ever opens them. */
  datatype Entry = Leaf(name: string) | Dir(name: string, entries: seq<Entry>) {
    predicate IsDot() {
      name == "." || name == ".."
    }
  }

  datatype Option<T> = None | Some(value: T)

  function Readdir(entries: seq<Entry>, position: nat): Option<Entry> {
    if position < |entries| then Some(entries[position]) else None
  }

  function Branch(last: bool): string {
    if last then "`-- " else "|-- "
  }

  function Indent(last: bool): string {
    if last then "    " else "|   "
  }

  /** The line of an entry and, for a directory, everything below it. */
  function RenderEntry(e: Entry, last: bool, prefix: string): string
    decreases e
  {
    if e.IsDot() then ""
    else
      prefix + Branch(last) + e.name + "\n" + if e.Dir? then Render(e.entries, prefix + Indent(last)) else ""
  }

  function Render(entries: seq<Entry>, prefix: string): string
    decreases entries
  {
    if entries == [] then ""
    else RenderEntry(entries[0], |entries| == 1, prefix) + Render(entries[1..], prefix)
  }

  /** How many directories are nested at most. */
  function EntryHeight(e: Entry): nat
    decreases e
  {
    if e.IsDot() || e.Leaf? then 0 else 1 + Height(e.entries)
  }

  function Height(entries: seq<Entry>): nat
    decreases entries
  {
    if entries == [] then 0
    else
      var first, rest := EntryHeight(entries[0]), Height(entries[1..]);
      if first < rest then rest else first
  }

  // ---------------------------------------------------------------- the printer

  /** The buffer `a` holds the C string `text`. */
  predicate IsString(a: seq<char>, text: string) {
    |text| < |a| && a[..|text|] == text && a[|text|] == '\0' && '\0' !in text
  }

  method Strlen(a: array<char>, ghost text: string) returns (n: nat)
    requires IsString(a[..], text)
    ensures n == |text|
  {
    n := 0;
    while a[n] != '\0'
      invariant n <= |text|
      decreases |text| - n
    {
      assert a[..][|text|] == '\0';
      n := n + 1;
    }
    assert a[n] !in text && a[..n] == text[..n];
    assert a[..|text|] == text;
  }

  /** Fails, instead of writing behind the end of the buffer. */
  method Strcat(dest: array<char>, source: string, ghost text: string) returns (ok: bool)
    requires IsString(dest[..], text) && '\0' !in source
    modifies dest
    ensures ok <==> |text| + |source| < dest.Length
    ensures ok ==> IsString(dest[..], text + source)
    ensures !ok ==> dest[..] == old(dest[..])
  {
    var n := Strlen(dest, text);
    ok := n + |source| < dest.Length;
    if ok {
      for i := 0 to |source|
        invariant dest[..|text|] == text
        invariant dest[n..n + i] == source[..i]
      {
        dest[n + i] := source[i];
      }
      dest[n + |source|] := '\0';
    }
  }

  method PrintEntry(entry: Entry, last: bool, prefix: array<char>, prefixLen: nat, ghost text: string)
    returns (ok: bool, out: string)
    requires IsString(prefix[..], text) && prefixLen == |text|
    modifies prefix
    ensures ok <==> prefixLen + 4 * EntryHeight(entry) < prefix.Length
    ensures ok ==> IsString(prefix[..], text) && out == RenderEntry(entry, last, text)
    decreases entry
  {
    ok, out := true, "";
    if entry.name != "." && entry.name != ".." {
      var n := Strlen(prefix, text);
      out := prefix[..n] + Branch(last) + entry.name + "\n";
      if entry.Dir? {
        ok := Strcat(prefix, Indent(last), text);
        if ok {
          var below;
          ok, below := PrintTree(entry.entries, prefix, prefixLen + 4, text + Indent(last));
          out := out + below;
          if ok {
            assert (text + Indent(last))[..prefixLen] == text;
            assert prefix[..prefixLen] == prefix[..][..prefixLen + 4][..prefixLen];
            prefix[prefixLen] := '\0';
          }
        }
      }
    }
  }

  /** Prints the entries after `prefix`, always one entry behind readdir to know which one is the last. */
  method PrintTree(entries: seq<Entry>, prefix: array<char>, prefixLen: nat, ghost text: string)
    returns (ok: bool, out: string)
    requires IsString(prefix[..], text) && prefixLen == |text|
    modifies prefix
    ensures ok <==> prefixLen + 4 * Height(entries) < prefix.Length
    ensures ok ==> IsString(prefix[..], text) && out == Render(entries, text)
    decreases entries
  {
    ok, out := true, "";
    var entry, nextEntry := Readdir(entries, 0), Readdir(entries, 1);
    var position := 2;
    while nextEntry != None
      invariant 2 <= position
      invariant entry == Readdir(entries, position - 2) && nextEntry == Readdir(entries, position - 1)
      invariant entry != None || position == 2
      invariant IsString(prefix[..], text)
      invariant position - 2 <= |entries|
      invariant out + Render(entries[position - 2..], text) == Render(entries, text)
      invariant prefixLen + 4 * Height(entries) < prefix.Length
                <==> prefixLen + 4 * Height(entries[position - 2..]) < prefix.Length
      decreases |entries| + 2 - position
    {
      var rest := entries[position - 2..];
      assert rest[0] == entry.value && rest[1..] == entries[position - 1..];
      var line;
      ok, line := PrintEntry(entry.value, false, prefix, prefixLen, text);
      if !ok {
        return;
      }
      out := out + line;
      entry := nextEntry;
      nextEntry := Readdir(entries, position);
      position := position + 1;
    }
    if entry != None {
      var rest := entries[position - 2..];
      assert rest == [entry.value];
      var line;
      ok, line := PrintEntry(entry.value, true, prefix, prefixLen, text);
      out := out + line;
    }
  }

  const PREFIX_SIZE := 1024

  method PrintRoot(root: string, entries: seq<Entry>) returns (ok: bool, out: string)
    ensures ok <==> Height(entries) < 256
    ensures ok ==> out == root + "\n" + Render(entries, "")
    ensures ok ==> root + "\n" <= out && AllShown(out[|root| + 1..], Lines(entries, []))
  {
    RenderShows(entries, "", []);
    var prefix := new char[PREFIX_SIZE];
    prefix[0] := '\0';
    var tree;
    ok, tree := PrintTree(entries, prefix, 0, "");
    out := root + "\n" + tree;
    assert out[|root| + 1..] == tree;
  }

  // ---------------------------------------------------------------- the drawing

  /** A line to be printed; `ancestors` tells of each directory around the entry whether it is the last of its own. */
  datatype Line = Line(ancestors: seq<bool>, last: bool, name: string) {
    function Width(): nat {
      4 * |ancestors| + 4 + |name|
    }
  }

  function EntryLines(e: Entry, last: bool, ancestors: seq<bool>): seq<Line>
    decreases e
  {
    if e.IsDot() then []
    else [Line(ancestors, last, e.name)] + if e.Dir? then Lines(e.entries, ancestors + [last]) else []
  }

  function Lines(entries: seq<Entry>, ancestors: seq<bool>): seq<Line>
    decreases entries
  {
    if entries == [] then [] else EntryLines(entries[0], |entries| == 1, ancestors) + Lines(entries[1..], ancestors)
  }

  /** A column for each ancestor: a bar where more of the ancestor's siblings are to come, blank below the last one. */
  predicate ShowsAncestors(text: string, ancestors: seq<bool>) {
    && |text| == 4 * |ancestors|
    && forall k | 0 <= k < |ancestors| ::
         text[4 * k] == (if ancestors[k] then ' ' else '|') && text[4 * k + 1..4 * k + 4] == "   "
  }

  /** The corner is for the last entry of its directory. */
  predicate Shows(text: string, line: Line) {
    var indent := 4 * |line.ancestors|;
    && indent + 4 <= |text| && ShowsAncestors(text[..indent], line.ancestors)
    && text[indent] == (if line.last then '`' else '|') && text[indent + 1..indent + 4] == "-- "
    && text[indent + 4..] == line.name
  }

  /** The text consists of these lines, each ended by a newline. */
  predicate AllShown(text: string, lines: seq<Line>) {
    if lines == [] then text == ""
    else
      var n := lines[0].Width();
      && n < |text| && text[n] == '\n'
      && Shows(text[..n], lines[0]) && AllShown(text[n + 1..], lines[1..])
  }

  lemma CutAt<T>(a: seq<T>, n: nat, b: seq<T>)
    requires n < |a|
    ensures a + b == a[..n] + [a[n]] + (a[n + 1..] + b)
  {
  }

  lemma CutFirst<T>(a: seq<T>, b: seq<T>)
    requires a != []
    ensures a + b == [a[0]] + (a[1..] + b)
  {
  }

  lemma ShownNext(head: string, line: Line, rest: string, lines: seq<Line>)
    requires |head| == line.Width() && Shows(head, line) && AllShown(rest, lines)
    ensures AllShown(head + "\n" + rest, [line] + lines)
  {
    var text := head + "\n" + rest;
    assert text[..|head|] == head && text[|head| + 1..] == rest;
    assert ([line] + lines)[1..] == lines;
  }

  lemma {:induction false} ShownTogether(a: string, b: string, linesA: seq<Line>, linesB: seq<Line>)
    requires AllShown(a, linesA) && AllShown(b, linesB)
    ensures AllShown(a + b, linesA + linesB)
  {
    if linesA == [] {
      assert a + b == b && linesA + linesB == linesB;
    } else {
      var n := linesA[0].Width();
      var head, rest := a[..n], a[n + 1..];
      ShownTogether(rest, b, linesA[1..], linesB);
      ShownNext(head, linesA[0], rest + b, linesA[1..] + linesB);
      CutAt(a, n, b);
      CutFirst(linesA, linesB);
    }
  }

  lemma IndentShows(prefix: string, ancestors: seq<bool>, last: bool)
    requires ShowsAncestors(prefix, ancestors)
    ensures ShowsAncestors(prefix + Indent(last), ancestors + [last])
  {
    var text := prefix + Indent(last);
    forall k | 0 <= k < |ancestors| + 1
      ensures text[4 * k] == (if (ancestors + [last])[k] then ' ' else '|') && text[4 * k + 1..4 * k + 4] == "   "
    {
      if k < |ancestors| {
        assert ancestors[k] == (ancestors + [last])[k];
        assert text[4 * k + 1..4 * k + 4] == prefix[4 * k + 1..4 * k + 4];
      } else {
        assert text[4 * k + 1..4 * k + 4] == Indent(last)[1..];
      }
    }
  }

  lemma BranchShows(prefix: string, line: Line)
    requires ShowsAncestors(prefix, line.ancestors)
    ensures AllShown(prefix + Branch(line.last) + line.name + "\n", [line])
  {
    var text, n := prefix + Branch(line.last) + line.name, line.Width();
    assert (text + "\n")[..n] == text && (text + "\n")[n + 1..] == "";
    assert text[..|prefix|] == prefix && text[|prefix| + 4..] == line.name;
    assert text[|prefix| + 1..|prefix| + 4] == Branch(line.last)[1..];
  }

  lemma {:induction false} RenderEntryShows(e: Entry, last: bool, prefix: string, ancestors: seq<bool>)
    requires ShowsAncestors(prefix, ancestors)
    ensures AllShown(RenderEntry(e, last, prefix), EntryLines(e, last, ancestors))
    decreases e
  {
    if !e.IsDot() {
      var line := Line(ancestors, last, e.name);
      BranchShows(prefix, line);
      if e.Dir? {
        IndentShows(prefix, ancestors, last);
        RenderShows(e.entries, prefix + Indent(last), ancestors + [last]);
        ShownTogether(prefix + Branch(last) + e.name + "\n", Render(e.entries, prefix + Indent(last)), [line],
                      Lines(e.entries, ancestors + [last]));
      } else {
        ShownTogether(prefix + Branch(last) + e.name + "\n", "", [line], []);
      }
    }
  }

  /** The rendering shows every entry on a line of its own, with the bars and corners where they belong. */
  lemma {:induction false} RenderShows(entries: seq<Entry>, prefix: string, ancestors: seq<bool>)
    requires ShowsAncestors(prefix, ancestors)
    ensures AllShown(Render(entries, prefix), Lines(entries, ancestors))
    decreases entries
  {
    if entries != [] {
      RenderEntryShows(entries[0], |entries| == 1, prefix, ancestors);
      RenderShows(entries[1..], prefix, ancestors);
      ShownTogether(RenderEntry(entries[0], |entries| == 1, prefix), Render(entries[1..], prefix),
                    EntryLines(entries[0], |entries| == 1, ancestors), Lines(entries[1..], ancestors));
    }
  }

  // ---------------------------------------------------------------- reading the output back

  /**
   What the output can tell about a tree: names, nesting, and which entry is the last of what readdir delivers for its
   directory; an empty directory looks like a file.
   */
  datatype Node = Node(name: string, last: bool, children: seq<Node>)

  function EntryForest(e: Entry, last: bool): seq<Node>
    decreases e
  {
    if e.IsDot() then [] else [Node(e.name, last, if e.Dir? then Forest(e.entries) else [])]
  }

  function Forest(entries: seq<Entry>): seq<Node>
    decreases entries
  {
    if entries == [] then [] else EntryForest(entries[0], |entries| == 1) + Forest(entries[1..])
  }

  datatype Item = Item(depth: nat, last: bool, name: string)

  function EntryItems(e: Entry, last: bool, depth: nat): seq<Item>
    decreases e
  {
    if e.IsDot() then [] else [Item(depth, last, e.name)] + if e.Dir? then Items(e.entries, depth + 1) else []
  }

  function Items(entries: seq<Entry>, depth: nat): seq<Item>
    decreases entries
  {
    if entries == [] then [] else EntryItems(entries[0], |entries| == 1, depth) + Items(entries[1..], depth)
  }

  function LineLength(text: string): (n: nat)
    ensures n <= |text|
    ensures '\n' !in text[..n] && (n < |text| ==> text[n] == '\n')
  {
    if text == "" || text[0] == '\n' then 0 else 1 + LineLength(text[1..])
  }

  /** Counts the four characters wide columns of indentation, then looks at the branch. */
  function ParseLine(line: string, depth: nat): Item {
    if "|   " <= line || "    " <= line then ParseLine(line[4..], depth + 1)
    else Item(depth, "`" <= line, if |line| < 4 then "" else line[4..])
  }

  function Parse(text: string): seq<Item>
    decreases |text|
  {
    var n := LineLength(text);
    if n == |text| then [] else [ParseLine(text[..n], 0)] + Parse(text[n + 1..])
  }

  /** Collects the nodes at `depth` from the beginning of `items`; returns them and the items that follow. */
  function Build(items: seq<Item>, depth: nat): (r: (seq<Node>, seq<Item>))
    ensures |r.1| <= |items|
    decreases |items|
  {
    if items == [] || items[0].depth != depth then ([], items)
    else
      var (children, afterChildren) := Build(items[1..], depth + 1);
      var (siblings, rest) := Build(afterChildren, depth);
      ([Node(items[0].name, items[0].last, children)] + siblings, rest)
  }

  function Decode(text: string): seq<Node> {
    Build(Parse(text), 0).0
  }

  predicate EntryOneLine(e: Entry)
    decreases e
  {
    e.IsDot() || ('\n' !in e.name && (e.Dir? ==> OneLineNames(e.entries)))
  }

  /** No name that gets printed contains a newline. */
  predicate OneLineNames(entries: seq<Entry>)
    decreases entries
  {
    entries == [] || (EntryOneLine(entries[0]) && OneLineNames(entries[1..]))
  }

  /** A prefix of `depth` columns. */
  predicate IsIndentation(prefix: string, depth: nat) {
    if depth == 0 then prefix == ""
    else
      && |prefix| >= 4 && (prefix[..4] == Indent(false) || prefix[..4] == Indent(true))
      && IsIndentation(prefix[4..], depth - 1)
  }

  lemma {:induction false} IndentationGrows(prefix: string, depth: nat, last: bool)
    requires IsIndentation(prefix, depth)
    ensures IsIndentation(prefix + Indent(last), depth + 1)
    decreases depth
  {
    if depth == 0 {
      assert prefix + Indent(last) == Indent(last);
      assert IsIndentation(Indent(last)[4..], 0);
    } else {
      IndentationGrows(prefix[4..], depth - 1, last);
      assert (prefix + Indent(last))[4..] == prefix[4..] + Indent(last);
    }
  }

  lemma {:induction false} ParseLineOf(prefix: string, depth: nat, start: nat, last: bool, name: string)
    requires IsIndentation(prefix, depth)
    ensures ParseLine(prefix + Branch(last) + name, start) == Item(start + depth, last, name)
    decreases depth
  {
    var line := prefix + Branch(last) + name;
    if depth == 0 {
      assert line == Branch(last) + name;
      assert line[0] == Branch(last)[0] && line[1] == '-';
      assert line[4..] == name;
    } else {
      assert line[..4] == prefix[..4];
      assert line[4..] == prefix[4..] + Branch(last) + name;
      ParseLineOf(prefix[4..], depth - 1, start + 1, last, name);
    }
  }

  lemma {:induction false} LineLengthOf(line: string, rest: string)
    requires '\n' !in line
    ensures LineLength(line + "\n" + rest) == |line|
  {
    var text := line + "\n" + rest;
    if line != "" {
      assert text[1..] == line[1..] + "\n" + rest;
      LineLengthOf(line[1..], rest);
    }
  }

  lemma {:induction false} IndentationIsOneLine(prefix: string, depth: nat)
    requires IsIndentation(prefix, depth)
    ensures '\n' !in prefix
    decreases depth
  {
    if depth > 0 {
      IndentationIsOneLine(prefix[4..], depth - 1);
      assert prefix == prefix[..4] + prefix[4..];
    }
  }

  lemma ParseNext(line: string, rest: string)
    requires '\n' !in line
    ensures Parse(line + "\n" + rest) == [ParseLine(line, 0)] + Parse(rest)
  {
    var text := line + "\n" + rest;
    LineLengthOf(line, rest);
    assert text[..|line|] == line && text[|line| + 1..] == rest;
  }

  lemma ParseOneLine(prefix: string, depth: nat, last: bool, name: string, rest: string)
    requires IsIndentation(prefix, depth) && '\n' !in name
    ensures Parse(prefix + Branch(last) + name + "\n" + rest) == [Item(depth, last, name)] + Parse(rest)
  {
    IndentationIsOneLine(prefix, depth);
    ParseNext(prefix + Branch(last) + name, rest);
    ParseLineOf(prefix, depth, 0, last, name);
  }

  lemma ParseBelow(prefix: string, depth: nat, last: bool, name: string, below: string, items: seq<Item>, rest: string)
    requires IsIndentation(prefix, depth) && '\n' !in name
    requires Parse(below + rest) == items + Parse(rest)
    ensures Parse(prefix + Branch(last) + name + "\n" + below + rest) == [Item(depth, last, name)] + items + Parse(rest)
  {
    var line := prefix + Branch(last) + name + "\n";
    ParseOneLine(prefix, depth, last, name, below + rest);
    AppendTwice(line, below, rest);
    AppendTwice([Item(depth, last, name)], items, Parse(rest));
  }

  lemma AppendTwice<T>(a: seq<T>, b: seq<T>, c: seq<T>)
    ensures a + b + c == a + (b + c)
  {
  }

  lemma {:induction false} ParseEntry(e: Entry, last: bool, prefix: string, depth: nat, rest: string)
    requires EntryOneLine(e) && IsIndentation(prefix, depth)
    ensures Parse(RenderEntry(e, last, prefix) + rest) == EntryItems(e, last, depth) + Parse(rest)
    decreases e
  {
    if e.IsDot() {
      assert "" + rest == rest;
    } else if e.Dir? {
      IndentationGrows(prefix, depth, last);
      ParseRendered(e.entries, prefix + Indent(last), depth + 1, rest);
      var below := Render(e.entries, prefix + Indent(last));
      ParseBelow(prefix, depth, last, e.name, below, Items(e.entries, depth + 1), rest);
    } else {
      assert "" + rest == rest;
      ParseBelow(prefix, depth, last, e.name, "", [], rest);
    }
  }

  lemma {:induction false} ParseRendered(entries: seq<Entry>, prefix: string, depth: nat, rest: string)
    requires OneLineNames(entries) && IsIndentation(prefix, depth)
    ensures Parse(Render(entries, prefix) + rest) == Items(entries, depth) + Parse(rest)
    decreases entries
  {
    if entries == [] {
      assert Render(entries, prefix) + rest == rest;
    } else {
      var last := |entries| == 1;
      var others := Render(entries[1..], prefix);
      ParseEntry(entries[0], last, prefix, depth, others + rest);
      ParseRendered(entries[1..], prefix, depth, rest);
      AppendTwice(RenderEntry(entries[0], last, prefix), others, rest);
      AppendTwice(EntryItems(entries[0], last, depth), Items(entries[1..], depth), Parse(rest));
    }
  }

  lemma BuildNode(name: string, last: bool, depth: nat, below: seq<Item>, others: seq<Item>)
    requires Build(below + others, depth + 1).1 == others
    ensures var (children, siblings) := (Build(below + others, depth + 1).0, Build(others, depth));
            Build([Item(depth, last, name)] + below + others, depth)
            == ([Node(name, last, children)] + siblings.0, siblings.1)
  {
    assert ([Item(depth, last, name)] + below + others)[1..] == below + others;
  }

  lemma {:induction false} BuildEntry(e: Entry, last: bool, depth: nat, others: seq<Item>)
    requires others == [] || others[0].depth <= depth
    ensures var siblings := Build(others, depth);
            Build(EntryItems(e, last, depth) + others, depth) == (EntryForest(e, last) + siblings.0, siblings.1)
    decreases e
  {
    if e.IsDot() {
      assert [] + others == others && [] + Build(others, depth).0 == Build(others, depth).0;
    } else if e.Dir? {
      BuildItems(e.entries, depth + 1, others);
      BuildNode(e.name, last, depth, Items(e.entries, depth + 1), others);
    } else {
      assert [] + others == others;
      BuildNode(e.name, last, depth, [], others);
    }
  }

  lemma {:induction false} BuildItems(entries: seq<Entry>, depth: nat, rest: seq<Item>)
    requires rest == [] || rest[0].depth < depth
    ensures Build(Items(entries, depth) + rest, depth) == (Forest(entries), rest)
    decreases entries
  {
    if entries == [] {
      assert [] + rest == rest;
    } else {
      var others := Items(entries[1..], depth) + rest;
      ItemsAreDeep(entries[1..], depth);
      BuildItems(entries[1..], depth, rest);
      BuildEntry(entries[0], |entries| == 1, depth, others);
      AppendTwice(EntryItems(entries[0], |entries| == 1, depth), Items(entries[1..], depth), rest);
    }
  }

  lemma {:induction false} ItemsAreDeep(entries: seq<Entry>, depth: nat)
    ensures Items(entries, depth) != [] ==> Items(entries, depth)[0].depth == depth
    decreases entries
  {
    if entries != [] {
      ItemsAreDeep(entries[1..], depth);
    }
  }

  predicate OneLineItems(items: seq<Item>) {
    forall k | 0 <= k < |items| :: '\n' !in items[k].name
  }

  predicate OneLineNodes(nodes: seq<Node>)
    decreases nodes
  {
    nodes == [] || ('\n' !in nodes[0].name && OneLineNodes(nodes[0].children) && OneLineNodes(nodes[1..]))
  }

  lemma {:induction false} ParsedLineIsOneLine(line: string, depth: nat)
    requires '\n' !in line
    ensures '\n' !in ParseLine(line, depth).name
    decreases |line|
  {
    if "|   " <= line || "    " <= line {
      ParsedLineIsOneLine(line[4..], depth + 1);
    }
  }

  lemma {:induction false} ParsedIsOneLine(text: string)
    ensures OneLineItems(Parse(text))
    decreases |text|
  {
    var n := LineLength(text);
    if n < |text| {
      ParsedLineIsOneLine(text[..n], 0);
      ParsedIsOneLine(text[n + 1..]);
    }
  }

  lemma {:induction false} BuiltIsOneLine(items: seq<Item>, depth: nat)
    requires OneLineItems(items)
    ensures var (nodes, rest) := Build(items, depth); OneLineNodes(nodes) && OneLineItems(rest)
    decreases |items|
  {
    if items != [] && items[0].depth == depth {
      BuiltIsOneLine(items[1..], depth + 1);
      BuiltIsOneLine(Build(items[1..], depth + 1).1, depth);
    }
  }

  lemma {:induction false} ForestIsOneLine(entries: seq<Entry>)
    ensures OneLineNames(entries) <==> OneLineNodes(Forest(entries))
    decreases entries
  {
    if entries != [] {
      var e, rest := entries[0], Forest(entries[1..]);
      ForestIsOneLine(entries[1..]);
      if e.IsDot() {
        assert Forest(entries) == rest;
      } else {
        assert Forest(entries)[1..] == rest;
        if e.Dir? {
          ForestIsOneLine(e.entries);
        }
      }
    }
  }

  /** The printed tree can be read back exactly when no name contains a newline. */
  lemma {:induction false} DecodeRender(entries: seq<Entry>)
    ensures Decode(Render(entries, "")) == Forest(entries) <==> OneLineNames(entries)
  {
    if OneLineNames(entries) {
      ParseRendered(entries, "", 0, "");
      assert Render(entries, "") + "" == Render(entries, "");
      BuildItems(entries, 0, []);
      assert Items(entries, 0) + Parse("") == Items(entries, 0) + [];
    } else {
      ForestIsOneLine(entries);
      ParsedIsOneLine(Render(entries, ""));
      BuiltIsOneLine(Parse(Render(entries, "")), 0);
    }
  }

  /** Different forests look different. */
  lemma {:induction false} RenderIsInjective(a: seq<Entry>, b: seq<Entry>)
    requires OneLineNames(a) && OneLineNames(b) && Render(a, "") == Render(b, "")
    ensures Forest(a) == Forest(b)
  {
    DecodeRender(a);
    DecodeRender(b);
  }

  // The corner is for the last entry that readdir delivers, which may be "." or "..".

  /** In every directory the corner marks the last entry that is shown, and no other. */
  predicate CornersLast(nodes: seq<Node>)
    decreases nodes
  {
    nodes == []
    || ((nodes[0].last <==> |nodes| == 1) && CornersLast(nodes[0].children) && CornersLast(nodes[1..]))
  }

  predicate EntryDotsEarly(e: Entry)
    decreases e
  {
    e.Dir? ==> DotsEarly(e.entries)
  }

  /** Where anything is shown, readdir delivers neither "." nor ".." as the last entry. */
  predicate DotsEarly(entries: seq<Entry>)
    decreases entries
  {
    entries == []
    || ((entries[0].IsDot() || (!entries[|entries| - 1].IsDot() && EntryDotsEarly(entries[0])))
        && DotsEarly(entries[1..]))
  }

  lemma {:induction false} LastIsShown(entries: seq<Entry>)
    requires DotsEarly(entries) && entries != []
    ensures Forest(entries) != [] <==> !entries[|entries| - 1].IsDot()
  {
    if |entries| > 1 {
      LastIsShown(entries[1..]);
    } else {
      assert Forest(entries[1..]) == [];
    }
  }

  /** The drawing looks right exactly when "." and ".." are not delivered last. */
  lemma {:induction false} CornersLastExactly(entries: seq<Entry>)
    ensures CornersLast(Forest(entries)) <==> DotsEarly(entries)
    decreases entries
  {
    if entries != [] {
      var e, rest := entries[0], entries[1..];
      CornersLastExactly(rest);
      if e.IsDot() {
        assert Forest(entries) == Forest(rest);
      } else {
        assert Forest(entries)[1..] == Forest(rest);
        if e.Dir? {
          CornersLastExactly(e.entries);
        }
        if rest != [] && DotsEarly(rest) {
          LastIsShown(rest);
        }
      }
    }
  }

  lemma {:induction false} LeavesAreShown(entries: seq<Entry>)
    requires forall i | 0 <= i < |entries| :: entries[i].Leaf? && !entries[i].IsDot()
    ensures |Forest(entries)| == |entries|
  {
    if entries != [] {
      LeavesAreShown(entries[1..]);
    }
  }

  /** A newline in a name can forge an entry. */
  lemma {:induction false} NewlinesAreAmbiguous()
    ensures var a := [Leaf("x\n|-- y"), Leaf("z")];
            var b := [Leaf("x"), Leaf("y"), Leaf("z")];
            Render(a, "") == Render(b, "") && Forest(a) != Forest(b)
  {
    var a := [Leaf("x\n|-- y"), Leaf("z")];
    var b := [Leaf("x"), Leaf("y"), Leaf("z")];
    var z := [Leaf("z")];
    assert a[1..] == z && b[1..] == [Leaf("y")] + z && ([Leaf("y")] + z)[1..] == z;
    assert z[1..] == [];
    assert Render(z, "") == "`-- z\n";
    assert RenderEntry(Leaf("y"), false, "") == "|-- y\n" && RenderEntry(Leaf("x"), false, "") == "|-- x\n";
    assert Render(b[1..], "") == "|-- y\n" + Render(z, "");
    assert RenderEntry(a[0], false, "") == "|-- x\n|-- y\n";
    LeavesAreShown(a);
    LeavesAreShown(b);
  }
}
