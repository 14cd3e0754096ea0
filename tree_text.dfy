/** `format_tree_text`: the forest rendered one line per node, depth first,
    indented two spaces per level with box-drawing connectors. */
module TreeText {
  import opened Common
  import opened WorkItems
  import opened TreeBuild

  /** `n` spaces. */
  function Spaces(n: nat): (r: string)
    ensures |r| == n && forall i :: 0 <= i < n ==> r[i] == ' '
  {
    seq(n, _ => ' ')
  }

  const LastConnector: string := "\U{2514}\U{2500}\U{2500} "
  const MidConnector: string := "\U{251C}\U{2500}\U{2500} "

  /** No connector at the top level; the last sibling gets a corner, the
      others a tee. */
  function Connector(indent: nat, isLast: bool): string {
    if indent == 0 then "" else if isLast then LastConnector else MidConnector
  }

  /** The extras, in order: state, story points, estimate, iteration path;
      each only when truthy. */
  function Extras(x: Item): seq<string> {
    (if x.state != "" then [x.state] else [])
    + (if TruthyNum(x.storyPoints) then ["SP:" + IntToString(x.storyPoints.value)] else [])
    + (if TruthyNum(x.estimate) then ["Est:" + IntToString(x.estimate.value) + "h"] else [])
    + (if x.iterationPath != "" then ["Iteration:" + x.iterationPath] else [])
  }

  /** `"{type}: {title}"`, followed by the extras in parentheses when there
      are any. */
  function Label(x: Item): string {
    var extras := Extras(x);
    x.wtype + ": " + x.title + (if extras != [] then "  (" + Join(extras, ", ") + ")" else "")
  }

  /** The line of one node. */
  function Line(x: Item, indent: nat, isLast: bool): string {
    Spaces(2 * indent) + Connector(indent, isLast) + Label(x)
  }

  /** The lines of the first `i` nodes of `tree` and everything below them. */
  function LinesUpTo(tree: seq<Node>, indent: nat, i: nat): seq<string>
    requires i <= |tree|
    decreases tree, i
  {
    if i == 0 then []
    else
      var n := tree[i - 1];
      LinesUpTo(tree, indent, i - 1) + [Line(n.item, indent, i - 1 == |tree| - 1)]
        + LinesUpTo(n.children, indent + 1, |n.children|)
  }

  /** The text of a forest at a given indent. */
  function Lines(tree: seq<Node>, indent: nat): seq<string> {
    LinesUpTo(tree, indent, |tree|)
  }

  /** One node's line: the indent, the connector, and the label. */
  method NodeLine(x: Item, indent: nat, isLast: bool) returns (line: string)
    ensures line == Line(x, indent, isLast)
  {
    var prefix := Spaces(2 * indent);
    var connector := Connector(indent, isLast);
    line := prefix + connector + Label(x);
  }

  /** `format_tree_text(tree, indent)` */
  method FormatTreeText(tree: seq<Node>, indent: nat) returns (lines: seq<string>)
    ensures lines == Lines(tree, indent)
    decreases tree
  {
    lines := [];
    var i := 0;
    while i < |tree|
      invariant 0 <= i <= |tree|
      invariant lines == LinesUpTo(tree, indent, i)
    {
      var node := tree[i];
      var line := NodeLine(node.item, indent, i == |tree| - 1);
      var sub := [];
      if node.children != [] {
        sub := FormatTreeText(node.children, indent + 1);
      }
      LinesUpToStep(tree, indent, i, lines, line, sub);
      lines := lines + [line] + sub;
      i := i + 1;
    }
  }

  /** One more node: its line, then the lines below it. */
  lemma LinesUpToStep(tree: seq<Node>, indent: nat, i: nat,
                      lines: seq<string>, line: string, sub: seq<string>)
    requires i < |tree| && lines == LinesUpTo(tree, indent, i)
    requires line == Line(tree[i].item, indent, i == |tree| - 1)
    requires sub == LinesUpTo(tree[i].children, indent + 1, |tree[i].children|)
    ensures lines + [line] + sub == LinesUpTo(tree, indent, i + 1)
  {
  }

  // ---------------------------------------------------------------------
  // Depth-first order
  // ---------------------------------------------------------------------

  /** A visited node: its item, its depth, and whether it is the last of
      its siblings. */
  datatype Visit = Visit(item: Item, depth: nat, isLast: bool)

  /** The nodes of a forest depth first: each node, then its subtree, then
      its next sibling. */
  function PreOrder(tree: seq<Node>, depth: nat): seq<Visit>
    decreases tree
  {
    if tree == [] then []
    else
      [Visit(tree[0].item, depth, |tree| == 1)] + PreOrder(tree[0].children, depth + 1)
        + PreOrder(tree[1..], depth)
  }

  /** The number of nodes in a forest. */
  function Size(tree: seq<Node>): nat
    decreases tree
  {
    if tree == [] then 0 else 1 + Size(tree[0].children) + Size(tree[1..])
  }

  /** The line of each visit. */
  function Render(vs: seq<Visit>): (r: seq<string>)
    ensures |r| == |vs|
    ensures forall k :: 0 <= k < |vs| ==> r[k] == Line(vs[k].item, vs[k].depth, vs[k].isLast)
  {
    seq(|vs|, k requires 0 <= k < |vs| => Line(vs[k].item, vs[k].depth, vs[k].isLast))
  }

  lemma RenderAppend(a: seq<Visit>, b: seq<Visit>)
    ensures Render(a + b) == Render(a) + Render(b)
  {
  }

  /** The visits of nodes `i..` of a forest whose full length is `|tree|`. */
  function VisitsFrom(tree: seq<Node>, depth: nat, i: nat): seq<Visit>
    requires i <= |tree|
    decreases |tree| - i
  {
    if i == |tree| then []
    else
      [Visit(tree[i].item, depth, i == |tree| - 1)] + PreOrder(tree[i].children, depth + 1)
        + VisitsFrom(tree, depth, i + 1)
  }

  lemma {:induction false} VisitsFromSuffix(tree: seq<Node>, depth: nat, i: nat)
    requires i <= |tree|
    ensures VisitsFrom(tree, depth, i) == PreOrder(tree[i..], depth)
    decreases |tree| - i
  {
    if i < |tree| {
      VisitsFromSuffix(tree, depth, i + 1);
      assert tree[i..][1..] == tree[i + 1..];
    }
  }

  /** The lines of the first `i` nodes and the visits of the rest make up
      the whole forest. */
  lemma {:induction false} LinesSplit(tree: seq<Node>, depth: nat, i: nat)
    requires i <= |tree|
    ensures LinesUpTo(tree, depth, i) + Render(VisitsFrom(tree, depth, i))
      == Render(PreOrder(tree, depth))
    decreases tree, i, 1
  {
    if i == 0 {
      VisitsFromSuffix(tree, depth, 0);
      assert tree[0..] == tree;
    } else {
      var n := tree[i - 1];
      LinesSplit(tree, depth, i - 1);
      ChildLines(tree, depth, i);
      var v := Visit(n.item, depth, i - 1 == |tree| - 1);
      var rest := VisitsFrom(tree, depth, i);
      var before := LinesUpTo(tree, depth, i - 1);
      var own := [Line(n.item, depth, i - 1 == |tree| - 1)];
      var sub := LinesUpTo(n.children, depth + 1, |n.children|);
      assert LinesUpTo(tree, depth, i) == before + own + sub;
      RenderVisit(v, PreOrder(n.children, depth + 1), rest);
      assert Render(VisitsFrom(tree, depth, i - 1)) == own + sub + Render(rest);
      AppendAssoc(before, own + sub, Render(rest));
      AppendAssoc(before, own, sub);
    }
  }

  /** The lines of a visit, of its subtree and of what follows it. */
  lemma RenderVisit(v: Visit, below: seq<Visit>, rest: seq<Visit>)
    ensures Render([v] + below + rest)
      == [Line(v.item, v.depth, v.isLast)] + Render(below) + Render(rest)
  {
    RenderAppend([v] + below, rest);
    RenderAppend([v], below);
  }

  lemma {:induction false} ChildLines(tree: seq<Node>, depth: nat, i: nat)
    requires 0 < i <= |tree|
    ensures Lines(tree[i - 1].children, depth + 1) == Render(PreOrder(tree[i - 1].children, depth + 1))
    decreases tree, i, 0
  {
    LinesArePreOrder(tree[i - 1].children, depth + 1);
  }

  /** The text is one line per node, in depth-first order, each rendered at
      its depth with its own last-sibling flag. */
  lemma {:induction false} LinesArePreOrder(tree: seq<Node>, depth: nat)
    ensures Lines(tree, depth) == Render(PreOrder(tree, depth))
    decreases tree, |tree| + 1, 2
  {
    LinesSplit(tree, depth, |tree|);
  }

  /** There is one visit, and so one line, per node. */
  lemma {:induction false} PreOrderSize(tree: seq<Node>, depth: nat)
    ensures |PreOrder(tree, depth)| == Size(tree)
    decreases tree
  {
    if tree != [] {
      PreOrderSize(tree[0].children, depth + 1);
      PreOrderSize(tree[1..], depth);
    }
  }

  /** Every visit is at least as deep as the forest's own level, and the
      visits at that level are the forest's nodes, in order, with only the
      last one flagged as last. */
  lemma {:induction false} PreOrderTopLevel(tree: seq<Node>, depth: nat)
    ensures forall k :: 0 <= k < |PreOrder(tree, depth)| ==> PreOrder(tree, depth)[k].depth >= depth
    ensures Filter(PreOrder(tree, depth), (v: Visit) => v.depth == depth)
      == seq(|tree|, i requires 0 <= i < |tree| => Visit(tree[i].item, depth, i == |tree| - 1))
    decreases tree
  {
    if tree != [] {
      PreOrderTopLevel(tree[0].children, depth + 1);
      PreOrderTopLevel(tree[1..], depth);
      var head := [Visit(tree[0].item, depth, |tree| == 1)];
      var below := PreOrder(tree[0].children, depth + 1);
      var rest := PreOrder(tree[1..], depth);
      var p := (v: Visit) => v.depth == depth;
      FilterNone(below, p);
      FilterAppend(head + below, rest, p);
      FilterAppend(head, below, p);
    }
  }

  /** A line is `2 * depth` spaces, then no connector at the top level and
      a corner or a tee below it, then `"{type}: {title}"`; the parentheses
      appear exactly when there are extras. */
  lemma LineShape(x: Item, depth: nat, isLast: bool)
    ensures var line := Line(x, depth, isLast);
      var head := x.wtype + ": " + x.title;
      var c := Connector(depth, isLast);
      && line[..2 * depth] == Spaces(2 * depth)
      && (depth == 0 ==> c == "")
      && (depth > 0 && isLast ==> c == "\U{2514}\U{2500}\U{2500} ")
      && (depth > 0 && !isLast ==> c == "\U{251C}\U{2500}\U{2500} ")
      && line[2 * depth..][..|c|] == c
      && line[2 * depth + |c|..][..|head|] == head
      && (Extras(x) == [] <==> |line| == 2 * depth + |c| + |head|)
      && (Extras(x) != [] ==> line[|line| - 1] == ')')
  {
    var c := Connector(depth, isLast);
    var head := x.wtype + ": " + x.title;
    var line := Line(x, depth, isLast);
    assert line == Spaces(2 * depth) + c + Label(x);
    assert Label(x) == head + (if Extras(x) != [] then "  (" + Join(Extras(x), ", ") + ")" else "");
  }
}
