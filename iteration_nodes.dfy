/** `_flatten_iteration_nodes`: the iteration classification tree returned
    by the service, flattened into one record per iteration in pre-order.
    A node without a path inherits the path of its parent. */
module IterationNodes {
  import opened Common

  /** The `attributes` object of a node. */
  datatype Dates = Dates(startDate: Option<string>, finishDate: Option<string>)

  /** A classification node as the service returns it; every key may be
      missing. A missing `children` key is an empty list. */
  datatype IterNode = IterNode(
    id: Option<int>,
    identifier: Option<string>,
    name: Option<string>,
    path: Option<string>,
    attributes: Option<Dates>,
    children: seq<IterNode>)

  /** One flattened iteration. */
  datatype FlatIteration = FlatIteration(
    id: Option<int>,
    identifier: string,
    name: string,
    path: string,
    startDate: Option<string>,
    finishDate: Option<string>)

  /** `node.get("path", prefix)` */
  function PathOf(n: IterNode, prefix: string): string {
    n.path.GetOr(prefix)
  }

  /** The record of the node itself: missing text keys read as "", a
      missing path as the inherited one, missing dates as absent. */
  function RecordOf(n: IterNode, prefix: string): FlatIteration {
    var attrs := n.attributes.GetOr(Dates(None, None));
    FlatIteration(n.id, n.identifier.GetOr(""), n.name.GetOr(""), PathOf(n, prefix),
                  attrs.startDate, attrs.finishDate)
  }

  /** The records of a node and its descendants, in pre-order. */
  function Flatten(n: IterNode, prefix: string): seq<FlatIteration>
    decreases n, 0
  {
    [RecordOf(n, prefix)] + FlattenUpTo(n.children, PathOf(n, prefix), |n.children|)
  }

  /** The records of the first `i` nodes of `ns`, each flattened under
      `prefix`, one after the other. */
  function FlattenUpTo(ns: seq<IterNode>, prefix: string, i: nat): seq<FlatIteration>
    requires i <= |ns|
    decreases ns, i
  {
    if i == 0 then [] else FlattenUpTo(ns, prefix, i - 1) + Flatten(ns[i - 1], prefix)
  }

  /** The number of nodes in a tree. */
  function Size(n: IterNode): nat
    decreases n, 0
  {
    1 + SizeUpTo(n.children, |n.children|)
  }

  function SizeUpTo(ns: seq<IterNode>, i: nat): nat
    requires i <= |ns|
    decreases ns, i
  {
    if i == 0 then 0 else SizeUpTo(ns, i - 1) + Size(ns[i - 1])
  }

  /** No node of the tree carries its own path. */
  predicate NoPaths(n: IterNode)
    decreases n, 0
  {
    n.path.None? && NoPathsUpTo(n.children, |n.children|)
  }

  predicate NoPathsUpTo(ns: seq<IterNode>, i: nat)
    requires i <= |ns|
    decreases ns, i
  {
    i == 0 || (NoPathsUpTo(ns, i - 1) && NoPaths(ns[i - 1]))
  }

  /** `_flatten_iteration_nodes(node, prefix)` */
  method FlattenIterationNodes(node: IterNode, prefix: string) returns (results: seq<FlatIteration>)
    ensures results == Flatten(node, prefix)
    decreases node
  {
    var path := PathOf(node, prefix);
    results := [RecordOf(node, prefix)];
    var i := 0;
    while i < |node.children|
      invariant 0 <= i <= |node.children|
      invariant results == [RecordOf(node, prefix)] + FlattenUpTo(node.children, path, i)
    {
      var sub := FlattenIterationNodes(node.children[i], path);
      results := results + sub;
      i := i + 1;
    }
  }

  /** The remote branch of `get_iterations`: every child of the root,
      flattened with an empty prefix. */
  method FlattenRoot(root: IterNode) returns (results: seq<FlatIteration>)
    ensures results == FlattenUpTo(root.children, "", |root.children|)
  {
    results := [];
    var i := 0;
    while i < |root.children|
      invariant 0 <= i <= |root.children|
      invariant results == FlattenUpTo(root.children, "", i)
    {
      var sub := FlattenIterationNodes(root.children[i], "");
      results := results + sub;
      i := i + 1;
    }
  }

  // ---------------------------------------------------------------------
  // What the flattening keeps
  // ---------------------------------------------------------------------

  /** One record per node: nothing is dropped or duplicated. */
  lemma {:induction false} FlattenSize(n: IterNode, prefix: string)
    ensures |Flatten(n, prefix)| == Size(n)
    decreases n, 0
  {
    FlattenUpToSize(n.children, PathOf(n, prefix), |n.children|);
  }

  lemma {:induction false} FlattenUpToSize(ns: seq<IterNode>, prefix: string, i: nat)
    requires i <= |ns|
    ensures |FlattenUpTo(ns, prefix, i)| == SizeUpTo(ns, i)
    decreases ns, i
  {
    if i > 0 {
      FlattenUpToSize(ns, prefix, i - 1);
      FlattenSize(ns[i - 1], prefix);
    }
  }

  /** In a tree where no node carries a path, every record gets the
      prefix it was flattened under. */
  lemma {:induction false} InheritedPath(n: IterNode, prefix: string)
    requires NoPaths(n)
    ensures forall r :: r in Flatten(n, prefix) ==> r.path == prefix
    decreases n, 0
  {
    InheritedPathUpTo(n.children, prefix, |n.children|);
  }

  lemma {:induction false} InheritedPathUpTo(ns: seq<IterNode>, prefix: string, i: nat)
    requires i <= |ns| && NoPathsUpTo(ns, i)
    ensures forall r :: r in FlattenUpTo(ns, prefix, i) ==> r.path == prefix
    decreases ns, i
  {
    if i > 0 {
      InheritedPathUpTo(ns, prefix, i - 1);
      InheritedPath(ns[i - 1], prefix);
    }
  }

  /** The first record is the node's own; the rest are its children's,
      flattened under the node's path, so a node that carries a path
      flattens the same under any prefix. */
  lemma FlattenHead(n: IterNode, prefix: string, other: string)
    ensures Flatten(n, prefix)[0].id == n.id && Flatten(n, prefix)[0].path == n.path.GetOr(prefix)
    ensures n.attributes.None? ==> Flatten(n, prefix)[0].startDate.None? && Flatten(n, prefix)[0].finishDate.None?
    ensures n.path.Some? ==> Flatten(n, prefix) == Flatten(n, other)
  {
  }
}
