/** `build_tree`: the flat item dict turned into a forest. Items whose
    parent is one of the items hang under it; the others are roots; every
    sibling list is ordered by (type rank, title). */
module TreeBuild {
  import opened Common
  import opened WorkItems
  import Sorting

  /** A tree node: a copy of the item and its children, in order. An empty
      child list stands for a node without the `children` key. */
  datatype Node = Node(item: Item, children: seq<Node>)

  /** The items of a list of nodes. */
  function ItemsOf(ns: seq<Node>): (r: seq<Item>)
    ensures |r| == |ns| && forall i :: 0 <= i < |ns| ==> r[i] == ns[i].item
  {
    seq(|ns|, i requires 0 <= i < |ns| => ns[i].item)
  }

  // ---------------------------------------------------------------------
  // Roots and children
  // ---------------------------------------------------------------------

  /** The items without a parent among the items, in item order. */
  function RootItems(items: seq<Item>): seq<Item> {
    Filter(items, (x: Item) => !ParentIn(items, x))
  }

  /** The items attached under `p`, in item order. */
  function ChildItems(items: seq<Item>, p: int): seq<Item> {
    Filter(items, (x: Item) => LinksTo(items, x, p))
  }

  /** `cm` is the children map of the items. */
  ghost predicate IsChildrenMap(items: seq<Item>, cm: map<int, seq<Item>>) {
    forall p :: (p in cm ==> cm[p] == ChildItems(items, p)) && (p !in cm ==> ChildItems(items, p) == [])
  }

  /** The first pass of `build_tree`: each item either goes to the list of
      its parent or to the roots. */
  method Partition(items: seq<Item>) returns (cm: map<int, seq<Item>>, roots: seq<Item>)
    ensures IsChildrenMap(items, cm)
    ensures roots == RootItems(items)
  {
    cm := map[];
    roots := [];
    var i := 0;
    while i < |items|
      invariant 0 <= i <= |items|
      invariant roots == Filter(items[..i], (x: Item) => !ParentIn(items, x))
      invariant forall p :: p in cm ==> cm[p] == Filter(items[..i], (x: Item) => LinksTo(items, x, p))
      invariant forall p :: p !in cm ==> Filter(items[..i], (x: Item) => LinksTo(items, x, p)) == []
    {
      var x := items[i];
      assert items[..i + 1][..i] == items[..i];
      if x.parentId.Some? && x.parentId.value != 0 && x.parentId.value in Ids(items) {
        var pid := x.parentId.value;
        var prev := if pid in cm then cm[pid] else [];
        cm := cm[pid := prev + [x]];
      } else {
        roots := roots + [x];
      }
      i := i + 1;
    }
    assert items[..|items|] == items;
  }

  // ---------------------------------------------------------------------
  // The stable sort by (type rank, title)
  // ---------------------------------------------------------------------

  /** `sorted(xs, key=sort_key)`: stable, by (type rank, title). */
  function SortByKey(xs: seq<Item>): seq<Item> {
    Sorting.SortBy(xs, KeyLe)
  }

  /** The sort orders by key, only permutes, and keeps exactly the input's
      elements. */
  lemma SortByKeySorted(xs: seq<Item>)
    ensures Sorting.SortedBy(SortByKey(xs), KeyLe)
    ensures multiset(SortByKey(xs)) == multiset(xs)
    ensures forall y :: y in SortByKey(xs) <==> y in xs
  {
    KeyLePreorder();
    Sorting.SortBySorted(xs, KeyLe);
    Sorting.SortByMembers(xs, KeyLe);
  }

  // ---------------------------------------------------------------------
  // Nodes
  // ---------------------------------------------------------------------

  /** `build_node(x)`: a copy of the item with its sorted children built
      recursively. `seen` holds the ids already on the way down from the
      root; a child whose id is among them (which needs two items sharing
      an id) is not descended into, so the recursion always ends. */
  function BuildNode(items: seq<Item>, cm: map<int, seq<Item>>, x: Item, seen: set<int>): (n: Node)
    requires IsChildrenMap(items, cm)
    requires x in items && x.id !in seen
    ensures n.item == x
    decreases |Ids(items) - seen|
  {
    var seen' := seen + {x.id};
    var kids := Filter(SortByKey(if x.id in cm then cm[x.id] else []), (c: Item) => c.id !in seen');
    SubsetCard(Ids(items), seen, x.id);
    FilterMembers(SortByKey(if x.id in cm then cm[x.id] else []), (c: Item) => c.id !in seen');
    ChildItemsIn(items, x.id);
    Node(x, seq(|kids|, i requires 0 <= i < |kids| => BuildNode(items, cm, kids[i], seen')))
  }

  lemma SubsetCard(all: set<int>, seen: set<int>, x: int)
    requires x in all && x !in seen
    ensures |all - (seen + {x})| < |all - seen|
  {
    assert all - seen == (all - (seen + {x})) + {x};
  }

  /** The children of an id are items and link to it. */
  lemma ChildItemsIn(items: seq<Item>, p: int)
    ensures forall c :: c in ChildItems(items, p) <==> c in items && LinksTo(items, c, p)
    ensures forall c :: c in SortByKey(ChildItems(items, p)) <==> c in ChildItems(items, p)
  {
    FilterMembers(items, (x: Item) => LinksTo(items, x, p));
    SortByKeySorted(ChildItems(items, p));
  }

  /** Two children maps of the same items give the same nodes. */
  lemma {:induction false} BuildNodeAnyMap(items: seq<Item>, cm1: map<int, seq<Item>>, cm2: map<int, seq<Item>>, x: Item, seen: set<int>)
    requires IsChildrenMap(items, cm1) && IsChildrenMap(items, cm2)
    requires x in items && x.id !in seen
    ensures BuildNode(items, cm1, x, seen) == BuildNode(items, cm2, x, seen)
    decreases |Ids(items) - seen|
  {
    var seen' := seen + {x.id};
    var l1 := if x.id in cm1 then cm1[x.id] else [];
    var l2 := if x.id in cm2 then cm2[x.id] else [];
    assert l1 == l2;
    var kids := Filter(SortByKey(l1), (c: Item) => c.id !in seen');
    SubsetCard(Ids(items), seen, x.id);
    FilterMembers(SortByKey(l1), (c: Item) => c.id !in seen');
    ChildItemsIn(items, x.id);
    var n1 := BuildNode(items, cm1, x, seen);
    var n2 := BuildNode(items, cm2, x, seen);
    assert |n1.children| == |kids| == |n2.children|;
    forall i | 0 <= i < |kids|
      ensures n1.children[i] == n2.children[i]
    {
      BuildNodeAnyMap(items, cm1, cm2, kids[i], seen');
    }
  }

  /** `build_tree(items)`: the roots, sorted, each built into a node. */
  method BuildTree(items: seq<Item>) returns (tree: seq<Node>)
    ensures ItemsOf(tree) == SortByKey(RootItems(items))
    ensures forall cm, i :: IsChildrenMap(items, cm) && 0 <= i < |tree| ==>
      tree[i].item in items && tree[i] == BuildNode(items, cm, tree[i].item, {})
  {
    var cm, roots := Partition(items);
    roots := SortByKey(roots);
    SortByKeySorted(RootItems(items));
    FilterMembers(items, (x: Item) => !ParentIn(items, x));
    tree := seq(|roots|, i requires 0 <= i < |roots| => BuildNode(items, cm, roots[i], {}));
    forall cm', i | IsChildrenMap(items, cm') && 0 <= i < |tree|
      ensures tree[i].item in items && tree[i] == BuildNode(items, cm', tree[i].item, {})
    {
      BuildNodeAnyMap(items, cm, cm', roots[i], {});
    }
  }

  // ---------------------------------------------------------------------
  // Properties of the tree
  // ---------------------------------------------------------------------

  /** The top level holds exactly the items without a parent among the
      items, sorted by (type rank, title). */
  lemma RootsExact(items: seq<Item>)
    ensures Sorting.SortedBy(SortByKey(RootItems(items)), KeyLe)
    ensures forall x :: x in SortByKey(RootItems(items)) <==> x in items && !ParentIn(items, x)
  {
    SortByKeySorted(RootItems(items));
    FilterMembers(items, (x: Item) => !ParentIn(items, x));
  }

  /** Every sibling list below the node is sorted by (type rank, title). */
  predicate SiblingsSorted(n: Node) {
    && Sorting.SortedBy(ItemsOf(n.children), KeyLe)
    && forall i :: 0 <= i < |n.children| ==> SiblingsSorted(n.children[i])
  }

  /** Every child below the node is an item attached under its parent's id. */
  predicate Attached(items: seq<Item>, n: Node) {
    forall i :: 0 <= i < |n.children| ==>
      && n.children[i].item in items
      && LinksTo(items, n.children[i].item, n.item.id)
      && Attached(items, n.children[i])
  }

  /** The children of the node built for `x`, as items: its sorted children
      minus those whose id is in `seen` or is `x`'s own. */
  lemma BuildNodeChildren(items: seq<Item>, cm: map<int, seq<Item>>, x: Item, seen: set<int>)
    requires IsChildrenMap(items, cm)
    requires x in items && x.id !in seen
    ensures ItemsOf(BuildNode(items, cm, x, seen).children)
      == Filter(SortByKey(ChildItems(items, x.id)), (c: Item) => c.id !in seen + {x.id})
  {
    var seen' := seen + {x.id};
    var listed := if x.id in cm then cm[x.id] else [];
    assert listed == ChildItems(items, x.id);
    var kids := Filter(SortByKey(listed), (c: Item) => c.id !in seen');
    SubsetCard(Ids(items), seen, x.id);
    FilterMembers(SortByKey(listed), (c: Item) => c.id !in seen');
    ChildItemsIn(items, x.id);
    var n := BuildNode(items, cm, x, seen);
    assert |n.children| == |kids|;
    forall i | 0 <= i < |kids|
      ensures ItemsOf(n.children)[i] == kids[i]
    {
      assert n.children[i] == BuildNode(items, cm, kids[i], seen');
    }
  }

  /** Sibling lists are sorted and every child hangs under its parent. */
  lemma {:induction false} BuildNodeShape(items: seq<Item>, cm: map<int, seq<Item>>, x: Item, seen: set<int>)
    requires IsChildrenMap(items, cm)
    requires x in items && x.id !in seen
    ensures SiblingsSorted(BuildNode(items, cm, x, seen))
    ensures Attached(items, BuildNode(items, cm, x, seen))
    decreases |Ids(items) - seen|
  {
    var n := BuildNode(items, cm, x, seen);
    var seen' := seen + {x.id};
    var sorted := SortByKey(ChildItems(items, x.id));
    var kids := Filter(sorted, (c: Item) => c.id !in seen');
    BuildNodeChildren(items, cm, x, seen);
    SortByKeySorted(ChildItems(items, x.id));
    Sorting.FilterSortedBy(sorted, (c: Item) => c.id !in seen', KeyLe);
    FilterMembers(sorted, (c: Item) => c.id !in seen');
    ChildItemsIn(items, x.id);
    SubsetCard(Ids(items), seen, x.id);
    forall i | 0 <= i < |n.children|
      ensures SiblingsSorted(n.children[i]) && Attached(items, n.children[i])
      ensures n.children[i].item in items && LinksTo(items, n.children[i].item, x.id)
    {
      assert n.children[i].item == kids[i] && kids[i] in kids;
      BuildNodeShape(items, cm, kids[i], seen');
    }
  }

  /** The whole forest: roots sorted, siblings sorted, children attached. */
  lemma BuildTreeShape(items: seq<Item>, tree: seq<Node>)
    requires ItemsOf(tree) == SortByKey(RootItems(items))
    requires forall cm, i :: IsChildrenMap(items, cm) && 0 <= i < |tree| ==>
      tree[i].item in items && tree[i] == BuildNode(items, cm, tree[i].item, {})
    ensures Sorting.SortedBy(ItemsOf(tree), KeyLe)
    ensures forall i :: 0 <= i < |tree| ==> !ParentIn(items, tree[i].item)
    ensures forall i :: 0 <= i < |tree| ==> SiblingsSorted(tree[i]) && Attached(items, tree[i])
  {
    RootsExact(items);
    var cm := ChildrenMapOf(items);
    forall i | 0 <= i < |tree|
      ensures !ParentIn(items, tree[i].item)
      ensures SiblingsSorted(tree[i]) && Attached(items, tree[i])
    {
      assert tree[i].item == ItemsOf(tree)[i];
      BuildNodeShape(items, cm, tree[i].item, {});
    }
  }

  // ---------------------------------------------------------------------
  // With distinct ids nothing is cut off
  // ---------------------------------------------------------------------

  /** Every node's children are exactly the items attached under it, sorted
      by (type rank, title). */
  predicate Complete(items: seq<Item>, n: Node) {
    && ItemsOf(n.children) == SortByKey(ChildItems(items, n.item.id))
    && forall i :: 0 <= i < |n.children| ==> Complete(items, n.children[i])
  }

  /** A way down from a root: each item after the first hangs under the one
      before it, and no id repeats. */
  predicate IsPath(items: seq<Item>, path: seq<Item>) {
    && |path| > 0
    && (forall k :: 0 <= k < |path| ==> path[k] in items)
    && !ParentIn(items, path[0])
    && (forall k :: 0 < k < |path| ==> LinksTo(items, path[k], path[k - 1].id))
    && (forall k, l :: 0 <= k < l < |path| ==> path[k].id != path[l].id)
  }

  /** The ids above the last item of a path. */
  function Above(path: seq<Item>): set<int>
    requires |path| > 0
  {
    set k | 0 <= k < |path| - 1 :: path[k].id
  }

  /** With distinct ids two different items never share an id. */
  lemma IdsInjective(items: seq<Item>, a: Item, b: Item)
    requires DistinctIds(items) && a in items && b in items && a != b
    ensures a.id != b.id
  {
    var i :| 0 <= i < |items| && items[i] == a;
    var j :| 0 <= j < |items| && items[j] == b;
    assert i != j;
  }

  /** A child of the last item of a path is not already on the path. */
  lemma ChildOffPath(items: seq<Item>, path: seq<Item>, c: Item)
    requires DistinctIds(items) && IsPath(items, path)
    requires c in items && LinksTo(items, c, path[|path| - 1].id)
    ensures forall k :: 0 <= k < |path| ==> c.id != path[k].id
  {
    forall k | 0 <= k < |path|
      ensures c.id != path[k].id
    {
      if k == 0 {
        assert c != path[0];
      } else {
        assert path[k - 1].id != path[|path| - 1].id;
        assert c != path[k];
      }
      IdsInjective(items, c, path[k]);
    }
  }

  /** Extending a path by a child of its last item gives a path. */
  lemma ExtendPath(items: seq<Item>, path: seq<Item>, c: Item)
    requires DistinctIds(items) && IsPath(items, path)
    requires c in items && LinksTo(items, c, path[|path| - 1].id)
    ensures IsPath(items, path + [c])
    ensures Above(path + [c]) == Above(path) + {path[|path| - 1].id}
  {
    ChildOffPath(items, path, c);
    var q := path + [c];
    assert forall k :: 0 <= k < |path| ==> q[k] == path[k];
  }

  /** No child of the last item of a path is cut off by the `seen` guard. */
  lemma ChildrenKept(items: seq<Item>, path: seq<Item>)
    requires DistinctIds(items) && IsPath(items, path)
    ensures path[|path| - 1].id !in Above(path)
    ensures var x := path[|path| - 1];
      Filter(SortByKey(ChildItems(items, x.id)), (c: Item) => c.id !in Above(path) + {x.id})
        == SortByKey(ChildItems(items, x.id))
  {
    var x := path[|path| - 1];
    var seen' := Above(path) + {x.id};
    var sorted := SortByKey(ChildItems(items, x.id));
    ChildItemsIn(items, x.id);
    forall c | c in sorted
      ensures c.id !in seen'
    {
      ChildOffPath(items, path, c);
    }
    FilterAll(sorted, (c: Item) => c.id !in seen');
  }

  /** Each child of a built node is the node built for its item, one id
      further down. */
  lemma BuildNodeKids(items: seq<Item>, cm: map<int, seq<Item>>, x: Item, seen: set<int>)
    requires IsChildrenMap(items, cm)
    requires x in items && x.id !in seen
    ensures var n := BuildNode(items, cm, x, seen);
      forall i :: 0 <= i < |n.children| ==>
        && n.children[i].item in items
        && n.children[i].item.id !in seen + {x.id}
        && n.children[i] == BuildNode(items, cm, n.children[i].item, seen + {x.id})
  {
    var seen' := seen + {x.id};
    var listed := if x.id in cm then cm[x.id] else [];
    var kids := Filter(SortByKey(listed), (c: Item) => c.id !in seen');
    SubsetCard(Ids(items), seen, x.id);
    FilterMembers(SortByKey(listed), (c: Item) => c.id !in seen');
    ChildItemsIn(items, x.id);
    var n := BuildNode(items, cm, x, seen);
    forall i | 0 <= i < |n.children|
      ensures n.children[i] == BuildNode(items, cm, kids[i], seen')
      ensures kids[i] in kids
    {
    }
  }

  /** Built from the end of a path, with the ids above it as `seen`, a node
      keeps every child. */
  lemma {:induction false} BuildNodeComplete(items: seq<Item>, cm: map<int, seq<Item>>, path: seq<Item>)
    requires IsChildrenMap(items, cm) && DistinctIds(items) && IsPath(items, path)
    ensures path[|path| - 1].id !in Above(path)
    ensures Complete(items, BuildNode(items, cm, path[|path| - 1], Above(path)))
    decreases |Ids(items) - Above(path)|
  {
    var x := path[|path| - 1];
    var seen := Above(path);
    ChildrenKept(items, path);
    BuildNodeChildren(items, cm, x, seen);
    BuildNodeKids(items, cm, x, seen);
    SubsetCard(Ids(items), seen, x.id);
    var n := BuildNode(items, cm, x, seen);
    forall i | 0 <= i < |n.children|
      ensures Complete(items, n.children[i])
    {
      var c := n.children[i].item;
      assert c in ChildItems(items, x.id) by {
        assert c == ItemsOf(n.children)[i];
        ChildItemsIn(items, x.id);
      }
      FilterMembers(items, (y: Item) => LinksTo(items, y, x.id));
      ExtendPath(items, path, c);
      BuildNodeComplete(items, cm, path + [c]);
    }
  }

  /** With distinct ids, every node of the forest keeps all the items
      attached under it. */
  lemma BuildTreeComplete(items: seq<Item>, tree: seq<Node>)
    requires DistinctIds(items)
    requires ItemsOf(tree) == SortByKey(RootItems(items))
    requires forall cm, i :: IsChildrenMap(items, cm) && 0 <= i < |tree| ==>
      tree[i].item in items && tree[i] == BuildNode(items, cm, tree[i].item, {})
    ensures forall i :: 0 <= i < |tree| ==> Complete(items, tree[i])
  {
    RootsExact(items);
    var cm := ChildrenMapOf(items);
    forall i | 0 <= i < |tree|
      ensures Complete(items, tree[i])
    {
      var r := tree[i].item;
      assert r == ItemsOf(tree)[i];
      assert Above([r]) == {};
      BuildNodeComplete(items, cm, [r]);
    }
  }

  /** A children map exists for any list of items. */
  function ChildrenMapOf(items: seq<Item>): (cm: map<int, seq<Item>>)
    ensures IsChildrenMap(items, cm)
  {
    var cm := map p | p in Ids(items) :: ChildItems(items, p);
    assert forall p :: p !in Ids(items) ==> ChildItems(items, p) == [] by {
      forall p | p !in Ids(items)
        ensures ChildItems(items, p) == []
      {
        NoChildItems(items, p);
      }
    }
    cm
  }

  lemma NoChildItems(items: seq<Item>, p: int)
    requires p !in Ids(items)
    ensures ChildItems(items, p) == []
  {
    FilterNone(items, (x: Item) => LinksTo(items, x, p));
  }
}
