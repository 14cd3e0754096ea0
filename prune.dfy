/** `prune_to_subtree`: keep only the items reachable from a set of root
    ids by following parent links downwards. The root set is given as the
    list of its elements in iteration order (`list(root_ids)`). */
module Prune {
  import opened Common
  import opened WorkItems

  /** The ids of the items of `xs` attached under `p`, in item order (the
      entry `children_map[p]`). */
  function ChildIds(items: seq<Item>, xs: seq<Item>, p: int): seq<int> {
    if xs == [] then []
    else
      var last := xs[|xs| - 1];
      ChildIds(items, xs[..|xs| - 1], p) + (if LinksTo(items, last, p) then [last.id] else [])
  }

  /** The children listed are exactly the ids of the items attached under `p`. */
  lemma {:induction false} ChildIdsMembers(items: seq<Item>, xs: seq<Item>, p: int)
    ensures forall c :: c in ChildIds(items, xs, p) <==> exists x :: x in xs && x.id == c && LinksTo(items, x, p)
  {
    if xs != [] {
      ChildIdsMembers(items, xs[..|xs| - 1], p);
      assert xs == xs[..|xs| - 1] + [xs[|xs| - 1]];
    }
  }

  /** The children of `p` among all the items. */
  function Children(items: seq<Item>, p: int): seq<int> {
    ChildIds(items, items, p)
  }

  /** The map from a parent id to the ids of its children, built in one
      pass over the items; a parent without children has no entry. */
  method ChildrenMap(items: seq<Item>) returns (cm: map<int, seq<int>>)
    ensures forall p :: p in cm ==> cm[p] == Children(items, p)
    ensures forall p :: p !in cm ==> Children(items, p) == []
  {
    cm := map[];
    var i := 0;
    while i < |items|
      invariant 0 <= i <= |items|
      invariant forall p :: p in cm ==> cm[p] == ChildIds(items, items[..i], p)
      invariant forall p :: p !in cm ==> ChildIds(items, items[..i], p) == []
    {
      var x := items[i];
      assert items[..i + 1] == items[..i] + [x];
      assert items[..i + 1][..i] == items[..i];
      if x.parentId.Some? && x.parentId.value != 0 && x.parentId.value in Ids(items) {
        var pid := x.parentId.value;
        var prev := if pid in cm then cm[pid] else [];
        cm := cm[pid := prev + [x.id]];
      }
      i := i + 1;
    }
    assert items[..|items|] == items;
  }

  /** A path of ids from a root downwards, each the child of the one before. */
  ghost predicate IsChain(items: seq<Item>, roots: seq<int>, c: seq<int>) {
    && |c| > 0
    && c[0] in roots
    && forall k :: 0 <= k < |c| - 1 ==> c[k + 1] in Children(items, c[k])
  }

  /** `id` is a root or a descendant of one. */
  ghost predicate Reachable(items: seq<Item>, roots: seq<int>, id: int) {
    exists c :: IsChain(items, roots, c) && c[|c| - 1] == id
  }

  /** What `prune_to_subtree` returns: the reachable items, in item order. */
  ghost function Pruned(items: seq<Item>, roots: seq<int>): seq<Item> {
    Filter(items, (x: Item) => Reachable(items, roots, x.id))
  }

  lemma RootReachable(items: seq<Item>, roots: seq<int>, r: int)
    requires r in roots
    ensures Reachable(items, roots, r)
  {
    assert IsChain(items, roots, [r]);
  }

  lemma ReachStep(items: seq<Item>, roots: seq<int>, p: int, c: int)
    requires Reachable(items, roots, p)
    requires c in Children(items, p)
    ensures Reachable(items, roots, c)
  {
    var ch :| IsChain(items, roots, ch) && ch[|ch| - 1] == p;
    var ch' := ch + [c];
    assert IsChain(items, roots, ch');
  }

  /** Every id on a chain is in a set that holds the roots and is closed
      under children. */
  lemma {:induction false} ChainInClosed(items: seq<Item>, roots: seq<int>, keep: set<int>, c: seq<int>)
    requires IsChain(items, roots, c)
    requires forall k :: k in roots ==> k in keep
    requires ClosedUpTo(items, keep, [])
    ensures c[|c| - 1] in keep
    decreases |c|
  {
    if |c| == 1 {
      assert c[0] in roots;
      assert c[|c| - 1] == c[0];
    } else {
      var c' := c[..|c| - 1];
      assert IsChain(items, roots, c');
      ChainInClosed(items, roots, keep, c');
      var k := c'[|c'| - 1];
      assert c[|c| - 1] in Children(items, k);
      ClosedMember(items, keep, k, c[|c| - 1]);
    }
  }

  lemma ClosedMember(items: seq<Item>, keep: set<int>, k: int, x: int)
    requires ClosedUpTo(items, keep, [])
    requires k in keep && x in Children(items, k)
    ensures x in keep
  {
    var empty: seq<int> := [];
    assert x !in empty;
  }

  /** The work-queue walk of `prune_to_subtree` (the `keep` set): an id
      is expanded at most once, and the ids kept are exactly the reachable
      ones. */
  method KeepReachable(items: seq<Item>, roots: seq<int>) returns (keep: set<int>)
    ensures forall k :: k in keep <==> Reachable(items, roots, k)
  {
    var cm := ChildrenMap(items);
    keep := {};
    var queue := roots;
    ghost var all := (set q | q in roots :: q) + Ids(items);
    forall q | q in queue
      ensures Reachable(items, roots, q)
    {
      RootReachable(items, roots, q);
    }
    while queue != []
      invariant keep <= all && forall q :: q in queue ==> q in all
      invariant forall k :: k in keep ==> Reachable(items, roots, k)
      invariant forall q :: q in queue ==> Reachable(items, roots, q)
      invariant forall k :: k in roots ==> k in keep || k in queue
      invariant ClosedUpTo(items, keep, queue)
      decreases |all - keep|, |queue|
    {
      var current := queue[0];
      var rest := queue[1..];
      assert queue == [current] + rest;
      if current in keep {
        ClosureSkip(items, keep, current, rest);
        queue := rest;
        continue;
      }
      var kids := if current in cm then cm[current] else [];
      ClosureStep(items, keep, current, rest, kids);
      KidsReachable(items, roots, current, kids);
      keep := keep + {current};
      queue := rest + kids;
    }
    assert queue == [];
    ClosedContainsReachable(items, roots, keep);
  }

  /** Every child of a kept id is kept or still waiting in the queue. */
  predicate ClosedUpTo(items: seq<Item>, keep: set<int>, queue: seq<int>) {
    forall k, c :: k in keep && c in Children(items, k) ==> c in keep || c in queue
  }

  /** Dropping an id that is already kept keeps the closure property. */
  lemma ClosureSkip(items: seq<Item>, keep: set<int>, current: int, rest: seq<int>)
    requires ClosedUpTo(items, keep, [current] + rest)
    requires current in keep
    ensures ClosedUpTo(items, keep, rest)
  {
  }

  /** Expanding `current` keeps the closure property. */
  lemma ClosureStep(items: seq<Item>, keep: set<int>, current: int, rest: seq<int>, kids: seq<int>)
    requires ClosedUpTo(items, keep, [current] + rest)
    requires kids == Children(items, current)
    ensures ClosedUpTo(items, keep + {current}, rest + kids)
  {
    forall k, c | k in keep + {current} && c in Children(items, k)
      ensures c in keep + {current} || c in rest + kids
    {
      if k != current {
        assert c in keep || c in [current] + rest;
      }
    }
  }

  /** The children of a reachable id are reachable items. */
  lemma KidsReachable(items: seq<Item>, roots: seq<int>, current: int, kids: seq<int>)
    requires Reachable(items, roots, current)
    requires kids == Children(items, current)
    ensures forall c :: c in kids ==> Reachable(items, roots, c) && c in Ids(items)
  {
    ChildIdsMembers(items, items, current);
    forall c | c in kids
      ensures Reachable(items, roots, c) && c in Ids(items)
    {
      ReachStep(items, roots, current, c);
    }
  }

  /** A set holding the roots and closed under children holds every
      reachable id. */
  lemma ClosedContainsReachable(items: seq<Item>, roots: seq<int>, keep: set<int>)
    requires forall k :: k in roots ==> k in keep
    requires ClosedUpTo(items, keep, [])
    ensures forall k :: Reachable(items, roots, k) ==> k in keep
  {
    forall k | Reachable(items, roots, k)
      ensures k in keep
    {
      var ch :| IsChain(items, roots, ch) && ch[|ch| - 1] == k;
      ChainInClosed(items, roots, keep, ch);
    }
  }

  /** `prune_to_subtree`: the items whose id the walk kept, in item order. */
  method PruneToSubtree(items: seq<Item>, roots: seq<int>) returns (r: seq<Item>)
    ensures r == Pruned(items, roots)
  {
    var keep := KeepReachable(items, roots);
    r := Filter(items, (x: Item) => x.id in keep);
    FilterCongruent(items, (x: Item) => x.id in keep, (x: Item) => Reachable(items, roots, x.id));
  }

  /** The result keeps values: every kept item is one of the items. */
  lemma PrunedSubset(items: seq<Item>, roots: seq<int>)
    ensures multiset(Pruned(items, roots)) <= multiset(items)
    ensures forall x :: x in Pruned(items, roots) <==> x in items && Reachable(items, roots, x.id)
  {
    FilterMultiset(items, (x: Item) => Reachable(items, roots, x.id));
    FilterMembers(items, (x: Item) => Reachable(items, roots, x.id));
  }

  /** A root that is one of the items is kept. */
  lemma PrunedKeepsRoots(items: seq<Item>, roots: seq<int>, x: Item)
    requires x in items && x.id in roots
    ensures x in Pruned(items, roots)
  {
    RootReachable(items, roots, x.id);
    PrunedSubset(items, roots);
  }

  /** The result is closed under children: the child of a kept item is kept. */
  lemma PrunedClosed(items: seq<Item>, roots: seq<int>, x: Item, y: Item)
    requires x in Pruned(items, roots)
    requires y in items && LinksTo(items, y, x.id)
    ensures y in Pruned(items, roots)
  {
    PrunedSubset(items, roots);
    ChildIdsMembers(items, items, x.id);
    assert y.id in Children(items, x.id);
    ReachStep(items, roots, x.id, y.id);
  }

  /** An item that is neither a root nor below one is dropped. */
  lemma PrunedDropsUnreachable(items: seq<Item>, roots: seq<int>, x: Item)
    requires !Reachable(items, roots, x.id)
    ensures x !in Pruned(items, roots)
  {
    PrunedSubset(items, roots);
  }
}
