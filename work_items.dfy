/** The normalised work-item record the hierarchy service works on, read
    from the API field names, and the sibling order used when a tree is
    built (type rank, then title). */
module WorkItems {
  import opened Common
  import Models
  import Sorting

  /** One normalised item: the values read from the API field map, with ""
      for a missing text field and None for a missing number or parent. */
  datatype Item = Item(
    id: int,
    wtype: string,
    title: string,
    state: string,
    description: string,
    parentId: Option<int>,
    iterationPath: string,
    acceptanceCriteria: string,
    storyPoints: Option<int>,
    estimate: Option<int>)

  /** `f.get(key, "")` for a text field. */
  function TextField(f: Fields, key: string): (r: string)
    ensures key !in f ==> r == ""
    ensures key in f && f[key].Str? ==> r == f[key].s
  {
    match Get(f, key, Str(""))
    case Str(s) => s
    case _ => ""
  }

  /** `f.get(key)` for a number field. */
  function NumField(f: Fields, key: string): (r: Option<int>)
    ensures key !in f ==> r == None
    ensures key in f && f[key].Int? ==> r == Some(f[key].i)
  {
    match Get(f, key, Null)
    case Int(n) => Some(n)
    case _ => None
  }

  /** The record built for the work item `id` from its API field map. */
  function Normalise(id: int, f: Fields): (r: Item)
    ensures r.id == id
    ensures r.title == TextField(f, "System.Title") && r.wtype == TextField(f, "System.WorkItemType")
    ensures r.parentId == NumField(f, "System.Parent")
    ensures r.storyPoints == NumField(f, "Microsoft.VSTS.Scheduling.StoryPoints")
    ensures r.estimate == NumField(f, "Microsoft.VSTS.Scheduling.Effort")
  {
    Item(
      id,
      TextField(f, "System.WorkItemType"),
      TextField(f, "System.Title"),
      TextField(f, "System.State"),
      TextField(f, "System.Description"),
      NumField(f, "System.Parent"),
      TextField(f, "System.IterationPath"),
      TextField(f, "Microsoft.VSTS.Common.AcceptanceCriteria"),
      NumField(f, "Microsoft.VSTS.Scheduling.StoryPoints"),
      NumField(f, "Microsoft.VSTS.Scheduling.Effort"))
  }

  // ---------------------------------------------------------------------
  // The item dict
  // ---------------------------------------------------------------------

  /** The ids of the items: the keys of the item dict. */
  function Ids(items: seq<Item>): set<int> {
    set x | x in items :: x.id
  }

  /** The item dict is keyed by id, so no id occurs twice. */
  predicate DistinctIds(items: seq<Item>) {
    forall i, j :: 0 <= i < j < |items| ==> items[i].id != items[j].id
  }

  /** `pid and pid in items`: the item's parent is set, non-zero, and one of
      the items. */
  predicate ParentIn(items: seq<Item>, x: Item) {
    x.parentId.Some? && x.parentId.value != 0 && x.parentId.value in Ids(items)
  }

  /** `x` is attached under the item with id `p`. */
  predicate LinksTo(items: seq<Item>, x: Item, p: int) {
    ParentIn(items, x) && x.parentId.value == p
  }

  // ---------------------------------------------------------------------
  // Sibling order
  // ---------------------------------------------------------------------

  /** The position of the type in the four work-item types, 99 for any
      other type. */
  function TypeRank(t: string): nat {
    if t == Models.Epic then 0
    else if t == Models.Feature then 1
    else if t == Models.UserStory then 2
    else if t == Models.Task then 3
    else 99
  }

  /** Python's `a <= b` on strings: code point by code point, a prefix
      first. */
  predicate StrLe(a: string, b: string) {
    a == [] || (b != [] && (a[0] < b[0] || (a[0] == b[0] && StrLe(a[1..], b[1..]))))
  }

  lemma {:induction false} StrLeTotal(a: string, b: string)
    ensures StrLe(a, b) || StrLe(b, a)
  {
    if a != [] && b != [] && a[0] == b[0] {
      StrLeTotal(a[1..], b[1..]);
    }
  }

  lemma {:induction false} StrLeTrans(a: string, b: string, c: string)
    requires StrLe(a, b) && StrLe(b, c)
    ensures StrLe(a, c)
  {
    if a != [] && b != [] && c != [] && a[0] == b[0] && b[0] == c[0] {
      StrLeTrans(a[1..], b[1..], c[1..]);
    }
  }

  lemma {:induction false} StrLeAntisym(a: string, b: string)
    requires StrLe(a, b) && StrLe(b, a)
    ensures a == b
  {
    if a != [] && b != [] {
      StrLeAntisym(a[1..], b[1..]);
    }
  }

  /** The sort key `(rank of type, title)`, compared as a Python tuple. */
  predicate KeyLe(x: Item, y: Item) {
    TypeRank(x.wtype) < TypeRank(y.wtype)
    || (TypeRank(x.wtype) == TypeRank(y.wtype) && StrLe(x.title, y.title))
  }

  lemma KeyLeTotal(x: Item, y: Item)
    ensures KeyLe(x, y) || KeyLe(y, x)
  {
    StrLeTotal(x.title, y.title);
  }

  lemma KeyLeTrans(x: Item, y: Item, z: Item)
    requires KeyLe(x, y) && KeyLe(y, z)
    ensures KeyLe(x, z)
  {
    if TypeRank(x.wtype) == TypeRank(y.wtype) == TypeRank(z.wtype) {
      StrLeTrans(x.title, y.title, z.title);
    }
  }

  /** The rank is the type's position in the four work-item types, and 99
      for every other type. */
  lemma TypeRankPosition(t: string)
    ensures Models.KnownType(t) <==> TypeRank(t) < 4
    ensures Models.KnownType(t) ==> Models.WorkItemTypes[TypeRank(t)] == t
    ensures !Models.KnownType(t) ==> TypeRank(t) == 99
  {
  }

  /** Epics come before features, features before stories, stories before
      tasks, and every known type before an unknown one. */
  lemma TypeRankOrder(x: Item, y: Item)
    requires Models.KnownType(x.wtype)
    requires !Models.KnownType(y.wtype) || x.wtype == Models.Epic
      || (x.wtype == Models.Feature && y.wtype != Models.Epic)
      || (x.wtype == Models.UserStory && y.wtype != Models.Epic && y.wtype != Models.Feature)
    requires x.wtype != y.wtype
    ensures KeyLe(x, y) && !KeyLe(y, x)
  {
    TypeRankPosition(x.wtype);
    TypeRankPosition(y.wtype);
  }

  /** The sort key order is a total preorder. */
  lemma KeyLePreorder()
    ensures Sorting.TotalPreorder(KeyLe)
  {
    forall a, b
      ensures KeyLe(a, b) || KeyLe(b, a)
    {
      KeyLeTotal(a, b);
    }
    forall a, b, c | KeyLe(a, b) && KeyLe(b, c)
      ensures KeyLe(a, c)
    {
      KeyLeTrans(a, b, c);
    }
  }
}
