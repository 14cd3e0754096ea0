/** The work-item client with no credentials configured: an in-memory
    store of work items keyed by a counter, and an in-memory list of
    iterations with a counter of its own. */
module DevOps {
  import opened Common
  import WorkItems

  /** A stored work item. The store keeps exactly these keys; it never
      stores story points, an estimate or acceptance criteria. Values taken
      from the caller's data dict stay raw values. */
  datatype StoredItem = StoredItem(
    id: int,
    wtype: string,
    title: Value,
    description: Value,
    parentId: Option<int>,
    state: Value,
    iterationPath: Value)

  /** What a get returns: the id, title and description. */
  datatype ItemView = ItemView(id: int, title: Value, description: Value)

  /** What a delete returns. */
  datatype Deleted = Deleted(success: bool, id: int)

  /** A work item as the batch read returns it: its id and its fields under
      the service's field names. */
  datatype RawItem = RawItem(id: int, fields: Fields)

  /** A stored iteration (sprint). */
  datatype Iteration = Iteration(
    id: int,
    identifier: string,
    name: string,
    path: string,
    startDate: Option<string>,
    finishDate: Option<string>)

  // ---------------------------------------------------------------------
  // The item store: an insertion-ordered dict from id to item
  // ---------------------------------------------------------------------

  /** Ids ascend in store order (each is the counter at its creation) and
      are all below the counter. */
  ghost predicate StoreValid(items: seq<StoredItem>, nextId: int) {
    && nextId >= 1
    && (forall i, j :: 0 <= i < j < |items| ==> items[i].id < items[j].id)
    && (forall i :: 0 <= i < |items| ==> items[i].id < nextId)
  }

  /** The position of the item with id `id`, if any. */
  function IndexOf(items: seq<StoredItem>, id: int): (r: Option<nat>)
    ensures r.Some? ==> (r.value < |items| && items[r.value].id == id
                         && forall j :: 0 <= j < r.value ==> items[j].id != id)
    ensures r.None? ==> forall j :: 0 <= j < |items| ==> items[j].id != id
  {
    if items == [] then None
    else if items[0].id == id then Some(0)
    else
      match IndexOf(items[1..], id)
      case None => None
      case Some(k) => Some(k + 1)
  }

  /** `self._items.get(id)` */
  function FindItem(items: seq<StoredItem>, id: int): (r: Option<StoredItem>)
    ensures r.Some? <==> exists j :: 0 <= j < |items| && items[j].id == id
    ensures r.Some? ==> r.value in items && r.value.id == id
  {
    match IndexOf(items, id)
    case None => None
    case Some(k) => Some(items[k])
  }

  /** The record `_create_in_memory` stores: the caller's title,
      description and iteration path ("" when absent), state "New". */
  function NewItem(id: int, wtype: string, data: Fields, parentId: Option<int>): (x: StoredItem)
    ensures x.id == id && x.wtype == wtype && x.parentId == parentId && x.state == Str("New")
    ensures x.title == (if "title" in data then data["title"] else Str(""))
    ensures x.description == (if "description" in data then data["description"] else Str(""))
    ensures x.iterationPath == (if "iteration_path" in data then data["iteration_path"] else Str(""))
  {
    StoredItem(
      id, wtype,
      Get(data, "title", Str("")),
      Get(data, "description", Str("")),
      parentId,
      Str("New"),
      Get(data, "iteration_path", Str("")))
  }

  /** `_update_in_memory`'s edit: each of title, description, state and
      iteration path present in the data is overwritten; nothing else. */
  function Patch(x: StoredItem, data: Fields): (y: StoredItem)
    ensures y.id == x.id && y.wtype == x.wtype && y.parentId == x.parentId
    ensures y.title == (if "title" in data then data["title"] else x.title)
    ensures y.description == (if "description" in data then data["description"] else x.description)
    ensures y.state == (if "state" in data then data["state"] else x.state)
    ensures y.iterationPath == (if "iteration_path" in data then data["iteration_path"] else x.iterationPath)
  {
    x.(title := Get(data, "title", x.title),
       description := Get(data, "description", x.description),
       state := Get(data, "state", x.state),
       iterationPath := Get(data, "iteration_path", x.iterationPath))
  }

  /** `_get_in_memory(id)`: the id, title and description of the stored
      item, or None. */
  function GetView(items: seq<StoredItem>, id: int): (r: Option<ItemView>)
    ensures r.None? <==> FindItem(items, id).None?
    ensures r.Some? ==> var x := FindItem(items, id).value;
      r.value == ItemView(id, x.title, x.description)
  {
    match FindItem(items, id)
    case None => None
    case Some(x) => Some(ItemView(x.id, x.title, x.description))
  }

  /** The ids of a list of items, in order. */
  function IdsOf(xs: seq<StoredItem>): (r: seq<int>)
    ensures |r| == |xs| && forall k :: 0 <= k < |xs| ==> r[k] == xs[k].id
  {
    seq(|xs|, k requires 0 <= k < |xs| => xs[k].id)
  }

  /** `find_by_title(title)`: the ids of the items with exactly that title,
      in store order. */
  function FindByTitle(items: seq<StoredItem>, title: Value): (r: seq<int>)
    ensures forall id :: id in r <==> exists x :: x in items && x.id == id && x.title == title
  {
    var matching := Filter(items, (x: StoredItem) => x.title == title);
    FilterMembers(items, (x: StoredItem) => x.title == title);
    IdsOfMembers(matching);
    IdsOf(matching)
  }

  /** A title search over two stores one after the other lists the
      first's matches, then the second's. */
  lemma FindByTitleAppend(a: seq<StoredItem>, b: seq<StoredItem>, title: Value)
    ensures FindByTitle(a + b, title) == FindByTitle(a, title) + FindByTitle(b, title)
  {
    var p := (x: StoredItem) => x.title == title;
    FilterAppend(a, b, p);
    var fa, fb := Filter(a, p), Filter(b, p);
    assert IdsOf(fa + fb) == IdsOf(fa) + IdsOf(fb);
  }

  /** A single item is found exactly by its own title. */
  lemma FindByTitleSingle(x: StoredItem, title: Value)
    ensures FindByTitle([x], title) == if x.title == title then [x.id] else []
  {
    var p := (y: StoredItem) => y.title == title;
    assert [x][..0] == [];
    assert Filter([x], p) == if p(x) then [x] else [];
  }

  /** An id is listed exactly when some item carries it. */
  lemma IdsOfMembers(xs: seq<StoredItem>)
    ensures forall id :: id in IdsOf(xs) <==> exists x :: x in xs && x.id == id
  {
    var r := IdsOf(xs);
    forall id
      ensures id in r <==> exists x :: x in xs && x.id == id
    {
      if id in r {
        var k :| 0 <= k < |r| && r[k] == id;
        assert xs[k] in xs;
      }
      if exists x :: x in xs && x.id == id {
        var x :| x in xs && x.id == id;
        var k :| 0 <= k < |xs| && xs[k] == x;
        assert r[k] == id;
      }
    }
  }

  /** `run_wiql(query)`: every id in the store, in order; the query text is
      not looked at. */
  function RunWiql(items: seq<StoredItem>, query: string): (r: seq<int>)
    ensures forall id :: id in r <==> FindItem(items, id).Some?
  {
    var r := IdsOf(items);
    assert forall id :: id in r ==> exists j :: 0 <= j < |items| && items[j].id == id;
    r
  }

  /** Adding an item with a fresh id makes it findable and changes no other
      lookup. */
  lemma {:induction false} FindItemAppend(items: seq<StoredItem>, x: StoredItem, id: int)
    requires FindItem(items, x.id).None?
    ensures FindItem(items + [x], id) == if id == x.id then Some(x) else FindItem(items, id)
    decreases |items|
  {
    if items != [] {
      FindItemAppend(items[1..], x, id);
      assert (items + [x])[1..] == items[1..] + [x];
    }
  }

  /** Patching the item at its position: a get then shows the patched title
      and description, and every other id reads as before. */
  lemma GetViewPatched(items: seq<StoredItem>, nextId: int, k: nat, data: Fields, id: int)
    requires StoreValid(items, nextId) && k < |items|
    ensures var items' := items[k := Patch(items[k], data)];
      GetView(items', id) == if id == items[k].id
        then Some(ItemView(id, Get(data, "title", items[k].title), Get(data, "description", items[k].description)))
        else GetView(items, id)
  {
    var items' := items[k := Patch(items[k], data)];
    if id == items[k].id {
      assert items'[k].id == id;
    } else {
      assert forall j :: 0 <= j < |items| ==> (items'[j].id == id <==> items[j].id == id);
      match IndexOf(items, id)
      case None =>
      case Some(j) =>
        assert IndexOf(items', id) == Some(j);
    }
  }

  /** The item matches an existence check for `title` under `parentId`. */
  predicate Matches(x: StoredItem, title: Value, parentId: Option<int>) {
    x.title == title && (parentId.None? || x.parentId == parentId)
  }

  /** An existence check with no parent succeeds exactly when a title
      search finds something. */
  lemma ExistsIffFound(items: seq<StoredItem>, title: Value)
    ensures (exists j :: 0 <= j < |items| && Matches(items[j], title, None))
      <==> FindByTitle(items, title) != []
  {
    if exists j :: 0 <= j < |items| && Matches(items[j], title, None) {
      var j :| 0 <= j < |items| && Matches(items[j], title, None);
      assert items[j].id in FindByTitle(items, title);
    } else if FindByTitle(items, title) != [] {
      assert FindByTitle(items, title)[0] in FindByTitle(items, title);
    }
  }

  /** `parent_id` as the service reports it: None or the number. */
  function ParentValue(p: Option<int>): Value {
    match p
    case None => Null
    case Some(n) => Int(n)
  }

  /** The fields of a stored item under the service's names, and its id. */
  function ApiFields(x: StoredItem): Fields {
    map[
      "System.WorkItemType" := Str(x.wtype),
      "System.Title" := x.title,
      "System.State" := x.state,
      "System.Description" := x.description,
      "System.Parent" := ParentValue(x.parentId),
      "System.IterationPath" := x.iterationPath,
      "System.Id" := Int(x.id)]
  }

  /** The batch read of `ids`: one record per id present in the store, in
      the order asked; absent ids are skipped. */
  function Batch(items: seq<StoredItem>, ids: seq<int>): seq<RawItem> {
    if ids == [] then []
    else
      var id := ids[|ids| - 1];
      Batch(items, ids[..|ids| - 1])
        + match FindItem(items, id)
          case None => []
          case Some(x) => [RawItem(id, ApiFields(x))]
  }

  /** The ids the batch answers are the ids asked for that are in the
      store, in the order asked, each with that item's fields. */
  lemma {:induction false} BatchIds(items: seq<StoredItem>, ids: seq<int>)
    ensures |Batch(items, ids)| <= |ids|
    ensures Filter(ids, (id: int) => FindItem(items, id).Some?)
      == seq(|Batch(items, ids)|, k requires 0 <= k < |Batch(items, ids)| => Batch(items, ids)[k].id)
    ensures forall k :: 0 <= k < |Batch(items, ids)| ==>
      FindItem(items, Batch(items, ids)[k].id).Some?
      && Batch(items, ids)[k].fields == ApiFields(FindItem(items, Batch(items, ids)[k].id).value)
  {
    if ids != [] {
      BatchIds(items, ids[..|ids| - 1]);
    }
  }

  /** Text read back from a stored value, as normalisation reads it. */
  function TextOf(v: Value): string {
    if v.Str? then v.s else ""
  }

  /** A batch record normalises back to the stored item: type, title,
      state, description, parent and iteration path survive, and the
      fields the store never keeps come back empty. */
  lemma BatchNormalises(x: StoredItem)
    ensures WorkItems.Normalise(x.id, ApiFields(x))
      == WorkItems.Item(x.id, x.wtype, TextOf(x.title), TextOf(x.state), TextOf(x.description),
                        x.parentId, TextOf(x.iterationPath), "", None, None)
  {
    var f := ApiFields(x);
    assert f["System.WorkItemType"] == Str(x.wtype);
    assert f["System.Title"] == x.title;
    assert f["System.State"] == x.state;
    assert f["System.Description"] == x.description;
    assert f["System.Parent"] == ParentValue(x.parentId);
    assert f["System.IterationPath"] == x.iterationPath;
    assert "Microsoft.VSTS.Common.AcceptanceCriteria" !in f;
    assert "Microsoft.VSTS.Scheduling.StoryPoints" !in f;
    assert "Microsoft.VSTS.Scheduling.Effort" !in f;
  }

  // ---------------------------------------------------------------------
  // The iteration list
  // ---------------------------------------------------------------------

  /** `"\\Project\\Iteration\\{name}"` */
  function IterationPathOf(name: string): string {
    "\\Project\\Iteration\\" + name
  }

  /** `f"guid-{id}"` */
  function IdentifierOf(id: int): string {
    "guid-" + IntToString(id)
  }

  /** Ids ascend and stay below the counter; each identifier is derived
      from its id and each path from its name. */
  ghost predicate IterationsValid(its: seq<Iteration>, nextIterationId: int) {
    && nextIterationId >= 1
    && (forall i, j :: 0 <= i < j < |its| ==> its[i].id < its[j].id)
    && (forall i :: 0 <= i < |its| ==> its[i].id < nextIterationId)
    && (forall i :: 0 <= i < |its| ==> its[i].identifier == IdentifierOf(its[i].id)
                                       && its[i].path == IterationPathOf(its[i].name))
  }

  /** The position of the first iteration named `name`, if any: the
      first-match loop of `_update_iteration_in_memory`. It has the shape
      of `IndexOf`, but searches the iteration list by name where `IndexOf`
      searches the item store by its dict key; one search over a predicate
      would have to be restated through a lambda at every use in the store
      proofs. */
  function FirstNamed(its: seq<Iteration>, name: string): (r: Option<nat>)
    ensures r.Some? ==> (r.value < |its| && its[r.value].name == name
                         && forall j :: 0 <= j < r.value ==> its[j].name != name)
    ensures r.None? ==> forall j :: 0 <= j < |its| ==> its[j].name != name
  {
    if its == [] then None
    else if its[0].name == name then Some(0)
    else
      match FirstNamed(its[1..], name)
      case None => None
      case Some(k) => Some(k + 1)
  }

  /** The edit of an update: a non-empty new name renames and re-paths; a
      date that is given replaces the old one. */
  function Revised(it: Iteration, newName: Option<string>, startDate: Option<string>,
                   finishDate: Option<string>): (r: Iteration)
    ensures r.id == it.id && r.identifier == it.identifier
    ensures r.name == (if newName.Some? && newName.value != "" then newName.value else it.name)
    ensures it.path == IterationPathOf(it.name) ==> r.path == IterationPathOf(r.name)
    ensures r.startDate == (if startDate.Some? then startDate else it.startDate)
    ensures r.finishDate == (if finishDate.Some? then finishDate else it.finishDate)
  {
    var it := if newName.Some? && newName.value != "" then
      it.(name := newName.value, path := IterationPathOf(newName.value)) else it;
    var it := if startDate.Some? then it.(startDate := startDate) else it;
    if finishDate.Some? then it.(finishDate := finishDate) else it
  }

  /** The first iteration with a name is the one before which none has it. */
  lemma FirstNamedIs(its: seq<Iteration>, name: string, i: nat)
    requires i < |its| && its[i].name == name
    requires forall j :: 0 <= j < i ==> its[j].name != name
    ensures FirstNamed(its, name) == Some(i)
  {
  }

  /** Revising one iteration keeps the iteration list well formed. */
  lemma RevisedKeepsValid(its: seq<Iteration>, nextIterationId: int, k: nat, newName: Option<string>,
                          startDate: Option<string>, finishDate: Option<string>)
    requires IterationsValid(its, nextIterationId) && k < |its|
    ensures IterationsValid(its[k := Revised(its[k], newName, startDate, finishDate)], nextIterationId)
  {
  }

  /** Applying the same update twice is the same as applying it once. */
  lemma RevisedIdempotent(it: Iteration, newName: Option<string>, startDate: Option<string>,
                          finishDate: Option<string>)
    ensures Revised(Revised(it, newName, startDate, finishDate), newName, startDate, finishDate)
      == Revised(it, newName, startDate, finishDate)
  {
  }

  // ---------------------------------------------------------------------
  // The client
  // ---------------------------------------------------------------------

  class DevOpsClient {
    var items: seq<StoredItem>
    var nextId: int
    var iterations: seq<Iteration>
    var nextIterationId: int

    ghost predicate Valid()
      reads this
    {
      ItemsValid() && IterationsValid(iterations, nextIterationId)
    }

    /** The part of `Valid` about the work-item store alone. */
    ghost predicate ItemsValid()
      reads this
    {
      StoreValid(items, nextId)
    }

    /** A client with no credentials: both stores empty, both counters at 1. */
    constructor ()
      ensures Valid()
      ensures items == [] && nextId == 1 && iterations == [] && nextIterationId == 1
    {
      items := [];
      nextId := 1;
      iterations := [];
      nextIterationId := 1;
    }

    /** `_create_in_memory`: the item gets the counter as its id, the
        counter moves on by one, and the item is added after all others. */
    method CreateInMemory(wtype: string, data: Fields, parentId: Option<int>) returns (x: StoredItem)
      requires ItemsValid()
      modifies this
      ensures ItemsValid()
      ensures x == NewItem(old(nextId), wtype, data, parentId)
      ensures FindItem(old(items), x.id).None?
      ensures items == old(items) + [x] && nextId == old(nextId) + 1
      ensures iterations == old(iterations) && nextIterationId == old(nextIterationId)
    {
      x := NewItem(nextId, wtype, data, parentId);
      nextId := nextId + 1;
      items := items + [x];
    }

    /** `create(type, data, parent_id)`: without credentials, the in-memory
        create. */
    method Create(wtype: string, data: Fields, parentId: Option<int>) returns (x: StoredItem)
      requires ItemsValid()
      modifies this
      ensures ItemsValid()
      ensures x == NewItem(old(nextId), wtype, data, parentId)
      ensures items == old(items) + [x] && nextId == old(nextId) + 1
      ensures iterations == old(iterations) && nextIterationId == old(nextIterationId)
    {
      x := CreateInMemory(wtype, data, parentId);
    }

    /** `_update_in_memory(id, data)`: the item is patched in place; an
        absent id is an error and changes nothing. */
    method UpdateInMemory(id: int, data: Fields) returns (r: Result<StoredItem>)
      requires Valid()
      modifies this
      ensures Valid()
      ensures match IndexOf(old(items), id)
        case None => r == Failure("Work item " + IntToString(id) + " not found") && items == old(items)
        case Some(k) => r == Success(Patch(old(items)[k], data)) && items == old(items)[k := r.value]
      ensures nextId == old(nextId)
      ensures iterations == old(iterations) && nextIterationId == old(nextIterationId)
    {
      match IndexOf(items, id)
      case None =>
        r := Failure("Work item " + IntToString(id) + " not found");
      case Some(k) =>
        var y := Patch(items[k], data);
        items := items[k := y];
        r := Success(y);
    }

    /** `_delete_in_memory(id)`: the item is removed and success reported;
        an absent id reports failure and changes nothing. */
    method DeleteInMemory(id: int) returns (r: Deleted)
      requires Valid()
      modifies this
      ensures Valid()
      ensures r.id == id && (r.success <==> FindItem(old(items), id).Some?)
      ensures FindItem(items, id).None?
      ensures match IndexOf(old(items), id)
        case None => items == old(items)
        case Some(k) => items == old(items)[..k] + old(items)[k + 1..]
      ensures nextId == old(nextId)
      ensures iterations == old(iterations) && nextIterationId == old(nextIterationId)
    {
      match IndexOf(items, id)
      case None =>
        r := Deleted(false, id);
      case Some(k) =>
        items := items[..k] + items[k + 1..];
        r := Deleted(true, id);
    }

    /** `work_item_exists(title, parent_id)`: some item has the title and,
        when a parent is given, that parent. */
    method WorkItemExists(title: Value, parentId: Option<int>) returns (b: bool)
      ensures b <==> exists j :: 0 <= j < |items| && Matches(items[j], title, parentId)
    {
      var i := 0;
      while i < |items|
        invariant 0 <= i <= |items|
        invariant forall j :: 0 <= j < i ==> !Matches(items[j], title, parentId)
      {
        if items[i].title == title {
          if parentId.None? || items[i].parentId == parentId {
            return true;
          }
        }
        i := i + 1;
      }
      return false;
    }

    /** `get_work_items_batch(ids)`: the records of the ids present in the
        store, in the order asked. */
    method GetWorkItemsBatch(ids: seq<int>) returns (r: seq<RawItem>)
      ensures r == Batch(items, ids)
    {
      r := [];
      var i := 0;
      while i < |ids|
        invariant 0 <= i <= |ids|
        invariant r == Batch(items, ids[..i])
      {
        assert ids[..i + 1][..i] == ids[..i];
        var id := ids[i];
        var found := FindItem(items, id);
        if found.Some? {
          r := r + [RawItem(id, ApiFields(found.value))];
        }
        i := i + 1;
      }
      assert ids[..|ids|] == ids;
    }

    /** `get_iterations()`: the iteration list, each with the identifier of
        its id and the path of its name. */
    function GetIterations(): (r: seq<Iteration>)
      reads this
      requires Valid()
      ensures forall i :: 0 <= i < |r| ==>
        r[i].identifier == IdentifierOf(r[i].id) && r[i].path == IterationPathOf(r[i].name)
      ensures forall i, j :: 0 <= i < j < |r| ==> r[i].id < r[j].id
    {
      iterations
    }

    /** `create_iteration(name, start, finish)`: the iteration gets the
        counter as its id, `guid-{id}` as its identifier and the path of its
        name, and is added last. */
    method CreateIteration(name: string, startDate: Option<string>, finishDate: Option<string>)
      returns (it: Iteration)
      requires Valid()
      modifies this
      ensures Valid()
      ensures it == Iteration(old(nextIterationId), IdentifierOf(old(nextIterationId)), name,
                              IterationPathOf(name), startDate, finishDate)
      ensures iterations == old(iterations) + [it] && nextIterationId == old(nextIterationId) + 1
      ensures items == old(items) && nextId == old(nextId)
    {
      it := Iteration(nextIterationId, IdentifierOf(nextIterationId), name,
                      IterationPathOf(name), startDate, finishDate);
      nextIterationId := nextIterationId + 1;
      iterations := iterations + [it];
    }

    /** `update_iteration(current, new_name, start, finish)`: the first
        iteration with the current name is revised in place and returned;
        when none has that name it is an error and nothing changes. */
    method UpdateIteration(currentName: string, newName: Option<string>,
                           startDate: Option<string>, finishDate: Option<string>)
      returns (r: Result<Iteration>)
      requires Valid()
      modifies this
      ensures Valid()
      ensures match FirstNamed(old(iterations), currentName)
        case None => r == Failure("Iteration '" + currentName + "' not found")
                     && iterations == old(iterations)
        case Some(k) => r == Success(Revised(old(iterations)[k], newName, startDate, finishDate))
                        && iterations == old(iterations)[k := r.value]
      ensures nextIterationId == old(nextIterationId)
      ensures items == old(items) && nextId == old(nextId)
    {
      var i := 0;
      while i < |iterations|
        invariant 0 <= i <= |iterations|
        invariant forall j :: 0 <= j < i ==> iterations[j].name != currentName
      {
        if iterations[i].name == currentName {
          var it := iterations[i];
          if newName.Some? && newName.value != "" {
            it := it.(name := newName.value, path := IterationPathOf(newName.value));
          }
          if startDate.Some? {
            it := it.(startDate := startDate);
          }
          if finishDate.Some? {
            it := it.(finishDate := finishDate);
          }
          assert it == Revised(iterations[i], newName, startDate, finishDate);
          FirstNamedIs(iterations, currentName, i);
          RevisedKeepsValid(iterations, nextIterationId, i, newName, startDate, finishDate);
          iterations := iterations[i := it];
          r := Success(it);
          return;
        }
        i := i + 1;
      }
      r := Failure("Iteration '" + currentName + "' not found");
    }
  }
}
