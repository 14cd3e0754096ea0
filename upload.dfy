/** The upload service: a project template walked top-down (epics, their
    features, their stories, their tasks), every record created in the
    work-item store under its resolved parent unless an item with that
    title already sits there, with one result per record in visiting
    order. */
module Upload {
  import opened Common
  import opened Models
  import opened DevOps
  import TreeYaml

  // ---------------------------------------------------------------------
  // `_build_data`
  // ---------------------------------------------------------------------

  /** The keys `_build_data` may copy. */
  const DataKeys: set<string> := {"title", "description", "acceptance_criteria", "story_points",
                                  "estimate", "iteration_path"}

  /** Whether `_build_data` copies key `k`: the title always; description,
      acceptance criteria and iteration path when truthy; story points and
      estimate when present and not None. */
  predicate Keeps(item: Fields, k: string) {
    k in item && (
      || k == "title"
      || ((k == "description" || k == "acceptance_criteria" || k == "iteration_path") && Truthy(item[k]))
      || ((k == "story_points" || k == "estimate") && item[k] != Null))
  }

  /** `_build_data(item)`: a record's data dict with only its non-empty
      fields. A record without a title raises KeyError (see UploadFromYaml). */
  function BuildData(item: Fields): (data: Fields)
    requires "title" in item
    ensures "title" in data && data["title"] == item["title"]
    ensures ("description" in data <==> "description" in item && Truthy(item["description"]))
    ensures ("acceptance_criteria" in data <==> "acceptance_criteria" in item && Truthy(item["acceptance_criteria"]))
    ensures ("iteration_path" in data <==> "iteration_path" in item && Truthy(item["iteration_path"]))
    ensures ("story_points" in data <==> "story_points" in item && item["story_points"] != Null)
    ensures ("estimate" in data <==> "estimate" in item && item["estimate"] != Null)
    ensures data.Keys <= DataKeys
    ensures forall k :: k in data ==> k in item && data[k] == item[k]
  {
    map k | k in DataKeys && Keeps(item, k) :: item[k]
  }

  /** Building from built data changes nothing. */
  lemma BuildDataIdempotent(item: Fields)
    requires "title" in item
    ensures BuildData(BuildData(item)) == BuildData(item)
  {
    var d := BuildData(item);
    assert forall k :: k in d ==> Keeps(d, k);
  }

  /** A record written by the tree export uploads with all its fields but
      the id and state read back from the service. */
  lemma BuildDataOfExport(x: WorkItems.Item)
    ensures "title" in TreeYaml.ItemFields(x)
    ensures BuildData(TreeYaml.ItemFields(x)) == TreeYaml.ItemFields(x) - {"id", "state"}
  {
    var f := TreeYaml.ItemFields(x);
    forall k | k in f && k != "id" && k != "state"
      ensures k in DataKeys && Keeps(f, k)
    {
      ExportFieldKept(x, k);
    }
    BuildDataKeepsAll(f);
  }

  /** Data whose every field but the id and state is kept is built
      unchanged, less those two. */
  lemma BuildDataKeepsAll(f: Fields)
    requires "title" in f
    requires forall k :: k in f && k != "id" && k != "state" ==> k in DataKeys && Keeps(f, k)
    ensures BuildData(f) == f - {"id", "state"}
  {
  }

  lemma ExportFieldKept(x: WorkItems.Item, k: string)
    requires k in TreeYaml.ItemFields(x) && k != "id" && k != "state"
    ensures k in DataKeys && Keeps(TreeYaml.ItemFields(x), k)
  {
    var f := TreeYaml.ItemFields(x);
    if k == "description" || k == "acceptance_criteria" || k == "iteration_path" {
      assert Truthy(f[k]);
    } else if k == "story_points" || k == "estimate" {
      assert f[k].Int?;
    } else {
      assert k in TreeYaml.RecordKeys;
    }
  }

  // ---------------------------------------------------------------------
  // `_create_and_track` and `_resolve_id`
  // ---------------------------------------------------------------------

  datatype Status = Created | Skipped | Error

  /** The result dict of one record: type, title, status, message, id. */
  datatype UploadResult = UploadResult(wtype: string, title: Value, status: Status, message: string,
                                       id: Option<int>)

  /** Some stored item has the title and, when a parent is given, that
      parent: what `work_item_exists` reports. */
  predicate Present(items: seq<StoredItem>, title: Value, parentId: Option<int>) {
    exists j :: 0 <= j < |items| && Matches(items[j], title, parentId)
  }

  /** `_create_and_track(svc, type, data, parent_id)`. `failure` stands for
      an exception raised by the service, with its message; the in-memory
      store raises none. */
  method CreateAndTrack(c: DevOpsClient, wtype: string, data: Fields, parentId: Option<int>,
                        failure: Option<string>) returns (r: UploadResult)
    requires StoreValid(c.items, c.nextId)
    modifies c
    ensures StoreValid(c.items, c.nextId)
    ensures r.wtype == wtype && r.title == Get(data, "title", Str(""))
    ensures failure.Some? ==>
      r.status == Error && r.message == failure.value && r.id.None? && c.items == old(c.items)
    ensures failure.None? && Present(old(c.items), r.title, parentId) ==>
      r.status == Skipped && r.message == "Already exists" && r.id.None? && c.items == old(c.items)
    ensures failure.None? && !Present(old(c.items), r.title, parentId) ==>
      && r.status == Created && r.id == Some(old(c.nextId))
      && r.message == "ID: " + IntToString(old(c.nextId))
      && c.items == old(c.items) + [NewItem(old(c.nextId), wtype, data, parentId)]
    ensures failure.None? ==> Uploaded(old(c.items), c.items, [r], [Visit(wtype, r.title, data)], [parentId],
                                       [ResolveIdAsWritten(old(c.items), r, r.title)])
    ensures c.iterations == old(c.iterations) && c.nextIterationId == old(c.nextIterationId)
  {
    var title := Get(data, "title", Str(""));
    if failure.Some? {
      return UploadResult(wtype, title, Error, failure.value, None);
    }
    var found := c.WorkItemExists(title, parentId);
    if found {
      r := UploadResult(wtype, title, Skipped, "Already exists", None);
      UploadedSkipped(c.items, r, Visit(wtype, title, data), parentId);
    } else {
      var x := c.Create(wtype, data, parentId);
      r := UploadResult(wtype, title, Created, "ID: " + IntToString(x.id), Some(x.id));
      UploadedCreated(old(c.items), x, r, Visit(wtype, title, data), parentId);
    }
  }

  /** A record skipped, its title found under its parent, is an upload
      that changes nothing. */
  lemma UploadedSkipped(items: seq<StoredItem>, r: UploadResult, v: Visit, parentId: Option<int>)
    requires r.wtype == v.wtype && r.title == v.title
    requires r.status == Skipped && r.message == "Already exists" && r.id.None? && Present(items, r.title, parentId)
    ensures Uploaded(items, items, [r], [v], [parentId], [ResolveIdAsWritten(items, r, r.title)])
  {
    var j :| 0 <= j < |items| && Matches(items[j], r.title, parentId);
    assert Matches(items[j], r.title, None);
    assert Seen(items, [v], 0) by {
      assert [v][0].title == items[j].title;
    }
    assert CreatedOf([r]) == [];
    assert Replay(items, [r], [v], [parentId]) == Some(items) by {
      assert [r][..0] == [] && [v][..0] == [] && [parentId][..0] == [];
    }
  }

  /** A record created as item `x`, the item built from its data, when
      no item with its title sat under its parent, is an upload adding
      `x`. */
  lemma UploadedCreated(items: seq<StoredItem>, x: StoredItem, r: UploadResult, v: Visit, parentId: Option<int>)
    requires r.wtype == v.wtype && r.title == v.title && r.title == x.title && !Present(items, r.title, parentId)
    requires r.status == Created && r.id == Some(x.id) && r.message == "ID: " + IntToString(x.id)
    requires x == NewItem(x.id, v.wtype, v.data, parentId)
    ensures Uploaded(items, items + [x], [r], [v], [parentId], [ResolveIdAsWritten(items, r, r.title)])
  {
    assert CreatedOf([r]) == [Made(r.wtype, r.title, x.id)];
    assert Summary(items + [x]) == Summary(items) + [Made(r.wtype, r.title, x.id)];
    assert (items + [x])[|items|] == x;
    assert Replay(items, [r], [v], [parentId]) == Some(items + [x]) by {
      assert [r][..0] == [] && [v][..0] == [] && [parentId][..0] == [];
    }
  }

  /** The position of the first stored item matching a title and parent. */
  function FirstMatch(items: seq<StoredItem>, title: Value, parentId: Option<int>): (r: Option<nat>)
    ensures r.Some? <==> Present(items, title, parentId)
    ensures r.Some? ==> (r.value < |items| && Matches(items[r.value], title, parentId)
      && forall k :: 0 <= k < r.value ==> !Matches(items[k], title, parentId))
  {
    if items == [] then None
    else if Matches(items[0], title, parentId) then Some(0)
    else
      match FirstMatch(items[1..], title, parentId)
      case None =>
        assert forall j :: 1 <= j < |items| ==> items[j] == items[1..][j - 1];
        None
      case Some(k) => Some(k + 1)
  }

  /** `_resolve_id(svc, result, title)` as written: the id of the result,
      else the first item with that title anywhere in the store. */
  function ResolveIdAsWritten(items: seq<StoredItem>, r: UploadResult, title: Value): (id: Option<int>)
    ensures r.id.Some? ==> id == r.id
    ensures r.id.None? ==> (id.Some? <==> Present(items, title, None))
  {
    if r.id.Some? then r.id
    else
      var ids := FindByTitle(items, title);
      ExistsIffFound(items, title);
      if ids != [] then Some(ids[0]) else None
  }

  /** `_resolve_id` as intended: the id of the result, else the first item
      with that title under the same parent, which is the item the
      existence check found. */
  function ResolveId(items: seq<StoredItem>, r: UploadResult, title: Value, parentId: Option<int>): Option<int> {
    if r.id.Some? then r.id
    else
      match FirstMatch(items, title, parentId)
      case None => None
      case Some(k) => Some(items[k].id)
  }

  /** A skipped record resolves to the item that made the existence check
      succeed: one with its title and under its parent. */
  lemma ResolveIdSkipped(items: seq<StoredItem>, r: UploadResult, title: Value, parentId: Option<int>)
    requires r.id.None? && Present(items, title, parentId)
    ensures var id := ResolveId(items, r, title, parentId);
      id.Some? && exists j :: 0 <= j < |items| && items[j].id == id.value && Matches(items[j], title, parentId)
  {
    var k := FirstMatch(items, title, parentId).value;
    assert items[k].id == ResolveId(items, r, title, parentId).value;
  }

  /** With no parent (an epic) both readings agree: the first item with the
      title. */
  lemma ResolveIdTopLevel(items: seq<StoredItem>, r: UploadResult, title: Value)
    ensures ResolveId(items, r, title, None) == ResolveIdAsWritten(items, r, title)
  {
    if r.id.None? {
      ExistsIffFound(items, title);
      match FirstMatch(items, title, None)
      case None =>
      case Some(k) =>
        var p := (x: StoredItem) => x.title == title;
        FilterHead(items, p, k);
        assert FindByTitle(items, title) == IdsOf(Filter(items, p));
    }
  }

  /** The store midway through one upload, into an empty store, of epic
      "A" holding feature "X" and then epic "B" holding two features "X":
      epic 1 with feature 2, epic 3 with feature 4, as the second "X" of
      epic "B" is reached. */
  function TwoFeaturesNamedX(): seq<StoredItem> {
    [StoredItem(1, Epic, Str("A"), Str(""), None, Str("New"), Str("")),
     StoredItem(2, Feature, Str("X"), Str(""), Some(1), Str("New"), Str("")),
     StoredItem(3, Epic, Str("B"), Str(""), None, Str("New"), Str("")),
     StoredItem(4, Feature, Str("X"), Str(""), Some(3), Str("New"), Str(""))]
  }

  /** Feature "X" of epic 3 is skipped, as it exists under epic 3, but the
      lookup as written resolves it to item 2, the "X" under epic 1; its
      stories are then checked and created under the wrong feature. The
      intended lookup resolves it to item 4. */
  lemma ResolveIdWrongParent()
    ensures var items := TwoFeaturesNamedX();
      var r := UploadResult(Feature, Str("X"), Skipped, "Already exists", None);
      && Present(items, Str("X"), Some(3))
      && ResolveIdAsWritten(items, r, Str("X")) == Some(2)
      && FindItem(items, 2).value.parentId == Some(1)
      && ResolveId(items, r, Str("X"), Some(3)) == Some(4)
  {
    var items := TwoFeaturesNamedX();
    var p := (x: StoredItem) => x.title == Str("X");
    FilterHead(items, p, 1);
    assert Matches(items[3], Str("X"), Some(3));
    assert IndexOf(items, 2) == Some(1);
  }

  // ---------------------------------------------------------------------
  // Results and the store, level by level
  // ---------------------------------------------------------------------
  // ---------------------------------------------------------------------

  /** A record visited: its type, its title and the data `_build_data`
      makes of it. */
  datatype Visit = Visit(wtype: string, title: Value, data: Fields)

  /** A record created: its type, title and new id. */
  datatype Made = Made(wtype: string, title: Value, id: int)

  /** One result per visited record, naming its type and title. */
  predicate Matched(rs: seq<UploadResult>, w: seq<Visit>) {
    |rs| == |w| && forall i :: 0 <= i < |rs| ==> rs[i].wtype == w[i].wtype && rs[i].title == w[i].title
  }

  /** The created results, in order. */
  function CreatedOf(rs: seq<UploadResult>): seq<Made> {
    if rs == [] then []
    else
      var r := rs[|rs| - 1];
      CreatedOf(rs[..|rs| - 1]) + if r.status == Created && r.id.Some? then [Made(r.wtype, r.title, r.id.value)] else []
  }

  /** The stored items, as created records. */
  function Summary(xs: seq<StoredItem>): seq<Made> {
    seq(|xs|, i requires 0 <= i < |xs| => Made(xs[i].wtype, xs[i].title, xs[i].id))
  }

  predicate NoErrors(rs: seq<UploadResult>) {
    forall i :: 0 <= i < |rs| ==> rs[i].status != Error
  }

  /** A result that records a creation. */
  predicate IsCreated(r: UploadResult) {
    r.status == Created && r.id.Some?
  }

  predicate AllCreated(rs: seq<UploadResult>) {
    forall i :: 0 <= i < |rs| ==> IsCreated(rs[i])
  }

  /** No two visited records share a title. */
  predicate Distinct(w: seq<Visit>) {
    forall i, j :: 0 <= i < j < |w| ==> w[i].title != w[j].title
  }

  /** The title of the `i`-th visited record was stored before the upload
      began or belongs to a record visited earlier. */
  predicate Seen(before: seq<StoredItem>, w: seq<Visit>, i: nat)
    requires i < |w|
  {
    || (exists j :: 0 <= j < |before| && before[j].title == w[i].title)
    || (exists k :: 0 <= k < i && w[k].title == w[i].title)
  }

  /** Every record that was not created repeats a title seen before it. */
  predicate SkipsRepeat(before: seq<StoredItem>, rs: seq<UploadResult>, w: seq<Visit>) {
    forall i :: 0 <= i < |rs| && i < |w| && !IsCreated(rs[i]) ==> Seen(before, w, i)
  }

  /** Every record resolved to an id, as `_resolve_id` does (by title
      alone), and looked up in the store the upload left, which finds what
      the store the record met found, as the store only grows. */
  predicate Resolved(after: seq<StoredItem>, rs: seq<UploadResult>, ids: seq<Option<int>>) {
    && |ids| == |rs|
    && forall i :: 0 <= i < |rs| ==> ids[i].Some? && ids[i] == ResolveIdAsWritten(after, rs[i], rs[i].title)
  }

  /** Every created record sits in the store under the parent it was sent
      under. */
  predicate CreatedUnder(after: seq<StoredItem>, rs: seq<UploadResult>, ps: seq<Option<int>>)
    requires |ps| == |rs|
  {
    forall i :: 0 <= i < |rs| && IsCreated(rs[i]) ==>
      exists j :: 0 <= j < |after| && after[j].id == rs[i].id.value && after[j].parentId == ps[i]
  }

  /** The upload of a part of a template took the store from `before` to
      `after` and gave the results `rs`, record `i` sent under parent
      `ps[i]` and resolving to `ids[i]`: one result per record visited, in
      order, none an error; items only added, exactly one per created
      result, in the same order, each under its record's parent; a record
      only left uncreated when its title had been seen; every record
      resolved to an id; and, replayed record by record, each skipped
      exactly when an item with its title sat under its parent in the store
      it met, and each other created as the item built from its data. */
  predicate Uploaded(before: seq<StoredItem>, after: seq<StoredItem>, rs: seq<UploadResult>, w: seq<Visit>,
                     ps: seq<Option<int>>, ids: seq<Option<int>>) {
    && Matched(rs, w)
    && NoErrors(rs)
    && before <= after
    && Summary(after) == Summary(before) + CreatedOf(rs)
    && SkipsRepeat(before, rs, w)
    && |ps| == |rs| && CreatedUnder(after, rs, ps)
    && Resolved(after, rs, ids)
    && |w| == |rs| && Replay(before, rs, w, ps) == Some(after)
  }

  /** One record replayed against the store it met: its result names the
      visited record; when an item with its title sits under its parent
      the record was skipped and the store is unchanged; otherwise it was
      created, reported by its new id, and the item made from its data is
      appended under its parent. None when the result says otherwise. */
  function Step(items: seq<StoredItem>, r: UploadResult, v: Visit, p: Option<int>): Option<seq<StoredItem>> {
    if r.wtype != v.wtype || r.title != v.title then None
    else if Present(items, r.title, p) then
      if r.status == Skipped && r.message == "Already exists" && r.id.None? then Some(items) else None
    else if r.status == Created && r.id.Some? && r.message == "ID: " + IntToString(r.id.value) then
      Some(items + [NewItem(r.id.value, v.wtype, v.data, p)])
    else None
  }

  /** The records replayed one after another from `before`: the store the
      last one leaves, or None when some result does not follow. */
  function Replay(before: seq<StoredItem>, rs: seq<UploadResult>, w: seq<Visit>, ps: seq<Option<int>>)
    : (after: Option<seq<StoredItem>>)
    requires |w| == |rs| && |ps| == |rs|
    ensures after.Some? ==> before <= after.value
    decreases |rs|
  {
    if rs == [] then Some(before)
    else
      var n := |rs| - 1;
      match Replay(before, rs[..n], w[..n], ps[..n])
      case None => None
      case Some(m) => Step(m, rs[n], w[n], ps[n])
  }

  /** What an upload of one record says: the record was created exactly
      when no item with its title sat under its parent, and then the store
      grew by the item built from its data under that parent, reported by
      its new id; otherwise it was skipped and the store is unchanged. */
  lemma UploadedOne(before: seq<StoredItem>, after: seq<StoredItem>, r: UploadResult, v: Visit, p: Option<int>,
                    ids: seq<Option<int>>)
    requires Uploaded(before, after, [r], [v], [p], ids)
    ensures IsCreated(r) <==> !Present(before, v.title, p)
    ensures IsCreated(r) ==>
      after == before + [NewItem(r.id.value, v.wtype, v.data, p)] && r.message == "ID: " + IntToString(r.id.value)
    ensures !IsCreated(r) ==> after == before && r.status == Skipped && r.message == "Already exists"
  {
    ReplaySnoc(before, [], [], [], r, v, p);
    assert [] + [r] == [r] && [] + [v] == [v] && [] + [p] == [p];
    assert Replay(before, [], [], []) == Some(before);
  }

  /** Replaying two parts one after the other is replaying both. */
  lemma {:induction false} ReplayAppend(o: seq<StoredItem>, m: seq<StoredItem>,
                                        rs1: seq<UploadResult>, rs2: seq<UploadResult>, w1: seq<Visit>, w2: seq<Visit>,
                                        ps1: seq<Option<int>>, ps2: seq<Option<int>>)
    requires |w1| == |rs1| && |ps1| == |rs1| && |w2| == |rs2| && |ps2| == |rs2|
    requires Replay(o, rs1, w1, ps1) == Some(m)
    ensures Replay(o, rs1 + rs2, w1 + w2, ps1 + ps2) == Replay(m, rs2, w2, ps2)
    decreases |rs2|
  {
    if rs2 == [] {
      assert rs1 + rs2 == rs1 && w1 + w2 == w1 && ps1 + ps2 == ps1;
    } else {
      var n := |rs2| - 1;
      var rs, w, ps := rs2[..n], w2[..n], ps2[..n];
      ReplayAppend(o, m, rs1, rs, w1, w, ps1, ps);
      ReplaySnoc(o, rs1 + rs, w1 + w, ps1 + ps, rs2[n], w2[n], ps2[n]);
      ReplaySnoc(m, rs, w, ps, rs2[n], w2[n], ps2[n]);
      SplitLast([], rs2);
      SplitLast([], w2);
      SplitLast([], ps2);
      SplitLast(rs1, rs2);
      SplitLast(w1, w2);
      SplitLast(ps1, ps2);
    }
  }

  lemma SplitLast<T>(a: seq<T>, b: seq<T>)
    requires b != []
    ensures (a + b[..|b| - 1]) + [b[|b| - 1]] == a + b
  {
  }

  /** Replaying one more record is one more step. */
  lemma ReplaySnoc(b: seq<StoredItem>, rs: seq<UploadResult>, w: seq<Visit>, ps: seq<Option<int>>,
                   r: UploadResult, v: Visit, p: Option<int>)
    requires |w| == |rs| && |ps| == |rs|
    ensures Replay(b, rs + [r], w + [v], ps + [p])
      == if Replay(b, rs, w, ps).None? then None else Step(Replay(b, rs, w, ps).value, r, v, p)
  {
    assert (rs + [r])[..|rs|] == rs && (w + [v])[..|rs|] == w && (ps + [p])[..|rs|] == ps;
  }

  lemma {:induction false} CreatedOfAppend(a: seq<UploadResult>, b: seq<UploadResult>)
    ensures CreatedOf(a + b) == CreatedOf(a) + CreatedOf(b)
    decreases |b|
  {
    if b == [] {
      assert a + b == a;
    } else {
      CreatedOfAppend(a, b[..|b| - 1]);
      assert (a + b)[..|a + b| - 1] == a + b[..|b| - 1];
    }
  }

  /** Each created record comes from some result with its title. */
  lemma {:induction false} CreatedOfSource(rs: seq<UploadResult>, p: nat) returns (k: nat)
    requires p < |CreatedOf(rs)|
    ensures k < |rs| && CreatedOf(rs)[p].title == rs[k].title
  {
    var front := rs[..|rs| - 1];
    if p < |CreatedOf(front)| {
      k := CreatedOfSource(front, p);
    } else {
      k := |rs| - 1;
    }
  }

  /** When every result is a creation, each is listed by CreatedOf. */
  lemma {:induction false} CreatedOfAll(rs: seq<UploadResult>)
    requires AllCreated(rs)
    ensures |CreatedOf(rs)| == |rs|
    ensures forall i :: 0 <= i < |rs| ==> CreatedOf(rs)[i] == Made(rs[i].wtype, rs[i].title, rs[i].id.value)
  {
    if rs != [] {
      CreatedOfAll(rs[..|rs| - 1]);
    }
  }

  /** Two uploads one after the other make one upload of both parts. */
  lemma UploadedAppend(o: seq<StoredItem>, m: seq<StoredItem>, n: seq<StoredItem>,
                       rs1: seq<UploadResult>, rs2: seq<UploadResult>, w1: seq<Visit>, w2: seq<Visit>,
                       ps1: seq<Option<int>>, ps2: seq<Option<int>>, ids1: seq<Option<int>>, ids2: seq<Option<int>>)
    requires Uploaded(o, m, rs1, w1, ps1, ids1) && Uploaded(m, n, rs2, w2, ps2, ids2)
    ensures Uploaded(o, n, rs1 + rs2, w1 + w2, ps1 + ps2, ids1 + ids2)
  {
    MatchedAppend(rs1, rs2, w1, w2);
    ReplayAppend(o, m, rs1, rs2, w1, w2, ps1, ps2);
    SummaryAppend(o, m, n, rs1, rs2);
    SkipsRepeatAppend(o, m, rs1, rs2, w1, w2);
    CreatedUnderAppend(m, n, rs1, rs2, ps1, ps2);
    ResolvedAppend(m, n, rs1, rs2, ids1, ids2);
    assert NoErrors(rs1 + rs2) by {
      assert forall i :: 0 <= i < |rs1| ==> (rs1 + rs2)[i] == rs1[i];
      assert forall i :: |rs1| <= i < |rs1 + rs2| ==> (rs1 + rs2)[i] == rs2[i - |rs1|];
    }
  }

  lemma MatchedAppend(rs1: seq<UploadResult>, rs2: seq<UploadResult>, w1: seq<Visit>, w2: seq<Visit>)
    requires Matched(rs1, w1) && Matched(rs2, w2)
    ensures Matched(rs1 + rs2, w1 + w2)
  {
    forall i | |rs1| <= i < |rs1 + rs2|
      ensures (rs1 + rs2)[i] == rs2[i - |rs1|] && (w1 + w2)[i] == w2[i - |rs1|]
    {
    }
  }

  lemma SummaryAppend(o: seq<StoredItem>, m: seq<StoredItem>, n: seq<StoredItem>,
                      rs1: seq<UploadResult>, rs2: seq<UploadResult>)
    requires Summary(m) == Summary(o) + CreatedOf(rs1) && Summary(n) == Summary(m) + CreatedOf(rs2)
    ensures Summary(n) == Summary(o) + CreatedOf(rs1 + rs2)
  {
    CreatedOfAppend(rs1, rs2);
  }

  /** An upload of nothing leaves the store as it was. */
  lemma UploadedNone(o: seq<StoredItem>)
    ensures Uploaded(o, o, [], [], [], [])
  {
    assert CreatedOf([]) == [];
  }

  lemma CreatedUnderAppend(m: seq<StoredItem>, n: seq<StoredItem>, rs1: seq<UploadResult>, rs2: seq<UploadResult>,
                           ps1: seq<Option<int>>, ps2: seq<Option<int>>)
    requires |ps1| == |rs1| && |ps2| == |rs2| && m <= n
    requires CreatedUnder(m, rs1, ps1) && CreatedUnder(n, rs2, ps2)
    ensures CreatedUnder(n, rs1 + rs2, ps1 + ps2)
  {
    var rs, ps := rs1 + rs2, ps1 + ps2;
    forall i | 0 <= i < |rs| && IsCreated(rs[i])
      ensures exists j :: 0 <= j < |n| && n[j].id == rs[i].id.value && n[j].parentId == ps[i]
    {
      if i < |rs1| {
        assert rs[i] == rs1[i] && ps[i] == ps1[i];
        var j :| 0 <= j < |m| && m[j].id == rs1[i].id.value && m[j].parentId == ps1[i];
        assert n[j] == m[j];
      } else {
        assert rs[i] == rs2[i - |rs1|] && ps[i] == ps2[i - |rs1|];
      }
    }
  }

  lemma ResolvedAppend(m: seq<StoredItem>, n: seq<StoredItem>, rs1: seq<UploadResult>, rs2: seq<UploadResult>,
                       ids1: seq<Option<int>>, ids2: seq<Option<int>>)
    requires m <= n && Resolved(m, rs1, ids1) && Resolved(n, rs2, ids2)
    ensures Resolved(n, rs1 + rs2, ids1 + ids2)
  {
    var rs, ids := rs1 + rs2, ids1 + ids2;
    forall i | 0 <= i < |rs|
      ensures ids[i].Some? && ids[i] == ResolveIdAsWritten(n, rs[i], rs[i].title)
    {
      if i < |rs1| {
        assert rs[i] == rs1[i] && ids[i] == ids1[i];
        ResolveIdGrows(m, n, rs1[i], rs1[i].title);
      } else {
        assert rs[i] == rs2[i - |rs1|] && ids[i] == ids2[i - |rs1|];
      }
    }
  }

  /** A record that resolved against a store resolves to the same id
      against any store grown from it: the first item with its title stays
      first. */
  lemma ResolveIdGrows(m: seq<StoredItem>, n: seq<StoredItem>, r: UploadResult, title: Value)
    requires m <= n && ResolveIdAsWritten(m, r, title).Some?
    ensures ResolveIdAsWritten(n, r, title) == ResolveIdAsWritten(m, r, title)
  {
    if r.id.None? {
      ExistsIffFound(m, title);
      assert n == m + n[|m|..];
      FindByTitleAppend(m, n[|m|..], title);
    }
  }

  lemma SkipsRepeatAppend(o: seq<StoredItem>, m: seq<StoredItem>,
                          rs1: seq<UploadResult>, rs2: seq<UploadResult>, w1: seq<Visit>, w2: seq<Visit>)
    requires Matched(rs1, w1) && Matched(rs2, w2)
    requires o <= m && Summary(m) == Summary(o) + CreatedOf(rs1)
    requires SkipsRepeat(o, rs1, w1) && SkipsRepeat(m, rs2, w2)
    ensures SkipsRepeat(o, rs1 + rs2, w1 + w2)
  {
    var rs, w := rs1 + rs2, w1 + w2;
    forall i | 0 <= i < |rs| && i < |w| && !IsCreated(rs[i])
      ensures Seen(o, w, i)
    {
      if i < |rs1| {
        assert rs[i] == rs1[i] && w[i] == w1[i];
        SeenWiden(o, w1, w, i);
      } else {
        var i2 := i - |rs1|;
        assert rs[i] == rs2[i2] && w[i] == w2[i2];
        SeenShift(o, m, rs1, w1, w2, i2);
      }
    }
  }

  /** What was seen in a prefix of the visits is seen in the whole. */
  lemma SeenWiden(o: seq<StoredItem>, w1: seq<Visit>, w: seq<Visit>, i: nat)
    requires w1 <= w && i < |w1| && Seen(o, w1, i)
    ensures Seen(o, w, i)
  {
    if exists k :: 0 <= k < i && w1[k].title == w1[i].title {
      var k :| 0 <= k < i && w1[k].title == w1[i].title;
      assert w[k] == w1[k];
    }
  }

  /** A title seen by the second part of an upload was seen by the whole:
      stored before the first part, created by it, or visited earlier in
      the second. */
  lemma SeenShift(o: seq<StoredItem>, m: seq<StoredItem>, rs1: seq<UploadResult>,
                  w1: seq<Visit>, w2: seq<Visit>, i2: nat)
    requires Matched(rs1, w1) && o <= m && Summary(m) == Summary(o) + CreatedOf(rs1)
    requires i2 < |w2| && Seen(m, w2, i2)
    ensures Seen(o, w1 + w2, |w1| + i2)
  {
    var w := w1 + w2;
    var i := |w1| + i2;
    assert w[i] == w2[i2];
    if exists k :: 0 <= k < i2 && w2[k].title == w2[i2].title {
      var k :| 0 <= k < i2 && w2[k].title == w2[i2].title;
      assert w[|w1| + k] == w2[k];
    } else {
      var j :| 0 <= j < |m| && m[j].title == w2[i2].title;
      assert Summary(m)[j].title == m[j].title;
      if j < |o| {
        assert m[j] == o[j];
      } else {
        assert Summary(m)[j] == CreatedOf(rs1)[j - |o|];
        var k := CreatedOfSource(rs1, j - |o|);
        assert w[k] == w1[k];
      }
    }
  }

  // ---------------------------------------------------------------------
  // The walk
  // ---------------------------------------------------------------------

  /** A record of type `wtype` as visited: its title and the data
      `_build_data` makes of it; a record without a title, which raises,
      as no title and no data. */
  function VisitOf(wtype: string, f: Fields): (v: Visit)
    ensures v.wtype == wtype && v.title == Get(f, "title", Null)
    ensures "title" in f ==> v.data == BuildData(f)
  {
    if "title" in f then Visit(wtype, f["title"], BuildData(f)) else Visit(wtype, Null, map[])
  }

  /** Every record carries a string title: otherwise `_build_data` raises
      a KeyError, or `_print_result` a TypeError when it slices and pads
      the title. */
  predicate StoryTitled(s: StoryItem) {
    Titled(s.fields) && forall t :: t in ListOrEmpty(s.tasks) ==> Titled(t.fields)
  }

  predicate FeatureTitled(f: FeatureItem) {
    Titled(f.fields) && forall s :: s in ListOrEmpty(f.stories) ==> StoryTitled(s)
  }

  predicate EpicTitled(e: EpicItem) {
    Titled(e.fields) && forall f :: f in ListOrEmpty(e.features) ==> FeatureTitled(f)
  }

  predicate DocTitled(d: ProjectData) {
    forall e :: e in ListOrEmpty(d.epics) ==> EpicTitled(e)
  }

  /** The records in visiting order: a record, then its children's records
      (in `TasksWalk` and the like, the first `i` children). */
  function TasksWalk(ts: seq<TaskItem>, i: nat): seq<Visit>
    requires i <= |ts|
  {
    if i == 0 then [] else TasksWalk(ts, i - 1) + [VisitOf(Task, ts[i - 1].fields)]
  }

  function StoryWalk(s: StoryItem): seq<Visit> {
    var ts := ListOrEmpty(s.tasks);
    [VisitOf(UserStory, s.fields)] + TasksWalk(ts, |ts|)
  }

  function StoriesWalk(ss: seq<StoryItem>, i: nat): seq<Visit>
    requires i <= |ss|
  {
    if i == 0 then [] else StoriesWalk(ss, i - 1) + StoryWalk(ss[i - 1])
  }

  function FeatureWalk(f: FeatureItem): seq<Visit> {
    var ss := ListOrEmpty(f.stories);
    [VisitOf(Feature, f.fields)] + StoriesWalk(ss, |ss|)
  }

  function FeaturesWalk(fs: seq<FeatureItem>, i: nat): seq<Visit>
    requires i <= |fs|
  {
    if i == 0 then [] else FeaturesWalk(fs, i - 1) + FeatureWalk(fs[i - 1])
  }

  function EpicWalk(e: EpicItem): seq<Visit> {
    var fs := ListOrEmpty(e.features);
    [VisitOf(Epic, e.fields)] + FeaturesWalk(fs, |fs|)
  }

  function EpicsWalk(es: seq<EpicItem>, i: nat): seq<Visit>
    requires i <= |es|
  {
    if i == 0 then [] else EpicsWalk(es, i - 1) + EpicWalk(es[i - 1])
  }

  function DocWalk(d: ProjectData): seq<Visit> {
    var es := ListOrEmpty(d.epics);
    EpicsWalk(es, |es|)
  }

  /** `n` records all sent under `p`. */
  function Under(p: Option<int>, n: nat): (ps: seq<Option<int>>)
    ensures |ps| == n && forall k :: 0 <= k < n ==> ps[k] == p
  {
    if n == 0 then [] else Under(p, n - 1) + [p]
  }

  /** The parent each record of a walk is sent under, given the id each
      record resolved to (`ids`, in walk order): a story goes under the
      feature's argument and its tasks under the story's own resolved id,
      and so on up to the epics, which go under none. */
  function StoryParents(s: StoryItem, featureId: Option<int>, ids: seq<Option<int>>): seq<Option<int>>
    requires |ids| == |StoryWalk(s)|
  {
    [featureId] + Under(ids[0], |ListOrEmpty(s.tasks)|)
  }

  function StoriesParents(ss: seq<StoryItem>, i: nat, featureId: Option<int>, ids: seq<Option<int>>): seq<Option<int>>
    requires i <= |ss| && |ids| == |StoriesWalk(ss, i)|
  {
    if i == 0 then []
    else
      var l := |StoriesWalk(ss, i - 1)|;
      StoriesParents(ss, i - 1, featureId, ids[..l]) + StoryParents(ss[i - 1], featureId, ids[l..])
  }

  function FeatureParents(f: FeatureItem, epicId: Option<int>, ids: seq<Option<int>>): seq<Option<int>>
    requires |ids| == |FeatureWalk(f)|
  {
    var ss := ListOrEmpty(f.stories);
    [epicId] + StoriesParents(ss, |ss|, ids[0], ids[1..])
  }

  function FeaturesParents(fs: seq<FeatureItem>, i: nat, epicId: Option<int>, ids: seq<Option<int>>): seq<Option<int>>
    requires i <= |fs| && |ids| == |FeaturesWalk(fs, i)|
  {
    if i == 0 then []
    else
      var l := |FeaturesWalk(fs, i - 1)|;
      FeaturesParents(fs, i - 1, epicId, ids[..l]) + FeatureParents(fs[i - 1], epicId, ids[l..])
  }

  function EpicParents(e: EpicItem, ids: seq<Option<int>>): seq<Option<int>>
    requires |ids| == |EpicWalk(e)|
  {
    var fs := ListOrEmpty(e.features);
    [None] + FeaturesParents(fs, |fs|, ids[0], ids[1..])
  }

  function EpicsParents(es: seq<EpicItem>, i: nat, ids: seq<Option<int>>): seq<Option<int>>
    requires i <= |es| && |ids| == |EpicsWalk(es, i)|
  {
    if i == 0 then []
    else
      var l := |EpicsWalk(es, i - 1)|;
      EpicsParents(es, i - 1, ids[..l]) + EpicParents(es[i - 1], ids[l..])
  }

  function DocParents(d: ProjectData, ids: seq<Option<int>>): seq<Option<int>>
    requires |ids| == |DocWalk(d)|
  {
    var es := ListOrEmpty(d.epics);
    EpicsParents(es, |es|, ids)
  }

  // ---------------------------------------------------------------------
  // `upload_from_yaml`
  // ---------------------------------------------------------------------

  /** One record uploaded under `parentId`, then its id resolved as
      `_resolve_id` does: the new id, or the first item with its title. */
  method UploadRecord(c: DevOpsClient, wtype: string, fields: Fields, parentId: Option<int>)
    returns (r: UploadResult, id: Option<int>)
    requires StoreValid(c.items, c.nextId) && "title" in fields
    modifies c
    ensures StoreValid(c.items, c.nextId)
    ensures id == ResolveIdAsWritten(old(c.items), r, fields["title"])
    ensures Uploaded(old(c.items), c.items, [r], [VisitOf(wtype, fields)], [parentId], [id])
  {
    r := CreateAndTrack(c, wtype, BuildData(fields), parentId, None);
    id := ResolveIdAsWritten(c.items, r, fields["title"]);
  }

  /** The tasks loop: each task of a story, under the story's id. */
  method UploadTasks(c: DevOpsClient, tasks: seq<TaskItem>, storyId: Option<int>)
    returns (rs: seq<UploadResult>, ghost ids: seq<Option<int>>)
    requires StoreValid(c.items, c.nextId) && forall t :: t in tasks ==> Titled(t.fields)
    modifies c
    ensures StoreValid(c.items, c.nextId)
    ensures Uploaded(old(c.items), c.items, rs, TasksWalk(tasks, |tasks|), Under(storyId, |tasks|), ids)
  {
    ghost var o := c.items;
    rs, ids := [], [];
    UploadedNone(o);
    assert TasksWalk(tasks, 0) == [] && Under(storyId, 0) == [];
    var i := 0;
    while i < |tasks|
      invariant 0 <= i <= |tasks|
      invariant StoreValid(c.items, c.nextId)
      invariant Uploaded(o, c.items, rs, TasksWalk(tasks, i), Under(storyId, i), ids)
    {
      assert tasks[i] in tasks;
      rs, ids := UploadTask(c, o, rs, ids, tasks, i, storyId);
      i := i + 1;
    }
  }

  /** A story and, under its id, its tasks. */
  method UploadStory(c: DevOpsClient, s: StoryItem, featureId: Option<int>)
    returns (rs: seq<UploadResult>, ghost ids: seq<Option<int>>)
    requires StoreValid(c.items, c.nextId) && StoryTitled(s)
    modifies c
    ensures StoreValid(c.items, c.nextId) && |ids| == |StoryWalk(s)|
    ensures Uploaded(old(c.items), c.items, rs, StoryWalk(s), StoryParents(s, featureId, ids), ids)
  {
    var r, storyId := UploadRecord(c, UserStory, s.fields, featureId);
    ghost var mid := c.items;
    var tasks := ListOrEmpty(s.tasks);
    var sub, subIds := UploadTasks(c, tasks, storyId);
    UploadedAppend(old(c.items), mid, c.items, [r], sub, [VisitOf(UserStory, s.fields)],
                   TasksWalk(tasks, |tasks|), [featureId], Under(storyId, |tasks|), [storyId], subIds);
    rs, ids := [r] + sub, [storyId] + subIds;
  }

  /** The stories loop: each story of a feature, under the feature's id. */
  method UploadStories(c: DevOpsClient, stories: seq<StoryItem>, featureId: Option<int>)
    returns (rs: seq<UploadResult>, ghost ids: seq<Option<int>>)
    requires StoreValid(c.items, c.nextId) && forall s :: s in stories ==> StoryTitled(s)
    modifies c
    ensures StoreValid(c.items, c.nextId) && |ids| == |StoriesWalk(stories, |stories|)|
    ensures Uploaded(old(c.items), c.items, rs, StoriesWalk(stories, |stories|),
                     StoriesParents(stories, |stories|, featureId, ids), ids)
  {
    ghost var o := c.items;
    rs, ids := [], [];
    UploadedNone(o);
    assert StoriesWalk(stories, 0) == [] && StoriesParents(stories, 0, featureId, []) == [];
    var i := 0;
    while i < |stories|
      invariant 0 <= i <= |stories|
      invariant StoreValid(c.items, c.nextId) && |ids| == |StoriesWalk(stories, i)|
      invariant Uploaded(o, c.items, rs, StoriesWalk(stories, i), StoriesParents(stories, i, featureId, ids), ids)
    {
      assert stories[i] in stories;
      rs, ids := UploadNextStory(c, o, rs, ids, stories, i, featureId);
      i := i + 1;
    }
  }

  /** A feature and, under its id, its stories. */
  method UploadFeature(c: DevOpsClient, f: FeatureItem, epicId: Option<int>)
    returns (rs: seq<UploadResult>, ghost ids: seq<Option<int>>)
    requires StoreValid(c.items, c.nextId) && FeatureTitled(f)
    modifies c
    ensures StoreValid(c.items, c.nextId) && |ids| == |FeatureWalk(f)|
    ensures Uploaded(old(c.items), c.items, rs, FeatureWalk(f), FeatureParents(f, epicId, ids), ids)
  {
    var r, featureId := UploadRecord(c, Feature, f.fields, epicId);
    ghost var mid := c.items;
    var stories := ListOrEmpty(f.stories);
    var sub, subIds := UploadStories(c, stories, featureId);
    UploadedAppend(old(c.items), mid, c.items, [r], sub, [VisitOf(Feature, f.fields)],
                   StoriesWalk(stories, |stories|), [epicId], StoriesParents(stories, |stories|, featureId, subIds),
                   [featureId], subIds);
    rs, ids := [r] + sub, [featureId] + subIds;
    assert ids[1..] == subIds;
  }

  /** The features loop: each feature of an epic, under the epic's id. */
  method UploadFeatures(c: DevOpsClient, features: seq<FeatureItem>, epicId: Option<int>)
    returns (rs: seq<UploadResult>, ghost ids: seq<Option<int>>)
    requires StoreValid(c.items, c.nextId) && forall f :: f in features ==> FeatureTitled(f)
    modifies c
    ensures StoreValid(c.items, c.nextId) && |ids| == |FeaturesWalk(features, |features|)|
    ensures Uploaded(old(c.items), c.items, rs, FeaturesWalk(features, |features|),
                     FeaturesParents(features, |features|, epicId, ids), ids)
  {
    ghost var o := c.items;
    rs, ids := [], [];
    UploadedNone(o);
    assert FeaturesWalk(features, 0) == [] && FeaturesParents(features, 0, epicId, []) == [];
    var i := 0;
    while i < |features|
      invariant 0 <= i <= |features|
      invariant StoreValid(c.items, c.nextId) && |ids| == |FeaturesWalk(features, i)|
      invariant Uploaded(o, c.items, rs, FeaturesWalk(features, i), FeaturesParents(features, i, epicId, ids), ids)
    {
      assert features[i] in features;
      rs, ids := UploadNextFeature(c, o, rs, ids, features, i, epicId);
      i := i + 1;
    }
  }

  /** An epic, at the top level, and under its id its features. */
  method UploadEpic(c: DevOpsClient, e: EpicItem) returns (rs: seq<UploadResult>, ghost ids: seq<Option<int>>)
    requires StoreValid(c.items, c.nextId) && EpicTitled(e)
    modifies c
    ensures StoreValid(c.items, c.nextId) && |ids| == |EpicWalk(e)|
    ensures Uploaded(old(c.items), c.items, rs, EpicWalk(e), EpicParents(e, ids), ids)
  {
    var r, epicId := UploadRecord(c, Epic, e.fields, None);
    ghost var mid := c.items;
    var features := ListOrEmpty(e.features);
    var sub, subIds := UploadFeatures(c, features, epicId);
    UploadedAppend(old(c.items), mid, c.items, [r], sub, [VisitOf(Epic, e.fields)],
                   FeaturesWalk(features, |features|), [None], FeaturesParents(features, |features|, epicId, subIds),
                   [epicId], subIds);
    rs, ids := [r] + sub, [epicId] + subIds;
    assert ids[1..] == subIds;
  }

  /** The epics loop: each epic of the template. */
  method UploadEpics(c: DevOpsClient, epics: seq<EpicItem>) returns (rs: seq<UploadResult>, ghost ids: seq<Option<int>>)
    requires StoreValid(c.items, c.nextId) && forall e :: e in epics ==> EpicTitled(e)
    modifies c
    ensures StoreValid(c.items, c.nextId) && |ids| == |EpicsWalk(epics, |epics|)|
    ensures Uploaded(old(c.items), c.items, rs, EpicsWalk(epics, |epics|), EpicsParents(epics, |epics|, ids), ids)
  {
    ghost var o := c.items;
    rs, ids := [], [];
    UploadedNone(o);
    assert EpicsWalk(epics, 0) == [] && EpicsParents(epics, 0, []) == [];
    var i := 0;
    while i < |epics|
      invariant 0 <= i <= |epics|
      invariant StoreValid(c.items, c.nextId) && |ids| == |EpicsWalk(epics, i)|
      invariant Uploaded(o, c.items, rs, EpicsWalk(epics, i), EpicsParents(epics, i, ids), ids)
    {
      assert epics[i] in epics;
      rs, ids := UploadNextEpic(c, o, rs, ids, epics, i);
      i := i + 1;
    }
  }

  /** One pass of the tasks loop: task `i` created under the story's id
      after the results so far; a task's id is not resolved, but `ids`
      records what the lookup would give. */
  method UploadTask(c: DevOpsClient, ghost o: seq<StoredItem>, rs: seq<UploadResult>, ghost ids: seq<Option<int>>,
                    tasks: seq<TaskItem>, i: nat, storyId: Option<int>)
    returns (rs': seq<UploadResult>, ghost ids': seq<Option<int>>)
    requires i < |tasks| && "title" in tasks[i].fields
    requires StoreValid(c.items, c.nextId) && Uploaded(o, c.items, rs, TasksWalk(tasks, i), Under(storyId, i), ids)
    modifies c
    ensures StoreValid(c.items, c.nextId)
    ensures Uploaded(o, c.items, rs', TasksWalk(tasks, i + 1), Under(storyId, i + 1), ids')
  {
    ghost var mid := c.items;
    var t := CreateAndTrack(c, Task, BuildData(tasks[i].fields), storyId, None);
    ghost var id := ResolveIdAsWritten(mid, t, t.title);
    UploadedAppend(o, mid, c.items, rs, [t], TasksWalk(tasks, i), [VisitOf(Task, tasks[i].fields)],
                   Under(storyId, i), [storyId], ids, [id]);
    rs', ids' := rs + [t], ids + [id];
  }

  /** The parents of the first `i + 1` stories: those of the first `i`,
      then those of story `i`. */
  lemma StoriesParentsNext(ss: seq<StoryItem>, i: nat, featureId: Option<int>,
                           ids: seq<Option<int>>, sub: seq<Option<int>>)
    requires i < |ss| && |ids| == |StoriesWalk(ss, i)| && |sub| == |StoryWalk(ss[i])|
    ensures |ids + sub| == |StoriesWalk(ss, i + 1)|
    ensures StoriesParents(ss, i + 1, featureId, ids + sub)
      == StoriesParents(ss, i, featureId, ids) + StoryParents(ss[i], featureId, sub)
  {
    assert (ids + sub)[..|ids|] == ids;
    assert (ids + sub)[|ids|..] == sub;
  }

  lemma FeaturesParentsNext(fs: seq<FeatureItem>, i: nat, epicId: Option<int>,
                            ids: seq<Option<int>>, sub: seq<Option<int>>)
    requires i < |fs| && |ids| == |FeaturesWalk(fs, i)| && |sub| == |FeatureWalk(fs[i])|
    ensures |ids + sub| == |FeaturesWalk(fs, i + 1)|
    ensures FeaturesParents(fs, i + 1, epicId, ids + sub)
      == FeaturesParents(fs, i, epicId, ids) + FeatureParents(fs[i], epicId, sub)
  {
    assert (ids + sub)[..|ids|] == ids;
    assert (ids + sub)[|ids|..] == sub;
  }

  lemma EpicsParentsNext(es: seq<EpicItem>, i: nat, ids: seq<Option<int>>, sub: seq<Option<int>>)
    requires i < |es| && |ids| == |EpicsWalk(es, i)| && |sub| == |EpicWalk(es[i])|
    ensures |ids + sub| == |EpicsWalk(es, i + 1)|
    ensures EpicsParents(es, i + 1, ids + sub) == EpicsParents(es, i, ids) + EpicParents(es[i], sub)
  {
    assert (ids + sub)[..|ids|] == ids;
    assert (ids + sub)[|ids|..] == sub;
  }

  /** One pass of the stories loop. */
  method UploadNextStory(c: DevOpsClient, ghost o: seq<StoredItem>, rs: seq<UploadResult>, ghost ids: seq<Option<int>>,
                         stories: seq<StoryItem>, i: nat, featureId: Option<int>)
    returns (rs': seq<UploadResult>, ghost ids': seq<Option<int>>)
    requires i < |stories| && StoryTitled(stories[i])
    requires StoreValid(c.items, c.nextId) && |ids| == |StoriesWalk(stories, i)|
    requires Uploaded(o, c.items, rs, StoriesWalk(stories, i), StoriesParents(stories, i, featureId, ids), ids)
    modifies c
    ensures StoreValid(c.items, c.nextId) && |ids'| == |StoriesWalk(stories, i + 1)|
    ensures Uploaded(o, c.items, rs', StoriesWalk(stories, i + 1), StoriesParents(stories, i + 1, featureId, ids'), ids')
  {
    ghost var mid := c.items;
    var sub, subIds := UploadStory(c, stories[i], featureId);
    UploadedAppend(o, mid, c.items, rs, sub, StoriesWalk(stories, i), StoryWalk(stories[i]),
                   StoriesParents(stories, i, featureId, ids), StoryParents(stories[i], featureId, subIds), ids, subIds);
    StoriesParentsNext(stories, i, featureId, ids, subIds);
    rs', ids' := rs + sub, ids + subIds;
  }

  /** One pass of the features loop. */
  method UploadNextFeature(c: DevOpsClient, ghost o: seq<StoredItem>, rs: seq<UploadResult>, ghost ids: seq<Option<int>>,
                           features: seq<FeatureItem>, i: nat, epicId: Option<int>)
    returns (rs': seq<UploadResult>, ghost ids': seq<Option<int>>)
    requires i < |features| && FeatureTitled(features[i])
    requires StoreValid(c.items, c.nextId) && |ids| == |FeaturesWalk(features, i)|
    requires Uploaded(o, c.items, rs, FeaturesWalk(features, i), FeaturesParents(features, i, epicId, ids), ids)
    modifies c
    ensures StoreValid(c.items, c.nextId) && |ids'| == |FeaturesWalk(features, i + 1)|
    ensures Uploaded(o, c.items, rs', FeaturesWalk(features, i + 1), FeaturesParents(features, i + 1, epicId, ids'), ids')
  {
    ghost var mid := c.items;
    var sub, subIds := UploadFeature(c, features[i], epicId);
    UploadedAppend(o, mid, c.items, rs, sub, FeaturesWalk(features, i), FeatureWalk(features[i]),
                   FeaturesParents(features, i, epicId, ids), FeatureParents(features[i], epicId, subIds), ids, subIds);
    FeaturesParentsNext(features, i, epicId, ids, subIds);
    rs', ids' := rs + sub, ids + subIds;
  }

  /** One pass of the epics loop. */
  method UploadNextEpic(c: DevOpsClient, ghost o: seq<StoredItem>, rs: seq<UploadResult>, ghost ids: seq<Option<int>>,
                        epics: seq<EpicItem>, i: nat)
    returns (rs': seq<UploadResult>, ghost ids': seq<Option<int>>)
    requires i < |epics| && EpicTitled(epics[i])
    requires StoreValid(c.items, c.nextId) && |ids| == |EpicsWalk(epics, i)|
    requires Uploaded(o, c.items, rs, EpicsWalk(epics, i), EpicsParents(epics, i, ids), ids)
    modifies c
    ensures StoreValid(c.items, c.nextId) && |ids'| == |EpicsWalk(epics, i + 1)|
    ensures Uploaded(o, c.items, rs', EpicsWalk(epics, i + 1), EpicsParents(epics, i + 1, ids'), ids')
  {
    ghost var mid := c.items;
    var sub, subIds := UploadEpic(c, epics[i]);
    UploadedAppend(o, mid, c.items, rs, sub, EpicsWalk(epics, i), EpicWalk(epics[i]),
                   EpicsParents(epics, i, ids), EpicParents(epics[i], subIds), ids, subIds);
    EpicsParentsNext(epics, i, ids, subIds);
    rs', ids' := rs + sub, ids + subIds;
  }

  /** An upload into an empty store: every record visited once and none
      an error; when no two titles repeat, every record created and
      resolved to its own new id, so each item sits under the item just
      created for its parent record; and the created records are the
      stored items, so their ids ascend like the store's. */
  lemma UploadedFromEmpty(items: seq<StoredItem>, nextId: int, rs: seq<UploadResult>, w: seq<Visit>,
                          ps: seq<Option<int>>, ids: seq<Option<int>>)
    requires StoreValid(items, nextId) && Uploaded([], items, rs, w, ps, ids)
    ensures Matched(rs, w) && NoErrors(rs)
    ensures Distinct(w) ==> AllCreated(rs) && forall i :: 0 <= i < |rs| ==> ids[i] == rs[i].id
    ensures forall i, j :: 0 <= i < j < |CreatedOf(rs)| ==>
      CreatedOf(rs)[i].id < CreatedOf(rs)[j].id
  {
    if Distinct(w) {
      DistinctAllCreated(items, rs, w, ids);
    }
    CreatedAscending(items, nextId, rs);
  }

  lemma DistinctAllCreated(items: seq<StoredItem>, rs: seq<UploadResult>, w: seq<Visit>, ids: seq<Option<int>>)
    requires Matched(rs, w) && Distinct(w) && SkipsRepeat([], rs, w) && Resolved(items, rs, ids)
    ensures AllCreated(rs) && forall i :: 0 <= i < |rs| ==> ids[i] == rs[i].id
  {
    forall i | 0 <= i < |rs|
      ensures IsCreated(rs[i]) && ids[i] == rs[i].id
    {
    }
  }

  lemma CreatedAscending(items: seq<StoredItem>, nextId: int, rs: seq<UploadResult>)
    requires StoreValid(items, nextId) && Summary(items) == Summary([]) + CreatedOf(rs)
    ensures forall i, j :: 0 <= i < j < |CreatedOf(rs)| ==> CreatedOf(rs)[i].id < CreatedOf(rs)[j].id
  {
    assert Summary([]) == [];
    forall i, j | 0 <= i < j < |CreatedOf(rs)|
      ensures CreatedOf(rs)[i].id < CreatedOf(rs)[j].id
    {
      assert Summary(items)[i].id == items[i].id;
      assert Summary(items)[j].id == items[j].id;
    }
  }

  /** `upload_from_yaml(data, org, project, pat)` on a client without
      credentials: a record without a string title raises (a KeyError or
      a TypeError); otherwise one result per record in visiting order,
      none an error, each record skipped exactly when an item with its
      title sat under its parent in the store it met and otherwise created
      as the item built from its data, every record created when no two
      titles repeat, and the new ids ascending in creation order. `store`
      is the service's store at the end, `ids` the id each record
      resolved to. */
  method UploadFromYaml(data: ProjectData)
    returns (r: Result<seq<UploadResult>>, ghost store: seq<StoredItem>, ghost ids: seq<Option<int>>)
    ensures r.Success? <==> DocTitled(data)
    ensures r.Success? ==> Matched(r.value, DocWalk(data)) && NoErrors(r.value)
    ensures r.Success? ==> (|ids| == |DocWalk(data)|
      && Uploaded([], store, r.value, DocWalk(data), DocParents(data, ids), ids))
    ensures r.Success? && Distinct(DocWalk(data)) ==> AllCreated(r.value)
    ensures r.Success? ==> var made := CreatedOf(r.value);
      forall i, j :: 0 <= i < j < |made| ==> made[i].id < made[j].id
  {
    if !DocTitled(data) {
      return Failure("KeyError or TypeError: 'title'"), [], [];
    }
    var c := new DevOpsClient();
    var rs;
    rs, ids := UploadEpics(c, ListOrEmpty(data.epics));
    store := c.items;
    UploadedFromEmpty(c.items, c.nextId, rs, DocWalk(data), DocParents(data, ids), ids);
    return Success(rs), store, ids;
  }
}
