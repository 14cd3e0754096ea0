/** `tree_to_yaml_structure`: a fetched forest turned back into a project
    template. Each level keeps only the fields its type allows, empty
    fields are dropped, rich text is cleaned, and only children of the
    level below (epic > feature > user story > task) are kept. */
module TreeYaml {
  import opened Common
  import opened Models
  import opened WorkItems
  import opened TreeBuild
  import opened HtmlText

  /** The record fields of one node: the title always; the id, state,
      cleaned description and iteration path when non-empty; the cleaned
      acceptance criteria and the story points for a user story; the
      estimate for a task. */
  function ItemFields(x: Item): (f: Fields)
    ensures "title" in f && f["title"] == Str(x.title)
    ensures ("id" in f <==> x.id != 0) && ("id" in f ==> f["id"] == Int(x.id))
    ensures ("state" in f <==> x.state != "") && ("state" in f ==> f["state"] == Str(x.state))
    ensures ("description" in f <==> CleanHtml(x.description) != "")
      && ("description" in f ==> f["description"] == Str(CleanHtml(x.description)))
    ensures ("acceptance_criteria" in f <==> x.wtype == UserStory && CleanHtml(x.acceptanceCriteria) != "")
      && ("acceptance_criteria" in f ==> f["acceptance_criteria"] == Str(CleanHtml(x.acceptanceCriteria)))
    ensures ("story_points" in f <==> x.wtype == UserStory && x.storyPoints.Some?)
      && ("story_points" in f ==> f["story_points"] == Int(x.storyPoints.value))
    ensures ("estimate" in f <==> x.wtype == Task && x.estimate.Some?)
      && ("estimate" in f ==> f["estimate"] == Int(x.estimate.value))
    ensures ("iteration_path" in f <==> x.iterationPath != "")
      && ("iteration_path" in f ==> f["iteration_path"] == Str(x.iterationPath))
    ensures f.Keys <= RecordKeys
  {
    var desc, ac := CleanHtml(x.description), CleanHtml(x.acceptanceCriteria);
    RecordFields(x, desc, ac);
    Record(x, desc, ac)
  }

  /** The keys a record may carry. */
  const RecordKeys: set<string> := {"title", "id", "state", "description", "acceptance_criteria",
                                    "story_points", "estimate", "iteration_path"}

  /** What the record builder writes under key `k`, given the cleaned
      description and acceptance criteria. */
  function FieldOf(x: Item, desc: string, ac: string, k: string): Option<Value> {
    if k == "title" then Some(Str(x.title))
    else if k == "id" then (if x.id != 0 then Some(Int(x.id)) else None)
    else if k == "state" then (if x.state != "" then Some(Str(x.state)) else None)
    else if k == "description" then (if desc != "" then Some(Str(desc)) else None)
    else if k == "acceptance_criteria" then
      (if x.wtype == UserStory && ac != "" then Some(Str(ac)) else None)
    else if k == "story_points" then
      (if x.wtype == UserStory && x.storyPoints.Some? then Some(Int(x.storyPoints.value)) else None)
    else if k == "estimate" then
      (if x.wtype == Task && x.estimate.Some? then Some(Int(x.estimate.value)) else None)
    else if k == "iteration_path" then
      (if x.iterationPath != "" then Some(Str(x.iterationPath)) else None)
    else None
  }

  /** The record: every record key under which the builder writes. */
  function Record(x: Item, desc: string, ac: string): Fields {
    map k | k in RecordKeys && FieldOf(x, desc, ac, k).Some? :: FieldOf(x, desc, ac, k).value
  }

  /** What each key of the record holds. */
  lemma RecordFields(x: Item, desc: string, ac: string)
    ensures var f := Record(x, desc, ac);
      && "title" in f && f["title"] == Str(x.title)
      && ("id" in f <==> x.id != 0) && ("id" in f ==> f["id"] == Int(x.id))
      && ("state" in f <==> x.state != "") && ("state" in f ==> f["state"] == Str(x.state))
      && ("description" in f <==> desc != "") && ("description" in f ==> f["description"] == Str(desc))
      && ("acceptance_criteria" in f <==> x.wtype == UserStory && ac != "")
      && ("acceptance_criteria" in f ==> f["acceptance_criteria"] == Str(ac))
      && ("story_points" in f <==> x.wtype == UserStory && x.storyPoints.Some?)
      && ("story_points" in f ==> f["story_points"] == Int(x.storyPoints.value))
      && ("estimate" in f <==> x.wtype == Task && x.estimate.Some?)
      && ("estimate" in f ==> f["estimate"] == Int(x.estimate.value))
      && ("iteration_path" in f <==> x.iterationPath != "")
      && ("iteration_path" in f ==> f["iteration_path"] == Str(x.iterationPath))
      && f.Keys <= RecordKeys
  {
  }

  /** The children of `n` whose type is `t`, in order. */
  function KidsOf(n: Node, t: string): seq<Node> {
    Filter(n.children, (c: Node) => c.item.wtype == t)
  }

  /** A child list is written only when it is non-empty. */
  function NonEmpty<T>(s: seq<T>): Option<seq<T>> {
    if s == [] then None else Some(s)
  }

  function TaskRecord(n: Node): TaskItem {
    TaskItem(ItemFields(n.item))
  }

  function StoryRecord(n: Node): StoryItem {
    var kids := KidsOf(n, Task);
    StoryItem(ItemFields(n.item), NonEmpty(seq(|kids|, i requires 0 <= i < |kids| => TaskRecord(kids[i]))))
  }

  function FeatureRecord(n: Node): FeatureItem {
    var kids := KidsOf(n, UserStory);
    FeatureItem(ItemFields(n.item), NonEmpty(seq(|kids|, i requires 0 <= i < |kids| => StoryRecord(kids[i]))))
  }

  function EpicRecord(n: Node): EpicItem {
    var kids := KidsOf(n, Feature);
    EpicItem(ItemFields(n.item), NonEmpty(seq(|kids|, i requires 0 <= i < |kids| => FeatureRecord(kids[i]))))
  }

  /** `tree_to_yaml_structure(tree)`: the epics among the roots, in order. */
  function TreeToYaml(tree: seq<Node>): ProjectData {
    var epics := Filter(tree, (n: Node) => n.item.wtype == Epic);
    ProjectData(Some(seq(|epics|, i requires 0 <= i < |epics| => EpicRecord(epics[i]))))
  }

  // ---------------------------------------------------------------------
  // What the records hold
  // ---------------------------------------------------------------------

  /** Apart from the id and state read back from the server, a record
      carries only the data fields its type allows. */
  lemma ItemFieldsAllowed(x: Item)
    requires KnownType(x.wtype)
    ensures ItemFields(x).Keys - {"id", "state"} <= AllowedDataFields(x.wtype).value
  {
    var f := ItemFields(x);
    assert x.wtype in [Epic, Feature, UserStory, Task];
    forall k | k in f.Keys - {"id", "state"}
      ensures k in AllowedDataFields(x.wtype).value
    {
      assert k in RecordKeys;
      if k == "acceptance_criteria" || k == "story_points" {
        assert x.wtype == UserStory;
      } else if k == "estimate" {
        assert x.wtype == Task;
      } else {
        assert k in {"title", "description", "iteration_path"};
      }
    }
  }

  /** Epic and feature records never carry story points, an estimate or
      acceptance criteria; story records never an estimate; task records
      never story points or acceptance criteria. */
  lemma LevelFields(x: Item)
    ensures x.wtype == Epic || x.wtype == Feature ==>
      "story_points" !in ItemFields(x) && "estimate" !in ItemFields(x)
      && "acceptance_criteria" !in ItemFields(x)
    ensures x.wtype == UserStory ==> "estimate" !in ItemFields(x)
    ensures x.wtype == Task ==>
      "story_points" !in ItemFields(x) && "acceptance_criteria" !in ItemFields(x)
  {
  }

  /** Written rich text carries no tag and no surrounding whitespace. */
  lemma ItemTextClean(x: Item)
    ensures var f := ItemFields(x);
      && ("description" in f ==> NoTag(f["description"].s) && Trimmed(f["description"].s))
      && ("acceptance_criteria" in f ==> NoTag(f["acceptance_criteria"].s) && Trimmed(f["acceptance_criteria"].s))
  {
    var desc, ac := CleanHtml(x.description), CleanHtml(x.acceptanceCriteria);
    assert NoTag(desc) && Trimmed(desc);
    assert NoTag(ac) && Trimmed(ac);
    RecordFields(x, desc, ac);
  }

  predicate Trimmed(s: string) {
    s != [] ==> !IsSpace(s[0]) && !IsSpace(s[|s| - 1])
  }

  /** Each level lists exactly its children of the level below, in order,
      one record per child; an absent list means there were none. */
  lemma RecordChildren(n: Node)
    ensures var kids := KidsOf(n, Feature); var r := EpicRecord(n);
      (r.features.None? <==> kids == [])
      && |ListOrEmpty(r.features)| == |kids|
      && forall i :: 0 <= i < |kids| ==> ListOrEmpty(r.features)[i] == FeatureRecord(kids[i])
    ensures var kids := KidsOf(n, UserStory); var r := FeatureRecord(n);
      (r.stories.None? <==> kids == [])
      && |ListOrEmpty(r.stories)| == |kids|
      && forall i :: 0 <= i < |kids| ==> ListOrEmpty(r.stories)[i] == StoryRecord(kids[i])
    ensures var kids := KidsOf(n, Task); var r := StoryRecord(n);
      (r.tasks.None? <==> kids == [])
      && |ListOrEmpty(r.tasks)| == |kids|
      && forall i :: 0 <= i < |kids| ==> ListOrEmpty(r.tasks)[i] == TaskRecord(kids[i])
  {
  }

  /** Every child kept is a child of the node, of the level below. */
  lemma KidsOfTyped(n: Node, t: string, c: Node)
    requires c in KidsOf(n, t)
    ensures c in n.children && c.item.wtype == t
  {
    MemberOfFilter(n.children, (c: Node) => c.item.wtype == t, c);
  }

  /** The epics written are the epic roots, in order. */
  lemma TreeToYamlEpics(tree: seq<Node>)
    ensures var epics := Filter(tree, (n: Node) => n.item.wtype == Epic);
      var d := TreeToYaml(tree);
      d.epics.Some? && |d.epics.value| == |epics|
      && forall i :: 0 <= i < |epics| ==> d.epics.value[i] == EpicRecord(epics[i])
  {
  }

  lemma TaskRecordShape(n: Node)
    ensures TaskShape(TaskRecord(n))
  {
  }

  lemma StoryRecordShape(n: Node)
    ensures StoryShape(StoryRecord(n))
  {
    var r := StoryRecord(n);
    if r.tasks.Some? {
      forall i | 0 <= i < |r.tasks.value|
        ensures TaskShape(r.tasks.value[i])
      {
        TaskRecordShape(KidsOf(n, Task)[i]);
      }
    }
  }

  lemma FeatureRecordShape(n: Node)
    ensures FeatureShape(FeatureRecord(n))
  {
    var r := FeatureRecord(n);
    if r.stories.Some? {
      forall i | 0 <= i < |r.stories.value|
        ensures StoryShape(r.stories.value[i])
      {
        StoryRecordShape(KidsOf(n, UserStory)[i]);
      }
    }
  }

  lemma EpicRecordShape(n: Node)
    ensures EpicShape(EpicRecord(n))
  {
    var r := EpicRecord(n);
    if r.features.Some? {
      forall i | 0 <= i < |r.features.value|
        ensures FeatureShape(r.features.value[i])
      {
        FeatureRecordShape(KidsOf(n, Feature)[i]);
      }
    }
  }

  /** The document has the shape a template must have: every record titled,
      its text fields strings, and every child list of records of the right
      kind. */
  lemma TreeToYamlShape(tree: seq<Node>)
    ensures DocShape(TreeToYaml(tree))
  {
    var epics := Filter(tree, (n: Node) => n.item.wtype == Epic);
    var d := TreeToYaml(tree);
    forall i | 0 <= i < |d.epics.value|
      ensures EpicShape(d.epics.value[i])
    {
      EpicRecordShape(epics[i]);
    }
  }
}
