/** Work-item types, the per-type allow-list of API data fields, and the
    record shapes of a project template (epic > feature > story > task). */
module Models {
  import opened Common

  const Epic: string := "Epic"
  const Feature: string := "Feature"
  const UserStory: string := "User Story"
  const Task: string := "Task"

  /** The four work-item types, top level first. */
  const WorkItemTypes: seq<string> := [Epic, Feature, UserStory, Task]

  predicate KnownType(t: string) { t in WorkItemTypes }

  /** The fields an API data dict may carry for each type; None for a type
      the allow-list does not know. */
  function AllowedDataFields(t: string): (r: Option<set<string>>)
    ensures r.Some? <==> KnownType(t)
    ensures r.Some? ==> {"title", "description", "iteration_path"} <= r.value
  {
    if t == Epic || t == Feature then Some({"title", "description", "iteration_path"})
    else if t == UserStory then
      Some({"title", "description", "acceptance_criteria", "story_points", "iteration_path"})
    else if t == Task then Some({"title", "description", "estimate", "iteration_path"})
    else None
  }

  /** The data dict restricted to the fields allowed for the type; an
      unknown type is an error naming it. */
  function BuildWorkItemData(t: string, data: Fields): (r: Result<Fields>)
    ensures !KnownType(t) <==> r == Failure("Unknown work item type: " + t)
    ensures r.Success? ==>
      && r.value.Keys <= AllowedDataFields(t).value
      && (forall k :: k in r.value ==> k in data && r.value[k] == data[k])
      && (forall k :: k in data && k in AllowedDataFields(t).value ==> k in r.value)
  {
    match AllowedDataFields(t)
    case None => Failure("Unknown work item type: " + t)
    case Some(allowed) => Success(map k | k in data && k in allowed :: data[k])
  }

  /** A type outside the four, such as "Bug", is refused. */
  lemma UnknownTypeRejected(data: Fields)
    ensures BuildWorkItemData("Bug", data) == Failure("Unknown work item type: Bug")
  {
  }

  /** Epics and features carry none of the level-specific fields. */
  lemma EpicFeatureFieldsOnly(t: string, data: Fields)
    requires t == Epic || t == Feature
    ensures BuildWorkItemData(t, data).Success?
    ensures var r := BuildWorkItemData(t, data).value;
      "story_points" !in r && "estimate" !in r && "acceptance_criteria" !in r
  {
  }

  /** User stories keep story points and acceptance criteria, never an estimate. */
  lemma StoryFields(data: Fields)
    ensures BuildWorkItemData(UserStory, data).Success?
    ensures var r := BuildWorkItemData(UserStory, data).value;
      "estimate" !in r
      && ("story_points" in data ==> "story_points" in r && r["story_points"] == data["story_points"])
      && ("acceptance_criteria" in data ==> "acceptance_criteria" in r)
  {
  }

  /** Tasks keep the estimate, never story points or acceptance criteria. */
  lemma TaskFields(data: Fields)
    ensures BuildWorkItemData(Task, data).Success?
    ensures var r := BuildWorkItemData(Task, data).value;
      "story_points" !in r && "acceptance_criteria" !in r
      && ("estimate" in data ==> "estimate" in r && r["estimate"] == data["estimate"])
  {
  }

  /** The iteration path survives the filter for every known type. */
  lemma IterationPathKept(t: string, data: Fields)
    requires KnownType(t) && "iteration_path" in data
    ensures BuildWorkItemData(t, data).Success?
    ensures BuildWorkItemData(t, data).value["iteration_path"] == data["iteration_path"]
  {
  }

  /** Filtering its own output changes nothing. */
  lemma BuildWorkItemDataIdempotent(t: string, data: Fields)
    requires KnownType(t)
    ensures BuildWorkItemData(t, BuildWorkItemData(t, data).value) == BuildWorkItemData(t, data)
  {
    var r := BuildWorkItemData(t, data).value;
    assert BuildWorkItemData(t, r).value == r;
  }

  // ---------------------------------------------------------------------
  // Template record shapes
  // ---------------------------------------------------------------------

  /** A node's scalar keys live in `fields`; its list of children is held
      apart, None when the key is absent. */
  datatype TaskItem = TaskItem(fields: Fields)
  datatype StoryItem = StoryItem(fields: Fields, tasks: Option<seq<TaskItem>>)
  datatype FeatureItem = FeatureItem(fields: Fields, stories: Option<seq<StoryItem>>)
  datatype EpicItem = EpicItem(fields: Fields, features: Option<seq<FeatureItem>>)
  datatype ProjectData = ProjectData(epics: Option<seq<EpicItem>>)

  /** `d.get(key, [])` for a child list. */
  function ListOrEmpty<T>(o: Option<seq<T>>): seq<T> {
    match o
    case None => []
    case Some(l) => l
  }

  /** A value used as text: falsy (None, "") or a string. */
  predicate IsText(v: Value) { !Truthy(v) || v.Str? }

  /** A text field: absent, falsy, or a string. */
  predicate TextLike(f: Fields, k: string) { k in f ==> IsText(f[k]) }

  /** A list-of-names field: absent, falsy, or a list of strings. */
  predicate NamesLike(f: Fields, k: string) { k in f ==> !Truthy(f[k]) || f[k].Strs? }

  /** Every record has a string title (the field is required). */
  predicate Titled(f: Fields) { "title" in f && f["title"].Str? }

  function Title(f: Fields): string
    requires Titled(f)
  {
    f["title"].s
  }

  /** A title that `.lower()` can be called on: a string, or no title at
      all, which `get("title", "")` reads as the empty string. */
  predicate TitleReadable(f: Fields) { "title" in f ==> f["title"].Str? }

  /** `f.get("title", "")` of a readable title. */
  function TitleOrEmpty(f: Fields): (t: string)
    requires TitleReadable(f)
    ensures Titled(f) ==> t == Title(f)
    ensures "title" !in f ==> t == ""
  {
    if "title" in f then f["title"].s else ""
  }

  predicate TaskShape(t: TaskItem) { Titled(t.fields) && TextLike(t.fields, "description") }

  predicate StoryShape(s: StoryItem) {
    && Titled(s.fields)
    && TextLike(s.fields, "description")
    && TextLike(s.fields, "acceptance_criteria")
    && NamesLike(s.fields, "default_instances")
    && (s.tasks.Some? ==> forall i :: 0 <= i < |s.tasks.value| ==> TaskShape(s.tasks.value[i]))
  }

  predicate FeatureShape(f: FeatureItem) {
    && Titled(f.fields)
    && TextLike(f.fields, "description")
    && NamesLike(f.fields, "default_instances")
    && (f.stories.Some? ==> forall i :: 0 <= i < |f.stories.value| ==> StoryShape(f.stories.value[i]))
  }

  predicate EpicShape(e: EpicItem) {
    e.features.Some? ==> forall i :: 0 <= i < |e.features.value| ==> FeatureShape(e.features.value[i])
  }

  /** The shape the expansion and override passes rely on. */
  predicate DocShape(d: ProjectData) {
    d.epics.Some? ==> forall i :: 0 <= i < |d.epics.value| ==> EpicShape(d.epics.value[i])
  }
}
