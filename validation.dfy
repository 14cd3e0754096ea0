/** Structural validation of a project template (the list of error
    messages) and the count of epics, features, stories and tasks. */
module Validation {
  import opened Common
  import opened Models

  /** Python's `str()` of a value, as interpolated into a message. */
  function Display(v: Value): string {
    match v
    case Null => "None"
    case Bool(b) => if b then "True" else "False"
    case Int(i) => IntToString(i)
    case Str(s) => s
    case Strs(xs) => "[" + Join(seq(|xs|, i requires 0 <= i < |xs| => "'" + xs[i] + "'"), ", ") + "]"
  }

  /** `d.get(key)` is truthy. */
  predicate Has(f: Fields, key: string) { Truthy(Get(f, key, Null)) }

  /** `d.get('title', n)` as shown in a message. */
  function Label(f: Fields, n: nat): string { Display(Get(f, "title", Int(n))) }

  /** One problem `validate_template` reports; `Message` renders it as the
      text the program appends. */
  datatype Issue =
    | NoEpics
    | EpicTitle(i: nat)
    | FeatureTitle(i: nat, j: nat)
    | StoryTitle(featureLabel: string, k: nat)
    | StoryDescription(storyLabel: string)
    | StoryCriteria(storyLabel: string)
    | TaskTitle(storyLabel: string, m: nat)
    | TaskEstimate(taskLabel: string)

  /** The text of an issue; indices are shown counting from one. */
  function Message(issue: Issue): string {
    match issue
    case NoEpics => "Template must contain at least one epic."
    case EpicTitle(i) => "Epic " + NatToString(i + 1) + ": missing title."
    case FeatureTitle(i, j) => "Epic " + NatToString(i + 1) + ", Feature " + NatToString(j + 1) + ": missing title."
    case StoryTitle(f, k) => "Feature '" + f + "', Story " + NatToString(k + 1) + ": missing title."
    case StoryDescription(s) => "Story '" + s + "': missing description."
    case StoryCriteria(s) => "Story '" + s + "': missing acceptance_criteria."
    case TaskTitle(s, m) => "Story '" + s + "', Task " + NatToString(m + 1) + ": missing title."
    case TaskEstimate(t) => "Task '" + t + "': missing estimate."
  }

  /** The messages of a list of issues, in order. */
  function Messages(issues: seq<Issue>): (r: seq<string>)
    ensures |r| == |issues|
    ensures forall i :: 0 <= i < |issues| ==> r[i] == Message(issues[i])
  {
    seq(|issues|, i requires 0 <= i < |issues| => Message(issues[i]))
  }

  lemma MessagesAppend(a: seq<Issue>, b: seq<Issue>)
    ensures Messages(a + b) == Messages(a) + Messages(b)
  {
    assert forall i :: 0 <= i < |a + b| ==> Messages(a + b)[i] == (Messages(a) + Messages(b))[i];
  }

  lemma MessagesMember(issues: seq<Issue>, x: Issue)
    requires x in issues
    ensures Message(x) in Messages(issues)
  {
    var i :| 0 <= i < |issues| && issues[i] == x;
    assert Messages(issues)[i] == Message(x);
  }

  function TaskIssues(storyLabel: string, m: nat, t: TaskItem): seq<Issue> {
    (if !Has(t.fields, "title") then [TaskTitle(storyLabel, m)] else [])
    + (if !Has(t.fields, "estimate") then [TaskEstimate(Label(t.fields, m + 1))] else [])
  }

  function TasksIssues(storyLabel: string, ts: seq<TaskItem>): seq<Issue> {
    if ts == [] then []
    else TasksIssues(storyLabel, ts[..|ts| - 1]) + TaskIssues(storyLabel, |ts| - 1, ts[|ts| - 1])
  }

  /** The story's own checks, before its tasks. */
  function StoryOwnIssues(featureLabel: string, k: nat, s: StoryItem): seq<Issue> {
    (if !Has(s.fields, "title") then [StoryTitle(featureLabel, k)] else [])
    + (if !Has(s.fields, "description") then [StoryDescription(Label(s.fields, k + 1))] else [])
    + (if !Has(s.fields, "acceptance_criteria") then [StoryCriteria(Label(s.fields, k + 1))] else [])
  }

  function StoryIssues(featureLabel: string, k: nat, s: StoryItem): seq<Issue> {
    StoryOwnIssues(featureLabel, k, s) + TasksIssues(Label(s.fields, k + 1), ListOrEmpty(s.tasks))
  }

  function StoriesIssues(featureLabel: string, ss: seq<StoryItem>): seq<Issue> {
    if ss == [] then []
    else StoriesIssues(featureLabel, ss[..|ss| - 1]) + StoryIssues(featureLabel, |ss| - 1, ss[|ss| - 1])
  }

  function FeatureOwnIssues(i: nat, j: nat, f: FeatureItem): seq<Issue> {
    if !Has(f.fields, "title") then [FeatureTitle(i, j)] else []
  }

  function FeatureIssues(i: nat, j: nat, f: FeatureItem): seq<Issue> {
    FeatureOwnIssues(i, j, f) + StoriesIssues(Label(f.fields, j + 1), ListOrEmpty(f.stories))
  }

  function FeaturesIssues(i: nat, fs: seq<FeatureItem>): seq<Issue> {
    if fs == [] then []
    else FeaturesIssues(i, fs[..|fs| - 1]) + FeatureIssues(i, |fs| - 1, fs[|fs| - 1])
  }

  function EpicOwnIssues(i: nat, e: EpicItem): seq<Issue> {
    if !Has(e.fields, "title") then [EpicTitle(i)] else []
  }

  function EpicIssues(i: nat, e: EpicItem): seq<Issue> {
    EpicOwnIssues(i, e) + FeaturesIssues(i, ListOrEmpty(e.features))
  }

  function EpicsIssues(es: seq<EpicItem>): seq<Issue> {
    if es == [] then []
    else EpicsIssues(es[..|es| - 1]) + EpicIssues(|es| - 1, es[|es| - 1])
  }

  // One unfolding of each list function on a prefix, for the loops.

  lemma TasksIssuesStep(lbl: string, ts: seq<TaskItem>, m: nat)
    requires m < |ts|
    ensures TasksIssues(lbl, ts[..m + 1]) == TasksIssues(lbl, ts[..m]) + TaskIssues(lbl, m, ts[m])
  {
    assert ts[..m + 1][..m] == ts[..m];
  }

  lemma StoriesIssuesStep(lbl: string, ss: seq<StoryItem>, k: nat)
    requires k < |ss|
    ensures StoriesIssues(lbl, ss[..k + 1]) == StoriesIssues(lbl, ss[..k]) + StoryIssues(lbl, k, ss[k])
  {
    assert ss[..k + 1][..k] == ss[..k];
  }

  lemma FeaturesIssuesStep(i: nat, fs: seq<FeatureItem>, j: nat)
    requires j < |fs|
    ensures FeaturesIssues(i, fs[..j + 1]) == FeaturesIssues(i, fs[..j]) + FeatureIssues(i, j, fs[j])
  {
    assert fs[..j + 1][..j] == fs[..j];
  }

  lemma EpicsIssuesStep(es: seq<EpicItem>, i: nat)
    requires i < |es|
    ensures EpicsIssues(es[..i + 1]) == EpicsIssues(es[..i]) + EpicIssues(i, es[i])
  {
    assert es[..i + 1][..i] == es[..i];
  }

  /** Every problem of the template in document order; a template without
      epics has the one problem that says so. */
  function TemplateIssues(d: ProjectData): seq<Issue> {
    if d.epics.None? || d.epics.value == [] then [NoEpics] else EpicsIssues(d.epics.value)
  }

  /** `validate_template` as a value. */
  function TemplateErrors(d: ProjectData): seq<string> { Messages(TemplateIssues(d)) }

  /** The checks run in document order; each problem found is recorded as
      an issue and rendered to its message at the end. */
  method ValidateTemplate(d: ProjectData) returns (errors: seq<string>)
    ensures errors == TemplateErrors(d)
  {
    if d.epics.None? || d.epics.value == [] {
      errors := RenderMessages([NoEpics]);
      return;
    }
    var es := d.epics.value;
    var issues: seq<Issue> := [];
    for i := 0 to |es|
      invariant issues == EpicsIssues(es[..i])
    {
      EpicsIssuesStep(es, i);
      issues := ValidateEpic(issues, i, es[i]);
    }
    assert es[..|es|] == es;
    errors := RenderMessages(issues);
  }

  /** The message of every issue, in order. */
  method RenderMessages(issues: seq<Issue>) returns (errors: seq<string>)
    ensures errors == Messages(issues)
  {
    errors := [];
    for n := 0 to |issues|
      invariant errors == Messages(issues[..n])
    {
      errors := errors + [Message(issues[n])];
    }
    assert issues[..|issues|] == issues;
  }

  /** The checks of the i-th epic and everything under it, appended. */
  method ValidateEpic(issues0: seq<Issue>, i: nat, epic: EpicItem) returns (issues: seq<Issue>)
    ensures issues == issues0 + EpicIssues(i, epic)
  {
    issues := issues0;
    if !Has(epic.fields, "title") {
      issues := issues + [EpicTitle(i)];
    }
    assert issues == issues0 + EpicOwnIssues(i, epic);
    issues := ValidateFeatures(issues, i, ListOrEmpty(epic.features));
    AppendAssoc(issues0, EpicOwnIssues(i, epic), FeaturesIssues(i, ListOrEmpty(epic.features)));
  }

  /** The checks of the features of epic i, in order. */
  method ValidateFeatures(issues0: seq<Issue>, i: nat, fs: seq<FeatureItem>) returns (issues: seq<Issue>)
    ensures issues == issues0 + FeaturesIssues(i, fs)
  {
    issues := issues0;
    for j := 0 to |fs|
      invariant issues == issues0 + FeaturesIssues(i, fs[..j])
    {
      FeaturesIssuesStep(i, fs, j);
      issues := ValidateFeature(issues, i, j, fs[j]);
      AppendAssoc(issues0, FeaturesIssues(i, fs[..j]), FeatureIssues(i, j, fs[j]));
    }
    assert fs[..|fs|] == fs;
  }

  /** The checks of the j-th feature of epic i, its stories and their tasks. */
  method ValidateFeature(issues0: seq<Issue>, i: nat, j: nat, feat: FeatureItem) returns (issues: seq<Issue>)
    ensures issues == issues0 + FeatureIssues(i, j, feat)
  {
    issues := issues0;
    if !Has(feat.fields, "title") {
      issues := issues + [FeatureTitle(i, j)];
    }
    assert issues == issues0 + FeatureOwnIssues(i, j, feat);
    issues := ValidateStories(issues, Label(feat.fields, j + 1), ListOrEmpty(feat.stories));
    AppendAssoc(issues0, FeatureOwnIssues(i, j, feat), StoriesIssues(Label(feat.fields, j + 1), ListOrEmpty(feat.stories)));
  }

  /** The checks of a feature's stories, in order. */
  method ValidateStories(issues0: seq<Issue>, featureLabel: string, ss: seq<StoryItem>) returns (issues: seq<Issue>)
    ensures issues == issues0 + StoriesIssues(featureLabel, ss)
  {
    issues := issues0;
    for k := 0 to |ss|
      invariant issues == issues0 + StoriesIssues(featureLabel, ss[..k])
    {
      StoriesIssuesStep(featureLabel, ss, k);
      issues := ValidateStory(issues, featureLabel, k, ss[k]);
      AppendAssoc(issues0, StoriesIssues(featureLabel, ss[..k]), StoryIssues(featureLabel, k, ss[k]));
    }
    assert ss[..|ss|] == ss;
  }

  /** The checks of the k-th story of a feature and of its tasks. */
  method ValidateStory(issues0: seq<Issue>, featureLabel: string, k: nat, story: StoryItem)
    returns (issues: seq<Issue>)
    ensures issues == issues0 + StoryIssues(featureLabel, k, story)
  {
    issues := issues0;
    var storyLabel := Label(story.fields, k + 1);
    if !Has(story.fields, "title") {
      issues := issues + [StoryTitle(featureLabel, k)];
    }
    if !Has(story.fields, "description") {
      issues := issues + [StoryDescription(storyLabel)];
    }
    if !Has(story.fields, "acceptance_criteria") {
      issues := issues + [StoryCriteria(storyLabel)];
    }
    assert issues == issues0 + StoryOwnIssues(featureLabel, k, story);
    issues := ValidateTasks(issues, storyLabel, ListOrEmpty(story.tasks));
    AppendAssoc(issues0, StoryOwnIssues(featureLabel, k, story), TasksIssues(storyLabel, ListOrEmpty(story.tasks)));
  }

  /** The checks of a story's tasks, in order. */
  method ValidateTasks(issues0: seq<Issue>, storyLabel: string, ts: seq<TaskItem>) returns (issues: seq<Issue>)
    ensures issues == issues0 + TasksIssues(storyLabel, ts)
  {
    issues := issues0;
    for m := 0 to |ts|
      invariant issues == issues0 + TasksIssues(storyLabel, ts[..m])
    {
      TasksIssuesStep(storyLabel, ts, m);
      ghost var prev := issues;
      var task := ts[m];
      if !Has(task.fields, "title") {
        issues := issues + [TaskTitle(storyLabel, m)];
      }
      if !Has(task.fields, "estimate") {
        issues := issues + [TaskEstimate(Label(task.fields, m + 1))];
      }
      assert issues == prev + TaskIssues(storyLabel, m, task);
      AppendAssoc(issues0, TasksIssues(storyLabel, ts[..m]), TaskIssues(storyLabel, m, task));
    }
    assert ts[..|ts|] == ts;
  }

  // ---------------------------------------------------------------------
  // What an empty error list means
  // ---------------------------------------------------------------------

  predicate TaskComplete(t: TaskItem) { Has(t.fields, "title") && Has(t.fields, "estimate") }

  predicate StoryComplete(s: StoryItem) {
    && Has(s.fields, "title") && Has(s.fields, "description") && Has(s.fields, "acceptance_criteria")
    && forall m :: 0 <= m < |ListOrEmpty(s.tasks)| ==> TaskComplete(ListOrEmpty(s.tasks)[m])
  }

  predicate FeatureComplete(f: FeatureItem) {
    Has(f.fields, "title") && forall k :: 0 <= k < |ListOrEmpty(f.stories)| ==> StoryComplete(ListOrEmpty(f.stories)[k])
  }

  predicate EpicComplete(e: EpicItem) {
    Has(e.fields, "title") && forall j :: 0 <= j < |ListOrEmpty(e.features)| ==> FeatureComplete(ListOrEmpty(e.features)[j])
  }

  /** At least one epic, and every node has the fields the template needs. */
  predicate Complete(d: ProjectData) {
    d.epics.Some? && d.epics.value != [] && forall i :: 0 <= i < |d.epics.value| ==> EpicComplete(d.epics.value[i])
  }

  lemma {:induction false} TasksIssuesEmpty(lbl: string, ts: seq<TaskItem>)
    ensures TasksIssues(lbl, ts) == [] <==> forall m :: 0 <= m < |ts| ==> TaskComplete(ts[m])
  {
    if ts != [] {
      TasksIssuesEmpty(lbl, ts[..|ts| - 1]);
      assert forall m :: 0 <= m < |ts| - 1 ==> ts[..|ts| - 1][m] == ts[m];
    }
  }

  lemma StoryIssuesEmpty(lbl: string, k: nat, s: StoryItem)
    ensures StoryIssues(lbl, k, s) == [] <==> StoryComplete(s)
  {
    TasksIssuesEmpty(Label(s.fields, k + 1), ListOrEmpty(s.tasks));
  }

  lemma {:induction false} StoriesNoIssues(lbl: string, ss: seq<StoryItem>)
    requires forall k :: 0 <= k < |ss| ==> StoryComplete(ss[k])
    ensures StoriesIssues(lbl, ss) == []
  {
    if ss != [] {
      var n := |ss| - 1;
      assert forall k :: 0 <= k < n ==> ss[..n][k] == ss[k];
      StoriesNoIssues(lbl, ss[..n]);
      StoryIssuesEmpty(lbl, n, ss[n]);
    }
  }

  lemma StoriesIssuesEmpty(lbl: string, ss: seq<StoryItem>)
    ensures StoriesIssues(lbl, ss) == [] <==> forall k :: 0 <= k < |ss| ==> StoryComplete(ss[k])
  {
    if forall k :: 0 <= k < |ss| ==> StoryComplete(ss[k]) {
      StoriesNoIssues(lbl, ss);
    } else {
      var k :| 0 <= k < |ss| && !StoryComplete(ss[k]);
      StoryIssuesEmpty(lbl, k, ss[k]);
      StoriesIssuesInclude(lbl, ss, k, StoryIssues(lbl, k, ss[k])[0]);
    }
  }

  lemma FeatureIssuesEmpty(i: nat, j: nat, f: FeatureItem)
    ensures FeatureIssues(i, j, f) == [] <==> FeatureComplete(f)
  {
    StoriesIssuesEmpty(Label(f.fields, j + 1), ListOrEmpty(f.stories));
  }

  lemma {:induction false} FeaturesNoIssues(i: nat, fs: seq<FeatureItem>)
    requires forall j :: 0 <= j < |fs| ==> FeatureComplete(fs[j])
    ensures FeaturesIssues(i, fs) == []
  {
    if fs != [] {
      var n := |fs| - 1;
      assert forall j :: 0 <= j < n ==> fs[..n][j] == fs[j];
      FeaturesNoIssues(i, fs[..n]);
      FeatureIssuesEmpty(i, n, fs[n]);
    }
  }

  lemma FeaturesIssuesEmpty(i: nat, fs: seq<FeatureItem>)
    ensures FeaturesIssues(i, fs) == [] <==> forall j :: 0 <= j < |fs| ==> FeatureComplete(fs[j])
  {
    if forall j :: 0 <= j < |fs| ==> FeatureComplete(fs[j]) {
      FeaturesNoIssues(i, fs);
    } else {
      var j :| 0 <= j < |fs| && !FeatureComplete(fs[j]);
      FeatureIssuesEmpty(i, j, fs[j]);
      FeaturesIssuesInclude(i, fs, j, FeatureIssues(i, j, fs[j])[0]);
    }
  }

  lemma EpicIssuesEmpty(i: nat, e: EpicItem)
    ensures EpicIssues(i, e) == [] <==> EpicComplete(e)
  {
    FeaturesIssuesEmpty(i, ListOrEmpty(e.features));
  }

  lemma {:induction false} EpicsNoIssues(es: seq<EpicItem>)
    requires forall i :: 0 <= i < |es| ==> EpicComplete(es[i])
    ensures EpicsIssues(es) == []
  {
    if es != [] {
      var n := |es| - 1;
      assert forall i :: 0 <= i < n ==> es[..n][i] == es[i];
      EpicsNoIssues(es[..n]);
      EpicIssuesEmpty(n, es[n]);
    }
  }

  lemma EpicsIssuesEmpty(es: seq<EpicItem>)
    ensures EpicsIssues(es) == [] <==> forall i :: 0 <= i < |es| ==> EpicComplete(es[i])
  {
    if forall i :: 0 <= i < |es| ==> EpicComplete(es[i]) {
      EpicsNoIssues(es);
    } else {
      var i :| 0 <= i < |es| && !EpicComplete(es[i]);
      EpicIssuesEmpty(i, es[i]);
      EpicsIssuesInclude(es, i, EpicIssues(i, es[i])[0]);
    }
  }

  /** The template is reported clean exactly when it is complete. */
  lemma TemplateErrorsEmpty(d: ProjectData)
    ensures TemplateErrors(d) == [] <==> Complete(d)
  {
    if d.epics.Some? && d.epics.value != [] {
      EpicsIssuesEmpty(d.epics.value);
    }
  }

  /** Without epics the single "at least one epic" message is all there is. */
  lemma NoEpicsOnly(d: ProjectData)
    requires d.epics.None? || d.epics.value == []
    ensures TemplateErrors(d) == ["Template must contain at least one epic."]
  {
    assert TemplateIssues(d) == [NoEpics];
    assert [NoEpics][..0] == [];
  }

  // ---------------------------------------------------------------------
  // Every issue of a node reaches the list
  // ---------------------------------------------------------------------

  lemma {:induction false} TasksIssuesInclude(lbl: string, ts: seq<TaskItem>, m: nat, x: Issue)
    requires m < |ts| && x in TaskIssues(lbl, m, ts[m])
    ensures x in TasksIssues(lbl, ts)
  {
    var n := |ts| - 1;
    assert TasksIssues(lbl, ts) == TasksIssues(lbl, ts[..n]) + TaskIssues(lbl, n, ts[n]);
    if m < n {
      assert ts[..n][m] == ts[m];
      TasksIssuesInclude(lbl, ts[..n], m, x);
      assert x in TasksIssues(lbl, ts[..n]);
    } else {
      assert x in TaskIssues(lbl, n, ts[n]);
    }
  }

  lemma {:induction false} StoriesIssuesInclude(lbl: string, ss: seq<StoryItem>, k: nat, x: Issue)
    requires k < |ss| && x in StoryIssues(lbl, k, ss[k])
    ensures x in StoriesIssues(lbl, ss)
  {
    var n := |ss| - 1;
    assert StoriesIssues(lbl, ss) == StoriesIssues(lbl, ss[..n]) + StoryIssues(lbl, n, ss[n]);
    if k < n {
      assert ss[..n][k] == ss[k];
      StoriesIssuesInclude(lbl, ss[..n], k, x);
      assert x in StoriesIssues(lbl, ss[..n]);
    } else {
      assert x in StoryIssues(lbl, n, ss[n]);
    }
  }

  lemma {:induction false} FeaturesIssuesInclude(i: nat, fs: seq<FeatureItem>, j: nat, x: Issue)
    requires j < |fs| && x in FeatureIssues(i, j, fs[j])
    ensures x in FeaturesIssues(i, fs)
  {
    var n := |fs| - 1;
    assert FeaturesIssues(i, fs) == FeaturesIssues(i, fs[..n]) + FeatureIssues(i, n, fs[n]);
    if j < n {
      assert fs[..n][j] == fs[j];
      FeaturesIssuesInclude(i, fs[..n], j, x);
      assert x in FeaturesIssues(i, fs[..n]);
    } else {
      assert x in FeatureIssues(i, n, fs[n]);
    }
  }

  lemma {:induction false} EpicsIssuesInclude(es: seq<EpicItem>, i: nat, x: Issue)
    requires i < |es| && x in EpicIssues(i, es[i])
    ensures x in EpicsIssues(es)
  {
    var n := |es| - 1;
    assert EpicsIssues(es) == EpicsIssues(es[..n]) + EpicIssues(n, es[n]);
    if i < n {
      assert es[..n][i] == es[i];
      EpicsIssuesInclude(es[..n], i, x);
      assert x in EpicsIssues(es[..n]);
    } else {
      assert x in EpicIssues(n, es[n]);
    }
  }

  /** An issue of the story at (i, j, k) is among the template's issues. */
  lemma StoryIssueReported(d: ProjectData, i: nat, j: nat, k: nat, x: Issue)
    requires d.epics.Some? && i < |d.epics.value|
    requires j < |ListOrEmpty(d.epics.value[i].features)|
    requires k < |ListOrEmpty(ListOrEmpty(d.epics.value[i].features)[j].stories)|
    requires var f := ListOrEmpty(d.epics.value[i].features)[j];
      x in StoryIssues(Label(f.fields, j + 1), k, ListOrEmpty(f.stories)[k])
    ensures x in TemplateIssues(d)
  {
    var es := d.epics.value;
    var fs := ListOrEmpty(es[i].features);
    StoriesIssuesInclude(Label(fs[j].fields, j + 1), ListOrEmpty(fs[j].stories), k, x);
    assert x in FeatureIssues(i, j, fs[j]);
    FeaturesIssuesInclude(i, fs, j, x);
    assert x in EpicIssues(i, es[i]);
    EpicsIssuesInclude(es, i, x);
  }

  /** A story with neither description nor acceptance criteria yields at
      least two messages. */
  lemma MissingStoryFieldsReported(d: ProjectData, i: nat, j: nat, k: nat)
    requires d.epics.Some? && i < |d.epics.value|
    requires j < |ListOrEmpty(d.epics.value[i].features)|
    requires k < |ListOrEmpty(ListOrEmpty(d.epics.value[i].features)[j].stories)|
    requires var s := ListOrEmpty(ListOrEmpty(d.epics.value[i].features)[j].stories)[k];
      !Has(s.fields, "description") && !Has(s.fields, "acceptance_criteria")
    ensures |TemplateErrors(d)| >= 2
  {
    var f := ListOrEmpty(d.epics.value[i].features)[j];
    var s := ListOrEmpty(f.stories)[k];
    var x1 := StoryDescription(Label(s.fields, k + 1));
    var x2 := StoryCriteria(Label(s.fields, k + 1));
    StoryIssueReported(d, i, j, k, x1);
    StoryIssueReported(d, i, j, k, x2);
    var issues := TemplateIssues(d);
    var a :| 0 <= a < |issues| && issues[a] == x1;
    var b :| 0 <= b < |issues| && issues[b] == x2;
    assert a != b;
  }

  /** A task whose estimate is falsy (missing, None or 0) is reported by
      its title, or its position when it has none. */
  lemma MissingEstimateReported(d: ProjectData, i: nat, j: nat, k: nat, m: nat)
    requires d.epics.Some? && i < |d.epics.value|
    requires j < |ListOrEmpty(d.epics.value[i].features)|
    requires k < |ListOrEmpty(ListOrEmpty(d.epics.value[i].features)[j].stories)|
    requires m < |ListOrEmpty(ListOrEmpty(ListOrEmpty(d.epics.value[i].features)[j].stories)[k].tasks)|
    requires var t := ListOrEmpty(ListOrEmpty(ListOrEmpty(d.epics.value[i].features)[j].stories)[k].tasks)[m];
      !Has(t.fields, "estimate")
    ensures var t := ListOrEmpty(ListOrEmpty(ListOrEmpty(d.epics.value[i].features)[j].stories)[k].tasks)[m];
      Message(TaskEstimate(Label(t.fields, m + 1))) in TemplateErrors(d)
  {
    var f := ListOrEmpty(d.epics.value[i].features)[j];
    var s := ListOrEmpty(f.stories)[k];
    var ts := ListOrEmpty(s.tasks);
    var x := TaskEstimate(Label(ts[m].fields, m + 1));
    TasksIssuesInclude(Label(s.fields, k + 1), ts, m, x);
    assert x in StoryIssues(Label(f.fields, j + 1), k, s);
    StoryIssueReported(d, i, j, k, x);
    MessagesMember(TemplateIssues(d), x);
  }

  /** The smallest complete template (one epic, feature, story and task)
      is reported clean. */
  lemma MinimalTemplateValid()
    ensures TemplateErrors(MinimalTemplate()) == []
  {
    TemplateErrorsEmpty(MinimalTemplate());
  }

  function MinimalTemplate(): ProjectData {
    var task := TaskItem(map["title" := Str("T1"), "estimate" := Int(4)]);
    var story := StoryItem(map["title" := Str("S1"), "description" := Str("desc"), "acceptance_criteria" := Str("ac")], Some([task]));
    var feature := FeatureItem(map["title" := Str("F1")], Some([story]));
    ProjectData(Some([EpicItem(map["title" := Str("E1")], Some([feature]))]))
  }

  // ---------------------------------------------------------------------
  // Counting
  // ---------------------------------------------------------------------

  datatype Counts = Counts(epics: nat, features: nat, stories: nat, tasks: nat) {
    function Plus(o: Counts): Counts {
      Counts(epics + o.epics, features + o.features, stories + o.stories, tasks + o.tasks)
    }
    function Total(): nat { epics + features + stories + tasks }
  }

  const Zero := Counts(0, 0, 0, 0)

  lemma ZeroPlus(a: Counts)
    ensures Zero.Plus(a) == a
  {
  }

  lemma PlusAssoc(a: Counts, b: Counts, c: Counts)
    ensures a.Plus(b).Plus(c) == a.Plus(b.Plus(c))
  {
  }

  function StoryCounts(s: StoryItem): Counts { Counts(0, 0, 1, |ListOrEmpty(s.tasks)|) }

  function StoriesCounts(ss: seq<StoryItem>): Counts {
    if ss == [] then Zero else StoriesCounts(ss[..|ss| - 1]).Plus(StoryCounts(ss[|ss| - 1]))
  }

  function FeatureCounts(f: FeatureItem): Counts { Counts(0, 1, 0, 0).Plus(StoriesCounts(ListOrEmpty(f.stories))) }

  function FeaturesCounts(fs: seq<FeatureItem>): Counts {
    if fs == [] then Zero else FeaturesCounts(fs[..|fs| - 1]).Plus(FeatureCounts(fs[|fs| - 1]))
  }

  function EpicCounts(e: EpicItem): Counts { Counts(1, 0, 0, 0).Plus(FeaturesCounts(ListOrEmpty(e.features))) }

  function EpicsCounts(es: seq<EpicItem>): Counts {
    if es == [] then Zero else EpicsCounts(es[..|es| - 1]).Plus(EpicCounts(es[|es| - 1]))
  }

  lemma StoriesCountsStep(ss: seq<StoryItem>, k: nat)
    requires k < |ss|
    ensures StoriesCounts(ss[..k + 1]) == StoriesCounts(ss[..k]).Plus(StoryCounts(ss[k]))
  {
    assert ss[..k + 1][..k] == ss[..k];
  }

  lemma FeaturesCountsStep(fs: seq<FeatureItem>, j: nat)
    requires j < |fs|
    ensures FeaturesCounts(fs[..j + 1]) == FeaturesCounts(fs[..j]).Plus(FeatureCounts(fs[j]))
  {
    assert fs[..j + 1][..j] == fs[..j];
  }

  lemma EpicsCountsStep(es: seq<EpicItem>, i: nat)
    requires i < |es|
    ensures EpicsCounts(es[..i + 1]) == EpicsCounts(es[..i]).Plus(EpicCounts(es[i]))
  {
    assert es[..i + 1][..i] == es[..i];
  }

  /** `count_work_items` as a value. */
  function DocCounts(d: ProjectData): Counts { EpicsCounts(ListOrEmpty(d.epics)) }

  method CountWorkItems(d: ProjectData) returns (epics: nat, features: nat, stories: nat, tasks: nat)
    ensures Counts(epics, features, stories, tasks) == DocCounts(d)
  {
    var c := CountEpics(Zero, ListOrEmpty(d.epics));
    ZeroPlus(DocCounts(d));
    epics, features, stories, tasks := c.epics, c.features, c.stories, c.tasks;
  }

  /** Adds the epics of a template and everything under them. */
  method CountEpics(c0: Counts, es: seq<EpicItem>) returns (c: Counts)
    ensures c == c0.Plus(EpicsCounts(es))
  {
    c := c0;
    for i := 0 to |es|
      invariant c == c0.Plus(EpicsCounts(es[..i]))
    {
      ghost var before := c;
      c := Counts(c.epics + 1, c.features, c.stories, c.tasks);
      c := CountFeatures(c, ListOrEmpty(es[i].features));
      EpicCounted(c0, es, i, before, c);
    }
    assert es[..|es|] == es;
  }

  /** Adds the features of one epic and everything under them. */
  method CountFeatures(c0: Counts, fs: seq<FeatureItem>) returns (c: Counts)
    ensures c == c0.Plus(FeaturesCounts(fs))
  {
    c := c0;
    for j := 0 to |fs|
      invariant c == c0.Plus(FeaturesCounts(fs[..j]))
    {
      ghost var before := c;
      c := Counts(c.epics, c.features + 1, c.stories, c.tasks);
      c := CountStories(c, ListOrEmpty(fs[j].stories));
      FeatureCounted(c0, fs, j, before, c);
    }
    assert fs[..|fs|] == fs;
  }

  /** Adds the stories of one feature and their tasks. */
  method CountStories(c0: Counts, ss: seq<StoryItem>) returns (c: Counts)
    ensures c == c0.Plus(StoriesCounts(ss))
  {
    c := c0;
    for k := 0 to |ss|
      invariant c == c0.Plus(StoriesCounts(ss[..k]))
    {
      StoriesCountsStep(ss, k);
      ghost var before := c;
      c := Counts(c.epics, c.features, c.stories + 1, c.tasks + |ListOrEmpty(ss[k].tasks)|);
      assert c == before.Plus(StoryCounts(ss[k]));
      PlusAssoc(c0, StoriesCounts(ss[..k]), StoryCounts(ss[k]));
    }
    assert ss[..|ss|] == ss;
  }

  lemma EpicCounted(c0: Counts, es: seq<EpicItem>, i: nat, before: Counts, c: Counts)
    requires i < |es| && before == c0.Plus(EpicsCounts(es[..i]))
    requires c == before.Plus(Counts(1, 0, 0, 0)).Plus(FeaturesCounts(ListOrEmpty(es[i].features)))
    ensures c == c0.Plus(EpicsCounts(es[..i + 1]))
  {
    EpicsCountsStep(es, i);
    assert EpicCounts(es[i]) == Counts(1, 0, 0, 0).Plus(FeaturesCounts(ListOrEmpty(es[i].features)));
    PlusShuffle(c0, EpicsCounts(es[..i]), Counts(1, 0, 0, 0), FeaturesCounts(ListOrEmpty(es[i].features)), before, c);
  }

  lemma FeatureCounted(c0: Counts, fs: seq<FeatureItem>, j: nat, before: Counts, c: Counts)
    requires j < |fs| && before == c0.Plus(FeaturesCounts(fs[..j]))
    requires c == before.Plus(Counts(0, 1, 0, 0)).Plus(StoriesCounts(ListOrEmpty(fs[j].stories)))
    ensures c == c0.Plus(FeaturesCounts(fs[..j + 1]))
  {
    FeaturesCountsStep(fs, j);
    assert FeatureCounts(fs[j]) == Counts(0, 1, 0, 0).Plus(StoriesCounts(ListOrEmpty(fs[j].stories)));
    PlusShuffle(c0, FeaturesCounts(fs[..j]), Counts(0, 1, 0, 0), StoriesCounts(ListOrEmpty(fs[j].stories)), before, c);
  }

  /** Counting a node and then what is below it adds its own count and the
      count below it to the running total. */
  lemma PlusShuffle(c0: Counts, a: Counts, own: Counts, below: Counts, before: Counts, c: Counts)
    requires before == c0.Plus(a) && c == before.Plus(own).Plus(below)
    ensures c == c0.Plus(a.Plus(own.Plus(below)))
  {
  }

  /** The epic count is the number of epics, and every feature, story and
      task is counted once: the total is the number of nodes. */
  lemma DocCountsNodes(d: ProjectData)
    ensures DocCounts(d).epics == |ListOrEmpty(d.epics)|
    ensures DocCounts(d).Total() == |NodeKinds(d)|
  {
    EpicsCountsNodes(ListOrEmpty(d.epics));
  }

  /** The work-item type of every node in depth-first document order. */
  function NodeKinds(d: ProjectData): seq<string> { EpicsKinds(ListOrEmpty(d.epics)) }

  function StoryKinds(s: StoryItem): seq<string> {
    [UserStory] + seq(|ListOrEmpty(s.tasks)|, _ => Task)
  }

  function StoriesKinds(ss: seq<StoryItem>): seq<string> {
    if ss == [] then [] else StoriesKinds(ss[..|ss| - 1]) + StoryKinds(ss[|ss| - 1])
  }

  function FeatureKinds(f: FeatureItem): seq<string> { [Feature] + StoriesKinds(ListOrEmpty(f.stories)) }

  function FeaturesKinds(fs: seq<FeatureItem>): seq<string> {
    if fs == [] then [] else FeaturesKinds(fs[..|fs| - 1]) + FeatureKinds(fs[|fs| - 1])
  }

  function EpicKinds(e: EpicItem): seq<string> { [Epic] + FeaturesKinds(ListOrEmpty(e.features)) }

  function EpicsKinds(es: seq<EpicItem>): seq<string> {
    if es == [] then [] else EpicsKinds(es[..|es| - 1]) + EpicKinds(es[|es| - 1])
  }

  lemma {:induction false} StoriesCountsNodes(ss: seq<StoryItem>)
    ensures StoriesCounts(ss).epics == 0 && StoriesCounts(ss).features == 0
    ensures StoriesCounts(ss).stories == |ss|
    ensures StoriesCounts(ss).Total() == |StoriesKinds(ss)|
  {
    if ss != [] {
      StoriesCountsNodes(ss[..|ss| - 1]);
    }
  }

  lemma {:induction false} FeaturesCountsNodes(fs: seq<FeatureItem>)
    ensures FeaturesCounts(fs).epics == 0 && FeaturesCounts(fs).features == |fs|
    ensures FeaturesCounts(fs).Total() == |FeaturesKinds(fs)|
  {
    if fs != [] {
      FeaturesCountsNodes(fs[..|fs| - 1]);
      StoriesCountsNodes(ListOrEmpty(fs[|fs| - 1].stories));
    }
  }

  lemma {:induction false} EpicsCountsNodes(es: seq<EpicItem>)
    ensures EpicsCounts(es).epics == |es|
    ensures EpicsCounts(es).Total() == |EpicsKinds(es)|
  {
    if es != [] {
      EpicsCountsNodes(es[..|es| - 1]);
      FeaturesCountsNodes(ListOrEmpty(es[|es| - 1].features));
    }
  }
}
