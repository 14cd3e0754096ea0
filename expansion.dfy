/** Expansion of parameterized template features and stories: a feature or
    story marked `parameterized` is copied once per name in its
    `default_instances`, with `{{name}}` / `{{ name }}` substituted. */
module Expansion {
  import opened Common
  import opened Models

  const Placeholder: string := "{{name}}"
  const SpacedPlaceholder: string := "{{ name }}"

  /** Both placeholder spellings replaced by `name`, the compact one first. */
  function Substitute(text: string, name: string): (r: string)
    ensures !Contains(text, Placeholder) && !Contains(text, SpacedPlaceholder) ==> r == text
  {
    SubstituteAbsent(text, name);
    ReplaceAll(ReplaceAll(text, Placeholder, name), SpacedPlaceholder, name)
  }

  lemma SubstituteAbsent(text: string, name: string)
    ensures !Contains(text, Placeholder) && !Contains(text, SpacedPlaceholder) ==>
      ReplaceAll(ReplaceAll(text, Placeholder, name), SpacedPlaceholder, name) == text
  {
    if !Contains(text, Placeholder) && !Contains(text, SpacedPlaceholder) {
      ReplaceAllAbsent(text, Placeholder, name);
      ReplaceAllAbsent(text, SpacedPlaceholder, name);
    }
  }

  /** The compact placeholder, in text otherwise free of '{', becomes the
      name. */
  lemma SubstitutePlaceholder(a: string, b: string, name: string)
    requires '{' !in a && '{' !in b && '{' !in name
    ensures Substitute(a + Placeholder + b, name) == a + name + b
  {
    ReplaceAllSplice(a, Placeholder, b, name);
    ReplaceAllNoHead(b, Placeholder, name);
    ReplaceAllNoHead(a + name + b, SpacedPlaceholder, name);
  }

  /** The spaced placeholder, in text otherwise free of '{', becomes the
      name. */
  lemma SubstituteSpaced(a: string, b: string, name: string)
    requires '{' !in a && '{' !in b && '{' !in name
    ensures Substitute(a + SpacedPlaceholder + b, name) == a + name + b
  {
    SpacedNotCompact(b, name);
    ReplaceAllSkip(a, SpacedPlaceholder + b, Placeholder, name);
    assert a + SpacedPlaceholder + b == a + (SpacedPlaceholder + b);
    ReplaceAllSplice(a, SpacedPlaceholder, b, name);
    ReplaceAllNoHead(b, SpacedPlaceholder, name);
  }

  /** The spaced placeholder holds no compact one. */
  lemma SpacedNotCompact(b: string, name: string)
    requires '{' !in b
    ensures ReplaceAll(SpacedPlaceholder + b, Placeholder, name) == SpacedPlaceholder + b
  {
    var rest := " name }}" + b;
    ReplaceAllNoHead(rest, Placeholder, name);
    ReplaceAllMiss("{" + rest, Placeholder, name, 1);
    assert ("{" + rest)[1..] == rest;
    ReplaceAllMiss("{{" + rest, Placeholder, name, 2);
    assert ("{{" + rest)[1..] == "{" + rest;
    assert SpacedPlaceholder + b == "{{" + rest;
  }

  /** An example: "Load {{name}} data" for instance "SAP". */
  lemma SubstituteExample()
    ensures Substitute("Load {{name}} data", "SAP") == "Load SAP data"
  {
    var a, b, n := "Load ", " data", "SAP";
    assert '{' !in a && '{' !in b && '{' !in n by {
      assert forall i :: 0 <= i < |a| ==> a[i] != '{';
      assert forall i :: 0 <= i < |b| ==> b[i] != '{';
      assert forall i :: 0 <= i < |n| ==> n[i] != '{';
    }
    SubstitutePlaceholder(a, b, n);
    assert a + Placeholder + b == "Load {{name}} data";
    assert a + n + b == "Load SAP data";
  }

  /** `_replace_name`: falsy text is returned as it is, a string has its
      placeholders substituted. */
  function ReplaceName(v: Value, name: string): (r: Value)
    requires IsText(v)
    ensures IsText(r) && (v.Str? <==> r.Str?)
    ensures !Truthy(v) ==> r == v
    ensures v.Str? && !Contains(v.s, Placeholder) && !Contains(v.s, SpacedPlaceholder) ==> r == v
  {
    if !Truthy(v) then v else Str(Substitute(v.s, name))
  }

  /** A string with one placeholder, otherwise free of '{', gets the name
      in its place. */
  lemma ReplaceNamePlaceholder(a: string, b: string, name: string)
    requires '{' !in a && '{' !in b && '{' !in name
    ensures ReplaceName(Str(a + Placeholder + b), name) == Str(a + name + b)
    ensures ReplaceName(Str(a + SpacedPlaceholder + b), name) == Str(a + name + b)
  {
    SubstitutePlaceholder(a, b, name);
    SubstituteSpaced(a, b, name);
  }

  predicate Parameterized(f: Fields) { Truthy(Get(f, "parameterized", Null)) }

  /** `d.get("default_instances", [])` as the list that is iterated. */
  function Instances(f: Fields): seq<string>
    requires NamesLike(f, "default_instances")
  {
    if "default_instances" in f && Truthy(f["default_instances"]) then f["default_instances"].items else []
  }

  /** `_replace_name(d.get("description") or "", name)`: always a string. */
  function DescriptionFor(f: Fields, name: string): (r: Value)
    requires TextLike(f, "description")
    ensures r.Str?
  {
    ReplaceName(OrEmpty(Get(f, "description", Null)), name)
  }

  /** `{**task, "description": ...}` */
  function TaskCopy(t: TaskItem, name: string): (r: TaskItem)
    requires TaskShape(t)
    ensures TaskShape(r)
  {
    TaskItem(t.fields["description" := DescriptionFor(t.fields, name)])
  }

  /** The task list of a copied story: copied when the key is present. */
  function TasksCopy(ts: Option<seq<TaskItem>>, name: string): (r: Option<seq<TaskItem>>)
    requires forall t :: t in ListOrEmpty(ts) ==> TaskShape(t)
    ensures r.Some? <==> ts.Some?
    ensures forall t :: t in ListOrEmpty(r) ==> TaskShape(t)
  {
    match ts
    case None => None
    case Some(l) => Some(seq(|l|, i requires 0 <= i < |l| => TaskCopy(l[i], name)))
  }

  /** A story copied into an expanded feature: title unchanged, description
      and task descriptions substituted. */
  function StoryCopy(s: StoryItem, name: string): (r: StoryItem)
    requires StoryShape(s)
    ensures StoryShape(r)
  {
    StoryItem(s.fields["description" := DescriptionFor(s.fields, name)], TasksCopy(s.tasks, name))
  }

  /** The feature produced for one instance name: only title, description
      and stories. */
  function FeatureCopy(f: FeatureItem, name: string): (r: FeatureItem)
    requires FeatureShape(f)
  {
    var stories := ListOrEmpty(f.stories);
    FeatureItem(
      map["title" := ReplaceName(f.fields["title"], name), "description" := DescriptionFor(f.fields, name)],
      Some(seq(|stories|, i requires 0 <= i < |stories| => StoryCopy(stories[i], name))))
  }

  /** `expand_parameterized`: the feature itself when not parameterized or
      without instances, else one copy per instance. */
  function ExpandedFeature(f: FeatureItem): (r: seq<FeatureItem>)
    requires FeatureShape(f)
  {
    var names := Instances(f.fields);
    if !Parameterized(f.fields) || names == [] then [f]
    else seq(|names|, i requires 0 <= i < |names| => FeatureCopy(f, names[i]))
  }

  method ExpandParameterized(feature: FeatureItem) returns (expanded: seq<FeatureItem>)
    requires FeatureShape(feature)
    ensures expanded == ExpandedFeature(feature)
  {
    if !Parameterized(feature.fields) {
      return [feature];
    }
    var names := Instances(feature.fields);
    if names == [] {
      return [feature];
    }
    var source := ListOrEmpty(feature.stories);
    expanded := [];
    for i := 0 to |names|
      invariant expanded == seq(i, j requires 0 <= j < i => FeatureCopy(feature, names[j]))
    {
      var name := names[i];
      var stories: seq<StoryItem> := [];
      for k := 0 to |source|
        invariant stories == seq(k, j requires 0 <= j < k => StoryCopy(source[j], name))
      {
        stories := stories + [StoryCopy(source[k], name)];
      }
      var copy := FeatureItem(
        map["title" := ReplaceName(feature.fields["title"], name), "description" := DescriptionFor(feature.fields, name)],
        Some(stories));
      assert copy == FeatureCopy(feature, name);
      expanded := expanded + [copy];
    }
  }

  /** The expanded copies carry only title, description and the same
      number of stories; story titles stay, substituted titles follow the
      instance list in order, and no copy is parameterized. */
  lemma ExpandedFeatureCopies(f: FeatureItem)
    requires FeatureShape(f) && Parameterized(f.fields) && Instances(f.fields) != []
    ensures var r := ExpandedFeature(f); var names := Instances(f.fields);
      && |r| == |names|
      && forall i :: 0 <= i < |r| ==>
        && r[i].fields.Keys == {"title", "description"}
        && r[i].fields["title"] == Str(Substitute(Title(f.fields), names[i]))
        && !Parameterized(r[i].fields)
        && r[i].stories.Some?
        && |r[i].stories.value| == |ListOrEmpty(f.stories)|
        && forall k :: 0 <= k < |ListOrEmpty(f.stories)| ==>
             r[i].stories.value[k].fields["title"] == ListOrEmpty(f.stories)[k].fields["title"]
  {
  }

  /** Expansion keeps the template shape. */
  lemma ExpandedFeatureShape(f: FeatureItem)
    requires FeatureShape(f)
    ensures forall g :: g in ExpandedFeature(f) ==> FeatureShape(g)
  {
  }

  // ---------------------------------------------------------------------
  // Story-level expansion
  // ---------------------------------------------------------------------

  /** The keys that only drive expansion and are dropped from story copies. */
  const ExpansionKeys: set<string> := {"parameterized", "default_instances", "instance_key"}

  /** One instance of a parameterized story: the story without the
      expansion keys, with title, description and (if present) acceptance
      criteria substituted, and task descriptions substituted. */
  function StoryInstance(s: StoryItem, name: string): (r: StoryItem)
    requires StoryShape(s)
    ensures StoryShape(r)
    ensures forall k :: k in ExpansionKeys ==> k !in r.fields
  {
    var kept := map k | k in s.fields && k !in ExpansionKeys :: s.fields[k];
    var titled := kept["title" := ReplaceName(s.fields["title"], name)]["description" := DescriptionFor(s.fields, name)];
    var fields :=
      if "acceptance_criteria" in s.fields
      then titled["acceptance_criteria" := ReplaceName(s.fields["acceptance_criteria"], name)]
      else titled;
    StoryItem(fields, TasksCopy(s.tasks, name))
  }

  /** What one story contributes to the new story list. */
  function StoryExpansion(s: StoryItem): (r: seq<StoryItem>)
    requires StoryShape(s)
  {
    var names := Instances(s.fields);
    if !Parameterized(s.fields) || names == [] then [s]
    else seq(|names|, i requires 0 <= i < |names| => StoryInstance(s, names[i]))
  }

  predicate HasParameterizedStory(f: FeatureItem) {
    exists s :: s in ListOrEmpty(f.stories) && Parameterized(s.fields)
  }

  function StoryExpansions(stories: seq<StoryItem>): seq<seq<StoryItem>>
    requires forall s :: s in stories ==> StoryShape(s)
  {
    seq(|stories|, i requires 0 <= i < |stories| => StoryExpansion(stories[i]))
  }

  /** `expand_parameterized_stories`: the feature itself when no story is
      parameterized, else the feature with the concatenated expansions. */
  function ExpandedStories(f: FeatureItem): (r: FeatureItem)
    requires FeatureShape(f)
  {
    if !HasParameterizedStory(f) then f
    else FeatureItem(f.fields, Some(Concat(StoryExpansions(ListOrEmpty(f.stories)))))
  }

  method ExpandParameterizedStories(feature: FeatureItem) returns (result: FeatureItem)
    requires FeatureShape(feature)
    ensures result == ExpandedStories(feature)
  {
    var stories := ListOrEmpty(feature.stories);
    if !HasParameterizedStory(feature) {
      return feature;
    }
    var newStories: seq<StoryItem> := [];
    for k := 0 to |stories|
      invariant newStories == Concat(StoryExpansions(stories)[..k])
    {
      var story := stories[k];
      assert StoryExpansions(stories)[..k + 1] == StoryExpansions(stories)[..k] + [StoryExpansion(story)];
      ConcatAppend(StoryExpansions(stories)[..k], StoryExpansion(story));
      newStories := AppendExpansion(newStories, story);
    }
    assert StoryExpansions(stories)[..|stories|] == StoryExpansions(stories);
    result := FeatureItem(feature.fields, Some(newStories));
  }

  /** One pass of the story loop: the story as it is, or one copy per
      instance name, appended to the new story list. */
  method AppendExpansion(acc: seq<StoryItem>, story: StoryItem) returns (acc': seq<StoryItem>)
    requires StoryShape(story)
    ensures acc' == acc + StoryExpansion(story)
  {
    var names := Instances(story.fields);
    if !Parameterized(story.fields) || names == [] {
      acc' := acc + [story];
    } else {
      acc' := acc;
      for i := 0 to |names|
        invariant acc' == acc + seq(i, j requires 0 <= j < i => StoryInstance(story, names[j]))
      {
        acc' := acc' + [StoryInstance(story, names[i])];
      }
    }
  }

  /** After story expansion the feature keeps its own fields and every
      story that is still parameterized has no instances left. */
  lemma ExpandedStoriesSettled(f: FeatureItem)
    requires FeatureShape(f)
    ensures ExpandedStories(f).fields == f.fields
    ensures FeatureShape(ExpandedStories(f))
    ensures StoriesSettled(ExpandedStories(f))
  {
    if HasParameterizedStory(f) {
      var ss := StoryExpansions(ListOrEmpty(f.stories));
      forall s | s in Concat(ss)
        ensures StoryShape(s) && (Parameterized(s.fields) ==> Instances(s.fields) == [])
      {
        ConcatMember(ss, s);
      }
    }
  }

  /** Every parameterized story of the feature has no instances. */
  predicate StoriesSettled(f: FeatureItem)
    requires FeatureShape(f)
  {
    forall s :: s in ListOrEmpty(f.stories) && Parameterized(s.fields) ==> Instances(s.fields) == []
  }

  /** A feature already expanded: it is not parameterized with instances,
      and neither is any of its stories. */
  predicate Settled(f: FeatureItem)
    requires FeatureShape(f)
  {
    (Parameterized(f.fields) ==> Instances(f.fields) == []) && StoriesSettled(f)
  }

  /** A settled feature expands to itself. */
  lemma SettledFixed(f: FeatureItem)
    requires FeatureShape(f) && Settled(f)
    ensures ExpandedStories(f) == f
    ensures ExpandedFeature(f) == [f]
  {
    if HasParameterizedStory(f) {
      var stories := ListOrEmpty(f.stories);
      ConcatSingletons(stories, StoryExpansions(stories));
    }
  }

  /** `expand_parameterized_stories` followed by `expand_parameterized`, for one feature. */
  function ExpandFeature(f: FeatureItem): (r: seq<FeatureItem>)
    requires FeatureShape(f)
    ensures forall g :: g in r ==> FeatureShape(g) && Settled(g)
  {
    ExpandedStoriesSettled(f);
    var g := ExpandedStories(f);
    ExpandedFeatureShape(g);
    ExpandedFeature(g)
  }

  /** The new feature list of one epic. */
  function ExpandFeatures(fs: seq<FeatureItem>): (r: seq<FeatureItem>)
    requires forall f :: f in fs ==> FeatureShape(f)
    ensures forall g :: g in r ==> FeatureShape(g) && Settled(g)
    ensures forall i :: 0 <= i < |r| ==> FeatureShape(r[i])
  {
    var parts := seq(|fs|, i requires 0 <= i < |fs| => ExpandFeature(fs[i]));
    assert forall g :: g in Concat(parts) ==> FeatureShape(g) && Settled(g) by {
      forall g | g in Concat(parts)
        ensures FeatureShape(g) && Settled(g)
      {
        ConcatMember(parts, g);
      }
    }
    Concat(parts)
  }

  /** A list of settled features is left as it is. */
  lemma {:induction false} ExpandFeaturesSettled(fs: seq<FeatureItem>)
    requires forall f :: f in fs ==> FeatureShape(f) && Settled(f)
    ensures ExpandFeatures(fs) == fs
  {
    var parts := seq(|fs|, i requires 0 <= i < |fs| => ExpandFeature(fs[i]));
    forall i | 0 <= i < |fs|
      ensures parts[i] == [fs[i]]
    {
      SettledFixed(fs[i]);
    }
    ConcatSingletons(fs, parts);
  }

  /** Expanding twice is expanding once. */
  lemma ExpandFeaturesIdempotent(fs: seq<FeatureItem>)
    requires forall f :: f in fs ==> FeatureShape(f)
    ensures ExpandFeatures(ExpandFeatures(fs)) == ExpandFeatures(fs)
  {
    ExpandFeaturesSettled(ExpandFeatures(fs));
  }

  /** A template with nothing parameterized keeps its features. */
  lemma ExpandFeaturesPlain(fs: seq<FeatureItem>)
    requires forall f :: f in fs ==>
      (FeatureShape(f) && !Parameterized(f.fields) && forall s :: s in ListOrEmpty(f.stories) ==> !Parameterized(s.fields))
    ensures ExpandFeatures(fs) == fs
  {
    ExpandFeaturesSettled(fs);
  }

  /** The feature loop of one epic: each feature has its stories expanded,
      then is itself expanded, and the results are concatenated. */
  method ExpandFeatureList(features: seq<FeatureItem>) returns (newFeatures: seq<FeatureItem>)
    requires forall i :: 0 <= i < |features| ==> FeatureShape(features[i])
    ensures newFeatures == ExpandFeatures(features)
  {
    ghost var parts := seq(|features|, k requires 0 <= k < |features| => ExpandFeature(features[k]));
    newFeatures := [];
    for k := 0 to |features|
      invariant newFeatures == Concat(parts[..k])
    {
      var feature := ExpandParameterizedStories(features[k]);
      ExpandedStoriesSettled(features[k]);
      var copies := ExpandParameterized(feature);
      assert parts[..k + 1] == parts[..k] + [copies];
      ConcatAppend(parts[..k], copies);
      newFeatures := newFeatures + copies;
    }
    assert parts[..|features|] == parts;
  }
}
