/** A loaded project template and the three passes that rewrite it in
    place: expansion of parameterized features and stories, instance
    overrides, and keyword exclusion of features. */
module TemplateDocument {
  import opened Common
  import opened Models
  import opened Expansion
  import opened Overrides

  /** The overrides run on every feature of the epic without raising. */
  predicate EpicOverridable(e: EpicItem, overrides: OverrideMap)
    requires EpicShape(e)
  {
    e.features.Some? ==> forall j :: 0 <= j < |e.features.value| ==> Overridable(e.features.value[j], overrides)
  }

  /** The overrides run on the whole document without raising. */
  predicate DocOverridable(d: ProjectData, overrides: OverrideMap)
    requires DocShape(d)
  {
    d.epics.Some? ==> forall i :: 0 <= i < |d.epics.value| ==> EpicOverridable(d.epics.value[i], overrides)
  }

  /** Every feature title of the epic can be lower-cased. */
  predicate EpicTitlesReadable(e: EpicItem) {
    e.features.Some? ==> forall j :: 0 <= j < |e.features.value| ==> TitleReadable(e.features.value[j].fields)
  }

  /** Every feature title of the document can be lower-cased, which is all
      keyword exclusion asks of it. */
  predicate DocTitlesReadable(d: ProjectData) {
    d.epics.Some? ==> forall i :: 0 <= i < |d.epics.value| ==> EpicTitlesReadable(d.epics.value[i])
  }

  /** Every epic's feature list after expansion (the key is always set). */
  function ExpandedDoc(d: ProjectData): (r: ProjectData)
    requires DocShape(d)
    ensures DocShape(r)
  {
    match d.epics
    case None => d
    case Some(es) =>
      ProjectData(Some(seq(|es|, i requires 0 <= i < |es| =>
        EpicItem(es[i].fields, Some(ExpandFeatures(ListOrEmpty(es[i].features)))))))
  }

  /** Every feature with the overrides applied; the lists are not touched. */
  function OverriddenDoc(d: ProjectData, overrides: OverrideMap): (r: ProjectData)
    requires DocShape(d) && DocOverridable(d, overrides)
    ensures DocShape(r)
  {
    match d.epics
    case None => d
    case Some(es) =>
      ProjectData(Some(seq(|es|, i requires 0 <= i < |es| =>
        match es[i].features
        case None => es[i]
        case Some(fs) =>
          EpicItem(es[i].fields, Some(seq(|fs|, j requires 0 <= j < |fs| => FeatureOverrides(fs[j], overrides)))))))
  }

  /** Every epic's features without those matching a keyword; nothing
      changes for an empty keyword list. */
  function ExcludedDoc(d: ProjectData, keywords: seq<string>): (r: ProjectData)
    requires DocTitlesReadable(d)
    ensures DocTitlesReadable(r)
    ensures DocShape(d) ==> DocShape(r)
  {
    if keywords == [] then d
    else match d.epics
      case None => d
      case Some(es) =>
        ProjectData(Some(seq(|es|, i requires 0 <= i < |es| =>
          EpicItem(es[i].fields, Some(KeptFeatures(ListOrEmpty(es[i].features), keywords))))))
  }

  class TemplateDocument {
    var data: ProjectData

    constructor (d: ProjectData)
      ensures data == d
    {
      data := d;
    }

    /** `expand_all_features` */
    method ExpandAllFeatures()
      requires DocShape(data)
      modifies this
      ensures DocShape(data)
      ensures data == ExpandedDoc(old(data))
    {
      if data.epics.None? {
        return;
      }
      ghost var es := data.epics.value;
      var i := 0;
      while i < |data.epics.value|
        invariant data.epics.Some? && |data.epics.value| == |es|
        invariant 0 <= i <= |es|
        invariant forall j :: 0 <= j < i ==>
          data.epics.value[j] == EpicItem(es[j].fields, Some(ExpandFeatures(ListOrEmpty(es[j].features))))
        invariant forall j :: i <= j < |es| ==> data.epics.value[j] == es[j]
        invariant DocShape(data)
      {
        var epic := data.epics.value[i];
        var newFeatures := ExpandFeatureList(ListOrEmpty(epic.features));
        data := ProjectData(Some(data.epics.value[i := EpicItem(epic.fields, Some(newFeatures))]));
        i := i + 1;
      }
      assert data.epics.value == ExpandedDoc(old(data)).epics.value;
    }

    /** `apply_instance_overrides` */
    method ApplyInstanceOverrides(overrides: OverrideMap)
      requires DocShape(data) && DocOverridable(data, overrides)
      modifies this
      ensures DocShape(data)
      ensures data == OverriddenDoc(old(data), overrides)
    {
      if data.epics.None? {
        return;
      }
      ghost var es := data.epics.value;
      var i := 0;
      while i < |data.epics.value|
        invariant data.epics.Some? && |data.epics.value| == |es|
        invariant 0 <= i <= |es|
        invariant forall j :: 0 <= j < i ==> data.epics.value[j] == OverriddenDoc(ProjectData(Some(es)), overrides).epics.value[j]
        invariant forall j :: i <= j < |es| ==> data.epics.value[j] == es[j]
        invariant DocShape(data)
      {
        var epic := data.epics.value[i];
        if epic.features.Some? {
          var features := ApplyToFeatures(epic.features.value, overrides);
          data := ProjectData(Some(data.epics.value[i := EpicItem(epic.fields, Some(features))]));
        }
        i := i + 1;
      }
      assert data.epics.value == OverriddenDoc(old(data), overrides).epics.value;
    }

    /** `exclude_features` */
    method ExcludeFeatures(keywords: seq<string>)
      requires DocTitlesReadable(data)
      modifies this
      ensures DocTitlesReadable(data)
      ensures old(DocShape(data)) ==> DocShape(data)
      ensures data == ExcludedDoc(old(data), keywords)
    {
      if keywords == [] || data.epics.None? {
        return;
      }
      ghost var es := data.epics.value;
      var i := 0;
      while i < |data.epics.value|
        invariant data.epics.Some? && |data.epics.value| == |es|
        invariant 0 <= i <= |es|
        invariant forall j :: 0 <= j < i ==>
          data.epics.value[j] == EpicItem(es[j].fields, Some(KeptFeatures(ListOrEmpty(es[j].features), keywords)))
        invariant forall j :: i <= j < |es| ==> data.epics.value[j] == es[j]
        invariant DocTitlesReadable(data)
      {
        var epic := data.epics.value[i];
        var kept := KeptFeatures(ListOrEmpty(epic.features), keywords);
        data := ProjectData(Some(data.epics.value[i := EpicItem(epic.fields, Some(kept))]));
        i := i + 1;
      }
      assert data.epics.value == ExcludedDoc(old(data), keywords).epics.value;
    }
  }

  /** Expanding an expanded document changes nothing. */
  lemma ExpandedDocIdempotent(d: ProjectData)
    requires DocShape(d)
    ensures ExpandedDoc(ExpandedDoc(d)) == ExpandedDoc(d)
  {
    if d.epics.Some? {
      var es := d.epics.value;
      forall i | 0 <= i < |es|
        ensures ExpandFeatures(ExpandFeatures(ListOrEmpty(es[i].features))) == ExpandFeatures(ListOrEmpty(es[i].features))
      {
        ExpandFeaturesIdempotent(ListOrEmpty(es[i].features));
      }
      assert ExpandedDoc(ExpandedDoc(d)).epics.value == ExpandedDoc(d).epics.value;
    }
  }

  /** After exclusion no remaining feature title contains a keyword, every
      feature that matched none is still there, and nothing new appears. */
  lemma ExcludedDocFeatures(d: ProjectData, keywords: seq<string>)
    requires DocTitlesReadable(d) && d.epics.Some? && keywords != []
    ensures var r := ExcludedDoc(d, keywords);
      && |r.epics.value| == |d.epics.value|
      && forall i :: 0 <= i < |d.epics.value| ==>
        var before, after := ListOrEmpty(d.epics.value[i].features), ListOrEmpty(r.epics.value[i].features);
        && r.epics.value[i].fields == d.epics.value[i].fields
        && after == KeptFeatures(before, keywords)
        && (forall f :: f in after ==> f in before && !MatchesAnyKeyword(f, keywords))
        && (forall f :: f in before && !MatchesAnyKeyword(f, keywords) ==> f in after)
        && multiset(after) <= multiset(before)
  {
  }

  /** Overrides keep the number of epics, features and stories and touch
      only `default_instances`. */
  lemma OverriddenDocShape(d: ProjectData, overrides: OverrideMap)
    requires DocShape(d) && DocOverridable(d, overrides)
    ensures var r := OverriddenDoc(d, overrides);
      && r.epics.Some? == d.epics.Some?
      && |ListOrEmpty(r.epics)| == |ListOrEmpty(d.epics)|
      && forall i :: 0 <= i < |ListOrEmpty(d.epics)| ==>
        var e, e' := ListOrEmpty(d.epics)[i], ListOrEmpty(r.epics)[i];
        && e'.fields == e.fields
        && |ListOrEmpty(e'.features)| == |ListOrEmpty(e.features)|
        && forall j :: 0 <= j < |ListOrEmpty(e.features)| ==>
          SameButInstances(ListOrEmpty(e.features)[j], ListOrEmpty(e'.features)[j])
  {
    if d.epics.Some? {
      var es := d.epics.value;
      forall i, j | 0 <= i < |es| && 0 <= j < |ListOrEmpty(es[i].features)|
        ensures SameButInstances(ListOrEmpty(es[i].features)[j], FeatureOverrides(ListOrEmpty(es[i].features)[j], overrides))
      {
        OverridesOnlyWriteInstances(ListOrEmpty(es[i].features)[j], overrides);
      }
    }
  }

  /** The feature loop of one epic for `apply_instance_overrides`. */
  method ApplyToFeatures(source: seq<FeatureItem>, overrides: OverrideMap) returns (features: seq<FeatureItem>)
    requires forall i :: 0 <= i < |source| ==> FeatureShape(source[i]) && Overridable(source[i], overrides)
    ensures features == seq(|source|, j requires 0 <= j < |source| => FeatureOverrides(source[j], overrides))
  {
    features := source;
    var k := 0;
    while k < |features|
      invariant 0 <= k <= |features| && |features| == |source|
      invariant forall j :: 0 <= j < k ==> features[j] == FeatureOverrides(source[j], overrides)
      invariant forall j :: k <= j < |features| ==> features[j] == source[j]
    {
      var feat := ApplyToFeature(features[k], overrides);
      features := features[k := feat];
      k := k + 1;
    }
  }
}
