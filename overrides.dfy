/** Instance overrides given on the command line (`Key=a,b`) and their
    application to parameterized features (`Key`) and stories
    (`FeatureKeyword.StoryKeyword`), and keyword exclusion of features. */
module Overrides {
  import opened Common
  import opened Models
  import opened Expansion

  /** Parsed overrides: an insertion-ordered dict from key to names. */
  type OverrideMap = seq<(string, seq<string>)>

  /** The trimmed comma-separated names of an override value. */
  function NamesOf(val: string): (r: seq<string>)
    ensures |r| >= 1
  {
    var parts := Split(val, ',');
    seq(|parts|, i requires 0 <= i < |parts| => Strip(parts[i]))
  }

  /** One command-line entry: None without "=", else the trimmed key and
      names, split at the first "=". */
  function ParseEntry(item: string): (r: Option<(string, seq<string>)>)
    ensures r.None? <==> '=' !in item
  {
    if '=' !in item then None
    else
      var kv := SplitFirst(item, '=');
      Some((Strip(kv.0), NamesOf(kv.1)))
  }

  /** The dict built from the entries, later keys replacing earlier ones. */
  function ParsedOverrides(raw: seq<string>): (r: OverrideMap)
    ensures DistinctKeys(r)
  {
    if raw == [] then []
    else
      var prev := ParsedOverrides(raw[..|raw| - 1]);
      match ParseEntry(raw[|raw| - 1])
      case None => prev
      case Some(kv) => PutDistinct(prev, kv.0, kv.1); Put(prev, kv.0, kv.1)
  }

  method ParseInstanceOverrides(rawList: Option<seq<string>>) returns (overrides: OverrideMap)
    ensures overrides == ParsedOverrides(rawList.GetOr([]))
    ensures rawList.None? ==> overrides == []
  {
    var raw := rawList.GetOr([]);
    overrides := [];
    for i := 0 to |raw|
      invariant overrides == ParsedOverrides(raw[..i])
    {
      assert raw[..i + 1][..i] == raw[..i];
      var item := raw[i];
      if '=' !in item {
        continue;
      }
      var kv := SplitFirst(item, '=');
      overrides := Put(overrides, Strip(kv.0), NamesOf(kv.1));
    }
    assert raw[..|raw|] == raw;
  }

  /** Reference reading of the dict: the value of the last entry whose key
      is `key`, if any. */
  function LastEntryFor(raw: seq<string>, key: string): Option<seq<string>> {
    if raw == [] then None
    else
      var e := ParseEntry(raw[|raw| - 1]);
      if e.Some? && e.value.0 == key then Some(e.value.1) else LastEntryFor(raw[..|raw| - 1], key)
  }

  /** Looking a key up in the parsed dict finds its last entry. */
  lemma {:induction false} ParsedOverridesLookup(raw: seq<string>, key: string)
    ensures Lookup(ParsedOverrides(raw), key) == LastEntryFor(raw, key)
  {
    if raw != [] {
      var prev := raw[..|raw| - 1];
      ParsedOverridesLookup(prev, key);
      match ParseEntry(raw[|raw| - 1])
      case None =>
      case Some(kv) => LookupPut(ParsedOverrides(prev), kv.0, kv.1, key);
    }
  }

  /** A key or a name with no surrounding whitespace, and a name without
      a comma. */
  predicate EntryTrimmed(e: (string, seq<string>)) {
    Strip(e.0) == e.0 && forall n :: n in e.1 ==> Strip(n) == n && ',' !in n
  }

  lemma ParseEntryTrimmed(item: string)
    requires '=' in item
    ensures EntryTrimmed(ParseEntry(item).value)
  {
    var kv := SplitFirst(item, '=');
    assert ParseEntry(item).value == (Strip(kv.0), NamesOf(kv.1));
    StripIdempotent(kv.0);
    NamesTrimmed(kv.1);
  }

  /** The names of a value carry no surrounding whitespace and no comma. */
  lemma NamesTrimmed(val: string)
    ensures forall n :: n in NamesOf(val) ==> Strip(n) == n && ',' !in n
  {
    var parts := Split(val, ',');
    var names := NamesOf(val);
    forall i | 0 <= i < |names|
      ensures Strip(names[i]) == names[i] && ',' !in names[i]
    {
      assert names[i] == Strip(parts[i]);
      StripIdempotent(parts[i]);
      StripInside(parts[i]);
    }
  }

  /** Keys and names of the parsed dict carry no surrounding whitespace,
      and no name contains a comma. */
  lemma {:induction false} ParsedOverridesTrimmed(raw: seq<string>)
    ensures forall e :: e in ParsedOverrides(raw) ==> EntryTrimmed(e)
  {
    if raw != [] {
      var prev := raw[..|raw| - 1];
      ParsedOverridesTrimmed(prev);
      var item := raw[|raw| - 1];
      if '=' in item {
        ParseEntryTrimmed(item);
        var kv := ParseEntry(item).value;
        PutEntries(ParsedOverrides(prev), kv.0, kv.1);
      }
    }
  }

  /** Every entry of `Put(m, k, v)` is `(k, v)` or an entry of `m`. */
  lemma {:induction false} PutEntries<K(!new), V>(m: seq<(K, V)>, k: K, v: V)
    ensures forall e :: e in Put(m, k, v) ==> e == (k, v) || e in m
  {
    if m != [] && m[0].0 != k {
      PutEntries(m[1..], k, v);
    }
  }

  /** `key=n1,n2,...` with a trimmed key free of "=" and trimmed names free
      of commas parses back to the key and the names. */
  lemma EntryRoundTrip(key: string, names: seq<string>)
    requires '=' !in key && Strip(key) == key
    requires |names| >= 1 && forall i :: 0 <= i < |names| ==> ',' !in names[i] && Strip(names[i]) == names[i]
    ensures ParseEntry(key + "=" + Join(names, ",")) == Some((key, names))
  {
    var joined := Join(names, ",");
    var item := key + "=" + joined;
    assert item == key + ['='] + joined;
    SplitFirstAt(key, '=', joined);
    NamesOfJoin(names);
  }

  lemma NamesOfJoin(names: seq<string>)
    requires |names| >= 1 && forall i :: 0 <= i < |names| ==> ',' !in names[i] && Strip(names[i]) == names[i]
    ensures NamesOf(Join(names, ",")) == names
  {
    SplitJoin(names, ',');
  }

  // ---------------------------------------------------------------------
  // Applying overrides
  // ---------------------------------------------------------------------

  /** `needle.lower() in hay.lower()` */
  predicate Matches(hay: string, needle: string) { Contains(Lower(hay), Lower(needle)) }

  /** What a parameterized story is matched against can be lower-cased:
      its instance key, when present, is a string. Any other value makes
      `match_field.lower()` raise AttributeError. */
  predicate KeyReadable(s: StoryItem) {
    Parameterized(s.fields) && "instance_key" in s.fields ==> s.fields["instance_key"].Str?
  }

  /** Every story of the feature has a readable instance key. */
  predicate StoryKeysReadable(f: FeatureItem) {
    f.stories.Some? ==> forall i :: 0 <= i < |f.stories.value| ==> KeyReadable(f.stories.value[i])
  }

  /** A dotted key reaches the feature's stories: the feature's title
      contains the part before the first dot, ignoring case. */
  predicate DottedMatch(f: FeatureItem, keyword: string)
    requires FeatureShape(f)
  {
    '.' in keyword && Matches(Title(f.fields), SplitFirst(keyword, '.').0)
  }

  /** The overrides run on the feature without raising: every dotted key
      that reaches its stories finds their instance keys readable. */
  predicate Overridable(f: FeatureItem, overrides: OverrideMap)
    requires FeatureShape(f)
  {
    forall i :: 0 <= i < |overrides| && DottedMatch(f, overrides[i].0) ==> StoryKeysReadable(f)
  }

  /** The field a story keyword is matched against: the instance key when
      the key is present, else the title. */
  function MatchField(s: StoryItem): string
    requires StoryShape(s) && Parameterized(s.fields) && KeyReadable(s)
  {
    if "instance_key" in s.fields then s.fields["instance_key"].s else Title(s.fields)
  }

  function WithInstances(f: Fields, names: seq<string>): Fields { f["default_instances" := Strs(names)] }

  /** A story-level override applied to one story. */
  function StoryOverride(s: StoryItem, storyKeyword: string, names: seq<string>): (r: StoryItem)
    requires StoryShape(s) && KeyReadable(s)
    ensures StoryShape(r) && KeyReadable(r)
  {
    if Parameterized(s.fields) && Matches(MatchField(s), storyKeyword)
    then StoryItem(WithInstances(s.fields, names), s.tasks)
    else s
  }

  /** One override applied to one feature. */
  function FeatureOverride(f: FeatureItem, keyword: string, names: seq<string>): (r: FeatureItem)
    requires FeatureShape(f) && (DottedMatch(f, keyword) ==> StoryKeysReadable(f))
    ensures FeatureShape(r) && Title(r.fields) == Title(f.fields)
    ensures StoryKeysReadable(f) ==> StoryKeysReadable(r)
  {
    if '.' in keyword then
      var parts := SplitFirst(keyword, '.');
      if !Matches(Title(f.fields), parts.0) then f
      else match f.stories
        case None => f
        case Some(l) => FeatureItem(f.fields, Some(seq(|l|, i requires 0 <= i < |l| => StoryOverride(l[i], parts.1, names))))
    else if Parameterized(f.fields) && Matches(Title(f.fields), keyword)
    then FeatureItem(WithInstances(f.fields, names), f.stories)
    else f
  }

  /** All overrides applied to one feature, in dict order. */
  function FeatureOverrides(f: FeatureItem, overrides: OverrideMap): (r: FeatureItem)
    requires FeatureShape(f) && Overridable(f, overrides)
    ensures FeatureShape(r) && Title(r.fields) == Title(f.fields)
    ensures StoryKeysReadable(f) ==> StoryKeysReadable(r)
  {
    if overrides == [] then f
    else
      var (kw, names) := overrides[|overrides| - 1];
      FeatureOverride(FeatureOverrides(f, overrides[..|overrides| - 1]), kw, names)
  }

  method ApplyToFeature(feature: FeatureItem, overrides: OverrideMap) returns (feat: FeatureItem)
    requires FeatureShape(feature) && Overridable(feature, overrides)
    ensures feat == FeatureOverrides(feature, overrides)
  {
    feat := feature;
    for o := 0 to |overrides|
      invariant Overridable(feature, overrides[..o])
      invariant FeatureShape(feat) && Title(feat.fields) == Title(feature.fields)
      invariant StoryKeysReadable(feature) ==> StoryKeysReadable(feat)
      invariant feat == FeatureOverrides(feature, overrides[..o])
    {
      assert overrides[..o + 1][..o] == overrides[..o];
      var (keyword, names) := overrides[o];
      if '.' in keyword {
        var parts := SplitFirst(keyword, '.');
        if !Matches(Title(feat.fields), parts.0) {
          continue;
        }
        if feat.stories.Some? {
          var stories := ApplyToStories(feat.stories.value, parts.1, names);
          feat := FeatureItem(feat.fields, Some(stories));
        }
      } else {
        if !Parameterized(feat.fields) {
          continue;
        }
        if Matches(Title(feat.fields), keyword) {
          feat := FeatureItem(WithInstances(feat.fields, names), feat.stories);
        }
      }
    }
    assert overrides[..|overrides|] == overrides;
  }

  /** The story loop of a dotted key, over one feature's stories. */
  method ApplyToStories(source: seq<StoryItem>, storyKeyword: string, names: seq<string>) returns (stories: seq<StoryItem>)
    requires forall i :: 0 <= i < |source| ==> StoryShape(source[i]) && KeyReadable(source[i])
    ensures stories == seq(|source|, i requires 0 <= i < |source| => StoryOverride(source[i], storyKeyword, names))
  {
    stories := source;
    var k := 0;
    while k < |stories|
      invariant 0 <= k <= |stories| && |stories| == |source|
      invariant forall j :: 0 <= j < k ==> stories[j] == StoryOverride(source[j], storyKeyword, names)
      invariant forall j :: k <= j < |stories| ==> stories[j] == source[j]
    {
      var story := stories[k];
      if Parameterized(story.fields) && Matches(MatchField(story), storyKeyword) {
        stories := stories[k := StoryItem(WithInstances(story.fields, names), story.tasks)];
      }
      k := k + 1;
    }
  }

  /** A story whose `instance_key` is null passes through every pass that
      does not lower-case it: a copy keeps the key, an instance drops it,
      and the override loop skips the story unless it is parameterized. */
  lemma NullInstanceKey(s: StoryItem, name: string, storyKeyword: string, names: seq<string>)
    requires StoryShape(s) && "instance_key" in s.fields && s.fields["instance_key"] == Null
    ensures StoryCopy(s, name).fields["instance_key"] == Null
    ensures "instance_key" !in StoryInstance(s, name).fields
    ensures !Parameterized(s.fields) ==> KeyReadable(s) && StoryOverride(s, storyKeyword, names) == s
    ensures Parameterized(s.fields) <==> !KeyReadable(s)
  {
  }

  /** Two features agree on everything but `default_instances`, on the
      feature and on each of its stories. */
  ghost predicate SameButInstances(f: FeatureItem, g: FeatureItem) {
    && (forall k :: k != "default_instances" ==> (k in f.fields <==> k in g.fields))
    && (forall k :: k in f.fields && k != "default_instances" ==> g.fields[k] == f.fields[k])
    && f.stories.Some? == g.stories.Some?
    && |ListOrEmpty(f.stories)| == |ListOrEmpty(g.stories)|
    && forall i :: 0 <= i < |ListOrEmpty(f.stories)| ==>
      var s, t := ListOrEmpty(f.stories)[i], ListOrEmpty(g.stories)[i];
      && s.tasks == t.tasks
      && (forall k :: k != "default_instances" ==> (k in s.fields <==> k in t.fields))
      && (forall k :: k in s.fields && k != "default_instances" ==> t.fields[k] == s.fields[k])
  }

  /** Overrides write `default_instances` and nothing else. */
  lemma {:induction false} OverridesOnlyWriteInstances(f: FeatureItem, overrides: OverrideMap)
    requires FeatureShape(f) && Overridable(f, overrides)
    ensures SameButInstances(f, FeatureOverrides(f, overrides))
  {
    if overrides != [] {
      var prev := overrides[..|overrides| - 1];
      var (kw, names) := overrides[|overrides| - 1];
      var g := FeatureOverrides(f, prev);
      OverridesOnlyWriteInstances(f, prev);
      OverrideOnlyWritesInstances(g, kw, names);
      SameButInstancesTrans(f, g, FeatureOverride(g, kw, names));
    }
  }

  /** One override writes `default_instances` and nothing else. */
  lemma OverrideOnlyWritesInstances(f: FeatureItem, keyword: string, names: seq<string>)
    requires FeatureShape(f) && (DottedMatch(f, keyword) ==> StoryKeysReadable(f))
    ensures SameButInstances(f, FeatureOverride(f, keyword, names))
  {
  }

  lemma SameButInstancesTrans(f: FeatureItem, g: FeatureItem, h: FeatureItem)
    requires SameButInstances(f, g) && SameButInstances(g, h)
    ensures SameButInstances(f, h)
  {
    forall i | 0 <= i < |ListOrEmpty(f.stories)|
      ensures var s, t := ListOrEmpty(f.stories)[i], ListOrEmpty(h.stories)[i];
        && s.tasks == t.tasks
        && (forall k :: k != "default_instances" ==> (k in s.fields <==> k in t.fields))
        && (forall k :: k in s.fields && k != "default_instances" ==> t.fields[k] == s.fields[k])
    {
      var m := ListOrEmpty(g.stories)[i];
      assert m.tasks == ListOrEmpty(h.stories)[i].tasks;
    }
  }

  /** A key without a dot writes the feature's instances exactly when the
      feature is parameterized and its title contains the key, ignoring
      case; its stories are untouched. */
  lemma FeatureKeyEffect(f: FeatureItem, keyword: string, names: seq<string>)
    requires FeatureShape(f) && '.' !in keyword
    ensures var r := FeatureOverride(f, keyword, names);
      && r.stories == f.stories
      && (Parameterized(f.fields) && Matches(Title(f.fields), keyword) ==> r.fields == WithInstances(f.fields, names))
      && (!(Parameterized(f.fields) && Matches(Title(f.fields), keyword)) ==> r == f)
  {
  }

  /** A dotted key leaves the feature's own fields alone and writes a
      story's instances exactly when the feature title contains the part
      before the first dot and the story is parameterized and its instance
      key (or title) contains the rest, ignoring case. */
  lemma StoryKeyEffect(f: FeatureItem, keyword: string, names: seq<string>)
    requires FeatureShape(f) && '.' in keyword && (DottedMatch(f, keyword) ==> StoryKeysReadable(f))
    ensures var r := FeatureOverride(f, keyword, names);
      var parts := SplitFirst(keyword, '.');
      && r.fields == f.fields
      && |ListOrEmpty(r.stories)| == |ListOrEmpty(f.stories)|
      && forall i :: 0 <= i < |ListOrEmpty(f.stories)| ==>
        var s := ListOrEmpty(f.stories)[i];
        ListOrEmpty(r.stories)[i] ==
          if Matches(Title(f.fields), parts.0) && Parameterized(s.fields) && Matches(MatchField(s), parts.1)
          then StoryItem(WithInstances(s.fields, names), s.tasks)
          else s
  {
  }

  /** Reference reading of the feature-level effect: the names of the last
      dot-free key that matches the feature. */
  function LastFeatureMatch(f: FeatureItem, overrides: OverrideMap): Option<seq<string>>
    requires FeatureShape(f)
  {
    if overrides == [] then None
    else
      var (kw, names) := overrides[|overrides| - 1];
      if '.' !in kw && Parameterized(f.fields) && Matches(Title(f.fields), kw) then Some(names)
      else LastFeatureMatch(f, overrides[..|overrides| - 1])
  }

  /** The feature ends up with the names of the last matching key, or with
      its own `default_instances` when no key matches. */
  lemma {:induction false} LastFeatureOverrideWins(f: FeatureItem, overrides: OverrideMap)
    requires FeatureShape(f) && Overridable(f, overrides)
    ensures var r := FeatureOverrides(f, overrides);
      match LastFeatureMatch(f, overrides)
      case Some(names) => "default_instances" in r.fields && r.fields["default_instances"] == Strs(names)
      case None =>
        && ("default_instances" in r.fields <==> "default_instances" in f.fields)
        && ("default_instances" in f.fields ==> r.fields["default_instances"] == f.fields["default_instances"])
  {
    if overrides != [] {
      var prev := overrides[..|overrides| - 1];
      var (kw, names) := overrides[|overrides| - 1];
      var g := FeatureOverrides(f, prev);
      LastFeatureOverrideWins(f, prev);
      OverridesOnlyWriteInstances(f, prev);
      assert g.fields["title"] == f.fields["title"];
      assert Get(g.fields, "parameterized", Null) == Get(f.fields, "parameterized", Null);
      if '.' in kw {
        StoryKeyEffect(g, kw, names);
      } else {
        FeatureKeyEffect(g, kw, names);
      }
    }
  }

  // ---------------------------------------------------------------------
  // Excluding features
  // ---------------------------------------------------------------------

  /** Some keyword occurs in the feature's title, read as "" when absent,
      ignoring case. */
  predicate MatchesAnyKeyword(f: FeatureItem, keywords: seq<string>) {
    TitleReadable(f.fields) && exists kw :: kw in keywords && Matches(TitleOrEmpty(f.fields), kw)
  }

  /** The features whose titles contain none of the keywords, in order. */
  function KeptFeatures(fs: seq<FeatureItem>, keywords: seq<string>): (r: seq<FeatureItem>)
    requires forall f :: f in fs ==> TitleReadable(f.fields)
    ensures forall f :: f in r ==> f in fs
    ensures forall f :: f in fs ==> (f in r <==> !MatchesAnyKeyword(f, keywords))
    ensures forall i :: 0 <= i < |r| ==> TitleReadable(r[i].fields)
    ensures (forall f :: f in fs ==> FeatureShape(f)) ==> forall i :: 0 <= i < |r| ==> FeatureShape(r[i])
    ensures multiset(r) <= multiset(fs)
  {
    var keep := (f: FeatureItem) => !MatchesAnyKeyword(f, keywords);
    FilterMembers(fs, keep);
    FilterMultiset(fs, keep);
    Filter(fs, keep)
  }

  /** Excluding twice is excluding once. */
  lemma KeptFeaturesIdempotent(fs: seq<FeatureItem>, keywords: seq<string>)
    requires forall f :: f in fs ==> TitleReadable(f.fields)
    ensures KeptFeatures(KeptFeatures(fs, keywords), keywords) == KeptFeatures(fs, keywords)
  {
    var r := KeptFeatures(fs, keywords);
    FilterAll(r, (f: FeatureItem) => !MatchesAnyKeyword(f, keywords));
  }

  /** Excluding works part by part: the survivors of `fs + gs` are those of
      `fs` followed by those of `gs`, so surviving features keep their
      relative order. */
  lemma KeptFeaturesAppend(fs: seq<FeatureItem>, gs: seq<FeatureItem>, keywords: seq<string>)
    requires forall f :: f in fs ==> TitleReadable(f.fields)
    requires forall g :: g in gs ==> TitleReadable(g.fields)
    ensures KeptFeatures(fs + gs, keywords) == KeptFeatures(fs, keywords) + KeptFeatures(gs, keywords)
  {
    FilterAppend(fs, gs, (f: FeatureItem) => !MatchesAnyKeyword(f, keywords));
  }

  /** One feature survives exactly when no keyword occurs in its title. */
  lemma KeptFeaturesSingle(f: FeatureItem, keywords: seq<string>)
    requires TitleReadable(f.fields)
    ensures KeptFeatures([f], keywords) == if MatchesAnyKeyword(f, keywords) then [] else [f]
  {
    assert [f][..0] == [];
  }

  /** A feature without a title is read as "" and so survives every
      non-empty keyword. */
  lemma UntitledFeatureKept(f: FeatureItem, keywords: seq<string>)
    requires "title" !in f.fields && forall kw :: kw in keywords ==> kw != []
    ensures KeptFeatures([f], keywords) == [f]
  {
    forall kw | kw in keywords
      ensures !Matches(TitleOrEmpty(f.fields), kw)
    {
      assert |Lower(kw)| == |kw|;
    }
    KeptFeaturesSingle(f, keywords);
  }
}
