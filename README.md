# DevOps Project Manager: a verified model of the core

DevOps Project Manager turns a YAML project template into Azure DevOps work
items, and reads an existing project back. A template is a hierarchy of epics,
features, user stories and tasks. The round trip runs in two directions:

- Forward: the template is validated, its parameterized features and stories
  are expanded, command-line instance overrides and feature exclusions are
  applied, and every record is uploaded top-down. A record is skipped when an
  item with its title already sits under the parent it is sent to. An epic is
  sent with no parent, so any item with its title, anywhere, skips it.
- Backward: the work items are fetched and normalised. They can be pruned to
  the subtree under one epic, arranged into a sorted forest, summarised,
  printed as an indented text tree, or turned back into a template.

This project models that core in Dafny, module by module:

| module | file | models |
|---|---|---|
| `Common` | common.dfy | dict values and Python truthiness; insertion-ordered dicts as association lists; `str.strip`, `str.lower`, `str.split`, `str.join`, `str.replace`, `in` |
| `Models` | models.dfy | the four work-item types, the per-type allow-list of API data fields (`build_work_item_data`) and the template record shapes |
| `Expansion` | expansion.dfy | `_replace_name`, `expand_parameterized`, `expand_parameterized_stories` and the per-epic loop of `expand_all_features` |
| `Overrides` | overrides.dfy | `parse_instance_overrides`, the per-feature body of `apply_instance_overrides`, and the feature filter of `exclude_features` |
| `TemplateDocument` | template_document.dfy | the loaded template as an object whose three passes rewrite it in place |
| `Validation` | validation.dfy | `validate_template` (the list of error messages) and `count_work_items` |
| `Slug` | slug.dfy | `slugify` |
| `WorkItems` | work_items.dfy | the normalised item of the hierarchy service and the `(type rank, title)` sibling order |
| `Prune` | prune.dfy | `prune_to_subtree` (breadth-first reachability) |
| `Sorting` | sorting.dfy | a stable insertion sort, the model of `sorted(..., key=...)` |
| `TreeBuild` | tree_build.dfy | `build_tree` |
| `Summary` | summary.dfy | `compute_summary` |
| `TreeText` | tree_text.dfy | `format_tree_text` |
| `HtmlText` | clean_html.dfy | `clean_html` |
| `TreeYaml` | tree_yaml.dfy | `tree_to_yaml_structure` |
| `HtmlBlocks` | to_html.dfy | `DevOpsClient._to_html` |
| `IterationNodes` | iteration_nodes.dfy | `DevOpsClient._flatten_iteration_nodes` |
| `DevOps` | devops_client.dfy | the `DevOpsClient` with no credentials: the in-memory work-item store and iteration list, and the operations on them |
| `Upload` | upload.dfy | `_build_data`, `_create_and_track`, `_resolve_id`, `upload_from_yaml` |

The source takes three forms, and the model follows each:

- Code that mutates objects becomes Dafny classes with `modifies` frames:
  - `DevOps.DevOpsClient` holds the item store and the iteration list as
    sequence fields, plus their two id counters.
  - `TemplateDocument.TemplateDocument` holds the loaded template, which its
    three passes rewrite.
- Loops become methods, each proved equal to a specification function, with
  the properties proved about that function. Examples: the prune queue, the
  child map, the summary tallies, the validation walk, the counts, the
  bullet buffer of `_to_html`, and the upload walk.
- Recursion and comprehensions become functions and lemmas.

The store is a dict keyed by id with insertion order. The model keeps it as a
sequence with distinct ids and an increasing counter (`StoreValid`).

The model follows the code in two places where the source disagrees with
itself:

- The docstring of `apply_instance_overrides` (src/template_service.py:202-203)
  says a story keyword is matched against the title "if no key is set". The
  code uses `instance_key` whenever the key is present, even when its value
  is empty, and so does `Overrides.MatchField`.
- The skip test `work_item_exists` matches title and parent
  (src/devops_client.py:90-95). The id of a skipped record is then resolved
  by `_resolve_id`, which looks up by title alone (src/upload_service.py:32-38).
  It can therefore pick a same-titled item under another parent, and the
  record's children are sent under that item. The upload walk follows the
  code (`Upload.ResolveIdAsWritten`). A lookup by title and parent, which
  finds the item that caused the skip, is stated apart (`Upload.ResolveId`),
  and the difference is listed under "## Findings".

## Model

| member | source | states |
|---|---|---|
| Common.Strip | src/hierarchy_service.py:281 | `str.strip`: a non-empty result neither begins nor ends with whitespace |
| Common.StripIdempotent | src/hierarchy_service.py:281 | stripping twice is stripping once |
| Common.StripInside | src/hierarchy_service.py:281 | stripping keeps only characters of the input |
| Common.StripNone | src/template_service.py:328 | a string that neither begins nor ends with whitespace is not changed by stripping |
| Common.VisibleNotSpace | src/template_service.py:328 | `IsSpace`, the whitespace of `str.isspace`, holds of no visible ASCII character |
| Common.Lower | src/template_service.py:328 | `str.lower`: same length, each character lower-cased on its own |
| Common.LowerAppend | src/template_service.py:328 | lower-casing a concatenation lower-cases each part |
| Common.Split | src/template_service.py:189 | `str.split`: at least one part, and no part holds the separator |
| Common.JoinSplit | src/template_service.py:189 | joining the parts of a split with the separator gives the string back |
| Common.SplitJoin | src/template_service.py:189 | splitting a join of separator-free parts gives the parts back |
| Common.ReplaceAllAbsent | src/template_service.py:75 | `str.replace` (`ReplaceAll`) leaves a string without the pattern unchanged |
| Common.ReplaceAllSkip | src/template_service.py:75 | text before the first character of the pattern is kept as it is |
| Common.ReplaceAllSplice | src/template_service.py:75 | an occurrence of the pattern after text without its first character becomes the replacement, and the rest is rewritten in turn |
| Models.AllowedDataFields | src/models.py:119-127 | the allow-list is defined exactly for the four known types, and title, description and iteration path are allowed for each |
| Models.BuildWorkItemData | src/models.py:130-140 | an unknown type fails with "Unknown work item type: T"; otherwise the result is the sub-dict of the data whose keys the type allows, values unchanged, and no allowed key of the data is dropped |
| Models.UnknownTypeRejected | src/models.py:137-139 | a type outside the four (e.g. "Bug") is rejected with its message |
| Models.EpicFeatureFieldsOnly | src/models.py:120-121 | epic and feature data never carry story points, estimate or acceptance criteria |
| Models.StoryFields | src/models.py:122-125 | user-story data never carries an estimate, and keeps story points and acceptance criteria when given |
| Models.TaskFields | src/models.py:126 | task data never carries story points or acceptance criteria, and keeps the estimate when given |
| Models.IterationPathKept | src/models.py:119-127 | the iteration path survives the filter for every known type |
| Models.BuildWorkItemDataIdempotent | src/models.py:130-140 | filtering an already filtered dict changes nothing |
| Expansion.Substitute | src/template_service.py:75 | text without either placeholder is returned unchanged |
| Expansion.ReplaceName | src/template_service.py:71-75 | falsy text is returned as is, a string stays a string, and a string without a placeholder is unchanged |
| Expansion.SubstitutePlaceholder | src/template_service.py:75 | `{{name}}` between texts without '{' is replaced by the name, and the texts around it are kept |
| Expansion.SubstituteSpaced | src/template_service.py:75 | `{{ name }}` between texts without '{' is replaced by the name, and the texts around it are kept |
| Expansion.SubstituteExample | src/template_service.py:75 | "Load {{name}} data" with the name "SAP" becomes "Load SAP data" |
| Expansion.ReplaceNamePlaceholder | src/template_service.py:71-75 | a string value holding either placeholder once, between texts without '{', becomes the same string with the name in its place |
| Expansion.DescriptionFor | src/template_service.py:95 | the description of a copy is always a string (`get("description") or ""` substituted) |
| Expansion.TaskCopy | src/template_service.py:104-107 | a task copy keeps the task's shape (titled, textual description) |
| Expansion.TasksCopy | src/template_service.py:102-109 | a story copy has a task list exactly when the story had one, and every copied task keeps its shape |
| Expansion.StoryCopy | src/template_service.py:99-110 | a story copy inside an expanded feature keeps the story's shape |
| Expansion.ExpandParameterized | src/template_service.py:78-112 | the loop builds exactly the specified expansion of the feature |
| Expansion.ExpandedFeatureCopies | src/template_service.py:91-112 | a parameterized feature with names expands to one copy per name, in order, each with keys title and description only, the name substituted in its title, no longer parameterized, and with the original story titles in the original order |
| Expansion.ExpandedFeatureShape | src/template_service.py:78-112 | every expanded feature keeps the feature shape |
| Expansion.StoryInstance | src/template_service.py:144-158 | a story instance keeps the story shape and carries none of parameterized, default_instances, instance_key |
| Expansion.ExpandParameterizedStories | src/template_service.py:115-162 | the loop builds exactly the specified story expansion of the feature |
| Expansion.AppendExpansion | src/template_service.py:138-159 | the instances of one story are appended after what was built so far |
| Expansion.ExpandedStoriesSettled | src/template_service.py:115-162 | story expansion leaves the feature's own fields alone and leaves no parameterized story with names behind |
| Expansion.SettledFixed | src/template_service.py:84-89 | a feature with nothing left to expand is returned unchanged by both expansions |
| Expansion.ExpandFeature | src/template_service.py:169-173 | every feature produced from one feature has nothing left to expand |
| Expansion.ExpandFeatures | src/template_service.py:167-174 | every feature of an expanded list is well shaped and has nothing left to expand |
| Expansion.ExpandFeaturesSettled | src/template_service.py:165-175 | a list with nothing to expand is its own expansion |
| Expansion.ExpandFeaturesIdempotent | src/template_service.py:165-175 | expanding twice is expanding once |
| Expansion.ExpandFeaturesPlain | src/template_service.py:84-85 | a list with no parameterized feature or story is unchanged |
| Expansion.ExpandFeatureList | src/template_service.py:168-174 | the per-epic loop builds exactly the expansion of the feature list |
| Overrides.NamesOf | src/template_service.py:189 | a value always yields at least one name |
| Overrides.ParseEntry | src/template_service.py:186-189 | an argument is skipped exactly when it has no '=' |
| Overrides.ParsedOverrides | src/template_service.py:182-190 | the parsed overrides have distinct keys |
| Overrides.ParseInstanceOverrides | src/template_service.py:182-190 | the loop builds exactly the specified override map, and a missing list gives no overrides |
| Overrides.ParsedOverridesLookup | src/template_service.py:189 | the names stored for a key are those of the last argument with that key |
| Overrides.ParseEntryTrimmed | src/template_service.py:188-189 | a parsed key and all its names are stripped of surrounding whitespace |
| Overrides.NamesTrimmed | src/template_service.py:189 | every parsed name is stripped and contains no comma |
| Overrides.ParsedOverridesTrimmed | src/template_service.py:182-190 | every entry of the parsed map is trimmed |
| Overrides.EntryRoundTrip | src/template_service.py:186-189 | parsing `key=n1,...,nk` gives back the key and the names when they are trimmed and free of '=' and ',' |
| Overrides.NamesOfJoin | src/template_service.py:189 | splitting the comma-joined names gives the names back |
| Overrides.StoryOverride | src/template_service.py:213-218 | a story keeps its shape under a story-level override, and a readable `instance_key` stays readable |
| Overrides.FeatureOverride | src/template_service.py:207-224 | a feature keeps its shape and title under one override; readable story keys stay readable |
| Overrides.FeatureOverrides | src/template_service.py:207-224 | a feature keeps its shape and title under all overrides in order; readable story keys stay readable |
| Overrides.ApplyToFeature | src/template_service.py:206-224 | the loop over the overrides computes exactly the specified overridden feature |
| Overrides.ApplyToStories | src/template_service.py:213-218 | the story loop applies the story-level override to each story, in place and in order |
| Overrides.NullInstanceKey | src/template_service.py:213-217 | a null `instance_key` is copied as is into a feature copy and dropped from a story instance; a story that is not parameterized is left alone by the overrides whatever its key, and a parameterized one is exactly where a null key cannot be read |
| Overrides.OverridesOnlyWriteInstances | src/template_service.py:193-224 | overrides change nothing but the default_instances of features and stories |
| Overrides.FeatureKeyEffect | src/template_service.py:219-224 | a key without '.' sets the feature's default_instances exactly when the feature is parameterized and its title contains the key case-insensitively, and touches nothing else |
| Overrides.StoryKeyEffect | src/template_service.py:208-218 | a `Feature.Story` key sets a story's default_instances exactly when the feature title contains the feature keyword, the story is parameterized and its match field contains the story keyword, all case-insensitively; the feature's own fields are unchanged |
| Overrides.LastFeatureOverrideWins | src/template_service.py:207-224 | after all overrides, a feature's default_instances are the names of the last matching feature-level key, or are untouched when none matches |
| Overrides.KeptFeatures | src/template_service.py:232-235 | a feature is kept exactly when no keyword occurs in its title (the empty string for a feature without one) case-insensitively; kept features are a sub-multiset of the originals, and keep readable titles and, when the originals had it, the feature shape |
| Overrides.KeptFeaturesIdempotent | src/template_service.py:227-235 | excluding twice with the same keywords is excluding once |
| Overrides.KeptFeaturesAppend | src/template_service.py:232-235 | the features kept from two lists in sequence are those kept from the first followed by those kept from the second, so survivors keep their relative order |
| Overrides.KeptFeaturesSingle | src/template_service.py:234 | a single feature is kept exactly when no keyword occurs in its title |
| Overrides.UntitledFeatureKept | src/template_service.py:234 | a feature without a title reads as "" and is kept by any list of non-empty keywords |
| TemplateDocument.ExpandedDoc | src/template_service.py:165-175 | the expanded template keeps the template shape |
| TemplateDocument.OverriddenDoc | src/template_service.py:205-224 | the overridden template keeps the template shape |
| TemplateDocument.ExcludedDoc | src/template_service.py:227-235 | the filtered template keeps readable titles, and keeps the template shape when it had it |
| TemplateDocument.TemplateDocument.ExpandAllFeatures | src/template_service.py:165-175 | in place, the document becomes the expansion of its old contents and keeps the template shape |
| TemplateDocument.TemplateDocument.ApplyInstanceOverrides | src/template_service.py:193-224 | in place, the document becomes its old contents with the overrides applied, and keeps the template shape |
| TemplateDocument.TemplateDocument.ExcludeFeatures | src/template_service.py:227-235 | in place, the document becomes its old contents with matching features removed; readable titles, and the template shape when present, are kept |
| TemplateDocument.ApplyToFeatures | src/template_service.py:206-224 | the feature loop applies all overrides to each feature of an epic |
| TemplateDocument.ExpandedDocIdempotent | src/template_service.py:165-175 | expanding the document twice is expanding it once |
| TemplateDocument.ExcludedDocFeatures | src/template_service.py:227-235 | the epic count and every epic's own fields are unchanged; each epic's features become `Overrides.KeptFeatures` of its features, so they keep their order, and they are exactly those matching no keyword, as a sub-multiset |
| TemplateDocument.OverriddenDocShape | src/template_service.py:193-224 | overrides keep every epic's fields and the number of features, and change each feature only in its default_instances |
| Validation.Messages | src/template_service.py:252-267 | one message per issue, in order, each the issue's text (`Message`, with the record named by `Label`: its title, or its number when untitled) |
| Validation.ValidateTemplate | src/template_service.py:242-268 | the method returns exactly the specified error list |
| Validation.RenderMessages | src/template_service.py:244-268 | the collected issues are rendered in order |
| Validation.ValidateEpic | src/template_service.py:250-267 | the walk of one epic appends exactly that epic's issues |
| Validation.ValidateFeatures | src/template_service.py:253-267 | the walk of an epic's features appends exactly their issues in order |
| Validation.ValidateFeature | src/template_service.py:254-267 | the walk of one feature appends exactly its issues |
| Validation.ValidateStories | src/template_service.py:256-267 | the walk of a feature's stories appends exactly their issues in order |
| Validation.ValidateStory | src/template_service.py:257-267 | the walk of one story appends exactly its issues |
| Validation.ValidateTasks | src/template_service.py:263-267 | the walk of a story's tasks appends exactly their issues in order |
| Validation.TemplateErrorsEmpty | src/template_service.py:242-268 | a template has no errors exactly when it has an epic and every epic, feature and story has a title, every story a description and acceptance criteria, and every task a title and an estimate |
| Validation.NoEpicsOnly | src/template_service.py:246-248 | a template without epics gives the single error "Template must contain at least one epic." |
| Validation.EpicsIssuesEmpty | src/template_service.py:250-267 | an epic list has no issues exactly when every epic is complete |
| Validation.StoryIssueReported | src/template_service.py:256-262 | every problem of any story at any depth is reported |
| Validation.MissingStoryFieldsReported | src/template_service.py:259-262 | a story lacking both description and acceptance criteria yields at least two errors |
| Validation.MissingEstimateReported | src/template_service.py:266-267 | a task without an estimate yields "Task 'T': missing estimate." |
| Validation.MinimalTemplateValid | src/template_service.py:242-268 | a complete one-of-each template validates cleanly |
| Validation.CountWorkItems | src/template_service.py:310-323 | the returned four counts are the specified counts of the document |
| Validation.CountEpics | src/template_service.py:316-322 | the epic loop adds exactly the counts of the epics |
| Validation.CountFeatures | src/template_service.py:318-322 | the feature loop adds exactly the counts of the features |
| Validation.CountStories | src/template_service.py:320-322 | the story loop adds exactly the counts of the stories |
| Validation.DocCountsNodes | src/template_service.py:310-323 | the epic count is the number of epics, and the four counts add up to the number of records in the hierarchy |
| Validation.EpicsCountsNodes | src/template_service.py:316-322 | an epic list counts one epic per element, and its total is its number of records |
| Validation.FeaturesCountsNodes | src/template_service.py:318-322 | a feature list counts no epic and one feature per element, and its total is its number of records |
| Validation.StoriesCountsNodes | src/template_service.py:320-322 | a story list counts one story per element plus its tasks, and its total is its number of records |
| Slug.CollapseRuns | src/template_service.py:330-331 | every run of class characters becomes one '-'; other characters are kept |
| Slug.Slugify | src/template_service.py:326-332 | the result is a slug: lower-case letters, digits and single hyphens, never starting or ending with '-' |
| Slug.SlugifyWords | src/template_service.py:326-332 | letter-and-digit words separated by single spaces, followed by characters outside `[\w\s-]`, give the lower-cased words joined by '-' |
| Slug.SlugifyAcme | tests/test_template_service.py:287 | "Acme Data Platform" gives "acme-data-platform" |
| Slug.SlugifyMyProject | tests/test_template_service.py:288 | "My Project!!!" gives "my-project" |
| Slug.CollapseJoin | src/template_service.py:330-331 | words separated by single characters of a class come out separated by single hyphens |
| Slug.CollapseRunsSkip | src/template_service.py:330-331 | a prefix without characters of the class passes through unchanged |
| Slug.SlugFixedPoint | src/template_service.py:326-332 | a slug slugifies to itself |
| Slug.SlugifyIdempotent | src/template_service.py:326-332 | slugifying twice is slugifying once |
| Slug.CollapseHyphensNoDouble | src/template_service.py:331 | after collapsing, no two hyphens are adjacent |
| Slug.SlugCleans | src/template_service.py:328-331 | every cleaning step leaves a slug unchanged |
| Slug.WindowSlug | src/template_service.py:331 | a hyphen-stripped window of clean text is a slug |
| WorkItems.Normalise | src/hierarchy_service.py:62-76 | a normalised item takes its id, title, type, parent, story points and estimate from the API field names, "" or None when missing |
| WorkItems.TypeRankPosition | src/hierarchy_service.py:119 | `TypeRank`: the rank of a known type is its position in the type list; every other type ranks 99 |
| WorkItems.TypeRankOrder | src/hierarchy_service.py:128-129 | epics sort before features before stories before tasks before unknown types, whatever the titles |
| WorkItems.KeyLePreorder | src/hierarchy_service.py:128-129 | `KeyLe`, the `(type rank, title)` key order, is a total preorder |
| WorkItems.StrLeTotal | src/hierarchy_service.py:129 | `StrLe`, Python's string order: any two titles are comparable |
| WorkItems.StrLeTrans | src/hierarchy_service.py:129 | title order is transitive |
| WorkItems.StrLeAntisym | src/hierarchy_service.py:129 | title order is antisymmetric |
| Prune.ChildrenMap | src/hierarchy_service.py:97-101 | the child map sends each parent to exactly its children in the dict, in dict order |
| Prune.ChildIdsMembers | src/hierarchy_service.py:98-101 | a child id is listed exactly when an item with that id links to the parent |
| Prune.KeepReachable | src/hierarchy_service.py:103-110 | the queue loop keeps exactly the ids reachable from the roots through child links |
| Prune.PruneToSubtree | src/hierarchy_service.py:95-112 | the result is the dict filtered to the reachable ids |
| Prune.PrunedSubset | src/hierarchy_service.py:112 | pruning keeps a sub-multiset of the items, exactly those reachable |
| Prune.PrunedKeepsRoots | src/hierarchy_service.py:104-109 | every root present in the dict is kept |
| Prune.PrunedClosed | src/hierarchy_service.py:105-110 | the children of a kept item are kept |
| Prune.PrunedDropsUnreachable | src/hierarchy_service.py:103-112 | an item not reachable from the roots is dropped |
| Sorting.SortBy | src/hierarchy_service.py:133 | sorting permutes its input |
| Sorting.SortBySorted | src/hierarchy_service.py:138 | under a total preorder the result is sorted and a permutation |
| Sorting.SortByMembers | src/hierarchy_service.py:133 | sorting keeps exactly the same members |
| Sorting.InsertBySorted | src/hierarchy_service.py:133 | inserting into a sorted list keeps it sorted |
| Sorting.SortByStable | src/hierarchy_service.py:133-138 | the sort is stable: for every element, the elements of its rank come out in the order they went in |
| Sorting.InsertByStable | src/hierarchy_service.py:133 | inserting into a sorted list places the element after every element of its rank |
| TreeBuild.Partition | src/hierarchy_service.py:121-126 | the loop builds a child map of the items and exactly the list of roots |
| TreeBuild.SortByKeySorted | src/hierarchy_service.py:128-138 | siblings sorted by key are ordered by `(type rank, title)` and are a permutation of the input |
| TreeBuild.RootsExact | src/hierarchy_service.py:121-138 | the sorted roots are exactly the items whose parent is unset, zero or not in the dict (`WorkItems.ParentIn` says when it is) |
| TreeBuild.BuildNode | src/hierarchy_service.py:131-136 | a node carries the item it was built from |
| TreeBuild.BuildTree | src/hierarchy_service.py:115-139 | the forest is one node per sorted root, each built by `build_node` with any child map of the items |
| TreeBuild.BuildNodeChildren | src/hierarchy_service.py:133-135 | a node's children are its item's sorted children, less those already on the path |
| TreeBuild.BuildNodeShape | src/hierarchy_service.py:131-136 | in every subtree, siblings are sorted and every child links to its parent |
| TreeBuild.BuildTreeShape | src/hierarchy_service.py:115-139 | the roots are sorted and parentless, and every tree is sorted and attached |
| TreeBuild.BuildNodeComplete | src/hierarchy_service.py:131-136 | with distinct ids, every child of an item appears under its node |
| TreeBuild.BuildTreeComplete | src/hierarchy_service.py:115-139 | with distinct ids, every tree of the forest holds all descendants of its root |
| TreeBuild.BuildNodeAnyMap | src/hierarchy_service.py:131-136 | the tree does not depend on how the child map was built |
| TreeBuild.ChildrenMapOf | src/hierarchy_service.py:117-124 | a child map exists for every item dict |
| Summary.ComputeSummary | src/hierarchy_service.py:146-168 | the summary holds the item count, the per-type and per-type-and-state tallies, and the story-point and estimate sums |
| Summary.TalliesStep | src/hierarchy_service.py:153-160 | one more item bumps its type and state tallies and adds its truthy points and estimate |
| Summary.CountsOfType | src/hierarchy_service.py:155 | the count of a type is the number of items of that type, absent when none |
| Summary.StatesOfType | src/hierarchy_service.py:156 | a type has state counts exactly when it has items, and each is the number of its items in that state |
| Summary.CountsTotal | src/hierarchy_service.py:155-163 | the per-type counts add up to the total item count |
| Summary.StatesTotal | src/hierarchy_service.py:155-156 | a type's state counts add up to its count |
| Summary.PointsAppend | src/hierarchy_service.py:157-160 | the point and estimate sums are additive over concatenation |
| Summary.StoryPointsTruthyOnly | src/hierarchy_service.py:157-158 | only items with truthy story points contribute to the sum |
| Summary.EstimateTruthyOnly | src/hierarchy_service.py:159-160 | only items with a truthy estimate contribute to the sum |
| Summary.LookupBump | src/hierarchy_service.py:155 | bumping a counter adds one to its key and leaves the others alone |
| Summary.TotalBump | src/hierarchy_service.py:155 | bumping a counter adds one to its total |
| TreeText.NodeLine | src/hierarchy_service.py:179-195 | the method builds the specified line of a node |
| TreeText.FormatTreeText | src/hierarchy_service.py:175-200 | the recursive method returns exactly the specified lines of the forest |
| TreeText.LinesArePreOrder | src/hierarchy_service.py:175-200 | the lines are the nodes in depth-first pre-order, each rendered at its depth with its last-sibling flag |
| TreeText.PreOrderSize | src/hierarchy_service.py:197-199 | there is exactly one line per node |
| TreeText.PreOrderTopLevel | src/hierarchy_service.py:178-181 | no line is shallower than the starting indent, and the lines at that indent are the top-level nodes in order, only the last flagged last |
| TreeText.LineShape | src/hierarchy_service.py:179-195 | `Line`, `Label` and `Extras`: a line is two spaces per level, then no connector at the top and a last or middle connector below it, then "type: title", then extras in parentheses exactly when there are any |
| TreeText.Render | src/hierarchy_service.py:195 | one line per visit, in order |
| HtmlText.CleanHtml | src/hierarchy_service.py:273-281 | empty text cleans to ""; cleaned text contains no tag and has no leading or trailing whitespace |
| HtmlText.CleanHtmlPlain | src/hierarchy_service.py:273-281 | text without '<' is only stripped |
| HtmlText.StripTags | src/hierarchy_service.py:280 | deleting tags keeps only characters of the input, and keeps text without '<' unchanged |
| HtmlText.StripTagsNoTag | src/hierarchy_service.py:280 | after deleting tags none remains |
| HtmlText.StripTagsSkip | src/hierarchy_service.py:280 | text before the first '<' is kept as it is |
| HtmlText.StripTagsSplice | src/hierarchy_service.py:280 | a tag after text without '<' is deleted, and the rest is stripped in turn |
| HtmlText.StripTagsBold | tests/test_hierarchy_service.py:424-425 | "<b>bold</b>" loses both tags and gives "bold" |
| HtmlText.ReplaceBreaks | src/hierarchy_service.py:279 | every character of the result is a newline or a character of the input, and text without '<' is unchanged |
| HtmlText.ReplaceBreaksSkip | src/hierarchy_service.py:279 | text before the first '<' is kept as it is |
| HtmlText.ReplaceBreaksSplice | src/hierarchy_service.py:279 | a line-break tag after text without '<' becomes one newline, and the rest is rewritten in turn |
| HtmlText.ReplaceBreaksAtTag | src/hierarchy_service.py:279 | a line-break tag at the start becomes one newline |
| HtmlText.BreakTags | src/hierarchy_service.py:279 | "<br>", "<br/>" and "<br />" are line-break tags |
| HtmlText.TagAt | src/hierarchy_service.py:280 | a tag match is '<', at least one non-'>' character, and the first '>' |
| HtmlText.BreakAt | src/hierarchy_service.py:279 | a measured match is at least 4 characters long, begins with '<' and ends with '>' |
| HtmlText.BreakAtTag | src/hierarchy_service.py:279 | the measured prefix is a whole `<br\s*/?>` match: "<br", whitespace, an optional '/', then '>' |
| HtmlText.BreakAtExact | src/hierarchy_service.py:279 | a `<br\s*/?>` match at the start is exactly the prefix measured, so no other prefix matches |
| TreeYaml.ItemFields | src/hierarchy_service.py:226-253 | a record has its title, and has id, state, cleaned description, cleaned acceptance criteria (stories only), story points (stories only), estimate (tasks only) and iteration path exactly when non-empty or set, with those values |
| TreeYaml.RecordFields | src/hierarchy_service.py:228-253 | the same field-by-field characterisation for given cleaned texts |
| TreeYaml.ItemFieldsAllowed | src/hierarchy_service.py:206-216 | apart from id and state, a record of a known type holds only fields the model allow-list permits for that type |
| TreeYaml.LevelFields | src/hierarchy_service.py:209-214 | epics and features carry no points, estimate or criteria; stories no estimate; tasks no points or criteria |
| TreeYaml.ItemTextClean | src/hierarchy_service.py:236-245 | exported descriptions and acceptance criteria hold no tag and no surrounding whitespace |
| TreeYaml.RecordChildren | src/hierarchy_service.py:255-265 | `EpicRecord`, `FeatureRecord`, `StoryRecord`: each level lists one record per child of the level below, in order, and omits the list when there is none |
| TreeYaml.KidsOfTyped | src/hierarchy_service.py:259-263 | only children of the expected type are exported |
| TreeYaml.TreeToYamlEpics | src/hierarchy_service.py:269-270 | `TreeToYaml`: the document lists one epic record per epic root, in order |
| TreeYaml.TreeToYamlShape | src/hierarchy_service.py:203-270 | an exported document has the template shape |
| TreeYaml.EpicRecordShape | src/hierarchy_service.py:226-267 | an exported epic has the epic record shape |
| TreeYaml.FeatureRecordShape | src/hierarchy_service.py:226-267 | an exported feature has the feature record shape |
| TreeYaml.StoryRecordShape | src/hierarchy_service.py:226-267 | an exported story has the story record shape |
| TreeYaml.TaskRecordShape | src/hierarchy_service.py:226-267 | `TaskRecord`: an exported task has the task record shape |
| HtmlBlocks.Lines | src/devops_client.py:438 | the text is cut into at least one line, and no line holds a line break |
| HtmlBlocks.ToHtml | src/devops_client.py:428-459 | empty text is returned as is; otherwise the output is the rendered blocks of its lines |
| HtmlBlocks.RenderLines | src/devops_client.py:438-459 | the loop with its bullet buffer renders exactly the blocks of the lines |
| HtmlBlocks.StripLine | src/devops_client.py:449-453 | the stripped line classifies as the line does |
| HtmlBlocks.AddLine | src/devops_client.py:448-456 | one line either extends the pending bullet list or flushes it and adds a paragraph |
| HtmlBlocks.FlushBullets | src/devops_client.py:442-446 | flushing appends the pending list, if any, as one block |
| HtmlBlocks.Parts | src/devops_client.py:439-456 | one rendered part per block, in order |
| HtmlBlocks.BlocksKeepEntries | src/devops_client.py:448-458 | every non-blank line appears once, in order, as a paragraph or a bullet item |
| HtmlBlocks.BlocksGrouped | src/devops_client.py:442-458 | no two bullet lists are adjacent and no list is empty |
| IterationNodes.FlattenIterationNodes | src/devops_client.py:326-341 | the recursive method returns exactly the pre-order flattening |
| IterationNodes.FlattenRoot | src/devops_client.py:208-211 | the root's children are flattened in order with an empty prefix |
| IterationNodes.FlattenSize | src/devops_client.py:326-341 | one record per node of the tree |
| IterationNodes.InheritedPath | src/devops_client.py:329-340 | in a tree without paths every record carries the prefix |
| IterationNodes.FlattenHead | src/devops_client.py:329-338 | `Flatten` and `RecordOf`: the first record is the node's own, with its path or else the prefix and no dates without attributes; a node with a path ignores the prefix |
| DevOps.IndexOf | src/devops_client.py:600 | the position of the first item with the id, or none exactly when no item has it |
| DevOps.FindItem | src/devops_client.py:593 | an item is found exactly when one has the id |
| DevOps.NewItem | src/devops_client.py:579-587 | a new item has the given id, type and parent, state "New", and the title, description and iteration path of the data, each "" when absent |
| DevOps.Patch | src/devops_client.py:600-609 | title, description, state and iteration path are replaced when the data has them; id, type and parent never change |
| DevOps.GetView | src/devops_client.py:591-596 | a view exists exactly for a stored id and shows its id, title and description |
| DevOps.FindByTitle | src/devops_client.py:68-72 | an id is returned exactly when an item with that id has the title |
| DevOps.FindByTitleAppend | src/devops_client.py:68-72 | searching two stores one after the other lists the first's matches, then the second's |
| DevOps.FindByTitleSingle | src/devops_client.py:68-72 | a single item is found exactly by its own title |
| DevOps.RunWiql | src/devops_client.py:119-120 | an id is returned exactly when it is stored, whatever the query |
| DevOps.FindItemAppend | src/devops_client.py:588 | storing a fresh item makes it findable and leaves other lookups alone |
| DevOps.GetViewPatched | src/devops_client.py:598-611 | after an update, the item's view shows the new title and description where given; other views are unchanged |
| DevOps.ExistsIffFound | src/devops_client.py:90-95 | with no parent given, a title exists exactly when searching it by title finds something |
| DevOps.BatchIds | src/devops_client.py:153-163 | `Batch`: a batch lists the found ids in request order, unknown ids skipped, each with its item's API fields |
| DevOps.BatchNormalises | src/devops_client.py:141-162 | `ApiFields` writes the API field names; normalising a batch record gives back the stored item's values |
| DevOps.FirstNamed | src/devops_client.py:389-390 | the position of the first iteration with the name, or none exactly when no iteration has it |
| DevOps.Revised | src/devops_client.py:391-397 | a non-empty new name renames and re-paths; given dates replace; id and identifier stay |
| DevOps.RevisedKeepsValid | src/devops_client.py:387-398 | an update keeps the iteration list valid (ids below the counter, increasing, identifiers and paths derived) |
| DevOps.RevisedIdempotent | src/devops_client.py:387-398 | applying the same update twice is applying it once |
| DevOps.DevOpsClient.constructor | src/devops_client.py:12-21 | a client without credentials starts with both stores empty and both counters at 1 |
| DevOps.DevOpsClient.CreateInMemory | src/devops_client.py:574-589 | the item is built from the counter, which advances by one, and appended; it was not stored before; iterations are untouched |
| DevOps.DevOpsClient.Create | src/devops_client.py:46-59 | without credentials, creation is the in-memory creation |
| DevOps.DevOpsClient.UpdateInMemory | src/devops_client.py:598-611 | an unknown id fails with "Work item N not found" and changes nothing; a known one is patched in place and returned |
| DevOps.DevOpsClient.DeleteInMemory | src/devops_client.py:613-618 | success exactly when the id was stored; afterwards it is not, and only that item was removed |
| DevOps.DevOpsClient.WorkItemExists | src/devops_client.py:82-95 | true exactly when an item has the title and, when a parent is given, that parent |
| DevOps.DevOpsClient.GetWorkItemsBatch | src/devops_client.py:127-163 | the loop returns exactly the specified batch |
| DevOps.DevOpsClient.GetIterations | src/devops_client.py:190-198 | the listed iterations have derived identifiers and paths and increasing ids |
| DevOps.DevOpsClient.CreateIteration | src/devops_client.py:373-385 | the new iteration takes the counter as id, "guid-N" as identifier and the derived path, is appended, and the counter advances |
| DevOps.DevOpsClient.UpdateIteration | src/devops_client.py:387-399 | an unknown name fails with "Iteration 'X' not found" and changes nothing; otherwise the first iteration of that name is revised in place and returned |
| Upload.BuildData | src/upload_service.py:47-58 | the data keeps the title, the description, criteria and iteration path when truthy, and the points and estimate when not None, with their values, and nothing else |
| Upload.BuildDataIdempotent | src/upload_service.py:47-58 | building data from built data changes nothing |
| Upload.BuildDataOfExport | src/upload_service.py:47-58 | an exported record uploads with all its fields except id and state |
| Upload.BuildDataKeepsAll | src/upload_service.py:47-58 | a record holding only non-empty data fields is uploaded whole |
| Upload.ExportFieldKept | src/upload_service.py:47-58 | every exported field other than id and state survives `_build_data` |
| Upload.CreateAndTrack | src/upload_service.py:11-29 | an exception gives an error result and no change; an existing title under the parent gives "Already exists" and no change; otherwise the item is created and its id reported as "ID: N" |
| Upload.FirstMatch | src/devops_client.py:91-94 | the first item with the title (and the parent, when given), or none exactly when there is no such item |
| Upload.ResolveIdAsWritten | src/upload_service.py:32-38 | a created id is kept; for a skipped record an id is found exactly when some item has the title, under any parent |
| Upload.ResolveIdTopLevel | src/upload_service.py:32-38 | for top-level records the corrected lookup agrees with the code as written |
| Upload.ResolveIdWrongParent | src/upload_service.py:32-38 | a skipped feature under epic 3 resolves, as written, to the same-titled feature under epic 1 |
| Upload.ResolveIdSkipped | src/upload_service.py:32-38 | the corrected lookup of a skipped record finds an item with the title under the intended parent |
| Upload.UploadRecord | src/upload_service.py:67-70 | one record is skipped exactly when an item with its title sits under the given parent, and otherwise created and stored as the item built from its data under that parent. Its id is resolved as the code does, by title alone, against the store it met: the new id, else the first item with its title |
| Upload.UploadTasks | src/upload_service.py:84-87 | the tasks of a story are uploaded in order, each sent under the story's resolved id. Every record is created exactly when no item with its title sat under its parent in the store it met, and is then stored as the item built from its data; otherwise it is skipped and the store is unchanged (`Upload.Uploaded`). |
| Upload.UploadStory | src/upload_service.py:78-87 | a story is sent under the feature's id and then its tasks under the story's own resolved id. Every record is created exactly when no item with its title sat under its parent in the store it met, and is then stored as the item built from its data; otherwise it is skipped and the store is unchanged (`Upload.Uploaded`). |
| Upload.UploadStories | src/upload_service.py:78-87 | the stories of a feature are uploaded in order, each story under the feature's id and its tasks under the story's resolved id. Every record is created exactly when no item with its title sat under its parent in the store it met, and is then stored as the item built from its data; otherwise it is skipped and the store is unchanged (`Upload.Uploaded`). |
| Upload.UploadFeature | src/upload_service.py:72-87 | a feature is sent under the epic's id, then its stories under the feature's resolved id, and their tasks under each story's. Every record is created exactly when no item with its title sat under its parent in the store it met, and is then stored as the item built from its data; otherwise it is skipped and the store is unchanged (`Upload.Uploaded`). |
| Upload.UploadFeatures | src/upload_service.py:72-87 | the features of an epic are uploaded in order, each record under the resolved id of the record above it. Every record is created exactly when no item with its title sat under its parent in the store it met, and is then stored as the item built from its data; otherwise it is skipped and the store is unchanged (`Upload.Uploaded`). |
| Upload.UploadEpic | src/upload_service.py:66-87 | an epic is sent with no parent, then its features under the epic's resolved id, and so on down. Every record is created exactly when no item with its title sat under its parent in the store it met, and is then stored as the item built from its data; otherwise it is skipped and the store is unchanged (`Upload.Uploaded`). |
| Upload.UploadEpics | src/upload_service.py:66-87 | the epics are uploaded in order, every record sent under the resolved id of the record above it. Every record is created exactly when no item with its title sat under its parent in the store it met, and is then stored as the item built from its data; otherwise it is skipped and the store is unchanged (`Upload.Uploaded`). |
| Upload.UploadedFromEmpty | src/upload_service.py:61-89 | from an empty store: one result per record in walk order, no errors, every record created and resolving to its own new id when titles are distinct, and created ids increasing |
| Upload.UploadFromYaml | src/upload_service.py:61-89 | a template with a record whose title is missing or not a string fails. Otherwise: the results follow the walk and contain no error; each record is skipped exactly when an item with its title sat under its parent in the store it met, and otherwise created as the item built from its data; every created item sits under the resolved id of the record above it (epics under none); every record resolves to an id; all records are created when titles are distinct; created ids increase |
| Upload.UploadedAppend | src/upload_service.py:64-88 | two uploads in sequence are one upload of both parts, replaying record by record from the first store |
| Upload.UploadedOne | src/upload_service.py:17-26 | for one record: created exactly when no item with its title sat under its parent, and then the store grows by exactly the item built from its data, with "ID: N"; otherwise skipped with "Already exists" and the store unchanged |
| Upload.Replay | src/upload_service.py:11-29 | replaying the records one by one never removes or changes an item of the starting store |
| Upload.ReplayAppend | src/upload_service.py:64-88 | replaying two parts one after the other is replaying both together |
| Upload.UploadedSkipped | src/upload_service.py:19-21 | a record skipped with "Already exists" because its title sits under its parent leaves the store alone and resolves to an existing item with its title |
| Upload.UploadedCreated | src/upload_service.py:23-26 | a record whose title is not under its parent, created with its id reported as "ID: N", adds exactly the item built from its data, under its parent, and resolves to the new id |
| Upload.ResolveIdGrows | src/upload_service.py:32-38 | once a title lookup finds an id, later additions to the store do not change it |
| Upload.ResolvedAppend | src/upload_service.py:70-82 | the ids resolved by two uploads in sequence stay what they were in the final store |
| Upload.CreatedUnderAppend | src/upload_service.py:73-85 | the created items of two uploads in sequence all sit under their records' parents |
| Upload.CreatedOfAll | src/upload_service.py:25-26 | when every record is created, the created list is the results' types, titles and ids |

In the "states" column, "the specified X" means the function of the same module that defines X. The lemmas in the rows around it give that function's properties. A function with no contract of its own, such as `TreeText.Line` or `TreeYaml.EpicRecord`, is named in the row of the lemma that states it.

Every upload step states `Upload.Uploaded(before, after, results, walk, parents, ids)`. Record `i` was sent under `parents[i]` and resolved to `ids[i]`. The predicate holds when all of the following do:

- there is one result per visited record, in order, and none is an error;
- the store only grows, by exactly the created results, in order;
- every created item sits in the store under the parent its record was sent under;
- every record resolved to an id, and that id is what the title-only lookup of `_resolve_id` gives in the final store (the same as in the store the record met, since the store only grows);
- a record is left uncreated only when its title was stored before or visited earlier;
- replayed record by record from `before` (`Upload.Replay`, one `Upload.Step` per record), the records lead to `after`. Each record is checked against the store it met. When an item with its title sat under its parent there (`Upload.Present`, the check of `work_item_exists`), the record was skipped with "Already exists" and the store did not change. Otherwise the record was created: its result carries the new id, reported as "ID: N", and the store grew by exactly the item `_create_in_memory` builds from the record's `_build_data` (title, description, iteration path, state "New") under that parent. `Upload.UploadedOne` reads this back for a single record.

The walk methods compute `parents` from `ids` (`Upload.StoryParents` up to `Upload.DocParents`): epics go under no parent, and every other record under the resolved id of the record above it.

## Left out

- HTTP calls, credentials and the Azure DevOps REST branches of every client method are left out. So are `validate_connection`, `subscribe_iteration`, `configure`, `fetch_hierarchy`'s queries, `load_template`, `save_yaml`, `lint_yaml`, `_print_result` and all printing. The model is the client with no credentials configured.
- `_create_and_track` catches any exception. In memory nothing raises, so the error message is an input (`failure`) instead.
- Dict iteration order is modelled as sequence order. The item store is a sequence with distinct ids, and counters are association lists in first-insertion order.
- Floats (story points, estimates) are modelled as integers.
- Python `str.lower`, `\w` and `\s` are modelled on ASCII letters, digits and the whitespace of `str.isspace`. Unicode case mapping and Unicode word characters are left out.
- `str.splitlines` is modelled as a cut at every line-break character. A `"\r\n"` pair therefore gives an extra empty line. Blank lines are dropped, so the output of `_to_html` is the same.
- Template shape. The expansion and override passes are stated for templates whose records have the shape of the template models (`Models.StoryShape`, `Models.FeatureShape`, `Models.DocShape`): a string title; a description and acceptance criteria that are strings or falsy; names as default_instances. The source raises (a `KeyError` or an `AttributeError`) only on the records it reads. Expansion reads every story and task of a parameterized feature with instances, and every parameterized story with instances. The overrides read a feature's title, and the `instance_key` or title of its parameterized stories. Records the source passes over may hold any value. The members below are therefore stated for well-shaped templates only:
- Expansion.StoryCopy, Expansion.TaskCopy, Expansion.TasksCopy: the story and its tasks must be well shaped even when the feature is not expanded.
- Expansion.ExpandParameterized: every record of the feature must be well shaped, also when the feature is not parameterized and is returned as it is.
- Expansion.ExpandedFeatureCopies, Expansion.ExpandedFeatureShape: the same requirement as `Expansion.ExpandParameterized`.
- Expansion.StoryInstance, Expansion.AppendExpansion: the story must be well shaped, including the parts no instance reads.
- Expansion.ExpandParameterizedStories: every story must be well shaped, also the stories that are not parameterized and are kept as they are.
- Expansion.ExpandedStoriesSettled, Expansion.SettledFixed: the same requirement as `Expansion.ExpandParameterizedStories`.
- Expansion.ExpandFeature, Expansion.ExpandFeatures, Expansion.ExpandFeatureList: every feature of the list must be well shaped.
- Expansion.ExpandFeaturesSettled, Expansion.ExpandFeaturesIdempotent: the same requirement as `Expansion.ExpandFeatures`.
- Expansion.ExpandFeaturesPlain: the same requirement as `Expansion.ExpandFeatures`. For a list with nothing parameterized, the source reads only the `parameterized` flags (src/template_service.py:84-85, 128-130), so it accepts records of any shape there.
- Overrides.StoryOverride: the story must be well shaped. Its `instance_key` is constrained only as the source needs: when the story is parameterized, a key that is present must be a string, as `.lower()` is called on it (src/template_service.py:216-217). Any other story may hold any `instance_key`, null included (`Overrides.NullInstanceKey`).
- Overrides.FeatureOverride, Overrides.FeatureOverrides, Overrides.ApplyToFeature: the feature must be well shaped, so it has a string title. The source reads the title with `get("title", "")` for a dotted key, so it also accepts a feature without a title there. A string `instance_key` is required only as the source needs it: on the parameterized stories of a feature that a dotted key matches (`Overrides.Overridable`).
- Overrides.ApplyToStories: every story must be well shaped, with the same `instance_key` rule as `Overrides.StoryOverride`.
- Overrides.OverridesOnlyWriteInstances, Overrides.FeatureKeyEffect, Overrides.StoryKeyEffect, Overrides.LastFeatureOverrideWins: the same requirement as `Overrides.FeatureOverrides`.
- TemplateDocument.ExpandedDoc, TemplateDocument.TemplateDocument.ExpandAllFeatures, TemplateDocument.ExpandedDocIdempotent: every record of the template must be well shaped (`Models.DocShape`), for the reasons given for `Expansion.ExpandFeatures`.
- TemplateDocument.OverriddenDoc, TemplateDocument.TemplateDocument.ApplyInstanceOverrides, TemplateDocument.ApplyToFeatures, TemplateDocument.OverriddenDocShape: every record must be well shaped, with the `instance_key` rule of `Overrides.FeatureOverrides` (`TemplateDocument.DocOverridable`).
- Feature exclusion is not restricted by shape. `Overrides.KeptFeatures`, `TemplateDocument.ExcludedDoc` and `TemplateDocument.TemplateDocument.ExcludeFeatures` require only what `f.get("title", "").lower()` needs (src/template_service.py:234): a string title or none at all (`Models.TitleReadable`). A feature without a title is kept (`Overrides.UntitledFeatureKept`).
- Upload.UploadFromYaml: two kinds of record end the upload with one failure, "KeyError or TypeError: 'title'". A record without a title raises a `KeyError` in `_build_data`. A record whose title is not a string raises a `TypeError` in `_print_result`, which slices and pads the title. The model does not tell apart which of the two the source raises first. No results are returned in either case, as in the source, where the exception ends `upload_from_yaml`.
- HtmlBlocks.ToHtml: `_to_html(None)` returns None (src/devops_client.py:435). This case is not modelled, because every caller checks that the text is truthy before calling (src/devops_client.py:474, 478).
- Other types of value are not modelled:
  - A child list under a key holding `null` is not represented. A list is either absent or a list.
  - A text field of a fetched item holding a non-string value reads as "".
- Aliasing is left out. `get_iterations` returns the stored iteration dicts, and `create_iteration` and `_create_in_memory` return the stored dict itself, so the caller's copy changes with later updates. The model returns values.
- `build_tree` drops items whose parent links form a cycle, because they are neither roots nor below a root. The model drops them too. `TreeBuild.BuildNode` carries the ids on its path as a termination measure. With distinct ids, as in a dict, that never cuts off a child (`TreeBuild.BuildNodeComplete`). With repeated ids, which a dict cannot hold, it stops at a repeated id.
- `Validation.DocCountsNodes` states the counts of any template in general. No literal example document is stated.
- Flattening of the iteration tree returned by the service (the loop in `get_iterations`) is modelled by `IterationNodes.FlattenRoot`. `DevOps.DevOpsClient.GetIterations` models only the in-memory list.
- The third slug example of tests/test_template_service.py, "  spaces  and---dashes  ", is not stated as an example. `Slug.SlugifyWords` covers names whose words are separated by single spaces; `Slug.Slugify` and `Slug.SlugFixedPoint` cover the rest in general.
- `Overrides.ParseInstanceOverrides` takes the raw list as an option. Any falsy list behaves like the empty one.

## Findings

| source | as written | input that shows it | evidently intended | confidence | as-written member | corrected member |
|---|---|---|---|---|---|---|
| src/upload_service.py:32-38 | a skipped record's id is looked up by title alone (`find_by_title`), so it can resolve to a same-titled item under another parent, and the record's children are uploaded under that item | a store with feature "X" (id 2) under epic 1 and feature "X" (id 4) under epic 3; uploading feature "X" under epic 3 is skipped and resolves to 2 | resolve to the item that caused the skip: same title and same parent (id 4) | medium, not executed | Upload.ResolveIdWrongParent | Upload.ResolveIdSkipped |
