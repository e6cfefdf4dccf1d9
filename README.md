# AAS dashboard: tree building and menu classification

This project models two utility files of a welding-equipment dashboard. The
dashboard shows Asset Administration Shells (AAS): digital twins of machines,
each made of submodels that hold property, collection, file and
multi-language elements.

`src/utils/dataTransform.js` turns the shells returned by the repository API
into a navigation tree:
- one equipment node per shell, named after its short id plus an identifier
  taken from its id or a facility name;
- one submodel node per submodel reference, named after the submodel body,
  its id's path, or `Unknown Submodel`;
- element nodes built from the submodel's elements, with units, language
  texts and search matches worked out element by element;
- while no search is active, a placeholder child that stands for lazy
  loading.

The same file also holds the helpers that toggle a node's `expanded` flag and
move the `selected` flag through a tree.

`src/utils/menuFilters.js` places every shell under the dashboard's menu
types. It uses keyword tables and looks for each keyword, ignoring case, in
the shell's id, short id, global asset id, asset kind and description texts.
Shells whose short id is `component` are left out. From there it builds the
per-menu lists and counts, the `ALL` list, the filtered search results and
the names shown for each menu type.

## Modules

- `Wrappers`: `Option`.
- `JsBuiltins`: the JavaScript string and array built-ins the code relies on.
  These are `toLowerCase`, `includes`, `split`, `join`, `trim`, `/^\d+$/`,
  `findIndex` and decimal printing, with lemmas about them.
- `AasTypes`: the shapes the API returns (shells, references, submodels,
  elements, language strings), and the rules for a value's truthiness and
  for how it prints in a template string.
- `Sequences`: subsequences, distinctness and `filter`.
- `AasLookup`: identifier extraction, submodel reference resolution, submodel
  lookup, facility name lookup, and the submodel name derived from an id.
- `ElementFormat`: element types, units, property value display and
  language selection. It also holds the file-element match, in the form as
  written and in a corrected form.
- `TreeNodes`: the tree node record.
- `TreeBuilder`: `transformSubmodelElements` and `transformApiToTree`.
- `TreeUpdate`: `updateTreeNodes`, `toggleNodeExpanded` and
  `updateSelectedNode`.
- `MenuCatalog`: the menu types, the keyword tables and the display names.
- `MenuFilters`: classification, the menu tables, and search-result
  filtering.

## How the JavaScript code is modelled

- Every operation is a pure function, except where the code loops. Those are
  `getSubmodelId`, `findFacilityName`, `getAASCategories` and
  `processAASData`. Each of them is a method whose loop keeps invariants,
  proved equal to a specification function.
- `filterAASByMenuType`, `calculateMenuCounts` and `filterSearchResults` have
  no loop of their own. They are methods only because they call
  `processAASData`, and they are proved against the same specification
  functions.
- `null` and `undefined` are both `None`. A string is truthy when it is
  present and non-empty.
- An element's `value` is one of these:
  - missing;
  - `null`;
  - a string;
  - an array of elements;
  - an array of language strings.
- `processAASData` builds plain objects by pushing into arrays. These become
  maps from menu type to a list of shells and from menu type to a count,
  rebuilt one shell at a time.

## Model

| member | source | states |
|---|---|---|
| AasLookup.ExtractIdentifierFromId | src/utils/dataTransform.js:11-28 | An identifier is found only for a truthy id; it is non-empty, not all digits and contains no `/` |
| AasLookup.ExtractIdentifierFromSegments | src/utils/dataTransform.js:15-27 | For an id made of `/`-free segments whose first `aas` is segment k, the result is segment k+2 exactly when it exists, is non-empty and is not all digits; otherwise null |
| AasLookup.ExtractIdentifierWithoutAas | src/utils/dataTransform.js:18-19 | An id with no `aas` segment yields no identifier |
| AasLookup.ExtractIdentifierExample | src/utils/dataTransform.js:14 | The id `https://example.com/aas/TungstenInsertGasType-classify/150LMT2/1/0` yields `150LMT2`, as the code's comment promises |
| AasLookup.JoinLongerThanPart | src/utils/dataTransform.js:15 | A joined id is at least as long as each of its segments, so a truthy id never splits into a single empty segment |
| AasLookup.FirstKeyValue | src/utils/dataTransform.js:37-43 | The first truthy key value; it names the earliest key with a truthy value, and is absent exactly when no key has one |
| AasLookup.SubmodelIdOf | src/utils/dataTransform.js:34-49 | A truthy key value wins; without one, the first truthy of `id`, `value` and `type`, in that order; otherwise nothing. The result is never an empty string |
| AasLookup.GetSubmodelId | src/utils/dataTransform.js:34-49 | The loop returns the first truthy key value when there is one, otherwise the first truthy of `id`, `value`, `type`; null exactly when all of these are falsy; never an empty string |
| AasLookup.GetSemanticIdValue | src/utils/dataTransform.js:76-79 | Present exactly when the first key exists and has a truthy value, and then it is that value |
| AasLookup.SemanticIdFirstKeyOnly | src/utils/dataTransform.js:77-78 | Keys after the first never affect the semantic id value |
| AasLookup.FindSubmodelData | src/utils/dataTransform.js:55-71 | No result for a falsy id. A submodel with that exact id wins when there is one; otherwise there is a result exactly when some submodel has that short id or semantic id. The result is always one of the submodels, matching by id or loosely |
| AasLookup.FindSubmodelDataFirstMatch | src/utils/dataTransform.js:55-71 | The result is the first submodel with that exact id; when there is none, it is the first submodel that matches by short id or semantic id |
| AasLookup.ExactIdBeatsLooseMatch | src/utils/dataTransform.js:60-63 | A submodel matching by id is chosen over an earlier one matching only by short id or semantic id |
| AasLookup.FacilityIn | src/utils/dataTransform.js:94-103 | Nothing unless the body is named `Identification` and lists elements; then whatever `FacilityAmong` finds among those elements |
| AasLookup.FacilityAmong | src/utils/dataTransform.js:96-101 | The value of the first element named `FacilityName`, present exactly when that value is truthy; nothing when no element has that name |
| AasLookup.FacilityFromRefs | src/utils/dataTransform.js:90-106 | The facility of the first reference that resolves to one; present exactly when some reference does |
| AasLookup.FacilityName | src/utils/dataTransform.js:85-107 | Nothing for a shell without submodel references. Otherwise the truthy facility of the first reference that yields one; present exactly when some reference does |
| AasLookup.FindFacilityName | src/utils/dataTransform.js:85-107 | The loop returns the facility of the first reference that has one; null for a shell without submodel references; a returned value is truthy |
| AasLookup.SmCapture | src/utils/dataTransform.js:342-344 | The capture of `/sm/<a>/<b>/<name>/(<digits>/<digits>)?/?$` over the id's segments: the name at the leftmost position where the pattern matches to the end, none exactly when it matches nowhere |
| AasLookup.SubmodelNameFromId | src/utils/dataTransform.js:341-350 | The pattern's capture when the pattern matches; otherwise the name `SegmentName` takes from the `/`-pieces. Never empty, and free of `/` unless it is `Unknown Submodel` |
| AasLookup.SegmentName | src/utils/dataTransform.js:346-349 | The first piece that is `Identification`, `Nameplate` or `TechnicalData`; with none of them, the last piece unless it is empty, and then `Unknown Submodel`. Never empty |
| AasLookup.SubmodelNameOfCapture | src/utils/dataTransform.js:342-344 | When the pattern matches, the name is its capture |
| AasLookup.SmCaptureTrailingSlash | src/utils/dataTransform.js:342 | `.../sm/<a>/<b>/<name>/` captures `<name>` |
| AasLookup.SmCaptureVersioned | src/utils/dataTransform.js:342 | `.../sm/<a>/<b>/<name>/<digits>/<digits>` captures `<name>` |
| AasLookup.SubmodelNameTrailingSlash | src/utils/dataTransform.js:339-345 | An id ending in `/sm/<a>/<b>/<name>/` derives the name `<name>` |
| AasLookup.SubmodelNameVersioned | src/utils/dataTransform.js:339-345 | An id ending in `/sm/<a>/<b>/<name>/<v>/<w>` with digit versions derives the name `<name>` |
| AasLookup.NoSlashInConcat | src/utils/dataTransform.js:346 | Segments free of `/` stay free of it when concatenated |
| AasLookup.TailSlashFree | src/utils/dataTransform.js:342 | The tail segments of the pattern are free of `/` when their parts are |
| AasTypes.OrEmpty | src/utils/dataTransform.js:329 | A field used with an empty-string fallback: the string itself when truthy, else the empty string |
| AasTypes.AsElements | src/utils/dataTransform.js:241-243 | An array value seen as elements has the array's length |
| AasTypes.AsLangStrings | src/utils/dataTransform.js:201-209 | An array value seen as language strings has the array's length |
| AasTypes.Repeat | src/utils/dataTransform.js:268 | `String` of an array prints one `[object Object]` per entry |
| AasTypes.JoinRepeatShape | src/utils/dataTransform.js:268 | n copies of `[object Object]` joined by commas take 16n-1 characters and start with a copy |
| AasTypes.Stringify | src/utils/dataTransform.js:268 | `String` of a string is itself; of an array of n entries, `[object Object]` n times joined by commas, 16n-1 characters, empty for no entry |
| ElementFormat.ElementType | src/utils/dataTransform.js:119-131 | The type table: a listed model type maps to its node type, and is never `element`; every other model type maps to `element`; no element becomes an equipment, submodel or placeholder node |
| ElementFormat.ElementTypeInjective | src/utils/dataTransform.js:120-130 | Distinct model types get distinct node types |
| ElementFormat.FirstUnit | src/utils/dataTransform.js:168-173 | The unit of the first table entry whose pattern occurs in the text; none exactly when no pattern occurs |
| ElementFormat.UnitFromSemanticId | src/utils/dataTransform.js:156-174 | No unit without a semantic id value. With one, the unit of the first table pattern occurring in the lower-cased value, no earlier pattern occurring; none exactly when no pattern occurs |
| ElementFormat.VoltageWinsInSemanticId | src/utils/dataTransform.js:156-174 | A semantic id mentioning `voltage` gets `V`, whatever else it mentions |
| ElementFormat.UnitFromIdShort | src/utils/dataTransform.js:179-195 | None for a falsy short id. Otherwise the unit of the first of voltage, current, frequency, rate, duty, weight, time that the lower-cased id contains. Only when none of them occurs: `KVA` exactly under `capacity` with `kva`, `KW` exactly under `capacity` with `kw` but not `kva`, otherwise none |
| ElementFormat.CapacityWithoutScaleHasNoUnit | src/utils/dataTransform.js:190-194 | A short id mentioning `capacity` but neither `kva` nor `kw` (nor an earlier keyword) gets no unit |
| ElementFormat.PropertyUnit | src/utils/dataTransform.js:143-145 | The semantic id's unit wins, then a truthy `unit` field, then the short id's unit; none exactly when all three are missing |
| ElementFormat.FormatPropertyValue | src/utils/dataTransform.js:136-151 | Null exactly for a null, undefined or empty value. Otherwise the printed value, followed by a space and the unit when there is one |
| ElementFormat.LanguageIndex | src/utils/dataTransform.js:203-207 | The first entry with the given language; none exactly when no entry has it |
| ElementFormat.MultiLanguageValue | src/utils/dataTransform.js:200-210 | Null for a non-array. Otherwise the preferred language's text, else the English text. Failing both, the first entry's text, present exactly when the array is non-empty and that text is truthy. A result is always some entry's text |
| ElementFormat.MultiLanguageFallsBackToFirst | src/utils/dataTransform.js:209 | Without a preferred or English entry, the first entry's text is used |
| ElementFormat.ElementsHaveNoLanguageText | src/utils/dataTransform.js:201-209 | An array of elements yields no language text |
| ElementFormat.FileMatchAsWritten | src/utils/dataTransform.js:288 | The file match as written: no match without a term, and it raises only with a term and either a missing short id or an array value |
| ElementFormat.FileMatchAsWrittenRaises | src/utils/dataTransform.js:288 | A file element without a short id or value raises an error as soon as a term is given |
| ElementFormat.FileMatchAgrees | src/utils/dataTransform.js:288 | Wherever the code as written does not raise, it agrees with the corrected match |
| ElementFormat.FileWithoutIdShortMatchesByPath | src/utils/dataTransform.js:288 | In the corrected match, a file without a short id matches exactly when its path contains the term |
| ElementFormat.FileMatches | src/utils/dataTransform.js:288 | The corrected file match: never without a term; a path or a short id containing the term, ignoring case, is a match; a match comes from one of the two |
| TreeBuilder.ElementId | src/utils/dataTransform.js:223 | An element id is parent id, `_`, then the short id when it is truthy, otherwise `element_` and the decimal index |
| TreeBuilder.BaseNode | src/utils/dataTransform.js:222-231 | The starting node: the element id, the short id as name or `Unnamed`, the element type and data, the concept, no children, and every flag false |
| TreeBuilder.ElementNode | src/utils/dataTransform.js:221-293 | One element's node. Its id, type and data come from the element; it starts collapsed and unselected. Its concept is the one for its semantic id. It has children exactly for a collection whose value is an array, and then they are that array's nodes. `hasValue` is set exactly for a non-blank property or a multi-language property with a text |
| TreeBuilder.ArrayChildren | src/utils/dataTransform.js:242-247 | A collection gets one child per entry of its array value |
| TreeBuilder.TransformElements | src/utils/dataTransform.js:221-293 | One node per element, in order, each with the element's id and data |
| TreeBuilder.TransformSubmodelElements | src/utils/dataTransform.js:215-219 | No nodes for a non-array, otherwise one per element |
| TreeBuilder.TransformElementsAt | src/utils/dataTransform.js:221 | The i-th node is the i-th element's node at index i |
| TreeBuilder.BlankElementNode | src/utils/dataTransform.js:222-231 | An element with no fields gets just the base node |
| TreeBuilder.ElementNodeMatchedIff | src/utils/dataTransform.js:250-290 | An element node is marked exactly when the element or some element below it matches the term directly |
| TreeBuilder.NoTermNoElementMatch | src/utils/dataTransform.js:259-291 | Without a search term no element node at any depth is marked |
| TreeBuilder.ElementNodesCollapsed | src/utils/dataTransform.js:226-253 | Element nodes are collapsed at every depth, even while searching |
| TreeBuilder.ElementIdsNested | src/utils/dataTransform.js:223-247 | At every depth a child's id starts with its parent's id and `_` |
| TreeBuilder.SiblingIdsCollide | src/utils/dataTransform.js:223 | Two sibling elements with the same short id get the same node id |
| TreeBuilder.PropertyNameWithUnit | src/utils/dataTransform.js:263-266 | A property with a value and a unit is named `<idShort>: <value> <unit>` |
| TreeBuilder.PropertyNameWithoutUnit | src/utils/dataTransform.js:263-266 | A property with a value and no unit is named `<idShort>: <value>` |
| TreeBuilder.RatedCurrentExample | src/utils/dataTransform.js:259-272 | A property `RatedOutputCurrent` with value `350` and semantic id `Current` is named `RatedOutputCurrent: 350 A` |
| TreeBuilder.CurrentSemanticIdUnit | src/utils/dataTransform.js:162 | The semantic id `Current` yields the unit `A` |
| TreeBuilder.SubmodelList | src/utils/dataTransform.js:301 | The submodel bodies are the array given, or the single object given, or none |
| TreeBuilder.EquipmentName | src/utils/dataTransform.js:304-317 | An equipment name always starts with the short id, or `Unknown AAS` |
| TreeBuilder.EquipmentSuffix | src/utils/dataTransform.js:307-315 | The note is ` (<identifier>)` when the id yields an identifier other than the short id; otherwise the facility note. It is empty or a parenthesised text |
| TreeBuilder.FacilityNote | src/utils/dataTransform.js:311-314 | No note without a facility or for a facility equal to the short id; otherwise ` (<facility>)` |
| TreeBuilder.EquipmentNamePlain | src/utils/dataTransform.js:304-317 | With no identifier and no facility other than the short id, the name is the short id or `Unknown AAS` alone |
| TreeBuilder.EquipmentNameUsesIdentifier | src/utils/dataTransform.js:307-317 | An identifier from the id that differs from the short id is appended in parentheses |
| TreeBuilder.EquipmentNameUsesFacility | src/utils/dataTransform.js:310-317 | Otherwise a facility name that differs from the short id is appended in parentheses |
| TreeBuilder.EquipmentNameExample | src/utils/dataTransform.js:304-317 | A shell `TIG01` whose id yields `150LMT2` is named `TIG01 (150LMT2)` |
| TreeBuilder.AasSearchText | src/utils/dataTransform.js:329 | The shell's search text contains its short id, its id and its global asset id |
| TreeBuilder.ContainsIgnoringCaseWithin | src/utils/dataTransform.js:329-330 | A term found, ignoring case, in a part of a text is found in the text |
| TreeBuilder.EquipmentMatchedByField | src/utils/dataTransform.js:329-332 | A shell whose short id, id or global asset id contains the term, ignoring case, is marked |
| TreeBuilder.SubmodelNodeName | src/utils/dataTransform.js:339-354 | The body's truthy short id; else, for a truthy id, the name derived from the id; else `Unknown Submodel`. Never empty |
| TreeBuilder.PlaceholderNode | src/utils/dataTransform.js:381 | A placeholder node: id `<id>_placeholder`, or `null_placeholder` without an id; no name, data or children; every flag false |
| TreeBuilder.SubmodelNode | src/utils/dataTransform.js:335-384 | A submodel node takes the reference's resolved id and the shell's id as parent, starts collapsed, and its data is the body found for that id, or null. Its name is the submodel node name; it is marked exactly when that name and the id contain the term or one of its children is marked |
| TreeBuilder.EquipmentNode | src/utils/dataTransform.js:303-395 | An equipment node takes the shell's id, name and data and starts collapsed. It has one submodel node per reference, in order. It is marked exactly when its search text matches or a submodel node is marked |
| TreeBuilder.TransformApiToTree | src/utils/dataTransform.js:300-397 | One equipment node per shell, in order |
| TreeBuilder.SubmodelNodeBuildsElements | src/utils/dataTransform.js:372-378 | While searching, a found body with elements gives the submodel node their nodes as children. The node is marked exactly when its name or id matches or one of them is marked |
| TreeBuilder.SubmodelNodeIsLazy | src/utils/dataTransform.js:379-382 | Otherwise the only child is the placeholder `<id>_placeholder` |
| TreeBuilder.NoTermNoMatch | src/utils/dataTransform.js:329-378 | Without a search term nothing in a shell's tree is marked |
| TreeBuilder.TreeCollapsed | src/utils/dataTransform.js:319-393 | A freshly built tree is collapsed at every depth, even for nodes that match |
| TreeBuilder.SubmodelCollapsed | src/utils/dataTransform.js:356-382 | A submodel node and everything below it start collapsed |
| TreeUpdate.UpdateTreeNodes | src/utils/dataTransform.js:510-518 | The update keeps the number of nodes at every level |
| TreeUpdate.UpdateNode | src/utils/dataTransform.js:512-516 | An updated node has as many children as before |
| TreeUpdate.UpdateTreeNodesAt | src/utils/dataTransform.js:511-516 | The i-th result is the update of the i-th node, with its children updated recursively |
| TreeUpdate.ToggleFn | src/utils/dataTransform.js:482-487 | The toggle step leaves each node's children as they are |
| TreeUpdate.SelectFn | src/utils/dataTransform.js:498-501 | The select step leaves each node's children as they are |
| TreeUpdate.ToggleNodeExpanded | src/utils/dataTransform.js:481-488 | Flips `expanded` on the nodes with the given id and no others; every node is the same node with only `expanded` changed and its children toggled in turn, so this holds at every depth |
| TreeUpdate.UpdateSelectedNode | src/utils/dataTransform.js:497-502 | A node is selected exactly when its id is the given one; every node is the same node with only `selected` changed and its children updated in turn, so this holds at every depth |
| TreeUpdate.ToggleTwice | src/utils/dataTransform.js:481-488 | Toggling the same id twice gives the original tree back |
| TreeUpdate.ToggleChangesOnlyExpanded | src/utils/dataTransform.js:484-486 | Toggling changes nothing but `expanded` flags, at any depth |
| TreeUpdate.SelectChangesOnlySelected | src/utils/dataTransform.js:498-501 | Selecting changes nothing but `selected` flags, at any depth |
| TreeUpdate.SelectionHoldsEverywhere | src/utils/dataTransform.js:491-501 | After selecting, a node at any depth is selected exactly when it has the given id |
| TreeUpdate.LaterSelectionWins | src/utils/dataTransform.js:497-502 | Selecting a then b is the same as selecting b alone |
| TreeUpdate.Flatten | src/utils/dataTransform.js:510-518 | The pre-order listing has at least as many nodes as the top level |
| TreeUpdate.Ids | src/utils/dataTransform.js:481-502 | The ids of a list of nodes, position by position |
| TreeUpdate.IdsConcat | src/utils/dataTransform.js:511 | Ids of a concatenation are the concatenated ids |
| TreeUpdate.UpdateTreeNodesTail | src/utils/dataTransform.js:511 | Updating commutes with dropping the first node |
| TreeUpdate.UpdateKeepsFlatIds | src/utils/dataTransform.js:510-518 | An update step that keeps ids keeps the ids of the whole tree, in pre-order |
| TreeUpdate.EveryNodeFlatten | src/utils/dataTransform.js:510-518 | A property of every node at every depth holds for every node of the flattened tree |
| TreeUpdate.AtMostOneSelected | src/utils/dataTransform.js:492 | In a tree whose ids are unique, at most one node is selected afterwards, as the comment promises |
| TreeUpdate.SharedIdsAllSelected | src/utils/dataTransform.js:490-502 | With repeated ids, every node with the selected id is selected, so the promise needs unique ids |
| JsBuiltins.Lower | src/utils/menuFilters.js:109 | `toLowerCase` keeps the length and lowers character by character |
| JsBuiltins.ContainsLower | src/utils/menuFilters.js:111 | An exact occurrence is still an occurrence after both sides are lowered |
| JsBuiltins.JoinContainsPart | src/utils/menuFilters.js:106-108 | Every joined field occurs in the joined text |
| JsBuiltins.ContainsAt | src/utils/menuFilters.js:111 | An occurrence at any position is an `includes` match |
| JsBuiltins.ContainsTransitive | src/utils/menuFilters.js:111 | An occurrence inside an occurrence is an occurrence |
| JsBuiltins.Split | src/utils/dataTransform.js:15 | `split` always yields at least one piece |
| JsBuiltins.SplitPiecesFree | src/utils/dataTransform.js:15 | No piece of a split contains the separator |
| JsBuiltins.JoinSplit | src/utils/dataTransform.js:15 | Joining the pieces of a split rebuilds the id |
| JsBuiltins.SplitJoin | src/utils/dataTransform.js:15 | Splitting a join of separator-free pieces gives the pieces back |
| JsBuiltins.TrimStart | src/utils/menuFilters.js:120 | `trimStart` yields a suffix of the string; every dropped character is white space, and the rest is empty or starts with a non-space |
| JsBuiltins.TrimEnd | src/utils/menuFilters.js:120 | `trimEnd` yields a prefix of the string; every dropped character is white space, and the rest is empty or ends with a non-space |
| JsBuiltins.Trim | src/utils/menuFilters.js:120 | `trim` yields the slice of the string that starts after its leading white space, and that slice is empty or starts and ends with a non-space |
| JsBuiltins.NatToString | src/utils/dataTransform.js:223 | An index prints as the decimal digits whose value it is, with no leading zero |
| JsBuiltins.FirstIndexOf | src/utils/dataTransform.js:18 | `findIndex(p => p === x)`: the first position holding x; none exactly when x is absent |
| JsBuiltins.FindIndex | src/utils/dataTransform.js:347 | The first position satisfying the predicate; none exactly when no position does |
| MenuCatalog.KeywordTablesCoverGroups | src/utils/menuFilters.js:51-88 | Each keyword table has an entry for exactly the menu types of its group, and every equipment entry has a keyword |
| MenuCatalog.ClassifiedTypesDistinct | src/utils/menuFilters.js:6-47 | No menu type appears twice across the four groups, and `ALL` and `AASX` are in none of them |
| MenuCatalog.GetMenuDisplayName | src/utils/menuFilters.js:262-293 | The table's name for a listed type, and the type itself for any other |
| MenuCatalog.DisplayNamesCoverMenu | src/utils/menuFilters.js:264-290 | The display table names exactly the menu types, including `ALL` and `AASX` |
| MenuFilters.SearchFields | src/utils/menuFilters.js:98-104 | The fields searched are the id, the short id, the global asset id and the asset kind, the last two absent without asset information, then every description text, in that order, and nothing more without a description |
| MenuFilters.PresentFields | src/utils/menuFilters.js:107 | A string is kept exactly when it is one of the fields and not empty |
| MenuFilters.PresentFieldsInOrder | src/utils/menuFilters.js:106-108 | The kept fields are in the order of the fields |
| MenuFilters.HasKeywords | src/utils/menuFilters.js:94-113 | Never for an absent shell or an absent or empty keyword list; a match needs a keyword that fits in the search text |
| MenuFilters.EmptyKeywordMatchesAll | src/utils/menuFilters.js:111 | An empty keyword matches every shell, as `includes` of the empty string does |
| MenuFilters.FieldMatchIsEnough | src/utils/menuFilters.js:106-111 | A keyword occurring, ignoring case, in any one truthy field makes the shell match |
| MenuFilters.NoIdShortNotExcluded | src/utils/menuFilters.js:120-125 | A shell without a short id is never excluded |
| MenuFilters.IsExcludedComponentAAS | src/utils/menuFilters.js:118-126 | An excluded shell has a truthy short id whose trimmed form has nine characters |
| MenuFilters.ExcludedMentionsComponent | src/utils/menuFilters.js:120-123 | An excluded shell's short id, lower-cased, contains `component` |
| MenuFilters.PaddedComponentExcluded | src/utils/menuFilters.js:119-123 | The short id ` Component ` is excluded, because surrounding spaces and case are ignored |
| MenuFilters.CategoriesInSpec | src/utils/menuFilters.js:139-143 | One group's loop yields, in table order, exactly the types whose keywords the shell matches |
| MenuFilters.CollectCategories | src/utils/menuFilters.js:139-164 | One group's loop appends that group's matching types to the categories found so far |
| MenuFilters.GetAASCategories | src/utils/menuFilters.js:135-167 | The four loops return the shell's categories |
| MenuFilters.CategoriesMembership | src/utils/menuFilters.js:135-167 | A type is a category of a shell exactly when it is in one of the four groups and the shell matches that group's keywords for it |
| MenuFilters.CategoriesOrderedAndDistinct | src/utils/menuFilters.js:136-166 | A shell's categories follow menu order and contain no type twice |
| MenuFilters.CategoriesDistinct | src/utils/menuFilters.js:136-166 | A shell's categories contain no type twice, so it is filed at most once per menu |
| MenuFilters.RsewAndRswTogether | src/utils/menuFilters.js:58-59 | RSEW and RSW share their keyword, so a shell is under one exactly when it is under the other |
| MenuFilters.MagShellIsAlsoAluminum | src/utils/menuFilters.js:51-74 | A shell with short id `MetalActiveGasType` is under MAG and also under Aluminum, because `al` occurs in `metal` |
| MenuFilters.OnlyEquipmentInGroups | src/utils/menuFilters.js:8-42 | An equipment type belongs to no other group |
| MenuFilters.ProcessedSpec | src/utils/menuFilters.js:196 | The kept shells are exactly the shells that are not excluded, in their order |
| MenuFilters.GroupSpec | src/utils/menuFilters.js:198-206 | A menu's group holds exactly the shells with that category, in order |
| MenuFilters.GroupSnoc | src/utils/menuFilters.js:198-206 | Filing one more shell appends it to exactly the groups of its categories |
| MenuFilters.InitialTables | src/utils/menuFilters.js:184-194 | Every menu type starts with an empty list and a zero count |
| MenuFilters.FileUnderCategories | src/utils/menuFilters.js:199-205 | Filing a shell appends it to the list of each menu that is among its categories, and adds one to that menu's count; other menus are unchanged |
| MenuFilters.FileShell | src/utils/menuFilters.js:198-206 | Filing one more shell keeps every menu's list equal to the group of the shells filed so far, and its count equal to the list's length |
| MenuFilters.FileAll | src/utils/menuFilters.js:198-206 | After the loop, every menu's list is the group of all kept shells, and its count is the list's length |
| MenuFilters.MenuGroupOfKeys | src/utils/menuFilters.js:209-226 | `ALL` lists every kept shell; a classifying menu lists its group |
| MenuFilters.MenuGroup | src/utils/menuFilters.js:223-226 | No shells without an input array, and none for a type that is neither `ALL` nor a classifying type |
| MenuFilters.TablesWithAll | src/utils/menuFilters.js:209-210 | Adding `ALL` gives tables keyed by the classifying menu types plus `ALL`, each list as specified and each count its list's length |
| MenuFilters.ProcessAASData | src/utils/menuFilters.js:175-214 | Empty tables for a non-array. Otherwise one list per menu type plus `ALL`, each holding that menu's kept shells in order, and each count that list's length |
| MenuFilters.FilterAASByMenuType | src/utils/menuFilters.js:223-226 | The list for the menu type, or empty for a type with no list |
| MenuFilters.CalculateMenuCounts | src/utils/menuFilters.js:233-236 | One count per menu type plus `ALL`, each the length of that menu's list; none for a non-array |
| MenuFilters.MenuGroupSelectsInOrder | src/utils/menuFilters.js:196-226 | Every menu lists shells of the input in their order, never an excluded one, and for a classifying type exactly those with that category |
| MenuFilters.MenuCountAtMostAll | src/utils/menuFilters.js:196-210 | No menu lists more shells than `ALL` |
| MenuFilters.AasxListsNothing | src/utils/menuFilters.js:184-226 | The upload menu `AASX` never lists a shell |
| MenuFilters.FilterSearchResults | src/utils/menuFilters.js:241-255 | A response without a first message comes back unchanged. Otherwise its message list becomes the first message alone, with its shells narrowed to the current menu |

## Left out

- Character handling: lower-casing and `trim` cover ASCII only. Unicode case mapping and Unicode white space are not modelled.
- `null` and `undefined` are not told apart. Where the code compares with `!== undefined` (`src/utils/dataTransform.js:254`), a `null` value is taken as present, as the code does. But a missing and a null short id both print as `undefined` in template strings, where JavaScript prints `null` for a null one.
- Numbers held in an element's value are carried as their decimal strings. So a numeric `0`, which JavaScript treats as falsy, is modelled as the truthy string `"0"`.
- Values of unexpected types become "absent". A non-array `description`, `submodel` or `submodelElements` and a non-string id field are modelled as missing.
- `null` entries inside arrays are not modelled. Every shell, reference, element and key is a record; `findSubmodelData`'s `sm &&` guard and `getSubmodelId(null)` therefore have no counterpart.
- Object keys inherited from `Object.prototype` are not modelled. `aasList['constructor']` and `displayNames['toString']` would find functions in JavaScript. The model answers with the empty list and with the type itself.
- TreeUpdate.UpdateTreeNodes: the code sets `updated.children` on the object the update function returns. The toggle returns unmatched nodes themselves, so the caller's input tree is modified in place. The model works on values and does not capture this aliasing.
- TreeUpdate.UpdateTreeNodes: it requires of its update function that it keeps children, as both callers' functions do. This is needed for termination.
- TreeBuilder.ElementNode: the concept map is a map from semantic id to concept. `transformApiToTree` passes none (`src/utils/dataTransform.js:374`), and the model passes the empty map likewise.
- TreeBuilder.SubmodelNodeName: the regular expression is modelled over the id's `/`-separated segments. That is equivalent for this pattern, whose groups never span a `/`.
- MenuFilters.FilterSearchResults: the code keeps only the first entry of `message` and drops the others, though its comment speaks only of narrowing the first entry. The model follows the code.
- TreeUpdate.AtMostOneSelected: requires unique ids across the tree. Element ids are not unique in general (TreeBuilder.SiblingIdsCollide), so the promise holds only for such trees.
- MenuCatalog.GetMenuDisplayName: that different menu types get different display names is not proved.
- Console logging, the API client, the search composable, the stores and the router are not part of this model. The logging is at `src/utils/dataTransform.js:217` and `src/utils/menuFilters.js:212`.
- TreeBuilder.ElementNode: uses the corrected file match (ElementFormat.FileMatches). Under a search, for a File element with an array value, or with no short id and no matching path, the model builds a tree where the code raises a TypeError (see Findings).
- MenuFilters.Categories: has no contract of its own; what it yields is stated by MenuFilters.CategoriesMembership and MenuFilters.CategoriesOrderedAndDistinct.
- `formatElementName` is modelled only through the node names it feeds.

## Findings

| source | as written | input that shows it | evidently intended | confidence | as-written member | corrected member |
|---|---|---|---|---|---|---|
| src/utils/dataTransform.js:288 | `element.idShort.toLowerCase()` is called on a File element without optional chaining, once its path does not match | a File element with no `idShort` and no matching path, while any search term is given; the call raises a TypeError and the whole tree build fails | a file without a short id simply does not match by short id, just as a missing path does not match by path | not executed | ElementFormat.FileMatchAsWritten, ElementFormat.FileMatchAsWrittenRaises | ElementFormat.FileMatches, ElementFormat.FileMatchAgrees, ElementFormat.FileWithoutIdShortMatchesByPath |
