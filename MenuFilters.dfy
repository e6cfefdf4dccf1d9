/**
 * Sorting shells into the dashboard's menu: keyword classification of a
 * shell, exclusion of component shells, the per-menu lists and counts,
 * and narrowing a search result to the current menu.
 */
module MenuFilters {
  import opened Wrappers
  import opened JsBuiltins
  import opened AasTypes
  import opened Sequences
  import opened MenuCatalog

  // ---------------------------------------------------------------------
  // Classifying one shell
  // ---------------------------------------------------------------------

  /** The fields a shell is searched by: id, short id, global asset id, asset kind, then the description texts. */
  function SearchFields(aas: AasRecord): (r: seq<Option<string>>)
    ensures |r| >= 4 && r[0] == aas.id && r[1] == aas.idShort
    ensures aas.assetInformation.Some? ==> r[2] == aas.assetInformation.value.globalAssetId &&
                                           r[3] == aas.assetInformation.value.assetKind
    ensures aas.description.Some? ==>
              |r| == 4 + |aas.description.value| &&
              (forall i :: 0 <= i < |aas.description.value| ==> r[4 + i] == aas.description.value[i].text)
    ensures aas.assetInformation.None? ==> r[2] == None && r[3] == None
    ensures aas.description.None? ==> |r| == 4
  {
    var info := aas.assetInformation;
    [aas.id, aas.idShort,
     if info.Some? then info.value.globalAssetId else None,
     if info.Some? then info.value.assetKind else None]
    + match aas.description
      case Some(d) => seq(|d|, i requires 0 <= i < |d| => d[i].text)
      case None => []
  }

  /** The fields that are present and not empty, in order. */
  function PresentFields(fields: seq<Option<string>>): (r: seq<string>)
    ensures forall i :: 0 <= i < |r| ==> r[i] != ""
    ensures forall j :: 0 <= j < |fields| && Truthy(fields[j]) ==> fields[j].value in r
    ensures forall x :: x in r <==> Some(x) in fields && x != ""
  {
    if fields == [] then []
    else
      var rest := PresentFields(fields[1..]);
      assert forall j :: 1 <= j < |fields| ==> fields[j] == fields[1..][j - 1];
      (if Truthy(fields[0]) then [fields[0].value] else []) + rest
  }

  /** The strings as present optional strings. */
  function AsPresent(xs: seq<string>): (r: seq<Option<string>>)
    ensures |r| == |xs| && forall i :: 0 <= i < |xs| ==> r[i] == Some(xs[i])
  {
    seq(|xs|, i requires 0 <= i < |xs| => Some(xs[i]))
  }

  /** The present fields keep the order the fields have. */
  lemma {:induction false} PresentFieldsInOrder(fields: seq<Option<string>>)
    ensures SubsequenceOf(AsPresent(PresentFields(fields)), fields)
    decreases |fields|
  {
    if fields == [] {
    } else {
      var rest := PresentFields(fields[1..]);
      PresentFieldsInOrder(fields[1..]);
      var head: seq<string> := if Truthy(fields[0]) then [fields[0].value] else [];
      assert PresentFields(fields) == head + rest;
      assert AsPresent(head + rest) == AsPresent(head) + AsPresent(rest);
      assert fields == [fields[0]] + fields[1..];
      if Truthy(fields[0]) {
        SubsequenceRefl([fields[0]]);
      }
      assert SubsequenceOf(AsPresent(head), [fields[0]]);
      SubsequenceConcat(AsPresent(head), [fields[0]], AsPresent(rest), fields[1..]);
    }
  }

  /** The lower-cased, space-separated text a shell's keywords are looked for in. */
  function SearchText(aas: AasRecord): string {
    Lower(Join(PresentFields(SearchFields(aas)), " "))
  }

  /**
   * `hasKeywords`: some keyword, lower-cased, occurs in the shell's search
   * text. Never for an absent shell or an absent or empty keyword list.
   */
  predicate HasKeywords(aas: Option<AasRecord>, keywords: Option<seq<string>>): (r: bool)
    ensures aas.None? || keywords.None? || keywords.value == [] ==> !r
    ensures r ==> exists k :: 0 <= k < |keywords.value| && |keywords.value[k]| <= |SearchText(aas.value)|
  {
    aas.Some? && keywords.Some? && |keywords.value| > 0 &&
    exists k :: 0 <= k < |keywords.value| && Contains(SearchText(aas.value), Lower(keywords.value[k]))
  }

  /** A keyword found in any one searched field, ignoring case, is enough. */
  lemma FieldMatchIsEnough(aas: AasRecord, keywords: seq<string>, j: nat, k: nat)
    requires j < |SearchFields(aas)| && k < |keywords|
    requires Truthy(SearchFields(aas)[j])
    requires Contains(Lower(SearchFields(aas)[j].value), Lower(keywords[k]))
    ensures HasKeywords(Some(aas), Some(keywords))
  {
    var field := SearchFields(aas)[j].value;
    var present := PresentFields(SearchFields(aas));
    var i :| 0 <= i < |present| && present[i] == field;
    JoinContainsPart(present, " ", i);
    ContainsLower(Join(present, " "), field);
    ContainsTransitive(SearchText(aas), Lower(field), Lower(keywords[k]));
  }

  /** `isExcludedComponentAAS`: the short id, trimmed and lower-cased, is `component`. */
  predicate IsExcludedComponentAAS(aas: AasRecord): (r: bool)
    ensures r ==> Truthy(aas.idShort)
    ensures r ==> |Trim(OrEmpty(aas.idShort))| == 9
  {
    Lower(Trim(OrEmpty(aas.idShort))) == "component"
  }

  /** An empty keyword occurs in every text, so it puts every shell in its category. */
  lemma EmptyKeywordMatchesAll(aas: AasRecord, keywords: seq<string>, k: nat)
    requires k < |keywords| && keywords[k] == ""
    ensures HasKeywords(Some(aas), Some(keywords))
  {
    ContainsEmpty(SearchText(aas));
  }

  /** An excluded shell's short id, lower-cased, contains `component` between the white space around it. */
  lemma ExcludedMentionsComponent(aas: AasRecord)
    requires IsExcludedComponentAAS(aas)
    ensures Contains(Lower(aas.idShort.value), "component")
  {
    var s := aas.idShort.value;
    var t := Trim(s);
    var k := |s| - |TrimStart(s)|;
    assert t == s[k..k + 9];
    assert Lower(s)[k..k + 9] == Lower(t);
    ContainsAt(Lower(s), "component", k);
  }

  /** A shell without a short id is never excluded. */
  lemma NoIdShortNotExcluded(aas: AasRecord)
    requires !Truthy(aas.idShort)
    ensures !IsExcludedComponentAAS(aas)
  {
    assert OrEmpty(aas.idShort) == "";
    assert Trim("") == "";
  }

  /** A short id padded with spaces and capitalised still marks a component shell. */
  lemma PaddedComponentExcluded(aas: AasRecord)
    requires aas.idShort == Some(" Component ")
    ensures IsExcludedComponentAAS(aas)
  {
    TrimPaddedComponent();
    LowerComponent();
  }

  lemma TrimPaddedComponent()
    ensures Trim(" Component ") == "Component"
  {
    TrimStartPaddedComponent();
    TrimEndPaddedComponent();
  }

  lemma TrimStartPaddedComponent()
    ensures TrimStart(" Component ") == "Component "
  {
    var s := " Component ";
    assert IsSpace(s[0]) && s[1..] == "Component ";
    var t := "Component ";
    assert !IsSpace(t[0]);
    assert TrimStart(t) == t;
  }

  lemma TrimEndPaddedComponent()
    ensures TrimEnd("Component ") == "Component"
  {
    var s := "Component ";
    assert IsSpace(s[|s| - 1]) && s[..|s| - 1] == "Component";
    var t := "Component";
    assert !IsSpace(t[|t| - 1]);
    assert TrimEnd(t) == t;
  }

  lemma LowerComponent()
    ensures Lower("Component") == "component"
  {
    var l := Lower("Component");
    assert |l| == 9;
    assert forall i :: 0 <= i < 9 ==> l[i] == "component"[i];
  }

  /** The keyword list a table has for a type; absent when the table has no entry. */
  function KeywordsFor(table: map<string, seq<string>>, t: string): Option<seq<string>> {
    if t in table then Some(table[t]) else None
  }

  /** The types of `types`, in order, whose keywords the shell has. */
  function CategoriesIn(aas: AasRecord, types: seq<string>, table: map<string, seq<string>>): seq<string>
    decreases |types|
  {
    if types == [] then []
    else
      var t := types[|types| - 1];
      CategoriesIn(aas, types[..|types| - 1], table) + (if HasKeywords(Some(aas), KeywordsFor(table, t)) then [t] else [])
  }

  /** A type of the group is among the shell's categories exactly when the shell has its keywords; they keep the group's order. */
  lemma {:induction false} CategoriesInSpec(aas: AasRecord, types: seq<string>, table: map<string, seq<string>>)
    ensures forall c :: c in CategoriesIn(aas, types, table) <==> c in types && HasKeywords(Some(aas), KeywordsFor(table, c))
    ensures SubsequenceOf(CategoriesIn(aas, types, table), types)
    decreases |types|
  {
    if types != [] {
      var t := types[|types| - 1];
      var front := types[..|types| - 1];
      assert types == front + [t];
      CategoriesInSpec(aas, front, table);
      var c := CategoriesIn(aas, front, table);
      if HasKeywords(Some(aas), KeywordsFor(table, t)) {
        assert (c + [t])[..|c|] == c;
      } else {
        SubsequenceAppend(c, front, [t]);
        assert c + [] == c;
      }
    }
  }

  /** The menu types a shell belongs to: Equipment, then Material, Process and Management, each group in menu order. */
  function Categories(aas: AasRecord): seq<string> {
    CategoriesIn(aas, EquipmentTypes, EquipmentKeywords) +
    CategoriesIn(aas, MaterialTypes, MaterialKeywords) +
    CategoriesIn(aas, ProcessTypes, ProcessKeywords) +
    CategoriesIn(aas, ManagementTypes, ManagementKeywords)
  }

  /** The types of one group whose keywords the shell has, appended to the list so far (one `forEach` of `getAASCategories`). */
  method CollectCategories(aas: AasRecord, types: seq<string>, table: map<string, seq<string>>, categories: seq<string>)
    returns (r: seq<string>)
    ensures r == categories + CategoriesIn(aas, types, table)
  {
    r := categories;
    for i := 0 to |types|
      invariant r == categories + CategoriesIn(aas, types[..i], table)
    {
      assert types[..i + 1][..i] == types[..i];
      if HasKeywords(Some(aas), KeywordsFor(table, types[i])) {
        r := r + [types[i]];
      }
    }
    assert types[..|types|] == types;
  }

  /** `getAASCategories`: the menu types a shell belongs to, group by group. */
  method GetAASCategories(aas: AasRecord) returns (categories: seq<string>)
    ensures categories == Categories(aas)
  {
    categories := [];
    categories := CollectCategories(aas, EquipmentTypes, EquipmentKeywords, categories);
    categories := CollectCategories(aas, MaterialTypes, MaterialKeywords, categories);
    categories := CollectCategories(aas, ProcessTypes, ProcessKeywords, categories);
    categories := CollectCategories(aas, ManagementTypes, ManagementKeywords, categories);
  }

  /** A shell belongs to a type exactly when the type is a classifying one and the shell has its keywords. */
  lemma CategoriesMembership(aas: AasRecord, c: string)
    ensures c in Categories(aas) <==>
            (c in EquipmentTypes && HasKeywords(Some(aas), Some(EquipmentKeywords[c]))) ||
            (c in MaterialTypes && HasKeywords(Some(aas), Some(MaterialKeywords[c]))) ||
            (c in ProcessTypes && HasKeywords(Some(aas), Some(ProcessKeywords[c]))) ||
            (c in ManagementTypes && HasKeywords(Some(aas), Some(ManagementKeywords[c])))
  {
    KeywordTablesCoverGroups();
    CategoriesInSpec(aas, EquipmentTypes, EquipmentKeywords);
    CategoriesInSpec(aas, MaterialTypes, MaterialKeywords);
    CategoriesInSpec(aas, ProcessTypes, ProcessKeywords);
    CategoriesInSpec(aas, ManagementTypes, ManagementKeywords);
  }

  /** The categories keep the menu's order and list no type twice. */
  lemma CategoriesOrderedAndDistinct(aas: AasRecord)
    ensures SubsequenceOf(Categories(aas), ClassifiedTypes)
    ensures Distinct(Categories(aas))
  {
    var e := CategoriesIn(aas, EquipmentTypes, EquipmentKeywords);
    var m := CategoriesIn(aas, MaterialTypes, MaterialKeywords);
    var p := CategoriesIn(aas, ProcessTypes, ProcessKeywords);
    var g := CategoriesIn(aas, ManagementTypes, ManagementKeywords);
    CategoriesInSpec(aas, EquipmentTypes, EquipmentKeywords);
    CategoriesInSpec(aas, MaterialTypes, MaterialKeywords);
    CategoriesInSpec(aas, ProcessTypes, ProcessKeywords);
    CategoriesInSpec(aas, ManagementTypes, ManagementKeywords);
    SubsequenceConcat(e, EquipmentTypes, m, MaterialTypes);
    SubsequenceConcat(e + m, EquipmentTypes + MaterialTypes, p, ProcessTypes);
    SubsequenceConcat(e + m + p, EquipmentTypes + MaterialTypes + ProcessTypes, g, ManagementTypes);
    ClassifiedTypesDistinct();
    SubsequenceDistinct(Categories(aas), ClassifiedTypes);
  }

  /** A shell is filed at most once under each type. */
  lemma CategoriesDistinct(aas: AasRecord)
    ensures Distinct(Categories(aas))
  {
    CategoriesOrderedAndDistinct(aas);
  }

  /** The two resistance seam welding menus share their keyword, so a shell is in both or in neither. */
  lemma RsewAndRswTogether(aas: AasRecord)
    ensures "RSEW" in Categories(aas) <==> "RSW" in Categories(aas)
  {
    assert KeywordsFor(EquipmentKeywords, "RSEW") == KeywordsFor(EquipmentKeywords, "RSW");
    assert "RSEW" in EquipmentTypes && "RSW" in EquipmentTypes;
    CategoriesInSpec(aas, EquipmentTypes, EquipmentKeywords);
    OnlyEquipmentInGroups("RSEW");
    OnlyEquipmentInGroups("RSW");
    CategoriesInSpec(aas, MaterialTypes, MaterialKeywords);
    CategoriesInSpec(aas, ProcessTypes, ProcessKeywords);
    CategoriesInSpec(aas, ManagementTypes, ManagementKeywords);
  }

  /**
   * The keyword `Al` of the aluminium menu, lower-cased, occurs in the
   * metal active gas keyword: a shell found under MAG by its short id is
   * also listed under Aluminum.
   */
  lemma MagShellIsAlsoAluminum(aas: AasRecord)
    requires aas.idShort == Some("MetalActiveGasType")
    ensures "MAG" in Categories(aas) && "Aluminum" in Categories(aas)
  {
    var field := Lower("MetalActiveGasType");
    assert SearchFields(aas)[1] == Some("MetalActiveGasType");
    ContainsItself(field);
    FieldMatchIsEnough(aas, EquipmentKeywords["MAG"], 1, 0);
    assert field[3..5] == "al" && Lower("Al") == "al";
    ContainsAt(field, "al", 3);
    FieldMatchIsEnough(aas, MaterialKeywords["Aluminum"], 1, 3);
    CategoriesInSpec(aas, EquipmentTypes, EquipmentKeywords);
    CategoriesInSpec(aas, MaterialTypes, MaterialKeywords);
    assert "MAG" in EquipmentTypes && "Aluminum" in MaterialTypes;
  }

  /** A welding equipment type is in no other group. */
  lemma OnlyEquipmentInGroups(t: string)
    requires t in EquipmentTypes
    ensures t !in MaterialTypes && t !in ProcessTypes && t !in ManagementTypes
  {
  }

  // ---------------------------------------------------------------------
  // Menu lists and counts
  // ---------------------------------------------------------------------

  /** A shell `processAASData` keeps: one that is not excluded. */
  predicate IsKept(aas: AasRecord) {
    !IsExcludedComponentAAS(aas)
  }

  /** The shells that are not excluded, in order. */
  function Processed(all: seq<AasRecord>): seq<AasRecord> {
    Filter(all, IsKept)
  }

  /** Exactly the shells that are not excluded, in input order. */
  lemma ProcessedSpec(all: seq<AasRecord>)
    ensures forall x :: x in Processed(all) <==> x in all && !IsExcludedComponentAAS(x)
    ensures SubsequenceOf(Processed(all), all)
  {
    FilterSpec(all, IsKept);
  }

  /** Whether a shell belongs to menu type `t`. */
  function InMenu(t: string): AasRecord -> bool {
    x => t in Categories(x)
  }

  /** The shells of `rs`, in order, that belong to menu type `t`. */
  function Group(rs: seq<AasRecord>, t: string): seq<AasRecord> {
    Filter(rs, InMenu(t))
  }

  /** Exactly the shells of the type, in input order. */
  lemma GroupSpec(rs: seq<AasRecord>, t: string)
    ensures forall x :: x in Group(rs, t) <==> x in rs && t in Categories(x)
    ensures SubsequenceOf(Group(rs, t), rs)
  {
    FilterSpec(rs, InMenu(t));
  }

  /** One more shell joins the group of each of its categories. */
  lemma GroupSnoc(rs: seq<AasRecord>, x: AasRecord, t: string)
    ensures Group(rs + [x], t) == Group(rs, t) + (if t in Categories(x) then [x] else [])
  {
    FilterSnoc(rs, x, InMenu(t));
  }

  /**
   * The list a menu shows: nothing without an input array; every shell
   * that is not excluded under `ALL`; the non-excluded shells of the type
   * under a classifying type; nothing under any other type.
   */
  function MenuGroup(allAAS: Option<seq<AasRecord>>, menuType: string): (r: seq<AasRecord>)
    ensures allAAS.None? ==> r == []
    ensures menuType != AllType && menuType !in ClassifiedTypes ==> r == []
  {
    if allAAS.None? then []
    else if menuType == AllType then Processed(allAAS.value)
    else if menuType in ClassifiedTypes then Group(Processed(allAAS.value), menuType)
    else []
  }

  /** The tables before any shell is filed: an empty list and a zero count for each type (the first loop of `processAASData`). */
  method InitialTables(types: seq<string>) returns (aasList: map<string, seq<AasRecord>>, menuCounts: map<string, int>)
    ensures forall t :: t in aasList <==> t in types
    ensures menuCounts.Keys == aasList.Keys
    ensures forall t :: t in aasList ==> aasList[t] == [] && menuCounts[t] == 0
  {
    aasList := map[];
    menuCounts := map[];
    for i := 0 to |types|
      invariant forall t :: t in aasList <==> t in types[..i]
      invariant menuCounts.Keys == aasList.Keys
      invariant forall t :: t in aasList ==> aasList[t] == [] && menuCounts[t] == 0
    {
      assert types[..i + 1] == types[..i] + [types[i]];
      aasList := aasList[types[i] := []];
      menuCounts := menuCounts[types[i] := 0];
    }
    assert types[..|types|] == types;
  }

  /**
   * The inner loop of `processAASData`: the shell is appended to the list
   * of each of its categories that has one, and that count raised.
   */
  method FileUnderCategories(aas: AasRecord, categories: seq<string>, aasList0: map<string, seq<AasRecord>>,
                             menuCounts0: map<string, int>)
    returns (aasList: map<string, seq<AasRecord>>, menuCounts: map<string, int>)
    requires Distinct(categories)
    requires menuCounts0.Keys == aasList0.Keys
    ensures aasList.Keys == aasList0.Keys && menuCounts.Keys == aasList0.Keys
    ensures forall t :: t in aasList ==>
              aasList[t] == aasList0[t] + (if t in categories then [aas] else []) &&
              menuCounts[t] == menuCounts0[t] + (if t in categories then 1 else 0)
  {
    aasList, menuCounts := aasList0, menuCounts0;
    for j := 0 to |categories|
      invariant aasList.Keys == aasList0.Keys && menuCounts.Keys == aasList0.Keys
      invariant forall t :: t in aasList ==>
                  aasList[t] == aasList0[t] + (if t in categories[..j] then [aas] else []) &&
                  menuCounts[t] == menuCounts0[t] + (if t in categories[..j] then 1 else 0)
    {
      var category := categories[j];
      assert categories[..j + 1] == categories[..j] + [category];
      assert category !in categories[..j];
      if category in aasList {
        aasList := aasList[category := aasList[category] + [aas]];
        menuCounts := menuCounts[category := menuCounts[category] + 1];
      }
    }
    assert categories[..|categories|] == categories;
  }

  /** The list of each table key the filing loop produces is the menu's list. */
  lemma MenuGroupOfKeys(all: seq<AasRecord>)
    ensures MenuGroup(Some(all), AllType) == Processed(all)
    ensures forall t :: t in ClassifiedTypes ==> MenuGroup(Some(all), t) == Group(Processed(all), t)
  {
    ClassifiedTypesDistinct();
  }

  /** Adding the `ALL` entry to the filed tables gives every menu its list, and every count its list's length. */
  lemma TablesWithAll(all: seq<AasRecord>, aasList: map<string, seq<AasRecord>>, menuCounts: map<string, int>,
                      l: map<string, seq<AasRecord>>, c: map<string, int>)
    requires (forall t :: t in aasList <==> t in ClassifiedTypes) && menuCounts.Keys == aasList.Keys
    requires forall t :: t in aasList ==> aasList[t] == Group(Processed(all), t) && menuCounts[t] == |aasList[t]|
    requires l == aasList[AllType := Processed(all)] && c == menuCounts[AllType := |Processed(all)|]
    ensures forall t :: t in l <==> t in ClassifiedTypes || t == AllType
    ensures forall t :: t in l ==> l[t] == MenuGroup(Some(all), t)
    ensures forall t :: t in c ==> t in l && c[t] == |l[t]|
  {
    MenuGroupOfKeys(all);
  }

  /** Filing one more shell under its categories keeps every list the group of the shells filed so far. */
  lemma FiledOneMore(done: seq<AasRecord>, aas: AasRecord, categories: seq<string>,
                     before: map<string, seq<AasRecord>>, countsBefore: map<string, int>,
                     after: map<string, seq<AasRecord>>, countsAfter: map<string, int>)
    requires categories == Categories(aas)
    requires after.Keys == before.Keys && countsAfter.Keys == before.Keys && countsBefore.Keys == before.Keys
    requires forall t :: t in before ==> before[t] == Group(done, t) && countsBefore[t] == |before[t]|
    requires forall t :: t in after ==>
               after[t] == before[t] + (if t in categories then [aas] else []) &&
               countsAfter[t] == countsBefore[t] + (if t in categories then 1 else 0)
    ensures forall t :: t in after ==> after[t] == Group(done + [aas], t) && countsAfter[t] == |after[t]|
  {
    forall t | t in after
      ensures after[t] == Group(done + [aas], t)
    {
      GroupSnoc(done, aas, t);
    }
  }

  /** One pass of the second loop of `processAASData`: the shell's categories, and the shell filed under them. */
  method FileShell(ghost done: seq<AasRecord>, aas: AasRecord, aasList0: map<string, seq<AasRecord>>, menuCounts0: map<string, int>)
    returns (aasList: map<string, seq<AasRecord>>, menuCounts: map<string, int>)
    requires menuCounts0.Keys == aasList0.Keys
    requires forall t :: t in aasList0 ==> aasList0[t] == Group(done, t) && menuCounts0[t] == |aasList0[t]|
    ensures aasList.Keys == aasList0.Keys && menuCounts.Keys == aasList0.Keys
    ensures forall t :: t in aasList ==> aasList[t] == Group(done + [aas], t) && menuCounts[t] == |aasList[t]|
  {
    var categories := GetAASCategories(aas);
    CategoriesDistinct(aas);
    aasList, menuCounts := FileUnderCategories(aas, categories, aasList0, menuCounts0);
    FiledOneMore(done, aas, categories, aasList0, menuCounts0, aasList, menuCounts);
  }

  /** The second loop of `processAASData`: every kept shell filed, in order, under each of its categories. */
  method FileAll(processed: seq<AasRecord>, aasList0: map<string, seq<AasRecord>>, menuCounts0: map<string, int>)
    returns (aasList: map<string, seq<AasRecord>>, menuCounts: map<string, int>)
    requires menuCounts0.Keys == aasList0.Keys
    requires forall t :: t in aasList0 ==> aasList0[t] == [] && menuCounts0[t] == 0
    ensures aasList.Keys == aasList0.Keys && menuCounts.Keys == aasList0.Keys
    ensures forall t :: t in aasList ==> aasList[t] == Group(processed, t) && menuCounts[t] == |aasList[t]|
  {
    aasList, menuCounts := aasList0, menuCounts0;
    for i := 0 to |processed|
      invariant aasList.Keys == aasList0.Keys && menuCounts.Keys == aasList0.Keys
      invariant forall t :: t in aasList ==> aasList[t] == Group(processed[..i], t) && menuCounts[t] == |aasList[t]|
    {
      ghost var done := processed[..i];
      aasList, menuCounts := FileShell(done, processed[i], aasList, menuCounts);
      assert processed[..i + 1] == done + [processed[i]];
    }
    assert processed[..|processed|] == processed;
  }

  /**
   * `processAASData`: a list and a count per menu type. Without an input
   * array both are empty. Otherwise each classifying type and `ALL` has
   * its list, whose length is its count.
   */
  method ProcessAASData(allAAS: Option<seq<AasRecord>>) returns (aasList: map<string, seq<AasRecord>>, menuCounts: map<string, int>)
    ensures allAAS.None? ==> aasList == map[] && menuCounts == map[]
    ensures allAAS.Some? ==> forall t :: t in aasList <==> t in ClassifiedTypes || t == AllType
    ensures menuCounts.Keys == aasList.Keys
    ensures forall t :: t in aasList ==> aasList[t] == MenuGroup(allAAS, t)
    ensures forall t :: t in menuCounts ==> t in aasList && menuCounts[t] == |aasList[t]|
  {
    if allAAS.None? {
      return map[], map[];
    }
    var all := allAAS.value;
    aasList, menuCounts := InitialTables(ClassifiedTypes);
    var processed := Processed(all);
    aasList, menuCounts := FileAll(processed, aasList, menuCounts);
    ghost var filedLists, filedCounts := aasList, menuCounts;
    aasList := aasList[AllType := processed];
    menuCounts := menuCounts[AllType := |processed|];
    TablesWithAll(all, filedLists, filedCounts, aasList, menuCounts);
  }

  /** `filterAASByMenuType`: the list of the menu, or nothing for a type without one. */
  method FilterAASByMenuType(allAAS: Option<seq<AasRecord>>, menuType: string) returns (r: seq<AasRecord>)
    ensures r == MenuGroup(allAAS, menuType)
  {
    var aasList, _ := ProcessAASData(allAAS);
    if menuType in aasList {
      r := aasList[menuType];
    } else {
      r := [];
      if allAAS.Some? {
        assert menuType !in ClassifiedTypes && menuType != AllType;
      }
    }
  }

  /** `calculateMenuCounts`: the count of each menu type, the length of its list. */
  method CalculateMenuCounts(allAAS: Option<seq<AasRecord>>) returns (menuCounts: map<string, int>)
    ensures allAAS.None? ==> menuCounts == map[]
    ensures allAAS.Some? ==> forall t :: t in menuCounts <==> t in ClassifiedTypes || t == AllType
    ensures forall t :: t in menuCounts ==> menuCounts[t] == |MenuGroup(allAAS, t)|
  {
    var _, counts := ProcessAASData(allAAS);
    menuCounts := counts;
  }

  /** A menu lists shells of the input, in input order, never an excluded one, and only those of its type. */
  lemma MenuGroupSelectsInOrder(all: seq<AasRecord>, menuType: string)
    ensures SubsequenceOf(MenuGroup(Some(all), menuType), all)
    ensures forall x :: x in MenuGroup(Some(all), menuType) ==> !IsExcludedComponentAAS(x)
    ensures menuType in ClassifiedTypes ==>
              forall x :: x in MenuGroup(Some(all), menuType) <==> x in all && !IsExcludedComponentAAS(x) && menuType in Categories(x)
  {
    var processed := Processed(all);
    ProcessedSpec(all);
    MenuGroupOfKeys(all);
    if menuType in ClassifiedTypes {
      GroupSpec(processed, menuType);
      SubsequenceTransitive(Group(processed, menuType), processed, all);
    } else if menuType != AllType {
      assert MenuGroup(Some(all), menuType) == [];
    }
  }

  /** No menu lists more shells than `ALL`. */
  lemma MenuCountAtMostAll(all: seq<AasRecord>, menuType: string)
    ensures |MenuGroup(Some(all), menuType)| <= |MenuGroup(Some(all), AllType)|
  {
    if menuType in ClassifiedTypes && menuType != AllType {
      GroupSpec(Processed(all), menuType);
      SubsequenceShorter(Group(Processed(all), menuType), Processed(all));
    }
  }

  /** The upload entry lists nothing. */
  lemma AasxListsNothing(allAAS: Option<seq<AasRecord>>)
    ensures MenuGroup(allAAS, AasxType) == []
  {
    ClassifiedTypesDistinct();
  }

  // ---------------------------------------------------------------------
  // Search results
  // ---------------------------------------------------------------------

  /** One entry of a search response's `message`: its shells, and the fields the filter copies untouched. */
  datatype SearchMessage = SearchMessage(aas: Option<seq<AasRecord>>, others: map<string, string>)

  /** A search response: its `message` list, and the fields the filter copies untouched. */
  datatype SearchResults = SearchResults(message: Option<seq<SearchMessage>>, others: map<string, string>)

  /**
   * `filterSearchResults`: a response without a first message comes back
   * as it is; otherwise its message list becomes the first message alone,
   * with that message's shells narrowed to the current menu.
   */
  method FilterSearchResults(searchResults: Option<SearchResults>, currentMenu: string) returns (r: Option<SearchResults>)
    ensures searchResults.None? || searchResults.value.message.None? || searchResults.value.message.value == [] ==>
              r == searchResults
    ensures searchResults.Some? && searchResults.value.message.Some? && searchResults.value.message.value != [] ==>
              var first := searchResults.value.message.value[0];
              r == Some(searchResults.value.(message := Some([first.(aas := Some(MenuGroup(first.aas, currentMenu)))])))
  {
    if searchResults.None? || searchResults.value.message.None? || searchResults.value.message.value == [] {
      return searchResults;
    }
    var first := searchResults.value.message.value[0];
    var filtered := FilterAASByMenuType(first.aas, currentMenu);
    r := Some(searchResults.value.(message := Some([first.(aas := Some(filtered))])));
  }
}
