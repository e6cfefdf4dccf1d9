/**
 * Building the equipment tree: a node per submodel element (recursively
 * through collections), a node per submodel reference of a shell, and a
 * node per shell, with the search term deciding which nodes are marked
 * as matches and whether a submodel's elements are built at once or left
 * to a placeholder.
 */
module TreeBuilder {
  import opened Wrappers
  import opened JsBuiltins
  import opened AasTypes
  import opened AasLookup
  import opened ElementFormat
  import opened TreeNodes

  /** Concept descriptions keyed by the semantic id they describe. */
  type Concepts = map<string, Concept>

  /** Every child of the node has an id that extends the node's own id and a `_`. */
  predicate ChildIdsExtendParent(n: TreeNode) {
    n.id.Some? &&
    forall i :: 0 <= i < |n.children| ==>
      n.children[i].id.Some? && IsPrefix(n.id.value + "_", n.children[i].id.value)
  }

  /** Some node of the list is marked as a match. */
  predicate AnyMatched(ns: seq<TreeNode>) {
    exists k :: 0 <= k < |ns| && ns[k].isMatched
  }

  // ---------------------------------------------------------------------
  // Submodel elements
  // ---------------------------------------------------------------------

  /** The id of the node for the element at `index` below a parent: `<parent>_<idShort>`, or `<parent>_element_<index>`. */
  function ElementId(parentId: Option<string>, e: Element, index: nat): (r: string)
    ensures IsPrefix(OrEmpty(parentId) + "_", r)
    ensures Truthy(e.idShort) ==> r == OrEmpty(parentId) + "_" + e.idShort.value
    ensures !Truthy(e.idShort) ==> r == OrEmpty(parentId) + "_" + ("element_" + NatToString(index))
  {
    var r := OrEmpty(parentId) + "_" + OrElse(e.idShort, "element_" + NatToString(index));
    assert r[..|OrEmpty(parentId) + "_"|] == OrEmpty(parentId) + "_";
    r
  }

  /** The concept description filed under the element's semantic id, if any. */
  function ConceptOf(e: Element, concepts: Concepts): Option<Concept> {
    match GetSemanticIdValue(e.semanticId)
    case None => None
    case Some(k) => if k in concepts then Some(concepts[k]) else None
  }

  /** What a language-string entry looks like when read as an element: no fields at all. */
  const BlankElement: Element := Element(OtherModelType, None, Missing, None, None)

  /** The node every element starts from, before its model type adds to it. */
  function BaseNode(e: Element, index: nat, parentId: Option<string>, concepts: Concepts): (r: TreeNode)
    ensures r.id == Some(ElementId(parentId, e, index)) && r.kind == ElementType(e.modelType)
    ensures Truthy(e.idShort) ==> r.name == e.idShort
    ensures !Truthy(e.idShort) ==> r.name == Some("Unnamed")
    ensures !r.expanded && !r.selected && !r.isMatched && !r.hasValue && r.parent.None? && r.children == []
    ensures r.data == ElementData(e) && r.concept == ConceptOf(e, concepts)
  {
    TreeNode(Some(ElementId(parentId, e, index)), Some(OrElse(e.idShort, "Unnamed")), ElementType(e.modelType),
             false, false, false, false, ElementData(e), None, ConceptOf(e, concepts), [])
  }

  /** `searchValue && text.toLowerCase().includes(String(searchValue).toLowerCase())`. */
  predicate MatchesTerm(text: string, term: Option<string>) {
    Truthy(term) && ContainsIgnoringCase(text, term.value)
  }

  /**
   * The node for one element. A collection holding an array gets a child
   * per entry and is marked when one of them is; a collection holding
   * anything else says so in its name. A property with a value shows it
   * (with its unit) and is marked when the value text contains the term;
   * a multi-language property shows its text and is marked likewise; a
   * file is named by its short id and marked when its path or short id
   * contains the term.
   */
  function ElementNode(e: Element, index: nat, parentId: Option<string>, term: Option<string>, concepts: Concepts): (r: TreeNode)
    ensures r.id == Some(ElementId(parentId, e, index))
    ensures r.kind == ElementType(e.modelType) && r.data == ElementData(e)
    ensures !r.expanded && !r.selected && r.parent.None? && r.name.Some?
    ensures r.concept == ConceptOf(e, concepts)
    ensures r.children == if e.modelType == SubmodelElementCollection && IsArray(e.value)
                          then ArrayChildren(e.value, ElementId(parentId, e, index), term, concepts) else []
    ensures r.hasValue <==> (e.modelType == Property && !IsBlankValue(e.value)) ||
                            (e.modelType == MultiLanguageProperty && TruthyValue(e.value) &&
                             Truthy(MultiLanguageValue(e.value, "en")))
  {
    var n := BaseNode(e, index, parentId, concepts);
    match e.modelType
    case SubmodelElementCollection =>
      if IsArray(e.value) then
        var kids := ArrayChildren(e.value, n.id.value, term, concepts);
        n.(children := kids, isMatched := AnyMatched(kids))
      else if !e.value.Missing? then n.(name := Some(TemplateStr(e.idShort) + ": (비-배열 컬렉션)"))
      else n
    case Property =>
      if IsBlankValue(e.value) then n
      else
        var display := FormatPropertyValue(e);
        n.(hasValue := true, name := Some(TemplateStr(e.idShort) + ": " + display.value),
           isMatched := MatchesTerm(Stringify(e.value), term))
    case MultiLanguageProperty =>
      var ml := if TruthyValue(e.value) then MultiLanguageValue(e.value, "en") else None;
      if Truthy(ml) then
        n.(name := Some(TemplateStr(e.idShort) + ": " + ml.value), hasValue := true,
           isMatched := MatchesTerm(ml.value, term))
      else n
    case File =>
      n.(name := Some(TemplateStr(e.idShort)), kind := FileKind, isMatched := FileMatches(e, term))
    case _ => n
  }

  /** The child nodes of a collection holding an array, identified below `parentId`. */
  function ArrayChildren(v: Value, parentId: string, term: Option<string>, concepts: Concepts): (r: seq<TreeNode>)
    requires IsArray(v)
    ensures |r| == ArrayLength(v)
  {
    match v
    case Children(es) => TransformElements(es, Some(parentId), term, concepts)
    case LangTexts(ls) => seq(|ls|, i requires 0 <= i < |ls| => BaseNode(BlankElement, i, Some(parentId), concepts))
  }

  /** One node per element, in order, each identified by its position. */
  function TransformElements(es: seq<Element>, parentId: Option<string>, term: Option<string>, concepts: Concepts): (r: seq<TreeNode>)
    ensures |r| == |es|
    ensures forall i :: 0 <= i < |es| ==> r[i].id == Some(ElementId(parentId, es[i], i)) && r[i].data == ElementData(es[i])
  {
    seq(|es|, i requires 0 <= i < |es| => ElementNode(es[i], i, parentId, term, concepts))
  }

  /** `transformSubmodelElements`: an absent element list yields no nodes. */
  function TransformSubmodelElements(elements: Option<seq<Element>>, parentId: Option<string>, term: Option<string>, concepts: Concepts): (r: seq<TreeNode>)
    ensures elements.None? ==> r == []
    ensures elements.Some? ==> |r| == |elements.value|
  {
    match elements
    case None => []
    case Some(es) => TransformElements(es, parentId, term, concepts)
  }

  /** The node at position `i` is the node of the element at position `i`. */
  lemma TransformElementsAt(es: seq<Element>, i: nat, parentId: Option<string>, term: Option<string>, concepts: Concepts)
    requires i < |es|
    ensures TransformElements(es, parentId, term, concepts)[i] == ElementNode(es[i], i, parentId, term, concepts)
  {
  }

  /** A language-string entry read as an element gets exactly the starting node. */
  lemma BlankElementNode(index: nat, parentId: Option<string>, term: Option<string>, concepts: Concepts)
    ensures ElementNode(BlankElement, index, parentId, term, concepts) == BaseNode(BlankElement, index, parentId, concepts)
  {
  }

  /** Whether an element matches the term by its own content, without looking at nested elements. */
  predicate DirectMatch(e: Element, term: Option<string>) {
    match e.modelType
    case Property => !IsBlankValue(e.value) && MatchesTerm(Stringify(e.value), term)
    case MultiLanguageProperty =>
      TruthyValue(e.value) && Truthy(MultiLanguageValue(e.value, "en")) &&
      MatchesTerm(MultiLanguageValue(e.value, "en").value, term)
    case File => FileMatches(e, term)
    case _ => false
  }

  /** The element, or an element nested in it through collections, matches by its own content. */
  predicate SubtreeMatches(e: Element, term: Option<string>) {
    DirectMatch(e, term) ||
    (e.modelType == SubmodelElementCollection && e.value.Children? &&
     exists i :: 0 <= i < |e.value.elements| && SubtreeMatches(e.value.elements[i], term))
  }

  /** A node is marked exactly when its element or one nested in it matches by content. */
  lemma {:induction false} ElementNodeMatchedIff(e: Element, index: nat, parentId: Option<string>, term: Option<string>, concepts: Concepts)
    ensures ElementNode(e, index, parentId, term, concepts).isMatched <==> SubtreeMatches(e, term)
  {
    if e.modelType == SubmodelElementCollection && e.value.Children? {
      var id := ElementId(parentId, e, index);
      var es := e.value.elements;
      var kids := TransformElements(es, Some(id), term, concepts);
      forall i | 0 <= i < |es|
        ensures kids[i].isMatched <==> SubtreeMatches(es[i], term)
      {
        ElementNodeMatchedIff(es[i], i, Some(id), term, concepts);
      }
    }
  }

  /** Without a search term no node at any depth is marked. */
  lemma {:induction false} NoTermNoElementMatch(e: Element, index: nat, parentId: Option<string>, term: Option<string>, concepts: Concepts)
    requires !Truthy(term)
    ensures EveryNode(ElementNode(e, index, parentId, term, concepts), NotMatched)
  {
    var n := ElementNode(e, index, parentId, term, concepts);
    if e.modelType == SubmodelElementCollection && IsArray(e.value) {
      var id := ElementId(parentId, e, index);
      var kids := ArrayChildren(e.value, id, term, concepts);
      assert n.children == kids;
      forall i | 0 <= i < |kids|
        ensures EveryNode(kids[i], NotMatched)
      {
        match e.value
        case Children(es) =>
          TransformElementsAt(es, i, Some(id), term, concepts);
          NoTermNoElementMatch(es[i], i, Some(id), term, concepts);
        case LangTexts(ls) =>
          assert kids[i] == BaseNode(BlankElement, i, Some(id), concepts);
      }
    }
  }

  /** Element nodes are built collapsed, at every depth. */
  lemma {:induction false} ElementNodesCollapsed(e: Element, index: nat, parentId: Option<string>, term: Option<string>, concepts: Concepts)
    ensures EveryNode(ElementNode(e, index, parentId, term, concepts), NotExpanded)
  {
    var n := ElementNode(e, index, parentId, term, concepts);
    if e.modelType == SubmodelElementCollection && IsArray(e.value) {
      var id := ElementId(parentId, e, index);
      var kids := ArrayChildren(e.value, id, term, concepts);
      assert n.children == kids;
      forall i | 0 <= i < |kids|
        ensures EveryNode(kids[i], NotExpanded)
      {
        match e.value
        case Children(es) =>
          TransformElementsAt(es, i, Some(id), term, concepts);
          ElementNodesCollapsed(es[i], i, Some(id), term, concepts);
        case LangTexts(ls) =>
          assert kids[i] == BaseNode(BlankElement, i, Some(id), concepts);
      }
    }
  }

  /** Below an element node, every node's children have ids extending that node's id. */
  lemma {:induction false} ElementIdsNested(e: Element, index: nat, parentId: Option<string>, term: Option<string>, concepts: Concepts)
    ensures EveryNode(ElementNode(e, index, parentId, term, concepts), ChildIdsExtendParent)
  {
    var n := ElementNode(e, index, parentId, term, concepts);
    if e.modelType == SubmodelElementCollection && IsArray(e.value) {
      var id := ElementId(parentId, e, index);
      var kids := ArrayChildren(e.value, id, term, concepts);
      assert n.children == kids;
      assert OrEmpty(Some(id)) == id;
      forall i | 0 <= i < |kids|
        ensures EveryNode(kids[i], ChildIdsExtendParent)
      {
        match e.value
        case Children(es) =>
          TransformElementsAt(es, i, Some(id), term, concepts);
          ElementIdsNested(es[i], i, Some(id), term, concepts);
        case LangTexts(ls) =>
          assert kids[i] == BaseNode(BlankElement, i, Some(id), concepts);
      }
    }
  }

  /** Two sibling elements with the same short id get the same node id: ids are not unique. */
  lemma SiblingIdsCollide(e: Element, parentId: Option<string>, term: Option<string>, concepts: Concepts)
    requires Truthy(e.idShort)
    ensures var ns := TransformElements([e, e], parentId, term, concepts); ns[0].id == ns[1].id
  {
  }

  /** A property with a text value is shown as `<idShort>: <value> <unit>`, the unit from its semantic id, own field or short id. */
  lemma PropertyNameWithUnit(e: Element, index: nat, parentId: Option<string>, term: Option<string>, concepts: Concepts)
    requires e.modelType == Property && e.value.Text? && e.value.s != ""
    requires PropertyUnit(e).Some?
    ensures ElementNode(e, index, parentId, term, concepts).name ==
            Some(TemplateStr(e.idShort) + ": " + (e.value.s + " " + PropertyUnit(e).value))
  {
    assert Stringify(e.value) == e.value.s;
  }

  /** Without a unit a text value is shown bare, as `<idShort>: <value>`. */
  lemma PropertyNameWithoutUnit(e: Element, index: nat, parentId: Option<string>, term: Option<string>, concepts: Concepts)
    requires e.modelType == Property && e.value.Text? && e.value.s != ""
    requires PropertyUnit(e).None?
    ensures ElementNode(e, index, parentId, term, concepts).name == Some(TemplateStr(e.idShort) + ": " + e.value.s)
  {
    assert Stringify(e.value) == e.value.s;
  }

  /** A rated current of 350 whose semantic id names a current is shown as `RatedOutputCurrent: 350 A`. */
  lemma RatedCurrentExample(index: nat, parentId: Option<string>, term: Option<string>, concepts: Concepts)
    ensures ElementNode(Element(Property, Some("RatedOutputCurrent"), Text("350"), Some(Reference([Key(Some("Current"))])), None),
                        index, parentId, term, concepts).name == Some("RatedOutputCurrent: 350 A")
  {
    var e := Element(Property, Some("RatedOutputCurrent"), Text("350"), Some(Reference([Key(Some("Current"))])), None);
    CurrentSemanticIdUnit();
    PropertyNameWithUnit(e, index, parentId, term, concepts);
    RatedCurrentText();
  }

  lemma RatedCurrentText()
    ensures "RatedOutputCurrent" + ": " + ("350" + " " + "A") == "RatedOutputCurrent: 350 A"
  {
    var x := "RatedOutputCurrent" + ": " + ("350" + " " + "A");
    assert |x| == 25;
    assert forall i :: 0 <= i < 25 ==> x[i] == "RatedOutputCurrent: 350 A"[i];
  }

  /** A semantic id `Current` names amperes. */
  lemma CurrentSemanticIdUnit()
    ensures UnitFromSemanticId(Some(Reference([Key(Some("Current"))]))) == Some("A")
  {
    assert GetSemanticIdValue(Some(Reference([Key(Some("Current"))]))) == Some("Current");
    assert Lower("Current") == "current";
    assert "current"[0] != "voltage"[0];
    assert !Contains("current"[1..], "voltage");
    assert !Contains("current", "voltage");
    assert "current"[..7] == "current";
    assert Contains("current", "current");
    assert FirstUnit("current", UnitPatterns) == Some("A");
  }

  // ---------------------------------------------------------------------
  // Shells and their submodels
  // ---------------------------------------------------------------------

  /** The submodel bodies handed to the tree builder: none, a single one, or an array. */
  datatype SubmodelInput = NoSubmodels | OneSubmodel(submodel: Submodel) | SubmodelArray(submodels: seq<Submodel>)

  /** The bodies as an array: a single one becomes a one-entry array, none an empty one. */
  function SubmodelList(input: SubmodelInput): (r: seq<Submodel>)
    ensures forall s :: s in r <==> (input.OneSubmodel? && s == input.submodel) ||
                                     (input.SubmodelArray? && s in input.submodels)
  {
    match input
    case NoSubmodels => []
    case OneSubmodel(s) => [s]
    case SubmodelArray(ss) => ss
  }

  /**
   * The note after a shell's name: the identifier in its id when that
   * differs from its short id; otherwise its facility name when it has
   * one that differs from its short id; otherwise nothing.
   */
  function EquipmentSuffix(aas: AasRecord, submodels: seq<Submodel>): (r: string)
    ensures r == "" || (IsPrefix(" (", r) && r[|r| - 1] == ')')
    ensures var ident := ExtractIdentifierFromId(aas.id);
            ident.Some? && Some(ident.value) != aas.idShort ==> r == " (" + ident.value + ")"
    ensures var ident := ExtractIdentifierFromId(aas.id);
            !(ident.Some? && Some(ident.value) != aas.idShort) ==> r == FacilityNote(aas, FacilityName(aas, submodels))
  {
    var ident := ExtractIdentifierFromId(aas.id);
    if ident.Some? && Some(ident.value) != aas.idShort then
      var r := " (" + ident.value + ")";
      assert r[..2] == " (";
      r
    else FacilityNote(aas, FacilityName(aas, submodels))
  }

  /** The facility part of the note: the facility name when there is one other than the short id. */
  function FacilityNote(aas: AasRecord, facility: Option<Value>): (r: string)
    ensures facility.None? ==> r == ""
    ensures facility.Some? && !FacilityIsShortId(aas, facility.value) ==> r == " (" + Stringify(facility.value) + ")"
    ensures facility.Some? && FacilityIsShortId(aas, facility.value) ==> r == ""
    ensures r == "" || (IsPrefix(" (", r) && r[|r| - 1] == ')')
  {
    match facility
    case Some(f) =>
      if !FacilityIsShortId(aas, f) then
        var r := " (" + Stringify(f) + ")";
        assert r[..2] == " (";
        r
      else ""
    case None => ""
  }

  /** `facilityName !== aas.idShort`, negated: the facility is a string equal to the short id. */
  predicate FacilityIsShortId(aas: AasRecord, f: Value) {
    f.Text? && aas.idShort == Some(f.s)
  }

  /** A shell's display name: its short id (or `Unknown AAS`) and the note. */
  function EquipmentName(aas: AasRecord, submodels: seq<Submodel>): (r: string)
    ensures IsPrefix(OrElse(aas.idShort, "Unknown AAS"), r)
  {
    var base := OrElse(aas.idShort, "Unknown AAS");
    var r := base + EquipmentSuffix(aas, submodels);
    assert r[..|base|] == base;
    r
  }

  /** With neither an identifier nor a facility name other than the short id, the name is the short id alone. */
  lemma EquipmentNamePlain(aas: AasRecord, submodels: seq<Submodel>)
    requires ExtractIdentifierFromId(aas.id).None? || aas.idShort == ExtractIdentifierFromId(aas.id)
    requires FacilityName(aas, submodels).None? || FacilityIsShortId(aas, FacilityName(aas, submodels).value)
    ensures EquipmentName(aas, submodels) == OrElse(aas.idShort, "Unknown AAS")
  {
    assert EquipmentSuffix(aas, submodels) == "";
  }

  /** The name carries the identifier from the id whenever there is one other than the short id. */
  lemma EquipmentNameUsesIdentifier(aas: AasRecord, submodels: seq<Submodel>)
    requires ExtractIdentifierFromId(aas.id).Some?
    requires aas.idShort != ExtractIdentifierFromId(aas.id)
    ensures EquipmentName(aas, submodels) == OrElse(aas.idShort, "Unknown AAS") + (" (" + ExtractIdentifierFromId(aas.id).value + ")")
  {
  }

  /** Without a usable identifier, a facility name other than the short id is shown instead. */
  lemma EquipmentNameUsesFacility(aas: AasRecord, submodels: seq<Submodel>, facility: string)
    requires ExtractIdentifierFromId(aas.id).None? || aas.idShort == ExtractIdentifierFromId(aas.id)
    requires FacilityName(aas, submodels) == Some(Text(facility))
    requires aas.idShort != Some(facility)
    ensures EquipmentName(aas, submodels) == OrElse(aas.idShort, "Unknown AAS") + (" (" + facility + ")")
  {
    assert FacilityNote(aas, FacilityName(aas, submodels)) == " (" + facility + ")";
  }

  /**
   * The shell `TIG01` whose id names model `150LMT2` (as the id
   * `https://example.com/aas/TungstenInsertGasType-classify/150LMT2/1/0`
   * does, by `ExtractIdentifierExample`) is shown as `TIG01 (150LMT2)`.
   */
  lemma EquipmentNameExample(id: string, info: Option<AssetInformation>, refs: Option<seq<SubmodelRef>>, submodels: seq<Submodel>)
    requires ExtractIdentifierFromId(Some(id)) == Some("150LMT2")
    ensures EquipmentName(AasRecord(Some(id), Some("TIG01"), info, None, refs), submodels) == "TIG01 (150LMT2)"
  {
    var aas := AasRecord(Some(id), Some("TIG01"), info, None, refs);
    assert "150LMT2"[0] != "TIG01"[0];
    EquipmentNameUsesIdentifier(aas, submodels);
    TigNameText();
  }

  lemma TigNameText()
    ensures "TIG01" + (" (" + "150LMT2" + ")") == "TIG01 (150LMT2)"
  {
    var x := "TIG01" + (" (" + "150LMT2" + ")");
    assert |x| == 15;
    assert forall i :: 0 <= i < 15 ==> x[i] == "TIG01 (150LMT2)"[i];
  }

  /** The text a shell is searched by: its short id, id and global asset id, separated by spaces. */
  function AasSearchText(aas: AasRecord): (r: string)
    ensures Contains(r, OrEmpty(aas.idShort)) && Contains(r, OrEmpty(aas.id))
    ensures Contains(r, OrEmpty(GlobalAssetIdOf(aas)))
  {
    var a, b, c := OrEmpty(aas.idShort), OrEmpty(aas.id), OrEmpty(GlobalAssetIdOf(aas));
    var r := a + " " + b + " " + c;
    assert r == (a + " ") + (b + " ") + c;
    ContainsItself(a); ContainsAppendRight(a, " ", a); ContainsAppendRight(a + " ", (b + " ") + c, a);
    ContainsItself(b); ContainsAppendRight(b, " ", b); ContainsAppendRight(b + " ", c, b);
    ContainsPrependLeft(a + " ", (b + " ") + c, b);
    ContainsItself(c); ContainsPrependLeft((a + " ") + (b + " "), c, c);
    assert (a + " ") + ((b + " ") + c) == ((a + " ") + (b + " ")) + c;
    r
  }

  /** The global asset id of a shell, when it has asset information. */
  function GlobalAssetIdOf(aas: AasRecord): Option<string> {
    if aas.assetInformation.Some? then aas.assetInformation.value.globalAssetId else None
  }

  /** A text containing a part that contains the term, ignoring case, contains the term too. */
  lemma ContainsIgnoringCaseWithin(text: string, part: string, term: string)
    requires Contains(text, part) && ContainsIgnoringCase(part, term)
    ensures ContainsIgnoringCase(text, term)
  {
    ContainsLower(text, part);
    ContainsTransitive(Lower(text), Lower(part), Lower(term));
  }

  /** A shell whose short id, id or global asset id contains the term, ignoring case, is marked. */
  lemma EquipmentMatchedByField(aas: AasRecord, submodels: seq<Submodel>, term: Option<string>)
    requires Truthy(term)
    requires ContainsIgnoringCase(OrEmpty(aas.idShort), term.value) || ContainsIgnoringCase(OrEmpty(aas.id), term.value) ||
             ContainsIgnoringCase(OrEmpty(GlobalAssetIdOf(aas)), term.value)
    ensures EquipmentNode(aas, submodels, term).isMatched
  {
    var t := AasSearchText(aas);
    if ContainsIgnoringCase(OrEmpty(aas.idShort), term.value) {
      ContainsIgnoringCaseWithin(t, OrEmpty(aas.idShort), term.value);
    } else if ContainsIgnoringCase(OrEmpty(aas.id), term.value) {
      ContainsIgnoringCaseWithin(t, OrEmpty(aas.id), term.value);
    } else {
      ContainsIgnoringCaseWithin(t, OrEmpty(GlobalAssetIdOf(aas)), term.value);
    }
  }

  /**
   * A submodel node's name: the body's short id; else, from the reference's
   * id, the name the id's path yields; `Unknown Submodel` without an id.
   */
  function SubmodelNodeName(data: Option<Submodel>, sid: Option<string>): (r: string)
    ensures r != ""
    ensures data.Some? && Truthy(data.value.idShort) ==> r == data.value.idShort.value
    ensures !(data.Some? && Truthy(data.value.idShort)) && Truthy(sid) ==> r == SubmodelNameFromId(sid.value)
    ensures !(data.Some? && Truthy(data.value.idShort)) && !Truthy(sid) ==> r == "Unknown Submodel"
  {
    if data.Some? && Truthy(data.value.idShort) then data.value.idShort.value
    else if Truthy(sid) then SubmodelNameFromId(sid.value)
    else "Unknown Submodel"
  }

  /** The stand-in child of a submodel whose elements are not built yet: `<id>_placeholder`; a missing id prints as `null`. */
  function PlaceholderNode(sid: Option<string>): (r: TreeNode)
    ensures r.kind == PlaceholderKind && r.children == [] && r.name.None? && r.data == NoData
    ensures !r.expanded && !r.selected && !r.isMatched && !r.hasValue
    ensures sid.Some? ==> r.id == Some(sid.value + "_placeholder")
    ensures sid.None? ==> r.id == Some("null_placeholder")
  {
    var prefix := if sid.Some? then sid.value else "null";
    assert "null" + "_placeholder" == "null_placeholder";
    TreeNode(Some(prefix + "_placeholder"), None, PlaceholderKind, false, false, false, false, NoData, None, None, [])
  }

  /** Whether the submodel's elements are built at once: only while searching, and only when its body lists elements. */
  predicate BuildsElements(data: Option<Submodel>, term: Option<string>) {
    Truthy(term) && data.Some? && data.value.submodelElements.Some?
  }

  /**
   * The node for one submodel reference of a shell. It is marked when its
   * name or id contains the term, or when one of its element nodes is
   * marked; its children are the element nodes, or just a placeholder.
   */
  function SubmodelNode(ref: SubmodelRef, equipmentId: Option<string>, submodels: seq<Submodel>, term: Option<string>): (r: TreeNode)
    ensures r.id == SubmodelIdOf(ref) && r.parent == equipmentId && r.kind == SubmodelKind && !r.expanded
    ensures r.data == (match FindSubmodelData(submodels, SubmodelIdOf(ref))
                       case Some(d) => SubmodelData(d)
                       case None => NoData)
    ensures r.name == Some(SubmodelNodeName(FindSubmodelData(submodels, SubmodelIdOf(ref)), SubmodelIdOf(ref)))
    ensures var name := SubmodelNodeName(FindSubmodelData(submodels, SubmodelIdOf(ref)), SubmodelIdOf(ref));
            r.isMatched <==> MatchesTerm(name + " " + OrEmpty(SubmodelIdOf(ref)), term) || AnyMatched(r.children)
  {
    var sid := SubmodelIdOf(ref);
    var data := FindSubmodelData(submodels, sid);
    var name := SubmodelNodeName(data, sid);
    var n := TreeNode(sid, Some(name), SubmodelKind, false, false, MatchesTerm(name + " " + OrEmpty(sid), term), false,
                      if data.Some? then SubmodelData(data.value) else NoData, equipmentId, None, []);
    if BuildsElements(data, term) then
      var kids := TransformElements(data.value.submodelElements.value, data.value.id, term, map[]);
      n.(children := kids, isMatched := n.isMatched || AnyMatched(kids))
    else n.(children := [PlaceholderNode(sid)])
  }

  /**
   * The node for one shell: a submodel node per reference, marked when its
   * own search text contains the term or one of its submodel nodes is
   * marked.
   */
  function EquipmentNode(aas: AasRecord, submodels: seq<Submodel>, term: Option<string>): (r: TreeNode)
    ensures r.id == aas.id && r.kind == EquipmentKind && r.data == EquipmentData(aas) && !r.expanded
    ensures r.name == Some(EquipmentName(aas, submodels))
    ensures |r.children| == (if aas.submodel.Some? then |aas.submodel.value| else 0)
    ensures forall j :: 0 <= j < |r.children| ==> r.children[j] == SubmodelNode(aas.submodel.value[j], aas.id, submodels, term)
    ensures r.isMatched <==> MatchesTerm(AasSearchText(aas), term) || AnyMatched(r.children)
  {
    var kids := match aas.submodel
                case Some(refs) => seq(|refs|, j requires 0 <= j < |refs| => SubmodelNode(refs[j], aas.id, submodels, term))
                case None => [];
    TreeNode(aas.id, Some(EquipmentName(aas, submodels)), EquipmentKind, false, false,
             MatchesTerm(AasSearchText(aas), term) || AnyMatched(kids), false, EquipmentData(aas), None, None, kids)
  }

  /** `transformApiToTree`: one node per shell, in order, every shell resolved against the same bodies. */
  function TransformApiToTree(aasData: seq<AasRecord>, input: SubmodelInput, term: Option<string>): (r: seq<TreeNode>)
    ensures |r| == |aasData|
    ensures forall i :: 0 <= i < |aasData| ==> r[i] == EquipmentNode(aasData[i], SubmodelList(input), term)
  {
    seq(|aasData|, i requires 0 <= i < |aasData| => EquipmentNode(aasData[i], SubmodelList(input), term))
  }

  /** While searching, a submodel whose body lists elements gets their nodes, and is marked when one of them is. */
  lemma SubmodelNodeBuildsElements(ref: SubmodelRef, equipmentId: Option<string>, submodels: seq<Submodel>, term: Option<string>)
    requires BuildsElements(FindSubmodelData(submodels, SubmodelIdOf(ref)), term)
    ensures var d := FindSubmodelData(submodels, SubmodelIdOf(ref)).value;
            var r := SubmodelNode(ref, equipmentId, submodels, term);
            r.children == TransformElements(d.submodelElements.value, d.id, term, map[]) &&
            (r.isMatched <==> MatchesTerm(SubmodelNodeName(Some(d), SubmodelIdOf(ref)) + " " + OrEmpty(SubmodelIdOf(ref)), term) ||
                              exists k :: 0 <= k < |r.children| && SubtreeMatches(d.submodelElements.value[k], term))
  {
    var d := FindSubmodelData(submodels, SubmodelIdOf(ref)).value;
    var es := d.submodelElements.value;
    var kids := TransformElements(es, d.id, term, map[]);
    forall k | 0 <= k < |es|
      ensures kids[k].isMatched <==> SubtreeMatches(es[k], term)
    {
      TransformElementsAt(es, k, d.id, term, map[]);
      ElementNodeMatchedIff(es[k], k, d.id, term, map[]);
    }
  }

  /** Otherwise the submodel's only child is its placeholder. */
  lemma SubmodelNodeIsLazy(ref: SubmodelRef, equipmentId: Option<string>, submodels: seq<Submodel>, term: Option<string>)
    requires !BuildsElements(FindSubmodelData(submodels, SubmodelIdOf(ref)), term)
    ensures SubmodelNode(ref, equipmentId, submodels, term).children == [PlaceholderNode(SubmodelIdOf(ref))]
  {
  }

  /** Without a search term no node of a shell's tree is marked. */
  lemma {:induction false} NoTermNoMatch(aas: AasRecord, submodels: seq<Submodel>, term: Option<string>)
    requires !Truthy(term)
    ensures EveryNode(EquipmentNode(aas, submodels, term), NotMatched)
  {
    var n := EquipmentNode(aas, submodels, term);
    forall j | 0 <= j < |n.children|
      ensures EveryNode(n.children[j], NotMatched)
    {
      var c := n.children[j];
      assert !BuildsElements(FindSubmodelData(submodels, SubmodelIdOf(aas.submodel.value[j])), term);
      assert c.children == [PlaceholderNode(c.id)];
      assert EveryNode(c.children[0], NotMatched);
    }
  }

  /** A shell's tree is built collapsed at every depth. */
  lemma {:induction false} TreeCollapsed(aas: AasRecord, submodels: seq<Submodel>, term: Option<string>)
    ensures EveryNode(EquipmentNode(aas, submodels, term), NotExpanded)
  {
    var n := EquipmentNode(aas, submodels, term);
    forall j | 0 <= j < |n.children|
      ensures EveryNode(n.children[j], NotExpanded)
    {
      SubmodelCollapsed(aas.submodel.value[j], aas.id, submodels, term);
    }
  }

  lemma {:induction false} SubmodelCollapsed(ref: SubmodelRef, equipmentId: Option<string>, submodels: seq<Submodel>, term: Option<string>)
    ensures EveryNode(SubmodelNode(ref, equipmentId, submodels, term), NotExpanded)
  {
    var r := SubmodelNode(ref, equipmentId, submodels, term);
    var data := FindSubmodelData(submodels, SubmodelIdOf(ref));
    if BuildsElements(data, term) {
      var es := data.value.submodelElements.value;
      forall k | 0 <= k < |r.children|
        ensures EveryNode(r.children[k], NotExpanded)
      {
        TransformElementsAt(es, k, data.value.id, term, map[]);
        ElementNodesCollapsed(es[k], k, data.value.id, term, map[]);
      }
    } else {
      assert r.children == [PlaceholderNode(SubmodelIdOf(ref))];
      assert EveryNode(r.children[0], NotExpanded);
    }
  }
}
