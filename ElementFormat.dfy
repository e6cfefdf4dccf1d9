/**
 * How a single submodel element is presented in the tree: the node type
 * for its `modelType`, the unit appended to a property's value, the text
 * of a multi-language property, and whether a file element matches a
 * search term.
 */
module ElementFormat {
  import opened Wrappers
  import opened JsBuiltins
  import opened AasTypes
  import opened AasLookup
  import opened TreeNodes

  /** The node type of an element: the seven known model types have their own, every other is `element`. */
  function ElementType(t: ModelType): (r: NodeType)
    ensures r == ElementKind <==> t == OtherModelType
    ensures r != EquipmentKind && r != SubmodelKind && r != PlaceholderKind
  {
    match t
    case SubmodelElementCollection => CollectionKind
    case Property => PropertyKind
    case MultiLanguageProperty => MultiLanguagePropertyKind
    case File => FileKind
    case ReferenceElement => ReferenceKind
    case Range => RangeKind
    case Blob => BlobKind
    case OtherModelType => ElementKind
  }

  /** Distinct model types get distinct node types. */
  lemma ElementTypeInjective(s: ModelType, t: ModelType)
    requires ElementType(s) == ElementType(t)
    ensures s == t
  {
  }

  /** The units a semantic id can name, in the order they are tried: the first pattern the id contains decides. */
  const UnitPatterns: seq<(string, string)> := [
    ("voltage", "V"), ("current", "A"), ("frequency", "Hz"), ("capacity", "KVA"),
    ("power", "KW"), ("weight", "kg"), ("dimension", "mm"), ("width", "mm"),
    ("height", "mm"), ("depth", "mm"), ("time", "sec"), ("temperature", "°C"),
    ("percentage", "%"), ("dutycycle", "%")]

  /** Every unit the tree can show after a value. */
  predicate IsKnownUnit(u: string) {
    u in ["V", "A", "Hz", "KVA", "KW", "kg", "mm", "sec", "°C", "%"]
  }

  /** The unit of the first pattern of `table` that `text` contains. */
  function FirstUnit(text: string, table: seq<(string, string)>): (r: Option<string>)
    ensures r.Some? ==> exists i :: 0 <= i < |table| && Contains(text, table[i].0) && r.value == table[i].1 &&
                          forall j :: 0 <= j < i ==> !Contains(text, table[j].0)
    ensures r.None? <==> forall i :: 0 <= i < |table| ==> !Contains(text, table[i].0)
  {
    if table == [] then None
    else if Contains(text, table[0].0) then Some(table[0].1)
    else
      var rest := FirstUnit(text, table[1..]);
      assert forall i :: 1 <= i < |table| ==> table[i] == table[1..][i - 1];
      rest
  }

  /**
   * The unit named by a semantic id: the first entry of the pattern table
   * that the lower-cased first key contains; none without a first key.
   */
  function UnitFromSemanticId(semanticId: Option<Reference>): (r: Option<string>)
    ensures GetSemanticIdValue(semanticId).None? ==> r.None?
    ensures r.Some? ==> IsKnownUnit(r.value)
    ensures r.Some? ==> exists i :: 0 <= i < |UnitPatterns| && r.value == UnitPatterns[i].1 &&
                          Contains(Lower(GetSemanticIdValue(semanticId).value), UnitPatterns[i].0) &&
                          forall j :: 0 <= j < i ==> !Contains(Lower(GetSemanticIdValue(semanticId).value), UnitPatterns[j].0)
    ensures GetSemanticIdValue(semanticId).Some? ==>
              (r.None? <==> forall i :: 0 <= i < |UnitPatterns| ==>
                              !Contains(Lower(GetSemanticIdValue(semanticId).value), UnitPatterns[i].0))
  {
    match GetSemanticIdValue(semanticId)
    case None => None
    case Some(v) =>
      var r := FirstUnit(Lower(v), UnitPatterns);
      assert forall i :: 0 <= i < |UnitPatterns| ==> IsKnownUnit(UnitPatterns[i].1);
      r
  }

  /** A semantic id mentioning a voltage is shown in volts, whatever else it mentions. */
  lemma VoltageWinsInSemanticId(semanticId: Option<Reference>)
    requires GetSemanticIdValue(semanticId).Some?
    requires Contains(Lower(GetSemanticIdValue(semanticId).value), "voltage")
    ensures UnitFromSemanticId(semanticId) == Some("V")
  {
  }

  /** The units a short id can name, in the order they are tried; a capacity is handled after them. */
  const IdShortPatterns: seq<(string, string)> := [
    ("voltage", "V"), ("current", "A"), ("frequency", "Hz"), ("rate", "%"), ("duty", "%"),
    ("weight", "kg"), ("time", "sec")]

  /**
   * The unit guessed from an element's short id, by the first of these
   * that its lower-cased text contains: voltage, current, frequency,
   * rate or duty, weight, time; a capacity is in KVA or KW only when the
   * id also says so.
   */
  function UnitFromIdShort(idShort: Option<string>): (r: Option<string>)
    ensures r.Some? ==> Truthy(idShort) && IsKnownUnit(r.value)
    ensures r == Some("V") <==> Truthy(idShort) && Contains(Lower(idShort.value), "voltage")
    ensures Truthy(idShort) ==>
              forall i :: (0 <= i < |IdShortPatterns| && Contains(Lower(idShort.value), IdShortPatterns[i].0) &&
                           forall j :: 0 <= j < i ==> !Contains(Lower(idShort.value), IdShortPatterns[j].0)) ==>
                r == Some(IdShortPatterns[i].1)
    ensures r == Some("KVA") <==> Truthy(idShort) && NoIdShortPattern(idShort.value) &&
                                  Contains(Lower(idShort.value), "capacity") && Contains(Lower(idShort.value), "kva")
    ensures r == Some("KW") <==> Truthy(idShort) && NoIdShortPattern(idShort.value) &&
                                 Contains(Lower(idShort.value), "capacity") && !Contains(Lower(idShort.value), "kva") &&
                                 Contains(Lower(idShort.value), "kw")
    ensures r.None? <==> !Truthy(idShort) ||
                         (NoIdShortPattern(idShort.value) &&
                          !(Contains(Lower(idShort.value), "capacity") &&
                            (Contains(Lower(idShort.value), "kva") || Contains(Lower(idShort.value), "kw"))))
  {
    if !Truthy(idShort) then None
    else
      var s := Lower(idShort.value);
      var u := FirstUnit(s, IdShortPatterns);
      assert forall i :: 0 <= i < |IdShortPatterns| ==> IsKnownUnit(IdShortPatterns[i].1) && IdShortPatterns[i].1 !in ["KVA", "KW"];
      assert Contains(s, "voltage") ==> u == Some("V");
      if u.Some? then u
      else if Contains(s, "capacity") then
        if Contains(s, "kva") then Some("KVA")
        else if Contains(s, "kw") then Some("KW")
        else None
      else None
  }

  /** No pattern of `IdShortPatterns` occurs in the lower-cased short id. */
  predicate NoIdShortPattern(idShort: string) {
    forall i :: 0 <= i < |IdShortPatterns| ==> !Contains(Lower(idShort), IdShortPatterns[i].0)
  }

  /** A capacity whose short id names neither KVA nor KW has no unit from its short id. */
  lemma CapacityWithoutScaleHasNoUnit(idShort: string)
    requires idShort != ""
    requires var s := Lower(idShort);
      Contains(s, "capacity") && !Contains(s, "kva") && !Contains(s, "kw") &&
      !Contains(s, "voltage") && !Contains(s, "current") && !Contains(s, "frequency") &&
      !Contains(s, "rate") && !Contains(s, "duty") && !Contains(s, "weight") && !Contains(s, "time")
    ensures UnitFromIdShort(Some(idShort)).None?
  {
  }

  /** The unit shown after a property's value: from its semantic id, else its own `unit` field, else its short id. */
  function PropertyUnit(e: Element): (r: Option<string>)
    ensures UnitFromSemanticId(e.semanticId).Some? ==> r == UnitFromSemanticId(e.semanticId)
    ensures UnitFromSemanticId(e.semanticId).None? && Truthy(e.unit) ==> r == e.unit
    ensures r.Some? ==> r.value != ""
    ensures r.None? <==> UnitFromSemanticId(e.semanticId).None? && !Truthy(e.unit) && UnitFromIdShort(e.idShort).None?
  {
    var fromSemantic := UnitFromSemanticId(e.semanticId);
    if fromSemantic.Some? then fromSemantic
    else if Truthy(e.unit) then e.unit
    else UnitFromIdShort(e.idShort)
  }

  /** `value === null || value === undefined || value === ''`. */
  predicate IsBlankValue(v: Value) {
    v.Missing? || v.Null? || v == Text("")
  }

  /**
   * The text shown for a property's value: nothing for a missing, null or
   * empty value; otherwise the value as text, followed by a space and the
   * property's unit when it has one.
   */
  function FormatPropertyValue(e: Element): (r: Option<string>)
    ensures r.None? <==> IsBlankValue(e.value)
    ensures r.Some? ==> IsPrefix(Stringify(e.value), r.value)
    ensures r.Some? && PropertyUnit(e).Some? ==> r.value == Stringify(e.value) + " " + PropertyUnit(e).value
    ensures r.Some? && PropertyUnit(e).None? ==> r.value == Stringify(e.value)
  {
    if IsBlankValue(e.value) then None
    else
      var u := PropertyUnit(e);
      if u.Some? then
        var text := Stringify(e.value) + " " + u.value;
        assert text[..|Stringify(e.value)|] == Stringify(e.value);
        Some(text)
      else Some(Stringify(e.value))
  }

  /** The index of the first entry in the given language. */
  function LanguageIndex(entries: seq<LangString>, lang: string): (r: Option<nat>)
    ensures r.Some? ==> r.value < |entries| && entries[r.value].language == Some(lang) &&
                          forall j :: 0 <= j < r.value ==> entries[j].language != Some(lang)
    ensures r.None? <==> forall j :: 0 <= j < |entries| ==> entries[j].language != Some(lang)
  {
    FindIndex(entries, (l: LangString) => l.language == Some(lang))
  }

  /**
   * The text of a multi-language value: that of the first entry in the
   * preferred language, as it is even when it is empty or absent; else
   * that of the first English entry; else the first entry's text when it
   * is not empty. A value that is not an array has none.
   */
  function MultiLanguageValue(v: Value, preferredLang: string): (r: Option<string>)
    ensures !IsArray(v) ==> r.None?
    ensures IsArray(v) && r.Some? ==> exists i :: 0 <= i < ArrayLength(v) && AsLangStrings(v)[i].text == r
    ensures IsArray(v) && LanguageIndex(AsLangStrings(v), preferredLang).Some? ==>
              r == AsLangStrings(v)[LanguageIndex(AsLangStrings(v), preferredLang).value].text
    ensures IsArray(v) && LanguageIndex(AsLangStrings(v), preferredLang).None? &&
            LanguageIndex(AsLangStrings(v), "en").Some? ==>
              r == AsLangStrings(v)[LanguageIndex(AsLangStrings(v), "en").value].text
    ensures IsArray(v) && LanguageIndex(AsLangStrings(v), preferredLang).None? &&
            LanguageIndex(AsLangStrings(v), "en").None? ==>
              (r.Some? <==> ArrayLength(v) > 0 && Truthy(AsLangStrings(v)[0].text)) &&
              (r.Some? ==> r == AsLangStrings(v)[0].text)
  {
    if !IsArray(v) then None
    else
      var entries := AsLangStrings(v);
      match LanguageIndex(entries, preferredLang)
      case Some(i) => entries[i].text
      case None =>
        match LanguageIndex(entries, "en")
        case Some(i) => entries[i].text
        case None => if |entries| > 0 && Truthy(entries[0].text) then entries[0].text else None
  }

  /** With no entry in the preferred language nor in English, the first entry's text is used when it is not empty. */
  lemma MultiLanguageFallsBackToFirst(entries: seq<LangString>, preferredLang: string)
    requires |entries| > 0 && Truthy(entries[0].text)
    requires forall j :: 0 <= j < |entries| ==> entries[j].language != Some(preferredLang) && entries[j].language != Some("en")
    ensures MultiLanguageValue(LangTexts(entries), preferredLang) == entries[0].text
  {
    assert LanguageIndex(entries, preferredLang).None?;
    assert LanguageIndex(entries, "en").None?;
  }

  /** An array of nested elements has no language entries, so it never yields a text. */
  lemma ElementsHaveNoLanguageText(es: seq<Element>, preferredLang: string)
    ensures MultiLanguageValue(Children(es), preferredLang).None?
  {
    var entries := AsLangStrings(Children(es));
    assert forall j :: 0 <= j < |entries| ==> entries[j] == LangString(None, None);
  }

  /** `String(x).toLowerCase().includes(String(term).toLowerCase())`. */
  predicate ContainsIgnoringCase(text: string, term: string) {
    Contains(Lower(text), Lower(term))
  }

  /**
   * Whether a file element matches a search term, exactly as the code
   * expresses it. None stands for the TypeError it raises: calling
   * `toLowerCase` on a short id that is absent, or on a value that is an
   * array.
   */
  function FileMatchAsWritten(e: Element, term: Option<string>): (r: Option<bool>)
    ensures !Truthy(term) ==> r == Some(false)
    ensures r.None? ==> Truthy(term) && (e.idShort.None? || IsArray(e.value))
  {
    if !Truthy(term) then Some(false)
    else if IsArray(e.value) then None
    else if e.value.Text? && ContainsIgnoringCase(e.value.s, term.value) then Some(true)
    else if e.idShort.None? then None
    else Some(ContainsIgnoringCase(e.idShort.value, term.value))
  }

  /** A file element without a short id makes the search raise an error instead of reporting no match. */
  lemma FileMatchAsWrittenRaises()
    ensures FileMatchAsWritten(Element(File, None, Missing, None, None), Some("x")).None?
  {
  }

  /**
   * Whether a file element matches a search term: its path (when it is a
   * string) or its short id (when it has one) contains the term, ignoring
   * case.
   */
  predicate FileMatches(e: Element, term: Option<string>): (r: bool)
    ensures !Truthy(term) ==> !r
    ensures Truthy(term) && e.value.Text? && ContainsIgnoringCase(e.value.s, term.value) ==> r
    ensures Truthy(term) && e.idShort.Some? && ContainsIgnoringCase(e.idShort.value, term.value) ==> r
    ensures r && !e.value.Text? ==> e.idShort.Some? && ContainsIgnoringCase(e.idShort.value, term.value)
    ensures r && e.idShort.None? ==> e.value.Text? && ContainsIgnoringCase(e.value.s, term.value)
  {
    Truthy(term) &&
    ((e.value.Text? && ContainsIgnoringCase(e.value.s, term.value)) ||
     (e.idShort.Some? && ContainsIgnoringCase(e.idShort.value, term.value)))
  }

  /** Wherever the written check does not raise, it agrees with the corrected one. */
  lemma FileMatchAgrees(e: Element, term: Option<string>)
    requires FileMatchAsWritten(e, term).Some?
    ensures FileMatchAsWritten(e, term) == Some(FileMatches(e, term))
  {
  }

  /** An element without a short id matches only through its path. */
  lemma FileWithoutIdShortMatchesByPath(e: Element, term: Option<string>)
    requires e.idShort.None?
    ensures FileMatches(e, term) <==> Truthy(term) && e.value.Text? && ContainsIgnoringCase(e.value.s, term.value)
  {
  }
}
