/**
 * The Asset Administration Shell records the dashboard receives from its
 * catalog API, and the JavaScript value semantics its code relies on:
 * truthiness, `x || ''`, template-literal printing and `String(value)`.
 *
 * A field that may be null or undefined is an `Option`; the two are not
 * told apart. A list field that the code only ever reads as an array (or
 * skips when it is absent) is a `seq`, absent meaning empty.
 */
module AasTypes {
  import opened Wrappers
  import opened JsBuiltins

  /** One entry of a reference's `keys` list. */
  datatype Key = Key(value: Option<string>)

  /** A reference such as `semanticId`: its `keys` list. */
  datatype Reference = Reference(keys: seq<Key>)

  /** A `{language, text}` entry of a description or a multi-language value. */
  datatype LangString = LangString(language: Option<string>, text: Option<string>)

  datatype AssetInformation = AssetInformation(globalAssetId: Option<string>, assetKind: Option<string>)

  /**
   * A submodel reference of a shell. It resolves through `keys` first,
   * then through the `id`, `value` or `type` field on the reference itself.
   */
  datatype SubmodelRef = SubmodelRef(keys: seq<Key>, id: Option<string>, value: Option<string>, refType: Option<string>)

  /** The `modelType` tag of a submodel element; every other tag is `OtherModelType`. */
  datatype ModelType =
    | SubmodelElementCollection
    | Property
    | MultiLanguageProperty
    | File
    | ReferenceElement
    | Range
    | Blob
    | OtherModelType

  /**
   * The `value` of a submodel element. Its shape depends on the tag: a
   * string (numbers are carried as their decimal text), a list of nested
   * elements, or a list of language strings.
   */
  datatype Value =
    | Missing
    | Null
    | Text(s: string)
    | Children(elements: seq<Element>)
    | LangTexts(entries: seq<LangString>)

  datatype Element = Element(
    modelType: ModelType,
    idShort: Option<string>,
    value: Value,
    semanticId: Option<Reference>,
    unit: Option<string>)

  /** A submodel body, fetched separately from the shell that refers to it. */
  datatype Submodel = Submodel(
    id: Option<string>,
    idShort: Option<string>,
    semanticId: Option<Reference>,
    submodelElements: Option<seq<Element>>)

  /** An Asset Administration Shell record; `submodel` is None when it is absent or not an array. */
  datatype AasRecord = AasRecord(
    id: Option<string>,
    idShort: Option<string>,
    assetInformation: Option<AssetInformation>,
    description: Option<seq<LangString>>,
    submodel: Option<seq<SubmodelRef>>)

  /** JavaScript truthiness of an optional string: present and not "". */
  predicate Truthy(s: Option<string>) {
    s.Some? && s.value != ""
  }

  /** `s || ''`. */
  function OrEmpty(s: Option<string>): (r: string)
    ensures Truthy(s) ==> r == s.value
    ensures !Truthy(s) ==> r == ""
  {
    if Truthy(s) then s.value else ""
  }

  /** `s || fallback`. */
  function OrElse(s: Option<string>, fallback: string): string {
    if Truthy(s) then s.value else fallback
  }

  /** How a template literal prints an optional string (`${s}`). */
  function TemplateStr(s: Option<string>): string {
    match s
    case Some(v) => v
    case None => "undefined"
  }

  /** JavaScript truthiness of an element value: arrays are truthy even when empty. */
  predicate TruthyValue(v: Value) {
    match v
    case Missing => false
    case Null => false
    case Text(s) => s != ""
    case Children(_) => true
    case LangTexts(_) => true
  }

  /** `Array.isArray(v)`. */
  predicate IsArray(v: Value) {
    v.Children? || v.LangTexts?
  }

  /** An array seen as a list of submodel elements: a language string has none of an element's fields. */
  function AsElements(v: Value): (r: seq<Element>)
    requires IsArray(v)
    ensures |r| == ArrayLength(v)
  {
    match v
    case Children(es) => es
    case LangTexts(ls) => seq(|ls|, i => Element(OtherModelType, None, Missing, None, None))
  }

  /** An array seen as a list of language strings: an element has neither `language` nor `text`. */
  function AsLangStrings(v: Value): (r: seq<LangString>)
    requires IsArray(v)
    ensures |r| == ArrayLength(v)
  {
    match v
    case Children(es) => seq(|es|, i => LangString(None, None))
    case LangTexts(ls) => ls
  }

  function ArrayLength(v: Value): nat
    requires IsArray(v)
  {
    match v
    case Children(es) => |es|
    case LangTexts(ls) => |ls|
  }

  /** `n` copies of `s`. */
  function Repeat(s: string, n: nat): (r: seq<string>)
    ensures |r| == n
    ensures forall i :: 0 <= i < n ==> r[i] == s
  {
    if n == 0 then [] else [s] + Repeat(s, n - 1)
  }

  /** `n` copies of "[object Object]" joined by commas: 16 characters per copy but the last, and the copy first. */
  lemma {:induction false} JoinRepeatShape(n: nat)
    ensures |Join(Repeat("[object Object]", n), ",")| == (if n == 0 then 0 else 16 * n - 1)
    ensures n > 0 ==> IsPrefix("[object Object]", Join(Repeat("[object Object]", n), ","))
  {
    var parts := Repeat("[object Object]", n);
    if n > 1 {
      JoinRepeatShape(n - 1);
      assert parts[1..] == Repeat("[object Object]", n - 1);
      var j := Join(parts, ",");
      assert j == "[object Object]" + "," + Join(parts[1..], ",");
      assert j[..15] == "[object Object]";
    }
  }

  /** `String(v)`: an array of plain objects prints as "[object Object]" per entry, comma-separated. */
  function Stringify(v: Value): (r: string)
    ensures v.Text? ==> r == v.s
    ensures IsArray(v) ==> |r| == (if ArrayLength(v) == 0 then 0 else 16 * ArrayLength(v) - 1)
    ensures IsArray(v) && ArrayLength(v) > 0 ==> IsPrefix("[object Object]", r)
  {
    match v
    case Missing => "undefined"
    case Null => "null"
    case Text(s) => s
    case Children(es) => JoinRepeatShape(|es|); Join(Repeat("[object Object]", |es|), ",")
    case LangTexts(ls) => JoinRepeatShape(|ls|); Join(Repeat("[object Object]", |ls|), ",")
  }
}
