/**
 * Parsing of shell and submodel identifiers and the lookups that resolve a
 * shell's submodel references against the submodel bodies at hand.
 */
module AasLookup {
  import opened Wrappers
  import opened JsBuiltins
  import opened AasTypes

  // ---------------------------------------------------------------------
  // The identifier fragment of a shell id
  // ---------------------------------------------------------------------

  /**
   * The identifier of a shell id path: the segment two places after the
   * first segment spelled `aas`, when there is one, it is not empty and it
   * is not all digits. A missing or empty id has none.
   */
  function ExtractIdentifierFromId(id: Option<string>): (r: Option<string>)
    ensures r.Some? ==> Truthy(id)
    ensures r.Some? ==> r.value != "" && !IsAllDigits(r.value) && '/' !in r.value
  {
    if !Truthy(id) then None
    else
      var parts := Split(id.value, '/');
      SplitPiecesFree(id.value, '/');
      match FirstIndexOf(parts, "aas")
      case None => None
      case Some(k) =>
        if |parts| > k + 2 && parts[k + 2] != "" && !IsAllDigits(parts[k + 2]) then Some(parts[k + 2])
        else None
  }

  lemma {:induction false} JoinLongerThanPart(parts: seq<string>, sep: string, i: nat)
    requires i < |parts|
    ensures |Join(parts, sep)| >= |parts[i]|
    decreases |parts|
  {
    if |parts| > 1 && i > 0 {
      JoinLongerThanPart(parts[1..], sep, i - 1);
    }
  }

  /** An id path without an `aas` segment has no identifier. */
  lemma ExtractIdentifierWithoutAas(segs: seq<string>)
    requires |segs| >= 1
    requires forall i :: 0 <= i < |segs| ==> '/' !in segs[i]
    requires "aas" !in segs
    ensures ExtractIdentifierFromId(Some(Join(segs, "/"))) == None
  {
    SplitJoin(segs, '/');
  }

  /**
   * For an id written as its `/`-separated segments whose first `aas`
   * segment is at position `k`, the identifier is segment `k + 2`, exactly
   * when that segment exists, is non-empty and is not all digits.
   */
  lemma ExtractIdentifierFromSegments(segs: seq<string>, k: nat)
    requires forall i :: 0 <= i < |segs| ==> '/' !in segs[i]
    requires k < |segs| && segs[k] == "aas" && "aas" !in segs[..k]
    ensures ExtractIdentifierFromId(Some(Join(segs, "/"))) ==
              (if k + 2 < |segs| && segs[k + 2] != "" && !IsAllDigits(segs[k + 2]) then Some(segs[k + 2]) else None)
  {
    var id := Join(segs, "/");
    SplitJoin(segs, '/');
    assert Split(id, '/') == segs;
    JoinLongerThanPart(segs, "/", k);
    assert Truthy(Some(id));
    assert FirstIndexOf(segs, "aas") == Some(k);
  }

  /** The segments of the id `https://example.com/aas/TungstenInsertGasType-classify/150LMT2/1/0`. */
  const TigIdSegments: seq<string> :=
    ["https:", "", "example.com", "aas", "TungstenInsertGasType-classify", "150LMT2", "1", "0"]

  /** That id yields the identifier `150LMT2`. */
  lemma ExtractIdentifierExample()
    ensures ExtractIdentifierFromId(Some(Join(TigIdSegments, "/"))) == Some("150LMT2")
  {
    var segs := TigIdSegments;
    assert forall i :: 0 <= i < |segs| ==> '/' !in segs[i];
    assert segs[..3] == ["https:", "", "example.com"];
    ExtractIdentifierFromSegments(segs, 3);
    assert segs[5][3] == 'L';
  }

  // ---------------------------------------------------------------------
  // Resolving a submodel reference
  // ---------------------------------------------------------------------

  /** The first key whose `value` is truthy, in list order. */
  function FirstKeyValue(keys: seq<Key>): (r: Option<string>)
    ensures r.Some? ==> r.value != ""
    ensures r.Some? ==> exists i :: 0 <= i < |keys| && keys[i].value == r &&
                          forall j :: 0 <= j < i ==> !Truthy(keys[j].value)
    ensures r.None? <==> forall i :: 0 <= i < |keys| ==> !Truthy(keys[i].value)
  {
    if |keys| == 0 then None
    else if Truthy(keys[0].value) then keys[0].value
    else
      var r := FirstKeyValue(keys[1..]);
      assert forall i :: 1 <= i < |keys| ==> keys[i] == keys[1..][i - 1];
      r
  }

  /** The id a submodel reference resolves to: a truthy key first, then the `id`, `value` or `type` field. */
  function SubmodelIdOf(ref: SubmodelRef): (r: Option<string>)
    ensures r.Some? ==> r.value != ""
    ensures (exists i :: 0 <= i < |ref.keys| && Truthy(ref.keys[i].value)) ==> r == FirstKeyValue(ref.keys)
    ensures FirstKeyValue(ref.keys).None? && Truthy(ref.id) ==> r == ref.id
    ensures FirstKeyValue(ref.keys).None? && !Truthy(ref.id) && Truthy(ref.value) ==> r == ref.value
    ensures FirstKeyValue(ref.keys).None? && !Truthy(ref.id) && !Truthy(ref.value) ==>
              r == (if Truthy(ref.refType) then ref.refType else None)
  {
    var k := FirstKeyValue(ref.keys);
    if k.Some? then k
    else if Truthy(ref.id) then ref.id
    else if Truthy(ref.value) then ref.value
    else if Truthy(ref.refType) then ref.refType
    else None
  }

  /**
   * `getSubmodelId`: scans the keys and returns the first truthy key value;
   * otherwise the reference's `id`, `value` or `type`, the first that is
   * truthy; otherwise null. Whatever it returns is a non-empty string.
   */
  method GetSubmodelId(ref: SubmodelRef) returns (r: Option<string>)
    ensures r == SubmodelIdOf(ref)
    ensures r.Some? ==> r.value != ""
    ensures (exists i :: 0 <= i < |ref.keys| && Truthy(ref.keys[i].value)) ==> r == FirstKeyValue(ref.keys)
    ensures r.None? <==> (forall i :: 0 <= i < |ref.keys| ==> !Truthy(ref.keys[i].value)) &&
                         !Truthy(ref.id) && !Truthy(ref.value) && !Truthy(ref.refType)
  {
    var keys := ref.keys;
    for i := 0 to |keys|
      invariant FirstKeyValue(keys) == FirstKeyValue(keys[i..])
    {
      if Truthy(keys[i].value) {
        return keys[i].value;
      }
      assert keys[i..][1..] == keys[i + 1..];
    }
    if Truthy(ref.id) {
      return ref.id;
    }
    if Truthy(ref.value) {
      return ref.value;
    }
    if Truthy(ref.refType) {
      return ref.refType;
    }
    return None;
  }

  /** The value of the first key of a semantic id, when that value is truthy. */
  function GetSemanticIdValue(semanticId: Option<Reference>): (r: Option<string>)
    ensures r.Some? ==> r.value != ""
    ensures r.Some? <==> semanticId.Some? && |semanticId.value.keys| > 0 && Truthy(semanticId.value.keys[0].value)
    ensures r.Some? ==> r == semanticId.value.keys[0].value
  {
    if semanticId.Some? && |semanticId.value.keys| > 0 && Truthy(semanticId.value.keys[0].value)
    then semanticId.value.keys[0].value
    else None
  }

  /** Only the first key of a semantic id is ever consulted. */
  lemma SemanticIdFirstKeyOnly(k: Key, rest: seq<Key>)
    ensures GetSemanticIdValue(Some(Reference([k] + rest))) == GetSemanticIdValue(Some(Reference([k])))
  {
  }

  // ---------------------------------------------------------------------
  // Finding the submodel body a reference points at
  // ---------------------------------------------------------------------

  /** A body matches a submodel id loosely through its `idShort` or its semantic id. */
  predicate MatchesLoosely(sm: Submodel, sid: string) {
    sm.idShort == Some(sid) || GetSemanticIdValue(sm.semanticId) == Some(sid)
  }

  /**
   * `findSubmodelData`: the first body whose `id` is the submodel id; only
   * when there is none, the first body that matches it through `idShort`
   * or semantic id. A missing or empty submodel id finds nothing.
   */
  function FindSubmodelData(submodels: seq<Submodel>, submodelId: Option<string>): (r: Option<Submodel>)
    ensures !Truthy(submodelId) ==> r.None?
    ensures r.Some? ==> r.value in submodels
    ensures Truthy(submodelId) && (exists i :: 0 <= i < |submodels| && submodels[i].id == submodelId) ==>
              r.Some? && r.value.id == submodelId
    ensures Truthy(submodelId) && (forall i :: 0 <= i < |submodels| ==> submodels[i].id != submodelId) ==>
              (r.Some? <==> exists i :: 0 <= i < |submodels| && MatchesLoosely(submodels[i], submodelId.value))
    ensures r.Some? ==> r.value.id == submodelId || MatchesLoosely(r.value, submodelId.value)
  {
    if !Truthy(submodelId) then None
    else
      var sid := submodelId.value;
      match FindIndex(submodels, (sm: Submodel) => sm.id == Some(sid))
      case Some(i) => Some(submodels[i])
      case None =>
        match FindIndex(submodels, (sm: Submodel) => MatchesLoosely(sm, sid))
        case Some(i) => Some(submodels[i])
        case None => None
  }

  /**
   * The body found is the first one whose `id` is the submodel id, or,
   * when no body has that `id`, the first one that matches it loosely.
   */
  lemma FindSubmodelDataFirstMatch(submodels: seq<Submodel>, submodelId: Option<string>)
    ensures var r := FindSubmodelData(submodels, submodelId);
            r.Some? ==> exists i :: (0 <= i < |submodels| && r.value == submodels[i] &&
              ((submodels[i].id == submodelId && forall j :: 0 <= j < i ==> submodels[j].id != submodelId) ||
               ((forall j :: 0 <= j < |submodels| ==> submodels[j].id != submodelId) &&
                MatchesLoosely(submodels[i], submodelId.value) &&
                forall j :: 0 <= j < i ==> !MatchesLoosely(submodels[j], submodelId.value))))
  {
    if Truthy(submodelId) {
      var sid := submodelId.value;
      match FindIndex(submodels, (sm: Submodel) => sm.id == Some(sid))
      case Some(i) =>
      case None =>
        match FindIndex(submodels, (sm: Submodel) => MatchesLoosely(sm, sid))
        case Some(i) =>
        case None =>
    }
  }

  /** An exact `id` match wins over an earlier body that matches only loosely. */
  lemma ExactIdBeatsLooseMatch(loose: Submodel, exact: Submodel, sid: string)
    requires sid != "" && MatchesLoosely(loose, sid) && loose.id != Some(sid)
    requires exact.id == Some(sid)
    ensures FindSubmodelData([loose, exact], Some(sid)) == Some(exact)
  {
    assert [loose, exact][1].id == Some(sid);
  }

  // ---------------------------------------------------------------------
  // The facility name of a shell
  // ---------------------------------------------------------------------

  /** A body called `Identification` that lists elements. */
  predicate IsIdentification(data: Option<Submodel>) {
    data.Some? && data.value.idShort == Some("Identification") && data.value.submodelElements.Some?
  }

  /** Position `i` holds the first element of `es` with the short id `name`. */
  predicate IsFirstNamed(es: seq<Element>, i: int, name: string) {
    0 <= i < |es| && es[i].idShort == Some(name) && forall j :: 0 <= j < i ==> es[j].idShort != Some(name)
  }

  /** The truthy value of the first element of `es` called `FacilityName`. */
  function FacilityAmong(es: seq<Element>): (r: Option<Value>)
    ensures r.Some? ==> TruthyValue(r.value)
    ensures r.Some? ==> exists i :: IsFirstNamed(es, i, "FacilityName") && r.value == es[i].value
    ensures forall i :: IsFirstNamed(es, i, "FacilityName") ==> (r.Some? <==> TruthyValue(es[i].value))
    ensures (forall i :: 0 <= i < |es| ==> es[i].idShort != Some("FacilityName")) ==> r.None?
  {
    match FindIndex(es, (e: Element) => e.idShort == Some("FacilityName"))
    case Some(i) =>
      assert IsFirstNamed(es, i, "FacilityName");
      assert forall k :: IsFirstNamed(es, k, "FacilityName") ==> k == i;
      if TruthyValue(es[i].value) then Some(es[i].value) else None
    case None => None
  }

  /** The truthy value of the first `FacilityName` element of a body called `Identification`. */
  function FacilityIn(data: Option<Submodel>): (r: Option<Value>)
    ensures !IsIdentification(data) ==> r.None?
    ensures IsIdentification(data) ==> r == FacilityAmong(data.value.submodelElements.value)
  {
    if IsIdentification(data) then FacilityAmong(data.value.submodelElements.value) else None
  }

  /** The facility name one reference yields, through the body it resolves to. */
  function RefFacility(submodels: seq<Submodel>, ref: SubmodelRef): Option<Value> {
    FacilityIn(FindSubmodelData(submodels, SubmodelIdOf(ref)))
  }

  /** The facility name found through the first of the references that yields one. */
  function FacilityFromRefs(refs: seq<SubmodelRef>, submodels: seq<Submodel>): (r: Option<Value>)
    ensures r.Some? ==> TruthyValue(r.value)
    ensures r.Some? <==> exists i :: 0 <= i < |refs| && RefFacility(submodels, refs[i]).Some?
    ensures r.Some? ==> exists i :: 0 <= i < |refs| && RefFacility(submodels, refs[i]) == r &&
                          forall j :: 0 <= j < i ==> RefFacility(submodels, refs[j]).None?
  {
    if |refs| == 0 then None
    else
      var here := RefFacility(submodels, refs[0]);
      if here.Some? then here
      else
        var r := FacilityFromRefs(refs[1..], submodels);
        assert forall i :: 1 <= i < |refs| ==> refs[i] == refs[1..][i - 1];
        r
  }

  /** What `findFacilityName` returns for a shell, as a function. */
  function FacilityName(aas: AasRecord, submodels: seq<Submodel>): (r: Option<Value>)
    ensures r.Some? ==> TruthyValue(r.value)
    ensures r.Some? <==> aas.submodel.Some? &&
                         exists i :: 0 <= i < |aas.submodel.value| && RefFacility(submodels, aas.submodel.value[i]).Some?
    ensures r.Some? ==> exists i :: 0 <= i < |aas.submodel.value| && RefFacility(submodels, aas.submodel.value[i]) == r &&
                          forall j :: 0 <= j < i ==> RefFacility(submodels, aas.submodel.value[j]).None?
  {
    if aas.submodel.None? then None else FacilityFromRefs(aas.submodel.value, submodels)
  }

  /**
   * `findFacilityName`: walks the shell's submodel references in order and
   * returns the truthy value of the `FacilityName` element of the first
   * resolved `Identification` body that has one; null when the shell has
   * no submodel array or no reference yields a name.
   */
  method FindFacilityName(aas: AasRecord, submodels: seq<Submodel>) returns (r: Option<Value>)
    ensures r == FacilityName(aas, submodels)
    ensures r.Some? ==> TruthyValue(r.value)
    ensures aas.submodel.None? ==> r.None?
  {
    if aas.submodel.None? {
      return None;
    }
    var refs := aas.submodel.value;
    for i := 0 to |refs|
      invariant FacilityFromRefs(refs, submodels) == FacilityFromRefs(refs[i..], submodels)
    {
      var submodelId := GetSubmodelId(refs[i]);
      var submodelData := FindSubmodelData(submodels, submodelId);
      if submodelData.Some? && submodelData.value.idShort == Some("Identification") {
        if submodelData.value.submodelElements.Some? {
          var es := submodelData.value.submodelElements.value;
          var k := FindIndex(es, (e: Element) => e.idShort == Some("FacilityName"));
          if k.Some? && TruthyValue(es[k.value].value) {
            return Some(es[k.value].value);
          }
        }
      }
      assert refs[i..][1..] == refs[i + 1..];
    }
    return None;
  }

  // ---------------------------------------------------------------------
  // The display name of a submodel derived from its id
  // ---------------------------------------------------------------------

  /**
   * The path segments from position `k` on have the shape that the pattern
   * `/sm/<a>/<b>/<name>/` (optionally followed by `<digits>/<digits>` and
   * optionally by one more `/`) requires to reach the end of the id:
   * segment `k` is `sm`, it is preceded by a `/`, and `<a>`, `<b>` and
   * `<name>` are non-empty.
   */
  predicate SmTail(parts: seq<string>, k: int) {
    1 <= k < |parts| && parts[k] == "sm" &&
    var t := parts[k + 1..];
    |t| >= 4 && t[0] != "" && t[1] != "" && t[2] != "" &&
    ((|t| == 4 && t[3] == "") ||
     (|t| == 5 && ((t[3] == "" && t[4] == "") || (IsAllDigits(t[3]) && IsAllDigits(t[4])))) ||
     (|t| == 6 && IsAllDigits(t[3]) && IsAllDigits(t[4]) && t[5] == ""))
  }

  /** The capture of that pattern: `<name>` at the leftmost position where it matches. */
  function SmCapture(parts: seq<string>): (r: Option<string>)
    ensures r.Some? ==> exists k :: SmTail(parts, k) && r.value == parts[k + 3] &&
                          forall j :: j < k ==> !SmTail(parts, j)
    ensures r.None? ==> forall k :: !SmTail(parts, k)
  {
    var n := |parts|;
    if n >= 8 && SmTail(parts, n - 7) then Some(parts[n - 4])
    else if n >= 7 && SmTail(parts, n - 6) then Some(parts[n - 3])
    else if n >= 6 && SmTail(parts, n - 5) then Some(parts[n - 2])
    else None
  }

  /** The submodel names the fallback looks for among the segments. */
  const CanonicalSubmodelNames: seq<string> := ["Identification", "Nameplate", "TechnicalData"]

  /**
   * The name taken from the segments when the pattern does not match: the
   * first segment that is a canonical submodel name; otherwise the last
   * segment, unless it is empty; otherwise `Unknown Submodel`.
   */
  function SegmentName(parts: seq<string>): (r: string)
    requires |parts| >= 1
    ensures r != ""
    ensures forall i :: (0 <= i < |parts| && parts[i] in CanonicalSubmodelNames &&
                         forall j :: 0 <= j < i ==> parts[j] !in CanonicalSubmodelNames) ==> r == parts[i]
    ensures (forall i :: 0 <= i < |parts| ==> parts[i] !in CanonicalSubmodelNames) ==>
              r == (if parts[|parts| - 1] != "" then parts[|parts| - 1] else "Unknown Submodel")
    ensures r in parts || r == "Unknown Submodel"
  {
    match FindIndex(parts, (p: string) => p in CanonicalSubmodelNames)
    case Some(i) => parts[i]
    case None => if parts[|parts| - 1] != "" then parts[|parts| - 1] else "Unknown Submodel"
  }

  /**
   * The display name derived from a submodel id: the pattern's capture;
   * otherwise the name `SegmentName` takes from the segments.
   */
  function SubmodelNameFromId(sid: string): (r: string)
    ensures r != ""
    ensures '/' !in r || r == "Unknown Submodel"
    ensures SmCapture(Split(sid, '/')).Some? ==> r == SmCapture(Split(sid, '/')).value
    ensures SmCapture(Split(sid, '/')).None? ==> r == SegmentName(Split(sid, '/'))
  {
    var parts := Split(sid, '/');
    SplitPiecesFree(sid, '/');
    match SmCapture(parts)
    case Some(c) => c
    case None => SegmentName(parts)
  }

  /** The name derived from an id built from segments is the pattern's capture whenever the pattern matches. */
  lemma SubmodelNameOfCapture(pre: seq<string>, tail: seq<string>, name: string)
    requires |pre + tail| >= 1
    requires forall i :: 0 <= i < |pre| ==> '/' !in pre[i]
    requires forall i :: 0 <= i < |tail| ==> '/' !in tail[i]
    requires SmCapture(pre + tail) == Some(name)
    ensures SubmodelNameFromId(Join(pre + tail, "/")) == name
  {
    NoSlashInConcat(pre, tail);
    SplitJoin(pre + tail, '/');
  }

  lemma NoSlashInConcat(xs: seq<string>, ys: seq<string>)
    requires forall i :: 0 <= i < |xs| ==> '/' !in xs[i]
    requires forall i :: 0 <= i < |ys| ==> '/' !in ys[i]
    ensures forall i :: 0 <= i < |xs + ys| ==> '/' !in (xs + ys)[i]
  {
  }

  /** The capture for segments ending in `sm`, `<a>`, `<b>`, `<name>`, an empty segment. */
  lemma SmCaptureTrailingSlash(pre: seq<string>, a: string, b: string, name: string)
    requires |pre| >= 1 && "sm" !in pre
    requires a != "" && b != "" && name != ""
    ensures SmCapture(pre + ["sm", a, b, name, ""]) == Some(name)
  {
    var segs := pre + ["sm", a, b, name, ""];
    var n := |segs|;
    assert SmTail(segs, n - 5) by {
      assert segs[n - 5..] == ["sm", a, b, name, ""];
    }
    assert n >= 8 ==> !SmTail(segs, n - 7) by {
      if n >= 8 { assert segs[n - 7] == pre[|pre| - 2]; }
    }
    assert n >= 7 ==> !SmTail(segs, n - 6) by {
      if n >= 7 { assert segs[n - 6] == pre[|pre| - 1]; }
    }
  }

  /** The capture for segments ending in `sm`, `<a>`, `<b>`, `<name>` and two all-digit segments. */
  lemma SmCaptureVersioned(pre: seq<string>, a: string, b: string, name: string, v: string, w: string)
    requires |pre| >= 1 && "sm" !in pre
    requires a != "" && b != "" && name != ""
    requires IsAllDigits(v) && IsAllDigits(w)
    ensures SmCapture(pre + ["sm", a, b, name, v, w]) == Some(name)
  {
    var segs := pre + ["sm", a, b, name, v, w];
    var n := |segs|;
    assert SmTail(segs, n - 6) by {
      assert segs[n - 6..] == ["sm", a, b, name, v, w];
    }
    assert n >= 8 ==> !SmTail(segs, n - 7) by {
      if n >= 8 { assert segs[n - 7] == pre[|pre| - 1]; }
    }
  }

  /** An id ending in `/sm/<a>/<b>/<name>/` is named `<name>`. */
  lemma SubmodelNameTrailingSlash(pre: seq<string>, a: string, b: string, name: string)
    requires |pre| >= 1 && "sm" !in pre
    requires forall i :: 0 <= i < |pre| ==> '/' !in pre[i]
    requires a != "" && b != "" && name != "" && '/' !in a && '/' !in b && '/' !in name
    ensures SubmodelNameFromId(Join(pre + ["sm", a, b, name, ""], "/")) == name
  {
    var tail := ["sm", a, b, name, ""];
    SmCaptureTrailingSlash(pre, a, b, name);
    TailSlashFree(tail, a, b, name, "", "");
    SubmodelNameOfCapture(pre, tail, name);
  }

  /** An id ending in `/sm/<a>/<b>/<name>/<digits>/<digits>` is named `<name>`. */
  lemma SubmodelNameVersioned(pre: seq<string>, a: string, b: string, name: string, v: string, w: string)
    requires |pre| >= 1 && "sm" !in pre
    requires forall i :: 0 <= i < |pre| ==> '/' !in pre[i]
    requires a != "" && b != "" && name != "" && '/' !in a && '/' !in b && '/' !in name
    requires IsAllDigits(v) && IsAllDigits(w)
    ensures SubmodelNameFromId(Join(pre + ["sm", a, b, name, v, w], "/")) == name
  {
    var tail := ["sm", a, b, name, v, w];
    assert '/' !in v && '/' !in w;
    SmCaptureVersioned(pre, a, b, name, v, w);
    TailSlashFree(tail, a, b, name, v, w);
    SubmodelNameOfCapture(pre, tail, name);
  }

  lemma TailSlashFree(tail: seq<string>, a: string, b: string, name: string, v: string, w: string)
    requires '/' !in a && '/' !in b && '/' !in name && '/' !in v && '/' !in w
    requires tail == ["sm", a, b, name, v] || tail == ["sm", a, b, name, v, w]
    ensures forall i :: 0 <= i < |tail| ==> '/' !in tail[i]
  {
    assert '/' !in "sm";
  }
}
