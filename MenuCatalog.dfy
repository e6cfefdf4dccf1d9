/**
 * The dashboard's menu: its menu types in their groups, the keywords that
 * place a shell under each classifying type, and the names shown for
 * each type.
 */
module MenuCatalog {
  /** The welding equipment types, in menu order. */
  const EquipmentTypes: seq<string> :=
    ["CO2", "EBW", "FW", "MAG", "MIG", "OAW", "PW", "RSEW", "RSW", "SAW", "SMAW", "Sold", "SW", "TIG", "UW"]

  const MaterialTypes: seq<string> := ["Steel", "Aluminum", "Stainless Steel"]

  const ProcessTypes: seq<string> := ["Welding", "Cutting", "Brazing"]

  const ManagementTypes: seq<string> := ["Operation", "Quality", "Production"]

  /** The entry listing every shell that is not excluded. */
  const AllType: string := "ALL"

  /** The entry for uploading an AASX package; it classifies nothing. */
  const AasxType: string := "AASX"

  /** Every type that shells are classified into by keywords, group by group. */
  const ClassifiedTypes: seq<string> := EquipmentTypes + MaterialTypes + ProcessTypes + ManagementTypes

  const EquipmentKeywords: map<string, seq<string>> := map[
    "CO2" := ["CO2Type"],
    "EBW" := ["ElectronBeamWeldingType"],
    "FW" := ["FlasfButtType"],
    "MAG" := ["MetalActiveGasType"],
    "MIG" := ["MetalInsertGasType"],
    "OAW" := ["OxyAcetyleneWeldingType"],
    "PW" := ["ProjectionWeldingType"],
    "RSEW" := ["ResistanceSeamWeldingType"],
    "RSW" := ["ResistanceSeamWeldingType"],
    "SAW" := ["SubmergedArcWeldType"],
    "SMAW" := ["ShieldedMetalArcWeldingType"],
    "Sold" := ["SoldringWeldingType"],
    "SW" := ["StudWeldingType"],
    "TIG" := ["TungstenInsertGasType"],
    "UW" := ["UpsetWelderType"]]

  const MaterialKeywords: map<string, seq<string>> := map[
    "Steel" := ["steel", "Steel", "carbon steel", "mild steel"],
    "Aluminum" := ["aluminum", "Aluminum", "aluminium", "Al"],
    "Stainless Steel" := ["stainless", "Stainless", "stainless steel", "SS"]]

  const ProcessKeywords: map<string, seq<string>> := map[
    "Welding" := ["welding", "Welding", "weld", "arc welding"],
    "Cutting" := ["cutting", "Cutting", "cut", "plasma cutting"],
    "Brazing" := ["brazing", "Brazing", "braze", "soldering"]]

  const ManagementKeywords: map<string, seq<string>> := map[
    "Operation" := ["operation"],
    "Quality" := ["quality"],
    "Production" := ["production"]]

  /** Each keyword table covers exactly the types of its group. */
  lemma KeywordTablesCoverGroups()
    ensures forall t :: t in EquipmentKeywords <==> t in EquipmentTypes
    ensures forall t :: t in MaterialKeywords <==> t in MaterialTypes
    ensures forall t :: t in ProcessKeywords <==> t in ProcessTypes
    ensures forall t :: t in ManagementKeywords <==> t in ManagementTypes
    ensures forall t :: t in EquipmentKeywords ==> |EquipmentKeywords[t]| > 0
  {
    EquipmentTableCoversGroup();
  }

  lemma EquipmentTableCoversGroup()
    ensures forall t :: t in EquipmentKeywords <==> t in EquipmentTypes
    ensures forall t :: t in EquipmentKeywords ==> |EquipmentKeywords[t]| > 0
  {
  }

  /** No type is listed twice, across all four groups. */
  lemma ClassifiedTypesDistinct()
    ensures forall i, j :: 0 <= i < j < |ClassifiedTypes| ==> ClassifiedTypes[i] != ClassifiedTypes[j]
    ensures AllType !in ClassifiedTypes && AasxType !in ClassifiedTypes
  {
  }

  const DisplayNames: map<string, string> := map[
    "CO2" := "CO2 Welding Equipment",
    "EBW" := "EBW Welding Equipment",
    "FW" := "FW Welding Equipment",
    "MAG" := "MAG Welding Equipment",
    "MIG" := "MIG Welding Equipment",
    "OAW" := "OAW Welding Equipment",
    "PW" := "PW Welding Equipment",
    "RSEW" := "RSEW Welding Equipment",
    "RSW" := "RSW Welding Equipment",
    "SAW" := "SAW Welding Equipment",
    "SMAW" := "SMAW Welding Equipment",
    "Sold" := "Soldering Welding Equipment",
    "SW" := "SW Welding Equipment",
    "TIG" := "TIG Welding Equipment",
    "UW" := "UW Welding Equipment",
    "Steel" := "Steel Material",
    "Aluminum" := "Aluminum Material",
    "Stainless Steel" := "Stainless Steel Material",
    "Welding" := "Welding Process",
    "Cutting" := "Cutting Process",
    "Brazing" := "Brazing Process",
    "Operation" := "Operation Management",
    "Quality" := "Quality Control",
    "Production" := "Production Management",
    "ALL" := "All AAS Data",
    "AASX" := "AASX File Upload"]

  /** The name shown for a menu type: its table entry, or the type itself when it has none. */
  function GetMenuDisplayName(menuType: string): (r: string)
    ensures menuType in DisplayNames ==> r == DisplayNames[menuType]
    ensures menuType !in DisplayNames ==> r == menuType
  {
    if menuType in DisplayNames && DisplayNames[menuType] != "" then DisplayNames[menuType] else menuType
  }

  /** Every menu type has a display name. */
  lemma DisplayNamesCoverMenu()
    ensures forall t :: t in ClassifiedTypes || t == AllType || t == AasxType <==> t in DisplayNames
  {
  }
}
