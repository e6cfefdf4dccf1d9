/**
 * The nodes of the equipment tree the dashboard's side panel shows: one
 * node per shell, one per submodel reference of a shell, one per submodel
 * element, and a placeholder standing for submodel contents that are
 * loaded later.
 */
module TreeNodes {
  import opened Wrappers
  import opened AasTypes

  /** The `type` tag of a node. */
  datatype NodeType =
    | EquipmentKind
    | SubmodelKind
    | CollectionKind
    | PropertyKind
    | MultiLanguagePropertyKind
    | FileKind
    | ReferenceKind
    | RangeKind
    | BlobKind
    | ElementKind
    | PlaceholderKind

  /** A concept description looked up by semantic id; any entry found is a (truthy) object. */
  datatype Concept = Concept(id: Option<string>, idShort: Option<string>)

  /** The record a node was built from, kept on the node as `data`. */
  datatype Payload =
    | NoData
    | EquipmentData(aas: AasRecord)
    | SubmodelData(submodel: Submodel)
    | ElementData(element: Element)

  /**
   * A tree node. A field the code never sets on a node is its falsy
   * default here: `false`, `None`, `NoData` or no children.
   */
  datatype TreeNode = TreeNode(
    id: Option<string>,
    name: Option<string>,
    kind: NodeType,
    expanded: bool,
    selected: bool,
    isMatched: bool,
    hasValue: bool,
    data: Payload,
    parent: Option<string>,
    concept: Option<Concept>,
    children: seq<TreeNode>)

  /** `P` holds of a node and of every node below it. */
  predicate EveryNode(n: TreeNode, P: TreeNode -> bool) {
    P(n) && forall i :: 0 <= i < |n.children| ==> EveryNode(n.children[i], P)
  }

  predicate NotExpanded(n: TreeNode) {
    !n.expanded
  }

  predicate NotMatched(n: TreeNode) {
    !n.isMatched
  }
}
