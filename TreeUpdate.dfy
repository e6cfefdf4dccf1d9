/**
 * Updating the equipment tree the side panel shows: toggling one node's
 * expanded flag and moving the selection. Both rebuild the tree by
 * applying one node update everywhere, top-down.
 */
module TreeUpdate {
  import opened Wrappers
  import opened TreeNodes

  /** A node update that leaves a node's children alone, as both updates of the panel do. */
  ghost predicate KeepsChildren(f: TreeNode -> TreeNode) {
    forall n :: f(n).children == n.children
  }

  /** `updateTreeNodes`: the update applied to every node of the forest, each node's new children updated in turn. */
  function UpdateTreeNodes(nodes: seq<TreeNode>, f: TreeNode -> TreeNode): (r: seq<TreeNode>)
    requires KeepsChildren(f)
    ensures |r| == |nodes|
  {
    seq(|nodes|, i requires 0 <= i < |nodes| => UpdateNode(nodes[i], f))
  }

  /** One node updated; only a node with children has them updated. */
  function UpdateNode(n: TreeNode, f: TreeNode -> TreeNode): (r: TreeNode)
    requires KeepsChildren(f)
    ensures |r.children| == |n.children|
  {
    var updated := f(n);
    if |updated.children| > 0 then updated.(children := UpdateTreeNodes(updated.children, f)) else updated
  }

  /** The guard on empty children makes no difference: every node is replaced by its update over updated children. */
  lemma UpdateTreeNodesAt(nodes: seq<TreeNode>, f: TreeNode -> TreeNode, i: nat)
    requires KeepsChildren(f) && i < |nodes|
    ensures UpdateTreeNodes(nodes, f)[i] == f(nodes[i]).(children := UpdateTreeNodes(nodes[i].children, f))
  {
    var u := f(nodes[i]);
    if |u.children| == 0 {
      assert UpdateTreeNodes(u.children, f) == [];
      assert u.(children := []) == u;
    }
  }

  /** Flip the expanded flag of the nodes with the given id. */
  function ToggleFn(nodeId: string): (f: TreeNode -> TreeNode)
    ensures KeepsChildren(f)
  {
    (n: TreeNode) => if n.id == Some(nodeId) then n.(expanded := !n.expanded) else n
  }

  /** Select the nodes with the given id and deselect all others. */
  function SelectFn(selectedId: string): (f: TreeNode -> TreeNode)
    ensures KeepsChildren(f)
  {
    (n: TreeNode) => n.(selected := n.id == Some(selectedId))
  }

  /** Forget a node's expanded flag. */
  function ClearExpandedFn(): (f: TreeNode -> TreeNode)
    ensures KeepsChildren(f)
  {
    (n: TreeNode) => n.(expanded := false)
  }

  /** Forget a node's selected flag. */
  function ClearSelectedFn(): (f: TreeNode -> TreeNode)
    ensures KeepsChildren(f)
  {
    (n: TreeNode) => n.(selected := false)
  }

  /** `toggleNodeExpanded`: the nodes with the id, at any depth, are expanded if they were collapsed and collapsed if they were expanded. */
  function ToggleNodeExpanded(tree: seq<TreeNode>, nodeId: string): (r: seq<TreeNode>)
    ensures |r| == |tree|
    ensures forall i :: 0 <= i < |tree| ==>
              r[i].expanded == (if tree[i].id == Some(nodeId) then !tree[i].expanded else tree[i].expanded) &&
              r[i].id == tree[i].id && |r[i].children| == |tree[i].children|
    ensures forall i :: 0 <= i < |tree| ==>
              r[i] == tree[i].(expanded := r[i].expanded, children := ToggleNodeExpanded(tree[i].children, nodeId))
    decreases tree
  {
    var f := ToggleFn(nodeId);
    var r := UpdateTreeNodes(tree, f);
    forall i | 0 <= i < |tree|
      ensures r[i] == UpdateNode(tree[i], f)
      ensures r[i] == tree[i].(expanded := r[i].expanded, children := ToggleNodeExpanded(tree[i].children, nodeId))
    {
      UpdateTreeNodesAt(tree, f, i);
    }
    r
  }

  /** `updateSelectedNode`: exactly the nodes with the id, at any depth, are selected. */
  function UpdateSelectedNode(tree: seq<TreeNode>, selectedId: string): (r: seq<TreeNode>)
    ensures |r| == |tree|
    ensures forall i :: 0 <= i < |tree| ==> r[i].selected == (tree[i].id == Some(selectedId)) && r[i].id == tree[i].id
    ensures forall i :: 0 <= i < |tree| ==>
              r[i] == tree[i].(selected := r[i].selected, children := UpdateSelectedNode(tree[i].children, selectedId))
    decreases tree
  {
    var f := SelectFn(selectedId);
    var r := UpdateTreeNodes(tree, f);
    forall i | 0 <= i < |tree|
      ensures r[i] == UpdateNode(tree[i], f)
      ensures r[i] == tree[i].(selected := r[i].selected, children := UpdateSelectedNode(tree[i].children, selectedId))
    {
      UpdateTreeNodesAt(tree, f, i);
    }
    r
  }

  /** Toggling the same id twice gives back the tree. */
  lemma {:induction false} ToggleTwice(tree: seq<TreeNode>, nodeId: string)
    ensures ToggleNodeExpanded(ToggleNodeExpanded(tree, nodeId), nodeId) == tree
    decreases tree, 1
  {
    var f := ToggleFn(nodeId);
    var once := UpdateTreeNodes(tree, f);
    var twice := UpdateTreeNodes(once, f);
    forall i | 0 <= i < |tree|
      ensures twice[i] == tree[i]
    {
      UpdateTreeNodesAt(tree, f, i);
      UpdateTreeNodesAt(once, f, i);
      ToggleTwice(tree[i].children, nodeId);
    }
  }

  /** Toggling changes nothing but expanded flags: with those forgotten, the tree is the same. */
  lemma {:induction false} ToggleChangesOnlyExpanded(tree: seq<TreeNode>, nodeId: string)
    ensures UpdateTreeNodes(ToggleNodeExpanded(tree, nodeId), ClearExpandedFn()) == UpdateTreeNodes(tree, ClearExpandedFn())
  {
    var f := ToggleFn(nodeId);
    var g := ClearExpandedFn();
    var toggled := UpdateTreeNodes(tree, f);
    forall i | 0 <= i < |tree|
      ensures UpdateTreeNodes(toggled, g)[i] == UpdateTreeNodes(tree, g)[i]
    {
      UpdateTreeNodesAt(tree, f, i);
      UpdateTreeNodesAt(toggled, g, i);
      UpdateTreeNodesAt(tree, g, i);
      ToggleChangesOnlyExpanded(tree[i].children, nodeId);
    }
  }

  /** Selecting changes nothing but selected flags: with those forgotten, the tree is the same. */
  lemma {:induction false} SelectChangesOnlySelected(tree: seq<TreeNode>, selectedId: string)
    ensures UpdateTreeNodes(UpdateSelectedNode(tree, selectedId), ClearSelectedFn()) == UpdateTreeNodes(tree, ClearSelectedFn())
  {
    var f := SelectFn(selectedId);
    var g := ClearSelectedFn();
    var selected := UpdateTreeNodes(tree, f);
    forall i | 0 <= i < |tree|
      ensures UpdateTreeNodes(selected, g)[i] == UpdateTreeNodes(tree, g)[i]
    {
      UpdateTreeNodesAt(tree, f, i);
      UpdateTreeNodesAt(selected, g, i);
      UpdateTreeNodesAt(tree, g, i);
      SelectChangesOnlySelected(tree[i].children, selectedId);
    }
  }

  /** A node is selected exactly when it has the id. */
  function SelectedExactlyWhen(selectedId: string): TreeNode -> bool {
    (n: TreeNode) => n.selected == (n.id == Some(selectedId))
  }

  /** After a selection, at every depth, exactly the nodes with the id are selected. */
  lemma {:induction false} SelectionHoldsEverywhere(tree: seq<TreeNode>, selectedId: string)
    ensures forall i :: 0 <= i < |tree| ==> EveryNode(UpdateSelectedNode(tree, selectedId)[i], SelectedExactlyWhen(selectedId))
  {
    var f := SelectFn(selectedId);
    var r := UpdateTreeNodes(tree, f);
    forall i | 0 <= i < |tree|
      ensures EveryNode(r[i], SelectedExactlyWhen(selectedId))
    {
      UpdateTreeNodesAt(tree, f, i);
      SelectionHoldsEverywhere(tree[i].children, selectedId);
      assert r[i].children == UpdateSelectedNode(tree[i].children, selectedId);
    }
  }

  /** Selecting `b` after `a` is the same as selecting `b` alone; in particular selecting twice is selecting once. */
  lemma {:induction false} LaterSelectionWins(tree: seq<TreeNode>, a: string, b: string)
    ensures UpdateSelectedNode(UpdateSelectedNode(tree, a), b) == UpdateSelectedNode(tree, b)
  {
    var fa := SelectFn(a);
    var fb := SelectFn(b);
    var ra := UpdateTreeNodes(tree, fa);
    forall i | 0 <= i < |tree|
      ensures UpdateTreeNodes(ra, fb)[i] == UpdateTreeNodes(tree, fb)[i]
    {
      UpdateTreeNodesAt(tree, fa, i);
      UpdateTreeNodesAt(ra, fb, i);
      UpdateTreeNodesAt(tree, fb, i);
      LaterSelectionWins(tree[i].children, a, b);
    }
  }

  /** The nodes of a forest in pre-order. */
  function Flatten(nodes: seq<TreeNode>): (r: seq<TreeNode>)
    ensures |r| >= |nodes|
  {
    if nodes == [] then [] else [nodes[0]] + Flatten(nodes[0].children) + Flatten(nodes[1..])
  }

  /** The ids of a list of nodes. */
  function Ids(nodes: seq<TreeNode>): (r: seq<Option<string>>)
    ensures |r| == |nodes| && forall k :: 0 <= k < |nodes| ==> r[k] == nodes[k].id
  {
    seq(|nodes|, k requires 0 <= k < |nodes| => nodes[k].id)
  }

  /** No two nodes of the list share an id. */
  predicate UniqueIds(nodes: seq<TreeNode>) {
    forall i, j :: 0 <= i < j < |nodes| && nodes[i].id.Some? ==> nodes[i].id != nodes[j].id
  }

  lemma IdsConcat(a: seq<TreeNode>, b: seq<TreeNode>)
    ensures Ids(a + b) == Ids(a) + Ids(b)
  {
  }

  lemma UpdateTreeNodesTail(nodes: seq<TreeNode>, f: TreeNode -> TreeNode)
    requires KeepsChildren(f) && nodes != []
    ensures UpdateTreeNodes(nodes, f)[1..] == UpdateTreeNodes(nodes[1..], f)
  {
  }

  /** An update that keeps ids keeps the ids of the whole flattened forest, in order. */
  lemma {:induction false} UpdateKeepsFlatIds(nodes: seq<TreeNode>, f: TreeNode -> TreeNode)
    requires KeepsChildren(f) && forall n :: f(n).id == n.id
    ensures Ids(Flatten(UpdateTreeNodes(nodes, f))) == Ids(Flatten(nodes))
    decreases nodes
  {
    if nodes != [] {
      var r := UpdateTreeNodes(nodes, f);
      UpdateTreeNodesAt(nodes, f, 0);
      UpdateTreeNodesTail(nodes, f);
      var kids := UpdateTreeNodes(nodes[0].children, f);
      assert r[0].children == kids && r[0].id == nodes[0].id;
      UpdateKeepsFlatIds(nodes[0].children, f);
      UpdateKeepsFlatIds(nodes[1..], f);
      IdsConcat([r[0]] + Flatten(kids), Flatten(r[1..]));
      IdsConcat([r[0]], Flatten(kids));
      IdsConcat([nodes[0]] + Flatten(nodes[0].children), Flatten(nodes[1..]));
      IdsConcat([nodes[0]], Flatten(nodes[0].children));
      assert Ids([r[0]]) == Ids([nodes[0]]);
    }
  }

  /** What holds of every node of every tree holds of every node of the flattened forest. */
  lemma {:induction false} EveryNodeFlatten(nodes: seq<TreeNode>, P: TreeNode -> bool)
    requires forall i :: 0 <= i < |nodes| ==> EveryNode(nodes[i], P)
    ensures forall k :: 0 <= k < |Flatten(nodes)| ==> P(Flatten(nodes)[k])
    decreases nodes
  {
    if nodes != [] {
      EveryNodeFlatten(nodes[0].children, P);
      EveryNodeFlatten(nodes[1..], P);
      var fl := Flatten(nodes);
      var head := [nodes[0]] + Flatten(nodes[0].children);
      forall k | 0 <= k < |fl|
        ensures P(fl[k])
      {
        if k == 0 {
        } else if k < |head| {
          assert fl[k] == Flatten(nodes[0].children)[k - 1];
        } else {
          assert fl[k] == Flatten(nodes[1..])[k - |head|];
        }
      }
    }
  }

  /** When no two nodes of the tree share an id, a selection leaves at most one node selected. */
  lemma AtMostOneSelected(tree: seq<TreeNode>, selectedId: string)
    requires UniqueIds(Flatten(tree))
    ensures var fl := Flatten(UpdateSelectedNode(tree, selectedId));
            forall i, j :: 0 <= i < j < |fl| ==> !(fl[i].selected && fl[j].selected)
  {
    var r := UpdateSelectedNode(tree, selectedId);
    var fl := Flatten(r);
    var P := SelectedExactlyWhen(selectedId);
    SelectionHoldsEverywhere(tree, selectedId);
    EveryNodeFlatten(r, P);
    UpdateKeepsFlatIds(tree, SelectFn(selectedId));
    var ids := Ids(Flatten(tree));
    forall k | 0 <= k < |fl| && fl[k].selected
      ensures Flatten(tree)[k].id == Some(selectedId)
    {
      assert P(fl[k]);
      assert Ids(fl)[k] == ids[k];
    }
  }

  /** Nodes sharing an id are all selected together. */
  lemma SharedIdsAllSelected(n: TreeNode, m: TreeNode, selectedId: string)
    requires n.id == Some(selectedId) && m.id == Some(selectedId)
    ensures var r := UpdateSelectedNode([n, m], selectedId); r[0].selected && r[1].selected
  {
  }
}
