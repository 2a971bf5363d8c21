/**
 * The lookup of the data-flow node of an AST node (PMD's static
 * `DataFlowNode.get`): the data-flow entry stored in the user data of the
 * node itself or, failing that, of its nearest ancestor that has one.
 */
module DataFlow {
  import opened Wrappers

  /** An AST node, by identity. */
  type NodeId = nat

  /**
   * The part of an AST the lookup sees: the parent of each non-root node, and
   * the data-flow entry (of type `E`) that a node's user data holds, if any.
   * `depth` is a measure that falls from child to parent; it stands for the
   * acyclicity of the parent relation.
   */
  datatype Ast<E> = Ast(parent: map<NodeId, NodeId>, depth: map<NodeId, nat>, dataFlow: map<NodeId, E>)

  /** Every parent link goes to a node of smaller depth, so every ancestor chain ends at a root. */
  predicate Acyclic<E>(ast: Ast<E>) {
    && ast.parent.Keys <= ast.depth.Keys
    && forall n :: n in ast.parent ==> ast.parent[n] in ast.depth && ast.depth[ast.parent[n]] < ast.depth[n]
  }

  function Rank<E>(ast: Ast<E>, node: NodeId): nat {
    if node in ast.depth then ast.depth[node] else 0
  }

  /** The user-data entry of `node` itself; null if it has none. */
  function OwnEntry<E>(ast: Ast<E>, node: NodeId): Option<E> {
    if node in ast.dataFlow then Some(ast.dataFlow[node]) else None
  }

  /**
   * The node, its parent, its grandparent, and so on up to a root: the
   * nodes the lookup may visit, in the order it visits them.
   */
  function Ancestry<E>(ast: Ast<E>, node: NodeId): (chain: seq<NodeId>)
    requires Acyclic(ast)
    ensures |chain| >= 1 && chain[0] == node
    ensures forall i :: 0 <= i < |chain| - 1 ==> chain[i] in ast.parent && ast.parent[chain[i]] == chain[i + 1]
    ensures chain[|chain| - 1] !in ast.parent
    decreases Rank(ast, node)
  {
    if node in ast.parent then [node] + Ancestry(ast, ast.parent[node]) else [node]
  }

  /** The data-flow entry of the node, or of its nearest ancestor that has one; null if none has. */
  function Get<E>(ast: Ast<E>, node: NodeId): (r: Option<E>)
    requires Acyclic(ast)
    ensures r.Some? ==> exists n :: n in ast.dataFlow && ast.dataFlow[n] == r.value
    decreases Rank(ast, node)
  {
    var df := OwnEntry(ast, node);
    if df.None? && node in ast.parent then Get(ast, ast.parent[node]) else df
  }

  /** One step of the lookup: the node's own entry wins; otherwise the parent is asked; a root without one yields null. */
  lemma GetStep<E>(ast: Ast<E>, node: NodeId)
    requires Acyclic(ast)
    ensures node in ast.dataFlow ==> Get(ast, node) == Some(ast.dataFlow[node])
    ensures node !in ast.dataFlow && node in ast.parent ==> Get(ast, node) == Get(ast, ast.parent[node])
    ensures node !in ast.dataFlow && node !in ast.parent ==> Get(ast, node) == None
  {
  }

  /** No node of `chain` has a data-flow entry. */
  ghost predicate NoEntryOn<E>(chain: seq<NodeId>, dataFlow: map<NodeId, E>) {
    forall k :: 0 <= k < |chain| ==> chain[k] !in dataFlow
  }

  /** `chain[k]` has an entry and no node before it does. */
  ghost predicate NearestEntryAt<E>(chain: seq<NodeId>, dataFlow: map<NodeId, E>, k: int) {
    && 0 <= k < |chain|
    && chain[k] in dataFlow
    && forall j :: 0 <= j < k ==> chain[j] !in dataFlow
  }

  lemma PrependNoEntry<E>(node: NodeId, chain: seq<NodeId>, dataFlow: map<NodeId, E>)
    requires node !in dataFlow
    ensures NoEntryOn([node] + chain, dataFlow) <==> NoEntryOn(chain, dataFlow)
  {
    var full := [node] + chain;
    if NoEntryOn(chain, dataFlow) {
      forall k | 0 <= k < |full| ensures full[k] !in dataFlow {
        if k > 0 { assert full[k] == chain[k - 1]; }
      }
    }
    if NoEntryOn(full, dataFlow) {
      forall k | 0 <= k < |chain| ensures chain[k] !in dataFlow {
        assert chain[k] == full[k + 1];
      }
    }
  }

  lemma PrependNearestEntry<E>(node: NodeId, chain: seq<NodeId>, dataFlow: map<NodeId, E>, k: int)
    requires node !in dataFlow && NearestEntryAt(chain, dataFlow, k)
    ensures NearestEntryAt([node] + chain, dataFlow, k + 1)
  {
    var full := [node] + chain;
    forall j | 0 <= j < k + 1 ensures full[j] !in dataFlow {
      if j > 0 { assert full[j] == chain[j - 1]; }
    }
  }

  /**
   * The lookup yields the entry of the nearest node on the ancestry that has
   * one, skipping none, and yields null exactly when no node on the ancestry
   * has an entry.
   */
  lemma {:induction false} GetFindsNearestEntry<E>(ast: Ast<E>, node: NodeId)
    requires Acyclic(ast)
    ensures Get(ast, node).None? <==> NoEntryOn(Ancestry(ast, node), ast.dataFlow)
    ensures Get(ast, node).Some? ==>
      exists k :: NearestEntryAt(Ancestry(ast, node), ast.dataFlow, k)
                  && Get(ast, node).value == ast.dataFlow[Ancestry(ast, node)[k]]
    decreases Rank(ast, node)
  {
    var chain := Ancestry(ast, node);
    if node in ast.dataFlow {
      assert NearestEntryAt(chain, ast.dataFlow, 0);
    } else if node in ast.parent {
      var up := ast.parent[node];
      GetFindsNearestEntry(ast, up);
      var upChain := Ancestry(ast, up);
      assert chain == [node] + upChain;
      assert Get(ast, node) == Get(ast, up);
      PrependNoEntry(node, upChain, ast.dataFlow);
      if Get(ast, up).Some? {
        var k :| NearestEntryAt(upChain, ast.dataFlow, k) && Get(ast, up).value == ast.dataFlow[upChain[k]];
        PrependNearestEntry(node, upChain, ast.dataFlow, k);
        assert chain[k + 1] == upChain[k];
      }
    } else {
      assert chain == [node];
    }
  }
}
