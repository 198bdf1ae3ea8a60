/**
 * `buildTermsTree` of the category selector: turns a flat list of taxonomy
 * terms, each naming its parent by id (0 for none), into a forest.
 */
module CategorySelect {

  import opened Lists

  /** A term in flat form; `name` stands for all the fields a term carries besides its links. */
  datatype Term = Term(id: int, parent: int, name: string)

  /** A term in tree form: the term itself, unchanged, plus its children. */
  datatype TermNode = TermNode(term: Term, children: seq<TermNode>)

  /** The bucket `groupBy( terms, 'parent' )[ p ]`: the terms whose parent is `p`, in input order. */
  function ChildrenOf(terms: seq<Term>, p: int): (r: seq<Term>)
    ensures forall t :: t in r <==> t in terms && t.parent == p
  {
    Filter(terms, (t: Term) => t.parent == p)
  }

  /**
   * The source recurses along parent links and stops only if they never loop
   * back. `rank` witnesses this: every term ranks below its parent id, so a
   * term with `id 0, parent 0` (which the source expands forever) has none.
   */
  ghost predicate RankedByParent(terms: seq<Term>, rank: int -> nat)
  {
    forall t :: t in terms ==> rank(t.id) < rank(t.parent)
  }

  /**
   * `nodes` are exactly the terms of `terms` whose parent is `p`, in input
   * order, each expanded the same way with its own id as parent.
   */
  ghost predicate IsForestOf(terms: seq<Term>, nodes: seq<TermNode>, p: int)
    decreases nodes
  {
    var ts := ChildrenOf(terms, p);
    && |nodes| == |ts|
    && forall i :: 0 <= i < |nodes| ==>
         && nodes[i].term == ts[i]
         && IsForestOf(terms, nodes[i].children, nodes[i].term.id)
  }

  /** `fillWithChildren( ts )`: expand each term of `ts` with its children, recursively. */
  function FillWithChildren(terms: seq<Term>, ts: seq<Term>, ghost rank: int -> nat, ghost bound: nat)
    : (nodes: seq<TermNode>)
    requires RankedByParent(terms, rank)
    requires forall t :: t in ts ==> t in terms && rank(t.id) < bound
    ensures |nodes| == |ts|
    ensures forall i :: 0 <= i < |ts| ==>
              nodes[i].term == ts[i] && IsForestOf(terms, nodes[i].children, ts[i].id)
    decreases bound, |ts|
  {
    if ts == [] then []
    else
      var t := ts[0];
      var children := ChildrenOf(terms, t.id);
      var node := TermNode(t, if |children| > 0 then FillWithChildren(terms, children, rank, rank(t.id)) else []);
      assert IsForestOf(terms, node.children, t.id);
      [node] + FillWithChildren(terms, ts[1..], rank, bound)
  }

  /** `buildTermsTree( flatTerms )`: the forest rooted at the terms whose parent is 0. */
  function BuildTermsTree(terms: seq<Term>, ghost rank: int -> nat): (tree: seq<TermNode>)
    requires RankedByParent(terms, rank)
    ensures IsForestOf(terms, tree, 0)
    ensures ChildrenOf(terms, 0) == [] ==> tree == []
  {
    FillWithChildren(terms, ChildrenOf(terms, 0), rank, rank(0))
  }

  /** The characterisation leaves no freedom: two forests of the same terms under `p` are equal. */
  lemma {:induction false} ForestIsUnique(terms: seq<Term>, a: seq<TermNode>, b: seq<TermNode>, p: int)
    requires IsForestOf(terms, a, p) && IsForestOf(terms, b, p)
    ensures a == b
    decreases a
  {
    forall i | 0 <= i < |a| ensures a[i] == b[i] {
      ForestIsUnique(terms, a[i].children, b[i].children, a[i].term.id);
    }
  }

  /** `t` is the term of some node of `nodes`, at any depth. */
  ghost predicate Occurs(nodes: seq<TermNode>, t: Term)
    decreases nodes
  {
    exists i :: 0 <= i < |nodes| && (nodes[i].term == t || Occurs(nodes[i].children, t))
  }

  /**
   * `path` follows parent links through `terms` from `path[0]` up to a term
   * whose parent is `p`.
   */
  ghost predicate ParentChain(terms: seq<Term>, path: seq<Term>, p: int)
  {
    && |path| > 0
    && (forall i :: 0 <= i < |path| ==> path[i] in terms)
    && (forall i :: 0 <= i < |path| - 1 ==> path[i].parent == path[i + 1].id)
    && path[|path| - 1].parent == p
  }

  /** Every term found in a forest under `p` reaches `p` by parent links. */
  lemma {:induction false} OccursHasChain(terms: seq<Term>, nodes: seq<TermNode>, p: int, t: Term)
    returns (path: seq<Term>)
    requires IsForestOf(terms, nodes, p) && Occurs(nodes, t)
    ensures ParentChain(terms, path, p) && path[0] == t
    decreases nodes
  {
    var ts := ChildrenOf(terms, p);
    var i :| 0 <= i < |nodes| && (nodes[i].term == t || Occurs(nodes[i].children, t));
    var top := nodes[i].term;
    assert top == ts[i] && ts[i] in ts;
    if top == t {
      path := [t];
    } else {
      var below := OccursHasChain(terms, nodes[i].children, top.id, t);
      path := below + [top];
      assert forall j :: 0 <= j < |below| ==> path[j] == below[j];
    }
  }

  /** Every term that reaches `p` by parent links is found in the forest under `p`. */
  lemma {:induction false} ChainOccurs(terms: seq<Term>, nodes: seq<TermNode>, p: int, path: seq<Term>)
    requires IsForestOf(terms, nodes, p) && ParentChain(terms, path, p)
    ensures Occurs(nodes, path[0])
    decreases |path|
  {
    var ts := ChildrenOf(terms, p);
    var top := path[|path| - 1];
    assert top in ts;
    var i :| 0 <= i < |ts| && ts[i] == top;
    assert nodes[i].term == top;
    if |path| > 1 {
      var below := path[..|path| - 1];
      assert forall j :: 0 <= j < |below| ==> below[j] == path[j];
      ChainOccurs(terms, nodes[i].children, top.id, below);
      assert Occurs(nodes[i].children, path[0]);
    }
  }

  /**
   * A term is in the tree exactly when its parent links lead to a root term
   * (a term whose parent is 0); any other term is left out.
   */
  lemma TreeHoldsExactlyTermsReachingRoot(terms: seq<Term>, rank: int -> nat, t: Term)
    requires RankedByParent(terms, rank)
    ensures Occurs(BuildTermsTree(terms, rank), t) <==> exists path :: ParentChain(terms, path, 0) && path[0] == t
  {
    var tree := BuildTermsTree(terms, rank);
    if Occurs(tree, t) {
      var path := OccursHasChain(terms, tree, 0, t);
    }
    if exists path :: ParentChain(terms, path, 0) && path[0] == t {
      var path :| ParentChain(terms, path, 0) && path[0] == t;
      ChainOccurs(terms, tree, 0, path);
    }
  }
}
