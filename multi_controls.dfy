/**
 * The toolbar shown while several blocks are selected: the attribute summary
 * handed to a block type's controls, the one-type check, the fan-out of
 * attribute changes to every selected block and the first/last flags given
 * to the block mover.
 */
module MultiControls {

  import opened Wrappers
  import opened Blocks
  import opened Lists

  /** An attribute map in which a key may be present with the value `undefined` (`None`). */
  type AttributeSummary = map<string, Option<Value>>

  /** Every attribute key that one of the first `n` selected blocks has. */
  ghost function KeysUpTo(blocks: seq<Attributes>, n: nat): set<string>
    requires n <= |blocks|
  {
    if n == 0 then {} else KeysUpTo(blocks, n - 1) + blocks[n - 1].Keys
  }

  /**
   * The value a summary of the first `n` blocks holds for `k`: the first
   * block's value when the first block has `k` and every one of those blocks
   * that has `k` agrees with it; otherwise undefined.
   */
  ghost function CommonUpTo(blocks: seq<Attributes>, n: nat, k: string): Option<Value>
    requires n <= |blocks|
  {
    if n > 0 && k in blocks[0] && forall j :: 0 <= j < n && k in blocks[j] ==> blocks[j][k] == blocks[0][k]
    then Some(blocks[0][k])
    else None
  }

  /** `summary` is the summary of the first `n` blocks. */
  ghost predicate SummarisesUpTo(summary: AttributeSummary, blocks: seq<Attributes>, n: nat)
    requires n <= |blocks|
  {
    && summary.Keys == KeysUpTo(blocks, n)
    && forall k :: k in summary ==> summary[k] == CommonUpTo(blocks, n, k)
  }

  /** The keys of the summary are the keys of all selected blocks together. */
  lemma {:induction false} KeysUpToAreUnion(blocks: seq<Attributes>, n: nat, k: string)
    requires n <= |blocks|
    ensures k in KeysUpTo(blocks, n) <==> exists i :: 0 <= i < n && k in blocks[i]
  {
    if n > 0 {
      KeysUpToAreUnion(blocks, n - 1, k);
    }
  }

  lemma {:induction false} FirstKeysUpTo(blocks: seq<Attributes>, n: nat)
    requires 0 < n <= |blocks|
    ensures blocks[0].Keys <= KeysUpTo(blocks, n)
  {
    if n > 1 {
      FirstKeysUpTo(blocks, n - 1);
    }
  }

  /** How the common value of a key changes when block `i` joins the summary. */
  lemma CommonUpToStep(blocks: seq<Attributes>, i: nat, k: string)
    requires i < |blocks|
    ensures k !in blocks[i] ==>
      CommonUpTo(blocks, i + 1, k) == (if i == 0 then None else CommonUpTo(blocks, i, k))
    ensures k in blocks[i] ==>
      CommonUpTo(blocks, i + 1, k) ==
        (if i == 0 || CommonUpTo(blocks, i, k) == Some(blocks[i][k]) then Some(blocks[i][k]) else None)
  {
  }

  /**
   * `reduceAttributes`: summarise the selected blocks' attributes into one map
   * that keeps a value only where the blocks agree on it.
   */
  method ReduceAttributes(blocks: seq<Attributes>) returns (attributes: AttributeSummary)
    ensures forall k :: k in attributes <==> exists i :: 0 <= i < |blocks| && k in blocks[i]
    ensures forall k :: k in attributes ==> attributes[k] == CommonUpTo(blocks, |blocks|, k)
    ensures |blocks| == 0 ==> attributes == map[]
    ensures |blocks| > 0 ==> forall k :: k in attributes && k !in blocks[0] ==> attributes[k] == None
  {
    attributes := map[];
    var i := 0;
    while i < |blocks|
      invariant 0 <= i <= |blocks|
      invariant SummarisesUpTo(attributes, blocks, i)
    {
      var block := blocks[i];
      if i > 0 {
        FirstKeysUpTo(blocks, i);
      }
      var pending := block.Keys;
      while pending != {}
        invariant pending <= block.Keys
        invariant attributes.Keys == KeysUpTo(blocks, i) + (block.Keys - pending)
        invariant forall k :: k in attributes ==>
                    attributes[k] == if k in block && k !in pending then CommonUpTo(blocks, i + 1, k)
                                     else CommonUpTo(blocks, i, k)
        decreases pending
      {
        var attr :| attr in pending;
        CommonUpToStep(blocks, i, attr);
        if (attr in attributes && attributes[attr] == Some(block[attr])) || i == 0 {
          attributes := attributes[attr := Some(block[attr])];
        } else {
          attributes := attributes[attr := None];
        }
        pending := pending - {attr};
      }
      forall k | k in attributes && k !in block
        ensures attributes[k] == CommonUpTo(blocks, i + 1, k)
      {
        CommonUpToStep(blocks, i, k);
      }
      i := i + 1;
    }
    forall k ensures k in attributes <==> exists i :: 0 <= i < |blocks| && k in blocks[i] {
      KeysUpToAreUnion(blocks, |blocks|, k);
    }
  }

  /** The block names of the selection, in selection order. */
  function Names(blocks: seq<Block>): (names: seq<BlockName>)
    ensures |names| == |blocks|
    ensures forall i :: 0 <= i < |blocks| ==> names[i] == blocks[i].name
  {
    seq(|blocks|, i requires 0 <= i < |blocks| => blocks[i].name)
  }

  /** The attribute maps of the selection, in selection order. */
  function AttributesOf(blocks: seq<Block>): (attributes: seq<Attributes>)
    ensures |attributes| == |blocks|
    ensures forall i :: 0 <= i < |blocks| ==> attributes[i] == blocks[i].attributes
  {
    seq(|blocks|, i requires 0 <= i < |blocks| => blocks[i].attributes)
  }

  /** The `uniq` check finds one name exactly when the selection is non-empty and of one block type. */
  lemma SingleBlockType(blocks: seq<Block>)
    ensures |Uniq(Names(blocks))| == 1 <==>
              |blocks| > 0 && forall i :: 0 <= i < |blocks| ==> blocks[i].name == blocks[0].name
  {
    var names := Names(blocks);
    var u := Uniq(names);
    if |blocks| > 0 && forall i :: 0 <= i < |blocks| ==> blocks[i].name == blocks[0].name {
      UniqOfRepeated(names, names[0]);
    }
    if |u| == 1 {
      forall i | 0 <= i < |blocks| ensures blocks[i].name == blocks[0].name {
        assert names[i] in u;
      }
    }
  }

  /** What the toolbar renders: nothing, or the toolbar with the attribute summary its controls got, if any. */
  datatype Rendered = NothingRendered | Toolbar(controlsFrom: Option<AttributeSummary>)

  /**
   * `BlockListMultiControls`: nothing while the selection is being made;
   * otherwise type-specific controls, built from the attribute summary, appear
   * only when all selected blocks share one type that has controls
   * (`hasControls` stands for `getBlockType( name ).controls !== undefined`).
   */
  method RenderMultiControls(blocks: seq<Block>, isSelecting: bool, hasControls: BlockName -> bool)
    returns (r: Rendered)
    ensures isSelecting <==> r == NothingRendered
    ensures r.Toolbar? ==>
      (r.controlsFrom.Some? <==>
         && |blocks| > 0
         && (forall i :: 0 <= i < |blocks| ==> blocks[i].name == blocks[0].name)
         && hasControls(blocks[0].name))
    ensures r.Toolbar? && r.controlsFrom.Some? ==>
      && (forall k :: k in r.controlsFrom.value <==> exists i :: 0 <= i < |blocks| && k in blocks[i].attributes)
      && (forall k :: k in r.controlsFrom.value ==>
            r.controlsFrom.value[k] == CommonUpTo(AttributesOf(blocks), |blocks|, k))
  {
    if isSelecting {
      return NothingRendered;
    }
    var names := Uniq(Names(blocks));
    SingleBlockType(blocks);
    var controlsFrom := None;
    if |names| == 1 && hasControls(names[0]) {
      var attributes := AttributesOf(blocks);
      var summary := ReduceAttributes(attributes);
      controlsFrom := Some(summary);
    }
    r := Toolbar(controlsFrom);
  }

  /** One `onChange( uid, attributes )` call. */
  datatype AttributeChange = AttributeChange(uid: Uid, attributes: AttributeSummary)

  /**
   * The `setAttributes` given to the controls: calls `onChange` once per
   * selected block, in selection order, always with the same new attributes.
   * The calls are returned in the order they are made.
   */
  method SetAttributes(blocks: seq<Block>, newAttributes: AttributeSummary)
    returns (calls: seq<AttributeChange>)
    ensures |calls| == |blocks|
    ensures forall i :: 0 <= i < |blocks| ==> calls[i] == AttributeChange(blocks[i].uid, newAttributes)
  {
    calls := [];
    var i := 0;
    while i < |blocks|
      invariant 0 <= i <= |blocks|
      invariant |calls| == i
      invariant forall j :: 0 <= j < i ==> calls[j] == AttributeChange(blocks[j].uid, newAttributes)
    {
      var uid := blocks[i].uid;
      calls := calls + [AttributeChange(uid, newAttributes)];
      i := i + 1;
    }
  }

  /** The flags handed to the block mover. */
  datatype Edges = Edges(isFirst: bool, isLast: bool)

  /** The two store selectors `applyWithSelect` reads the flags from; a root of `None` is the top level. */
  datatype PositionSelectors = PositionSelectors(
    getBlockIndex: (Option<Uid>, Option<Uid>) -> int,
    getBlockCount: Option<Uid> -> int)

  /**
   * `applyWithSelect`'s flags, as written: the indices of the first and of the
   * last selected uid (undefined for an empty selection) are looked up in the
   * list of `rootUID`, but the count is `getBlockCount()` with no root, that
   * is, the length of the top-level list whatever the root.
   */
  function SelectionEdges(uids: seq<Uid>, rootUID: Option<Uid>, store: PositionSelectors): (r: Edges)
    ensures |uids| > 0 ==> (r.isFirst <==> store.getBlockIndex(Some(uids[0]), rootUID) == 0)
    ensures |uids| > 0 ==>
      (r.isLast <==> store.getBlockIndex(Some(uids[|uids| - 1]), rootUID) + 1 == store.getBlockCount(None))
    ensures |uids| == 0 ==>
      r == Edges(store.getBlockIndex(None, rootUID) == 0, store.getBlockIndex(None, rootUID) + 1 == store.getBlockCount(None))
  {
    var firstIndex := store.getBlockIndex(First(uids), rootUID);
    var lastIndex := store.getBlockIndex(Last(uids), rootUID);
    Edges(firstIndex == 0, lastIndex + 1 == store.getBlockCount(None))
  }

  /**
   * The flags as evidently intended: the count is taken in the same list as
   * the indices, `getBlockCount( rootUID )`.
   */
  function SelectionEdgesInRoot(uids: seq<Uid>, rootUID: Option<Uid>, store: PositionSelectors): (r: Edges)
    ensures |uids| > 0 ==> (r.isFirst <==> store.getBlockIndex(Some(uids[0]), rootUID) == 0)
    ensures |uids| > 0 ==>
      (r.isLast <==> store.getBlockIndex(Some(uids[|uids| - 1]), rootUID) + 1 == store.getBlockCount(rootUID))
    ensures rootUID.None? ==> r == SelectionEdges(uids, rootUID, store)
  {
    var firstIndex := store.getBlockIndex(First(uids), rootUID);
    var lastIndex := store.getBlockIndex(Last(uids), rootUID);
    Edges(firstIndex == 0, lastIndex + 1 == store.getBlockCount(rootUID))
  }

  /** The position of `u` in the ordered block list `order`, or -1: what `getBlockIndex` answers. */
  function IndexIn(order: seq<Uid>, u: Option<Uid>): (r: int)
    ensures -1 <= r < |order|
    ensures r >= 0 ==> u.Some? && order[r] == u.value && forall j :: 0 <= j < r ==> order[j] != u.value
    ensures r == -1 ==> u.None? || u.value !in order
  {
    if u.None? || |order| == 0 then -1
    else if order[0] == u.value then 0
    else
      var rest := IndexIn(order[1..], u);
      if rest == -1 then -1 else rest + 1
  }

  /**
   * A store whose block lists are `order( root )`: `getBlockIndex` is the
   * position in the root's list and `getBlockCount` its length.
   */
  function ListedStore(order: Option<Uid> -> seq<Uid>): PositionSelectors
  {
    PositionSelectors(
      (u: Option<Uid>, root: Option<Uid>) => IndexIn(order(root), u),
      (root: Option<Uid>) => |order(root)|)
  }

  /**
   * At the top level the flags mean what they say: the selection is first
   * exactly when it starts at the top-level list's first block, and last
   * exactly when it ends at that list's last block.
   */
  lemma SelectionEdgesInOrder(uids: seq<Uid>, order: Option<Uid> -> seq<Uid>)
    requires |uids| > 0
    requires forall i :: 0 <= i < |uids| ==> uids[i] in order(None)
    requires forall i, j :: 0 <= i < j < |order(None)| ==> order(None)[i] != order(None)[j]
    ensures SelectionEdges(uids, None, ListedStore(order)).isFirst <==> uids[0] == order(None)[0]
    ensures SelectionEdges(uids, None, ListedStore(order)).isLast
            <==> uids[|uids| - 1] == order(None)[|order(None)| - 1]
  {
  }

  /**
   * Inside a nested list the count is the top level's: a selection that ends
   * at the last of the two blocks nested in "p" is not flagged last while the
   * top level holds three blocks.
   */
  lemma NestedSelectionMissesLastBlock()
    ensures var order := (root: Option<Uid>) => if root.None? then ["p", "q", "r"] else ["a", "b"];
            var uids := ["a", "b"];
            && uids[|uids| - 1] == order(Some("p"))[|order(Some("p"))| - 1]
            && !SelectionEdges(uids, Some("p"), ListedStore(order)).isLast
  {
  }

  /**
   * With the count taken in the root's own list, the flags mean what they say
   * in every list: first exactly when the selection starts at the root's first
   * block, last exactly when it ends at the root's last block.
   */
  lemma SelectionEdgesInRootInOrder(uids: seq<Uid>, rootUID: Option<Uid>, order: Option<Uid> -> seq<Uid>)
    requires |uids| > 0
    requires forall i :: 0 <= i < |uids| ==> uids[i] in order(rootUID)
    requires forall i, j :: 0 <= i < j < |order(rootUID)| ==> order(rootUID)[i] != order(rootUID)[j]
    ensures SelectionEdgesInRoot(uids, rootUID, ListedStore(order)).isFirst <==> uids[0] == order(rootUID)[0]
    ensures SelectionEdgesInRoot(uids, rootUID, ListedStore(order)).isLast
            <==> uids[|uids| - 1] == order(rootUID)[|order(rootUID)| - 1]
  {
  }
}
