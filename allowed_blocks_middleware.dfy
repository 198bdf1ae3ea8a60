/**
 * The store middleware that keeps block insertions, moves and replacements
 * within what the target block list allows.
 *
 * The middleware either passes one action on to the next dispatcher or passes
 * nothing: its result is the action handed to `next`, or `None` when `next`
 * is not called. Returning an `Option` makes "`next` is called at most once
 * per action" hold by construction.
 */
module AllowedBlocksMiddleware {

  import opened Wrappers
  import opened Blocks
  import opened Lists

  /**
   * The actions the middleware tells apart, with the fields it reads and the
   * ones it passes through. `OtherAction` is every other action type: its
   * `kind` is never `INSERT_BLOCKS`, `MOVE_BLOCK_TO_POSITION` or `REPLACE_BLOCKS`,
   * which the other three constructors stand for.
   * `InsertBlocks.blocks` may hold `null` entries, written `None`; the
   * `blocks` field of a replacement is called `newBlocks` here.
   */
  datatype Action =
    | InsertBlocks(blocks: seq<Option<Block>>, index: Option<int>, rootUID: Option<Uid>,
                   ignoreAllowedBlocksValidation: bool)
    | MoveBlockToPosition(uid: Uid, fromRootUID: Option<Uid>, toRootUID: Option<Uid>, position: int)
    | ReplaceBlocks(uids: seq<Uid>, newBlocks: seq<Block>)
    | OtherAction(kind: string)

  /**
   * The store selectors the middleware consults, each already applied to
   * `store.getState()`; the state does not change while one action is handled.
   * `canInsertBlockType` receives `None` when the block name is unknown and
   * `None` as root for the top level.
   */
  datatype Selectors = Selectors(
    canInsertBlockType: (Option<BlockName>, Option<Uid>) -> bool,
    getBlock: Uid -> Option<Block>,
    getBlockName: Uid -> Option<BlockName>,
    getBlockRootUID: Option<Uid> -> Option<Uid>)

  /** The `filter` predicate of the insert case: a non-null block that may go under `rootUID`. */
  function Insertable(store: Selectors, rootUID: Option<Uid>): Option<Block> -> bool
  {
    (b: Option<Block>) => b.Some? && store.canInsertBlockType(Some(b.value.name), rootUID)
  }

  /**
   * The `every` predicate of the replace case for position `i`: the new block
   * may go under the root, or the block it replaces exists (its uid is present
   * and non-empty) and has the same name.
   */
  predicate ReplacementAllowed(store: Selectors, uids: seq<Uid>, blocks: seq<Block>, rootUID: Option<Uid>, i: nat)
    requires i < |blocks|
  {
    || store.canInsertBlockType(Some(blocks[i].name), rootUID)
    || (i < |uids| && uids[i] != "" && store.getBlock(uids[i]).Some?
        && store.getBlock(uids[i]).value.name == blocks[i].name)
  }

  /** lodash `every` over `blocks[from..]`, stopping at the first position that fails. */
  function EveryReplacementAllowed(store: Selectors, uids: seq<Uid>, blocks: seq<Block>, rootUID: Option<Uid>,
                                   from: nat): (r: bool)
    requires from <= |blocks|
    ensures r <==> forall i :: from <= i < |blocks| ==> ReplacementAllowed(store, uids, blocks, rootUID, i)
    decreases |blocks| - from
  {
    if from == |blocks| then true
    else if !ReplacementAllowed(store, uids, blocks, rootUID, from) then false
    else EveryReplacementAllowed(store, uids, blocks, rootUID, from + 1)
  }

  /** The middleware's decision for one action: the action passed to `next`, if any. */
  function Middleware(store: Selectors, action: Action): (r: Option<Action>)
    // any other action type goes through untouched
    ensures action.OtherAction? ==> r == Some(action)
    // an insert that asks to skip validation goes through untouched
    ensures action.InsertBlocks? && action.ignoreAllowedBlocksValidation ==> r == Some(action)
    // otherwise an insert goes through iff some block is allowed, carrying only allowed blocks
    ensures action.InsertBlocks? && !action.ignoreAllowedBlocksValidation ==>
      && (r.Some? <==> exists b :: b in action.blocks && Insertable(store, action.rootUID)(b))
      && (r.Some? ==> r.value.InsertBlocks? && r.value == action.(blocks := r.value.blocks))
      && (r.Some? ==> forall b :: b in r.value.blocks <==>
            (b in action.blocks && b.Some? && store.canInsertBlockType(Some(b.value.name), action.rootUID)))
    // a move goes through unchanged iff it stays in its parent or the block may go to the new parent
    ensures action.MoveBlockToPosition? ==>
      && (r.None? || r == Some(action))
      && (r.Some? <==> action.toRootUID == action.fromRootUID
                       || store.canInsertBlockType(store.getBlockName(action.uid), action.toRootUID))
    // a replacement goes through unchanged iff every new block is allowed at its position
    ensures action.ReplaceBlocks? ==>
      && (r.None? || r == Some(action))
      && (r.Some? <==> forall i :: 0 <= i < |action.newBlocks| ==>
            ReplacementAllowed(store, action.uids, action.newBlocks,
                               store.getBlockRootUID(First(action.uids)), i))
  {
    match action
    case InsertBlocks(blocks, _, rootUID, ignore) =>
      if ignore then Some(action)
      else
        var allowedBlocks := Filter(blocks, Insertable(store, rootUID));
        if |allowedBlocks| > 0 then
          assert allowedBlocks[0] in allowedBlocks;
          Some(action.(blocks := allowedBlocks))
        else None
    case MoveBlockToPosition(uid, fromRootUID, toRootUID, _) =>
      var blockName := store.getBlockName(uid);
      if toRootUID == fromRootUID || store.canInsertBlockType(blockName, toRootUID) then Some(action) else None
    case ReplaceBlocks(uids, blocks) =>
      var rootUID := store.getBlockRootUID(First(uids));
      if EveryReplacementAllowed(store, uids, blocks, rootUID, 0) then Some(action) else None
    case OtherAction(_) =>
      Some(action)
  }

  /** An insert forwards exactly the allowed blocks of the input, in input order. */
  lemma InsertKeepsAllowedInOrder(store: Selectors, action: Action, k: nat)
    requires action.InsertBlocks? && !action.ignoreAllowedBlocksValidation
    requires k <= |action.blocks|
    requires Middleware(store, action).Some?
    ensures Middleware(store, action).value.blocks ==
      Filter(action.blocks[..k], Insertable(store, action.rootUID))
      + Filter(action.blocks[k..], Insertable(store, action.rootUID))
  {
    assert action.blocks == action.blocks[..k] + action.blocks[k..];
    FilterAppend(action.blocks[..k], action.blocks[k..], Insertable(store, action.rootUID));
  }

  /** An insert in which no block is allowed (an empty one included) is dropped. */
  lemma InsertWithNothingAllowedIsDropped(store: Selectors, action: Action)
    requires action.InsertBlocks? && !action.ignoreAllowedBlocksValidation
    requires forall i :: 0 <= i < |action.blocks| ==> !Insertable(store, action.rootUID)(action.blocks[i])
    ensures Middleware(store, action) == None
  {
  }

  /** A replacement without new blocks is always forwarded: `every` of an empty list holds. */
  lemma EmptyReplacementIsForwarded(store: Selectors, uids: seq<Uid>)
    ensures Middleware(store, ReplaceBlocks(uids, [])) == Some(ReplaceBlocks(uids, []))
  {
  }

  /** Passing the middleware's output through the middleware again forwards it unchanged. */
  lemma MiddlewareIsIdempotent(store: Selectors, action: Action)
    requires Middleware(store, action).Some?
    ensures Middleware(store, Middleware(store, action).value) == Middleware(store, action)
  {
    if action.InsertBlocks? && !action.ignoreAllowedBlocksValidation {
      var p := Insertable(store, action.rootUID);
      var allowedBlocks := Filter(action.blocks, p);
      FilterIdempotent(action.blocks, p);
      assert allowedBlocks[0] in allowedBlocks;
    }
  }
}
