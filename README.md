# Block editor logic: allowed blocks, multi-selection, term trees, nested lists, font sizes

This project models five pieces of logic from a block editor. Each piece can be separated from the UI framework the editor runs on:

- **`AllowedBlocksMiddleware`** (`allowed_blocks_middleware.dfy`) models the store middleware that decides, for each dispatched action, whether to pass it on, drop it, or pass on an `INSERT_BLOCKS` action with its block list filtered. The decision is a function from an action to the action handed to `next`, or `None`. So `next` is called at most once per action by construction.
- **`MultiControls`** (`multi_controls.dfy`) models the toolbar shown for a multi-block selection:
  - `reduceAttributes`, a nested loop that summarises the selected blocks' attributes;
  - the check that only one block type is selected;
  - the `setAttributes` fan-out to every selected block;
  - the `isFirst`/`isLast` flags, whose count is taken at the top level even inside a nested list (see "## Findings").
- **`CategorySelect`** (`category_select.dfy`) models `buildTermsTree`, which turns flat taxonomy terms into a forest by their `parent` links.
- **`BlockList`** (`block_list.dfy`) models the module-level cache of pre-bound inner block lists. Each entry holds a count of mounted instances. The cache is a class holding a `map`. The module also models the settings an inner list publishes and the rule that fills an empty block from its template.
- **`WithFontSizes`** (`with_font_sizes.dfy`) models the font-size higher-order component:
  - the attribute-to-context map built from its arguments;
  - the setters it creates and what each setter writes;
  - the memoised state derived from the props.

Shared modules:

- `Wrappers` holds `Option`, where `None` stands for `undefined`/`null`.
- `Blocks` holds uids, block names, attribute values, blocks and JavaScript truthiness.
- `Lists` holds lodash `first`, `last`, `filter` and `uniq`.

Store selectors and helpers whose code is not part of this model are parameters: total functions collected in a record (`Selectors`, `PositionSelectors`, `Helpers`). Their internals are not modelled. These are:

- the selectors `canInsertBlockType`, `getBlock`, `getBlockName`, `getBlockRootUID`, `getBlockIndex` and `getBlockCount`;
- `getBlockType(...).controls`;
- the helpers `getFontSize`, `getFontSizeClass`, `isShallowEqual`, `synchronizeBlocksWithTemplate` and lodash `upperFirst`.

The store state does not change while the middleware handles one action, so the middleware's selectors are passed already applied to it.

Where the code and its comments disagree, the model follows the code. In `componentWillUnmount` (editor/utils/block-list.js:51-55), the comment says the entry is removed when no instance remains after the decrement. The code instead tests the count before decrementing it (`! count--`). So an entry is removed only when an unmount finds the count already at 0. `BlockList.Unmounted` models the code as written. `BlockList.MatchedLifecycleKeepsEntry` proves that, while every unmount follows a matching mount, the entry is never removed, and it stays in the cache with count 0 once its last instance unmounts.

## Model

| member | source | states |
|---|---|---|
| `AllowedBlocksMiddleware.Middleware` | editor/utils/allowed-blocks-middleware.js:12-61 | Any other action type is forwarded unchanged. An insert that sets `ignoreAllowedBlocksValidation` is forwarded unchanged. Any other insert is forwarded iff some input block is non-null and insertable into `rootUID`; it then carries exactly those blocks, with every other field unchanged. A move is forwarded unchanged iff `toRootUID == fromRootUID` or the moved block's name may go into `toRootUID`, and is dropped otherwise. A replacement is forwarded unchanged iff every position satisfies `ReplacementAllowed` under the root of the first replaced uid, and is dropped otherwise. |
| `AllowedBlocksMiddleware.EveryReplacementAllowed` | editor/utils/allowed-blocks-middleware.js:45-52 | The short-circuiting `every` over the new blocks is true iff, at every index i, new block i may go under the root, or `uids[i]` is present and non-empty and names an existing block with the same name. |
| `AllowedBlocksMiddleware.InsertKeepsAllowedInOrder` | editor/utils/allowed-blocks-middleware.js:20-26 | For any split point of the input, the forwarded blocks are the allowed blocks before the split followed by the allowed blocks after it. So the input order is kept. |
| `AllowedBlocksMiddleware.InsertWithNothingAllowedIsDropped` | editor/utils/allowed-blocks-middleware.js:20-28 | A validated insert in which no block is allowed (including an empty one) forwards nothing. |
| `AllowedBlocksMiddleware.EmptyReplacementIsForwarded` | editor/utils/allowed-blocks-middleware.js:45-55 | A replacement with no new blocks is always forwarded, because `every` over an empty list holds. |
| `AllowedBlocksMiddleware.MiddlewareIsIdempotent` | editor/utils/allowed-blocks-middleware.js:12-61 | Running the middleware again on the action it forwarded forwards that same action. |
| `Lists.Filter` | editor/utils/allowed-blocks-middleware.js:20-21 | lodash `filter`: the result is no longer than the input, and holds exactly the input elements that satisfy the predicate. |
| `Lists.FilterAppend` | editor/utils/allowed-blocks-middleware.js:20-21 | Filtering distributes over concatenation. Together with the one-element cases, this fixes the result's order to the input order. |
| `Lists.FilterIdempotent` | editor/utils/allowed-blocks-middleware.js:20-21 | Filtering an already filtered list changes nothing. |
| `Lists.Uniq` | editor/components/block-list/multi-controls.js:42 | lodash `uniq`: holds every element of the input, no element twice, and starts with the input's first element. |
| `Lists.UniqOfRepeated` | editor/components/block-list/multi-controls.js:42 | A non-empty list of one repeated element has exactly that element as its distinct elements. |
| `MultiControls.ReduceAttributes` | editor/components/block-list/multi-controls.js:20-35 | The summary's keys are exactly the union of all selected blocks' attribute keys. Key k maps to `Some(v)` iff the first block has k = v and every block that has k agrees on v; otherwise k maps to undefined. This includes a key the first block lacks, even when all later blocks agree on it. An empty selection gives an empty map. |
| `MultiControls.KeysUpToAreUnion` | editor/components/block-list/multi-controls.js:24-33 | The summary's key set after n blocks is the union of the first n blocks' keys. |
| `MultiControls.SingleBlockType` | editor/components/block-list/multi-controls.js:42-45 | The `uniq` of the selected names has exactly one element iff the selection is non-empty and every block has the first block's name. |
| `MultiControls.RenderMultiControls` | editor/components/block-list/multi-controls.js:37-56 | Nothing is rendered iff the selection is still being made. Otherwise controls are built iff all selected blocks share one name whose type has controls, and they are built from the attribute summary characterised in `ReduceAttributes`. |
| `MultiControls.SetAttributes` | editor/components/block-list/multi-controls.js:47-52 | `onChange` is called once per selected block, in selection order, each time with the same new attributes. |
| `MultiControls.SelectionEdges` | editor/components/block-list/multi-controls.js:97-106 | As written: for a non-empty selection, `isFirst` holds iff the first selected uid has index 0 in the list of `rootUID`, and `isLast` holds iff the last selected uid's index in that list plus 1 equals the TOP-LEVEL block count (`getBlockCount()` takes no root). |
| `MultiControls.IndexIn` | editor/components/block-list/multi-controls.js:98-99 | `getBlockIndex` over an ordered list: the first position holding the uid, or -1 when the uid is undefined or absent. |
| `MultiControls.SelectionEdgesInOrder` | editor/components/block-list/multi-controls.js:97-106 | At the top level, where the indices and the count refer to the same list: the selection is flagged first iff it starts at that list's first block, and last iff it ends at that list's last block. |
| `MultiControls.NestedSelectionMissesLastBlock` | editor/components/block-list/multi-controls.js:99-106 | In a nested list of two blocks under a top level of three, a selection ending at the nested list's last block is not flagged last. |
| `MultiControls.SelectionEdgesInRoot` | editor/components/block-list/multi-controls.js:97-106 | The flags with the count taken in the root's own list (`getBlockCount( rootUID )`). At the top level they equal the flags as written. |
| `MultiControls.SelectionEdgesInRootInOrder` | editor/components/block-list/multi-controls.js:97-106 | With the corrected count, in every list: first iff the selection starts at the root's first block, last iff it ends at the root's last block. |
| `CategorySelect.ChildrenOf` | packages/components/src/query-controls/category-select.js:19 | The `groupBy` bucket for parent p holds exactly the terms whose parent is p. |
| `CategorySelect.FillWithChildren` | packages/components/src/query-controls/category-select.js:20-30 | Node i keeps term i of the list unchanged. Its children are the forest of the terms whose parent is that term's id, so a term with no children gets `[]`. |
| `CategorySelect.BuildTermsTree` | packages/components/src/query-controls/category-select.js:18-33 | The result is the forest of the terms with parent 0, in input order, each expanded recursively; it is empty when no term has parent 0. It terminates when parent links strictly decrease some rank, which rules out `id 0, parent 0`. |
| `CategorySelect.ForestIsUnique` | packages/components/src/query-controls/category-select.js:18-33 | The forest characterisation determines the tree: two forests of the same terms under the same parent are equal. |
| `CategorySelect.OccursHasChain` | packages/components/src/query-controls/category-select.js:20-32 | Every term found in a forest under p reaches p through parent links among the input terms. |
| `CategorySelect.ChainOccurs` | packages/components/src/query-controls/category-select.js:20-32 | Every input term whose parent links reach p is found in the forest under p. |
| `CategorySelect.TreeHoldsExactlyTermsReachingRoot` | packages/components/src/query-controls/category-select.js:18-33 | A term occurs in the tree iff its parent chain reaches a term whose parent is 0. Terms whose chain never reaches 0 appear nowhere. |
| `BlockList.Created` | editor/utils/block-list.js:41-43 | A new uid gets a component bound to it, numbered by the creation that made it, with mount count 0. A cached uid leaves the cache unchanged. No other uid's entry changes. |
| `BlockList.Mounted` | editor/utils/block-list.js:58-59 | The uid's count rises by exactly 1, its component is kept, and no other entry changes. |
| `BlockList.Unmounted` | editor/utils/block-list.js:50-56 | The entry is removed iff its count was 0 before the decrement. Otherwise the count drops by 1 and the component is kept. No other entry changes. |
| `BlockList.CreateIsIdempotent` | editor/utils/block-list.js:41-42 | Creating again for a cached uid returns the stored component and leaves the cache unchanged. |
| `BlockList.RecreatedAfterEvictionIsNew` | editor/utils/block-list.js:42-43 | Once an entry with count 0 is evicted, creating for that uid again yields a component different from the evicted one, because each creation defines a new class. |
| `BlockList.MountThenUnmountRestores` | editor/utils/block-list.js:50-59 | A mount followed by an unmount restores the cache exactly; the entry is not removed. |
| `BlockList.MatchedLifecycleKeepsEntry` | editor/utils/block-list.js:50-59 | While every unmount follows a matching mount, the entry is never removed. Its count is the starting count plus mounts minus unmounts. |
| `BlockList.UnmatchedUnmountEvicts` | editor/utils/block-list.js:53-54 | An unmount that finds the count at 0 removes the entry. |
| `BlockList.NestedSettings` | editor/utils/block-list.js:77-82 | `allowedBlocks` is passed through. `lock` is the block's own lock when it is not `undefined` (a `null` lock is kept), otherwise the parent's lock. |
| `BlockList.SettingsUpdate` | editor/utils/block-list.js:77-86 | New settings are dispatched iff they are not shallow-equal to the stored `blockListSettings`, and they carry the lock fallback above. |
| `BlockList.SettingsUpdateSettles` | editor/utils/block-list.js:83-85 | Once the dispatched settings are the stored ones, the next update dispatches nothing, as long as shallow equality holds between a settings object and itself. |
| `BlockList.TemplateInsertion` | editor/utils/block-list.js:68-75 | Template blocks are inserted iff a template is given (an empty array counts) and the block has no inner blocks. What is inserted is the template synchronised into blocks. |
| `BlockList.TemplateInsertedOnce` | editor/utils/block-list.js:70-74 | Once a non-empty insertion is in the block, the template is not inserted again. |
| `BlockList.EmptyTemplateInsertedAgain` | editor/utils/block-list.js:70-73 | An empty template that synchronises to no blocks leaves the block empty, so it is inserted again, as an empty list, on the next mount. |
| `BlockList.SettingsDispatch` | editor/utils/block-list.js:122-124 | At most one `updateBlockListSettings( uid, settings )` is dispatched, exactly when `SettingsUpdate` gives settings. |
| `BlockList.TemplateDispatch` | editor/utils/block-list.js:119-121 | At most one `insertBlocks( blocks, undefined, uid )` is dispatched, exactly when `TemplateInsertion` gives blocks. |
| `BlockList.InnerBlockListCache.constructor` | editor/utils/block-list.js:26 | The cache starts empty. |
| `BlockList.InnerBlockListCache.CreateInnerBlockList` | editor/utils/block-list.js:41-136 | The cache becomes `Created(old cache)`. The returned component is the one cached under the uid and is bound to it. For a cached uid it is the previously stored component. For a new uid it is a fresh creation, numbered after every earlier one. Every entry stays bound to its own uid. |
| `BlockList.InnerBlockListCache.ComponentDidMount` | editor/utils/block-list.js:58-62 | For a cached uid, the count rises by 1, then the settings update is dispatched if any, then the template insertion if any. For an uncached uid (the source's TypeError), nothing changes and nothing is dispatched. |
| `BlockList.InnerBlockListCache.ComponentWillReceiveProps` | editor/utils/block-list.js:44-48 | The settings published are those of the props the component had before the change; the incoming props play no part. |
| `BlockList.InnerBlockListCache.ComponentDidUpdate` | editor/utils/block-list.js:64-66 | An update dispatches exactly the settings update, if any. |
| `BlockList.InnerBlockListCache.ComponentWillUnmount` | editor/utils/block-list.js:50-56 | For a cached uid the cache becomes `Unmounted(old cache)`. For an uncached uid (the source's TypeError), nothing changes. |
| `WithFontSizes.ArgumentEntries` | editor/components/font-sizes/with-font-sizes.js:38 | A string argument maps itself to `'font-size'`. A map argument contributes its own entries. |
| `WithFontSizes.FontSizeMap` | editor/components/font-sizes/with-font-sizes.js:35-40 | The map's keys are exactly the attribute names contributed by some argument. |
| `WithFontSizes.LastArgumentWins` | editor/components/font-sizes/with-font-sizes.js:35-40 | For a key shared by several arguments, the map holds the context given by the last one. |
| `WithFontSizes.CreateSetters` | editor/components/font-sizes/with-font-sizes.js:60-68 | Every attribute's `"set" + upperFirst(name)` is a setter. Every setter writes some attribute `name` of the map, stored under that attribute's set-name, together with its custom attribute `"custom" + upperFirst(name)`. |
| `WithFontSizes.SettersOneToOne` | editor/components/font-sizes/with-font-sizes.js:61-66 | When `upperFirst` tells the attribute names apart, each attribute's setter writes that attribute and its custom twin. |
| `WithFontSizes.FindBySize` | editor/components/font-sizes/with-font-sizes.js:72 | `find( fontSizes, { size } )` returns the index of the first preset of that size, or none when no preset has it. |
| `WithFontSizes.SetFontSize` | editor/components/font-sizes/with-font-sizes.js:70-78 | If the first preset with the value's size has a non-empty slug, the setter writes that slug and clears the custom attribute. If there is no such preset, or it has no slug, the setter clears the attribute and writes the raw value as custom. |
| `WithFontSizes.DerivedEntry` | editor/components/font-sizes/with-font-sizes.js:82-97 | The entry's size is always the newly resolved size. A previous entry of the same size is reused unchanged. Otherwise the entry is the resolved object with a class: `getFontSizeClass( context, attribute )` when the attribute is truthy, and the falsy attribute itself when it is not. |
| `WithFontSizes.DerivedState` | editor/components/font-sizes/with-font-sizes.js:80-100 | The derived state has exactly one entry per key of the font-size map. |
| `WithFontSizes.GetDerivedStateFromProps` | editor/components/font-sizes/with-font-sizes.js:80-100 | The loop that fills `newState` key by key yields exactly `DerivedState`. |
| `WithFontSizes.DerivedStateIsStable` | editor/components/font-sizes/with-font-sizes.js:88-91 | Deriving again from the same props and the derived state returns that state unchanged. |

## Findings

| source | as written | input that shows it | evidently intended | confidence | as-written member | corrected member |
|---|---|---|---|---|---|---|
| editor/components/block-list/multi-controls.js:106 | `isLast: lastIndex + 1 === getBlockCount()` counts the top-level blocks, while `lastIndex` is the index in the list of `rootUID` | a nested list under "p" holding ["a", "b"], a top level of ["p", "q", "r"], and the selection ["a", "b"]: it ends at the nested list's last block but `isLast` is false (`NestedSelectionMissesLastBlock`) | `getBlockCount( rootUID )`, the same list as the indices | medium, not executed | `MultiControls.SelectionEdges` | `MultiControls.SelectionEdgesInRoot` |

## Left out

- Foreign code is modelled only as parameters. This covers the store selectors, `getBlockType`, `getFontSize`, `getFontSizeClass`, `isShallowEqual`, `synchronizeBlocksWithTemplate` and lodash `upperFirst`. The operations assume no property of it. Five lemmas do, in their preconditions:
  - `SettingsUpdateSettles` assumes `isShallowEqual` holds between a settings object and itself.
  - `SelectionEdgesInOrder` and `SelectionEdgesInRootInOrder` assume a store whose `getBlockIndex` and `getBlockCount` answer from one ordered list per root, without repeats (`ListedStore`).
  - `SettersOneToOne` assumes `upperFirst` maps the attribute names to distinct strings.
  - `EmptyTemplateInsertedAgain` assumes `synchronizeBlocksWithTemplate` turns an empty template into no blocks.
- lodash `groupBy` is not a parameter: `CategorySelect.ChildrenOf` models its bucket for a parent as the in-order filter of the terms on `parent`. The source keys the buckets by the string form of the parent id (`termsByParent[ term.id ]`, `termsByParent[ '0' ]`); the model compares the integer ids directly. Because ids are integers, the string of an id names the same bucket as the id, so the result is the same.
- Rendering is not modelled: JSX output, `render()`, `MultiBlocksSwitcher`, `BlockMover`, `BlockSettingsMenu` and `TreeSelect`. Nor is the framework glue: `withSelect`, `withDispatch`, `compose` and `createHigherOrderComponent`. React schedules lifecycle calls; here they are explicit method calls.
- The `block-edit`, `warning`, `paragraph` and `layout-half-image-text` files and the DOM tests are not part of this model. They are rendering, declarative registration or tests of code not shown.
- JavaScript's `null` and `undefined` are both `None` wherever an `Option` stands for a value that may be missing: root uids, insertion indices, entries of an insert's block list, `allowedBlocks`, stored settings, templates and font-size attributes. So a move between roots `null` and `undefined` counts as the same root here, whereas `===` would tell them apart. The template lock is the exception: it has a `NullLock` value, because `lock === undefined` keeps a `null` lock.
- Attribute values are never `undefined` inside a block's attribute map. Numbers are integers, and `NaN` is not modelled.
- `MultiControls.ReduceAttributes`: object and array attribute values are `Ref`s compared by identity, as `===` compares them. Their contents are not modelled. So two blocks holding equal copies of an array get `undefined` for it, as in the source, but the model cannot express that the copies are equal.
- `MultiControls.RenderMultiControls`: `getBlockType( names[ 0 ] ).controls` throws a TypeError when the selected blocks' type is not registered. The model's `hasControls` is total, so there it renders a toolbar without controls instead of failing.
- `BlockList.TemplateInsertion`: `block.innerBlocks.length` throws a TypeError when `getBlock( uid )` gives `null` and a template is given. The model's `InnerProps.block` is always a block, so this failure is not modelled.
- `AllowedBlocksMiddleware.Middleware`: a `null` entry in a replacement's new blocks is not modelled, because the source throws a TypeError on it; the new blocks of a replacement are plain blocks.
- `BlockList.InnerBlockListCache.ComponentWillReceiveProps`: the `{ supportedBlocks }` argument built from the incoming props is ignored by `updateNestedSettings`, which takes no parameter. So the model publishes the settings of the props the component had before the change.
- `BlockList.Created`: a component's identity is its creation number (`serial`). What the class renders is not modelled beyond its root uid and menu renderer.
- `CategorySelect.BuildTermsTree`: the rank precondition asks every term, reachable from a root or not, to rank below its parent. A parent-link cycle among terms the source never visits also breaks it, although the source terminates on such input.
- `WithFontSizes.CreateSetters`: when two attribute names give the same set-name, the source keeps the setter of the key it enumerates last. The model only states that the kept setter belongs to one of the colliding names, because it does not model JavaScript's key order.
- `WithFontSizes.SetFontSize`: preset sizes are always defined integers. A cleared value (`undefined`) is `None` and matches no preset.
- `WithFontSizes.DerivedEntry`: `getFontSize`'s result is modelled as a slug and a size only. Any other field it carries is not tracked.
