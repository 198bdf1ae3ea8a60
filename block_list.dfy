/**
 * Nested block lists: the module-level cache of pre-bound inner BlockList
 * components with its count of mounted instances, and the two decisions an
 * inner list makes when it mounts or updates (which settings to publish, and
 * whether to fill an empty block from its template).
 */
module BlockList {

  import opened Wrappers
  import opened Blocks

  /** The `renderBlockMenu` a nested list is bound to; `NoopMenu` is the default `noop`. */
  datatype MenuRenderer = NoopMenu | MenuRenderer(id: nat)

  /**
   * A BlockList component pre-bound to render the children of `rootUID`. Each
   * creation defines a new class, so `serial` numbers the creations: two
   * components are the same class only when they come from the same creation.
   */
  datatype InnerBlockList = InnerBlockList(rootUID: Uid, renderBlockMenu: MenuRenderer, serial: nat)

  /** The pair `[ component, count of mounted instances ]` the cache keeps per uid. */
  datatype CacheEntry = CacheEntry(component: InnerBlockList, mountedCount: nat)

  type Cache = map<Uid, CacheEntry>

  /**
   * The cache after `createInnerBlockList( uid, menu )`: an entry is added only
   * for a new uid, holding a component made by creation number `serial`.
   */
  function Created(cache: Cache, uid: Uid, menu: MenuRenderer, serial: nat): (r: Cache)
    ensures uid in r
    ensures uid in cache ==> r == cache
    ensures uid !in cache ==> r[uid] == CacheEntry(InnerBlockList(uid, menu, serial), 0)
    ensures r - {uid} == cache - {uid}
  {
    if uid in cache then cache else cache[uid := CacheEntry(InnerBlockList(uid, menu, serial), 0)]
  }

  /** The cache after an instance for `uid` mounts: its count goes up by one. */
  function Mounted(cache: Cache, uid: Uid): (r: Cache)
    requires uid in cache
    ensures uid in r && r[uid].component == cache[uid].component
    ensures r[uid].mountedCount == cache[uid].mountedCount + 1
    ensures r - {uid} == cache - {uid}
  {
    cache[uid := cache[uid].(mountedCount := cache[uid].mountedCount + 1)]
  }

  /**
   * The cache after an instance for `uid` unmounts. The source tests the count
   * BEFORE decrementing it (`! count--`): the entry goes only when the count
   * was already 0, not when the decrement brings it to 0.
   */
  function Unmounted(cache: Cache, uid: Uid): (r: Cache)
    requires uid in cache
    ensures uid in r <==> cache[uid].mountedCount > 0
    ensures uid in r ==> r[uid].component == cache[uid].component
                         && r[uid].mountedCount + 1 == cache[uid].mountedCount
    ensures r - {uid} == cache - {uid}
  {
    var entry := cache[uid];
    if entry.mountedCount == 0 then cache - {uid}
    else cache[uid := entry.(mountedCount := entry.mountedCount - 1)]
  }

  /** Creating again for a cached uid returns the stored component and changes nothing. */
  lemma CreateIsIdempotent(cache: Cache, uid: Uid, first: MenuRenderer, second: MenuRenderer, s1: nat, s2: nat)
    ensures Created(Created(cache, uid, first, s1), uid, second, s2) == Created(cache, uid, first, s1)
    ensures Created(Created(cache, uid, first, s1), uid, second, s2)[uid].component
            == Created(cache, uid, first, s1)[uid].component
  {
  }

  /** Every component in the cache comes from a creation numbered below `serial`. */
  ghost predicate CreatedBefore(cache: Cache, serial: nat)
  {
    forall u :: u in cache ==> cache[u].component.serial < serial
  }

  /**
   * A component created again after its uid was evicted is a new class, not
   * the evicted one, so React remounts every instance that rendered it.
   */
  lemma RecreatedAfterEvictionIsNew(cache: Cache, uid: Uid, menu: MenuRenderer, serial: nat)
    requires uid in cache && cache[uid].mountedCount == 0
    requires CreatedBefore(cache, serial)
    ensures uid !in Unmounted(cache, uid)
    ensures Created(Unmounted(cache, uid), uid, menu, serial)[uid].component != cache[uid].component
  {
  }

  /** A mount followed by an unmount puts the cache back as it was: the entry stays, with its old count. */
  lemma MountThenUnmountRestores(cache: Cache, uid: Uid)
    requires uid in cache
    ensures Unmounted(Mounted(cache, uid), uid) == cache
  {
    assert Unmounted(Mounted(cache, uid), uid)[uid] == cache[uid];
  }

  /** The lifecycle events of inner-list instances for one uid. */
  datatype Lifecycle = DidMount | WillUnmount

  /** Mounts minus unmounts. */
  function Balance(events: seq<Lifecycle>): int
  {
    if events == [] then 0
    else (if events[0] == DidMount then 1 else -1) + Balance(events[1..])
  }

  /**
   * Replays the events for `uid` from the front; `None` stands for the
   * TypeError the source raises when an instance mounts or unmounts after its
   * uid has left the cache.
   */
  function Replay(cache: Cache, uid: Uid, events: seq<Lifecycle>): Option<Cache>
  {
    if events == [] then Some(cache)
    else if uid !in cache then None
    else if events[0] == DidMount then Replay(Mounted(cache, uid), uid, events[1..])
    else Replay(Unmounted(cache, uid), uid, events[1..])
  }

  /**
   * While every unmount is matched by an earlier mount (the count never needs
   * to drop below zero), the entry is never removed and its count is the
   * starting count plus mounts minus unmounts. In particular the entry of a
   * list whose last instance has unmounted stays in the cache with count 0.
   */
  lemma {:induction false} MatchedLifecycleKeepsEntry(cache: Cache, uid: Uid, events: seq<Lifecycle>)
    requires uid in cache
    requires forall k :: 0 <= k <= |events| ==> cache[uid].mountedCount + Balance(events[..k]) >= 0
    ensures cache[uid].mountedCount + Balance(events) >= 0
    ensures Replay(cache, uid, events) ==
      Some(cache[uid := cache[uid].(mountedCount := cache[uid].mountedCount + Balance(events))])
    decreases |events|
  {
    if events == [] {
      assert cache[uid := cache[uid].(mountedCount := cache[uid].mountedCount + 0)] == cache;
    } else {
      var start := cache[uid].mountedCount;
      var delta := if events[0] == DidMount then 1 else -1;
      assert events[..1] == [events[0]];
      assert Balance(events[..1]) == delta;
      var next := if events[0] == DidMount then Mounted(cache, uid) else Unmounted(cache, uid);
      assert uid in next && next[uid].mountedCount == start + delta;
      var rest := events[1..];
      forall k | 0 <= k <= |rest| ensures next[uid].mountedCount + Balance(rest[..k]) >= 0 {
        assert events[..k + 1][1..] == rest[..k];
        assert events[..k + 1][0] == events[0];
      }
      assert events[..|events|] == events;
      MatchedLifecycleKeepsEntry(next, uid, rest);
      assert next[uid := next[uid].(mountedCount := start + delta + Balance(rest))]
          == cache[uid := cache[uid].(mountedCount := start + Balance(events))];
    }
  }

  /** Only an unmatched unmount, one that meets a count of 0, removes the entry. */
  lemma UnmatchedUnmountEvicts(cache: Cache, uid: Uid)
    requires uid in cache && cache[uid].mountedCount == 0
    ensures Replay(cache, uid, [WillUnmount]) == Some(cache - {uid})
  {
  }

  /**
   * The `lock` values a block list can carry; `Unlocked` is the source's
   * `false` and `NullLock` its `null`, which `lock === undefined` keeps.
   * An undefined lock is `None`.
   */
  datatype TemplateLock = All | Insert | Unlocked | NullLock

  /** The settings published for a nested block list. */
  datatype Settings = Settings(allowedBlocks: Option<seq<BlockName>>, lock: Option<TemplateLock>)

  /** One entry of a block template: a block name, its attributes and nested entries. */
  datatype TemplateItem = TemplateItem(name: BlockName, attributes: Attributes, innerBlocks: seq<TemplateItem>)

  /** The props of an inner block list component that its lifecycle methods read. */
  datatype InnerProps = InnerProps(
    block: Block,
    allowedBlocks: Option<seq<BlockName>>,
    lock: Option<TemplateLock>,
    parentLock: Option<TemplateLock>,
    blockListSettings: Option<Settings>,
    template: Option<seq<TemplateItem>>)

  /** The helpers the component calls but does not define. */
  datatype Helpers = Helpers(
    isShallowEqual: (Option<Settings>, Settings) -> bool,
    synchronizeBlocksWithTemplate: seq<TemplateItem> -> seq<Block>)

  /** The settings an inner list wants: its own lock when it has one, otherwise its parent's. */
  function NestedSettings(props: InnerProps): (s: Settings)
    ensures s.allowedBlocks == props.allowedBlocks
    ensures props.lock.Some? ==> s.lock == props.lock
    ensures props.lock.None? ==> s.lock == props.parentLock
  {
    Settings(props.allowedBlocks, if props.lock.None? then props.parentLock else props.lock)
  }

  /** `updateNestedSettings`: the settings to dispatch, if they differ from the stored ones. */
  function SettingsUpdate(props: InnerProps, helpers: Helpers): (r: Option<Settings>)
    ensures r.Some? <==> !helpers.isShallowEqual(props.blockListSettings, NestedSettings(props))
    ensures r.Some? ==> r.value.allowedBlocks == props.allowedBlocks
    ensures r.Some? && props.lock.Some? ==> r.value.lock == props.lock
    ensures r.Some? && props.lock.None? ==> r.value.lock == props.parentLock
  {
    var newSettings := NestedSettings(props);
    if !helpers.isShallowEqual(props.blockListSettings, newSettings) then Some(newSettings) else None
  }

  /**
   * Once the dispatched settings are the stored ones, the next update
   * dispatches nothing, provided shallow equality holds between a settings
   * object and itself.
   */
  lemma SettingsUpdateSettles(props: InnerProps, helpers: Helpers)
    requires forall s :: helpers.isShallowEqual(Some(s), s)
    requires SettingsUpdate(props, helpers).Some?
    ensures SettingsUpdate(props.(blockListSettings := SettingsUpdate(props, helpers)), helpers) == None
  {
    var stored := props.(blockListSettings := SettingsUpdate(props, helpers));
    assert NestedSettings(stored) == NestedSettings(props);
  }

  /** `insertTemplateBlocks`: the blocks to insert, if a template is given and the block is empty. */
  function TemplateInsertion(props: InnerProps, helpers: Helpers): (r: Option<seq<Block>>)
    ensures r.Some? <==> props.template.Some? && |props.block.innerBlocks| == 0
    ensures r.Some? ==> r.value == helpers.synchronizeBlocksWithTemplate(props.template.value)
  {
    match props.template
    case Some(template) =>
      if |props.block.innerBlocks| == 0 then Some(helpers.synchronizeBlocksWithTemplate(template)) else None
    case None => None
  }

  /** Once the template's blocks are in the block, the template is not inserted again. */
  lemma TemplateInsertedOnce(props: InnerProps, helpers: Helpers)
    requires TemplateInsertion(props, helpers).Some?
    requires |TemplateInsertion(props, helpers).value| > 0
    ensures TemplateInsertion(
              props.(block := props.block.(innerBlocks := TemplateInsertion(props, helpers).value)), helpers) == None
  {
  }

  /**
   * An empty template is a given template that inserts nothing, so the block
   * stays empty and the template is inserted again, as an empty list, on the
   * next mount.
   */
  lemma EmptyTemplateInsertedAgain(props: InnerProps, helpers: Helpers)
    requires props.template == Some([]) && helpers.synchronizeBlocksWithTemplate([]) == []
    requires |props.block.innerBlocks| == 0
    ensures TemplateInsertion(props, helpers) == Some([])
    ensures TemplateInsertion(
              props.(block := props.block.(innerBlocks := TemplateInsertion(props, helpers).value)), helpers) == Some([])
  {
  }

  /** What an inner list dispatches to the store. */
  datatype Dispatch =
    | UpdateBlockListSettings(uid: Uid, settings: Settings)
    | InsertBlocks(blocks: seq<Block>, rootUID: Uid)

  /** The settings update an inner list for `uid` dispatches, if any, as a list of dispatches. */
  function SettingsDispatch(uid: Uid, props: InnerProps, helpers: Helpers): (r: seq<Dispatch>)
    ensures |r| <= 1
    ensures |r| == 1 <==> SettingsUpdate(props, helpers).Some?
    ensures |r| == 1 ==> r[0] == UpdateBlockListSettings(uid, SettingsUpdate(props, helpers).value)
  {
    match SettingsUpdate(props, helpers)
    case Some(settings) => [UpdateBlockListSettings(uid, settings)]
    case None => []
  }

  /** The template insertion an inner list for `uid` dispatches, if any, as a list of dispatches. */
  function TemplateDispatch(uid: Uid, props: InnerProps, helpers: Helpers): (r: seq<Dispatch>)
    ensures |r| <= 1
    ensures |r| == 1 <==> TemplateInsertion(props, helpers).Some?
    ensures |r| == 1 ==> r[0] == InsertBlocks(TemplateInsertion(props, helpers).value, uid)
  {
    match TemplateInsertion(props, helpers)
    case Some(blocks) => [InsertBlocks(blocks, uid)]
    case None => []
  }

  /** The cache of inner block lists, keyed by the uid of the block that holds them. */
  class InnerBlockListCache {

    var entries: Cache
    /** How many components have been created so far. */
    var created: nat

    /**
     * Every cached component renders the children of the uid it is cached
     * under, and comes from one of the creations so far.
     */
    ghost predicate Valid()
      reads this
    {
      && (forall uid :: uid in entries ==> entries[uid].component.rootUID == uid)
      && CreatedBefore(entries, created)
    }

    constructor ()
      ensures Valid() && entries == map[] && created == 0
    {
      entries := map[];
      created := 0;
    }

    /** `createInnerBlockList( uid, renderBlockMenu )`: the cached component for `uid`, created on demand. */
    method CreateInnerBlockList(uid: Uid, renderBlockMenu: MenuRenderer) returns (component: InnerBlockList)
      requires Valid()
      modifies this
      ensures Valid()
      ensures entries == Created(old(entries), uid, renderBlockMenu, old(created))
      ensures component == entries[uid].component && component.rootUID == uid
      ensures uid in old(entries) ==> component == old(entries)[uid].component && created == old(created)
      ensures uid !in old(entries) ==> component.serial == old(created) && created == old(created) + 1
    {
      if uid !in entries {
        entries := entries[uid := CacheEntry(InnerBlockList(uid, renderBlockMenu, created), 0)];
        created := created + 1;
      }
      component := entries[uid].component;
    }

    /**
     * `componentDidMount` of an instance for `uid`: count it, then publish its
     * settings if they changed, then fill its block from the template if the
     * block is empty. `ok` is false when the uid is no longer cached (the
     * source raises a TypeError before doing anything).
     */
    method ComponentDidMount(uid: Uid, props: InnerProps, helpers: Helpers)
      returns (ok: bool, dispatched: seq<Dispatch>)
      requires Valid()
      modifies this
      ensures Valid()
      ensures ok <==> uid in old(entries)
      ensures created == old(created)
      ensures !ok ==> entries == old(entries) && dispatched == []
      ensures ok ==> entries == Mounted(old(entries), uid)
      ensures ok ==> dispatched == SettingsDispatch(uid, props, helpers) + TemplateDispatch(uid, props, helpers)
    {
      if uid !in entries {
        return false, [];
      }
      ok := true;
      entries := entries[uid := entries[uid].(mountedCount := entries[uid].mountedCount + 1)];
      dispatched := SettingsDispatch(uid, props, helpers);
      var inserted := TemplateInsertion(props, helpers);
      if inserted.Some? {
        dispatched := dispatched + [InsertBlocks(inserted.value, uid)];
      }
      assert dispatched == SettingsDispatch(uid, props, helpers) + TemplateDispatch(uid, props, helpers);
    }

    /**
     * `componentWillReceiveProps( nextProps )`: the argument it builds from
     * `nextProps` is ignored by `updateNestedSettings`, which reads the props
     * the component has BEFORE the change, so the settings published are those
     * of `props`, whatever `nextProps` holds.
     */
    method ComponentWillReceiveProps(uid: Uid, props: InnerProps, nextProps: InnerProps, helpers: Helpers)
      returns (dispatched: seq<Dispatch>)
      ensures dispatched == SettingsDispatch(uid, props, helpers)
    {
      dispatched := SettingsDispatch(uid, props, helpers);
    }

    /** `componentDidUpdate`: publish the settings of the new props if they changed. */
    method ComponentDidUpdate(uid: Uid, props: InnerProps, helpers: Helpers) returns (dispatched: seq<Dispatch>)
      ensures dispatched == SettingsDispatch(uid, props, helpers)
    {
      dispatched := SettingsDispatch(uid, props, helpers);
    }

    /**
     * `componentWillUnmount` of an instance for `uid`; `ok` is false when the
     * uid is no longer cached (the source raises a TypeError).
     */
    method ComponentWillUnmount(uid: Uid) returns (ok: bool)
      requires Valid()
      modifies this
      ensures Valid()
      ensures ok <==> uid in old(entries)
      ensures created == old(created)
      ensures !ok ==> entries == old(entries)
      ensures ok ==> entries == Unmounted(old(entries), uid)
    {
      if uid !in entries {
        return false;
      }
      ok := true;
      var count := entries[uid].mountedCount;
      if count == 0 {
        entries := entries - {uid};
      } else {
        entries := entries[uid := entries[uid].(mountedCount := count - 1)];
      }
    }
  }
}
