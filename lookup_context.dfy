/**
 * The per-thread lookup context: every world lookup of a block state
 * records the level and position it is answering for, so that a tag query
 * made in that window can consult the copy-block entity there. The copied
 * state is read once and cached until the next lookup.
 */
module LookupContext {
  import opened Wrappers
  import opened World

  /** How long (in nanoseconds) a recorded lookup stays usable. */
  const ValidityWindow: int := 1_000_000

  /** The tag verdict for a copied state: none for air, otherwise the copied block's own tag membership. */
  function Verdict(copied: BlockState, tag: TagKey, hasTag: (BlockState, TagKey) -> bool): (r: Option<bool>)
    ensures r.None? <==> copied.IsAir()
    ensures r.Some? ==> r.value == hasTag(copied, tag)
  {
    if copied.IsAir() then None else Some(hasTag(copied, tag))
  }

  /** The copied state the library entity `e` exposes, if `e` is one. */
  function LibraryCopied(e: Option<BlockEntityView>): (r: Option<BlockState>)
    ensures r.Some? <==> e.Some? && e.value.CopyEntity? && e.value.kind == LibraryCopy
    ensures r.Some? ==> r.value == e.value.copied
  {
    if e.Some? && e.value.CopyEntity? && e.value.kind == LibraryCopy then Some(e.value.copied) else None
  }

  /** One thread's lookup slot. */
  class LookupCache {
    var level: Level?
    var pos: Option<Pos>
    var lastAccessTime: int
    var cachedResult: Option<BlockState>
    /** How many times a check has read the block entity (for the read-once property). */
    ghost var entityReads: nat

    /** A recorded lookup is a level with a position. */
    ghost predicate Valid()
      reads this
    {
      (level != null <==> pos.Some?) && (cachedResult.Some? ==> level != null)
    }

    constructor ()
      ensures Valid() && level == null && pos.None? && lastAccessTime == 0 && cachedResult.None?
    {
      level := null;
      pos := None;
      lastAccessTime := 0;
      cachedResult := None;
      entityReads := 0;
    }

    /** A lookup was recorded less than the validity window before `now`. */
    predicate IsValid(now: int)
      reads this
    {
      level != null && now - lastAccessTime < ValidityWindow
    }

    /** Recorded at the start of every block-state lookup; drops any cached copy. */
    method Set(l: Level, p: Pos, now: int)
      modifies this
      ensures Valid() && level == l && pos == Some(p) && lastAccessTime == now && cachedResult.None?
      ensures IsValid(now)
      ensures entityReads == old(entityReads)
    {
      level := l;
      pos := Some(p);
      lastAccessTime := now;
      cachedResult := None;
    }

    /** Called when the lookup returns; the time stamp is left as it was. */
    method Clear()
      modifies this
      ensures Valid() && level == null && pos.None? && cachedResult.None?
      ensures lastAccessTime == old(lastAccessTime) && entityReads == old(entityReads)
      ensures forall now :: !IsValid(now)
    {
      level := null;
      pos := None;
      cachedResult := None;
    }

    /** Discards the slot; the thread's next use starts from a new one. */
    method ClearAll()
      modifies this
      ensures Valid() && level == null && pos.None? && lastAccessTime == 0 && cachedResult.None?
    {
      level := null;
      pos := None;
      lastAccessTime := 0;
      cachedResult := None;
    }

    /**
     * checkCopiedBlockTag: None defers to the block's own tags. With a
     * usable lookup the copied state is taken from the cache, or read once
     * from the library entity at the recorded position and cached; an air
     * copy (or no library entity) defers.
     */
    method CheckCopiedBlockTag(tag: TagKey, now: int, hasTag: (BlockState, TagKey) -> bool)
      returns (r: Option<bool>)
      requires Valid()
      modifies this
      ensures Valid() && level == old(level) && pos == old(pos) && lastAccessTime == old(lastAccessTime)
      ensures !old(IsValid(now)) ==> r.None? && cachedResult == old(cachedResult) && entityReads == old(entityReads)
      ensures old(IsValid(now)) && old(cachedResult).Some? ==>
        r == Verdict(old(cachedResult).value, tag, hasTag) && cachedResult == old(cachedResult)
        && entityReads == old(entityReads)
      ensures old(IsValid(now)) && old(cachedResult).None? ==>
        var found := LibraryCopied(level.EntityAt(pos.value));
        cachedResult == found && entityReads == old(entityReads) + 1
        && r == (if found.Some? then Verdict(found.value, tag, hasTag) else None)
    {
      if !IsValid(now) {
        return None;
      }
      if cachedResult.None? {
        var be := level.EntityAt(pos.value);
        entityReads := entityReads + 1;
        var copied := LibraryCopied(be);
        if copied.None? {
          return None;
        }
        cachedResult := copied;
      }
      r := Verdict(cachedResult.value, tag, hasTag);
    }
  }

  /**
   * The block-state lookup as the context sees it: the context is recorded
   * on entry and cleared on return, so any tag check made by the caller
   * after the lookup returns finds no usable context and defers.
   */
  method GetBlockState(ctx: LookupCache, level: Level, p: Pos, now: int) returns (cell: Cell)
    modifies ctx
    ensures cell == level.CellAt(p)
    ensures ctx.Valid() && ctx.level == null && ctx.cachedResult.None? && ctx.lastAccessTime == now
    ensures forall t :: !ctx.IsValid(t)
  {
    ctx.Set(level, p, now);
    cell := level.CellAt(p);
    ctx.Clear();
  }
}
