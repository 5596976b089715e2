/**
 * Tag delegation: a copy block answers tag queries with its copied block's
 * tags. The library mixin consults the lookup context and honours a
 * configured blacklist; the legacy mixin reads an explicitly set context;
 * the tag API offers the same answer as direct calls.
 */
module TagDelegation {
  import opened Wrappers
  import opened World
  import LookupContext
  import CopyBlockApi

  /**
   * isTagBlacklisted: whether the tag's "namespace:path" text equals an
   * entry of the configured blacklist. `blacklist` is None when the
   * configuration cannot be read, which allows every tag.
   */
  method IsTagBlacklisted(blacklist: Option<seq<string>>, tag: TagKey) returns (b: bool)
    ensures b <==> blacklist.Some? && tag.location.ToString() in blacklist.value
  {
    if blacklist.None? || |blacklist.value| == 0 {
      return false;
    }
    var list := blacklist.value;
    var text := tag.location.ToString();
    var i := 0;
    while i < |list|
      invariant 0 <= i <= |list|
      invariant forall k :: 0 <= k < i ==> list[k] != text
    {
      if text == list[i] {
        return true;
      }
      i := i + 1;
    }
    return false;
  }

  /** A copy block with dynamic tags asked about a tag the blacklist does not name. */
  predicate Consults(block: BlockInfo, tag: TagKey, blacklist: Option<seq<string>>)
  {
    block.copy.Some? && block.copy.value.dynamicTags
    && !(blacklist.Some? && tag.location.ToString() in blacklist.value)
  }

  /**
   * The library mixin on `is(tag)`. None lets the block's own tags answer;
   * Some(v) overrides the answer with v. Only copy blocks with dynamic
   * tags, and only tags not blacklisted, consult the context.
   */
  method CheckCopiedTags(block: BlockInfo, tag: TagKey, blacklist: Option<seq<string>>,
                         ctx: LookupContext.LookupCache, now: int, hasTag: (BlockState, TagKey) -> bool)
    returns (r: Option<bool>)
    requires ctx.Valid()
    modifies ctx
    ensures ctx.Valid() && ctx.level == old(ctx.level) && ctx.pos == old(ctx.pos)
    ensures !(block.copy.Some? && block.copy.value.dynamicTags) ==> r.None? && ctx.cachedResult == old(ctx.cachedResult)
    ensures blacklist.Some? && tag.location.ToString() in blacklist.value ==> r.None? && ctx.cachedResult == old(ctx.cachedResult)
    ensures r.Some? ==> block.copy.Some? && block.copy.value.dynamicTags && old(ctx.IsValid(now))
                        && ctx.cachedResult.Some? && r == LookupContext.Verdict(ctx.cachedResult.value, tag, hasTag)
    ensures Consults(block, tag, blacklist) && !old(ctx.IsValid(now)) ==> r.None?
    ensures Consults(block, tag, blacklist) && old(ctx.IsValid(now)) && old(ctx.cachedResult).Some? ==>
      r == LookupContext.Verdict(old(ctx.cachedResult).value, tag, hasTag)
    ensures Consults(block, tag, blacklist) && old(ctx.IsValid(now)) && old(ctx.cachedResult).None? ==>
      var found := LookupContext.LibraryCopied(ctx.level.EntityAt(ctx.pos.value));
      r == (if found.Some? then LookupContext.Verdict(found.value, tag, hasTag) else None)
  {
    if !(block.copy.Some? && block.copy.value.dynamicTags) {
      return None;
    }
    var blacklisted := IsTagBlacklisted(blacklist, tag);
    if blacklisted {
      return None;
    }
    r := ctx.CheckCopiedBlockTag(tag, now, hasTag);
  }

  /** The legacy mixin's explicitly set context: a level and a position, or nothing. */
  class LegacyTagContext {
    var level: Level?
    var pos: Option<Pos>

    constructor ()
      ensures level == null && pos.None?
    {
      level := null;
      pos := None;
    }

    method SetContext(l: Level?, p: Option<Pos>)
      modifies this
      ensures level == l && pos == p
    {
      level := l;
      pos := p;
    }

    method ClearContext()
      modifies this
      ensures level == null && pos.None?
    {
      level := null;
      pos := None;
    }

    /**
     * The legacy mixin on `is(tag)` for a state of the legacy copy block:
     * with a context whose position holds a legacy entity with a non-air
     * copy, the copied block's tags answer; otherwise the block's own. The
     * context has no expiry: it answers until cleared.
     */
    function CopyBlockTags(isCopyBlock: bool, tag: TagKey, hasTag: (BlockState, TagKey) -> bool): (r: Option<bool>)
      reads this, level
      ensures r.Some? <==> (isCopyBlock && level != null && pos.Some?
                            && level.EntityAt(pos.value).Some? && level.EntityAt(pos.value).value.CopyEntity?
                            && level.EntityAt(pos.value).value.kind == LegacyCopy
                            && !level.EntityAt(pos.value).value.copied.IsAir())
      ensures r.Some? ==> r.value == hasTag(level.EntityAt(pos.value).value.copied, tag)
    {
      if isCopyBlock && level != null && pos.Some? then
        match level.EntityAt(pos.value)
        case Some(CopyEntity(LegacyCopy, copied, _)) => if copied.IsAir() then None else Some(hasTag(copied, tag))
        case _ => None
      else None
    }
  }

  /**
   * copiedBlockHasTag (both overloads; the state argument is not used):
   * true exactly when the position holds a library copy with a non-air
   * copied block that has the tag.
   */
  function CopiedBlockHasTag(e: Option<BlockEntityView>, tag: TagKey, hasTag: (BlockState, TagKey) -> bool): (b: bool)
    ensures b <==> CopyBlockApi.GetCopiedBlock(e).Some? && hasTag(CopyBlockApi.GetCopiedBlock(e).value, tag)
    ensures b ==> CopyBlockApi.HasCopiedBlock(e)
  {
    var copied := CopyBlockApi.GetCopiedBlock(e);
    copied.Some? && hasTag(copied.value, tag)
  }

  /**
   * Where the context holds a cached copy, the context check and the
   * direct API query agree on every tag whenever the copy is not air.
   */
  lemma ContextAgreesWithApi(e: Option<BlockEntityView>, tag: TagKey, hasTag: (BlockState, TagKey) -> bool)
    requires LookupContext.LibraryCopied(e).Some?
    ensures var v := LookupContext.Verdict(LookupContext.LibraryCopied(e).value, tag, hasTag);
            v.Some? ==> v.value == CopiedBlockHasTag(e, tag, hasTag)
  {
  }

  /** checkWithContext: the context check itself. */
  method CheckWithContext(ctx: LookupContext.LookupCache, tag: TagKey, now: int, hasTag: (BlockState, TagKey) -> bool)
    returns (r: Option<bool>)
    requires ctx.Valid()
    modifies ctx
    ensures ctx.Valid() && ctx.level == old(ctx.level) && ctx.pos == old(ctx.pos)
    ensures !old(ctx.IsValid(now)) ==> r.None?
    ensures old(ctx.IsValid(now)) && old(ctx.cachedResult).Some? ==>
      r == LookupContext.Verdict(old(ctx.cachedResult).value, tag, hasTag)
    ensures old(ctx.IsValid(now)) && old(ctx.cachedResult).None? ==>
      var found := LookupContext.LibraryCopied(ctx.level.EntityAt(ctx.pos.value));
      r == (if found.Some? then LookupContext.Verdict(found.value, tag, hasTag) else None)
    ensures r.Some? ==> ctx.cachedResult.Some? && r == LookupContext.Verdict(ctx.cachedResult.value, tag, hasTag)
  {
    r := ctx.CheckCopiedBlockTag(tag, now, hasTag);
  }

  /** clearAllContexts: discards this thread's context slot. */
  method ClearAllContexts(ctx: LookupContext.LookupCache)
    modifies ctx
    ensures ctx.Valid() && ctx.level == null && ctx.lastAccessTime == 0
  {
    ctx.ClearAll();
  }

  /** usesDynamicTags, for a block or (through its block) a state: false for blocks that are not copy blocks. */
  function UsesDynamicTags(block: BlockInfo): (b: bool)
    ensures b ==> block.IsCopyBlock()
    ensures block.IsCopyBlock() ==> b == block.copy.value.dynamicTags
  {
    block.copy.Some? && block.copy.value.dynamicTags
  }
}
