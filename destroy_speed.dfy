/**
 * How hard a library copy block is to break: the copied block's destroy
 * speed scaled by the shape's effective mass multiplier, with fixed
 * fallbacks for an empty copy, a disabled setting and a failing lookup.
 */
module DestroySpeed {
  import opened Wrappers
  import opened World

  /** The destroy speed of an empty copy block, and of any case the delegation cannot answer. */
  const EmptyDestroySpeed: real := 0.5

  /**
   * The multiplier for the copy block's current state: the value of the
   * block's own per-state `getEffectiveMassMultiplier` when it declares one
   * returning a float (`stateOverride`), else the block's mass multiplier.
   */
  function EffectiveMassMultiplier(traits: CopyTraits, stateOverride: Option<real>): (m: real)
    ensures stateOverride.Some? ==> m == stateOverride.value
    ensures stateOverride.None? ==> m == traits.massMultiplier
  {
    if stateOverride.Some? then stateOverride.value else traits.massMultiplier
  }

  /**
   * The getDestroySpeed override: None leaves the vanilla speed in place.
   * `e` is the block entity at the position (only the imitari library's
   * copy entity, `LibraryCopy`, takes part), `copyHardness` the setting,
   * `baseSpeed` the copied state's own destroy speed (None when asking for
   * it throws).
   */
  function DynamicDestroySpeed(block: BlockInfo, e: Option<BlockEntityView>, copyHardness: bool,
                               baseSpeed: Option<real>, stateOverride: Option<real>): (r: Option<real>)
    ensures r.None? <==> !block.IsCopyBlock() || !(e.Some? && e.value.CopyEntity? && e.value.kind == LibraryCopy)
    ensures r.Some? && (e.value.copied.IsAir() || !copyHardness || baseSpeed.None?) ==> r == Some(EmptyDestroySpeed)
    ensures r.Some? && !e.value.copied.IsAir() && copyHardness && baseSpeed.Some? && baseSpeed.value < 0.0
            ==> r == baseSpeed
    ensures r.Some? && !e.value.copied.IsAir() && copyHardness && baseSpeed.Some? && baseSpeed.value >= 0.0
            ==> r == Some(baseSpeed.value * EffectiveMassMultiplier(block.copy.value, stateOverride))
  {
    if !block.IsCopyBlock() then None
    else if !(e.Some? && e.value.CopyEntity? && e.value.kind == LibraryCopy) then None
    else if e.value.copied.IsAir() then Some(EmptyDestroySpeed)
    else if !copyHardness then Some(EmptyDestroySpeed)
    else if baseSpeed.None? then Some(EmptyDestroySpeed)
    else if baseSpeed.value < 0.0 then baseSpeed
    else Some(baseSpeed.value * EffectiveMassMultiplier(block.copy.value, stateOverride))
  }

  /** A full-size copy (multiplier 1, no per-state override) breaks exactly like the block it copies. */
  lemma FullCopyBreaksLikeOriginal(block: BlockInfo, e: Option<BlockEntityView>, base: real)
    requires block.IsCopyBlock() && block.copy.value.massMultiplier == 1.0
    requires e.Some? && e.value.CopyEntity? && e.value.kind == LibraryCopy && !e.value.copied.IsAir()
    ensures DynamicDestroySpeed(block, e, true, Some(base), None) == Some(base)
  {
  }

  /** An unbreakable copied block stays unbreakable whatever the shape. */
  lemma UnbreakableStaysUnbreakable(block: BlockInfo, e: Option<BlockEntityView>, base: real, stateOverride: Option<real>)
    requires block.IsCopyBlock() && base < 0.0
    requires e.Some? && e.value.CopyEntity? && e.value.kind == LibraryCopy && !e.value.copied.IsAir()
    ensures DynamicDestroySpeed(block, e, true, Some(base), stateOverride) == Some(base)
  {
  }

  /** A smaller shape is never harder to break than a larger one holding the same copy. */
  lemma {:induction false} SpeedMonotoneInMultiplier(block1: BlockInfo, block2: BlockInfo, e: Option<BlockEntityView>, base: real)
    requires block1.IsCopyBlock() && block2.IsCopyBlock()
    requires 0.0 <= block1.copy.value.massMultiplier <= block2.copy.value.massMultiplier
    requires e.Some? && e.value.CopyEntity? && e.value.kind == LibraryCopy && !e.value.copied.IsAir()
    requires base >= 0.0
    ensures DynamicDestroySpeed(block1, e, true, Some(base), None).value <= DynamicDestroySpeed(block2, e, true, Some(base), None).value
  {
    var m1 := block1.copy.value.massMultiplier;
    var m2 := block2.copy.value.massMultiplier;
    assert base * m2 - base * m1 == base * (m2 - m1);
  }
}
