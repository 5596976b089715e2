/**
 * Armor values for the cannon mod: copy blocks are added to its block
 * armor table with a default unit, and their hardness and toughness follow
 * the copied block scaled by the shape's effective multiplier.
 */
module CbcArmor {
  import opened Wrappers
  import opened World
  import DestroySpeed

  /** A mimicking armor unit: empty hardness, hardness multiplier, empty toughness, toughness multiplier. */
  datatype ArmorUnit = ArmorUnit(emptyHardness: real, materialHardnessMultiplier: real,
                                 emptyToughness: real, materialToughnessMultiplier: real)

  /** The unit injected for copy blocks that have no armor entry of their own. */
  const DefaultUnit: ArmorUnit := ArmorUnit(1.0, 1.0, 0.5, 1.0)

  /** A block's armor entry: the copy-block properties (default unit, per-state units) or any other provider. */
  datatype ArmorProperties = CopyArmor(defaultUnit: ArmorUnit, unitsByState: map<BlockState, ArmorUnit>)
                           | OtherArmor(name: string)

  /** The entry injected for a copy block. */
  const InjectedEntry: ArmorProperties := CopyArmor(DefaultUnit, map[])

  // ---------------------------------------------------------------------
  // Injection
  // ---------------------------------------------------------------------

  /** The armor table after the registry scan: every copy block not yet present gets the injected entry. */
  function Injected(table: map<ResourceLocation, ArmorProperties>, entries: seq<RegistryEntry>): (r: map<ResourceLocation, ArmorProperties>)
    ensures forall k :: k in table ==> k in r && r[k] == table[k]
    ensures forall k :: k in r && k !in table ==> r[k] == InjectedEntry
    ensures forall k :: k in r <==> k in table || exists i :: 0 <= i < |entries| && entries[i].block.IsCopyBlock() && entries[i].id == k
  {
    if entries == [] then table
    else
      var init := entries[..|entries| - 1];
      var last := entries[|entries| - 1];
      assert forall i :: 0 <= i < |init| ==> init[i] == entries[i];
      var previous := Injected(table, init);
      if last.block.IsCopyBlock() && last.id !in previous then previous[last.id := InjectedEntry] else previous
  }

  /** The handler's block armor table, updated in place by the injection. */
  class ArmorHandler {
    var blockMap: map<ResourceLocation, ArmorProperties>

    constructor (blockMap: map<ResourceLocation, ArmorProperties>)
      ensures this.blockMap == blockMap
    {
      this.blockMap := blockMap;
    }

    /** injectCopyBlocksIntoBlockMap: scans the registry in order and counts the entries added. */
    method InjectCopyBlocks(entries: seq<RegistryEntry>) returns (injected: nat)
      modifies this
      ensures blockMap == Injected(old(blockMap), entries)
      ensures injected == |blockMap.Keys| - |old(blockMap).Keys|
    {
      injected := 0;
      for i := 0 to |entries|
        invariant blockMap == Injected(old(blockMap), entries[..i])
        invariant old(blockMap).Keys <= blockMap.Keys
        invariant injected == |blockMap.Keys| - |old(blockMap).Keys|
      {
        assert entries[..i + 1][..i] == entries[..i];
        var entry := entries[i];
        if !entry.block.IsCopyBlock() {
          continue;
        }
        if entry.id in blockMap {
          continue;
        }
        ghost var keysBefore := blockMap.Keys;
        blockMap := blockMap[entry.id := InjectedEntry];
        assert blockMap.Keys == keysBefore + {entry.id};
        injected := injected + 1;
      }
      assert entries[..|entries|] == entries;
    }
  }

  // ---------------------------------------------------------------------
  // Hardness and toughness
  // ---------------------------------------------------------------------

  /** getCopiedState: the library copy entity's copied state, air when there is none. */
  function CopiedState(e: Option<BlockEntityView>): (s: BlockState)
    ensures !(e.Some? && e.value.CopyEntity? && e.value.kind == LibraryCopy) ==> s == AirState
    ensures e.Some? && e.value.CopyEntity? && e.value.kind == LibraryCopy ==> s == e.value.copied
  {
    if e.Some? && e.value.CopyEntity? && e.value.kind == LibraryCopy then e.value.copied else AirState
  }

  /** The multiplier for the armor block's state: 1 for a block that is not a copy block, else the effective one. */
  function EffectiveMultiplier(block: BlockInfo, stateOverride: Option<real>): (m: real)
    ensures !block.IsCopyBlock() ==> m == 1.0
  {
    if !block.IsCopyBlock() then 1.0 else DestroySpeed.EffectiveMassMultiplier(block.copy.value, stateOverride)
  }

  /** For a copy block the armor multiplier is the one the destroy-speed delegation uses. */
  lemma ArmorMultiplierMatchesDestroySpeed(block: BlockInfo, stateOverride: Option<real>)
    requires block.IsCopyBlock()
    ensures EffectiveMultiplier(block, stateOverride) == DestroySpeed.EffectiveMassMultiplier(block.copy.value, stateOverride)
  {
  }

  /**
   * hardness: the empty hardness for an empty copy; 1000 for a copied block
   * whose destroy speed is exactly -1; otherwise the copied block's own
   * armor hardness times the effective multiplier.
   */
  function Hardness(unit: ArmorUnit, block: BlockInfo, e: Option<BlockEntityView>, destroySpeed: real,
                    copiedHardness: real, stateOverride: Option<real>): (h: real)
    ensures CopiedState(e).IsAir() ==> h == unit.emptyHardness
    ensures !CopiedState(e).IsAir() && destroySpeed == -1.0 ==> h == 1000.0
    ensures !CopiedState(e).IsAir() && destroySpeed != -1.0 ==> h == copiedHardness * EffectiveMultiplier(block, stateOverride)
  {
    var copied := CopiedState(e);
    if copied.IsAir() then unit.emptyHardness
    else if destroySpeed == -1.0 then 1000.0
    else copiedHardness * EffectiveMultiplier(block, stateOverride)
  }

  /**
   * toughness: the empty toughness for an empty copy; the copied block's
   * explosion resistance when its destroy speed is exactly -1; otherwise
   * its armor toughness times the effective multiplier.
   */
  function Toughness(unit: ArmorUnit, block: BlockInfo, e: Option<BlockEntityView>, destroySpeed: real,
                     explosionResistance: real, copiedToughness: real, stateOverride: Option<real>): (t: real)
    ensures CopiedState(e).IsAir() ==> t == unit.emptyToughness
    ensures !CopiedState(e).IsAir() && destroySpeed == -1.0 ==> t == explosionResistance
    ensures !CopiedState(e).IsAir() && destroySpeed != -1.0 ==> t == copiedToughness * EffectiveMultiplier(block, stateOverride)
  {
    var copied := CopiedState(e);
    if copied.IsAir() then unit.emptyToughness
    else if destroySpeed == -1.0 then explosionResistance
    else copiedToughness * EffectiveMultiplier(block, stateOverride)
  }

  /** An injected copy block with nothing copied has hardness 1 and toughness 0.5. */
  lemma InjectedEmptyValues(block: BlockInfo, e: Option<BlockEntityView>, speed: real, resistance: real,
                            hardness: real, toughness: real, stateOverride: Option<real>)
    requires !(e.Some? && e.value.CopyEntity? && e.value.kind == LibraryCopy)
    ensures Hardness(InjectedEntry.defaultUnit, block, e, speed, hardness, stateOverride) == 1.0
    ensures Toughness(InjectedEntry.defaultUnit, block, e, speed, resistance, toughness, stateOverride) == 0.5
  {
  }

  /** A full-size copy is exactly as hard and as tough as the block it copies. */
  lemma FullCopyArmorsLikeOriginal(unit: ArmorUnit, block: BlockInfo, e: Option<BlockEntityView>, speed: real,
                                   resistance: real, hardness: real, toughness: real)
    requires block.IsCopyBlock() && block.copy.value.massMultiplier == 1.0
    requires !CopiedState(e).IsAir() && speed != -1.0
    ensures Hardness(unit, block, e, speed, hardness, None) == hardness
    ensures Toughness(unit, block, e, speed, resistance, toughness, None) == toughness
  {
  }
}
