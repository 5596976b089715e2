/**
 * The copy-block library's public API: the set of blocks registered for
 * copy-block model handling, and read-only queries about a position's
 * copied block and a block's mass multiplier.
 */
module CopyBlockApi {
  import opened Wrappers
  import opened World

  /** A registry entry an automatic registration for `modId` picks: its namespace, a copy block with dynamic models. */
  predicate MatchesMod(e: RegistryEntry, modId: string)
  {
    e.id.namespace == modId && e.block.copy.Some? && e.block.copy.value.dynamicModel
  }

  /** How many entries of `entries` match (duplicates and already-registered ids included). */
  function CountMatches(entries: seq<RegistryEntry>, modId: string): (n: nat)
    ensures n <= |entries|
  {
    if entries == [] then 0
    else CountMatches(entries[..|entries| - 1], modId) + (if MatchesMod(entries[|entries| - 1], modId) then 1 else 0)
  }

  /** The ids of the matching entries. */
  function MatchingIds(entries: seq<RegistryEntry>, modId: string): (ids: set<ResourceLocation>)
    ensures forall id :: id in ids <==> exists k :: 0 <= k < |entries| && MatchesMod(entries[k], modId) && entries[k].id == id
  {
    if entries == [] then {}
    else
      var init := entries[..|entries| - 1];
      var last := entries[|entries| - 1];
      assert forall k :: 0 <= k < |init| ==> init[k] == entries[k];
      MatchingIds(init, modId) + (if MatchesMod(last, modId) then {last.id} else {})
  }

  /** The count reported never understates the number of distinct ids registered. */
  lemma {:induction false} DistinctMatchesCounted(entries: seq<RegistryEntry>, modId: string)
    ensures |MatchingIds(entries, modId)| <= CountMatches(entries, modId)
  {
    if entries != [] {
      var init := entries[..|entries| - 1];
      DistinctMatchesCounted(init, modId);
      var last := entries[|entries| - 1];
      if MatchesMod(last, modId) {
        var before := MatchingIds(init, modId);
        assert MatchingIds(entries, modId) == before + {last.id};
        assert |before + {last.id}| <= |before| + 1;
      }
    }
  }

  /** The registration set for copy-block model handling. */
  class Registrations {
    var registered: set<ResourceLocation>

    constructor ()
      ensures registered == {}
    {
      registered := {};
    }

    method RegisterCopyBlock(id: ResourceLocation)
      modifies this
      ensures registered == old(registered) + {id}
    {
      registered := registered + {id};
    }

    /** Registers a block by its registry key; an unregistered block is ignored. */
    method RegisterCopyBlockOf(block: BlockInfo)
      modifies this
      ensures registered == old(registered) + (if block.key.Some? then {block.key.value} else {})
    {
      if block.key.Some? {
        RegisterCopyBlock(block.key.value);
      }
    }

    /**
     * Registers every entry of `modId`'s namespace that is a copy block
     * using dynamic models, and returns how many entries matched.
     */
    method AutoRegisterModBlocks(modId: string, entries: seq<RegistryEntry>) returns (count: nat)
      modifies this
      ensures registered == old(registered) + MatchingIds(entries, modId)
      ensures count == CountMatches(entries, modId)
    {
      count := 0;
      var i := 0;
      while i < |entries|
        invariant 0 <= i <= |entries|
        invariant registered == old(registered) + MatchingIds(entries[..i], modId)
        invariant count == CountMatches(entries[..i], modId)
      {
        assert entries[..i + 1][..i] == entries[..i];
        var e := entries[i];
        if e.id.namespace == modId && e.block.copy.Some? && e.block.copy.value.dynamicModel {
          RegisterCopyBlock(e.id);
          count := count + 1;
        }
        i := i + 1;
      }
      assert entries[..|entries|] == entries;
    }

    /** Removes `id`; reports whether it was registered. */
    method UnregisterCopyBlock(id: ResourceLocation) returns (removed: bool)
      modifies this
      ensures removed <==> id in old(registered)
      ensures registered == old(registered) - {id}
    {
      removed := id in registered;
      registered := registered - {id};
    }

    function IsRegistered(id: ResourceLocation): (b: bool)
      reads this
      ensures b <==> id in registered
    {
      id in registered
    }

    /** A block is registered when it has a registry key that is. */
    function IsRegisteredBlock(block: BlockInfo): (b: bool)
      reads this
      ensures b <==> block.key.Some? && block.key.value in registered
    {
      block.key.Some? && IsRegistered(block.key.value)
    }

    /** A copy of the registrations: later changes to either do not affect the other. */
    method GetRegisteredBlocks() returns (snapshot: set<ResourceLocation>)
      ensures snapshot == registered
    {
      snapshot := registered;
    }

    method ClearRegistrations()
      modifies this
      ensures registered == {}
    {
      registered := {};
    }
  }

  /** getCopiedBlock: the copied state of a library copy-block entity, absent when there is none or it is air. */
  function GetCopiedBlock(e: Option<BlockEntityView>): (r: Option<BlockState>)
    ensures r.Some? ==> !r.value.IsAir() && e.Some? && e.value.CopyEntity? && e.value.kind == LibraryCopy && e.value.copied == r.value
    ensures r.None? ==> e.None? || !e.value.CopyEntity? || e.value.kind != LibraryCopy || e.value.copied.IsAir()
  {
    if e.Some? && e.value.CopyEntity? && e.value.kind == LibraryCopy && !e.value.copied.IsAir()
    then Some(e.value.copied) else None
  }

  /** isCopyBlock: the block at the position implements the copy-block interface. */
  function IsCopyBlock(block: BlockInfo): (b: bool)
    ensures b <==> block.copy.Some?
  {
    block.IsCopyBlock()
  }

  /** hasCopiedBlock: a library entity holding a non-air copy. */
  function HasCopiedBlock(e: Option<BlockEntityView>): (b: bool)
    ensures b <==> GetCopiedBlock(e).Some?
  {
    e.Some? && e.value.CopyEntity? && e.value.kind == LibraryCopy && !e.value.copied.IsAir()
  }

  /** getMassMultiplier: the copy block's own multiplier, 1 for any other block. */
  function GetMassMultiplier(block: BlockInfo): (m: real)
    ensures block.copy.None? ==> m == 1.0
    ensures block.copy.Some? ==> m == block.copy.value.massMultiplier
  {
    if block.copy.Some? then block.copy.value.massMultiplier else 1.0
  }

  /** The placeholder mass of a full copy block. */
  const PlaceholderMass: real := 50.0

  /** getEffectiveMass: 50 times the multiplier for a copy block holding a copy, 0 otherwise. */
  function GetEffectiveMass(block: BlockInfo, e: Option<BlockEntityView>): (m: real)
    ensures m != 0.0 ==> block.IsCopyBlock() && GetCopiedBlock(e).Some?
    ensures block.IsCopyBlock() && GetCopiedBlock(e).Some? ==> m == PlaceholderMass * GetMassMultiplier(block)
  {
    if !block.IsCopyBlock() then 0.0
    else if GetCopiedBlock(e).None? then 0.0
    else PlaceholderMass * block.copy.value.massMultiplier
  }

  /** implementsICopyBlock, for a block or (through its block) a state. */
  function ImplementsCopyBlock(block: BlockInfo): (b: bool)
    ensures b == IsCopyBlock(block)
  {
    block.copy.Some?
  }
}
