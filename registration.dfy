/**
 * The addon-facing registration entry points: each one registers a block
 * both with the copy-block API and with the model provider, so the two
 * registration sets move together.
 */
module Registration {
  import opened Wrappers
  import opened World
  import CopyBlockApi
  import ModelProvider

  /** How many of `blocks` are copy blocks (duplicates counted). */
  function CopyBlockCount(blocks: seq<BlockInfo>): (n: nat)
    ensures n <= |blocks|
  {
    if blocks == [] then 0
    else CopyBlockCount(blocks[..|blocks| - 1]) + (if blocks[|blocks| - 1].IsCopyBlock() then 1 else 0)
  }

  /** The registry keys of the copy blocks among `blocks` (a block without a key contributes none). */
  function CopyBlockKeys(blocks: seq<BlockInfo>): (ids: set<ResourceLocation>)
    ensures forall id :: id in ids <==> exists k :: 0 <= k < |blocks| && blocks[k].IsCopyBlock() && blocks[k].key == Some(id)
  {
    if blocks == [] then {}
    else
      var init := blocks[..|blocks| - 1];
      var last := blocks[|blocks| - 1];
      assert forall k :: 0 <= k < |init| ==> init[k] == blocks[k];
      CopyBlockKeys(init) + (if last.IsCopyBlock() && last.key.Some? then {last.key.value} else {})
  }

  /** The count returned never understates how many distinct ids were registered. */
  lemma {:induction false} DistinctKeysCounted(blocks: seq<BlockInfo>)
    ensures |CopyBlockKeys(blocks)| <= CopyBlockCount(blocks)
  {
    if blocks != [] {
      var init := blocks[..|blocks| - 1];
      var last := blocks[|blocks| - 1];
      DistinctKeysCounted(init);
      if last.IsCopyBlock() && last.key.Some? {
        var before := CopyBlockKeys(init);
        assert CopyBlockKeys(blocks) == before + {last.key.value};
        assert |before + {last.key.value}| <= |before| + 1;
      }
    }
  }

  /** The set of ids in a sequence. */
  function IdSet(ids: seq<ResourceLocation>): (s: set<ResourceLocation>)
    ensures forall id :: id in s <==> id in ids
  {
    set id | id in ids
  }

  /**
   * registerForMod: auto-registers `modId`'s dynamic-model copy blocks with
   * the API and with the model provider, returning the API's count.
   */
  method RegisterForMod(api: CopyBlockApi.Registrations, provider: ModelProvider.ModelProvider,
                        modId: string, entries: seq<RegistryEntry>) returns (count: nat)
    modifies api, provider
    ensures api.registered == old(api.registered) + CopyBlockApi.MatchingIds(entries, modId)
    ensures provider.registered == old(provider.registered) + CopyBlockApi.MatchingIds(entries, modId)
    ensures count == CopyBlockApi.CountMatches(entries, modId)
  {
    count := api.AutoRegisterModBlocks(modId, entries);
    provider.AutoRegisterForMod(modId, entries);
  }

  /** registerBlock by id: registers it in both sets. */
  method RegisterBlock(api: CopyBlockApi.Registrations, provider: ModelProvider.ModelProvider, id: ResourceLocation)
    modifies api, provider
    ensures api.registered == old(api.registered) + {id}
    ensures provider.registered == old(provider.registered) + {id}
  {
    api.RegisterCopyBlock(id);
    provider.RegisterBlock(id);
  }

  /** registerBlock by block: registers its key in both sets; a block without a key is ignored by both. */
  method RegisterBlockOf(api: CopyBlockApi.Registrations, provider: ModelProvider.ModelProvider, block: BlockInfo)
    modifies api, provider
    ensures api.registered == old(api.registered) + (if block.key.Some? then {block.key.value} else {})
    ensures provider.registered == old(provider.registered) + (if block.key.Some? then {block.key.value} else {})
  {
    api.RegisterCopyBlockOf(block);
    provider.RegisterBlockOf(block);
  }

  /** registerBlocks(Block...): registers the copy blocks among `blocks` and counts them. */
  method RegisterBlocks(api: CopyBlockApi.Registrations, provider: ModelProvider.ModelProvider, blocks: seq<BlockInfo>)
    returns (count: nat)
    modifies api, provider
    ensures api.registered == old(api.registered) + CopyBlockKeys(blocks)
    ensures provider.registered == old(provider.registered) + CopyBlockKeys(blocks)
    ensures count == CopyBlockCount(blocks)
  {
    count := 0;
    for i := 0 to |blocks|
      invariant api.registered == old(api.registered) + CopyBlockKeys(blocks[..i])
      invariant provider.registered == old(provider.registered) + CopyBlockKeys(blocks[..i])
      invariant count == CopyBlockCount(blocks[..i])
    {
      assert blocks[..i + 1][..i] == blocks[..i];
      var block := blocks[i];
      if block.IsCopyBlock() {
        RegisterBlockOf(api, provider, block);
        count := count + 1;
      }
    }
    assert blocks[..|blocks|] == blocks;
  }

  /** registerBlocks(ResourceLocation...): registers every id and returns how many ids were given. */
  method RegisterBlocksByIds(api: CopyBlockApi.Registrations, provider: ModelProvider.ModelProvider,
                             ids: seq<ResourceLocation>) returns (count: nat)
    modifies api, provider
    ensures api.registered == old(api.registered) + IdSet(ids)
    ensures provider.registered == old(provider.registered) + IdSet(ids)
    ensures count == |ids|
  {
    for i := 0 to |ids|
      invariant api.registered == old(api.registered) + IdSet(ids[..i])
      invariant provider.registered == old(provider.registered) + IdSet(ids[..i])
    {
      assert IdSet(ids[..i + 1]) == IdSet(ids[..i]) + {ids[i]};
      RegisterBlock(api, provider, ids[i]);
    }
    assert ids[..|ids|] == ids;
    return |ids|;
  }

  /** initializeImitari: the library registers its own namespace. */
  method InitializeLibrary(api: CopyBlockApi.Registrations, provider: ModelProvider.ModelProvider,
                           entries: seq<RegistryEntry>) returns (count: nat)
    modifies api, provider
    ensures api.registered == old(api.registered) + CopyBlockApi.MatchingIds(entries, "imitari")
    ensures provider.registered == old(provider.registered) + CopyBlockApi.MatchingIds(entries, "imitari")
  {
    count := RegisterForMod(api, provider, "imitari", entries);
  }
}
