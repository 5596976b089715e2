/**
 * The model provider: the set of block ids registered for dynamic models,
 * and the bake pass that replaces each matching model in the registry by
 * its copy-model wrapper.
 */
module ModelProvider {
  import opened Wrappers
  import opened World
  import CopyModel
  import CopyBlockApi
  import opened MultiPartModel

  // ---------------------------------------------------------------------
  // Model-id matching
  // ---------------------------------------------------------------------

  predicate StartsWith(s: string, prefix: string)
  {
    |prefix| <= |s| && s[..|prefix|] == prefix
  }

  predicate EndsWith(s: string, suffix: string)
  {
    |suffix| <= |s| && s[|s| - |suffix|..] == suffix
  }

  /** lastIndexOf('/') within the first `n` characters: -1 when there is none. */
  function LastSlash(path: string, n: nat): (i: int)
    requires n <= |path|
    ensures -1 <= i < n
    ensures i >= 0 ==> path[i] == '/'
    ensures forall j :: i < j < n ==> path[j] != '/'
  {
    if n == 0 then -1 else if path[n - 1] == '/' then n - 1 else LastSlash(path, n - 1)
  }

  /** The text after the last '/' of a path, or the whole path when it has none. */
  function LastSegment(path: string): (r: string)
    ensures |r| <= |path| && r == path[|path| - |r|..]
    ensures '/' !in r
    ensures r == path || path[|path| - |r| - 1] == '/'
  {
    path[LastSlash(path, |path|) + 1..]
  }

  /** Item models are never wrapped: a path containing "item/" or ending in "_inventory". */
  predicate IsItemModelPath(path: string)
  {
    CopyModel.Contains(path, "item/") || EndsWith(path, "_inventory")
  }

  /** A library model: namespace "imitari", last segment starting with "copy_block", not an item model. */
  predicate LibraryModelMatches(modelId: ResourceLocation)
  {
    modelId.namespace == "imitari" && StartsWith(LastSegment(modelId.path), "copy_block") && !IsItemModelPath(modelId.path)
  }

  /**
   * An addon model for registered block `blockId`: same namespace, last
   * segment equal to the block's path or starting with it followed by '_',
   * not an item model.
   */
  predicate AddonModelMatches(modelId: ResourceLocation, blockId: ResourceLocation)
  {
    modelId.namespace == blockId.namespace
    && (LastSegment(modelId.path) == blockId.path || StartsWith(LastSegment(modelId.path), blockId.path + "_"))
    && !IsItemModelPath(modelId.path)
  }

  /** Whether the bake wraps the model registered under `modelId`. */
  predicate ShouldWrap(modelId: ResourceLocation, registered: set<ResourceLocation>)
  {
    LibraryModelMatches(modelId) || exists b :: b in registered && AddonModelMatches(modelId, b)
  }

  /** The last segment of a path ending in "/name" is the name. */
  lemma LastSegmentOfChild(dir: string, name: string)
    requires '/' !in name
    ensures LastSegment(dir + "/" + name) == name
  {
    var path := dir + "/" + name;
    assert path[|dir|] == '/';
    assert forall j :: |dir| < j < |path| ==> path[j] == name[j - |dir| - 1];
    assert LastSlash(path, |path|) == |dir|;
    assert path[|dir| + 1..] == name;
  }

  /** In "block/name" with no '/' in the name, "item/" cannot start at i: its '/' would sit at i + 4, and the only '/' is at 5 after "b-l-o-c-k". */
  lemma OnlySlashOfBlockPath(name: string, i: int)
    requires '/' !in name
    ensures !CopyModel.OccursAt("block/" + name, "item/", i)
  {
    var path := "block/" + name;
    if 0 <= i && i + 5 <= |path| {
      if i + 4 > 5 {
        assert path[i + 4] == name[i - 2];
      } else if i + 4 < 5 {
        assert path[i] == 'b';
      } else {
        assert path[i] == 'l';
      }
      assert path[i..i + 5][4] == path[i + 4] && path[i..i + 5][0] == path[i];
    }
  }

  /** A path under "block/" whose file name has no '/' never contains "item/". */
  lemma BlockPathIsNoItemPath(name: string)
    requires '/' !in name
    ensures !CopyModel.Contains("block/" + name, "item/")
  {
    var path := "block/" + name;
    CopyModel.ContainsIffOccurs(path, "item/");
    if i :| CopyModel.OccursAt(path, "item/", i) {
      OnlySlashOfBlockPath(name, i);
      assert false;
    }
  }

  /** A library block model under "block/" whose name starts with "copy_block" is wrapped unless it is an inventory model. */
  lemma LibraryBlockModelsWrapped(registered: set<ResourceLocation>, name: string)
    requires '/' !in name && StartsWith(name, "copy_block")
    ensures ShouldWrap(ResourceLocation("imitari", "block/" + name), registered)
            <== !EndsWith("block/" + name, "_inventory")
  {
    LastSegmentOfChild("block", name);
    assert "block" + "/" + name == "block/" + name;
    BlockPathIsNoItemPath(name);
  }

  // ---------------------------------------------------------------------
  // Wrapping
  // ---------------------------------------------------------------------

  /** Each part of a multipart model, shown through a copy model, under the same condition and in the same order. */
  function WrappedSelectors(parts: seq<Selector>): (r: seq<Selector>)
    ensures |r| == |parts|
    ensures forall i :: 0 <= i < |r| ==> r[i] == Selector(parts[i].condition, CopyOf(parts[i].model))
  {
    seq(|parts|, i requires 0 <= i < |parts| => Selector(parts[i].condition, CopyOf(parts[i].model)))
  }

  /**
   * A multipart model whose parts the bake wrapped shows, for every state,
   * the same quads as the unwrapped parts wrapped on the fly by getQuads,
   * provided no part was a copy model already.
   */
  lemma {:induction false} BakedPartsShowSameQuads(parts: seq<Selector>, state: BlockState,
                                                   accepts: (nat, BlockState) -> bool,
                                                   copyQuads: Model -> seq<CopyModel.Quad>)
    requires forall i :: 0 <= i < |parts| ==> !parts[i].model.CopyOf?
    ensures SelectedQuads(WrappedSelectors(parts), state, accepts, copyQuads)
            == SelectedQuads(parts, state, accepts, copyQuads)
  {
    if |parts| > 0 {
      assert WrappedSelectors(parts)[1..] == WrappedSelectors(parts[1..]);
      BakedPartsShowSameQuads(parts[1..], state, accepts, copyQuads);
    }
  }

  /**
   * The wrapper for a model: a vanilla multipart model whose parts were
   * recovered and are not empty becomes a copy multipart model; anything
   * else becomes a copy model around it.
   */
  function Wrapped(m: Model): (r: Model)
    ensures r.IsWrapped()
    ensures r.CopyMultiPart? ==> (r.base == m && m.VanillaMultiPart? && m.parts.Some?
                                  && r.selectors == WrappedSelectors(m.parts.value))
    ensures r.CopyOf? ==> r.inner == m
  {
    if m.VanillaMultiPart? && m.parts.Some? && |m.parts.value| > 0
    then CopyMultiPart(m, WrappedSelectors(m.parts.value))
    else CopyOf(m)
  }

  /** The selector loop of the bake: wraps each part, keeping its condition and position. */
  method WrapSelectors(parts: seq<Selector>) returns (wrapped: seq<Selector>)
    ensures wrapped == WrappedSelectors(parts)
  {
    wrapped := [];
    for i := 0 to |parts|
      invariant wrapped == WrappedSelectors(parts[..i])
    {
      wrapped := wrapped + [Selector(parts[i].condition, CopyOf(parts[i].model))];
    }
    assert parts[..|parts|] == parts;
  }

  /**
   * The registry after the bake. Models already wrapped stay; a model
   * whose id matches is replaced by its wrapper unless wrapping it fails
   * (`wrapFails`), in which case the original stays.
   */
  function Baked(models: map<ResourceLocation, Model>, registered: set<ResourceLocation>,
                 wrapFails: ResourceLocation -> bool): (r: map<ResourceLocation, Model>)
    ensures r.Keys == models.Keys
    ensures forall k :: k in models && (models[k].IsWrapped() || !ShouldWrap(k, registered) || wrapFails(k))
                        ==> r[k] == models[k]
    ensures forall k :: k in models && !models[k].IsWrapped() && ShouldWrap(k, registered) && !wrapFails(k)
                        ==> r[k] == Wrapped(models[k])
  {
    map k | k in models :: if !models[k].IsWrapped() && ShouldWrap(k, registered) && !wrapFails(k)
                           then Wrapped(models[k]) else models[k]
  }

  /** A second bake changes nothing: everything the first replaced is already wrapped. */
  lemma {:induction false} BakeIdempotent(models: map<ResourceLocation, Model>, registered: set<ResourceLocation>,
                                          wrapFails: ResourceLocation -> bool)
    ensures Baked(Baked(models, registered, wrapFails), registered, wrapFails) == Baked(models, registered, wrapFails)
  {
    var once := Baked(models, registered, wrapFails);
    var twice := Baked(once, registered, wrapFails);
    forall k | k in once
      ensures twice[k] == once[k]
    {
      if !models[k].IsWrapped() && ShouldWrap(k, registered) && !wrapFails(k) {
        assert once[k].IsWrapped();
      }
    }
  }

  // ---------------------------------------------------------------------
  // The provider
  // ---------------------------------------------------------------------

  /** The try block of the bake: builds the wrapper of one model. */
  method WrapModel(existingModel: Model) returns (wrappedModel: Model)
    ensures wrappedModel == Wrapped(existingModel)
  {
    if existingModel.VanillaMultiPart? && existingModel.parts.Some? && |existingModel.parts.value| > 0 {
      var selectors := WrapSelectors(existingModel.parts.value);
      wrappedModel := CopyMultiPart(existingModel, selectors);
    } else {
      wrappedModel := CopyOf(existingModel);
    }
  }

  /** The entries a bake changes are exactly the successful wraps: a wrapper never equals the unwrapped model. */
  lemma ChangedAreWrapped(before: map<ResourceLocation, Model>, after: map<ResourceLocation, Model>,
                          done: set<ResourceLocation>, succeeded: set<ResourceLocation>, wrapFails: ResourceLocation -> bool)
    requires after.Keys == before.Keys && done <= before.Keys
    requires forall k :: k in done ==> !before[k].IsWrapped()
    requires forall k :: k in before && k !in done ==> after[k] == before[k]
    requires forall k :: k in done ==> after[k] == if wrapFails(k) then before[k] else Wrapped(before[k])
    requires forall k :: k in succeeded <==> k in done && !wrapFails(k)
    ensures ChangedKeys(before, after) == succeeded
  {
  }

  /**
   * The second pass of the bake over the collected ids: each successful
   * wrap replaces the entry and is counted.
   */
  method WrapAll(before: map<ResourceLocation, Model>, toWrap: set<ResourceLocation>,
                 wrapFails: ResourceLocation -> bool)
    returns (after: map<ResourceLocation, Model>, wrappedCount: nat)
    requires forall k :: k in toWrap ==> k in before && !before[k].IsWrapped()
    ensures after.Keys == before.Keys
    ensures forall k :: k in before && k !in toWrap ==> after[k] == before[k]
    ensures forall k :: k in toWrap ==> after[k] == if wrapFails(k) then before[k] else Wrapped(before[k])
    ensures wrappedCount == |ChangedKeys(before, after)|
  {
    wrappedCount := 0;
    var pending := toWrap;
    after := before;
    ghost var done: set<ResourceLocation> := {};
    ghost var succeeded: set<ResourceLocation> := {};
    while pending != {}
      invariant pending <= toWrap && done == toWrap - pending
      invariant after.Keys == before.Keys
      invariant forall k :: k in before && k !in done ==> after[k] == before[k]
      invariant forall k :: k in done ==> after[k] == if wrapFails(k) then before[k] else Wrapped(before[k])
      invariant forall k :: k in succeeded <==> k in done && !wrapFails(k)
      invariant wrappedCount == |succeeded|
      decreases |pending|
    {
      var modelId :| modelId in pending;
      pending := pending - {modelId};
      done := done + {modelId};
      if !wrapFails(modelId) {
        var wrappedModel := WrapModel(before[modelId]);
        after := after[modelId := wrappedModel];
        succeeded := succeeded + {modelId};
        wrappedCount := wrappedCount + 1;
      }
    }
    ChangedAreWrapped(before, after, done, succeeded, wrapFails);
  }

  /** The two passes of the bake compute `Baked`. */
  lemma BakeLoopComputesBaked(before: map<ResourceLocation, Model>, after: map<ResourceLocation, Model>,
                              toWrap: set<ResourceLocation>, registered: set<ResourceLocation>,
                              wrapFails: ResourceLocation -> bool)
    requires forall k :: k in toWrap <==> k in before && !before[k].IsWrapped() && ShouldWrap(k, registered)
    requires after.Keys == before.Keys
    requires forall k :: k in before && k !in toWrap ==> after[k] == before[k]
    requires forall k :: k in toWrap ==> after[k] == if wrapFails(k) then before[k] else Wrapped(before[k])
    ensures after == Baked(before, registered, wrapFails)
  {
    var baked := Baked(before, registered, wrapFails);
    forall k | k in before
      ensures after[k] == baked[k]
    {
      if k in toWrap {
      } else {
      }
    }
  }

  /** The keys whose model a bake replaced. */
  function ChangedKeys(before: map<ResourceLocation, Model>, after: map<ResourceLocation, Model>): (r: set<ResourceLocation>)
    ensures forall k :: k in r <==> k in before && k in after && after[k] != before[k]
  {
    set k | k in before && k in after && after[k] != before[k]
  }

  /** The registry of models the bake event hands over; the bake replaces entries in place. */
  class ModelRegistry {
    var models: map<ResourceLocation, Model>

    constructor (models: map<ResourceLocation, Model>)
      ensures this.models == models
    {
      this.models := models;
    }
  }

  class ModelProvider {
    /** Block ids registered for dynamic-model handling. */
    var registered: set<ResourceLocation>

    constructor ()
      ensures registered == {}
    {
      registered := {};
    }

    method RegisterBlock(id: ResourceLocation)
      modifies this
      ensures registered == old(registered) + {id}
    {
      registered := registered + {id};
    }

    /** Registers a block by its registry key; a block without one is ignored. */
    method RegisterBlockOf(block: BlockInfo)
      modifies this
      ensures registered == old(registered) + (if block.key.Some? then {block.key.value} else {})
    {
      if block.key.Some? {
        RegisterBlock(block.key.value);
      }
    }

    /** Registers every block of `modId`'s namespace that is a copy block using dynamic models. */
    method AutoRegisterForMod(modId: string, entries: seq<RegistryEntry>)
      modifies this
      ensures registered == old(registered) + CopyBlockApi.MatchingIds(entries, modId)
    {
      for i := 0 to |entries|
        invariant registered == old(registered) + CopyBlockApi.MatchingIds(entries[..i], modId)
      {
        assert entries[..i + 1][..i] == entries[..i];
        var e := entries[i];
        if e.id.namespace == modId && e.block.copy.Some? && e.block.copy.value.dynamicModel {
          RegisterBlock(e.id);
        }
      }
      assert entries[..|entries|] == entries;
    }

    /** The addon search of the bake: a registered block whose models `modelId` matches, stopping at the first. */
    method MatchesRegisteredBlock(modelId: ResourceLocation) returns (found: bool)
      ensures found <==> exists b :: b in registered && AddonModelMatches(modelId, b)
    {
      if registered == {} {
        return false;
      }
      var remaining := registered;
      found := false;
      while remaining != {}
        invariant remaining <= registered
        invariant forall b :: b in registered - remaining ==> !AddonModelMatches(modelId, b)
        decreases |remaining|
      {
        var blockId :| blockId in remaining;
        remaining := remaining - {blockId};
        if modelId.namespace != blockId.namespace {
          continue;
        }
        var blockName := blockId.path;
        var modelName := LastSegment(modelId.path);
        if modelName == blockName || StartsWith(modelName, blockName + "_") {
          if !IsItemModelPath(modelId.path) {
            return true;
          }
        }
      }
    }

    /** The first pass of the bake: the ids whose models are not yet wrapped and match. */
    method CollectToWrap(models: map<ResourceLocation, Model>) returns (toWrap: set<ResourceLocation>)
      ensures forall k :: k in toWrap <==> k in models && !models[k].IsWrapped() && ShouldWrap(k, registered)
    {
      toWrap := {};
      var keys := models.Keys;
      while keys != {}
        invariant keys <= models.Keys
        invariant forall k :: k in toWrap <==> k in models.Keys - keys && !models[k].IsWrapped() && ShouldWrap(k, registered)
        decreases |keys|
      {
        var modelId :| modelId in keys;
        keys := keys - {modelId};
        var existingModel := models[modelId];
        if existingModel.IsWrapped() {
          continue;
        }
        var shouldWrap := LibraryModelMatches(modelId);
        if !shouldWrap && registered != {} {
          shouldWrap := MatchesRegisteredBlock(modelId);
        }
        if shouldWrap {
          toWrap := toWrap + {modelId};
        }
      }
    }

    /**
     * onModelBake: collects the ids to wrap, then replaces each one's model
     * by its wrapper and counts the replacements. `wrapFails` says which
     * wraps throw; those keep the original model.
     */
    method OnModelBake(registry: ModelRegistry, wrapFails: ResourceLocation -> bool) returns (wrappedCount: nat)
      modifies registry
      ensures registry.models == Baked(old(registry.models), registered, wrapFails)
      ensures wrappedCount == |ChangedKeys(old(registry.models), registry.models)|
    {
      var before := registry.models;
      var toWrap := CollectToWrap(before);
      var models;
      models, wrappedCount := WrapAll(before, toWrap, wrapFails);
      BakeLoopComputesBaked(before, models, toWrap, registered, wrapFails);
      registry.models := models;
    }

    /** getRegisteredBlocks: a snapshot of the registered ids. */
    method GetRegisteredBlocks() returns (snapshot: set<ResourceLocation>)
      ensures snapshot == registered
    {
      snapshot := registered;
    }

    method ClearRegistrations()
      modifies this
      ensures registered == {}
    {
      registered := {};
    }
  }
}
