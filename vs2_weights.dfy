/**
 * Ship-mass delegation for the legacy copy block variants: a weights
 * provider that reads a per-thread context, a mixin that rewrites the
 * backend's own lookup, and a mixin that scales the assembled mass. Each
 * scales the copied block's mass by the variant's multiplier.
 */
module Vs2Weights {
  import opened Wrappers
  import opened World

  /** The backend's block classification (solid, air, ...), opaque here. */
  datatype BlockType = BlockType(name: string)

  /** What the backend's state-info lookup returns: a mass (possibly absent) and a type. */
  datatype StateInfo = StateInfo(mass: Option<real>, blockType: BlockType)

  /** Higher than the backend's default provider (100), so this provider is asked first. */
  const Priority: int := 1000

  /** The legacy copy entity at a position shows a non-air copy; that copy. */
  function LegacyCopied(e: Option<BlockEntityView>): (r: Option<BlockState>)
    ensures r.Some? <==> e.Some? && e.value.CopyEntity? && e.value.kind == LegacyCopy && !e.value.copied.IsAir()
    ensures r.Some? ==> r.value == e.value.copied
  {
    if e.Some? && e.value.CopyEntity? && e.value.kind == LegacyCopy && !e.value.copied.IsAir()
    then Some(e.value.copied) else None
  }

  /**
   * The weights provider and its per-thread context. `variant` is the
   * queried block's mass multiplier when it is a legacy copy variant, and
   * `backend` the backend's lookup for other states.
   */
  class CopyCraftWeights {
    var level: Level?
    var pos: Option<Pos>

    constructor ()
      ensures level == null && pos.None?
    {
      level := null;
      pos := None;
    }

    method SetContext(l: Level, p: Pos)
      modifies this
      ensures level == l && pos == Some(p)
    {
      level := l;
      pos := Some(p);
    }

    method ClearContext()
      modifies this
      ensures level == null && pos.None?
    {
      level := null;
      pos := None;
    }

    /** The copy the context points at, if any. */
    function ContextCopy(): (r: Option<BlockState>)
      reads this, level
      ensures r.Some? ==> level != null && pos.Some? && LegacyCopied(level.EntityAt(pos.value)) == r
    {
      if level != null && pos.Some? then LegacyCopied(level.EntityAt(pos.value)) else None
    }

    /**
     * getBlockStateMass: the copied block's backend mass times the variant
     * multiplier; absent for a non-variant block, no context, no legacy
     * copy entity, an air copy, or no backend mass.
     */
    function GetBlockStateMass(variant: Option<real>, backend: BlockState -> Option<StateInfo>): (r: Option<real>)
      reads this, level
      ensures r.Some? <==> variant.Some? && ContextCopy().Some? && backend(ContextCopy().value).Some?
                           && backend(ContextCopy().value).value.mass.Some?
      ensures r.Some? ==> r.value == backend(ContextCopy().value).value.mass.value * variant.value
    {
      if variant.None? then None
      else
        var copied := ContextCopy();
        if copied.None? then None
        else
          var info := backend(copied.value);
          if info.None? || info.value.mass.None? then None
          else Some(info.value.mass.value * variant.value)
    }

    /** getBlockStateType: the copied block's backend type, under the same guards except that the mass may be absent. */
    function GetBlockStateType(variant: Option<real>, backend: BlockState -> Option<StateInfo>): (r: Option<BlockType>)
      reads this, level
      ensures r.Some? <==> variant.Some? && ContextCopy().Some? && backend(ContextCopy().value).Some?
      ensures r.Some? ==> r.value == backend(ContextCopy().value).value.blockType
    {
      if variant.None? then None
      else
        var copied := ContextCopy();
        if copied.None? then None
        else
          var info := backend(copied.value);
          if info.None? then None else Some(info.value.blockType)
    }

    /**
     * The alternative mixin on the backend's own lookup: the same answer as
     * the provider, as one pair; None lets the backend answer for itself.
     */
    function InterceptStateInfo(variant: Option<real>, backend: BlockState -> Option<StateInfo>): (r: Option<(real, BlockType)>)
      reads this, level
      ensures r.Some? ==> variant.Some? && ContextCopy().Some?
    {
      if variant.None? then None
      else
        var copied := ContextCopy();
        if copied.None? then None
        else
          var info := backend(copied.value);
          if info.None? || info.value.mass.None? then None
          else Some((info.value.mass.value * variant.value, info.value.blockType))
    }
  }

  /** Whenever the provider reports a mass it also reports a type. */
  lemma MassImpliesType(w: CopyCraftWeights, variant: Option<real>, backend: BlockState -> Option<StateInfo>)
    ensures w.GetBlockStateMass(variant, backend).Some? ==> w.GetBlockStateType(variant, backend).Some?
  {
  }

  /** The alternative mixin answers exactly when the provider reports a mass, and with the provider's mass and type. */
  lemma InterceptAgreesWithProvider(w: CopyCraftWeights, variant: Option<real>, backend: BlockState -> Option<StateInfo>)
    ensures w.InterceptStateInfo(variant, backend).Some? <==> w.GetBlockStateMass(variant, backend).Some?
    ensures w.InterceptStateInfo(variant, backend).Some? ==>
              w.InterceptStateInfo(variant, backend).value
              == (w.GetBlockStateMass(variant, backend).value, w.GetBlockStateType(variant, backend).value)
  {
  }

  /** After clearing the context no state has a delegated mass. */
  lemma ClearedContextDelegatesNothing(w: CopyCraftWeights, variant: Option<real>, backend: BlockState -> Option<StateInfo>)
    requires w.level == null
    ensures w.GetBlockStateMass(variant, backend).None? && w.GetBlockStateType(variant, backend).None?
    ensures w.InterceptStateInfo(variant, backend).None?
  {
  }

  /**
   * The mixin on the backend's assembled block mass: a legacy variant whose
   * entity holds a non-air copy has the returned mass scaled by its
   * multiplier; everything else keeps the returned mass.
   */
  function ModifyMass(variant: Option<real>, e: Option<BlockEntityView>, original: real): (r: real)
    ensures variant.None? || LegacyCopied(e).None? ==> r == original
    ensures variant.Some? && LegacyCopied(e).Some? ==> r == original * variant.value
  {
    if variant.Some? && LegacyCopied(e).Some? then original * variant.value else original
  }

  /** A full-size variant (multiplier 1) leaves the assembled mass unchanged; a half variant halves it. */
  lemma ModifyMassScales(e: Option<BlockEntityView>, original: real)
    ensures ModifyMass(Some(1.0), e, original) == original
    ensures LegacyCopied(e).Some? ==> ModifyMass(Some(0.5), e, original) + ModifyMass(Some(0.5), e, original) == original
  {
  }
}
