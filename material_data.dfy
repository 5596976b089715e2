/**
 * A snapshot of a material's physical properties (hardness, explosion
 * resistance, mass) taken when the material is set, so later queries need
 * not consult the material again.
 */
module MaterialSnapshot {
  import opened Wrappers
  import opened World
  import opened Nbt

  const MaterialKey := "Material"
  const HardnessKey := "Hardness"
  const ResistanceKey := "Resistance"
  const MassKey := "Mass"

  /** The mass estimate used when the physics backend gives none. */
  const EstimatedMass: real := 100.0

  datatype Snapshot = Snapshot(material: BlockState, hardness: real, resistance: real, mass: real)

  /** The reset values: no material, hardness 2, resistance 6, mass 100. */
  const Reset := Snapshot(AirState, 2.0, 6.0, 100.0)

  predicate HoldsMaterial(s: Snapshot)
  {
    !s.material.IsAir()
  }

  /** getMassFromVS2: the backend's positive mass, otherwise the estimate. */
  function BackendOrEstimate(backendMass: Option<real>): (m: real)
    ensures m > 0.0
    ensures backendMass.Some? && backendMass.value > 0.0 ==> m == backendMass.value
    ensures !(backendMass.Some? && backendMass.value > 0.0) ==> m == EstimatedMass
  {
    if backendMass.Some? && backendMass.value > 0.0 then backendMass.value else EstimatedMass
  }

  /**
   * setMaterial followed by captureProperties. An absent or air state
   * resets everything; otherwise the hardness is the destroy speed with
   * every negative value normalised to -1, the resistance is the block's,
   * and the mass is scaled by the volume factor.
   */
  function Captured(state: Option<BlockState>, volumeFactor: real, destroySpeed: real,
                    resistance: real, backendMass: Option<real>): (s: Snapshot)
    ensures state.None? || state.value.IsAir() ==> s == Reset
    ensures state.Some? && !state.value.IsAir() ==>
      s.material == state.value && s.resistance == resistance
      && s.hardness >= -1.0 && (s.hardness < 0.0 <==> destroySpeed < 0.0)
      && (destroySpeed >= 0.0 ==> s.hardness == destroySpeed)
      && (destroySpeed < 0.0 ==> s.hardness == -1.0)
      && s.mass == BackendOrEstimate(backendMass) * volumeFactor
    ensures volumeFactor > 0.0 ==> s.mass > 0.0
  {
    if state.None? || state.value.IsAir() then Reset
    else Snapshot(state.value,
                  if destroySpeed < 0.0 then -1.0 else destroySpeed,
                  resistance,
                  BackendOrEstimate(backendMass) * volumeFactor)
  }

  function SaveEntries(s: Snapshot, m: map<string, Value>): (r: map<string, Value>)
    ensures r.Keys == m.Keys + {MaterialKey, HardnessKey, ResistanceKey, MassKey}
  {
    m[MaterialKey := StateValue(s.material)][HardnessKey := FloatValue(s.hardness)]
     [ResistanceKey := FloatValue(s.resistance)][MassKey := DoubleValue(s.mass)]
  }

  /** load with or without a block lookup; None when reading the material throws. */
  function LoadWith(m: map<string, Value>, hasLookup: bool, registry: set<BlockId>): (r: Option<Snapshot>)
    ensures r.Some? ==> r.value.hardness == GetFloat(m, HardnessKey)
    ensures r.Some? ==> r.value.resistance == GetFloat(m, ResistanceKey) && r.value.mass == GetDouble(m, MassKey)
    ensures MaterialKey !in m ==> r.Some? && r.value.material == AirState
    ensures r.None? <==> MaterialKey in m && m[MaterialKey].StateValue? && !hasLookup
    ensures r.Some? && !(MaterialKey in m && m[MaterialKey].StateValue?) ==> r.value.material == AirState
    ensures r.Some? && MaterialKey in m && m[MaterialKey].StateValue? ==>
      r.value.material == if m[MaterialKey].state.block in registry then m[MaterialKey].state else AirState
  {
    match ReadBlockState(hasLookup, registry, m, MaterialKey)
    case None => None
    case Some(material) =>
      Some(Snapshot(material, GetFloat(m, HardnessKey), GetFloat(m, ResistanceKey), GetDouble(m, MassKey)))
  }

  /** As written the material is read with no block lookup: no saved snapshot loads. */
  lemma SavedSnapshotNeverLoads(s: Snapshot, registry: set<BlockId>)
    ensures LoadWith(SaveEntries(s, map[]), false, registry).None?
  {
  }

  /** With a block lookup every field survives save then load. */
  lemma IntendedSaveThenLoad(s: Snapshot, registry: set<BlockId>)
    requires s.material.IsAir() ==> s.material == AirState
    requires !s.material.IsAir() ==> s.material.block in registry
    ensures LoadWith(SaveEntries(s, map[]), true, registry) == Some(s)
  {
  }

  class MaterialData {
    var material: BlockState
    var hardness: real
    var explosionResistance: real
    var mass: real

    function State(): Snapshot
      reads this
    {
      Snapshot(material, hardness, explosionResistance, mass)
    }

    constructor ()
      ensures State() == Reset
    {
      material := AirState;
      hardness := 2.0;
      explosionResistance := 6.0;
      mass := 100.0;
    }

    method ResetAll()
      modifies this
      ensures State() == Reset
    {
      material := AirState;
      hardness := 2.0;
      explosionResistance := 6.0;
      mass := 100.0;
    }

    /**
     * Records `state` (None for a null state) and captures its properties;
     * the destroy speed, resistance and backend mass are the game's
     * answers for that state.
     */
    method SetMaterial(state: Option<BlockState>, volumeFactor: real, destroySpeed: real,
                       resistance: real, backendMass: Option<real>)
      modifies this
      ensures State() == Captured(state, volumeFactor, destroySpeed, resistance, backendMass)
    {
      material := if state.Some? then state.value else AirState;
      if state.None? || state.value.IsAir() {
        ResetAll();
        return;
      }
      hardness := if destroySpeed < 0.0 then -1.0 else destroySpeed;
      explosionResistance := resistance;
      mass := BackendOrEstimate(backendMass) * volumeFactor;
    }

    function HasMaterial(): (b: bool)
      reads this
      ensures b <==> HoldsMaterial(State())
    {
      !material.IsAir()
    }

    method Save(tag: CompoundTag)
      modifies tag
      ensures tag.entries == SaveEntries(State(), old(tag.entries))
    {
      tag.Put(MaterialKey, StateValue(material));
      tag.Put(HardnessKey, FloatValue(hardness));
      tag.Put(ResistanceKey, FloatValue(explosionResistance));
      tag.Put(MassKey, DoubleValue(mass));
    }

    /** load as written; when reading the material throws, no field changes. */
    method Load(tag: CompoundTag, registry: set<BlockId>) returns (thrown: bool)
      modifies this
      ensures thrown <==> LoadWith(tag.entries, false, registry).None?
      ensures thrown ==> State() == old(State())
      ensures !thrown ==> State() == LoadWith(tag.entries, false, registry).value
    {
      var read := ReadBlockState(false, registry, tag.entries, MaterialKey);
      if read.None? {
        return true;
      }
      material := read.value;
      hardness := GetFloat(tag.entries, HardnessKey);
      explosionResistance := GetFloat(tag.entries, ResistanceKey);
      mass := GetDouble(tag.entries, MassKey);
      return false;
    }
  }
}
