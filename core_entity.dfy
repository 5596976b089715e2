/**
 * The consumed-item copy-block entity: it records the material block
 * state, the exact item stack consumed to apply it (returned when the
 * material is removed) and the shape's volume factor, and derives a mass.
 */
module CoreEntity {
  import opened Wrappers
  import opened World
  import opened Nbt

  const MaterialKey := "Material"
  const ConsumedItemKey := "ConsumedItem"
  const VolumeFactorKey := "VolumeFactor"

  /** The mass reported for a block with no material. */
  const DefaultMass: real := 100.0

  datatype Record = Record(material: BlockState, consumed: ItemStack, volumeFactor: real)

  /** A new entity, and the state `clearMaterial` returns to. */
  const Empty := Record(AirState, EmptyStack, 1.0)

  predicate HasMaterial(rec: Record)
  {
    !rec.material.IsAir()
  }

  /** The model data handed to the renderer: the material property only when there is a material. */
  function ModelMaterial(rec: Record): (r: Option<BlockState>)
    ensures r.Some? <==> HasMaterial(rec)
    ensures r.Some? ==> r.value == rec.material
  {
    if HasMaterial(rec) then Some(rec.material) else None
  }

  /**
   * The fallback mass band for a material's hardness: unbreakable blocks
   * (negative hardness) weigh 1000, instantly broken ones 1, and breakable
   * ones 10, 50, 100 or 200 as hardness crosses 0.5, 2 and 5.
   */
  function HardnessMass(hardness: real): (m: real)
    ensures m == 1000.0 <==> hardness < 0.0
    ensures m == 1.0 <==> hardness == 0.0
    ensures 1.0 <= m <= 1000.0
  {
    if hardness < 0.0 then 1000.0
    else if hardness == 0.0 then 1.0
    else if hardness < 0.5 then 10.0
    else if hardness < 2.0 then 50.0
    else if hardness < 5.0 then 100.0
    else 200.0
  }

  /** Among breakable materials, a harder block never weighs less. */
  lemma HardnessMassMonotone(h1: real, h2: real)
    requires 0.0 <= h1 <= h2
    ensures HardnessMass(h1) <= HardnessMass(h2)
  {
  }

  /**
   * getMass. `backendMass` is what the physics backend reports for the
   * material (None when the backend is absent or the query fails);
   * `hardness` is the material's destroy speed.
   */
  function Mass(rec: Record, backendMass: Option<real>, hardness: real): (m: real)
    ensures !HasMaterial(rec) ==> m == DefaultMass
    ensures HasMaterial(rec) && backendMass.Some? && backendMass.value > 0.0 ==>
      m == backendMass.value * rec.volumeFactor
    ensures HasMaterial(rec) && !(backendMass.Some? && backendMass.value > 0.0) ==>
      m == HardnessMass(hardness) * rec.volumeFactor
    ensures HasMaterial(rec) && rec.volumeFactor > 0.0 ==> m > 0.0
  {
    if !HasMaterial(rec) then DefaultMass
    else if backendMass.Some? && backendMass.value > 0.0 then backendMass.value * rec.volumeFactor
    else HardnessMass(hardness) * rec.volumeFactor
  }

  /** The mass of a material scales linearly with the shape's volume factor. */
  lemma MassScalesWithVolume(rec: Record, backendMass: Option<real>, hardness: real)
    requires HasMaterial(rec)
    ensures Mass(rec, backendMass, hardness) == rec.volumeFactor * Mass(rec.(volumeFactor := 1.0), backendMass, hardness)
  {
  }

  /** saveAdditional: all three fields, always. */
  function SaveEntries(rec: Record, m: map<string, Value>): (r: map<string, Value>)
    ensures r.Keys == m.Keys + {MaterialKey, ConsumedItemKey, VolumeFactorKey}
  {
    m[MaterialKey := StateValue(rec.material)][ConsumedItemKey := StackValue(rec.consumed)][VolumeFactorKey := DoubleValue(rec.volumeFactor)]
  }

  /**
   * load with or without a block lookup; None when reading the material
   * throws. A missing volume factor reads as 0.
   */
  function LoadWith(m: map<string, Value>, hasLookup: bool, registry: set<BlockId>): (r: Option<Record>)
    ensures r.Some? ==> r.value.volumeFactor == GetDouble(m, VolumeFactorKey) && r.value.consumed == GetStack(m, ConsumedItemKey)
    ensures MaterialKey !in m ==> r == Some(Record(AirState, GetStack(m, ConsumedItemKey), GetDouble(m, VolumeFactorKey)))
    ensures r.None? <==> MaterialKey in m && m[MaterialKey].StateValue? && !hasLookup
    ensures r.Some? && !(MaterialKey in m && m[MaterialKey].StateValue?) ==> r.value.material == AirState
    ensures r.Some? && MaterialKey in m && m[MaterialKey].StateValue? ==>
      r.value.material == if m[MaterialKey].state.block in registry then m[MaterialKey].state else AirState
  {
    match ReadBlockState(hasLookup, registry, m, MaterialKey)
    case None => None
    case Some(material) => Some(Record(material, GetStack(m, ConsumedItemKey), GetDouble(m, VolumeFactorKey)))
  }

  /** load as written reads the material with no block lookup. */
  function LoadRecord(m: map<string, Value>, registry: set<BlockId>): Option<Record>
  {
    LoadWith(m, false, registry)
  }

  /**
   * As written, nothing this entity saves can be loaded again: the saved
   * material is always a named state, and a named state cannot be read
   * without a block lookup, so `load` throws even for an empty entity.
   */
  lemma SavedRecordNeverLoads(rec: Record, registry: set<BlockId>)
    ensures LoadRecord(SaveEntries(rec, map[]), registry).None?
  {
  }

  /** With the level's block lookup, save then load restores every field. */
  lemma IntendedSaveThenLoad(rec: Record, registry: set<BlockId>)
    requires rec.material.IsAir() ==> rec.material == AirState
    requires !rec.material.IsAir() ==> rec.material.block in registry
    ensures LoadWith(SaveEntries(rec, map[]), true, registry) == Some(rec)
  {
  }

  /** What a change of material asks the level to do. */
  datatype Notice = NoNotice | SendToClients | RefreshModel

  function NoticeFor(side: Side): (n: Notice)
    ensures n == SendToClients <==> side == ServerSide
    ensures n == RefreshModel <==> side == ClientSide
  {
    match side
    case NoLevel => NoNotice
    case ServerSide => SendToClients
    case ClientSide => RefreshModel
  }

  /** The consumed-item copy-block entity. */
  class CopyBlockEntity {
    var material: BlockState
    var consumedItem: ItemStack
    var volumeFactor: real

    function State(): Record
      reads this
    {
      Record(material, consumedItem, volumeFactor)
    }

    constructor ()
      ensures State() == Empty
    {
      material := AirState;
      consumedItem := EmptyStack;
      volumeFactor := 1.0;
    }

    /** Records the material, a copy of the consumed stack and the volume factor. */
    method SetMaterial(m: BlockState, consumed: ItemStack, vf: real, side: Side) returns (notice: Notice)
      modifies this
      ensures State() == Record(m, consumed, vf)
      ensures notice == NoticeFor(side)
    {
      material := m;
      consumedItem := consumed;
      volumeFactor := vf;
      notice := NoticeFor(side);
    }

    method ClearMaterial(side: Side) returns (notice: Notice)
      modifies this
      ensures State() == Empty
      ensures notice == NoticeFor(side)
    {
      material := AirState;
      consumedItem := EmptyStack;
      volumeFactor := 1.0;
      notice := NoticeFor(side);
    }

    function HasMaterial(): (b: bool)
      reads this
      ensures b <==> ModelMaterial(State()).Some?
    {
      !material.IsAir()
    }

    function GetMass(backendMass: Option<real>, hardness: real): (m: real)
      reads this
      ensures HasMaterial() && volumeFactor > 0.0 ==> m > 0.0
      ensures !HasMaterial() ==> m == DefaultMass
    {
      Mass(State(), backendMass, hardness)
    }

    method SaveAdditional(tag: CompoundTag)
      modifies tag
      ensures tag.entries == SaveEntries(State(), old(tag.entries))
    {
      tag.Put(MaterialKey, StateValue(material));
      tag.Put(ConsumedItemKey, StackValue(consumedItem));
      tag.Put(VolumeFactorKey, DoubleValue(volumeFactor));
    }

    /** load as written; when reading the material throws, no field changes. */
    method Load(tag: CompoundTag, registry: set<BlockId>) returns (thrown: bool)
      modifies this
      ensures thrown <==> LoadRecord(tag.entries, registry).None?
      ensures thrown ==> State() == old(State())
      ensures !thrown ==> State() == LoadRecord(tag.entries, registry).value
    {
      var read := ReadBlockState(false, registry, tag.entries, MaterialKey);
      if read.None? {
        return true;
      }
      material := read.value;
      consumedItem := GetStack(tag.entries, ConsumedItemKey);
      volumeFactor := GetDouble(tag.entries, VolumeFactorKey);
      return false;
    }
  }
}
