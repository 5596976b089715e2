/**
 * Named binary tags: the key/value compounds block entities save into and
 * load from, and the block-state codec the game provides for them.
 */
module Nbt {
  import opened Wrappers
  import opened World

  /** The values the copy blocks store; a block state is stored as a compound. */
  datatype Value =
    | IntValue(i: int)
    | FloatValue(f: real)
    | DoubleValue(d: real)
    | StringValue(s: string)
    | StateValue(state: BlockState)
    | StackValue(stack: ItemStack)
  {
    /** The numeric tags, which every numeric getter converts. */
    predicate IsNumeric()
    {
      IntValue? || FloatValue? || DoubleValue?
    }
  }

  /**
   * Mth.floor: the (int) cast truncates toward zero and saturates, then one
   * is taken off when that rounded up. Below the int range the subtraction
   * wraps, so the result there is the largest int.
   */
  function JavaFloor(f: real): (r: int)
    ensures InInt32(r)
    ensures IntMin as real <= f < (IntMax + 1) as real ==> r == f.Floor
    ensures f >= (IntMax + 1) as real ==> r == IntMax
    ensures f < IntMin as real ==> r == IntMax
  {
    var truncated := if f >= 0.0 then f.Floor else -((-f).Floor);
    var i := Saturate32(truncated);
    if f < i as real then Wrap32(i - 1) else i
  }

  /** A compound tag, written in place by the save methods. */
  class CompoundTag {
    var entries: map<string, Value>

    constructor ()
      ensures entries == map[]
    {
      entries := map[];
    }

    method Put(key: string, v: Value)
      modifies this
      ensures entries == old(entries)[key := v]
    {
      entries := entries[key := v];
    }
  }

  /** getInt: an int as stored, a float or double floored; zero for a missing or non-numeric tag. */
  function GetInt(m: map<string, Value>, key: string): (r: int)
    ensures key in m && m[key].IntValue? ==> r == m[key].i
    ensures key in m && m[key].FloatValue? ==> r == JavaFloor(m[key].f)
    ensures key in m && m[key].DoubleValue? ==> r == JavaFloor(m[key].d)
    ensures !(key in m && m[key].IsNumeric()) ==> r == 0
  {
    if key in m then
      match m[key]
      case IntValue(i) => i
      case FloatValue(f) => JavaFloor(f)
      case DoubleValue(d) => JavaFloor(d)
      case _ => 0
    else 0
  }

  /** getFloat: any numeric tag as a float; zero for a missing or non-numeric tag. */
  function GetFloat(m: map<string, Value>, key: string): (r: real)
    ensures key in m && m[key].IntValue? ==> r == m[key].i as real
    ensures key in m && m[key].FloatValue? ==> r == m[key].f
    ensures key in m && m[key].DoubleValue? ==> r == m[key].d
    ensures !(key in m && m[key].IsNumeric()) ==> r == 0.0
  {
    if key in m then
      match m[key]
      case IntValue(i) => i as real
      case FloatValue(f) => f
      case DoubleValue(d) => d
      case _ => 0.0
    else 0.0
  }

  /** getDouble: any numeric tag as a double; zero for a missing or non-numeric tag. */
  function GetDouble(m: map<string, Value>, key: string): (r: real)
    ensures key in m && m[key].IntValue? ==> r == m[key].i as real
    ensures key in m && m[key].FloatValue? ==> r == m[key].f
    ensures key in m && m[key].DoubleValue? ==> r == m[key].d
    ensures !(key in m && m[key].IsNumeric()) ==> r == 0.0
  {
    if key in m then
      match m[key]
      case IntValue(i) => i as real
      case FloatValue(f) => f
      case DoubleValue(d) => d
      case _ => 0.0
    else 0.0
  }

  /** getString: empty when the key is missing or holds something else. */
  function GetString(m: map<string, Value>, key: string): (r: string)
    ensures key in m && m[key].StringValue? ==> r == m[key].s
    ensures r != "" ==> key in m && m[key] == StringValue(r)
  {
    if key in m && m[key].StringValue? then m[key].s else ""
  }

  /** ItemStack.of(getCompound(key)): the empty stack when nothing was stored. */
  function GetStack(m: map<string, Value>, key: string): (r: ItemStack)
    ensures key in m && m[key].StackValue? ==> r == m[key].stack
    ensures r != EmptyStack ==> key in m && m[key] == StackValue(r)
  {
    if key in m && m[key].StackValue? then m[key].stack else EmptyStack
  }

  /**
   * readBlockState(lookup, getCompound(key)). A missing compound has no
   * block name and reads as air. A named state is resolved through the
   * block lookup: with no lookup the call throws (None); a block the
   * registry does not know reads as air. `registry` maps each registered
   * block.
   */
  function ReadBlockState(hasLookup: bool, registry: set<BlockId>,
                          m: map<string, Value>, key: string): (r: Option<BlockState>)
    ensures !(key in m && m[key].StateValue?) ==> r == Some(AirState)
    ensures key in m && m[key].StateValue? && !hasLookup ==> r.None?
    ensures key in m && m[key].StateValue? && hasLookup ==>
      r == Some(if m[key].state.block in registry then m[key].state else AirState)
    ensures r.Some? && r.value != AirState ==> key in m && m[key].StateValue? && r.value == m[key].state
  {
    if !(key in m && m[key].StateValue?) then Some(AirState)
    else if !hasLookup then None
    else if m[key].state.block in registry then Some(m[key].state)
    else Some(AirState)
  }

  /**
   * BLOCK.get(new ResourceLocation(id)).defaultBlockState(): a malformed
   * name throws (None); a well-formed name the registry does not know
   * resolves to air.
   */
  function ResolveBlockId(registry: set<BlockId>, id: string): (r: Option<BlockState>)
    ensures ParseResourceLocation(id).None? <==> r.None?
    ensures ParseResourceLocation(id).Some? ==>
      var name := ParseResourceLocation(id).value.ToString();
      r == Some(if name in registry then DefaultState(name) else AirState)
    ensures r.Some? && !r.value.IsAir() ==> r.value.block in registry && r.value == DefaultState(r.value.block)
  {
    match ParseResourceLocation(id)
    case None => None
    case Some(rl) => if rl.ToString() in registry then Some(DefaultState(rl.ToString())) else Some(AirState)
  }

  /** A registry name already in the "namespace:path" form it parses to. */
  predicate CanonicalId(b: BlockId)
  {
    ParseResourceLocation(b).Some? && ParseResourceLocation(b).value.ToString() == b
  }
}
