/**
 * Applying and removing a material on a consumed-item copy block, and the
 * block behaviour that follows the material: mining progress, explosion
 * resistance and the refund of the consumed item when the block goes.
 */
module CoreBlock {
  import opened Wrappers
  import opened World
  import opened CoreEntity

  datatype ApplyOutcome = ApplyOutcome(applied: bool, after: Record, held: ItemStack, drop: Option<ItemStack>)

  /** The held item is a block other than a copy block, and the position holds a copy-block entity. */
  predicate Accepts(hasEntity: bool, held: ItemStack, isCopyBlock: BlockId -> bool)
  {
    hasEntity && held.GetItem().BlockItem? && !isCopyBlock(held.GetItem().block)
  }

  /**
   * applyMaterial, as written. `hasEntity` says whether the position holds
   * a consumed-item copy-block entity (with record `rec`); `isCopyBlock`
   * recognises copy blocks; `volumeFactor` is the shape's factor. The
   * stack the entity records is the held stack as it was before one item
   * is taken from it.
   */
  function Apply(isClient: bool, hasEntity: bool, rec: Record, shift: bool, creative: bool,
                 held: ItemStack, isCopyBlock: BlockId -> bool, volumeFactor: real): (r: ApplyOutcome)
    ensures !Accepts(hasEntity, held, isCopyBlock) ==> r == ApplyOutcome(false, rec, held, None)
    ensures Accepts(hasEntity, held, isCopyBlock) ==> (r.applied <==> shift || !HasMaterial(rec))
    ensures !isClient && Accepts(hasEntity, held, isCopyBlock) && shift && HasMaterial(rec) ==>
      r == ApplyOutcome(true, Empty, held, if creative then None else Some(rec.consumed))
    ensures !isClient && Accepts(hasEntity, held, isCopyBlock) && !HasMaterial(rec) ==>
      r == ApplyOutcome(true, Record(DefaultState(held.GetItem().block), held, volumeFactor),
                        if creative then held else held.Shrink(1), None)
    ensures isClient ==> r.after == rec && r.held == held && r.drop.None?
    ensures r.after != rec || r.held != held || r.drop.Some? ==> r.applied
    ensures HasMaterial(rec) && !shift ==> !r.applied
    ensures r.drop.Some? ==> r.drop.value == rec.consumed && r.after == Empty && !creative && shift
    ensures HasMaterial(r.after) && r.after != rec ==>
      !HasMaterial(rec) && r.after == Record(DefaultState(held.GetItem().block), held, volumeFactor)
    ensures r.held != held ==> r.held == held.Shrink(1) && !creative
  {
    var item := held.GetItem();
    if !item.BlockItem? then ApplyOutcome(false, rec, held, None)
    else if isCopyBlock(item.block) then ApplyOutcome(false, rec, held, None)
    else if !hasEntity then ApplyOutcome(false, rec, held, None)
    else if shift && HasMaterial(rec) then
      if isClient then ApplyOutcome(true, rec, held, None)
      else ApplyOutcome(true, Empty, held, if creative then None else Some(rec.consumed))
    else if HasMaterial(rec) then ApplyOutcome(false, rec, held, None)
    else if isClient then ApplyOutcome(true, rec, held, None)
    else ApplyOutcome(true, Record(DefaultState(item.block), held, volumeFactor),
                      if creative then held else held.Shrink(1), None)
  }

  /**
   * As written, a survival player who applies a material from a stack of
   * `n` items and then removes it gets the whole recorded stack back: `n`
   * items returned for the one taken, so every stack larger than one
   * item is duplicated.
   */
  lemma AsWrittenRefundsWholeStack(held: ItemStack, remover: ItemStack, isCopyBlock: BlockId -> bool)
    requires held.GetItem().BlockItem? && !isCopyBlock(held.GetItem().block)
    requires remover.GetItem().BlockItem? && !isCopyBlock(remover.GetItem().block)
    requires !IsAirId(held.GetItem().block)
    ensures var a := Apply(false, true, Empty, false, false, held, isCopyBlock, 1.0);
            var b := Apply(false, true, a.after, true, false, remover, isCopyBlock, 1.0);
            a.held.count == held.count - 1 && b.drop == Some(held)
  {
  }

  /** applyMaterial as evidently intended: the entity records the one item consumed. */
  function ApplyIntended(isClient: bool, hasEntity: bool, rec: Record, shift: bool, creative: bool,
                         held: ItemStack, isCopyBlock: BlockId -> bool, volumeFactor: real): (r: ApplyOutcome)
    ensures r.applied && r.after != rec && HasMaterial(r.after) ==> r.after.consumed == held.(count := 1)
  {
    var a := Apply(isClient, hasEntity, rec, shift, creative, held, isCopyBlock, volumeFactor);
    if a.applied && a.after != rec && HasMaterial(a.after) then a.(after := a.after.(consumed := held.(count := 1)))
    else a
  }

  /**
   * With the intended record, applying a material and removing it again
   * conserves items: what stays in hand plus what is refunded is exactly
   * the stack the player started with.
   */
  lemma IntendedConservesItems(held: ItemStack, remover: ItemStack, isCopyBlock: BlockId -> bool)
    requires held.GetItem().BlockItem? && !isCopyBlock(held.GetItem().block)
    requires remover.GetItem().BlockItem? && !isCopyBlock(remover.GetItem().block)
    requires !IsAirId(held.GetItem().block)
    ensures var a := ApplyIntended(false, true, Empty, false, false, held, isCopyBlock, 1.0);
            var b := ApplyIntended(false, true, a.after, true, false, remover, isCopyBlock, 1.0);
            b.drop.Some? && b.drop.value.item == held.item && a.held.count + b.drop.value.count == held.count
  {
  }

  /**
   * getCopyBlockDestroyProgress: with a material, an unbreakable material
   * (negative hardness) gives no progress, a zero-hardness one breaks at
   * once, and otherwise the player's speed divided by hardness and 30;
   * without one, -1 asks for the default.
   */
  function CopyDestroyProgress(entity: Option<Record>, hardness: real, speed: real): (p: real)
    ensures entity.None? || !HasMaterial(entity.value) ==> p == -1.0
    ensures entity.Some? && HasMaterial(entity.value) && hardness < 0.0 ==> p == 0.0
    ensures entity.Some? && HasMaterial(entity.value) && hardness == 0.0 ==> p == 1.0
    ensures entity.Some? && HasMaterial(entity.value) && speed >= 0.0 ==> p >= 0.0
    ensures entity.Some? && HasMaterial(entity.value) && hardness > 0.0 ==> p * hardness * 30.0 == speed
  {
    if entity.Some? && HasMaterial(entity.value) then
      if hardness < 0.0 then 0.0
      else if hardness == 0.0 then 1.0
      else speed / hardness / 30.0
    else -1.0
  }

  /** getDestroyProgress: the material's progress when there is one, the default progress otherwise. */
  function DestroyProgress(entity: Option<Record>, hardness: real, speed: real, fallback: real): (p: real)
    ensures entity.Some? && HasMaterial(entity.value) && speed >= 0.0 ==> p == CopyDestroyProgress(entity, hardness, speed)
    ensures entity.None? || !HasMaterial(entity.value) ==> p == fallback
  {
    var progress := CopyDestroyProgress(entity, hardness, speed);
    if progress >= 0.0 then progress else fallback
  }

  /** getCopyBlockExplosionResistance: the material block's resistance, or -1 for the default. */
  function CopyExplosionResistance(entity: Option<Record>, materialResistance: real): (r: real)
    ensures entity.Some? && HasMaterial(entity.value) ==> r == materialResistance
    ensures entity.None? || !HasMaterial(entity.value) ==> r < 0.0
  {
    if entity.Some? && HasMaterial(entity.value) then materialResistance else -1.0
  }

  /** getExplosionResistance: resists like the material when there is one. */
  function ExplosionResistance(entity: Option<Record>, materialResistance: real, fallback: real): (r: real)
    ensures entity.Some? && HasMaterial(entity.value) && materialResistance >= 0.0 ==> r == materialResistance
    ensures entity.None? || !HasMaterial(entity.value) ==> r == fallback
  {
    var resistance := CopyExplosionResistance(entity, materialResistance);
    if resistance >= 0.0 then resistance else fallback
  }

  /** onRemove: replacing the block by another refunds the consumed item of a filled entity. */
  function RemovalDrop(oldBlock: BlockId, newBlock: BlockId, entity: Option<Record>): (d: Option<ItemStack>)
    ensures d.Some? <==> oldBlock != newBlock && entity.Some? && HasMaterial(entity.value)
    ensures d.Some? ==> d.value == entity.value.consumed
  {
    if oldBlock != newBlock && entity.Some? && HasMaterial(entity.value) then Some(entity.value.consumed) else None
  }

  /** playerWillDestroy: a creative player's break clears the material first. */
  function BeforeBreak(creative: bool, entity: Option<Record>): (e: Option<Record>)
    ensures creative && entity.Some? ==> e == Some(Empty)
    ensures !creative ==> e == entity
  {
    if creative && entity.Some? then Some(Empty) else entity
  }

  /** Breaking in creative refunds nothing; breaking in survival refunds the consumed item. */
  lemma BreakRefund(creative: bool, copyBlock: BlockId, rec: Record)
    requires copyBlock != AIR && HasMaterial(rec)
    ensures RemovalDrop(copyBlock, AIR, BeforeBreak(creative, Some(rec))) == if creative then None else Some(rec.consumed)
  {
  }

  /** The player's held stack, changed in place when an item is consumed. */
  class HeldStack {
    var stack: ItemStack

    constructor (s: ItemStack)
      ensures stack == s
    {
      stack := s;
    }

    method Shrink(n: int)
      modifies this
      ensures stack == old(stack).Shrink(n)
    {
      stack := stack.Shrink(n);
    }
  }

  /**
   * applyMaterial on the entity at the position (null when it is not a
   * consumed-item copy-block entity); returns whether it acted and what
   * was dropped into the world.
   */
  method ApplyMaterial(isClient: bool, entity: CopyBlockEntity?, shift: bool, creative: bool, hand: HeldStack,
                       isCopyBlock: BlockId -> bool, volumeFactor: real)
    returns (applied: bool, drop: Option<ItemStack>)
    modifies entity, hand
    ensures entity == null ==> !applied && drop.None? && hand.stack == old(hand.stack)
    ensures entity != null ==>
      ApplyOutcome(applied, entity.State(), hand.stack, drop)
      == Apply(isClient, true, old(entity.State()), shift, creative, old(hand.stack), isCopyBlock, volumeFactor)
  {
    var item := hand.stack.GetItem();
    if !item.BlockItem? {
      return false, None;
    }
    var material := DefaultState(item.block);
    if isCopyBlock(material.block) {
      return false, None;
    }
    if entity == null {
      return false, None;
    }
    if shift && entity.HasMaterial() {
      drop := None;
      if !isClient {
        if !creative {
          drop := Some(entity.consumedItem);
        }
        var _ := entity.ClearMaterial(ServerSide);
      }
      return true, drop;
    }
    if entity.HasMaterial() {
      return false, None;
    }
    if !isClient {
      var _ := entity.SetMaterial(material, hand.stack, volumeFactor, ServerSide);
      if !creative {
        hand.Shrink(1);
      }
    }
    return true, None;
  }

  /** The consumed-item copy block's volume factor: a full block. */
  const FullVolumeFactor: real := 1.0

  /** use: SUCCESS when the material was applied or removed, PASS otherwise. */
  method Use(isClient: bool, entity: CopyBlockEntity?, shift: bool, creative: bool, hand: HeldStack,
             isCopyBlock: BlockId -> bool)
    returns (result: InteractionResult, drop: Option<ItemStack>)
    modifies entity, hand
    ensures result == Success || result == Pass
    ensures entity != null ==>
      var a := Apply(isClient, true, old(entity.State()), shift, creative, old(hand.stack), isCopyBlock, FullVolumeFactor);
      (result == Success <==> a.applied) && entity.State() == a.after && hand.stack == a.held && drop == a.drop
    ensures entity == null ==> result == Pass && drop.None?
  {
    var applied;
    applied, drop := ApplyMaterial(isClient, entity, shift, creative, hand, isCopyBlock, FullVolumeFactor);
    result := if applied then Success else Pass;
  }
}
