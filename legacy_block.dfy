/**
 * The legacy copy block's right-click handling: shift with an empty hand
 * clears the copy; a full, non-copy block in hand is copied (or, when it
 * is already the copied block, turns the virtual rotation).
 */
module LegacyBlock {
  import opened Wrappers
  import opened World
  import opened LegacyEntity

  datatype UseOutcome = UseOutcome(result: InteractionResult, after: Record)

  /**
   * The result of `use` and the entity's record afterwards. `hasEntity`
   * says whether the block entity at the position is a legacy copy-block
   * entity holding `rec`; `isCopyBlock` and `fullBlock` say whether a block
   * is a copy block and whether its default state has a full collision box.
   */
  function Use(isClient: bool, hasEntity: bool, rec: Record, shift: bool, held: ItemStack,
               isCopyBlock: BlockId -> bool, fullBlock: BlockId -> bool): (r: UseOutcome)
    ensures isClient ==> r == UseOutcome(Success, rec)
    ensures !isClient && !hasEntity ==> r == UseOutcome(Pass, rec)
    ensures r.after != rec ==> r.result == Success
    ensures r.result == Fail ==>
      held.GetItem().BlockItem? && (isCopyBlock(held.GetItem().block) || !fullBlock(held.GetItem().block))
    ensures r.after.copied != rec.copied ==>
      r.after == Fresh
      || (held.GetItem().BlockItem? && r.after == Record(DefaultState(held.GetItem().block), 0)
          && !isCopyBlock(held.GetItem().block) && fullBlock(held.GetItem().block))
    ensures !isClient && hasEntity && shift && held.IsEmpty() ==> r == UseOutcome(Success, Fresh)
    ensures !isClient && hasEntity && !(shift && held.IsEmpty()) && !held.GetItem().BlockItem? ==>
      r == UseOutcome(Pass, rec)
    ensures !isClient && hasEntity && !(shift && held.IsEmpty()) && held.GetItem().BlockItem?
            && (isCopyBlock(held.GetItem().block) || !fullBlock(held.GetItem().block)) ==>
      r == UseOutcome(Fail, rec)
    ensures !isClient && hasEntity && !(shift && held.IsEmpty()) && held.GetItem().BlockItem?
            && !isCopyBlock(held.GetItem().block) && fullBlock(held.GetItem().block) ==>
      r == UseOutcome(Success, SetCopied(rec, DefaultState(held.GetItem().block)))
  {
    if isClient then UseOutcome(Success, rec)
    else if !hasEntity then UseOutcome(Pass, rec)
    else if shift && held.IsEmpty() then UseOutcome(Success, SetCopied(rec, AirState))
    else if held.GetItem().BlockItem? then
      var target := held.GetItem().block;
      if isCopyBlock(target) then UseOutcome(Fail, rec)
      else if !fullBlock(target) then UseOutcome(Fail, rec)
      else UseOutcome(Success, SetCopied(rec, DefaultState(target)))
    else UseOutcome(Pass, rec)
  }

  /**
   * Holding the copied block again turns the rotation instead of
   * re-copying; holding a different full block replaces the copy.
   */
  lemma UseRotatesOrReplaces(rec: Record, held: ItemStack, shift: bool,
                             isCopyBlock: BlockId -> bool, fullBlock: BlockId -> bool)
    requires held.GetItem().BlockItem? && !isCopyBlock(held.GetItem().block) && fullBlock(held.GetItem().block)
    requires ValidRotation(rec)
    ensures var r := Use(false, true, rec, shift, held, isCopyBlock, fullBlock);
      r.result == Success
      && (if !rec.copied.IsAir() && rec.copied.block == held.GetItem().block
          then r.after == Record(rec.copied, (rec.rotation + 1) % 3)
          else r.after == Record(DefaultState(held.GetItem().block), 0))
  {
  }

  /**
   * onRemove passes to the base behaviour, which discards the block entity,
   * only when the block itself changes; a change of state within the same
   * block keeps the entity and its copy.
   */
  method OnRemove(level: Level, pos: Pos, state: BlockState, newState: BlockState)
    modifies level
    ensures level.entities == if state.block != newState.block then old(level.entities) - {pos} else old(level.entities)
    ensures level.cells == old(level.cells)
  {
    if state.block != newState.block {
      level.entities := level.entities - {pos};
    }
  }

  /** The legacy copy block's `use`, applied to the entity found at the position (null when none). */
  method UseOn(isClient: bool, entity: CopyBlockEntity?, shift: bool, held: ItemStack,
               isCopyBlock: BlockId -> bool, fullBlock: BlockId -> bool)
    returns (result: InteractionResult)
    modifies entity
    ensures entity == null ==> result == (if isClient then Success else Pass)
    ensures entity != null ==>
      UseOutcome(result, entity.State()) == Use(isClient, true, old(entity.State()), shift, held, isCopyBlock, fullBlock)
  {
    if isClient {
      return Success;
    }
    if entity == null {
      return Pass;
    }
    if shift && held.IsEmpty() {
      var _ := entity.SetCopiedBlock(AirState, ServerSide);
      return Success;
    }
    var item := held.GetItem();
    if item.BlockItem? {
      var target := item.block;
      if isCopyBlock(target) {
        return Fail;
      }
      var targetState := DefaultState(target);
      if !fullBlock(target) {
        return Fail;
      }
      var _ := entity.SetCopiedBlock(targetState, ServerSide);
      return Success;
    }
    return Pass;
  }
}
