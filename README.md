# CopyCraft / Imitari copy blocks, modelled in Dafny

CopyCraft (package `com.vibey.copycraft`) and its successor Imitari (package
`com.vibey.imitari`) add "copy blocks" to Minecraft. A copy block takes on
the look, tags, hardness, armour and physics mass of another block (its
*material* or *copied block*). Its shape can be a full block, a slab,
stairs, a wall, a fence or a flap. This project models the core of both
packages:

- the block entities that hold the copy, with their save/load formats;
- the blocks' right-click, placement, neighbour-update and removal logic;
- the shapes;
- the library's registration and query API;
- the tag, destroy-speed and mass delegation hooks, with their per-thread context;
- the rendering models: quad selection, face culling, texture remapping and model wrapping;
- the armour injection for the Create Big Cannons mod;
- the client render queue.

It then proves the properties the code promises about them.

Layout, one module per file:

- `wrappers`, `world`, `nbt`: option and result types, positions and directions, block states, item stacks, level cells, tags.
- `legacy_entity`, `legacy_block`: the first CopyCraft copy block (`copycraft/block`, `copycraft/blockentity`).
- `core_entity`, `material_data`, `core_block`: the consumed-item copy block (`copycraft/core`, `copycraft/blocks`).
- `shapes`, `slab`, `stairs`, `wall`, `fence`, `flap`: shapes and per-shape block behaviour.
- `copy_block_api`, `registration`, `lookup_context`, `tag_delegation`, `destroy_speed`: Imitari's API and hooks.
- `vs2_weights`, `cache_cleaner`: the Valkyrien Skies mass provider.
- `copy_model`, `multipart_model`, `model_provider`, `render_queue`: client rendering.
- `cbc_armor`: the armour injection.

Objects whose fields the source updates in place are classes: the block
entities, the tag, the registries, the per-thread contexts, the render
queue and the model provider. Their methods are proved against
functions on values. Connection logic for walls and fences
works on the level's map of cells.

Some behaviours of the code worth knowing when reading the model:

- A state is air when its block is `minecraft:air`, `minecraft:cave_air` or `minecraft:void_air`, as the game's `isAir` says; a cleared copy is always `minecraft:air`.
- The legacy block replaces a different copied material with the new one; it does not refuse it.
- The client render queue marks the 3×3×3 sections around a block.
- Clearing the per-thread lookup context keeps its time stamp; only the level, the position and the cached copy are dropped.
- The per-thread lookup context is cleared when a query returns.
- A double copy slab keeps the slab's mass multiplier of 0.5.
- The copy stairs' outline is only the half slab. The `NORTH_BOTTOM` stairs shape is declared but never used.

## Model

| member | source | states |
|---|---|---|
| LegacyEntity.JavaRem | src/main/java/com/vibey/copycraft/blockentity/CopyBlockEntity.java:75 | Java's `%` keeps the dividend's sign: the remainder lies in [0, n) for a non-negative dividend and in (-n, 0] for a negative one |
| LegacyEntity.SetCopied | src/main/java/com/vibey/copycraft/blockentity/CopyBlockEntity.java:45-79 | the copy always ends up on the given block; copying air resets to the fresh record; the same block over a non-air copy keeps the stored state and turns any stored rotation to (rotation + 1) % 3 in Java int arithmetic, also when the identical state is re-applied; air or another block is stored with rotation 0; a valid rotation (0..2) stays valid |
| LegacyEntity.RotationCycles | src/main/java/com/vibey/copycraft/blockentity/CopyBlockEntity.java:45-79 | re-applying the copied block n times advances the rotation by n modulo 3 and keeps the copied state (Y, Z, X cycle) |
| LegacyEntity.RotationWrapsAtIntMax | src/main/java/com/vibey/copycraft/blockentity/CopyBlockEntity.java:74 | a rotation stored as the largest int wraps on the increment and lands on -2, outside the three axes |
| LegacyEntity.SaveEntries | src/main/java/com/vibey/copycraft/blockentity/CopyBlockEntity.java:168-178 | the id and the full state are written only when the copy is not air; the rotation is always written; every other key is left alone |
| LegacyEntity.LoadedCopy | src/main/java/com/vibey/copycraft/blockentity/CopyBlockEntity.java:103-134 | with neither key the old copy is kept; an unparsable id gives air; a parsable id gives its default state (air when unregistered), replaced by a stored full state when one can be read, or by air when the full-state entry is not a state; a full state alone is read, with air when that fails; any non-air result is a registered block |
| LegacyEntity.LoadRecord | src/main/java/com/vibey/copycraft/blockentity/CopyBlockEntity.java:100-136 | the rotation is always overwritten by the stored int (0 when absent); with neither copy key the copied block is kept |
| LegacyEntity.SaveThenLoad | src/main/java/com/vibey/copycraft/blockentity/CopyBlockEntity.java:100-178 | a saved non-air copy loads back exactly when the level's block lookup exists; without it, only the block's default state comes back |
| LegacyEntity.ClearedCopyNotPropagated | src/main/java/com/vibey/copycraft/blockentity/CopyBlockEntity.java:103-178 | as written: a client holding stone with rotation 1 that loads the update tag of a cleared entity keeps stone (rotation 0) |
| LegacyEntity.LoadRecordIntended | src/main/java/com/vibey/copycraft/blockentity/CopyBlockEntity.java:100-136 | corrected load: a tag without a copied block means air; the rotation is read as before |
| LegacyEntity.IntendedSaveThenLoad | src/main/java/com/vibey/copycraft/blockentity/CopyBlockEntity.java:100-178 | with the corrected load, save then load reproduces every record, cleared or not |
| LegacyEntity.CopyBlockEntity.constructor | src/main/java/com/vibey/copycraft/blockentity/CopyBlockEntity.java:30-35 | a new entity copies air with rotation 0 |
| LegacyEntity.CopyBlockEntity.RotateBlock | src/main/java/com/vibey/copycraft/blockentity/CopyBlockEntity.java:73-79 | the rotation becomes (rotation + 1) % 3 with Java's int overflow and remainder; the copy is unchanged |
| LegacyEntity.CopyBlockEntity.SetCopiedBlock | src/main/java/com/vibey/copycraft/blockentity/CopyBlockEntity.java:45-71 | the new record is `SetCopied` of the old one; the update is broadcast exactly on the server |
| LegacyEntity.CopyBlockEntity.HasCopiedBlock | src/main/java/com/vibey/copycraft/blockentity/CopyBlockEntity.java:81-83 | true exactly when the copy is not air; without a copy, any block copied next starts at rotation 0 |
| LegacyEntity.CopyBlockEntity.SaveAdditional | src/main/java/com/vibey/copycraft/blockentity/CopyBlockEntity.java:168-178 | the tag's entries become `SaveEntries` of the record and the old entries |
| LegacyEntity.CopyBlockEntity.Load | src/main/java/com/vibey/copycraft/blockentity/CopyBlockEntity.java:100-144 | the record becomes `LoadRecord` of the old record and the tag; the lookup exists only inside a level |
| LegacyEntity.CopyBlockEntity.HandleUpdateTag | src/main/java/com/vibey/copycraft/blockentity/CopyBlockEntity.java:146-165 | loads the tag; queues the position for re-rendering exactly on the client when the copy or the rotation changed |
| LegacyBlock.Use | src/main/java/com/vibey/copycraft/block/CopyBlock.java:42-110 | client: success, nothing changes; no entity: pass; shift with an empty hand clears; otherwise a copy block or a non-full block in hand fails and a non-block item passes, both changing nothing, and a full non-copy block is copied with success; the copy changes only to air or to the held full block's default state |
| LegacyBlock.UseRotatesOrReplaces | src/main/java/com/vibey/copycraft/block/CopyBlock.java:82-106 | holding the block already copied turns the rotation by one; any other full block replaces the copy at rotation 0 |
| LegacyBlock.OnRemove | src/main/java/com/vibey/copycraft/block/CopyBlock.java:112-118 | the block entity is discarded exactly when the block changes, not on a state change of the same block; the cells are untouched |
| LegacyBlock.UseOn | src/main/java/com/vibey/copycraft/block/CopyBlock.java:42-110 | the result and the entity's new record are those of `Use`; with no entity, success on the client and pass on the server |
| CoreEntity.ModelMaterial | src/main/java/com/vibey/copycraft/core/CopyBlockEntity.java:68-77 | the model data carries the material exactly when the entity has one |
| CoreEntity.HardnessMass | src/main/java/com/vibey/copycraft/core/CopyBlockEntity.java:118-127 | 1000 exactly for unbreakable (negative hardness), 1 exactly for instant-break, always between 1 and 1000 |
| CoreEntity.HardnessMassMonotone | src/main/java/com/vibey/copycraft/core/CopyBlockEntity.java:122-127 | among breakable materials, a harder one never weighs less |
| CoreEntity.Mass | src/main/java/com/vibey/copycraft/core/CopyBlockEntity.java:100-130 | 100 without a material; otherwise a positive backend mass times the volume factor, else the hardness band times the volume factor; positive for a positive volume factor |
| CoreEntity.MassScalesWithVolume | src/main/java/com/vibey/copycraft/core/CopyBlockEntity.java:111-129 | the mass of a material is linear in the volume factor |
| CoreEntity.SaveEntries | src/main/java/com/vibey/copycraft/core/CopyBlockEntity.java:134-140 | material, consumed item and volume factor are always written |
| CoreEntity.LoadWith | src/main/java/com/vibey/copycraft/core/CopyBlockEntity.java:142-148 | the consumed item and the volume factor (0 when absent) come from the tag; loading fails exactly when a stored material meets no block lookup; otherwise a stored material loads as itself when registered and as air when not, and a tag without one loads air |
| CoreEntity.SavedRecordNeverLoads | src/main/java/com/vibey/copycraft/core/CopyBlockEntity.java:134-148 | as written (null block lookup), nothing this entity saves can be loaded back: load throws |
| CoreEntity.IntendedSaveThenLoad | src/main/java/com/vibey/copycraft/core/CopyBlockEntity.java:134-148 | with the level's block lookup, save then load restores every field |
| CoreEntity.NoticeFor | src/main/java/com/vibey/copycraft/core/CopyBlockEntity.java:39-47 | the server sends a block update; the client refreshes its model |
| CoreEntity.CopyBlockEntity.constructor | src/main/java/com/vibey/copycraft/core/CopyBlockEntity.java:20-26 | a new entity has no material, an empty consumed item and volume factor 1 |
| CoreEntity.CopyBlockEntity.SetMaterial | src/main/java/com/vibey/copycraft/core/CopyBlockEntity.java:31-48 | records the material, the consumed stack and the volume factor; notifies by side |
| CoreEntity.CopyBlockEntity.ClearMaterial | src/main/java/com/vibey/copycraft/core/CopyBlockEntity.java:50-64 | returns to the empty record; notifies by side |
| CoreEntity.CopyBlockEntity.HasMaterial | src/main/java/com/vibey/copycraft/core/CopyBlockEntity.java:89-91 | true exactly when the model data would carry a material |
| CoreEntity.CopyBlockEntity.GetMass | src/main/java/com/vibey/copycraft/core/CopyBlockEntity.java:100-130 | 100 without material; positive with a material and a positive volume factor |
| CoreEntity.CopyBlockEntity.SaveAdditional | src/main/java/com/vibey/copycraft/core/CopyBlockEntity.java:134-140 | the tag's entries become `SaveEntries` of the record |
| CoreEntity.CopyBlockEntity.Load | src/main/java/com/vibey/copycraft/core/CopyBlockEntity.java:142-148 | throws exactly when the material cannot be read (leaving the fields); otherwise the fields become the loaded record |
| MaterialSnapshot.BackendOrEstimate | src/main/java/com/vibey/copycraft/core/MaterialData.java:40-59 | always positive; a positive backend mass is used as is, anything else gives the estimate of 100 |
| MaterialSnapshot.Captured | src/main/java/com/vibey/copycraft/core/MaterialData.java:18-38 | an absent or air state resets every field; otherwise the material and resistance are recorded, a negative destroy speed becomes exactly -1 and a non-negative one is kept, and the mass is the backend-or-estimate mass times the volume factor; the mass is positive for a positive volume factor |
| MaterialSnapshot.SaveEntries | src/main/java/com/vibey/copycraft/core/MaterialData.java:76-82 | all four fields are written |
| MaterialSnapshot.LoadWith | src/main/java/com/vibey/copycraft/core/MaterialData.java:84-89 | hardness, resistance and mass come from the tag; loading fails exactly when a stored material meets no block lookup; otherwise a stored material loads as itself when registered and as air when not, and a tag without one loads air |
| MaterialSnapshot.SavedSnapshotNeverLoads | src/main/java/com/vibey/copycraft/core/MaterialData.java:76-89 | as written (null block lookup), no saved snapshot can be loaded back |
| MaterialSnapshot.IntendedSaveThenLoad | src/main/java/com/vibey/copycraft/core/MaterialData.java:76-89 | with a block lookup, every field survives save then load |
| MaterialSnapshot.MaterialData.constructor | src/main/java/com/vibey/copycraft/core/MaterialData.java:14-16 | a new snapshot holds the reset values (air, hardness 2, resistance 6, mass 100) |
| MaterialSnapshot.MaterialData.ResetAll | src/main/java/com/vibey/copycraft/core/MaterialData.java:61-66 | every field returns to the reset values |
| MaterialSnapshot.MaterialData.SetMaterial | src/main/java/com/vibey/copycraft/core/MaterialData.java:18-38 | the fields become `Captured` of the arguments |
| MaterialSnapshot.MaterialData.HasMaterial | src/main/java/com/vibey/copycraft/core/MaterialData.java:73 | true exactly when the material is not air |
| MaterialSnapshot.MaterialData.Save | src/main/java/com/vibey/copycraft/core/MaterialData.java:76-82 | the tag's entries become `SaveEntries` of the snapshot |
| MaterialSnapshot.MaterialData.Load | src/main/java/com/vibey/copycraft/core/MaterialData.java:84-89 | throws exactly when the material cannot be read without a lookup, leaving the fields; otherwise they become the loaded snapshot |
| CoreBlock.Apply | src/main/java/com/vibey/copycraft/core/ICopyBlock.java:31-82 | nothing happens for a non-block item, a copy block in hand or a missing entity; otherwise success exactly for shift or an empty block, and the client changes nothing; on the server, shift on a filled block empties it and drops the consumed stack unless creative, and an empty block takes the held block's default state, records the held stack and the volume factor, and shrinks the hand by one unless creative; a filled block without shift refuses |
| CoreBlock.AsWrittenRefundsWholeStack | src/main/java/com/vibey/copycraft/core/ICopyBlock.java:50-78 | as written: applying from a stack of n and then removing leaves n - 1 in hand and drops the whole original stack of n |
| CoreBlock.ApplyIntended | src/main/java/com/vibey/copycraft/core/ICopyBlock.java:66-78 | corrected apply: a newly applied material records exactly one item of the held stack |
| CoreBlock.IntendedConservesItems | src/main/java/com/vibey/copycraft/core/ICopyBlock.java:50-78 | with the corrected record, what stays in hand plus what is refunded is exactly the starting stack |
| CoreBlock.CopyDestroyProgress | src/main/java/com/vibey/copycraft/core/ICopyBlock.java:88-106 | -1 (use the default) without a material; with one, 0 for negative hardness, 1 for zero hardness, never negative, and for positive hardness progress × hardness × 30 equals the player's speed |
| CoreBlock.DestroyProgress | src/main/java/com/vibey/copycraft/blocks/CopyBlock.java:58-62 | the material's progress when there is a material, the default otherwise |
| CoreBlock.CopyExplosionResistance | src/main/java/com/vibey/copycraft/core/ICopyBlock.java:112-117 | the material's resistance with a material, a negative "use default" value without |
| CoreBlock.ExplosionResistance | src/main/java/com/vibey/copycraft/blocks/CopyBlock.java:64-68 | resists like the material when there is one, like the default otherwise |
| CoreBlock.RemovalDrop | src/main/java/com/vibey/copycraft/blocks/CopyBlock.java:72-80 | a drop happens exactly when the block changes and the entity holds a material, and it is the consumed stack |
| CoreBlock.BeforeBreak | src/main/java/com/vibey/copycraft/blocks/CopyBlock.java:82-88 | a creative player's break empties the entity first; survival leaves it |
| CoreBlock.BreakRefund | src/main/java/com/vibey/copycraft/blocks/CopyBlock.java:72-88 | breaking a filled block refunds nothing in creative and the consumed stack in survival |
| CoreBlock.HeldStack.constructor | src/main/java/com/vibey/copycraft/core/ICopyBlock.java:31 | wraps the player's held stack |
| CoreBlock.HeldStack.Shrink | src/main/java/com/vibey/copycraft/core/ICopyBlock.java:77 | the held stack becomes the stack shrunk by n |
| CoreBlock.ApplyMaterial | src/main/java/com/vibey/copycraft/core/ICopyBlock.java:31-82 | with no entity nothing changes; otherwise the result, the entity, the hand and the drop are those of `Apply` |
| CoreBlock.Use | src/main/java/com/vibey/copycraft/blocks/CopyBlock.java:29-54 | success exactly when applyMaterial acted, pass otherwise, with the full-block volume factor 1 |
| Wall.WithSide | src/main/java/com/vibey/imitari/block/CopyBlockWall.java:101-104 | setting one side changes that side only and keeps `up` |
| Wall.SidesDetermineWall | src/main/java/com/vibey/imitari/block/CopyBlockWall.java:46-56 | a wall state is fully determined by `up` and its four sides |
| Wall.WallShape | src/main/java/com/vibey/imitari/block/CopyBlockWall.java:59-82 | the shape holds the post and stays within the block |
| Wall.ArmBoxesReachOnlyTheirFace | src/main/java/com/vibey/imitari/block/CopyBlockWall.java:33-41 | each arm box reaches only its own face; an arm is full height exactly when tall; the post reaches no horizontal face |
| Wall.ArmsFollowSides | src/main/java/com/vibey/imitari/block/CopyBlockWall.java:59-87 | the shape reaches a horizontal face exactly when that side is not NONE, and is full height there exactly when the side is TALL |
| Wall.WallSideToward | src/main/java/com/vibey/imitari/block/CopyBlockWall.java:120-136 | NONE exactly when the neighbour is not a copy wall; TALL exactly when it is one with a copy wall above it |
| Wall.UpdateShape | src/main/java/com/vibey/imitari/block/CopyBlockWall.java:93-108 | vertically, `up` follows whether the neighbour is a copy wall; horizontally, that side becomes `WallSideToward`; every other side is kept |
| Wall.ConnectionsAreNeighbourUpdates | src/main/java/com/vibey/imitari/block/CopyBlockWall.java:93-166 | recomputing every connection equals applying updateShape for each horizontal neighbour and then for the block above |
| Wall.UpdateWallConnections | src/main/java/com/vibey/imitari/block/CopyBlockWall.java:148-166 | the loop over the four horizontal directions and the `up` check yield the fully connected state |
| Wall.RefreshFrame | src/main/java/com/vibey/imitari/block/CopyBlockWall.java:172-180 | recomputing the neighbours changes no cell outside the neighbours visited |
| Wall.RefreshKinds | src/main/java/com/vibey/imitari/block/CopyBlockWall.java:176-178 | a recomputed cell is a wall exactly when it was one, and non-walls are untouched |
| Wall.RefreshLinks | src/main/java/com/vibey/imitari/block/CopyBlockWall.java:172-180 | after recomputation, a neighbouring wall's side toward the centre is set exactly when the centre holds a wall |
| Wall.SetPlacedBy | src/main/java/com/vibey/imitari/block/CopyBlockWall.java:138-146 | as written, placement writes only the placed wall's own connected state; nothing else changes |
| Wall.PlacementLeavesNeighbourUnjoined | src/main/java/com/vibey/imitari/block/CopyBlockWall.java:138-166 | as written: a wall placed at (0,0,0) south of a wall joins it with a low side, but the northern wall keeps NONE toward it |
| Wall.PlacedWallsJoinBothWays | src/main/java/com/vibey/imitari/block/CopyBlockWall.java:138-180 | corrected placement (also recomputing the neighbours, as removal does): the placed wall keeps its connections, it joins exactly the neighbouring walls, and each of them joins it back |
| Wall.SetPlacedByJoined | src/main/java/com/vibey/imitari/block/CopyBlockWall.java:138-180 | the corrected placement's new cells |
| Wall.RefreshNeighbours | src/main/java/com/vibey/imitari/block/CopyBlockWall.java:172-180 | the cells become the neighbours' recomputation; entities are unchanged |
| Wall.OnRemove | src/main/java/com/vibey/imitari/block/CopyBlockWall.java:168-184 | the neighbours are recomputed exactly when the block is not moving and is replaced by any air block; otherwise nothing changes |
| Wall.RemovalUnjoinsNeighbours | src/main/java/com/vibey/imitari/block/CopyBlockWall.java:168-184 | after removal every neighbouring wall stays a wall with no side toward the removed one, and no other cell changes |
| Fence.WithConnection | src/main/java/com/vibey/imitari/block/CopyBlockFence.java:88-91 | setting one connection changes that connection only |
| Fence.ConnectionsDetermineFence | src/main/java/com/vibey/imitari/block/CopyBlockFence.java:24-53 | a fence state is fully determined by its four connections |
| Fence.FenceShape | src/main/java/com/vibey/imitari/block/CopyBlockFence.java:55-73 | the shape holds the post and stays within the block |
| Fence.RailsReachOnlyTheirFace | src/main/java/com/vibey/imitari/block/CopyBlockFence.java:30-38 | each upper and lower rail reaches only its own face; the post reaches no horizontal face |
| Fence.RailsFollowConnections | src/main/java/com/vibey/imitari/block/CopyBlockFence.java:55-78 | the shape reaches a horizontal face exactly when that connection is set |
| Fence.UpdateShape | src/main/java/com/vibey/imitari/block/CopyBlockFence.java:80-104 | a vertical update changes nothing; a horizontal one sets that connection exactly when the neighbour is a copy fence or a fence gate, and keeps the others |
| Fence.ConnectionsAreNeighbourUpdates | src/main/java/com/vibey/imitari/block/CopyBlockFence.java:86-126 | the placed fence's connections equal updateShape applied for each horizontal neighbour in turn |
| Fence.LinksBackFrame | src/main/java/com/vibey/imitari/block/CopyBlockFence.java:109-126 | writing the back-links changes no cell outside the neighbours visited |
| Fence.LinksBackAt | src/main/java/com/vibey/imitari/block/CopyBlockFence.java:109-126 | after writing the back-links, a neighbouring fence's link toward the centre has the written value and its other links are kept; other neighbours are untouched |
| Fence.SetPlacedBy | src/main/java/com/vibey/imitari/block/CopyBlockFence.java:106-132 | the cells become the placed fence with its connections plus every neighbouring copy fence linked back |
| Fence.PlacementLinksBothWays | src/main/java/com/vibey/imitari/block/CopyBlockFence.java:106-132 | the placed fence connects exactly toward copy fences and gates; each neighbouring copy fence connects back and keeps its other sides; gates and other blocks are left as they were |
| Fence.PlacementTouchesOnlyNeighbours | src/main/java/com/vibey/imitari/block/CopyBlockFence.java:106-132 | placement changes no cell besides the placed one and its four neighbours |
| Fence.OnRemove | src/main/java/com/vibey/imitari/block/CopyBlockFence.java:134-152 | when replaced by any air block and not moving, every neighbouring fence's link toward it is cleared; otherwise nothing changes |
| Fence.RemovalUnlinksNeighbours | src/main/java/com/vibey/imitari/block/CopyBlockFence.java:134-152 | after removal no neighbouring fence is connected toward the removed one, each keeps its other connections, and other neighbours are untouched |
| Fence.PlaceThenRemoveClearsLinks | src/main/java/com/vibey/imitari/block/CopyBlockFence.java:106-152 | placing a fence and then removing it leaves no neighbouring fence linked toward its position |
| Flap.GetWing | src/main/java/com/vibey/imitari/block/extras/clockwork/CopyBlockFlapCW.java:61-74 | the wing's normal is the unit vector along the facing's axis; power 150, drag 150, breaking force 10, no camber |
| Flap.PlacementFacing | src/main/java/com/vibey/imitari/block/extras/clockwork/CopyBlockFlapCW.java:79-83 | the flap faces along the player's look axis, toward the player |
| Flap.FlapBox | src/main/java/com/vibey/imitari/block/extras/clockwork/CopyBlockFlapCW.java:155-162 | the plate stays within the block |
| Flap.FlapShape | src/main/java/com/vibey/imitari/block/extras/clockwork/CopyBlockFlapCW.java:155-172 | the outline, collision and visual shape stay within the block |
| Flap.PlateLiesAcrossNormal | src/main/java/com/vibey/imitari/block/extras/clockwork/CopyBlockFlapCW.java:61-74 | the plate is four sixteenths thick exactly along the wing's normal and spans the block along the other axes |
| Flap.PlacedWingFacesLook | src/main/java/com/vibey/imitari/block/extras/clockwork/CopyBlockFlapCW.java:61-83 | a placed flap simulates a wing whose normal lies along the look axis |
| Shapes.FullBlockFillsCell | src/main/java/com/vibey/imitari/block/base/CopyBlockBase.java:94-97 | the full-block shape holds exactly the points of the block |
| Shapes.HalvesMakeFullBlock | src/main/java/com/vibey/copycraft/block/CopyBlockSlab.java:20-21 | the bottom and top half boxes together hold exactly the points of the full block |
| Shapes.NewCopyBlockBase | src/main/java/com/vibey/imitari/block/base/CopyBlockBase.java:65-67 | the one-argument constructor gives mass multiplier 1 |
| Shapes.NewCopyBlockBaseWith | src/main/java/com/vibey/imitari/block/base/CopyBlockBase.java:75-85 | the two-argument constructor's multiplier is what getMassMultiplier reports |
| Shapes.Traits | src/main/java/com/vibey/imitari/block/base/CopyBlockBase.java:82-85 | the library sees the multiplier the block was built with |
| Shapes.VisualShape | src/main/java/com/vibey/imitari/block/base/CopyBlockBase.java:94-97 | the visual shape covers the whole block, whatever the state |
| Shapes.BaseBlocksOccludeLight | src/main/java/com/vibey/imitari/block/base/CopyBlockBase.java:99-107 | the shape is used for light occlusion and skylight never passes down |
| Shapes.ShapeMultiplier | src/main/java/com/vibey/imitari/block/CopyBlock.java:9 | every declared multiplier lies in (0, 1], and it is 1 exactly for the full and ghost copy blocks (slab 0.5, stairs 0.75, wall 0.5, fence 0.4, flap 0.3, wing 0.5) |
| Shapes.PartialShapesWeighLess | src/main/java/com/vibey/copycraft/block/CopyBlockStairs.java:32-33 | every partial shape weighs less than a full copy block, and stairs more than a slab |
| Slab.PlacementType | src/main/java/com/vibey/copycraft/block/CopyBlockSlab.java:34-51 | double exactly when clicking into this slab; from above bottom, from below top |
| Slab.CanBeReplaced | src/main/java/com/vibey/copycraft/block/CopyBlockSlab.java:53-70 | never for a double slab or another item; always for this slab item when not replacing the clicked block |
| Slab.SlabShape | src/main/java/com/vibey/copycraft/block/CopyBlockSlab.java:72-80 | within the block; the full block exactly when double; reaches the bottom face unless top, and the top face unless bottom |
| Slab.CollisionShape | src/main/java/com/vibey/copycraft/block/CopyBlockSlab.java:82-86 | collision equals the outline |
| Slab.SideClickFillsMissingHalf | src/main/java/com/vibey/copycraft/block/CopyBlockSlab.java:35-70 | clicking a single slab from the side, it gives way exactly when a fresh placement with that click would pick the missing half |
| Slab.VerticalClickOnOpenSide | src/main/java/com/vibey/copycraft/block/CopyBlockSlab.java:53-70 | from above or below, a single slab gives way exactly on its open side |
| Slab.DoubleIsBothHalves | src/main/java/com/vibey/copycraft/block/CopyBlockSlab.java:72-80 | a double slab holds exactly the points of a bottom and a top slab together |
| Slab.SidePlacementHoldsClick | src/main/java/com/vibey/copycraft/block/CopyBlockSlab.java:44-50 | a slab placed from the side contains the point that was clicked |
| Stairs.PlacementHalf | src/main/java/com/vibey/copycraft/block/CopyBlockStairs.java:50-53 | from above bottom, from below top, from the side top exactly when the click is in the upper half |
| Stairs.PerpendicularIsQuarterTurn | src/main/java/com/vibey/copycraft/block/CopyBlockStairs.java:72-80 | two horizontal directions lie on different axes exactly when one is a quarter turn from the other |
| Stairs.StairsShapeFor | src/main/java/com/vibey/copycraft/block/CopyBlockStairs.java:63-89 | straight exactly when neither side joins; outer-left / inner-left exactly when the left joins facing counter-clockwise / clockwise; the right side decides only when the left does not join |
| Stairs.PlacementState | src/main/java/com/vibey/copycraft/block/CopyBlockStairs.java:45-61 | faces the player's direction with the clicked half; its shape is `StairsShapeFor` of the stairs to its left and right, so straight exactly when neither neighbour joins |
| Stairs.RotationsUndo | src/main/java/com/vibey/copycraft/block/CopyBlockStairs.java:91-95 | a quarter turn each way undoes the other; a half turn undoes itself; two quarter turns make a half turn |
| Stairs.MirrorState | src/main/java/com/vibey/copycraft/block/CopyBlockStairs.java:97-147 | keeps the half and the axis; left-right turns north/south stairs round and swaps the corner's side; front-back turns east/west stairs round and keeps the corner; anything else is unchanged |
| Stairs.MirrorTwiceRestores | src/main/java/com/vibey/copycraft/block/CopyBlockStairs.java:97-147 | each mirror applied twice gives back the original state |
| Stairs.StairsOutline | src/main/java/com/vibey/copycraft/block/CopyBlockStairs.java:149-158 | within the block; reaches the bottom face exactly for bottom stairs and the top face exactly for top stairs |
| Stairs.TurningKeepsOutline | src/main/java/com/vibey/copycraft/block/CopyBlockStairs.java:91-158 | rotating or mirroring stairs never changes their outline |
| CopyBlockApi.CountMatches | src/main/java/com/vibey/imitari/api/CopyBlockAPI.java:104-118 | the count never exceeds the number of registry entries |
| CopyBlockApi.MatchingIds | src/main/java/com/vibey/imitari/api/CopyBlockAPI.java:106-116 | an id is picked exactly when some entry with that id is in the mod's namespace and is a copy block using dynamic models |
| CopyBlockApi.DistinctMatchesCounted | src/main/java/com/vibey/imitari/api/CopyBlockAPI.java:104-118 | the reported count never understates the number of distinct ids registered |
| CopyBlockApi.Registrations.constructor | src/main/java/com/vibey/imitari/api/CopyBlockAPI.java:55 | the registration set starts empty |
| CopyBlockApi.Registrations.RegisterCopyBlock | src/main/java/com/vibey/imitari/api/CopyBlockAPI.java:70-72 | the id is added; nothing is removed |
| CopyBlockApi.Registrations.RegisterCopyBlockOf | src/main/java/com/vibey/imitari/api/CopyBlockAPI.java:84-89 | the block's registry key is added when it has one; otherwise nothing changes |
| CopyBlockApi.Registrations.AutoRegisterModBlocks | src/main/java/com/vibey/imitari/api/CopyBlockAPI.java:104-118 | exactly the matching ids are added, and the result is the number of matching entries |
| CopyBlockApi.Registrations.UnregisterCopyBlock | src/main/java/com/vibey/imitari/api/CopyBlockAPI.java:127-129 | the id is removed, and the result says whether it was registered |
| CopyBlockApi.Registrations.IsRegistered | src/main/java/com/vibey/imitari/api/CopyBlockAPI.java:137-139 | true exactly for a registered id |
| CopyBlockApi.Registrations.IsRegisteredBlock | src/main/java/com/vibey/imitari/api/CopyBlockAPI.java:147-150 | true exactly when the block has a registry key that is registered |
| CopyBlockApi.Registrations.GetRegisteredBlocks | src/main/java/com/vibey/imitari/api/CopyBlockAPI.java:158-160 | the returned set equals the registrations, as a value the caller cannot change them through |
| CopyBlockApi.Registrations.ClearRegistrations | src/main/java/com/vibey/imitari/api/CopyBlockAPI.java:166-168 | no registration remains |
| CopyBlockApi.GetCopiedBlock | src/main/java/com/vibey/imitari/api/CopyBlockAPI.java:187-195 | a state is returned exactly when the position holds a library copy-block entity with a non-air copy, and it is that copy |
| CopyBlockApi.IsCopyBlock | src/main/java/com/vibey/imitari/api/CopyBlockAPI.java:204-207 | true exactly when the block implements the copy-block interface |
| CopyBlockApi.HasCopiedBlock | src/main/java/com/vibey/imitari/api/CopyBlockAPI.java:216-222 | true exactly when getCopiedBlock would return a state |
| CopyBlockApi.GetMassMultiplier | src/main/java/com/vibey/imitari/api/CopyBlockAPI.java:230-235 | a copy block's own multiplier, 1 for any other block |
| CopyBlockApi.GetEffectiveMass | src/main/java/com/vibey/imitari/api/CopyBlockAPI.java:245-259 | 50 times the multiplier for a copy block holding a copy; 0 whenever the block is not a copy block or holds nothing |
| CopyBlockApi.ImplementsCopyBlock | src/main/java/com/vibey/imitari/api/CopyBlockAPI.java:267-279 | agrees with isCopyBlock for every block and state |
| Registration.CopyBlockCount | src/main/java/com/vibey/imitari/api/registration/CopyBlockRegistration.java:85-94 | the count never exceeds the number of blocks given |
| Registration.CopyBlockKeys | src/main/java/com/vibey/imitari/api/registration/CopyBlockRegistration.java:85-94 | an id is registered exactly when some given copy block has it as its registry key |
| Registration.DistinctKeysCounted | src/main/java/com/vibey/imitari/api/registration/CopyBlockRegistration.java:85-94 | the returned count never understates the number of distinct ids registered |
| Registration.IdSet | src/main/java/com/vibey/imitari/api/registration/CopyBlockRegistration.java:102-107 | the set holds exactly the ids of the sequence |
| Registration.RegisterForMod | src/main/java/com/vibey/imitari/api/registration/CopyBlockRegistration.java:48-56 | the API and the model provider both gain exactly the mod's matching ids; the API's count is returned |
| Registration.RegisterBlock | src/main/java/com/vibey/imitari/api/registration/CopyBlockRegistration.java:64-67 | both sets gain the id |
| Registration.RegisterBlockOf | src/main/java/com/vibey/imitari/api/registration/CopyBlockRegistration.java:74-77 | both sets gain the block's key when it has one |
| Registration.RegisterBlocks | src/main/java/com/vibey/imitari/api/registration/CopyBlockRegistration.java:85-94 | both sets gain exactly the keys of the copy blocks given; the result counts the copy blocks |
| Registration.RegisterBlocksByIds | src/main/java/com/vibey/imitari/api/registration/CopyBlockRegistration.java:102-107 | both sets gain every id given; the result is the number of ids given |
| Registration.InitializeLibrary | src/main/java/com/vibey/imitari/api/registration/CopyBlockRegistration.java:113-116 | both sets gain the matching ids of the library's own namespace |
| LookupContext.Verdict | src/main/java/com/vibey/imitari/util/CopyBlockContext.java:89-95 | no verdict for an air copy; otherwise exactly the copied block's own membership in the tag |
| LookupContext.LibraryCopied | src/main/java/com/vibey/imitari/util/CopyBlockContext.java:82-86 | a copy is found exactly when the entity is a library copy-block entity, and it is that entity's copied state |
| LookupContext.LookupCache.constructor | src/main/java/com/vibey/imitari/util/CopyBlockContext.java:24-31 | a new slot records no lookup and no cached copy |
| LookupContext.LookupCache.Set | src/main/java/com/vibey/imitari/util/CopyBlockContext.java:33-38 | records the level, the position and the time, drops the cached copy, and is usable at that time |
| LookupContext.LookupCache.Clear | src/main/java/com/vibey/imitari/util/CopyBlockContext.java:40-44 | drops the level, the position and the cached copy, keeps the time stamp, and is usable at no time |
| LookupContext.LookupCache.ClearAll | src/main/java/com/vibey/imitari/util/CopyBlockContext.java:101-103 | the thread's slot starts over as a new one |
| LookupContext.LookupCache.CheckCopiedBlockTag | src/main/java/com/vibey/imitari/util/CopyBlockContext.java:71-96 | defers without a lookup recorded less than 1 ms ago; answers from the cache without reading the entity again; otherwise reads the entity once, caches its copy and answers the copy's tag membership (deferring for air or a non-library entity) |
| LookupContext.GetBlockState | src/main/java/com/vibey/imitari/mixin/LevelGetBlockStateMixin.java:24-33 | returns the level's state; the context is set on entry and cleared on return, so nothing after the lookup can use it |
| TagDelegation.IsTagBlacklisted | src/main/java/com/vibey/imitari/mixin/BlockStateTagMixin.java:53-73 | true exactly when the configuration can be read and lists the tag's "namespace:path" text |
| TagDelegation.CheckCopiedTags | src/main/java/com/vibey/imitari/mixin/BlockStateTagMixin.java:31-51 | blocks that are not copy blocks with dynamic tags defer without touching the context; blacklisted tags defer; otherwise: no usable context defers, a cached copy answers with its tag membership, and an uncached one answers with the tag membership of the library entity's copy at the recorded position |
| TagDelegation.LegacyTagContext.constructor | src/main/java/com/vibey/copycraft/mixin/BlockStateBaseMixin.java:22-26 | no context is set |
| TagDelegation.LegacyTagContext.SetContext | src/main/java/com/vibey/copycraft/mixin/BlockStateBaseMixin.java:34-37 | the context becomes the given level and position |
| TagDelegation.LegacyTagContext.ClearContext | src/main/java/com/vibey/copycraft/mixin/BlockStateBaseMixin.java:39-42 | the context is removed |
| TagDelegation.LegacyTagContext.CopyBlockTags | src/main/java/com/vibey/copycraft/mixin/BlockStateBaseMixin.java:44-64 | overrides exactly for a legacy copy block whose context position holds a legacy entity with a non-air copy, and then answers with the copy's tag membership |
| TagDelegation.CopiedBlockHasTag | src/main/java/com/vibey/imitari/api/tags/CopyBlockTagAPI.java:53-72 | true exactly when the position holds a non-air library copy that has the tag; so only where a copy exists |
| TagDelegation.ContextAgreesWithApi | src/main/java/com/vibey/imitari/api/tags/CopyBlockTagAPI.java:53-86 | whenever the context gives a verdict for a library entity, it agrees with the direct API query |
| TagDelegation.CheckWithContext | src/main/java/com/vibey/imitari/api/tags/CopyBlockTagAPI.java:83-86 | defers without a usable context; answers from the cached copy when there is one; otherwise answers from the library entity's copy at the recorded position, deferring when there is none |
| TagDelegation.ClearAllContexts | src/main/java/com/vibey/imitari/api/tags/CopyBlockTagAPI.java:92-94 | the thread's slot is discarded |
| TagDelegation.UsesDynamicTags | src/main/java/com/vibey/imitari/api/tags/CopyBlockTagAPI.java:102-117 | false for blocks that are not copy blocks; a copy block's own setting otherwise |
| DestroySpeed.EffectiveMassMultiplier | src/main/java/com/vibey/imitari/mixin/BlockStateDestroySpeedMixin.java:82-98 | the block's per-state float override when it declares one, its mass multiplier otherwise |
| DestroySpeed.DynamicDestroySpeed | src/main/java/com/vibey/imitari/mixin/BlockStateDestroySpeedMixin.java:24-75 | overrides exactly for a copy block over a library copy-block entity; 0.5 for an empty copy, a disabled setting or a failing lookup; an unbreakable copy stays unbreakable; otherwise the copy's speed times the effective multiplier |
| DestroySpeed.FullCopyBreaksLikeOriginal | src/main/java/com/vibey/imitari/mixin/BlockStateDestroySpeedMixin.java:51-69 | a full-size copy breaks exactly like the block it copies |
| DestroySpeed.UnbreakableStaysUnbreakable | src/main/java/com/vibey/imitari/mixin/BlockStateDestroySpeedMixin.java:55-59 | an unbreakable copied block stays unbreakable whatever the shape |
| DestroySpeed.SpeedMonotoneInMultiplier | src/main/java/com/vibey/imitari/mixin/BlockStateDestroySpeedMixin.java:61-69 | a shape with a smaller multiplier is never harder to break than a larger one holding the same copy |
| Vs2Weights.LegacyCopied | src/main/java/com/vibey/copycraft/vs2/CopyCraftWeights.java:66-79 | a copy is found exactly when the entity is a legacy copy-block entity with a non-air copy, and it is that copy |
| Vs2Weights.CopyCraftWeights.constructor | src/main/java/com/vibey/copycraft/vs2/CopyCraftWeights.java:25-29 | no context is set |
| Vs2Weights.CopyCraftWeights.SetContext | src/main/java/com/vibey/copycraft/vs2/CopyCraftWeights.java:31-34 | the context becomes the given level and position |
| Vs2Weights.CopyCraftWeights.ClearContext | src/main/java/com/vibey/copycraft/vs2/CopyCraftWeights.java:36-39 | the context is removed |
| Vs2Weights.CopyCraftWeights.ContextCopy | src/main/java/com/vibey/copycraft/vs2/CopyCraftWeights.java:57-79 | a copy is reported only when a context is set and its position holds a legacy copy |
| Vs2Weights.CopyCraftWeights.GetBlockStateMass | src/main/java/com/vibey/copycraft/vs2/CopyCraftWeights.java:47-96 | a mass exactly for a copy variant whose context holds a non-air legacy copy the backend knows a mass for, and it is that mass times the variant's multiplier |
| Vs2Weights.CopyCraftWeights.GetBlockStateType | src/main/java/com/vibey/copycraft/vs2/CopyCraftWeights.java:98-130 | a type under the same guards (the mass may be absent), and it is the copy's backend type |
| Vs2Weights.CopyCraftWeights.InterceptStateInfo | src/main/java/com/vibey/copycraft/vs2/AlternativeVSMassContextMixin.java:36-84 | overrides the backend only for a copy variant with a copy in context |
| Vs2Weights.MassImpliesType | src/main/java/com/vibey/copycraft/vs2/CopyCraftWeights.java:47-130 | whenever the provider reports a mass it also reports a type |
| Vs2Weights.InterceptAgreesWithProvider | src/main/java/com/vibey/copycraft/vs2/AlternativeVSMassContextMixin.java:36-84 | the alternative mixin answers exactly when the provider reports a mass, and with the provider's mass and type |
| Vs2Weights.ClearedContextDelegatesNothing | src/main/java/com/vibey/copycraft/vs2/CopyCraftWeights.java:36-39 | once the context is cleared, no state gets a delegated mass or type |
| Vs2Weights.ModifyMass | src/main/java/com/vibey/copycraft/vs2/VS2MassMixin.java:20-41 | the assembled mass is scaled by the variant's multiplier exactly for a variant holding a non-air legacy copy; otherwise it is kept |
| Vs2Weights.ModifyMassScales | src/main/java/com/vibey/copycraft/vs2/VS2MassMixin.java:20-41 | a multiplier of 1 keeps the mass; two half variants weigh what one full block does |
| CacheCleaner.Step | src/main/java/com/vibey/copycraft/vs2/VSCacheCleaner.java:17-29 | a START tick changes nothing; an in-range counter stays below the 200-tick interval |
| CacheCleaner.EndTicksCount | src/main/java/com/vibey/copycraft/vs2/VSCacheCleaner.java:13-29 | after n END ticks the counter is (c + n) mod 200 and the cache was cleaned (c + n) div 200 times |
| CacheCleaner.OncePerInterval | src/main/java/com/vibey/copycraft/vs2/VSCacheCleaner.java:14 | from a fresh counter the cache is cleaned exactly once per 200 END ticks |
| CacheCleaner.VsCacheCleaner.constructor | src/main/java/com/vibey/copycraft/vs2/VSCacheCleaner.java:13 | the counter starts at zero |
| CacheCleaner.VsCacheCleaner.OnServerTick | src/main/java/com/vibey/copycraft/vs2/VSCacheCleaner.java:17-29 | the new counter and the cleaning follow Step, and the cleaning count grows by one exactly when the cache is cleaned |
| CbcArmor.Injected | src/main/java/com/vibey/imitari/compat/cbc/CBCIntegrationImpl.java:109-138 | entries already in the table are kept; every copy block of the registry gains the default entry (units 1, 1, 0.5, 1, no per-state units); nothing else is added |
| CbcArmor.ArmorHandler.constructor | src/main/java/com/vibey/imitari/compat/cbc/CBCIntegrationImpl.java:101-104 | the handler holds the given armor table |
| CbcArmor.ArmorHandler.InjectCopyBlocks | src/main/java/com/vibey/imitari/compat/cbc/CBCIntegrationImpl.java:98-145 | the scan leaves the table equal to Injected of the old one, and the count it returns is the number of keys added |
| CbcArmor.CopiedState | src/main/java/com/vibey/imitari/compat/cbc/CBCIntegrationImpl.java:161-167 | the library copy entity's copied state, air for any other entity or none |
| CbcArmor.EffectiveMultiplier | src/main/java/com/vibey/imitari/compat/cbc/CBCIntegrationImpl.java:244-265 | 1 for a block that is not a copy block |
| CbcArmor.ArmorMultiplierMatchesDestroySpeed | src/main/java/com/vibey/imitari/compat/cbc/CBCIntegrationImpl.java:244-265 | for a copy block it is the state's override when there is one, else the base multiplier, as in the destroy-speed delegation |
| CbcArmor.Hardness | src/main/java/com/vibey/imitari/compat/cbc/CBCIntegrationImpl.java:183-206 | the empty hardness for an empty copy, 1000 for an unbreakable copied block, else the copied hardness times the effective multiplier |
| CbcArmor.Toughness | src/main/java/com/vibey/imitari/compat/cbc/CBCIntegrationImpl.java:212-234 | the empty toughness for an empty copy, the explosion resistance for an unbreakable copied block, else the copied toughness times the effective multiplier |
| CbcArmor.InjectedEmptyValues | src/main/java/com/vibey/imitari/compat/cbc/CBCIntegrationImpl.java:123-128 | an injected block with nothing copied has hardness 1 and toughness 0.5 |
| CbcArmor.FullCopyArmorsLikeOriginal | src/main/java/com/vibey/imitari/compat/cbc/CBCIntegrationImpl.java:196-205 | a full-size copy of a breakable block is exactly as hard and tough as the block it copies |
| CopyModel.DirectionsInOrdinalOrder | src/main/java/com/vibey/copycraft/client/CopyBlockModel.java:165 | the six directions are listed so that each sits at its ordinal, the index of its cull flag |
| CopyModel.ApplyLogRotation | src/main/java/com/vibey/copycraft/client/CopyBlockModel.java:103-124 | the unculled face stays unculled; rotations other than 1 and 2 sample the face itself |
| CopyModel.RotationOneIsInvolution | src/main/java/com/vibey/copycraft/client/CopyBlockModel.java:108-114 | rotation 1 swaps up with south and down with north, fixes east and west, and undoes itself |
| CopyModel.RotationTwoIsFourCycle | src/main/java/com/vibey/copycraft/client/CopyBlockModel.java:115-121 | rotation 2 cycles up, east, down, west and fixes north and south |
| CopyModel.RotationInjective | src/main/java/com/vibey/copycraft/client/CopyBlockModel.java:103-124 | distinct faces always sample distinct faces of the copied model |
| CopyModel.RemapMapsCorners | src/main/java/com/vibey/copycraft/client/CopyBlockModel.java:135-139 | the old sprite's bounds land on the new sprite's bounds |
| CopyModel.RemapRoundTrip | src/main/java/com/vibey/copycraft/client/CopyBlockModel.java:135-139 | remapping to the new sprite and back recovers the texture coordinate |
| CopyModel.RemapMonotone | src/main/java/com/vibey/copycraft/client/CopyBlockModel.java:135-139 | the remap keeps the order of coordinates between sprites laid out the same way |
| CopyModel.RemappedQuad | src/main/java/com/vibey/copycraft/client/CopyBlockModel.java:126-148 | only the eight u/v words change, each moved to the new sprite; the sprite is the new one, the tint the source quad's when there is one, the face and shading the original's |
| CopyModel.RemapQuadTexture | src/main/java/com/vibey/copycraft/client/CopyBlockModel.java:126-148 | the quad built on a cloned buffer, four vertices at a time, is RemappedQuad |
| CopyModel.FaceQuads | src/main/java/com/vibey/copycraft/client/CopyBlockModel.java:81-84 | the copied model's quads for the rotated face, or its unculled quads when that face has none |
| CopyModel.GetQuads | src/main/java/com/vibey/copycraft/client/CopyBlockModel.java:52-101 | no copy: the base quads unchanged; a culled side: no quads; otherwise each base quad in order re-textured with the sprite and tint of the first quad of the rotated face (the particle sprite when there is none) |
| CopyModel.Lower | src/main/java/com/vibey/copycraft/client/CopyBlockModel.java:243 | same length; exactly the ASCII capitals are lowered |
| CopyModel.ContainsIffOccurs | src/main/java/com/vibey/copycraft/client/CopyBlockModel.java:243 | the front-to-back scan answers true exactly when the text occurs at some index |
| CopyModel.ShouldCullMatchingFaces | src/main/java/com/vibey/copycraft/client/CopyBlockModel.java:239-260 | culling applies exactly to glass, tinted glass, the three ices, slime, honey and every block whose lowered display name contains "glass" |
| CopyModel.GlassNamedBlocksCull | src/main/java/com/vibey/copycraft/client/CopyBlockModel.java:243 | a display name spelling "glass" anywhere in any case enables culling |
| CopyModel.CullsToward | src/main/java/com/vibey/copycraft/client/CopyBlockModel.java:164-187 | a face is culled only for a non-air culling copy whose neighbour covers it and, when the neighbour is a legacy copy, copies the same block, otherwise is that block |
| CopyModel.MatchingCopiesCullEachOther | src/main/java/com/vibey/copycraft/client/CopyBlockModel.java:175-181 | two copies of the same culling block that cover each other cull the shared face on both sides |
| CopyModel.CullMask | src/main/java/com/vibey/copycraft/client/CopyBlockModel.java:160-190 | six flags, the flag at each direction's ordinal being that direction's cull decision |
| CopyModel.GetModelData | src/main/java/com/vibey/copycraft/client/CopyBlockModel.java:152-203 | a legacy copy entity publishes its copy, its rotation and the cull mask; anything else air, rotation 0 and six false flags |
| CopyModel.NonCullingCopyShowsEveryFace | src/main/java/com/vibey/copycraft/client/CopyBlockModel.java:164 | a copy of a block that does not cull matching faces never has a face culled |
| CopyModel.FromCopiedOrBase | src/main/java/com/vibey/copycraft/client/CopyBlockModel.java:275-300 | the copied model answers for a non-air copy, the base model otherwise |
| MultiPartModel.SelectedQuadsAppend | src/main/java/com/vibey/imitari/client/CopyBlockMultiPartModel.java:54-72 | the selection over two runs of selectors is the two selections concatenated in order |
| MultiPartModel.NoSelectedPartNoQuads | src/main/java/com/vibey/imitari/client/CopyBlockMultiPartModel.java:57 | parts that reject the state contribute nothing |
| MultiPartModel.GetQuads | src/main/java/com/vibey/imitari/client/CopyBlockMultiPartModel.java:46-73 | no state: no quads; otherwise the copy-model quads of every accepting part, concatenated in selector order |
| ModelProvider.LastSlash | src/main/java/com/vibey/imitari/client/CopyBlockModelProvider.java:80 | lastIndexOf('/'): -1 or the position of a '/', with no '/' after it in the range searched |
| ModelProvider.LastSegment | src/main/java/com/vibey/imitari/client/CopyBlockModelProvider.java:80 | a suffix of the path with no '/', and either the whole path or preceded by its last '/' |
| ModelProvider.LastSegmentOfChild | src/main/java/com/vibey/imitari/client/CopyBlockModelProvider.java:101 | the last segment of "dir/name" is the name |
| ModelProvider.OnlySlashOfBlockPath | src/main/java/com/vibey/imitari/client/CopyBlockModelProvider.java:84 | "item/" cannot occur at any index of "block/name" |
| ModelProvider.BlockPathIsNoItemPath | src/main/java/com/vibey/imitari/client/CopyBlockModelProvider.java:84 | a "block/" model path never counts as an item model through "item/" |
| ModelProvider.LibraryBlockModelsWrapped | src/main/java/com/vibey/imitari/client/CopyBlockModelProvider.java:78-89 | every non-inventory library model under block/ whose name starts with "copy_block" is wrapped |
| ModelProvider.WrappedSelectors | src/main/java/com/vibey/imitari/client/CopyBlockModelProvider.java:136-140 | one wrapped part per part, with the same condition, at the same position, its model inside a copy model |
| ModelProvider.BakedPartsShowSameQuads | src/main/java/com/vibey/imitari/client/CopyBlockMultiPartModel.java:55-68 | for every state, the parts the bake wrapped show the same quads as the unwrapped parts wrapped on the fly, when no part was a copy model already |
| ModelProvider.Wrapped | src/main/java/com/vibey/imitari/client/CopyBlockModelProvider.java:130-153 | the result is always a wrapper: a copy multipart model over the base for a multipart model with recovered, non-empty parts, else a copy model around the model |
| ModelProvider.WrapSelectors | src/main/java/com/vibey/imitari/client/CopyBlockModelProvider.java:136-140 | the selector loop builds WrappedSelectors |
| ModelProvider.Baked | src/main/java/com/vibey/imitari/client/CopyBlockModelProvider.java:54-165 | the key set is kept; wrapped, non-matching and failing entries keep their model; the rest hold their wrapper |
| ModelProvider.BakeIdempotent | src/main/java/com/vibey/imitari/client/CopyBlockModelProvider.java:67-70 | a second bake leaves the registry as the first left it |
| ModelProvider.WrapModel | src/main/java/com/vibey/imitari/client/CopyBlockModelProvider.java:127-153 | the try block builds Wrapped of the model |
| ModelProvider.ChangedAreWrapped | src/main/java/com/vibey/imitari/client/CopyBlockModelProvider.java:155-161 | the entries whose model changed are exactly the successful wraps |
| ModelProvider.WrapAll | src/main/java/com/vibey/imitari/client/CopyBlockModelProvider.java:123-162 | the second pass replaces exactly the collected entries that do not fail, and the count is the number of changed entries |
| ModelProvider.BakeLoopComputesBaked | src/main/java/com/vibey/imitari/client/CopyBlockModelProvider.java:63-162 | the two passes together compute Baked |
| ModelProvider.ChangedKeys | src/main/java/com/vibey/imitari/client/CopyBlockModelProvider.java:156 | the keys present before and after whose model differs |
| ModelProvider.ModelRegistry.constructor | src/main/java/com/vibey/imitari/client/CopyBlockModelProvider.java:57 | the registry holds the given models |
| ModelProvider.ModelProvider.constructor | src/main/java/com/vibey/imitari/client/CopyBlockModelProvider.java:30 | no block is registered |
| ModelProvider.ModelProvider.RegisterBlock | src/main/java/com/vibey/imitari/client/CopyBlockModelProvider.java:32-34 | the id is added to the registered set |
| ModelProvider.ModelProvider.RegisterBlockOf | src/main/java/com/vibey/imitari/client/CopyBlockModelProvider.java:36-41 | the block's key is added when it has one; nothing changes otherwise |
| ModelProvider.ModelProvider.AutoRegisterForMod | src/main/java/com/vibey/imitari/client/CopyBlockModelProvider.java:43-52 | exactly the mod's dynamic-model copy blocks are added |
| ModelProvider.ModelProvider.MatchesRegisteredBlock | src/main/java/com/vibey/imitari/client/CopyBlockModelProvider.java:92-113 | true exactly when some registered block matches the model: same namespace, last segment equal to the block path or starting with it and '_', not an item model |
| ModelProvider.ModelProvider.CollectToWrap | src/main/java/com/vibey/imitari/client/CopyBlockModelProvider.java:63-118 | collects exactly the unwrapped models whose id matches the library rule or a registered block |
| ModelProvider.ModelProvider.OnModelBake | src/main/java/com/vibey/imitari/client/CopyBlockModelProvider.java:54-165 | the registry becomes Baked of the old one and the count is the number of entries replaced |
| ModelProvider.ModelProvider.GetRegisteredBlocks | src/main/java/com/vibey/imitari/client/CopyBlockModelProvider.java:211-213 | a snapshot equal to the registered set |
| ModelProvider.ModelProvider.ClearRegistrations | src/main/java/com/vibey/imitari/client/CopyBlockModelProvider.java:215-217 | the registered set is empty |
| RenderQueue.SectionOf | src/main/java/com/vibey/copycraft/client/ClientEventsHandler.java:38-40 | the section's 16-block span along each axis contains the position, negative coordinates included |
| RenderQueue.NeighbourhoodMembers | src/main/java/com/vibey/copycraft/client/ClientEventsHandler.java:43-53 | the marked neighbourhood is exactly the sections within one of the block's section on every axis |
| RenderQueue.MarksAdd | src/main/java/com/vibey/copycraft/client/ClientEventsHandler.java:32-55 | draining one more position adds its neighbourhood when it holds a copy entity and nothing otherwise |
| RenderQueue.SectionRenderer.constructor | src/main/java/com/vibey/copycraft/client/ClientEventsHandler.java:46 | no section is dirty |
| RenderQueue.SectionRenderer.SetSectionDirty | src/main/java/com/vibey/copycraft/client/ClientEventsHandler.java:46-50 | the section joins the dirty set |
| RenderQueue.PendingUpdates.constructor | src/main/java/com/vibey/copycraft/client/ClientEventsHandler.java:19 | the queue starts empty |
| RenderQueue.PendingUpdates.QueueBlockUpdate | src/main/java/com/vibey/copycraft/client/ClientEventsHandler.java:21-23 | the position joins the queue; a repeated position coalesces |
| RenderQueue.PendingUpdates.MarkAround | src/main/java/com/vibey/copycraft/client/ClientEventsHandler.java:38-53 | the nested sweep marks exactly the 3x3x3 neighbourhood of the position's section |
| RenderQueue.PendingUpdates.OnClientTick | src/main/java/com/vibey/copycraft/client/ClientEventsHandler.java:26-59 | without END phase, queued work, level or renderer nothing changes; otherwise every neighbourhood of a queued copy entity is marked, nothing else, and the queue is emptied |
| World.ParseResourceLocation | src/main/java/com/vibey/copycraft/blockentity/CopyBlockEntity.java:105-106 | a parsed namespace and path use only the allowed characters, and a colon-free valid id lands in the "minecraft" namespace |
| World.ItemStack.GetItem | src/main/java/com/vibey/copycraft/block/CopyBlock.java:67 | a block item is reported only for a non-empty stack, and it is the stack's item |
| World.ItemStack.Shrink | src/main/java/com/vibey/copycraft/core/ICopyBlock.java:77 | the item is kept and the count drops by exactly n |
| World.Wrap32 | src/main/java/com/vibey/copycraft/blockentity/CopyBlockEntity.java:74 | the result is in the int range, equals the input there, and differs from it by a multiple of 2^32 |
| Nbt.CompoundTag.Put | src/main/java/com/vibey/copycraft/blockentity/CopyBlockEntity.java:173-177 | the key is bound to the value and no other key changes |
| Nbt.JavaFloor | src/main/java/com/vibey/copycraft/blockentity/CopyBlockEntity.java:136 | in the int range, the floor of values inside it; the largest int above it and, by the wrapped subtraction, below it too |
| Nbt.GetInt | src/main/java/com/vibey/copycraft/blockentity/CopyBlockEntity.java:136 | an int is returned as stored, a float or double as its `Mth.floor` (the floor within the int range, the largest int outside it); a missing or non-numeric tag reads as zero |
| Nbt.GetFloat | src/main/java/com/vibey/copycraft/core/MaterialData.java:86-87 | any numeric tag is returned as its value; a missing or non-numeric tag reads as zero |
| Nbt.GetDouble | src/main/java/com/vibey/copycraft/core/CopyBlockEntity.java:147 | any numeric tag is returned as its value; a missing or non-numeric tag reads as zero |
| Nbt.GetString | src/main/java/com/vibey/copycraft/blockentity/CopyBlockEntity.java:105 | a string stored under the key is returned; otherwise the result is empty |
| Nbt.GetStack | src/main/java/com/vibey/copycraft/core/CopyBlockEntity.java:146 | a stack stored under the key is returned; otherwise the result is the empty stack |
| Nbt.ReadBlockState | src/main/java/com/vibey/copycraft/core/CopyBlockEntity.java:145 | a missing state tag reads as air; a present one cannot be read without a block lookup; with one it reads as the stored state when its block is registered and as air otherwise |
| Nbt.ResolveBlockId | src/main/java/com/vibey/copycraft/blockentity/CopyBlockEntity.java:105-107 | an id is resolved exactly when it parses, to the default state of the parsed name when that is registered and to air otherwise |

## Left out

- Floating point: hardness, resistance, mass, multipliers and texture coordinates are exact reals, so float rounding and the int/float bit conversions of the vertex words (`toFloat`/`toBits` are parameters) are not modelled.
- Voxel-shape geometry: shapes are sets of boxes in sixteenths, and the face-coverage test of the legacy model (`doesNeighborCoverFace`) is an opaque predicate `covers`.
- The host game's lookups are parameters: block display names, the copied model's quads and particle sprite, the backend mass and type, the tag test, the clock (`now`), the block registry's entries and the selector predicates of multipart parts.
- Reflection: the reflective `getEffectiveMassMultiplier` lookup is an `Option` override; reading the armour handler's private table and a multipart model's selector field are modelled by their outcomes (the table itself; recovered parts or none); a reflection failure in the armour injection, which only logs, is not modelled.
- Thread locality: each per-thread context is one object; there is no concurrency.
- Logging, chat messages, sounds, `requestModelDataUpdate`, and the details of `sendBlockUpdated`/`updateNeighborsAt` are not modelled; the block entity changes they announce are.
- Networking: `getUpdatePacket` and `onDataPacket` of the legacy entity are not modelled beyond `HandleUpdateTag`; the packet simply carries the same tag.
- The legacy entity's `getModelData` only wraps the record the model reads; the model's own `GetModelData` is modelled instead.
- The `copyblock$` hooks the core interface's default methods expose to the base block are modelled only through the operations they call.
- The parent-class effects of `super.onRemove` and `super.setPlacedBy` (removing the block entity, stats) are not modelled.
- Lower-casing folds only ASCII letters; Java's locale-aware `toLowerCase` on other scripts is not modelled.
- Vertical neighbours: a fence ignores them in `updateShape` and a wall only sets `up` from them, as the code does; a level's cells keep only the connection-relevant block states (air, walls, fences, fence gates, other blocks by id), so no other vertical context is modelled.
- The Valkyrien Skies provider's `getSolidBlockStates`, `getLiquidBlockStates` and `getBlockStateData` return empty lists, `invalidateCache`/`cleanCache` do nothing, and registering the provider with the physics mod is plumbing; none is modelled beyond the priority constant.
- Registering the armour serializer for each block (`CBCIntegrationImpl.register`) hands a factory to the cannon mod and is not modelled; the reload listener is reduced to the injection it runs.
- MultiPartModel: the multipart model's particle icon and render types use the same choice as `CopyModel.FromCopiedOrBase`; they are not separate members. Its `getModelData`, which hands over to the legacy model's `getModelData` (modelled as `CopyModel.GetModelData`), and its three-argument `getQuads` overload, which returns the base model's quads unchanged, are not modelled as members either.
- Nbt.ReadBlockState: a registered block's stored state is returned whole; the game rebuilds the state from the block's defaults and drops properties the block lacks or values that do not parse, and that re-validation is not modelled (states the mod writes itself are always valid).
- CopyModel.GetQuads: requires every base quad to carry at least the four vertices' words and a sprite with area; Java would throw on a short buffer and divide into NaN for a zero-area sprite, and neither outcome is modelled.
- Constant-only block classes (full, ghost, wing and the library's plain copy block) appear only as entries of the shape-multiplier table.

## Findings

| source | as written | input that shows it | evidently intended | confidence | as-written member | corrected member |
|---|---|---|---|---|---|---|
| src/main/java/com/vibey/copycraft/blockentity/CopyBlockEntity.java:100-178 | an empty entity saves no copy key, and `load` with neither key keeps the copy it had | a client entity copying stone with rotation 1 loads the update tag of a server entity that was cleared | a tag without a copy means nothing is copied, so a cleared copy reaches the client | high, not executed | LegacyEntity.ClearedCopyNotPropagated | LegacyEntity.IntendedSaveThenLoad |
| src/main/java/com/vibey/copycraft/core/CopyBlockEntity.java:134-148 | `load` reads the saved material with a null block lookup, which throws for any named state, and the saved material is always named | any saved consumed-item copy entity, even an empty one (its material is air, saved as "minecraft:air") | the level's block lookup is used, so save then load restores material, item and volume factor | medium, not executed | CoreEntity.SavedRecordNeverLoads | CoreEntity.IntendedSaveThenLoad |
| src/main/java/com/vibey/copycraft/core/MaterialData.java:76-89 | `load` reads the saved material with a null block lookup, as above | any saved material snapshot | the block lookup is used, so save then load restores all four fields | medium, not executed | MaterialSnapshot.SavedSnapshotNeverLoads | MaterialSnapshot.IntendedSaveThenLoad |
| src/main/java/com/vibey/copycraft/core/ICopyBlock.java:66-78 | the entity records the whole held stack, and only then is the stack shrunk by one | a survival player applies stone from a stack of 64 and removes it again: 63 stay in hand and 64 are refunded | the entity records the one item consumed, so items are conserved | high, not executed | CoreBlock.AsWrittenRefundsWholeStack | CoreBlock.IntendedConservesItems |
| src/main/java/com/vibey/imitari/block/CopyBlockWall.java:138-166 | placement computes the new wall's own sides, but the neighbour update that would join the walls beside it goes through an `updateShape` overload the game never calls | a wall stands at (0, 0, -1) and a wall is placed at (0, 0, 0): the new wall is low toward north, the old one has no side toward south | the walls beside the placed one are recomputed too, as removal does, so both join each other | medium, not executed | Wall.PlacementLeavesNeighbourUnjoined | Wall.PlacedWallsJoinBothWays |
