/**
 * The legacy copy-block entity: it holds the copied block state and a
 * virtual rotation (0 = Y axis, 1 = Z axis, 2 = X axis). Copying the same
 * block again turns the rotation; copying another block replaces it.
 */
module LegacyEntity {
  import opened Wrappers
  import opened World
  import opened Nbt
  import RenderQueue

  const CopiedBlockIdKey := "CopiedBlockId"
  const CopiedBlockKey := "CopiedBlock"
  const VirtualRotationKey := "VirtualRotation"

  /** Java's `%`: the remainder takes the sign of the dividend. */
  function JavaRem(a: int, n: int): (r: int)
    requires n > 0
    ensures a >= 0 ==> 0 <= r < n
    ensures a < 0 ==> -n < r <= 0
  {
    if a >= 0 then a % n else -((-a) % n)
  }

  /** What the entity holds. */
  datatype Record = Record(copied: BlockState, rotation: int)

  /** A newly created entity: nothing copied, rotation 0. */
  const Fresh := Record(AirState, 0)

  /** A rotation the model layer knows: one of the three axes. */
  predicate ValidRotation(rec: Record)
  {
    0 <= rec.rotation < 3
  }

  /**
   * setCopiedBlock: the same block over a non-air copy turns the rotation
   * and keeps the stored state; anything else is stored with the rotation
   * reset, so a different material replaces the copy rather than being
   * refused.
   */
  function SetCopied(rec: Record, newBlock: BlockState): (r: Record)
    ensures r.copied.block == newBlock.block
    ensures newBlock == AirState ==> r == Fresh
    ensures ValidRotation(rec) ==> ValidRotation(r)
    ensures !rec.copied.IsAir() && rec.copied.block == newBlock.block ==>
      r == Record(rec.copied, JavaRem(Wrap32(rec.rotation + 1), 3))
    ensures rec.copied.IsAir() || rec.copied.block != newBlock.block ==> r == Record(newBlock, 0)
  {
    if !rec.copied.IsAir() && rec.copied.block == newBlock.block then
      Record(rec.copied, JavaRem(Wrap32(rec.rotation + 1), 3))
    else
      Record(newBlock, 0)
  }

  /**
   * The increment is Java int arithmetic: a rotation stored as the largest
   * int wraps to the smallest, whose remainder is -2, so the entity leaves
   * the three axes.
   */
  lemma RotationWrapsAtIntMax(copied: BlockState)
    requires !copied.IsAir()
    ensures SetCopied(Record(copied, IntMax), copied) == Record(copied, -2)
    ensures !ValidRotation(SetCopied(Record(copied, IntMax), copied))
  {
  }

  /** Applying the same block `n` times in a row. */
  function SetCopiedRepeatedly(rec: Record, b: BlockState, n: nat): Record
  {
    if n == 0 then rec else SetCopied(SetCopiedRepeatedly(rec, b, n - 1), b)
  }

  /**
   * Re-applying the block already copied cycles the rotation through the
   * three axes: after `n` more applications it has advanced by `n` mod 3,
   * and the stored state never changes.
   */
  lemma {:induction false} RotationCycles(rec: Record, b: BlockState, n: nat)
    requires ValidRotation(rec) && !rec.copied.IsAir() && rec.copied.block == b.block
    ensures SetCopiedRepeatedly(rec, b, n) == Record(rec.copied, (rec.rotation + n) % 3)
  {
    if n > 0 {
      RotationCycles(rec, b, n - 1);
      var prior := SetCopiedRepeatedly(rec, b, n - 1);
      assert Wrap32(prior.rotation + 1) == prior.rotation + 1;
      NextRemainder(rec.rotation + n - 1);
    }
  }

  /** Advancing a remainder by one is the remainder of the successor. */
  lemma NextRemainder(k: nat)
    ensures JavaRem(k % 3 + 1, 3) == (k + 1) % 3
  {
    assert k == 3 * (k / 3) + k % 3;
    if k % 3 == 2 {
      assert k + 1 == 3 * (k / 3 + 1);
    } else {
      assert k + 1 == 3 * (k / 3) + (k % 3 + 1);
    }
  }

  /** saveAdditional: the copied block (id and full state) unless air, and always the rotation. */
  function SaveEntries(rec: Record, m: map<string, Value>): (r: map<string, Value>)
    ensures r.Keys == m.Keys + {VirtualRotationKey}
                    + (if rec.copied.IsAir() then {} else {CopiedBlockIdKey, CopiedBlockKey})
    ensures forall k :: k in m && k !in {VirtualRotationKey, CopiedBlockIdKey, CopiedBlockKey} ==> r[k] == m[k]
  {
    var withBlock :=
      if !rec.copied.IsAir() then m[CopiedBlockIdKey := StringValue(rec.copied.block)][CopiedBlockKey := StateValue(rec.copied)]
      else m;
    withBlock[VirtualRotationKey := IntValue(rec.rotation)]
  }

  /**
   * The copied state `load` leaves behind. A stored id resolves to its
   * block's default state, refined by the stored full state when that can
   * be read; a malformed id gives air. A full state alone is read, or air
   * when reading fails. With neither key the current state stays.
   */
  function LoadedCopy(current: BlockState, m: map<string, Value>, hasLookup: bool, registry: set<BlockId>): (r: BlockState)
    ensures CopiedBlockIdKey !in m && CopiedBlockKey !in m ==> r == current
    ensures CopiedBlockIdKey in m && ParseResourceLocation(GetString(m, CopiedBlockIdKey)).None? ==> r == AirState
    ensures (CopiedBlockIdKey in m || CopiedBlockKey in m) && !r.IsAir() ==> r.block in registry
    ensures CopiedBlockIdKey in m && ResolveBlockId(registry, GetString(m, CopiedBlockIdKey)).Some? ==>
      var base := ResolveBlockId(registry, GetString(m, CopiedBlockIdKey)).value;
      r == if CopiedBlockKey !in m || (m[CopiedBlockKey].StateValue? && !hasLookup) then base
           else if m[CopiedBlockKey].StateValue? && m[CopiedBlockKey].state.block in registry then m[CopiedBlockKey].state
           else AirState
    ensures CopiedBlockIdKey !in m && CopiedBlockKey in m ==>
      r == if m[CopiedBlockKey].StateValue? && hasLookup && m[CopiedBlockKey].state.block in registry
           then m[CopiedBlockKey].state else AirState
  {
    if CopiedBlockIdKey in m then
      match ResolveBlockId(registry, GetString(m, CopiedBlockIdKey))
      case None => AirState
      case Some(base) =>
        if CopiedBlockKey in m then ReadBlockState(hasLookup, registry, m, CopiedBlockKey).GetOr(base) else base
    else if CopiedBlockKey in m then
      ReadBlockState(hasLookup, registry, m, CopiedBlockKey).GetOr(AirState)
    else
      current
  }

  /** load, as written: the rotation is always overwritten (0 when absent). */
  function LoadRecord(rec: Record, m: map<string, Value>, hasLookup: bool, registry: set<BlockId>): (r: Record)
    ensures r.rotation == GetInt(m, VirtualRotationKey)
    ensures CopiedBlockIdKey !in m && CopiedBlockKey !in m ==> r.copied == rec.copied
  {
    Record(LoadedCopy(rec.copied, m, hasLookup, registry), GetInt(m, VirtualRotationKey))
  }

  /**
   * Saving a copy of a registered block and loading it back restores the
   * record exactly when the level's block lookup is available (an update
   * packet on the client). Without a level (loading from disk) the state's
   * properties cannot be read and only the block survives, as its default
   * state.
   */
  lemma SaveThenLoad(prior: Record, rec: Record, hasLookup: bool, registry: set<BlockId>)
    requires !rec.copied.IsAir() && rec.copied.block in registry && CanonicalId(rec.copied.block)
    ensures LoadRecord(prior, SaveEntries(rec, map[]), hasLookup, registry)
         == if hasLookup then rec else Record(DefaultState(rec.copied.block), rec.rotation)
  {
    var m := SaveEntries(rec, map[]);
    assert GetString(m, CopiedBlockIdKey) == rec.copied.block;
    assert ResolveBlockId(registry, rec.copied.block) == Some(DefaultState(rec.copied.block));
  }

  /**
   * As written, an update tag saved from an empty entity carries only the
   * rotation, so loading it leaves a previously copied block in place: a
   * copy cleared on the server stays visible on the client.
   */
  lemma ClearedCopyNotPropagated()
    ensures var stone := DefaultState("minecraft:stone");
            LoadRecord(Record(stone, 1), SaveEntries(Fresh, map[]), true, {"minecraft:stone"}) == Record(stone, 0)
  {
  }

  /** load as evidently intended: a tag without a copied block means nothing is copied. */
  function LoadRecordIntended(rec: Record, m: map<string, Value>, hasLookup: bool, registry: set<BlockId>): (r: Record)
    ensures r.rotation == GetInt(m, VirtualRotationKey)
    ensures CopiedBlockIdKey !in m && CopiedBlockKey !in m ==> r.copied == AirState
  {
    var current := if CopiedBlockIdKey in m || CopiedBlockKey in m then rec.copied else AirState;
    Record(LoadedCopy(current, m, hasLookup, registry), GetInt(m, VirtualRotationKey))
  }

  /** With the intended load an update tag always reproduces the server's record, cleared or not. */
  lemma IntendedSaveThenLoad(prior: Record, rec: Record, registry: set<BlockId>)
    requires rec.copied.IsAir() ==> rec.copied == AirState
    requires !rec.copied.IsAir() ==> rec.copied.block in registry && CanonicalId(rec.copied.block)
    ensures LoadRecordIntended(prior, SaveEntries(rec, map[]), true, registry) == rec
  {
    if !rec.copied.IsAir() {
      SaveThenLoad(prior, rec, true, registry);
    }
  }

  /** The legacy copy-block entity at `pos`. */
  class CopyBlockEntity {
    const pos: Pos
    var copiedBlock: BlockState
    var virtualRotation: int

    function State(): Record
      reads this
    {
      Record(copiedBlock, virtualRotation)
    }

    constructor (pos: Pos)
      ensures this.pos == pos && State() == Fresh
    {
      this.pos := pos;
      copiedBlock := AirState;
      virtualRotation := 0;
    }

    /** Turns the virtual rotation to the next axis: Y, then Z, then X. */
    method RotateBlock()
      modifies this
      ensures copiedBlock == old(copiedBlock)
      ensures virtualRotation == JavaRem(Wrap32(old(virtualRotation) + 1), 3)
    {
      virtualRotation := JavaRem(Wrap32(virtualRotation + 1), 3);
    }

    /**
     * Copies `newBlock` (or turns the rotation when it is the block already
     * copied); on the server the change is broadcast to clients.
     */
    method SetCopiedBlock(newBlock: BlockState, side: Side) returns (broadcast: bool)
      modifies this
      ensures State() == SetCopied(old(State()), newBlock)
      ensures broadcast <==> side == ServerSide
    {
      if !copiedBlock.IsAir() && copiedBlock.block == newBlock.block {
        RotateBlock();
      } else {
        copiedBlock := newBlock;
        virtualRotation := 0;
      }
      broadcast := side == ServerSide;
    }

    function HasCopiedBlock(): (b: bool)
      reads this
      ensures b <==> !copiedBlock.IsAir()
      ensures !b ==> forall x :: SetCopied(State(), x) == Record(x, 0)
    {
      !copiedBlock.IsAir()
    }

    method SaveAdditional(tag: CompoundTag)
      modifies tag
      ensures tag.entries == SaveEntries(State(), old(tag.entries))
    {
      if !copiedBlock.IsAir() {
        tag.Put(CopiedBlockIdKey, StringValue(copiedBlock.block));
        tag.Put(CopiedBlockKey, StateValue(copiedBlock));
      }
      tag.Put(VirtualRotationKey, IntValue(virtualRotation));
    }

    /** Reads the tag; the block lookup exists only once the entity is in a level. */
    method Load(tag: CompoundTag, side: Side, registry: set<BlockId>)
      modifies this
      ensures State() == LoadRecord(old(State()), tag.entries, side != NoLevel, registry)
    {
      var m := tag.entries;
      var hasLookup := side != NoLevel;
      if CopiedBlockIdKey in m {
        var resolved := ResolveBlockId(registry, GetString(m, CopiedBlockIdKey));
        if resolved.None? {
          copiedBlock := AirState;
        } else {
          copiedBlock := resolved.value;
          if CopiedBlockKey in m {
            var read := ReadBlockState(hasLookup, registry, m, CopiedBlockKey);
            if read.Some? {
              copiedBlock := read.value;
            }
          }
        }
      } else if CopiedBlockKey in m {
        var read := ReadBlockState(hasLookup, registry, m, CopiedBlockKey);
        copiedBlock := if read.Some? then read.value else AirState;
      }
      virtualRotation := GetInt(m, VirtualRotationKey);
    }

    /**
     * Applies an update tag; on the client, a change of copied state or
     * rotation queues this position for a re-render.
     */
    method HandleUpdateTag(tag: CompoundTag, side: Side, registry: set<BlockId>, queue: RenderQueue.PendingUpdates)
      returns (queued: bool)
      modifies this, queue
      ensures State() == LoadRecord(old(State()), tag.entries, side != NoLevel, registry)
      ensures queued <==> side == ClientSide && State() != old(State())
      ensures queue.pending == if queued then old(queue.pending) + {pos} else old(queue.pending)
    {
      var oldState := copiedBlock;
      var oldRotation := virtualRotation;
      Load(tag, side, registry);
      queued := side == ClientSide && (oldState != copiedBlock || oldRotation != virtualRotation);
      if queued {
        queue.QueueBlockUpdate(pos);
      }
    }
  }
}
