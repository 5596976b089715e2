/**
 * The legacy copy block's baked model: it keeps the base model's geometry
 * and re-textures every quad with the copied block's sprite, turning the
 * sampled face by the entity's virtual rotation and culling faces between
 * matching transparent neighbours.
 */
module CopyModel {
  import opened Wrappers
  import opened World

  /** The four texture-space bounds of an atlas sprite. */
  datatype Sprite = Sprite(u0: real, u1: real, v0: real, v1: real)
  {
    /** Neither axis of the sprite is degenerate. */
    predicate HasArea()
    {
      u0 != u1 && v0 != v1
    }
  }

  /** A baked quad: packed vertex words, tint index, face, sprite and shading flag. */
  datatype Quad = Quad(vertices: seq<int>, tint: int, direction: Direction, sprite: Sprite, shade: bool)

  /** The model data the entity publishes: copied state, virtual rotation and per-face cull flags. */
  datatype ModelData = ModelData(copied: Option<BlockState>, rotation: Option<int>, cullFaces: Option<seq<bool>>)

  /** The six directions in ordinal order. */
  const Directions: seq<Direction> := [Down, Up, North, South, West, East]

  lemma DirectionsInOrdinalOrder()
    ensures |Directions| == 6
    ensures forall i :: 0 <= i < 6 ==> Directions[i].Ordinal() == i
    ensures forall d: Direction :: Directions[d.Ordinal()] == d
  {
  }

  // ---------------------------------------------------------------------
  // applyLogRotation
  // ---------------------------------------------------------------------

  /**
   * The face of the copied model sampled for `face` under a virtual
   * rotation: 1 turns about the X axis, 2 about the Z axis, anything else
   * is the identity.
   */
  function ApplyLogRotation(face: Option<Direction>, rotation: int): (r: Option<Direction>)
    ensures r.Some? <==> face.Some?
    ensures rotation != 1 && rotation != 2 ==> r == face
  {
    if face.None? || rotation == 0 then face
    else if rotation == 1 then
      Some(match face.value
           case Up => South
           case Down => North
           case North => Down
           case South => Up
           case other => other)
    else if rotation == 2 then
      Some(match face.value
           case Up => East
           case Down => West
           case East => Down
           case West => Up
           case other => other)
    else face
  }

  /** Rotation 1 swaps up with south and down with north and fixes east and west, so applying it twice is the identity. */
  lemma RotationOneIsInvolution(face: Option<Direction>)
    ensures ApplyLogRotation(Some(Up), 1) == Some(South)
    ensures ApplyLogRotation(Some(South), 1) == Some(Up)
    ensures ApplyLogRotation(Some(Down), 1) == Some(North)
    ensures ApplyLogRotation(Some(North), 1) == Some(Down)
    ensures face in {Some(East), Some(West)} ==> ApplyLogRotation(face, 1) == face
    ensures ApplyLogRotation(ApplyLogRotation(face, 1), 1) == face
    ensures ApplyLogRotation(face, 1) in {Some(West), Some(East)} ==> ApplyLogRotation(face, 1) == face
  {
  }

  /** Rotation 2 cycles up, east, down, west and fixes north and south. */
  lemma RotationTwoIsFourCycle(face: Option<Direction>)
    ensures ApplyLogRotation(Some(Up), 2) == Some(East)
    ensures ApplyLogRotation(Some(East), 2) == Some(Down)
    ensures ApplyLogRotation(Some(Down), 2) == Some(West)
    ensures ApplyLogRotation(Some(West), 2) == Some(Up)
    ensures face in {Some(North), Some(South)} ==> ApplyLogRotation(face, 2) == face
    ensures ApplyLogRotation(ApplyLogRotation(ApplyLogRotation(ApplyLogRotation(face, 2), 2), 2), 2) == face
  {
  }

  /** Every rotation is a permutation of the faces: distinct faces sample distinct faces. */
  lemma RotationInjective(f: Option<Direction>, g: Option<Direction>, rotation: int)
    ensures ApplyLogRotation(f, rotation) == ApplyLogRotation(g, rotation) ==> f == g
  {
  }

  // ---------------------------------------------------------------------
  // remapQuadTexture
  // ---------------------------------------------------------------------

  /**
   * Moves a texture coordinate from one sprite's span to another's: its
   * fraction of the way from a0 to a1 becomes the same fraction from b0 to b1.
   */
  function RemapCoord(x: real, a0: real, a1: real, b0: real, b1: real): real
    requires a0 != a1
  {
    b0 + ((x - a0) / (a1 - a0)) * (b1 - b0)
  }

  /** The corners of the old sprite land on the corners of the new one. */
  lemma RemapMapsCorners(a0: real, a1: real, b0: real, b1: real)
    requires a0 != a1
    ensures RemapCoord(a0, a0, a1, b0, b1) == b0
    ensures RemapCoord(a1, a0, a1, b0, b1) == b1
  {
  }

  /** Remapping back from the new sprite to the old one recovers the coordinate. */
  lemma {:induction false} RemapRoundTrip(x: real, a0: real, a1: real, b0: real, b1: real)
    requires a0 != a1 && b0 != b1
    ensures RemapCoord(RemapCoord(x, a0, a1, b0, b1), b0, b1, a0, a1) == x
  {
    var rel := (x - a0) / (a1 - a0);
    var y := RemapCoord(x, a0, a1, b0, b1);
    assert y - b0 == rel * (b1 - b0);
    assert (y - b0) / (b1 - b0) == rel;
    assert rel * (a1 - a0) == x - a0;
  }

  /** Between sprites laid out in the same direction, the remap keeps the order of coordinates. */
  lemma {:induction false} RemapMonotone(x: real, y: real, a0: real, a1: real, b0: real, b1: real)
    requires a0 < a1 && b0 < b1 && x < y
    ensures RemapCoord(x, a0, a1, b0, b1) < RemapCoord(y, a0, a1, b0, b1)
  {
    var d := a1 - a0;
    assert (x - a0) / d < (y - a0) / d by {
      assert (y - a0) / d - (x - a0) / d == (y - x) / d;
    }
    var rx := (x - a0) / d;
    var ry := (y - a0) / d;
    assert ry * (b1 - b0) - rx * (b1 - b0) == (ry - rx) * (b1 - b0);
  }

  /** The packed words holding a vertex's u (offset 4) and v (offset 5), for the four vertices. */
  predicate IsUWord(k: int)
  {
    k == 4 || k == 12 || k == 20 || k == 28
  }

  predicate IsVWord(k: int)
  {
    k == 5 || k == 13 || k == 21 || k == 29
  }

  /** Within vertex i only word 8i + 4 holds u and only word 8i + 5 holds v. */
  lemma VertexWords(i: int)
    requires 0 <= i < 4
    ensures forall k :: 8 * i <= k < 8 * i + 8 ==> (IsUWord(k) <==> k == 8 * i + 4) && (IsVWord(k) <==> k == 8 * i + 5)
  {
  }

  /** A quad the remap can read: four vertices of at least six words each, on a sprite with area. */
  predicate Remappable(q: Quad)
  {
    |q.vertices| >= 30 && q.sprite.HasArea()
  }

  /** Word k of the re-textured buffer; word bits are read and written through `toFloat`/`toBits`. */
  function RemappedWord(v: seq<int>, k: int, from: Sprite, to: Sprite, toFloat: int -> real, toBits: real -> int): int
    requires 0 <= k < |v| && from.HasArea()
  {
    if IsUWord(k) then toBits(RemapCoord(toFloat(v[k]), from.u0, from.u1, to.u0, to.u1))
    else if IsVWord(k) then toBits(RemapCoord(toFloat(v[k]), from.v0, from.v1, to.v0, to.v1))
    else v[k]
  }

  /**
   * The quad remapQuadTexture builds: the vertex words with only the eight
   * UV words re-textured, the new sprite, the tint of the source quad when
   * there is one (else the original's), and the original's face and shading.
   */
  function RemappedQuad(original: Quad, newSprite: Sprite, source: Option<Quad>,
                        toFloat: int -> real, toBits: real -> int): (r: Quad)
    requires Remappable(original)
    ensures |r.vertices| == |original.vertices|
    ensures forall k :: 0 <= k < |r.vertices| && !IsUWord(k) && !IsVWord(k) ==> r.vertices[k] == original.vertices[k]
    ensures forall i :: 0 <= i < 4 ==>
              r.vertices[8 * i + 4] == toBits(RemapCoord(toFloat(original.vertices[8 * i + 4]),
                                                         original.sprite.u0, original.sprite.u1, newSprite.u0, newSprite.u1))
    ensures forall i :: 0 <= i < 4 ==>
              r.vertices[8 * i + 5] == toBits(RemapCoord(toFloat(original.vertices[8 * i + 5]),
                                                         original.sprite.v0, original.sprite.v1, newSprite.v0, newSprite.v1))
    ensures r.sprite == newSprite && r.direction == original.direction && r.shade == original.shade
    ensures r.tint == if source.Some? then source.value.tint else original.tint
  {
    var v := original.vertices;
    Quad(seq(|v|, k requires 0 <= k < |v| => RemappedWord(v, k, original.sprite, newSprite, toFloat, toBits)),
         if source.Some? then source.value.tint else original.tint,
         original.direction, newSprite, original.shade)
  }

  /** remapQuadTexture: re-textures a clone of the quad's vertex buffer in place, four vertices at a time. */
  method RemapQuadTexture(original: Quad, newSprite: Sprite, source: Option<Quad>,
                          toFloat: int -> real, toBits: real -> int) returns (q: Quad)
    requires Remappable(original)
    ensures q == RemappedQuad(original, newSprite, source, toFloat, toBits)
  {
    var v := original.vertices;
    var oldSprite := original.sprite;
    var data := new int[|v|](k requires 0 <= k < |v| => v[k]);
    var i := 0;
    while i < 4
      invariant 0 <= i <= 4
      invariant forall k :: 0 <= k < data.Length ==>
                  data[k] == if k < 8 * i then RemappedWord(v, k, oldSprite, newSprite, toFloat, toBits) else v[k]
    {
      var offset := i * 8;
      VertexWords(i);
      var u := toFloat(data[offset + 4]);
      var w := toFloat(data[offset + 5]);
      data[offset + 4] := toBits(RemapCoord(u, oldSprite.u0, oldSprite.u1, newSprite.u0, newSprite.u1));
      data[offset + 5] := toBits(RemapCoord(w, oldSprite.v0, oldSprite.v1, newSprite.v0, newSprite.v1));
      assert forall k :: offset <= k < offset + 8 && k < data.Length ==>
        data[k] == RemappedWord(v, k, oldSprite, newSprite, toFloat, toBits);
      i := i + 1;
    }
    var tint := if source.Some? then source.value.tint else original.tint;
    q := Quad(data[..], tint, original.direction, newSprite, original.shade);
    assert q.vertices == RemappedQuad(original, newSprite, source, toFloat, toBits).vertices;
  }

  // ---------------------------------------------------------------------
  // getQuads
  // ---------------------------------------------------------------------

  /** The copied model's quads for a face, falling back to its unculled quads when that face has none. */
  function FaceQuads(copiedQuads: Option<Direction> -> seq<Quad>, face: Option<Direction>): (r: seq<Quad>)
    ensures |copiedQuads(face)| > 0 || face.None? ==> r == copiedQuads(face)
    ensures |copiedQuads(face)| == 0 && face.Some? ==> r == copiedQuads(None)
  {
    var quads := copiedQuads(face);
    if |quads| == 0 && face.Some? then copiedQuads(None) else quads
  }

  /** The copy has something to show: a copied state that is not air. */
  predicate ShowsCopy(data: ModelData)
  {
    data.copied.Some? && !data.copied.value.IsAir()
  }

  /** The side is flagged for culling in the model data. */
  predicate Culled(data: ModelData, side: Option<Direction>)
    requires side.Some? && data.cullFaces.Some? ==> side.value.Ordinal() < |data.cullFaces.value|
  {
    data.cullFaces.Some? && side.Some? && data.cullFaces.value[side.value.Ordinal()]
  }

  /** The quad whose tint the remap keeps, and the sprite it re-textures with. */
  function SourceQuad(quads: seq<Quad>): Option<Quad>
  {
    if |quads| > 0 then Some(quads[0]) else None
  }

  function TargetSprite(quads: seq<Quad>, copiedParticle: Sprite): Sprite
  {
    if |quads| > 0 then quads[0].sprite else copiedParticle
  }

  /**
   * getQuads with model data. `baseQuads` are the base model's quads for
   * the side; `copiedQuads` and `copiedParticle` are the copied state's
   * model. Without a copy the base quads come back unchanged; a culled
   * side has no quads; otherwise every base quad, in order, is re-textured
   * with the sprite of the first quad of the rotated face.
   */
  method GetQuads(baseQuads: seq<Quad>, side: Option<Direction>, data: ModelData,
                  copiedQuads: Option<Direction> -> seq<Quad>, copiedParticle: Sprite,
                  toFloat: int -> real, toBits: real -> int) returns (out: seq<Quad>)
    requires side.Some? && data.cullFaces.Some? ==> side.value.Ordinal() < |data.cullFaces.value|
    requires forall q :: q in baseQuads ==> Remappable(q)
    ensures !ShowsCopy(data) ==> out == baseQuads
    ensures ShowsCopy(data) && Culled(data, side) ==> out == []
    ensures ShowsCopy(data) && !Culled(data, side) ==>
              var quads := FaceQuads(copiedQuads, ApplyLogRotation(side, data.rotation.GetOr(0)));
              |out| == |baseQuads| &&
              forall k :: 0 <= k < |out| ==>
                out[k] == RemappedQuad(baseQuads[k], TargetSprite(quads, copiedParticle), SourceQuad(quads), toFloat, toBits)
  {
    if data.copied.None? || data.copied.value.IsAir() {
      return baseQuads;
    }
    var rotation := if data.rotation.Some? then data.rotation.value else 0;
    if data.cullFaces.Some? && side.Some? && data.cullFaces.value[side.value.Ordinal()] {
      return [];
    }
    var textureFace := ApplyLogRotation(side, rotation);
    var quads := copiedQuads(textureFace);
    if |quads| == 0 && textureFace.Some? {
      quads := copiedQuads(None);
    }
    var sprite: Sprite;
    var source: Option<Quad> := None;
    if |quads| > 0 {
      source := Some(quads[0]);
      sprite := quads[0].sprite;
    } else {
      sprite := copiedParticle;
    }
    out := [];
    for i := 0 to |baseQuads|
      invariant |out| == i
      invariant forall k :: 0 <= k < i ==> out[k] == RemappedQuad(baseQuads[k], sprite, source, toFloat, toBits)
    {
      var q := RemapQuadTexture(baseQuads[i], sprite, source, toFloat, toBits);
      out := out + [q];
    }
  }

  // ---------------------------------------------------------------------
  // shouldCullMatchingFaces and getModelData
  // ---------------------------------------------------------------------

  /** Blocks whose faces against their own kind are culled, by id. */
  const CullAllowList: set<BlockId> := {"minecraft:glass", "minecraft:tinted_glass", "minecraft:ice",
                                        "minecraft:packed_ice", "minecraft:blue_ice",
                                        "minecraft:slime_block", "minecraft:honey_block"}

  /** Lower-cases the ASCII letters of a display name. */
  function Lower(s: string): (r: string)
    ensures |r| == |s|
    ensures forall i :: 0 <= i < |s| ==> r[i] == if 'A' <= s[i] <= 'Z' then (s[i] as int + 32) as char else s[i]
  {
    if |s| == 0 then "" else [if 'A' <= s[0] <= 'Z' then (s[0] as int + 32) as char else s[0]] + Lower(s[1..])
  }

  /** `t` occurs in `s` starting at index i. */
  predicate OccursAt(s: string, t: string, i: int)
  {
    0 <= i && i + |t| <= |s| && s[i..i + |t|] == t
  }

  /** String.contains, scanning from the front. */
  function Contains(s: string, t: string): bool
  {
    if |s| < |t| then false
    else if s[..|t|] == t then true
    else Contains(s[1..], t)
  }

  /** The scan finds `t` exactly when it occurs somewhere in `s`. */
  lemma {:induction false} ContainsIffOccurs(s: string, t: string)
    ensures Contains(s, t) <==> exists i :: OccursAt(s, t, i)
  {
    if |s| < |t| {
    } else if s[..|t|] == t {
      assert OccursAt(s, t, 0);
    } else {
      ContainsIffOccurs(s[1..], t);
      if Contains(s[1..], t) {
        var j :| OccursAt(s[1..], t, j);
        assert s[1..][j..j + |t|] == s[j + 1..j + 1 + |t|];
        assert OccursAt(s, t, j + 1);
      }
      if i :| OccursAt(s, t, i) {
        assert i != 0;
        assert s[1..][i - 1..i - 1 + |t|] == s[i..i + |t|];
        assert OccursAt(s[1..], t, i - 1);
      }
    }
  }

  /**
   * Whether a copied state gets matching-face culling: glass, tinted glass,
   * any block whose display name contains "glass" in any case, the three
   * ices, slime and honey.
   */
  function ShouldCullMatchingFaces(state: BlockState, displayName: BlockId -> string): (b: bool)
    ensures b <==> state.block in CullAllowList || Contains(Lower(displayName(state.block)), "glass")
  {
    state.block == "minecraft:glass" || state.block == "minecraft:tinted_glass"
    || Contains(Lower(displayName(state.block)), "glass")
    || state.block == "minecraft:ice" || state.block == "minecraft:packed_ice" || state.block == "minecraft:blue_ice"
    || state.block == "minecraft:slime_block" || state.block == "minecraft:honey_block"
  }

  /** A block whose display name spells "glass" anywhere, in any mix of case, culls whatever its id. */
  lemma {:induction false} GlassNamedBlocksCull(state: BlockState, displayName: BlockId -> string, i: int)
    requires 0 <= i && i + 5 <= |displayName(state.block)|
    requires Lower(displayName(state.block)[i..i + 5]) == "glass"
    ensures ShouldCullMatchingFaces(state, displayName)
  {
    var name := displayName(state.block);
    var lowered := Lower(name);
    var window := Lower(name[i..i + 5]);
    assert forall k :: 0 <= k < 5 ==> lowered[i..i + 5][k] == window[k];
    assert lowered[i..i + 5] == "glass";
    assert OccursAt(lowered, "glass", i);
    ContainsIffOccurs(lowered, "glass");
  }

  /**
   * The cull flag for one face of a copy showing `copied`: the copied block
   * culls against its own kind, the neighbour covers the face (an opaque
   * shape test), and the neighbour either is a legacy copy entity copying
   * the same block or, when it is not, is itself that block.
   */
  function CullsToward(copied: BlockState, d: Direction, displayName: BlockId -> string, covers: Direction -> bool,
                       neighbourEntity: Option<BlockEntityView>, neighbourBlock: BlockId): (b: bool)
    ensures b ==> !copied.IsAir() && ShouldCullMatchingFaces(copied, displayName) && covers(d)
    ensures (b && neighbourEntity.Some? && neighbourEntity.value.CopyEntity? && neighbourEntity.value.kind == LegacyCopy)
            ==> neighbourEntity.value.copied.block == copied.block
    ensures (b && !(neighbourEntity.Some? && neighbourEntity.value.CopyEntity? && neighbourEntity.value.kind == LegacyCopy))
            ==> neighbourBlock == copied.block
  {
    !copied.IsAir() && ShouldCullMatchingFaces(copied, displayName) && covers(d) &&
    match neighbourEntity
    case Some(CopyEntity(LegacyCopy, neighbourCopied, _)) => neighbourCopied.block == copied.block
    case _ => neighbourBlock == copied.block
  }

  /** Two glass copies side by side, each covering the other, cull the faces between them both ways. */
  lemma MatchingCopiesCullEachOther(a: BlockState, b: BlockState, d: Direction, displayName: BlockId -> string,
                                    coversA: Direction -> bool, coversB: Direction -> bool, ra: int, rb: int,
                                    blockA: BlockId, blockB: BlockId)
    requires a.block == b.block && !a.IsAir() && ShouldCullMatchingFaces(a, displayName)
    requires coversA(d) && coversB(d.Opposite())
    ensures CullsToward(a, d, displayName, coversA, Some(CopyEntity(LegacyCopy, b, rb)), blockB)
    ensures CullsToward(b, d.Opposite(), displayName, coversB, Some(CopyEntity(LegacyCopy, a, ra)), blockA)
  {
  }

  /** The model data getModelData publishes for a legacy copy entity showing `copied` at `pos`. */
  function CullMask(level: Level, pos: Pos, copied: BlockState, displayName: BlockId -> string,
                    covers: Direction -> bool, blockAt: Pos -> BlockId): (m: seq<bool>)
    reads level
    ensures |m| == 6
    ensures forall d: Direction :: m[d.Ordinal()] ==
              CullsToward(copied, d, displayName, covers, level.EntityAt(Relative(pos, d)), blockAt(Relative(pos, d)))
  {
    DirectionsInOrdinalOrder();
    seq(6, i requires 0 <= i < 6 reads level =>
      CullsToward(copied, Directions[i], displayName, covers,
                  level.EntityAt(Relative(pos, Directions[i])), blockAt(Relative(pos, Directions[i]))))
  }

  /**
   * getModelData: for a legacy copy entity, its copied state, its rotation
   * and the six cull flags (computed only when the copy is not air and
   * culls against its own kind); for anything else air, rotation 0 and no
   * culled face. `covers` is the opaque face-coverage test and `blockAt`
   * the block of each neighbouring cell.
   */
  method GetModelData(level: Level, pos: Pos, displayName: BlockId -> string,
                      covers: Direction -> bool, blockAt: Pos -> BlockId) returns (data: ModelData)
    ensures match level.EntityAt(pos)
            case Some(CopyEntity(LegacyCopy, copied, rotation)) =>
              data == ModelData(Some(copied), Some(rotation), Some(CullMask(level, pos, copied, displayName, covers, blockAt)))
            case _ => data == ModelData(Some(AirState), Some(0), Some([false, false, false, false, false, false]))
  {
    var be := level.EntityAt(pos);
    if be.Some? && be.value.CopyEntity? && be.value.kind == LegacyCopy {
      var copiedState := be.value.copied;
      var rotation := be.value.rotation;
      var cullFaces := new bool[6](_ => false);
      DirectionsInOrdinalOrder();
      if !copiedState.IsAir() {
        if ShouldCullMatchingFaces(copiedState, displayName) {
          for i := 0 to 6
            invariant forall k :: 0 <= k < 6 ==>
                        (cullFaces[k] == (k < i && CullsToward(copiedState, Directions[k], displayName, covers,
                                                               level.EntityAt(Relative(pos, Directions[k])),
                                                               blockAt(Relative(pos, Directions[k])))))
          {
            var dir := Directions[i];
            var neighborPos := Relative(pos, dir);
            var neighborBlock := blockAt(neighborPos);
            var neighborBE := level.EntityAt(neighborPos);
            if !covers(dir) {
              continue;
            }
            if neighborBE.Some? && neighborBE.value.CopyEntity? && neighborBE.value.kind == LegacyCopy {
              if neighborBE.value.copied.block == copiedState.block {
                cullFaces[dir.Ordinal()] := true;
              }
            } else {
              if neighborBlock == copiedState.block {
                cullFaces[dir.Ordinal()] := true;
              }
            }
          }
        }
      }
      data := ModelData(Some(copiedState), Some(rotation), Some(cullFaces[..]));
      assert cullFaces[..] == CullMask(level, pos, copiedState, displayName, covers, blockAt);
    } else {
      data := ModelData(Some(AirState), Some(0), Some([false, false, false, false, false, false]));
    }
  }

  /** A freshly computed model data never culls the face a rotation-0 copy of a non-culling block shows. */
  lemma NonCullingCopyShowsEveryFace(level: Level, pos: Pos, copied: BlockState, displayName: BlockId -> string,
                                     covers: Direction -> bool, blockAt: Pos -> BlockId, d: Direction)
    requires !ShouldCullMatchingFaces(copied, displayName)
    ensures !CullMask(level, pos, copied, displayName, covers, blockAt)[d.Ordinal()]
  {
  }

  // ---------------------------------------------------------------------
  // Particle icon and render types
  // ---------------------------------------------------------------------

  /**
   * getParticleIcon(data) and getRenderTypes: the copied model's answer
   * when the data shows a copy that is not air, the base model's otherwise.
   */
  function FromCopiedOrBase<T>(copied: Option<BlockState>, fromCopied: BlockState -> T, base: T): (r: T)
    ensures copied.Some? && !copied.value.IsAir() ==> r == fromCopied(copied.value)
    ensures copied.None? || copied.value.IsAir() ==> r == base
  {
    if copied.Some? && !copied.value.IsAir() then fromCopied(copied.value) else base
  }
}
