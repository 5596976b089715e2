/**
 * Voxel shapes as the copy blocks build them: boxes measured in sixteenths
 * of a block (the units `Block.box` takes) and shapes as sets of boxes,
 * a union being a set union. Also the copy-block base class's fixed
 * rendering answers and the mass multiplier each copy shape declares.
 */
module Shapes {
  import opened World

  /** A point inside a block's cell, in sixteenths of a block. */
  datatype Point = Point(x: real, y: real, z: real)
  {
    predicate InCell()
    {
      0.0 <= x <= 16.0 && 0.0 <= y <= 16.0 && 0.0 <= z <= 16.0
    }

    function Coord(a: Axis): real
    {
      match a
      case X => x
      case Y => y
      case Z => z
    }
  }

  /** An axis-aligned box; the points on its faces belong to it. */
  datatype Box = Box(minX: int, minY: int, minZ: int, maxX: int, maxY: int, maxZ: int)
  {
    predicate WithinCell()
    {
      0 <= minX < maxX <= 16 && 0 <= minY < maxY <= 16 && 0 <= minZ < maxZ <= 16
    }

    predicate Contains(p: Point)
    {
      minX as real <= p.x <= maxX as real
      && minY as real <= p.y <= maxY as real
      && minZ as real <= p.z <= maxZ as real
    }

    /** The box reaches the cell face on side `d`. */
    predicate Touches(d: Direction)
    {
      match d
      case Down => minY == 0
      case Up => maxY == 16
      case North => minZ == 0
      case South => maxZ == 16
      case West => minX == 0
      case East => maxX == 16
    }

    /** The box's size along an axis. */
    function Extent(a: Axis): int
    {
      match a
      case X => maxX - minX
      case Y => maxY - minY
      case Z => maxZ - minZ
    }
  }

  type Shape = set<Box>

  predicate InShape(s: Shape, p: Point)
  {
    exists b :: b in s && b.Contains(p)
  }

  predicate ShapeWithinCell(s: Shape)
  {
    forall b :: b in s ==> b.WithinCell()
  }

  /** Some box of the shape reaches the cell face on side `d`. */
  predicate ShapeTouches(s: Shape, d: Direction)
  {
    exists b :: b in s && b.Touches(d)
  }

  /** A one-box shape reaches exactly the faces its box reaches. */
  lemma SingleBoxTouches(b: Box, d: Direction)
    ensures ShapeTouches({b}, d) <==> b.Touches(d)
  {
    if b.Touches(d) {
      assert b in {b};
    }
  }

  const FullBox: Box := Box(0, 0, 0, 16, 16, 16)

  /** Shapes.block(): the whole cell. */
  const FullBlock: Shape := {FullBox}

  const BottomSlabBox: Box := Box(0, 0, 0, 16, 8, 16)

  const TopSlabBox: Box := Box(0, 8, 0, 16, 16, 16)

  /** The full block holds exactly the points of the cell. */
  lemma FullBlockFillsCell(p: Point)
    ensures InShape(FullBlock, p) <==> p.InCell()
  {
    if p.InCell() {
      assert FullBox in FullBlock && FullBox.Contains(p);
    }
  }

  /** The two half slabs together hold the same points as the full block. */
  lemma HalvesMakeFullBlock(p: Point)
    ensures InShape({BottomSlabBox, TopSlabBox}, p) <==> InShape(FullBlock, p)
  {
    FullBlockFillsCell(p);
    if p.InCell() {
      if p.y <= 8.0 {
        assert BottomSlabBox in {BottomSlabBox, TopSlabBox} && BottomSlabBox.Contains(p);
      } else {
        assert TopSlabBox in {BottomSlabBox, TopSlabBox} && TopSlabBox.Contains(p);
      }
    }
  }

  // ---------------------------------------------------------------------
  // The copy-block base class
  // ---------------------------------------------------------------------

  /** A copy block built on the library's base class: only its mass multiplier varies. */
  datatype CopyBlockBase = CopyBlockBase(massMultiplier: real)

  /** The one-argument constructor: full mass. */
  function NewCopyBlockBase(): (b: CopyBlockBase)
    ensures GetMassMultiplier(b) == 1.0
  {
    NewCopyBlockBaseWith(1.0)
  }

  /** The two-argument constructor fixes the multiplier it is given. */
  function NewCopyBlockBaseWith(massMultiplier: real): (b: CopyBlockBase)
    ensures GetMassMultiplier(b) == massMultiplier
  {
    CopyBlockBase(massMultiplier)
  }

  function GetMassMultiplier(b: CopyBlockBase): real
  {
    b.massMultiplier
  }

  /** What the library's API learns about a base-class block: the multiplier it was built with. */
  function Traits(b: CopyBlockBase, dynamicTags: bool, dynamicModel: bool): (t: CopyTraits)
    ensures t.massMultiplier == GetMassMultiplier(b)
  {
    CopyTraits(b.massMultiplier, dynamicTags, dynamicModel)
  }

  /** The visual shape is always the whole cell, whatever the state. */
  function VisualShape(b: CopyBlockBase, state: BlockState): (s: Shape)
    ensures forall p: Point :: p.InCell() ==> InShape(s, p)
  {
    assert forall p: Point :: p.InCell() ==> FullBox in FullBlock && FullBox.Contains(p);
    FullBlock
  }

  /** The shape is always used for light occlusion. */
  function UseShapeForLightOcclusion(b: CopyBlockBase, state: BlockState): bool
  {
    true
  }

  /** Skylight never passes down through a copy block. */
  function PropagatesSkylightDown(b: CopyBlockBase, state: BlockState): bool
  {
    false
  }

  lemma BaseBlocksOccludeLight(b: CopyBlockBase, state: BlockState)
    ensures UseShapeForLightOcclusion(b, state) && !PropagatesSkylightDown(b, state)
  {
  }

  // ---------------------------------------------------------------------
  // The multiplier each copy shape declares
  // ---------------------------------------------------------------------

  /** The shapes of copy block, each fixing its mass multiplier. */
  datatype CopyShape = FullCopy | GhostCopy | SlabCopy | StairsCopy | WallCopy | FenceCopy | FlapCopy | WingCopy

  function ShapeMultiplier(k: CopyShape): (m: real)
    ensures 0.0 < m <= 1.0
    ensures m == 1.0 <==> k == FullCopy || k == GhostCopy
  {
    match k
    case FullCopy => 1.0
    case GhostCopy => 1.0
    case SlabCopy => 0.5
    case StairsCopy => 0.75
    case WallCopy => 0.5
    case FenceCopy => 0.4
    case FlapCopy => 0.3
    case WingCopy => 0.5
  }

  /** Every partial shape weighs less than a full copy block, and stairs more than a slab. */
  lemma PartialShapesWeighLess(k: CopyShape)
    ensures k != FullCopy && k != GhostCopy ==> ShapeMultiplier(k) < ShapeMultiplier(FullCopy)
    ensures ShapeMultiplier(SlabCopy) < ShapeMultiplier(StairsCopy)
  {
  }
}
