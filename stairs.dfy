/**
 * The copy stairs: a horizontal facing, a half and a corner shape taken
 * from the stairs beside it. Rotation turns only the facing; the two
 * mirrors turn stairs of one axis half round and leave the other axis alone.
 */
module Stairs {
  import opened Wrappers
  import opened World
  import opened Shapes

  datatype Half = Bottom | Top

  datatype StairsShape = Straight | InnerLeft | InnerRight | OuterLeft | OuterRight

  datatype StairsState = StairsState(facing: HorizontalDirection, half: Half, shape: StairsShape)

  /** Three quarters of a full block's mass; facing north, bottom half, straight. */
  const Block: CopyBlockBase := NewCopyBlockBaseWith(ShapeMultiplier(StairsCopy))

  const DefaultState: StairsState := StairsState(North, Bottom, Straight)

  datatype Rotation = NoRotation | Clockwise90 | Clockwise180 | CounterClockwise90

  datatype Mirror = NoMirror | LeftRight | FrontBack

  /** The half a placement picks: top when placed from below, or from the side with a click in the upper half. */
  function PlacementHalf(face: Direction, frac: real): (h: Half)
    ensures face == Up ==> h == Bottom
    ensures face == Down ==> h == Top
    ensures face.IsHorizontal() ==> (h == Top <==> frac > 0.5)
  {
    if face == Down || (face != Up && frac > 0.5) then Top else Bottom
  }

  /** Two horizontal directions lie on different axes exactly when one is a quarter turn from the other. */
  lemma PerpendicularIsQuarterTurn(d: HorizontalDirection, e: HorizontalDirection)
    ensures e.Axis() != d.Axis() <==> e == ClockWise(d) || e == CounterClockWise(d)
  {
  }

  /** A neighbour the stairs form a corner with: copy stairs of the same half, set across the facing's axis. */
  predicate Joins(neighbour: Option<StairsState>, facing: HorizontalDirection, half: Half)
  {
    neighbour.Some? && neighbour.value.half == half && neighbour.value.facing.Axis() != facing.Axis()
  }

  /**
   * getStairsShape: the neighbour on the left (counter-clockwise of the
   * facing) is looked at first, then the one on the right; a corner is
   * outer when the neighbour faces the side it stands on, inner when it
   * faces the other way.
   */
  function StairsShapeFor(facing: HorizontalDirection, half: Half, left: Option<StairsState>, right: Option<StairsState>): (s: StairsShape)
    ensures s == Straight <==> !Joins(left, facing, half) && !Joins(right, facing, half)
    ensures s == OuterLeft <==> Joins(left, facing, half) && left.value.facing == CounterClockWise(facing)
    ensures s == InnerLeft <==> Joins(left, facing, half) && left.value.facing == ClockWise(facing)
    ensures s == OuterRight <==> !Joins(left, facing, half) && Joins(right, facing, half) && right.value.facing == ClockWise(facing)
    ensures s == InnerRight <==> !Joins(left, facing, half) && Joins(right, facing, half) && right.value.facing == CounterClockWise(facing)
  {
    if Joins(left, facing, half) then
      PerpendicularIsQuarterTurn(facing, left.value.facing);
      if left.value.facing == CounterClockWise(facing) then OuterLeft else InnerLeft
    else if Joins(right, facing, half) then
      PerpendicularIsQuarterTurn(facing, right.value.facing);
      if right.value.facing == ClockWise(facing) then OuterRight else InnerRight
    else Straight
  }

  /**
   * getStateForPlacement: facing the way the player faces, the half from
   * the click, the shape from the copy stairs (`stairsAt`) to the left and
   * right of the placed position.
   */
  function PlacementState(pos: Pos, playerFacing: HorizontalDirection, face: Direction, frac: real,
                          stairsAt: Pos -> Option<StairsState>): (s: StairsState)
    ensures s.facing == playerFacing && s.half == PlacementHalf(face, frac)
    ensures s.shape == Straight
            <==> !Joins(stairsAt(Relative(pos, CounterClockWise(playerFacing))), playerFacing, s.half)
                 && !Joins(stairsAt(Relative(pos, ClockWise(playerFacing))), playerFacing, s.half)
    ensures s.shape == StairsShapeFor(playerFacing, s.half, stairsAt(Relative(pos, CounterClockWise(playerFacing))),
                                      stairsAt(Relative(pos, ClockWise(playerFacing))))
  {
    var half := PlacementHalf(face, frac);
    StairsState(playerFacing, half,
      StairsShapeFor(playerFacing, half,
        stairsAt(Relative(pos, CounterClockWise(playerFacing))),
        stairsAt(Relative(pos, ClockWise(playerFacing)))))
  }

  /** Rotation.rotate on a horizontal direction. */
  function RotateDirection(r: Rotation, d: HorizontalDirection): HorizontalDirection
  {
    match r
    case NoRotation => d
    case Clockwise90 => ClockWise(d)
    case Clockwise180 => ClockWise(ClockWise(d))
    case CounterClockwise90 => CounterClockWise(d)
  }

  /** rotate: the facing turns, half and shape stay. */
  function Rotate(s: StairsState, r: Rotation): StairsState
  {
    s.(facing := RotateDirection(r, s.facing))
  }

  /** A quarter turn each way undoes the other; a half turn undoes itself. */
  lemma RotationsUndo(s: StairsState)
    ensures Rotate(Rotate(s, Clockwise90), CounterClockwise90) == s
    ensures Rotate(Rotate(s, CounterClockwise90), Clockwise90) == s
    ensures Rotate(Rotate(s, Clockwise180), Clockwise180) == s
    ensures Rotate(Rotate(s, Clockwise90), Clockwise90) == Rotate(s, Clockwise180)
  {
  }

  /** The shape with left and right exchanged. */
  function SwapSides(shape: StairsShape): StairsShape
  {
    match shape
    case InnerLeft => InnerRight
    case InnerRight => InnerLeft
    case OuterLeft => OuterRight
    case OuterRight => OuterLeft
    case Straight => Straight
  }

  /**
   * mirror: left-right turns north/south-facing stairs half round and
   * swaps the corner's side; front-back turns east/west-facing stairs
   * half round and keeps the corner; anything else is unchanged.
   */
  function MirrorState(s: StairsState, m: Mirror): (t: StairsState)
    ensures t.half == s.half
    ensures t.facing.Axis() == s.facing.Axis()
    ensures m == LeftRight && s.facing.Axis() == Z ==> t.facing == s.facing.Opposite() && t.shape == SwapSides(s.shape)
    ensures m == FrontBack && s.facing.Axis() == X ==> t.facing == s.facing.Opposite() && t.shape == s.shape
    ensures (m == NoMirror || (m == LeftRight && s.facing.Axis() != Z) || (m == FrontBack && s.facing.Axis() != X)) ==> t == s
  {
    match m
    case LeftRight =>
      if s.facing.Axis() == Z then
        match s.shape
        case InnerLeft => Rotate(s, Clockwise180).(shape := InnerRight)
        case InnerRight => Rotate(s, Clockwise180).(shape := InnerLeft)
        case OuterLeft => Rotate(s, Clockwise180).(shape := OuterRight)
        case OuterRight => Rotate(s, Clockwise180).(shape := OuterLeft)
        case Straight => Rotate(s, Clockwise180)
      else s
    case FrontBack =>
      if s.facing.Axis() == X then
        match s.shape
        case InnerLeft => Rotate(s, Clockwise180).(shape := s.shape)
        case InnerRight => Rotate(s, Clockwise180).(shape := s.shape)
        case OuterLeft => Rotate(s, Clockwise180).(shape := s.shape)
        case OuterRight => Rotate(s, Clockwise180).(shape := s.shape)
        case Straight => Rotate(s, Clockwise180)
      else s
    case NoMirror => s
  }

  /** Each mirror, applied twice, gives back the state it started from. */
  lemma {:induction false} MirrorTwiceRestores(s: StairsState, m: Mirror)
    ensures MirrorState(MirrorState(s, m), m) == s
  {
    var t := MirrorState(s, m);
    assert t.facing.Axis() == s.facing.Axis();
    if m == LeftRight && s.facing.Axis() == Z {
      assert SwapSides(SwapSides(s.shape)) == s.shape;
      assert t.facing.Opposite() == s.facing;
    } else if m == FrontBack && s.facing.Axis() == X {
      assert t.facing.Opposite() == s.facing;
    }
  }

  /** getShape: a half-block slab on the stairs' half; the collision shape is the same. */
  function StairsOutline(s: StairsState): (shape: Shape)
    ensures ShapeWithinCell(shape)
    ensures ShapeTouches(shape, Down) <==> s.half == Bottom
    ensures ShapeTouches(shape, Up) <==> s.half != Bottom
  {
    if s.half == Bottom then
      SingleBoxTouches(BottomSlabBox, Up);
      SingleBoxTouches(BottomSlabBox, Down);
      {BottomSlabBox}
    else
      SingleBoxTouches(TopSlabBox, Up);
      SingleBoxTouches(TopSlabBox, Down);
      {TopSlabBox}
  }

  /** Since the outline follows only the half, turning or mirroring stairs never changes it. */
  lemma TurningKeepsOutline(s: StairsState, r: Rotation, m: Mirror)
    ensures StairsOutline(Rotate(s, r)) == StairsOutline(s)
    ensures StairsOutline(MirrorState(s, m)) == StairsOutline(s)
  {
  }
}
