/**
 * The copy flap: a copy block that is also a wing for the physics mod. A
 * flap faces any of the six directions; its outline is a plate four
 * sixteenths thick across that direction's axis, and the wing's normal is
 * the unit vector along the same axis.
 */
module Flap {
  import opened World
  import opened Shapes

  /** The flap declares three tenths of a full block's mass and starts facing north. */
  const MassMultiplier: real := ShapeMultiplier(FlapCopy)

  const DefaultFacing: Direction := North

  datatype Vec = Vec(x: real, y: real, z: real)
  {
    function Component(a: Axis): real
    {
      match a
      case X => x
      case Y => y
      case Z => z
    }
  }

  /** What the physics mod needs to simulate a wing. */
  datatype Wing = Wing(normal: Vec, power: real, drag: real, breakingForce: real, camber: real)

  const WingPower: real := 150.0

  const WingDrag: real := 150.0

  const WingBreakingForce: real := 10.0

  /** getWing: a flat, uncambered wing whose normal is the unit vector along the facing's axis. */
  function GetWing(facing: Direction): (w: Wing)
    ensures forall a: Axis :: w.normal.Component(a) == (if a == facing.Axis() then 1.0 else 0.0)
    ensures w.power == WingPower && w.drag == WingDrag && w.breakingForce == WingBreakingForce && w.camber == 0.0
  {
    var normal := match facing
      case East => Vec(1.0, 0.0, 0.0)
      case West => Vec(1.0, 0.0, 0.0)
      case Up => Vec(0.0, 1.0, 0.0)
      case Down => Vec(0.0, 1.0, 0.0)
      case North => Vec(0.0, 0.0, 1.0)
      case South => Vec(0.0, 0.0, 1.0);
    Wing(normal, WingPower, WingDrag, WingBreakingForce, 0.0)
  }

  /** getStateForPlacement: the flap faces back toward the player, opposite the nearest direction they look in. */
  function PlacementFacing(nearestLook: Direction): (f: Direction)
    ensures f.Axis() == nearestLook.Axis() && f != nearestLook
  {
    nearestLook.Opposite()
  }

  /** getShape: the plate from 6 to 10 across the facing's axis; the collision and visual shapes are the same. */
  function FlapBox(facing: Direction): (b: Box)
    ensures b.WithinCell()
  {
    match facing
    case Up => Box(0, 6, 0, 16, 10, 16)
    case Down => Box(0, 6, 0, 16, 10, 16)
    case North => Box(0, 0, 6, 16, 16, 10)
    case South => Box(0, 0, 6, 16, 16, 10)
    case East => Box(6, 0, 0, 10, 16, 16)
    case West => Box(6, 0, 0, 10, 16, 16)
  }

  function FlapShape(facing: Direction): (s: Shape)
    ensures ShapeWithinCell(s)
  {
    {FlapBox(facing)}
  }

  /**
   * The plate is thin exactly along the wing's normal and spans the whole
   * cell along the other two axes, so the simulated wing lies in the plate
   * the player sees.
   */
  lemma {:induction false} PlateLiesAcrossNormal(facing: Direction, a: Axis)
    ensures FlapBox(facing).Extent(a) == (if GetWing(facing).normal.Component(a) == 1.0 then 4 else 16)
  {
    assert GetWing(facing).normal.Component(a) == (if a == facing.Axis() then 1.0 else 0.0);
  }

  /** A flap placed while looking along an axis simulates a wing whose normal lies along that axis. */
  lemma PlacedWingFacesLook(nearestLook: Direction)
    ensures GetWing(PlacementFacing(nearestLook)).normal == GetWing(nearestLook).normal
  {
  }
}
