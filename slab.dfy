/**
 * The copy slab: a bottom, top or double half block. Placement picks the
 * half from the clicked face and the height of the click; a single slab
 * accepts a second one of its own kind and becomes double.
 */
module Slab {
  import opened Wrappers
  import opened World
  import opened Shapes

  datatype SlabType = Bottom | Top | Double

  /** The slab is built with half a full block's mass and starts as a bottom slab. */
  const Block: CopyBlockBase := NewCopyBlockBaseWith(ShapeMultiplier(SlabCopy))

  const DefaultType: SlabType := Bottom

  /** A click lands in the upper half of the block it hit (`frac` is the click's height within that block). */
  predicate UpperHalfClick(frac: real)
  {
    frac > 0.5
  }

  /**
   * getStateForPlacement: clicking into a slab of this block doubles it;
   * otherwise the slab goes on top when placed from below, or from the
   * side with a click in the upper half.
   */
  function PlacementType(existing: Option<SlabType>, face: Direction, frac: real): (t: SlabType)
    ensures t == Double <==> existing.Some?
    ensures existing.None? && face == Up ==> t == Bottom
    ensures existing.None? && face == Down ==> t == Top
  {
    if existing.Some? then Double
    else if face == Down || (face != Up && UpperHalfClick(frac)) then Top
    else DefaultType
  }

  /**
   * canBeReplaced: a single slab gives way to the same slab item; when the
   * click was on the slab itself, only from the side where the missing
   * half belongs.
   */
  function CanBeReplaced(t: SlabType, holdingThisSlab: bool, replacingClicked: bool, face: Direction, frac: real): (b: bool)
    ensures t == Double || !holdingThisSlab ==> !b
    ensures t != Double && holdingThisSlab && !replacingClicked ==> b
  {
    if t != Double && holdingThisSlab then
      if replacingClicked then
        var isTop := UpperHalfClick(frac);
        if t == Bottom then face == Up || (face != Down && isTop)
        else face == Down || (face != Up && !isTop)
      else true
    else false
  }

  /** getShape; the collision shape is the same. */
  function SlabShape(t: SlabType): (s: Shape)
    ensures ShapeWithinCell(s)
    ensures s == FullBlock <==> t == Double
    ensures ShapeTouches(s, Down) <==> t != Top
    ensures ShapeTouches(s, Up) <==> t != Bottom
  {
    match t
    case Double => FullBlock
    case Top => {TopSlabBox}
    case Bottom => {BottomSlabBox}
  }

  function CollisionShape(t: SlabType): (s: Shape)
    ensures s == SlabShape(t)
  {
    SlabShape(t)
  }

  /**
   * Clicking a single slab from the side, the slab gives way exactly when a
   * fresh placement with the same click would choose the half it lacks.
   */
  lemma SideClickFillsMissingHalf(t: SlabType, face: Direction, frac: real)
    requires t != Double && face.IsHorizontal()
    ensures CanBeReplaced(t, true, true, face, frac)
            <==> PlacementType(None, face, frac) == (if t == Bottom then Top else Bottom)
  {
  }

  /** From above or below, a single slab gives way exactly on its flat open side. */
  lemma VerticalClickOnOpenSide(t: SlabType, face: Direction, frac: real)
    requires t != Double && !face.IsHorizontal()
    ensures CanBeReplaced(t, true, true, face, frac) <==> (face == Up <==> t == Bottom)
  {
  }

  /** A double slab holds exactly the points of a bottom slab and a top slab together. */
  lemma DoubleIsBothHalves(p: Point)
    ensures InShape(SlabShape(Double), p) <==> InShape(SlabShape(Bottom), p) || InShape(SlabShape(Top), p)
  {
    HalvesMakeFullBlock(p);
    assert InShape({BottomSlabBox, TopSlabBox}, p) <==> InShape({BottomSlabBox}, p) || InShape({TopSlabBox}, p) by {
      if InShape({BottomSlabBox, TopSlabBox}, p) {
        var b :| b in {BottomSlabBox, TopSlabBox} && b.Contains(p);
        if b == BottomSlabBox {
          assert b in {BottomSlabBox};
        } else {
          assert b in {TopSlabBox};
        }
      }
      if InShape({BottomSlabBox}, p) {
        assert BottomSlabBox in {BottomSlabBox, TopSlabBox} && BottomSlabBox.Contains(p);
      }
      if InShape({TopSlabBox}, p) {
        assert TopSlabBox in {BottomSlabBox, TopSlabBox} && TopSlabBox.Contains(p);
      }
    }
  }

  /** A slab placed from the side holds the height that was clicked. */
  lemma {:induction false} SidePlacementHoldsClick(face: Direction, frac: real, x: real, z: real)
    requires face.IsHorizontal() && 0.0 <= frac <= 1.0 && 0.0 <= x <= 16.0 && 0.0 <= z <= 16.0
    ensures InShape(SlabShape(PlacementType(None, face, frac)), Point(x, 16.0 * frac, z))
  {
    var p := Point(x, 16.0 * frac, z);
    if UpperHalfClick(frac) {
      assert TopSlabBox in SlabShape(Top) && TopSlabBox.Contains(p);
    } else {
      assert BottomSlabBox in SlabShape(Bottom) && BottomSlabBox.Contains(p);
    }
  }
}
