/**
 * The copy wall: a post with an arm toward each side that joins another
 * copy wall, low or tall. Connections are computed when the wall is
 * placed, and the walls beside one are recomputed when it is removed.
 * Connection logic works on the level's map of cells (`World.CellIn`).
 */
module Wall {
  import opened World
  import opened Shapes

  /** Half a full block's mass; the post raised and no arms. */
  const Block: CopyBlockBase := NewCopyBlockBaseWith(ShapeMultiplier(WallCopy))

  const DefaultWall: WallState := WallState(true, NoSide, NoSide, NoSide, NoSide)

  // ---------------------------------------------------------------------
  // Sides of a wall state
  // ---------------------------------------------------------------------

  /** The side property toward `d`; a vertical direction has none and reads as no side. */
  function Side(w: WallState, d: Direction): WallSide
  {
    match d
    case North => w.north
    case East => w.east
    case South => w.south
    case West => w.west
    case Up => NoSide
    case Down => NoSide
  }

  /** Sets the side property toward a horizontal direction. */
  function WithSide(w: WallState, d: HorizontalDirection, side: WallSide): (r: WallState)
    ensures Side(r, d) == side && r.up == w.up
    ensures forall e: Direction :: e != d ==> Side(r, e) == Side(w, e)
  {
    match d
    case North => w.(north := side)
    case East => w.(east := side)
    case South => w.(south := side)
    case West => w.(west := side)
  }

  /** Two wall states agree when their post and their four sides do. */
  lemma SidesDetermineWall(a: WallState, b: WallState)
    requires a.up == b.up
    requires Side(a, North) == Side(b, North) && Side(a, East) == Side(b, East)
    requires Side(a, South) == Side(b, South) && Side(a, West) == Side(b, West)
    ensures a == b
  {
  }

  // ---------------------------------------------------------------------
  // Shape
  // ---------------------------------------------------------------------

  const PostBox: Box := Box(4, 0, 4, 12, 16, 12)

  /** The arm toward `d`: 14 high, or the full 16 when tall. */
  function ArmBox(d: HorizontalDirection, side: WallSide): Box
  {
    var h := if side == Tall then 16 else 14;
    match d
    case North => Box(5, 0, 0, 11, h, 8)
    case South => Box(5, 0, 8, 11, h, 16)
    case East => Box(8, 0, 5, 16, h, 11)
    case West => Box(0, 0, 5, 8, h, 11)
  }

  function Arm(d: HorizontalDirection, side: WallSide): Shape
  {
    if side == NoSide then {} else {ArmBox(d, side)}
  }

  /** getShape: the post and one arm per side that has one; the collision shape is the same. */
  function WallShape(w: WallState): (s: Shape)
    ensures PostBox in s && ShapeWithinCell(s)
  {
    {PostBox} + Arm(North, w.north) + Arm(East, w.east) + Arm(South, w.south) + Arm(West, w.west)
  }

  /** Some box of the shape reaches the face toward `d` and rises to the top of the cell. */
  predicate TallToward(s: Shape, d: Direction)
  {
    exists b :: b in s && b.Touches(d) && b.maxY == 16
  }

  lemma ArmBoxesReachOnlyTheirFace()
    ensures forall e: HorizontalDirection, side: WallSide, d: HorizontalDirection ::
      ArmBox(e, side).Touches(d) <==> e == d
    ensures forall e: HorizontalDirection, side: WallSide :: ArmBox(e, side).maxY == 16 <==> side == Tall
    ensures forall d: HorizontalDirection :: !PostBox.Touches(d)
  {
  }

  /** The wall's outline reaches a side of the cell exactly where it has an arm, and at full height exactly where the arm is tall. */
  lemma {:induction false} ArmsFollowSides(w: WallState, d: HorizontalDirection)
    ensures ShapeTouches(WallShape(w), d) <==> Side(w, d) != NoSide
    ensures TallToward(WallShape(w), d) <==> Side(w, d) == Tall
  {
    var s := WallShape(w);
    ArmBoxesReachOnlyTheirFace();
    if Side(w, d) != NoSide {
      assert ArmBox(d, Side(w, d)) in s;
    }
    if ShapeTouches(s, d) {
      var b :| b in s && b.Touches(d);
      assert b in {PostBox} || b in Arm(North, w.north) || b in Arm(East, w.east)
        || b in Arm(South, w.south) || b in Arm(West, w.west);
    }
    if TallToward(s, d) {
      var b :| b in s && b.Touches(d) && b.maxY == 16;
      assert b in {PostBox} || b in Arm(North, w.north) || b in Arm(East, w.east)
        || b in Arm(South, w.south) || b in Arm(West, w.west);
    }
  }

  // ---------------------------------------------------------------------
  // Connections
  // ---------------------------------------------------------------------

  /**
   * getWallSide: no side unless the neighbour is a copy wall; tall when a
   * copy wall stands on top of that neighbour, low otherwise.
   */
  function WallSideToward(cells: map<Pos, Cell>, pos: Pos, d: HorizontalDirection, neighbour: Cell): (side: WallSide)
    ensures side == NoSide <==> !neighbour.WallCell?
    ensures side == Tall <==> neighbour.WallCell? && CellIn(cells, Above(Relative(pos, d))).WallCell?
  {
    if !neighbour.WallCell? then NoSide
    else if CellIn(cells, Above(Relative(pos, d))).WallCell? then Tall
    else Low
  }

  /**
   * updateShape: an update from above or below sets the post to whether
   * that neighbour is a copy wall; one from a side sets that side alone.
   */
  function UpdateShape(cells: map<Pos, Cell>, pos: Pos, w: WallState, d: Direction, neighbour: Cell): (r: WallState)
    ensures !d.IsHorizontal() ==> r == w.(up := neighbour.WallCell?)
    ensures d.IsHorizontal() ==> r.up == w.up && Side(r, d) == WallSideToward(cells, pos, d, neighbour)
    ensures forall e: Direction :: e != d ==> Side(r, e) == Side(w, e)
  {
    if !d.IsHorizontal() then w.(up := neighbour.WallCell?)
    else WithSide(w, d, WallSideToward(cells, pos, d, neighbour))
  }

  /** The side toward `d` read from the cell that lies that way. */
  function SideFromNeighbour(cells: map<Pos, Cell>, pos: Pos, d: HorizontalDirection): WallSide
  {
    WallSideToward(cells, pos, d, CellIn(cells, Relative(pos, d)))
  }

  /** The wall state a wall at `pos` takes from its surroundings, whatever it was before. */
  function ConnectedWall(cells: map<Pos, Cell>, pos: Pos): WallState
  {
    WallState(CellIn(cells, Above(pos)).WallCell?,
      SideFromNeighbour(cells, pos, North), SideFromNeighbour(cells, pos, East),
      SideFromNeighbour(cells, pos, South), SideFromNeighbour(cells, pos, West))
  }

  /**
   * Recomputing all connections is the same as feeding the wall one
   * neighbour update from each side, in the game's horizontal order, and
   * then one from above.
   */
  lemma ConnectionsAreNeighbourUpdates(cells: map<Pos, Cell>, pos: Pos, w: WallState)
    ensures ConnectedWall(cells, pos)
      == UpdateShape(cells, pos,
           UpdateShape(cells, pos,
             UpdateShape(cells, pos,
               UpdateShape(cells, pos,
                 UpdateShape(cells, pos, w, North, CellIn(cells, Relative(pos, North))),
                 East, CellIn(cells, Relative(pos, East))),
               South, CellIn(cells, Relative(pos, South))),
             West, CellIn(cells, Relative(pos, West))),
           Up, CellIn(cells, Above(pos)))
  {
    var w1 := UpdateShape(cells, pos, w, North, CellIn(cells, Relative(pos, North)));
    var w2 := UpdateShape(cells, pos, w1, East, CellIn(cells, Relative(pos, East)));
    var w3 := UpdateShape(cells, pos, w2, South, CellIn(cells, Relative(pos, South)));
    var w4 := UpdateShape(cells, pos, w3, West, CellIn(cells, Relative(pos, West)));
    var w5 := UpdateShape(cells, pos, w4, Up, CellIn(cells, Above(pos)));
    SidesDetermineWall(ConnectedWall(cells, pos), w5);
  }

  /** updateWallConnections: each horizontal side from its neighbour, then the post from the cell above. */
  method UpdateWallConnections(level: Level, pos: Pos, w: WallState) returns (r: WallState)
    ensures r == ConnectedWall(level.cells, pos)
  {
    r := w;
    for i := 0 to |Horizontals|
      invariant forall k :: 0 <= k < i ==> Side(r, Horizontals[k]) == SideFromNeighbour(level.cells, pos, Horizontals[k])
    {
      var d := Horizontals[i];
      var neighbour := level.CellAt(Relative(pos, d));
      r := WithSide(r, d, WallSideToward(level.cells, pos, d, neighbour));
    }
    assert Horizontals == [North, East, South, West];
    assert Side(r, North) == SideFromNeighbour(level.cells, pos, North) by { assert Horizontals[0] == North; }
    assert Side(r, East) == SideFromNeighbour(level.cells, pos, East) by { assert Horizontals[1] == East; }
    assert Side(r, South) == SideFromNeighbour(level.cells, pos, South) by { assert Horizontals[2] == South; }
    assert Side(r, West) == SideFromNeighbour(level.cells, pos, West) by { assert Horizontals[3] == West; }
    r := r.(up := level.CellAt(Above(pos)).WallCell?);
    SidesDetermineWall(r, ConnectedWall(level.cells, pos));
  }

  // ---------------------------------------------------------------------
  // Refreshing the walls around a position
  // ---------------------------------------------------------------------

  /** Recomputes the wall (if any) that lies toward `d` from `pos`. */
  function RefreshOne(cells: map<Pos, Cell>, pos: Pos, d: HorizontalDirection): map<Pos, Cell>
  {
    var n := Relative(pos, d);
    if CellIn(cells, n).WallCell? then cells[n := WallCell(ConnectedWall(cells, n))] else cells
  }

  /** Recomputes, one after another, the walls toward each of `ds` from `pos`. */
  function RefreshedWalls(cells: map<Pos, Cell>, pos: Pos, ds: seq<HorizontalDirection>): map<Pos, Cell>
  {
    if ds == [] then cells
    else RefreshOne(RefreshedWalls(cells, pos, ds[..|ds| - 1]), pos, ds[|ds| - 1])
  }

  /** Refreshing changes no cell other than the neighbours it visits. */
  lemma {:induction false} RefreshFrame(cells: map<Pos, Cell>, pos: Pos, ds: seq<HorizontalDirection>, p: Pos)
    requires forall k :: 0 <= k < |ds| ==> Relative(pos, ds[k]) != p
    ensures CellIn(RefreshedWalls(cells, pos, ds), p) == CellIn(cells, p)
  {
    if ds != [] {
      RefreshFrame(cells, pos, ds[..|ds| - 1], p);
    }
  }

  /** Refreshing keeps walls walls and leaves every other cell alone. */
  lemma {:induction false} RefreshKinds(cells: map<Pos, Cell>, pos: Pos, ds: seq<HorizontalDirection>, p: Pos)
    ensures CellIn(RefreshedWalls(cells, pos, ds), p).WallCell? == CellIn(cells, p).WallCell?
    ensures !CellIn(cells, p).WallCell? ==> CellIn(RefreshedWalls(cells, pos, ds), p) == CellIn(cells, p)
  {
    if ds != [] {
      RefreshKinds(cells, pos, ds[..|ds| - 1], p);
    }
  }

  /**
   * After refreshing the walls around `pos` (each direction at most once),
   * every neighbouring wall has a side toward `pos` exactly when a wall
   * stands at `pos`.
   */
  lemma {:induction false} RefreshLinks(cells: map<Pos, Cell>, pos: Pos, ds: seq<HorizontalDirection>, k: nat)
    requires forall i, j :: 0 <= i < j < |ds| ==> ds[i] != ds[j]
    requires k < |ds|
    requires CellIn(cells, Relative(pos, ds[k])).WallCell?
    ensures CellIn(RefreshedWalls(cells, pos, ds), Relative(pos, ds[k])).WallCell?
    ensures Side(CellIn(RefreshedWalls(cells, pos, ds), Relative(pos, ds[k])).wall, ds[k].Opposite()) != NoSide
            <==> CellIn(cells, pos).WallCell?
  {
    var init := ds[..|ds| - 1];
    var last := ds[|ds| - 1];
    var before := RefreshedWalls(cells, pos, init);
    var n := Relative(pos, ds[k]);
    if k < |ds| - 1 {
      assert init[k] == ds[k];
      RefreshLinks(cells, pos, init, k);
      assert Relative(pos, last) != n;
    } else {
      RefreshKinds(cells, pos, init, n);
      RefreshFrame(cells, pos, init, pos);
      var opp: HorizontalDirection := last.Opposite();
      assert Relative(n, opp) == pos;
      assert Side(ConnectedWall(before, n), opp) == SideFromNeighbour(before, n, opp);
    }
  }

  // ---------------------------------------------------------------------
  // Placement and removal
  // ---------------------------------------------------------------------

  /** The cells after setPlacedBy as written: only the placed wall is connected. */
  function PlacedAsWritten(cells: map<Pos, Cell>, pos: Pos): map<Pos, Cell>
  {
    cells[pos := WallCell(ConnectedWall(cells, pos))]
  }

  /** setPlacedBy: the placed wall's connections are computed and written; nothing else changes. */
  method SetPlacedBy(level: Level, pos: Pos, w: WallState)
    modifies level
    ensures level.cells == PlacedAsWritten(old(level.cells), pos)
    ensures level.entities == old(level.entities)
  {
    var r := UpdateWallConnections(level, pos, w);
    level.cells := level.cells[pos := WallCell(r)];
  }

  /**
   * As written, a wall placed beside another joins it, while the other
   * wall keeps no side toward the new one.
   */
  lemma PlacementLeavesNeighbourUnjoined()
    ensures var pos := Pos(0, 0, 0);
            var after := PlacedAsWritten(map[Relative(pos, North) := WallCell(DefaultWall)], pos);
            Side(CellIn(after, pos).wall, North) == Low
            && CellIn(after, Relative(pos, North)).WallCell?
            && Side(CellIn(after, Relative(pos, North)).wall, South) == NoSide
  {
    var pos := Pos(0, 0, 0);
    var cells := map[Relative(pos, North) := WallCell(DefaultWall)];
    assert !CellIn(cells, Above(Relative(pos, North))).WallCell?;
    assert Relative(pos, North) != pos;
  }

  /** Placement that also recomputes the walls beside the placed one, as removal does. */
  function PlacedAndJoined(cells: map<Pos, Cell>, pos: Pos): map<Pos, Cell>
  {
    RefreshedWalls(PlacedAsWritten(cells, pos), pos, Horizontals)
  }

  /**
   * With the neighbours recomputed, the placed wall keeps the connections
   * it computed, and it and each neighbouring wall join each other.
   */
  lemma {:induction false} PlacedWallsJoinBothWays(cells: map<Pos, Cell>, pos: Pos, k: nat)
    requires k < |Horizontals|
    ensures CellIn(PlacedAndJoined(cells, pos), pos) == WallCell(ConnectedWall(cells, pos))
    ensures Side(ConnectedWall(cells, pos), Horizontals[k]) != NoSide <==> CellIn(cells, Relative(pos, Horizontals[k])).WallCell?
    ensures CellIn(cells, Relative(pos, Horizontals[k])).WallCell? ==>
              CellIn(PlacedAndJoined(cells, pos), Relative(pos, Horizontals[k])).WallCell?
              && Side(CellIn(PlacedAndJoined(cells, pos), Relative(pos, Horizontals[k])).wall, Horizontals[k].Opposite()) != NoSide
  {
    var placed := PlacedAsWritten(cells, pos);
    RefreshFrame(placed, pos, Horizontals, pos);
    var n := Relative(pos, Horizontals[k]);
    assert n != pos;
    assert CellIn(placed, n) == CellIn(cells, n);
    if CellIn(cells, n).WallCell? {
      HorizontalsDistinct();
      RefreshLinks(placed, pos, Horizontals, k);
    }
  }

  /** setPlacedBy with the neighbours recomputed. */
  method SetPlacedByJoined(level: Level, pos: Pos, w: WallState)
    modifies level
    ensures level.cells == PlacedAndJoined(old(level.cells), pos)
    ensures level.entities == old(level.entities)
  {
    SetPlacedBy(level, pos, w);
    RefreshNeighbours(level, pos);
  }

  /** Recomputes each horizontal neighbour that is a copy wall, in the game's order. */
  method RefreshNeighbours(level: Level, pos: Pos)
    modifies level
    ensures level.cells == RefreshedWalls(old(level.cells), pos, Horizontals)
    ensures level.entities == old(level.entities)
  {
    for i := 0 to |Horizontals|
      invariant level.cells == RefreshedWalls(old(level.cells), pos, Horizontals[..i])
      invariant level.entities == old(level.entities)
    {
      assert Horizontals[..i + 1][..i] == Horizontals[..i];
      var d := Horizontals[i];
      var neighbourPos := Relative(pos, d);
      var neighbour := level.CellAt(neighbourPos);
      if neighbour.WallCell? {
        var updated := UpdateWallConnections(level, neighbourPos, neighbour.wall);
        level.cells := level.cells[neighbourPos := WallCell(updated)];
      }
    }
    assert Horizontals[..|Horizontals|] == Horizontals;
  }

  /** onRemove: a wall removed for air (not moved) has the walls beside it recomputed. */
  method OnRemove(level: Level, pos: Pos, newState: Cell, isMoving: bool)
    modifies level
    ensures level.cells == if !isMoving && newState.IsAir() then RefreshedWalls(old(level.cells), pos, Horizontals) else old(level.cells)
    ensures level.entities == old(level.entities)
  {
    if !isMoving && newState.IsAir() {
      RefreshNeighbours(level, pos);
    }
  }

  /**
   * Once the removed wall's cell holds no wall, each wall beside it is
   * still a wall and has no side toward it, and no cell beyond the four
   * neighbours changes.
   */
  lemma {:induction false} RemovalUnjoinsNeighbours(cells: map<Pos, Cell>, pos: Pos, k: nat, p: Pos)
    requires !CellIn(cells, pos).WallCell?
    requires k < |Horizontals|
    ensures CellIn(cells, Relative(pos, Horizontals[k])).WallCell? ==>
              CellIn(RefreshedWalls(cells, pos, Horizontals), Relative(pos, Horizontals[k])).WallCell?
              && Side(CellIn(RefreshedWalls(cells, pos, Horizontals), Relative(pos, Horizontals[k])).wall, Horizontals[k].Opposite()) == NoSide
    ensures (forall j :: 0 <= j < |Horizontals| ==> Relative(pos, Horizontals[j]) != p) ==>
              CellIn(RefreshedWalls(cells, pos, Horizontals), p) == CellIn(cells, p)
  {
    if CellIn(cells, Relative(pos, Horizontals[k])).WallCell? {
      HorizontalsDistinct();
      RefreshLinks(cells, pos, Horizontals, k);
    }
    if forall j :: 0 <= j < |Horizontals| ==> Relative(pos, Horizontals[j]) != p {
      RefreshFrame(cells, pos, Horizontals, p);
    }
  }
}
