/**
 * The copy fence: a post with a pair of rails toward each side that joins
 * another copy fence or a copy fence gate. Placement links the new fence
 * and writes the link back into neighbouring fences; removal takes those
 * back-links away again. Connection logic works on the level's map of
 * cells (`World.CellIn`).
 */
module Fence {
  import opened World
  import opened Shapes

  /** Four tenths of a full block's mass; no connections. */
  const Block: CopyBlockBase := NewCopyBlockBaseWith(ShapeMultiplier(FenceCopy))

  const DefaultFence: FenceState := FenceState(false, false, false, false)

  /** The connection property toward `d`; a vertical direction has none and reads as unconnected. */
  function Connected(f: FenceState, d: Direction): bool
  {
    match d
    case North => f.north
    case East => f.east
    case South => f.south
    case West => f.west
    case Up => false
    case Down => false
  }

  function WithConnection(f: FenceState, d: HorizontalDirection, b: bool): (r: FenceState)
    ensures Connected(r, d) == b
    ensures forall e: Direction :: e != d ==> Connected(r, e) == Connected(f, e)
  {
    match d
    case North => f.(north := b)
    case East => f.(east := b)
    case South => f.(south := b)
    case West => f.(west := b)
  }

  lemma ConnectionsDetermineFence(a: FenceState, b: FenceState)
    requires Connected(a, North) == Connected(b, North) && Connected(a, East) == Connected(b, East)
    requires Connected(a, South) == Connected(b, South) && Connected(a, West) == Connected(b, West)
    ensures a == b
  {
  }

  // ---------------------------------------------------------------------
  // Shape
  // ---------------------------------------------------------------------

  const PostBox: Box := Box(6, 0, 6, 10, 16, 10)

  /** The upper rail toward `d`. */
  function UpperRail(d: HorizontalDirection): Box
  {
    match d
    case North => Box(7, 12, 0, 9, 15, 9)
    case South => Box(7, 12, 7, 9, 15, 16)
    case East => Box(7, 12, 7, 16, 15, 9)
    case West => Box(0, 12, 7, 9, 15, 9)
  }

  /** The lower rail toward `d`. */
  function LowerRail(d: HorizontalDirection): Box
  {
    match d
    case North => Box(7, 6, 0, 9, 9, 9)
    case South => Box(7, 6, 7, 9, 9, 16)
    case East => Box(7, 6, 7, 16, 9, 9)
    case West => Box(0, 6, 7, 9, 9, 9)
  }

  function Rails(d: HorizontalDirection, connected: bool): Shape
  {
    if connected then {UpperRail(d), LowerRail(d)} else {}
  }

  /** getShape: the post and both rails toward every connected side; the collision shape is the same. */
  function FenceShape(f: FenceState): (s: Shape)
    ensures PostBox in s && ShapeWithinCell(s)
  {
    {PostBox} + Rails(North, f.north) + Rails(East, f.east) + Rails(South, f.south) + Rails(West, f.west)
  }

  lemma RailsReachOnlyTheirFace()
    ensures forall e: HorizontalDirection, d: HorizontalDirection :: UpperRail(e).Touches(d) <==> e == d
    ensures forall e: HorizontalDirection, d: HorizontalDirection :: LowerRail(e).Touches(d) <==> e == d
    ensures forall d: HorizontalDirection :: !PostBox.Touches(d)
  {
  }

  /** The fence's outline reaches a side of the cell exactly where it is connected. */
  lemma {:induction false} RailsFollowConnections(f: FenceState, d: HorizontalDirection)
    ensures ShapeTouches(FenceShape(f), d) <==> Connected(f, d)
  {
    var s := FenceShape(f);
    RailsReachOnlyTheirFace();
    if Connected(f, d) {
      assert UpperRail(d) in s;
    }
    if ShapeTouches(s, d) {
      var b :| b in s && b.Touches(d);
      assert b in {PostBox} || b in Rails(North, f.north) || b in Rails(East, f.east)
        || b in Rails(South, f.south) || b in Rails(West, f.west);
    }
  }

  // ---------------------------------------------------------------------
  // Connections
  // ---------------------------------------------------------------------

  /** canConnectToFence: copy fences and copy fence gates. */
  predicate CanConnectToFence(c: Cell)
  {
    c.FenceCell? || c.FenceGateCell?
  }

  /** updateShape: an update from a side sets that side's connection; one from above or below changes nothing. */
  function UpdateShape(f: FenceState, d: Direction, neighbour: Cell): (r: FenceState)
    ensures !d.IsHorizontal() ==> r == f
    ensures d.IsHorizontal() ==> Connected(r, d) == CanConnectToFence(neighbour)
    ensures forall e: Direction :: e != d ==> Connected(r, e) == Connected(f, e)
  {
    if d.IsHorizontal() then WithConnection(f, d, CanConnectToFence(neighbour)) else f
  }

  /** The connections a fence at `pos` takes from its four neighbours. */
  function ConnectedFence(cells: map<Pos, Cell>, pos: Pos): FenceState
  {
    FenceState(CanConnectToFence(CellIn(cells, Relative(pos, North))), CanConnectToFence(CellIn(cells, Relative(pos, East))),
      CanConnectToFence(CellIn(cells, Relative(pos, South))), CanConnectToFence(CellIn(cells, Relative(pos, West))))
  }

  /** The connections placement computes are what a neighbour update from each side would give. */
  lemma ConnectionsAreNeighbourUpdates(cells: map<Pos, Cell>, pos: Pos, f: FenceState)
    ensures ConnectedFence(cells, pos)
      == UpdateShape(UpdateShape(UpdateShape(UpdateShape(f,
           North, CellIn(cells, Relative(pos, North))),
           East, CellIn(cells, Relative(pos, East))),
           South, CellIn(cells, Relative(pos, South))),
           West, CellIn(cells, Relative(pos, West)))
  {
    var f1 := UpdateShape(f, North, CellIn(cells, Relative(pos, North)));
    var f2 := UpdateShape(f1, East, CellIn(cells, Relative(pos, East)));
    var f3 := UpdateShape(f2, South, CellIn(cells, Relative(pos, South)));
    var f4 := UpdateShape(f3, West, CellIn(cells, Relative(pos, West)));
    ConnectionsDetermineFence(ConnectedFence(cells, pos), f4);
  }

  // ---------------------------------------------------------------------
  // Links written into neighbouring fences
  // ---------------------------------------------------------------------

  /** Sets, on the copy fence (if any) toward `d` from `pos`, its connection back toward `pos`. */
  function SetLinkBack(cells: map<Pos, Cell>, pos: Pos, d: HorizontalDirection, value: bool): map<Pos, Cell>
  {
    var n := Relative(pos, d);
    if CellIn(cells, n).FenceCell? then cells[n := FenceCell(WithConnection(CellIn(cells, n).fence, d.Opposite(), value))]
    else cells
  }

  /** SetLinkBack toward each of `ds`, in order. */
  function LinksBack(cells: map<Pos, Cell>, pos: Pos, ds: seq<HorizontalDirection>, value: bool): map<Pos, Cell>
  {
    if ds == [] then cells
    else SetLinkBack(LinksBack(cells, pos, ds[..|ds| - 1], value), pos, ds[|ds| - 1], value)
  }

  lemma {:induction false} LinksBackFrame(cells: map<Pos, Cell>, pos: Pos, ds: seq<HorizontalDirection>, value: bool, p: Pos)
    requires forall k :: 0 <= k < |ds| ==> Relative(pos, ds[k]) != p
    ensures CellIn(LinksBack(cells, pos, ds, value), p) == CellIn(cells, p)
  {
    if ds != [] {
      LinksBackFrame(cells, pos, ds[..|ds| - 1], value, p);
    }
  }

  /** Each neighbour visited once: a fence there gets its link toward `pos` set, anything else stays as it was. */
  lemma {:induction false} LinksBackAt(cells: map<Pos, Cell>, pos: Pos, ds: seq<HorizontalDirection>, value: bool, k: nat)
    requires forall i, j :: 0 <= i < j < |ds| ==> ds[i] != ds[j]
    requires k < |ds|
    ensures CellIn(LinksBack(cells, pos, ds, value), Relative(pos, ds[k]))
            == if CellIn(cells, Relative(pos, ds[k])).FenceCell?
               then FenceCell(WithConnection(CellIn(cells, Relative(pos, ds[k])).fence, ds[k].Opposite(), value))
               else CellIn(cells, Relative(pos, ds[k]))
  {
    var init := ds[..|ds| - 1];
    var last := ds[|ds| - 1];
    var n := Relative(pos, ds[k]);
    if k < |ds| - 1 {
      assert init[k] == ds[k];
      LinksBackAt(cells, pos, init, value, k);
      assert Relative(pos, last) != n;
    } else {
      forall j | 0 <= j < |init|
        ensures Relative(pos, init[j]) != n
      {
        assert init[j] == ds[j];
      }
      LinksBackFrame(cells, pos, init, value, n);
    }
  }

  // ---------------------------------------------------------------------
  // Placement and removal
  // ---------------------------------------------------------------------

  /** The cells after setPlacedBy: back-links in the neighbouring fences, then the placed fence's own connections. */
  function Placed(cells: map<Pos, Cell>, pos: Pos): map<Pos, Cell>
  {
    LinksBack(cells, pos, Horizontals, true)[pos := FenceCell(ConnectedFence(cells, pos))]
  }

  /** setPlacedBy: connect toward every fence or gate beside it, and link every neighbouring fence back. */
  method SetPlacedBy(level: Level, pos: Pos, f: FenceState)
    modifies level
    ensures level.cells == Placed(old(level.cells), pos)
    ensures level.entities == old(level.entities)
  {
    var state := f;
    for i := 0 to |Horizontals|
      invariant level.cells == LinksBack(old(level.cells), pos, Horizontals[..i], true)
      invariant level.entities == old(level.entities)
      invariant forall k :: 0 <= k < i ==>
        Connected(state, Horizontals[k]) == CanConnectToFence(CellIn(old(level.cells), Relative(pos, Horizontals[k])))
    {
      assert Horizontals[..i + 1][..i] == Horizontals[..i];
      var d := Horizontals[i];
      var neighbourPos := Relative(pos, d);
      LinksBackFrame(old(level.cells), pos, Horizontals[..i], true, neighbourPos);
      var neighbour := level.CellAt(neighbourPos);
      state := WithConnection(state, d, CanConnectToFence(neighbour));
      if neighbour.FenceCell? {
        level.cells := level.cells[neighbourPos := FenceCell(WithConnection(neighbour.fence, d.Opposite(), true))];
      }
    }
    assert Horizontals[..|Horizontals|] == Horizontals;
    assert Horizontals == [North, East, South, West];
    assert Connected(state, North) == Connected(ConnectedFence(old(level.cells), pos), North) by { assert Horizontals[0] == North; }
    assert Connected(state, East) == Connected(ConnectedFence(old(level.cells), pos), East) by { assert Horizontals[1] == East; }
    assert Connected(state, South) == Connected(ConnectedFence(old(level.cells), pos), South) by { assert Horizontals[2] == South; }
    assert Connected(state, West) == Connected(ConnectedFence(old(level.cells), pos), West) by { assert Horizontals[3] == West; }
    ConnectionsDetermineFence(state, ConnectedFence(old(level.cells), pos));
    level.cells := level.cells[pos := FenceCell(state)];
  }

  /**
   * After placement the new fence is connected toward each fence or gate
   * beside it; each fence beside it is connected back, with its other
   * sides unchanged; a gate or any other neighbour is left as it was.
   */
  lemma {:induction false} PlacementLinksBothWays(cells: map<Pos, Cell>, pos: Pos, k: nat)
    requires k < |Horizontals|
    ensures CellIn(Placed(cells, pos), pos) == FenceCell(ConnectedFence(cells, pos))
    ensures Connected(ConnectedFence(cells, pos), Horizontals[k]) <==> CanConnectToFence(CellIn(cells, Relative(pos, Horizontals[k])))
    ensures CellIn(cells, Relative(pos, Horizontals[k])).FenceCell? ==>
              CellIn(Placed(cells, pos), Relative(pos, Horizontals[k])).FenceCell?
              && Connected(CellIn(Placed(cells, pos), Relative(pos, Horizontals[k])).fence, Horizontals[k].Opposite())
              && forall e: Direction :: e != Horizontals[k].Opposite() ==>
                   Connected(CellIn(Placed(cells, pos), Relative(pos, Horizontals[k])).fence, e)
                   == Connected(CellIn(cells, Relative(pos, Horizontals[k])).fence, e)
    ensures !CellIn(cells, Relative(pos, Horizontals[k])).FenceCell? ==>
              CellIn(Placed(cells, pos), Relative(pos, Horizontals[k])) == CellIn(cells, Relative(pos, Horizontals[k]))
  {
    var n := Relative(pos, Horizontals[k]);
    assert n != pos;
    assert Horizontals == [North, East, South, West];
    HorizontalsDistinct();
    LinksBackAt(cells, pos, Horizontals, true, k);
  }

  /** Placement changes no cell other than the placed one and its four neighbours. */
  lemma PlacementTouchesOnlyNeighbours(cells: map<Pos, Cell>, pos: Pos, p: Pos)
    requires p != pos && forall j :: 0 <= j < |Horizontals| ==> Relative(pos, Horizontals[j]) != p
    ensures CellIn(Placed(cells, pos), p) == CellIn(cells, p)
  {
    LinksBackFrame(cells, pos, Horizontals, true, p);
  }

  /** The cells after onRemove: links toward the removed fence taken out, when it was removed for air and not moved. */
  function Removed(cells: map<Pos, Cell>, pos: Pos, newState: Cell, isMoving: bool): map<Pos, Cell>
  {
    if !isMoving && newState.IsAir() then LinksBack(cells, pos, Horizontals, false) else cells
  }

  /** onRemove: every neighbouring fence still linked toward the removed one is unlinked. */
  method OnRemove(level: Level, pos: Pos, newState: Cell, isMoving: bool)
    modifies level
    ensures level.cells == Removed(old(level.cells), pos, newState, isMoving)
    ensures level.entities == old(level.entities)
  {
    if !isMoving && newState.IsAir() {
      for i := 0 to |Horizontals|
        invariant level.cells == LinksBack(old(level.cells), pos, Horizontals[..i], false)
        invariant level.entities == old(level.entities)
      {
        assert Horizontals[..i + 1][..i] == Horizontals[..i];
        var d := Horizontals[i];
        var neighbourPos := Relative(pos, d);
        var neighbour := level.CellAt(neighbourPos);
        if neighbour.FenceCell? {
          if Connected(neighbour.fence, d.Opposite()) {
            level.cells := level.cells[neighbourPos := FenceCell(WithConnection(neighbour.fence, d.Opposite(), false))];
          } else {
            ConnectionsDetermineFence(neighbour.fence, WithConnection(neighbour.fence, d.Opposite(), false));
            assert level.cells[neighbourPos := FenceCell(WithConnection(neighbour.fence, d.Opposite(), false))] == level.cells;
          }
        }
      }
      assert Horizontals[..|Horizontals|] == Horizontals;
    }
  }

  /**
   * After removal for air, no fence beside the removed one is connected
   * toward it, each keeps its other connections, and a gate or other
   * neighbour is left as it was.
   */
  lemma {:induction false} RemovalUnlinksNeighbours(cells: map<Pos, Cell>, pos: Pos, k: nat)
    requires k < |Horizontals|
    ensures CellIn(cells, Relative(pos, Horizontals[k])).FenceCell? ==>
              CellIn(Removed(cells, pos, AirCell, false), Relative(pos, Horizontals[k])).FenceCell?
              && !Connected(CellIn(Removed(cells, pos, AirCell, false), Relative(pos, Horizontals[k])).fence, Horizontals[k].Opposite())
              && forall e: Direction :: e != Horizontals[k].Opposite() ==>
                   Connected(CellIn(Removed(cells, pos, AirCell, false), Relative(pos, Horizontals[k])).fence, e)
                   == Connected(CellIn(cells, Relative(pos, Horizontals[k])).fence, e)
    ensures !CellIn(cells, Relative(pos, Horizontals[k])).FenceCell? ==>
              CellIn(Removed(cells, pos, AirCell, false), Relative(pos, Horizontals[k])) == CellIn(cells, Relative(pos, Horizontals[k]))
  {
    HorizontalsDistinct();
    LinksBackAt(cells, pos, Horizontals, false, k);
  }

  /** Placing a fence and then removing it for air leaves every neighbouring fence's link toward it cleared. */
  lemma PlaceThenRemoveClearsLinks(cells: map<Pos, Cell>, pos: Pos, k: nat)
    requires k < |Horizontals|
    requires CellIn(cells, Relative(pos, Horizontals[k])).FenceCell?
    ensures var after := Removed(Placed(cells, pos)[pos := AirCell], pos, AirCell, false);
            CellIn(after, Relative(pos, Horizontals[k])).FenceCell?
            && !Connected(CellIn(after, Relative(pos, Horizontals[k])).fence, Horizontals[k].Opposite())
  {
    var n := Relative(pos, Horizontals[k]);
    assert n != pos;
    PlacementLinksBothWays(cells, pos, k);
    var placed := Placed(cells, pos)[pos := AirCell];
    assert CellIn(placed, n) == CellIn(Placed(cells, pos), n);
    RemovalUnlinksNeighbours(placed, pos, k);
  }
}
