/**
 * The game-world vocabulary every component shares: directions, positions,
 * block states, item stacks, the block entities a copy block carries, and
 * the level that holds them.
 */
module World {
  import opened Wrappers

  // ---------------------------------------------------------------------
  // Java's 32-bit int
  // ---------------------------------------------------------------------

  const IntMin: int := -0x8000_0000
  const IntMax: int := 0x7fff_ffff

  predicate InInt32(x: int)
  {
    IntMin <= x <= IntMax
  }

  /** Java int arithmetic: the result taken modulo 2^32 into the signed range. */
  function Wrap32(x: int): (r: int)
    ensures InInt32(r)
    ensures InInt32(x) ==> r == x
    ensures (x - r) % 0x1_0000_0000 == 0
  {
    (x - IntMin) % 0x1_0000_0000 + IntMin
  }

  /** A Java (int) cast of an already-floored value: out-of-range values saturate. */
  function Saturate32(x: int): (r: int)
    ensures InInt32(r)
    ensures InInt32(x) ==> r == x
    ensures x > IntMax ==> r == IntMax
    ensures x < IntMin ==> r == IntMin
  {
    if x > IntMax then IntMax else if x < IntMin then IntMin else x
  }

  // ---------------------------------------------------------------------
  // Directions and positions
  // ---------------------------------------------------------------------

  /** Declared in the game's ordinal order: DOWN, UP, NORTH, SOUTH, WEST, EAST. */
  datatype Direction = Down | Up | North | South | West | East
  {
    function Ordinal(): (i: nat)
      ensures i < 6
    {
      match this
      case Down => 0
      case Up => 1
      case North => 2
      case South => 3
      case West => 4
      case East => 5
    }

    predicate IsHorizontal()
    {
      this != Down && this != Up
    }

    function Opposite(): Direction
    {
      match this
      case Down => Up
      case Up => Down
      case North => South
      case South => North
      case West => East
      case East => West
    }

    function Axis(): Axis
    {
      match this
      case Down => Y
      case Up => Y
      case North => Z
      case South => Z
      case West => X
      case East => X
    }
  }

  datatype Axis = X | Y | Z

  type HorizontalDirection = d: Direction | d.IsHorizontal() witness North

  /** The four horizontal directions in the order the game iterates them. */
  const Horizontals: seq<HorizontalDirection> := [North, East, South, West]

  /** The sweep over the horizontal directions visits each direction once. */
  lemma HorizontalsDistinct()
    ensures forall i, j :: 0 <= i < j < |Horizontals| ==> Horizontals[i] != Horizontals[j]
  {
  }

  /** Quarter turn clockwise seen from above. */
  function ClockWise(d: HorizontalDirection): HorizontalDirection
  {
    match d
    case North => East
    case East => South
    case South => West
    case West => North
  }

  /** Quarter turn counter-clockwise seen from above. */
  function CounterClockWise(d: HorizontalDirection): HorizontalDirection
  {
    match d
    case North => West
    case West => South
    case South => East
    case East => North
  }

  datatype Pos = Pos(x: int, y: int, z: int)

  function Relative(p: Pos, d: Direction): Pos
  {
    match d
    case Down => Pos(p.x, p.y - 1, p.z)
    case Up => Pos(p.x, p.y + 1, p.z)
    case North => Pos(p.x, p.y, p.z - 1)
    case South => Pos(p.x, p.y, p.z + 1)
    case West => Pos(p.x - 1, p.y, p.z)
    case East => Pos(p.x + 1, p.y, p.z)
  }

  function Above(p: Pos): Pos
  {
    Relative(p, Up)
  }

  // ---------------------------------------------------------------------
  // Blocks, block states and resource locations
  // ---------------------------------------------------------------------

  /** A block's registry name, e.g. "minecraft:stone". */
  type BlockId = string

  const AIR: BlockId := "minecraft:air"
  const CAVE_AIR: BlockId := "minecraft:cave_air"
  const VOID_AIR: BlockId := "minecraft:void_air"

  /** The three air blocks of the game all report isAir. */
  predicate IsAirId(b: BlockId)
  {
    b == AIR || b == CAVE_AIR || b == VOID_AIR
  }

  /** A block together with the values of its state properties. */
  datatype BlockState = BlockState(block: BlockId, properties: map<string, string>)
  {
    predicate IsAir()
    {
      IsAirId(block)
    }
  }

  /** A block's default state: no property moved from its default. */
  function DefaultState(b: BlockId): BlockState
  {
    BlockState(b, map[])
  }

  const AirState: BlockState := DefaultState(AIR)

  /** A namespaced registry key such as imitari:copy_block. */
  datatype ResourceLocation = ResourceLocation(namespace: string, path: string)
  {
    /** The "namespace:path" form the registries print and block ids use. */
    function ToString(): string
    {
      namespace + ":" + path
    }
  }

  predicate NamespaceChar(c: char)
  {
    c == '_' || c == '-' || ('a' <= c <= 'z') || ('0' <= c <= '9') || c == '.'
  }

  predicate PathChar(c: char)
  {
    NamespaceChar(c) || c == '/'
  }

  /** Index of the first ':' in `s`, or |s| when there is none. */
  function ColonIndex(s: string): (i: nat)
    ensures i <= |s|
    ensures i < |s| ==> s[i] == ':'
    ensures forall k :: 0 <= k < i ==> s[k] != ':'
  {
    if s == [] then 0
    else if s[0] == ':' then 0
    else 1 + ColonIndex(s[1..])
  }

  /**
   * Parsing a registry name: the text before the first ':' is the
   * namespace ("minecraft" when it is missing or empty), the rest the
   * path; a character outside the allowed sets is rejected (None).
   */
  function ParseResourceLocation(s: string): (r: Option<ResourceLocation>)
    ensures r.Some? ==> forall c :: c in r.value.namespace ==> NamespaceChar(c)
    ensures r.Some? ==> forall c :: c in r.value.path ==> PathChar(c)
    ensures ColonIndex(s) == |s| && (forall c :: c in s ==> PathChar(c)) ==> r == Some(ResourceLocation("minecraft", s))
  {
    var i := ColonIndex(s);
    var namespace := if 1 <= i < |s| then s[..i] else "minecraft";
    var path := if i < |s| then s[i + 1..] else s;
    if (forall c :: c in namespace ==> NamespaceChar(c)) && (forall c :: c in path ==> PathChar(c))
    then Some(ResourceLocation(namespace, path))
    else None
  }

  /** A block tag such as minecraft:mineable/pickaxe. */
  datatype TagKey = TagKey(location: ResourceLocation)

  /**
   * What the copy-block library's block interface reports: the shape's
   * mass multiplier and whether tags and models follow the copied block.
   */
  datatype CopyTraits = CopyTraits(massMultiplier: real, dynamicTags: bool, dynamicModel: bool)

  /** A block as the library sees it: its registry key (when registered) and its copy traits (when it is a copy block). */
  datatype BlockInfo = BlockInfo(key: Option<ResourceLocation>, copy: Option<CopyTraits>)
  {
    predicate IsCopyBlock()
    {
      copy.Some?
    }
  }

  /** One entry of the game's block registry, in the registry's iteration order. */
  datatype RegistryEntry = RegistryEntry(id: ResourceLocation, block: BlockInfo)

  // ---------------------------------------------------------------------
  // Items and interaction results
  // ---------------------------------------------------------------------

  /** The empty hand holds the air item, which is not a block item. */
  datatype Item = AirItem | BlockItem(block: BlockId) | OtherItem(name: string)

  datatype ItemStack = ItemStack(item: Item, count: int)
  {
    predicate IsEmpty()
    {
      item == AirItem || count <= 0
    }

    /** getItem: an empty stack reports the air item. */
    function GetItem(): (i: Item)
      ensures i.BlockItem? ==> !IsEmpty() && i == item
    {
      if IsEmpty() then AirItem else item
    }

    /** shrink: the count drops, possibly to zero or below. */
    function Shrink(n: int): (s: ItemStack)
      ensures s.item == item && s.count == count - n
    {
      ItemStack(item, count - n)
    }
  }

  const EmptyStack: ItemStack := ItemStack(AirItem, 0)

  datatype InteractionResult = Success | Consume | Pass | Fail

  /** Where a block entity lives: not yet in a level, or in a client or server level. */
  datatype Side = NoLevel | ClientSide | ServerSide

  // ---------------------------------------------------------------------
  // Block entities and the level
  // ---------------------------------------------------------------------

  /**
   * The three generations of copy-block entity: the legacy one with a
   * virtual rotation (copycraft's blockentity package), the consumed-item
   * one (copycraft's core package), and the imitari library's entity,
   * reached through its interface.
   */
  datatype EntityKind = LegacyCopy | CoreCopy | LibraryCopy

  /** What a level reports at a position that carries a block entity. */
  datatype BlockEntityView =
    | CopyEntity(kind: EntityKind, copied: BlockState, rotation: int)
    | OtherEntity

  /** The horizontal sides of a wall: absent, low or tall. */
  datatype WallSide = NoSide | Low | Tall

  datatype WallState = WallState(up: bool, north: WallSide, east: WallSide, south: WallSide, west: WallSide)

  datatype FenceState = FenceState(north: bool, east: bool, south: bool, west: bool)

  /** The block states the connecting shapes read from and write to a level. */
  datatype Cell =
    | AirCell
    | WallCell(wall: WallState)
    | FenceCell(fence: FenceState)
    | FenceGateCell
    | OtherCell(id: BlockId)
  {
    /** isAir on the cell's state: plain air, or another of the air blocks. */
    predicate IsAir()
    {
      AirCell? || (OtherCell? && IsAirId(id))
    }
  }

  /** The cell a map of block states holds at `p`: unset positions read as air. */
  function CellIn(cells: map<Pos, Cell>, p: Pos): Cell
  {
    if p in cells then cells[p] else AirCell
  }

  /** A level: the block entities and the connection-relevant block states it holds. */
  class Level {
    var entities: map<Pos, BlockEntityView>
    var cells: map<Pos, Cell>

    constructor (entities: map<Pos, BlockEntityView>, cells: map<Pos, Cell>)
      ensures this.entities == entities && this.cells == cells
    {
      this.entities := entities;
      this.cells := cells;
    }

    /** getBlockEntity: absent where no block entity is present. */
    function EntityAt(p: Pos): Option<BlockEntityView>
      reads this
    {
      if p in entities then Some(entities[p]) else None
    }

    /** getBlockState for the connecting shapes: unset positions read as air. */
    function CellAt(p: Pos): Cell
      reads this
    {
      CellIn(cells, p)
    }
  }
}
