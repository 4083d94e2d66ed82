/** Rooms, room areas and the render-part generator of
    logics/structures/Structure.cs.

    A room area is an inclusive integer rectangle at one vertical level.
    RoomArea.Render walks the cells of its four edges and lists the parts a
    renderer must place there (walls, door frames, floor, ceiling, railings,
    low knee walls). The float transforms of the source are replaced by an
    exact abstract placement: the integer grid cell the source scales by the
    wall width, the level it lifts by the wall height, and a tag for the
    constant float offsets added on top. */
module Structures {
  import opened Results
  import opened Utilities

  /** FTType, the source's storage type for coordinates and levels (System.Int16). */
  type Int16 = x: int | -0x8000 <= x < 0x8000

  /** The unchecked C# cast (short)x: keeps the low 16 bits, two's complement. */
  function ToInt16(x: int): (r: Int16)
    ensures (x - r) % 0x1_0000 == 0
    ensures -0x8000 <= x < 0x8000 ==> r == x
  {
    (x + 0x8000) % 0x1_0000 - 0x8000
  }

  /** An inclusive cell rectangle; from <= to on both axes when built from
      Int16 corners. */
  datatype FromTo = FromTo(fromX: Int16, fromY: Int16, toX: Int16, toY: Int16) {
    /** The near corner: it lies at or before the far corner exactly when the
        rectangle is ordered. */
    function Position(): (r: Vec2)
      ensures Normalized() <==> r.x <= toX && r.y <= toY
    {
      Vec2(fromX, fromY)
    }

    /** Inclusive-cell size: a rectangle with from == to has size 1. */
    function Size(): (r: Vec2)
      ensures fromX + r.x - 1 == toX && fromY + r.y - 1 == toY
      ensures Normalized() <==> r.x >= 1 && r.y >= 1
    {
      Vec2(toX - fromX + 1, toY - fromY + 1)
    }

    predicate Normalized() {
      fromX <= toX && fromY <= toY
    }
  }

  /** The FromTo constructor: orders each axis of two arbitrary corners, then
      truncates every coordinate to Int16. The comparison is made before the
      truncation. */
  function NewFromTo(start: Vec2, end: Vec2): (r: FromTo)
    ensures r.fromX == ToInt16(Min(start.x, end.x)) && r.toX == ToInt16(Max(start.x, end.x))
    ensures r.fromY == ToInt16(Min(start.y, end.y)) && r.toY == ToInt16(Max(start.y, end.y))
  {
    var (fx, tx) := if start.x < end.x then (start.x, end.x) else (end.x, start.x);
    var (fy, ty) := if start.y < end.y then (start.y, end.y) else (end.y, start.y);
    FromTo(ToInt16(fx), ToInt16(fy), ToInt16(tx), ToInt16(ty))
  }

  predicate InInt16(v: Vec2) {
    -0x8000 <= v.x < 0x8000 && -0x8000 <= v.y < 0x8000
  }

  function Min(a: int, b: int): int { if a < b then a else b }
  function Max(a: int, b: int): int { if a < b then b else a }

  /** The order of the two corners does not matter, whatever their values. */
  lemma FromToSymmetric(a: Vec2, b: Vec2)
    ensures NewFromTo(a, b) == NewFromTo(b, a)
  {
  }

  /** For corners in Int16 range the rectangle spans exactly the cells between
      them: Position is the smaller corner, Position + Size - 1 the larger one,
      and both components of Size are at least 1. */
  lemma FromToSpansCorners(a: Vec2, b: Vec2)
    requires InInt16(a) && InInt16(b)
    ensures NewFromTo(a, b).Normalized()
    ensures NewFromTo(a, b).Position() == Vec2(Min(a.x, b.x), Min(a.y, b.y))
    ensures NewFromTo(a, b).Size() == Vec2(Max(a.x, b.x) - Min(a.x, b.x) + 1, Max(a.y, b.y) - Min(a.y, b.y) + 1)
    ensures NewFromTo(a, b).Size().x >= 1 && NewFromTo(a, b).Size().y >= 1
  {
  }

  /** Outside Int16 range the truncation can break the ordering: corners
      (40000, 0) and (0, 0) give fromX = 0 > toX = -25536. */
  lemma FromToTruncationCanInvert()
    ensures !NewFromTo(Vec2(40000, 0), Vec2(0, 0)).Normalized()
    ensures NewFromTo(Vec2(40000, 0), Vec2(0, 0)).toX == -25536
  {
  }

  datatype Side = FrontSide | RightSide | BackSide | LeftSide | BottomSide | TopSide

  /** OpenedSide, a [Flags] byte enum with one bit per side, as the set of
      sides whose bit is set. */
  type OpenedSide = set<Side>

  /** The enum value of each single-side member. */
  function Flag(side: Side): Byte {
    match side
    case FrontSide => 1
    case RightSide => 2
    case BackSide => 4
    case LeftSide => 8
    case BottomSide => 16
    case TopSide => 32
  }

  const OpenedNone: OpenedSide := {}
  const OpenedAll: OpenedSide := {FrontSide, RightSide, BackSide, LeftSide, BottomSide, TopSide}

  /** Enum.HasFlag for a single-side flag. */
  predicate HasFlag(sides: OpenedSide, side: Side) {
    side in sides
  }

  datatype RoomPart = Wall | WallShort | WallLow | WallShortLow | DoorFrame | Floor | Ceiling | Railing | Stairs | NoPart

  const AllParts: set<RoomPart> := {Wall, WallShort, WallLow, WallShortLow, DoorFrame, Floor, Ceiling, Railing, Stairs, NoPart}

  /** The rotation of a part: the four fixed bases of RoomArea, or the scale
      basis of a floor or ceiling quad (its scale follows the footprint size). */
  datatype Basis = ForwardBasis | BackwardBasis | RightBasis | LeftBasis | FootprintBasis

  /** Constant float offsets added to a grid position: Seam is the 1.25 shift
      back along the edge of a short connector, Raised the lift by the wall
      height of a low knee wall. */
  datatype Offset = Flush | SeamX | SeamZ | Raised | RaisedSeamX | RaisedSeamZ

  /** Where a part is placed: a grid cell (x, z) at a level, or the whole
      footprint of an area for a floor or ceiling quad. */
  datatype Anchor =
    | Cell(x: int, z: int, level: int, offset: Offset)
    | Footprint(position: Vec2, size: Vec2, level: int, ceiling: bool)

  /** RoomRenderInfo with the transform replaced by its abstract placement. */
  datatype RenderInfo = RenderInfo(basis: Basis, anchor: Anchor, part: RoomPart)

  datatype Door = Door(doorType: Byte, orientation: Orientation, position: Int16)

  datatype RoomArea = RoomArea(fromTo: FromTo, doors: seq<Door>, level: Int16, openedSides: OpenedSide)

  datatype Room = Room(roomType: Byte, areas: seq<RoomArea>)

  /** A structure only wraps its fixed array of rooms. */
  datatype Structure = Structure(rooms: seq<Room>)

  /** The RoomArea constructor: a null door array becomes an empty one. */
  function NewRoomArea(fromTo: FromTo, doors: Option<seq<Door>>, level: Int16, openedSides: OpenedSide): (r: RoomArea)
    ensures r.doors == if doors.Some? then doors.value else []
  {
    RoomArea(fromTo, if doors.Some? then doors.value else [], level, openedSides)
  }

  /** The corner-point RoomArea constructor: for Int16 corners the area's
      rectangle is normalized, so every edge has at least one cell. */
  function NewRoomAreaFromCorners(start: Vec2, end: Vec2, doors: Option<seq<Door>>, level: Int16, openedSides: OpenedSide): (r: RoomArea)
    ensures InInt16(start) && InInt16(end) ==> r.fromTo.Normalized()
  {
    NewRoomArea(NewFromTo(start, end), doors, level, openedSides)
  }

  /** Grid position of cell i of an X-axis edge: the back edge (pos false) or
      the front edge (pos true). */
  function WallPosX(position: Vec2, size: Vec2, i: int, pos: bool): (r: Vec2)
    ensures 0 <= i < size.x && size.y >= 1 ==>
              position.x <= r.x < position.x + size.x && position.y <= r.y < position.y + size.y
    ensures r.x - position.x == i
    ensures r.y == if pos then position.y + size.y - 1 else position.y
  {
    Vec2(position.x + i, position.y + (if pos then size.y - 1 else 0))
  }

  /** Grid position of cell j of a Y-axis edge: the left edge (pos false) or
      the right edge (pos true). */
  function WallPosY(position: Vec2, size: Vec2, j: int, pos: bool): (r: Vec2)
    ensures 0 <= j < size.y && size.x >= 1 ==>
              position.x <= r.x < position.x + size.x && position.y <= r.y < position.y + size.y
    ensures r.y - position.y == j
    ensures r.x == if pos then position.x + size.x - 1 else position.x
  {
    Vec2(position.x + (if pos then size.x - 1 else 0), position.y + j)
  }

  /** Some door sits on the face with that orientation at that offset. */
  predicate DoorAt(doors: seq<Door>, orientation: Orientation, shift: int) {
    exists k :: 0 <= k < |doors| && doors[k].orientation == orientation && doors[k].position == shift
  }

  method HasDoorAt(doors: seq<Door>, orientation: Orientation, shift: int) returns (r: bool)
    ensures r <==> DoorAt(doors, orientation, shift)
  {
    for i := 0 to |doors|
      invariant forall k :: 0 <= k < i ==> !(doors[k].orientation == orientation && doors[k].position == shift)
    {
      if doors[i].orientation == orientation && doors[i].position == shift {
        return true;
      }
    }
    return false;
  }

  /** The three parts AddWallX/AddWallY may emit: the wall of the cell, the
      short connector to the previous cell, and what replaces the wall where a
      door is. */
  datatype WallParts = WallParts(wall: RoomPart, shortWall: RoomPart, doorFrame: RoomPart)

  const Solid := WallParts(Wall, WallShort, DoorFrame)
  const RailingParts := WallParts(Railing, WallShort, NoPart)
  const Stubs := WallParts(NoPart, WallShort, NoPart)

  /** What AddWallX appends for cell i: the wall (or its door replacement,
      looked up with Up on the front edge and Down otherwise), then a short
      connector when i > 0. */
  function WallX(doors: seq<Door>, basis: Basis, position: Vec2, size: Vec2, level: int, i: int, pos: bool, parts: WallParts): seq<RenderInfo> {
    var v := WallPosX(position, size, i, pos);
    [RenderInfo(basis, Cell(v.x, v.y, level, Flush), if DoorAt(doors, if pos then Up else Down, i) then parts.doorFrame else parts.wall)]
    + (if i > 0 then [RenderInfo(basis, Cell(v.x, v.y, level, SeamX), parts.shortWall)] else [])
  }

  /** What AddWallY appends for cell j (door looked up with Right on the
      right edge and Left otherwise). */
  function WallY(doors: seq<Door>, basis: Basis, position: Vec2, size: Vec2, level: int, j: int, pos: bool, parts: WallParts): seq<RenderInfo> {
    var v := WallPosY(position, size, j, pos);
    [RenderInfo(basis, Cell(v.x, v.y, level, Flush), if DoorAt(doors, if pos then Right else Left, j) then parts.doorFrame else parts.wall)]
    + (if j > 0 then [RenderInfo(basis, Cell(v.x, v.y, level, SeamZ), parts.shortWall)] else [])
  }

  method AddWallX(result: seq<RenderInfo>, doors: seq<Door>, basis: Basis, position: Vec2, size: Vec2, level: int, i: int, pos: bool, parts: WallParts)
    returns (r: seq<RenderInfo>)
    ensures r == result + WallX(doors, basis, position, size, level, i, pos, parts)
  {
    var v := WallPosX(position, size, i, pos);
    var door := HasDoorAt(doors, if pos then Up else Down, i);
    r := result + [RenderInfo(basis, Cell(v.x, v.y, level, Flush), if door then parts.doorFrame else parts.wall)];
    if i > 0 {
      r := r + [RenderInfo(basis, Cell(v.x, v.y, level, SeamX), parts.shortWall)];
    }
  }

  method AddWallY(result: seq<RenderInfo>, doors: seq<Door>, basis: Basis, position: Vec2, size: Vec2, level: int, j: int, pos: bool, parts: WallParts)
    returns (r: seq<RenderInfo>)
    ensures r == result + WallY(doors, basis, position, size, level, j, pos, parts)
  {
    var v := WallPosY(position, size, j, pos);
    var door := HasDoorAt(doors, if pos then Right else Left, j);
    r := result + [RenderInfo(basis, Cell(v.x, v.y, level, Flush), if door then parts.doorFrame else parts.wall)];
    if j > 0 {
      r := r + [RenderInfo(basis, Cell(v.x, v.y, level, SeamZ), parts.shortWall)];
    }
  }

  /** Floor and ceiling quads: present unless the bottom (top) side is open. */
  function FloorAndCeiling(a: RoomArea): seq<RenderInfo> {
    var position, size := a.fromTo.Position(), a.fromTo.Size();
    (if !HasFlag(a.openedSides, BottomSide) then [RenderInfo(FootprintBasis, Footprint(position, size, a.level, false), Floor)] else [])
    + (if !HasFlag(a.openedSides, TopSide) then [RenderInfo(FootprintBasis, Footprint(position, size, a.level, true), Ceiling)] else [])
  }

  /** Back edge of X-axis cell i: a wall when the back is closed; when it is
      open onto a lower area, a railing and, one row further back, a stub. */
  function XBack(a: RoomArea, i: int): seq<RenderInfo> {
    var position, size, s, d, l := a.fromTo.Position(), a.fromTo.Size(), a.openedSides, a.doors, a.level;
    if !HasFlag(s, BackSide) then WallX(d, BackwardBasis, position, size, l, i, false, Solid)
    else if HasFlag(s, BottomSide) then XBackRailing(a, i)
    else []
  }

  /** The railing on the back row and the stub one row further back. */
  function XBackRailing(a: RoomArea, i: int): seq<RenderInfo> {
    var position, size, d, l := a.fromTo.Position(), a.fromTo.Size(), a.doors, a.level;
    WallX(d, BackwardBasis, position, size, l, i, false, RailingParts)
    + WallX(d, ForwardBasis, Vec2(position.x, position.y - 1), size, l, i, false, Stubs)
  }

  /** Front edge of X-axis cell i. An open front emits its railing pair on
      the back row (pos false, doors looked up with Down) and, on every
      iteration, the two corner connectors closing the opening. */
  function XFront(a: RoomArea, i: int): seq<RenderInfo> {
    var position, size, s, d, l := a.fromTo.Position(), a.fromTo.Size(), a.openedSides, a.doors, a.level;
    if !HasFlag(s, FrontSide) then WallX(d, ForwardBasis, position, size, l, i, true, Solid)
    else (if HasFlag(s, BottomSide) then XFrontRailing(a, i) else []) + XFrontCorners(a)
  }

  /** The railing pair of an open front: the source places it on the back
      row (pos false) and the stub one row in front of that. */
  function XFrontRailing(a: RoomArea, i: int): seq<RenderInfo> {
    var position, size, d, l := a.fromTo.Position(), a.fromTo.Size(), a.doors, a.level;
    WallX(d, ForwardBasis, position, size, l, i, false, RailingParts)
    + WallX(d, BackwardBasis, Vec2(position.x, position.y + 1), size, l, i, false, Stubs)
  }

  /** The two short connectors at the ends of an open front. */
  function XFrontCorners(a: RoomArea): seq<RenderInfo> {
    var position, size, l := a.fromTo.Position(), a.fromTo.Size(), a.level;
    [RenderInfo(LeftBasis, Cell(position.x, position.y + size.y, l, SeamZ), WallShort),
     RenderInfo(RightBasis, Cell(position.x + size.x - 1, position.y + size.y, l, SeamZ), WallShort)]
  }

  /** Knee walls of X-axis cell i when the top is open: two low walls, and two
      low connectors when i > 0. */
  function XTop(a: RoomArea, i: int): seq<RenderInfo> {
    var position, size, l := a.fromTo.Position(), a.fromTo.Size(), a.level;
    if HasFlag(a.openedSides, TopSide) then
      var neg, pos := WallPosX(position, size, i, false), WallPosX(position, size, i, true);
      [RenderInfo(BackwardBasis, Cell(neg.x, neg.y, l, Raised), WallLow),
       RenderInfo(ForwardBasis, Cell(pos.x, pos.y, l, Raised), WallLow)]
      + (if i > 0 then
           [RenderInfo(BackwardBasis, Cell(neg.x, neg.y, l, RaisedSeamX), WallShortLow),
            RenderInfo(ForwardBasis, Cell(pos.x, pos.y, l, RaisedSeamX), WallShortLow)]
         else [])
    else []
  }

  /** Everything one iteration i of the X-axis loop of Render appends. */
  function XCell(a: RoomArea, i: int): seq<RenderInfo> {
    XBack(a, i) + XFront(a, i) + XTop(a, i)
  }

  /** Left edge of Y-axis cell j. */
  function YLeft(a: RoomArea, j: int): seq<RenderInfo> {
    var position, size, s, d, l := a.fromTo.Position(), a.fromTo.Size(), a.openedSides, a.doors, a.level;
    if !HasFlag(s, LeftSide) then WallY(d, LeftBasis, position, size, l, j, false, Solid)
    else if HasFlag(s, BottomSide) then YLeftRailing(a, j)
    else []
  }

  /** The railing on the left column and the stub one column to its right. */
  function YLeftRailing(a: RoomArea, j: int): seq<RenderInfo> {
    var position, size, d, l := a.fromTo.Position(), a.fromTo.Size(), a.doors, a.level;
    WallY(d, LeftBasis, position, size, l, j, false, RailingParts)
    + WallY(d, BackwardBasis, Vec2(position.x + 1, position.y), size, l, j, false, Stubs)
  }

  /** Right edge of Y-axis cell j; an open right side emits its railing pair
      on the left column (doors looked up with Left). */
  function YRight(a: RoomArea, j: int): seq<RenderInfo> {
    var position, size, s, d, l := a.fromTo.Position(), a.fromTo.Size(), a.openedSides, a.doors, a.level;
    if !HasFlag(s, RightSide) then WallY(d, RightBasis, position, size, l, j, true, Solid)
    else (if HasFlag(s, BottomSide) then YRightRailing(a, j) else []) + YRightCorners(a)
  }

  /** The railing pair of an open right side, placed on the left column
      (pos false) with the stub one column to its left. */
  function YRightRailing(a: RoomArea, j: int): seq<RenderInfo> {
    var position, size, d, l := a.fromTo.Position(), a.fromTo.Size(), a.doors, a.level;
    WallY(d, RightBasis, position, size, l, j, false, RailingParts)
    + WallY(d, BackwardBasis, Vec2(position.x - 1, position.y), size, l, j, false, Stubs)
  }

  /** The two short connectors at the ends of an open right side. */
  function YRightCorners(a: RoomArea): seq<RenderInfo> {
    var position, size, l := a.fromTo.Position(), a.fromTo.Size(), a.level;
    [RenderInfo(BackwardBasis, Cell(position.x + size.x, position.y, l, SeamX), WallShort),
     RenderInfo(ForwardBasis, Cell(position.x + size.x, position.y + size.y - 1, l, SeamX), WallShort)]
  }

  /** Knee walls of Y-axis cell j when the top is open. */
  function YTop(a: RoomArea, j: int): seq<RenderInfo> {
    var position, size, l := a.fromTo.Position(), a.fromTo.Size(), a.level;
    if HasFlag(a.openedSides, TopSide) then
      var neg, pos := WallPosY(position, size, j, false), WallPosY(position, size, j, true);
      [RenderInfo(RightBasis, Cell(pos.x, pos.y, l, Raised), WallLow),
       RenderInfo(LeftBasis, Cell(neg.x, neg.y, l, Raised), WallLow)]
      + (if j > 0 then
           [RenderInfo(RightBasis, Cell(pos.x, pos.y, l, RaisedSeamZ), WallShortLow),
            RenderInfo(LeftBasis, Cell(neg.x, neg.y, l, RaisedSeamZ), WallShortLow)]
         else [])
    else []
  }

  /** Everything one iteration j of the Y-axis loop of Render appends. */
  function YCell(a: RoomArea, j: int): seq<RenderInfo> {
    YLeft(a, j) + YRight(a, j) + YTop(a, j)
  }

  /** The first n iterations of the X-axis loop. */
  function XEdges(a: RoomArea, n: int): seq<RenderInfo>
    decreases n
  {
    if n <= 0 then [] else XEdges(a, n - 1) + XCell(a, n - 1)
  }

  /** The first n iterations of the Y-axis loop. */
  function YEdges(a: RoomArea, n: int): seq<RenderInfo>
    decreases n
  {
    if n <= 0 then [] else YEdges(a, n - 1) + YCell(a, n - 1)
  }

  /** The parts RoomArea.Render lists, in order; None (the source's null) for
      an area open on all six sides. */
  function RenderSpec(a: RoomArea): (r: Option<seq<RenderInfo>>)
    ensures r.None? <==> a.openedSides == OpenedAll
  {
    if a.openedSides == OpenedAll then None
    else Some(FloorAndCeiling(a) + XEdges(a, a.fromTo.Size().x) + YEdges(a, a.fromTo.Size().y))
  }

  /** The exception RoomArea.Render can throw: the list's initial capacity
      (size.X + size.Y) * 4 is negative, as for a rectangle the Int16
      truncation inverted. */
  datatype RenderError = NegativeCapacity

  /** The list capacity reserved by RoomArea.Render. */
  function Capacity(a: RoomArea): int {
    (a.fromTo.Size().x + a.fromTo.Size().y) * 4
  }

  /** What RoomArea.Render returns or throws: null when open on all sides,
      the capacity failure when the reserved capacity is negative, and
      otherwise the parts of RenderSpec. */
  function RenderOutcome(a: RoomArea): (r: Result<Option<seq<RenderInfo>>, RenderError>)
    ensures r.Failure? <==> a.openedSides != OpenedAll && Capacity(a) < 0
    ensures r.Success? ==> r.value == RenderSpec(a)
  {
    if a.openedSides == OpenedAll then Success(None)
    else if Capacity(a) < 0 then Failure(NegativeCapacity)
    else Success(RenderSpec(a))
  }

  /** A normalized rectangle, which every pair of Int16 corners gives,
      never reaches the capacity failure. */
  lemma NormalizedRenders(a: RoomArea)
    requires a.fromTo.Normalized()
    ensures RenderOutcome(a) == Success(RenderSpec(a))
  {
  }

  /** The truncation-inverted rectangle of FromToTruncationCanInvert makes
      RoomArea.Render throw. */
  lemma InvertedAreaFails(doors: seq<Door>, level: Int16, openedSides: OpenedSide)
    requires openedSides != OpenedAll
    ensures RenderOutcome(RoomArea(NewFromTo(Vec2(40000, 0), Vec2(0, 0)), doors, level, openedSides)) == Failure(NegativeCapacity)
  {
  }

  /** The back-edge step of one X-axis iteration. */
  method AppendXBack(result: seq<RenderInfo>, a: RoomArea, i: int) returns (r: seq<RenderInfo>)
    ensures r == result + XBack(a, i)
  {
    var position, size, s, d, l := a.fromTo.Position(), a.fromTo.Size(), a.openedSides, a.doors, a.level;
    r := result;
    if !HasFlag(s, BackSide) {
      r := AddWallX(r, d, BackwardBasis, position, size, l, i, false, Solid);
    } else if HasFlag(s, BottomSide) {
      r := AddWallX(r, d, BackwardBasis, position, size, l, i, false, RailingParts);
      r := AddWallX(r, d, ForwardBasis, Vec2(position.x, position.y - 1), size, l, i, false, Stubs);
    }
  }

  /** The front-edge step of one X-axis iteration. */
  method AppendXFront(result: seq<RenderInfo>, a: RoomArea, i: int) returns (r: seq<RenderInfo>)
    ensures r == result + XFront(a, i)
  {
    var position, size, s, d, l := a.fromTo.Position(), a.fromTo.Size(), a.openedSides, a.doors, a.level;
    r := result;
    if !HasFlag(s, FrontSide) {
      r := AddWallX(r, d, ForwardBasis, position, size, l, i, true, Solid);
    } else {
      if HasFlag(s, BottomSide) {
        r := AddWallX(r, d, ForwardBasis, position, size, l, i, false, RailingParts);
        r := AddWallX(r, d, BackwardBasis, Vec2(position.x, position.y + 1), size, l, i, false, Stubs);
      }
      r := r + [RenderInfo(LeftBasis, Cell(position.x, position.y + size.y, l, SeamZ), WallShort)];
      r := r + [RenderInfo(RightBasis, Cell(position.x + size.x - 1, position.y + size.y, l, SeamZ), WallShort)];
    }
  }

  /** The open-top step of one X-axis iteration. */
  method AppendXTop(result: seq<RenderInfo>, a: RoomArea, i: int) returns (r: seq<RenderInfo>)
    ensures r == result + XTop(a, i)
  {
    var position, size, l := a.fromTo.Position(), a.fromTo.Size(), a.level;
    r := result;
    if HasFlag(a.openedSides, TopSide) {
      var neg, pos := WallPosX(position, size, i, false), WallPosX(position, size, i, true);
      r := r + [RenderInfo(BackwardBasis, Cell(neg.x, neg.y, l, Raised), WallLow)];
      r := r + [RenderInfo(ForwardBasis, Cell(pos.x, pos.y, l, Raised), WallLow)];
      if i > 0 {
        r := r + [RenderInfo(BackwardBasis, Cell(neg.x, neg.y, l, RaisedSeamX), WallShortLow)];
        r := r + [RenderInfo(ForwardBasis, Cell(pos.x, pos.y, l, RaisedSeamX), WallShortLow)];
      }
    }
  }

  /** The left-edge step of one Y-axis iteration. */
  method AppendYLeft(result: seq<RenderInfo>, a: RoomArea, j: int) returns (r: seq<RenderInfo>)
    ensures r == result + YLeft(a, j)
  {
    var position, size, s, d, l := a.fromTo.Position(), a.fromTo.Size(), a.openedSides, a.doors, a.level;
    r := result;
    if !HasFlag(s, LeftSide) {
      r := AddWallY(r, d, LeftBasis, position, size, l, j, false, Solid);
    } else if HasFlag(s, BottomSide) {
      r := AddWallY(r, d, LeftBasis, position, size, l, j, false, RailingParts);
      r := AddWallY(r, d, BackwardBasis, Vec2(position.x + 1, position.y), size, l, j, false, Stubs);
    }
  }

  /** The right-edge step of one Y-axis iteration. */
  method AppendYRight(result: seq<RenderInfo>, a: RoomArea, j: int) returns (r: seq<RenderInfo>)
    ensures r == result + YRight(a, j)
  {
    var position, size, s, d, l := a.fromTo.Position(), a.fromTo.Size(), a.openedSides, a.doors, a.level;
    r := result;
    if !HasFlag(s, RightSide) {
      r := AddWallY(r, d, RightBasis, position, size, l, j, true, Solid);
    } else {
      if HasFlag(s, BottomSide) {
        r := AddWallY(r, d, RightBasis, position, size, l, j, false, RailingParts);
        r := AddWallY(r, d, BackwardBasis, Vec2(position.x - 1, position.y), size, l, j, false, Stubs);
      }
      r := r + [RenderInfo(BackwardBasis, Cell(position.x + size.x, position.y, l, SeamX), WallShort)];
      r := r + [RenderInfo(ForwardBasis, Cell(position.x + size.x, position.y + size.y - 1, l, SeamX), WallShort)];
    }
  }

  /** The open-top step of one Y-axis iteration. */
  method AppendYTop(result: seq<RenderInfo>, a: RoomArea, j: int) returns (r: seq<RenderInfo>)
    ensures r == result + YTop(a, j)
  {
    var position, size, l := a.fromTo.Position(), a.fromTo.Size(), a.level;
    r := result;
    if HasFlag(a.openedSides, TopSide) {
      var neg, pos := WallPosY(position, size, j, false), WallPosY(position, size, j, true);
      r := r + [RenderInfo(RightBasis, Cell(pos.x, pos.y, l, Raised), WallLow)];
      r := r + [RenderInfo(LeftBasis, Cell(neg.x, neg.y, l, Raised), WallLow)];
      if j > 0 {
        r := r + [RenderInfo(RightBasis, Cell(pos.x, pos.y, l, RaisedSeamZ), WallShortLow)];
        r := r + [RenderInfo(LeftBasis, Cell(neg.x, neg.y, l, RaisedSeamZ), WallShortLow)];
      }
    }
  }

  /** One iteration of the X-axis loop of RoomArea.Render. */
  method AppendXCell(result: seq<RenderInfo>, a: RoomArea, i: int) returns (r: seq<RenderInfo>)
    ensures r == result + XCell(a, i)
  {
    r := AppendXBack(result, a, i);
    r := AppendXFront(r, a, i);
    r := AppendXTop(r, a, i);
    ConcatAssoc(result, XBack(a, i) + XFront(a, i), XTop(a, i));
    ConcatAssoc(result, XBack(a, i), XFront(a, i));
  }

  /** One iteration of the Y-axis loop of RoomArea.Render. */
  method AppendYCell(result: seq<RenderInfo>, a: RoomArea, j: int) returns (r: seq<RenderInfo>)
    ensures r == result + YCell(a, j)
  {
    r := AppendYLeft(result, a, j);
    r := AppendYRight(r, a, j);
    r := AppendYTop(r, a, j);
    ConcatAssoc(result, YLeft(a, j) + YRight(a, j), YTop(a, j));
    ConcatAssoc(result, YLeft(a, j), YRight(a, j));
  }

  lemma ConcatAssoc<T>(x: seq<T>, y: seq<T>, z: seq<T>)
    ensures (x + y) + z == x + (y + z)
  {
  }

  lemma XEdgesStep(a: RoomArea, i: nat)
    ensures XEdges(a, i + 1) == XEdges(a, i) + XCell(a, i)
  {
  }

  lemma YEdgesStep(a: RoomArea, j: nat)
    ensures YEdges(a, j + 1) == YEdges(a, j) + YCell(a, j)
  {
  }

  /** Iteration i of the X-axis loop, after the records of the earlier
      ones. */
  method XIteration(head: seq<RenderInfo>, result: seq<RenderInfo>, a: RoomArea, i: nat) returns (r: seq<RenderInfo>)
    requires result == head + XEdges(a, i)
    ensures r == head + XEdges(a, i + 1)
  {
    r := AppendXCell(result, a, i);
    XEdgesStep(a, i);
    ConcatAssoc(head, XEdges(a, i), XCell(a, i));
  }

  /** Iteration j of the Y-axis loop, after the records of the earlier
      ones. */
  method YIteration(head: seq<RenderInfo>, result: seq<RenderInfo>, a: RoomArea, j: nat) returns (r: seq<RenderInfo>)
    requires result == head + YEdges(a, j)
    ensures r == head + YEdges(a, j + 1)
  {
    r := AppendYCell(result, a, j);
    YEdgesStep(a, j);
    ConcatAssoc(head, YEdges(a, j), YCell(a, j));
  }

  /** The X-axis loop of RoomArea.Render. */
  method AppendXEdges(head: seq<RenderInfo>, a: RoomArea) returns (r: seq<RenderInfo>)
    ensures r == head + XEdges(a, a.fromTo.Size().x)
  {
    var n := a.fromTo.Size().x;
    r := head;
    var i := 0;
    while i < n
      invariant 0 <= i && (i <= n || i == 0)
      invariant r == head + XEdges(a, i)
    {
      r := XIteration(head, r, a, i);
      i := i + 1;
    }
  }

  /** The Y-axis loop of RoomArea.Render. */
  method AppendYEdges(head: seq<RenderInfo>, a: RoomArea) returns (r: seq<RenderInfo>)
    ensures r == head + YEdges(a, a.fromTo.Size().y)
  {
    var n := a.fromTo.Size().y;
    r := head;
    var j := 0;
    while j < n
      invariant 0 <= j && (j <= n || j == 0)
      invariant r == head + YEdges(a, j)
    {
      r := YIteration(head, r, a, j);
      j := j + 1;
    }
  }

  /** RoomArea.Render: null when open on all sides; the capacity failure
      when the list cannot be allocated; otherwise floor, ceiling, then the
      X-axis edge cells and the Y-axis edge cells. */
  method Render(a: RoomArea) returns (r: Result<Option<seq<RenderInfo>>, RenderError>)
    ensures r == RenderOutcome(a)
  {
    if a.openedSides == OpenedAll {
      return Success(None);
    }
    var position, size, l := a.fromTo.Position(), a.fromTo.Size(), a.level;
    if (size.x + size.y) * 4 < 0 {
      return Failure(NegativeCapacity);
    }
    var result: seq<RenderInfo> := [];
    if !HasFlag(a.openedSides, BottomSide) {
      result := result + [RenderInfo(FootprintBasis, Footprint(position, size, l, false), Floor)];
    }
    if !HasFlag(a.openedSides, TopSide) {
      result := result + [RenderInfo(FootprintBasis, Footprint(position, size, l, true), Ceiling)];
    }
    assert result == FloorAndCeiling(a);
    result := AppendXEdges(result, a);
    result := AppendYEdges(result, a);
    return Success(Some(result));
  }

  /** Room.Render: one entry per area, in the room's area order; the first
      area whose Render throws ends it with that exception. */
  method RenderRoom(room: Room) returns (r: Result<array<Option<seq<RenderInfo>>>, RenderError>)
    ensures r.Failure? <==> exists k :: 0 <= k < |room.areas| && RenderOutcome(room.areas[k]).Failure?
    ensures r.Success? ==>
              && fresh(r.value)
              && r.value.Length == |room.areas|
              && forall i :: 0 <= i < r.value.Length ==> Success(r.value[i]) == RenderOutcome(room.areas[i])
  {
    var result := new Option<seq<RenderInfo>>[|room.areas|](_ => None);
    for i := 0 to |room.areas|
      invariant forall k :: 0 <= k < i ==> Success(result[k]) == RenderOutcome(room.areas[k])
    {
      var area := Render(room.areas[i]);
      if area.Failure? {
        return Failure(area.error);
      }
      result[i] := area.value;
    }
    return Success(result);
  }
}
