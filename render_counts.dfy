/** How many parts of each kind RoomArea.Render lists, as a function of the
    open sides, the doors and the rectangle. Every count is first stated for
    one cell of an edge loop as an affine form (a Tally), then summed over the
    loop in closed form, then specialised to the part kinds. */
module RenderCounts {
  import opened Utilities
  import opened Structures

  /** Number of records in s whose part is one of ks. */
  function Count(s: seq<RenderInfo>, ks: set<RoomPart>): nat {
    if |s| == 0 then 0 else (if s[0].part in ks then 1 else 0) + Count(s[1..], ks)
  }

  lemma {:induction false} CountConcat(s: seq<RenderInfo>, t: seq<RenderInfo>, ks: set<RoomPart>)
    ensures Count(s + t, ks) == Count(s, ks) + Count(t, ks)
    decreases |s|
  {
    if |s| == 0 {
      assert s + t == t;
    } else {
      assert (s + t)[1..] == s[1..] + t;
      CountConcat(s[1..], t, ks);
    }
  }

  /** Counting every part kind counts every record. */
  lemma {:induction false} CountAllParts(s: seq<RenderInfo>)
    ensures Count(s, AllParts) == |s|
    decreases |s|
  {
    if |s| > 0 {
      CountAllParts(s[1..]);
      match s[0].part
      case Wall => case WallShort => case WallLow => case WallShortLow => case DoorFrame =>
      case Floor => case Ceiling => case Railing => case Stairs => case NoPart =>
    }
  }

  function In(q: RoomPart, ks: set<RoomPart>): int {
    if q in ks then 1 else 0
  }

  /** A per-cell count as an affine form: `base` for every cell, `seam` for
      every cell after the first, `neg` for a cell with a door on the negative
      face (Down or Left) and `pos` for one with a door on the positive face
      (Up or Right). */
  datatype Tally = Tally(base: int, seam: int, neg: int, pos: int) {
    function Eval(later: bool, negDoor: bool, posDoor: bool): int {
      base + (if later then seam else 0) + (if negDoor then neg else 0) + (if posDoor then pos else 0)
    }

    /** The sum of the form over cells 0 .. n-1, of which negDoors have a door
        on the negative face and posDoors one on the positive face. */
    function Closed(n: int, negDoors: int, posDoors: int): int {
      Span(n) * base + Seams(n) * seam + negDoors * neg + posDoors * pos
    }
  }

  const Zero := Tally(0, 0, 0, 0)

  /** The number of cells of an edge loop running to n. */
  function Span(n: int): nat {
    if n > 0 then n else 0
  }

  /** The number of those cells after the first. */
  function Seams(n: int): nat {
    if n > 1 then n - 1 else 0
  }

  /** The tally of one AddWallX/AddWallY call; posFace says which face its
      door lookup uses. */
  function WallTally(parts: WallParts, ks: set<RoomPart>, posFace: bool): Tally {
    var swap := In(parts.doorFrame, ks) - In(parts.wall, ks);
    Tally(In(parts.wall, ks), In(parts.shortWall, ks), if posFace then 0 else swap, if posFace then swap else 0)
  }

  /** The railing and the stub an open side above a lower area gets; both
      look up doors on the negative face. */
  function RailingTally(ks: set<RoomPart>): Tally {
    var swap := In(NoPart, ks) - In(Railing, ks);
    Tally(In(Railing, ks) + In(NoPart, ks), In(WallShort, ks) + In(WallShort, ks), swap, 0)
  }

  /** Tally of the negative-face step (back for X, left for Y). */
  function NegTally(sides: OpenedSide, negSide: Side, ks: set<RoomPart>): Tally {
    if !HasFlag(sides, negSide) then WallTally(Solid, ks, false)
    else if HasFlag(sides, BottomSide) then RailingTally(ks)
    else Zero
  }

  /** Tally of the positive-face step (front for X, right for Y). */
  function PosTally(sides: OpenedSide, posSide: Side, ks: set<RoomPart>): Tally {
    if !HasFlag(sides, posSide) then WallTally(Solid, ks, true)
    else if HasFlag(sides, BottomSide) then
      var r := RailingTally(ks);
      Tally(r.base + In(WallShort, ks) + In(WallShort, ks), r.seam, r.neg, r.pos)
    else Tally(In(WallShort, ks) + In(WallShort, ks), 0, 0, 0)
  }

  /** Tally of the open-top step. */
  function TopTally(sides: OpenedSide, ks: set<RoomPart>): Tally {
    if HasFlag(sides, TopSide) then Tally(In(WallLow, ks) + In(WallLow, ks), In(WallShortLow, ks) + In(WallShortLow, ks), 0, 0) else Zero
  }

  /** The three steps of one edge-loop iteration added up. */
  function EdgeTally(sides: OpenedSide, negSide: Side, posSide: Side, ks: set<RoomPart>): Tally {
    var n, p, t := NegTally(sides, negSide, ks), PosTally(sides, posSide, ks), TopTally(sides, ks);
    Tally(n.base + p.base + t.base, n.seam + p.seam + t.seam, n.neg + p.neg + t.neg, n.pos + p.pos + t.pos)
  }

  function XTally(a: RoomArea, ks: set<RoomPart>): Tally {
    EdgeTally(a.openedSides, BackSide, FrontSide, ks)
  }

  function YTally(a: RoomArea, ks: set<RoomPart>): Tally {
    EdgeTally(a.openedSides, LeftSide, RightSide, ks)
  }

  /** The number of cells 0 .. n-1 with a door of orientation o there. */
  function DoorCells(doors: seq<Door>, o: Orientation, n: int): nat
    decreases n
  {
    if n <= 0 then 0 else DoorCells(doors, o, n - 1) + (if DoorAt(doors, o, n - 1) then 1 else 0)
  }

  lemma {:induction false} DoorCellsBound(doors: seq<Door>, o: Orientation, n: int)
    ensures DoorCells(doors, o, n) <= Span(n)
    decreases n
  {
    if n > 0 {
      DoorCellsBound(doors, o, n - 1);
    }
  }

  /** With a single door, exactly one cell of its face has a door when the
      door's position lies on the edge, and none otherwise. */
  lemma {:induction false} SingleDoorCells(door: Door, o: Orientation, n: int)
    ensures DoorCells([door], o, n) == if door.orientation == o && 0 <= door.position < n then 1 else 0
    decreases n
  {
    if n > 0 {
      SingleDoorCells(door, o, n - 1);
      assert DoorAt([door], o, n - 1) <==> door.orientation == o && door.position == n - 1 by {
        if door.orientation == o && door.position == n - 1 {
          assert [door][0] == door;
        }
      }
    }
  }

  lemma CountSingle(x: RenderInfo, ks: set<RoomPart>)
    ensures Count([x], ks) == In(x.part, ks)
  {
    assert [x][1..] == [];
  }

  lemma WallXCount(doors: seq<Door>, basis: Basis, position: Vec2, size: Vec2, level: int, i: int, pos: bool, parts: WallParts, ks: set<RoomPart>)
    ensures Count(WallX(doors, basis, position, size, level, i, pos, parts), ks)
         == WallTally(parts, ks, pos).Eval(i > 0, DoorAt(doors, Down, i), DoorAt(doors, Up, i))
  {
    var v := WallPosX(position, size, i, pos);
    var head := [RenderInfo(basis, Cell(v.x, v.y, level, Flush), if DoorAt(doors, if pos then Up else Down, i) then parts.doorFrame else parts.wall)];
    var tail := if i > 0 then [RenderInfo(basis, Cell(v.x, v.y, level, SeamX), parts.shortWall)] else [];
    CountConcat(head, tail, ks);
    CountSingle(head[0], ks);
    if i > 0 {
      CountSingle(tail[0], ks);
    }
  }

  lemma WallYCount(doors: seq<Door>, basis: Basis, position: Vec2, size: Vec2, level: int, j: int, pos: bool, parts: WallParts, ks: set<RoomPart>)
    ensures Count(WallY(doors, basis, position, size, level, j, pos, parts), ks)
         == WallTally(parts, ks, pos).Eval(j > 0, DoorAt(doors, Left, j), DoorAt(doors, Right, j))
  {
    var v := WallPosY(position, size, j, pos);
    var head := [RenderInfo(basis, Cell(v.x, v.y, level, Flush), if DoorAt(doors, if pos then Right else Left, j) then parts.doorFrame else parts.wall)];
    var tail := if j > 0 then [RenderInfo(basis, Cell(v.x, v.y, level, SeamZ), parts.shortWall)] else [];
    CountConcat(head, tail, ks);
    CountSingle(head[0], ks);
    if j > 0 {
      CountSingle(tail[0], ks);
    }
  }

  lemma CountPair(x: RenderInfo, y: RenderInfo, ks: set<RoomPart>)
    ensures Count([x, y], ks) == In(x.part, ks) + In(y.part, ks)
  {
    assert [x, y] == [x] + [y];
    CountConcat([x], [y], ks);
    CountSingle(x, ks);
    CountSingle(y, ks);
  }

  lemma XBackCount(a: RoomArea, i: int, ks: set<RoomPart>)
    ensures Count(XBack(a, i), ks) == NegTally(a.openedSides, BackSide, ks).Eval(i > 0, DoorAt(a.doors, Down, i), DoorAt(a.doors, Up, i))
  {
    var position, size, s, d, l := a.fromTo.Position(), a.fromTo.Size(), a.openedSides, a.doors, a.level;
    if !HasFlag(s, BackSide) {
      WallXCount(d, BackwardBasis, position, size, l, i, false, Solid, ks);
    } else if HasFlag(s, BottomSide) {
      CountConcat(WallX(d, BackwardBasis, position, size, l, i, false, RailingParts),
                  WallX(d, ForwardBasis, Vec2(position.x, position.y - 1), size, l, i, false, Stubs), ks);
      WallXCount(d, BackwardBasis, position, size, l, i, false, RailingParts, ks);
      WallXCount(d, ForwardBasis, Vec2(position.x, position.y - 1), size, l, i, false, Stubs, ks);
    }
  }

  lemma XFrontRailingCount(a: RoomArea, i: int, ks: set<RoomPart>)
    ensures Count(XFrontRailing(a, i), ks) == RailingTally(ks).Eval(i > 0, DoorAt(a.doors, Down, i), DoorAt(a.doors, Up, i))
  {
    var position, size, d, l := a.fromTo.Position(), a.fromTo.Size(), a.doors, a.level;
    CountConcat(WallX(d, ForwardBasis, position, size, l, i, false, RailingParts),
                WallX(d, BackwardBasis, Vec2(position.x, position.y + 1), size, l, i, false, Stubs), ks);
    WallXCount(d, ForwardBasis, position, size, l, i, false, RailingParts, ks);
    WallXCount(d, BackwardBasis, Vec2(position.x, position.y + 1), size, l, i, false, Stubs, ks);
  }

  lemma XFrontCornersCount(a: RoomArea, ks: set<RoomPart>)
    ensures Count(XFrontCorners(a), ks) == In(WallShort, ks) + In(WallShort, ks)
  {
    var c := XFrontCorners(a);
    assert c == [c[0], c[1]];
    CountPair(c[0], c[1], ks);
  }

  lemma XFrontCount(a: RoomArea, i: int, ks: set<RoomPart>)
    ensures Count(XFront(a, i), ks) == PosTally(a.openedSides, FrontSide, ks).Eval(i > 0, DoorAt(a.doors, Down, i), DoorAt(a.doors, Up, i))
  {
    var position, size, s, d, l := a.fromTo.Position(), a.fromTo.Size(), a.openedSides, a.doors, a.level;
    if !HasFlag(s, FrontSide) {
      WallXCount(d, ForwardBasis, position, size, l, i, true, Solid, ks);
    } else {
      XFrontCornersCount(a, ks);
      if HasFlag(s, BottomSide) {
        assert XFront(a, i) == XFrontRailing(a, i) + XFrontCorners(a);
        CountConcat(XFrontRailing(a, i), XFrontCorners(a), ks);
        XFrontRailingCount(a, i, ks);
        var r := RailingTally(ks);
        assert PosTally(s, FrontSide, ks) == Tally(r.base + In(WallShort, ks) + In(WallShort, ks), r.seam, r.neg, r.pos);
      } else {
        assert XFront(a, i) == [] + XFrontCorners(a) == XFrontCorners(a);
      }
    }
  }

  lemma XTopCount(a: RoomArea, i: int, ks: set<RoomPart>)
    ensures Count(XTop(a, i), ks) == TopTally(a.openedSides, ks).Eval(i > 0, DoorAt(a.doors, Down, i), DoorAt(a.doors, Up, i))
  {
    var position, size, l := a.fromTo.Position(), a.fromTo.Size(), a.level;
    if HasFlag(a.openedSides, TopSide) {
      var neg, pos := WallPosX(position, size, i, false), WallPosX(position, size, i, true);
      var low := [RenderInfo(BackwardBasis, Cell(neg.x, neg.y, l, Raised), WallLow),
                  RenderInfo(ForwardBasis, Cell(pos.x, pos.y, l, Raised), WallLow)];
      var seam := if i > 0 then [RenderInfo(BackwardBasis, Cell(neg.x, neg.y, l, RaisedSeamX), WallShortLow),
                                 RenderInfo(ForwardBasis, Cell(pos.x, pos.y, l, RaisedSeamX), WallShortLow)]
                  else [];
      CountConcat(low, seam, ks);
      CountPair(low[0], low[1], ks);
      assert low == [low[0], low[1]];
      if i > 0 {
        CountPair(seam[0], seam[1], ks);
        assert seam == [seam[0], seam[1]];
      }
    }
  }

  /** One iteration of the X-axis loop contributes the X tally of the area. */
  lemma XCellCount(a: RoomArea, i: int, ks: set<RoomPart>)
    ensures Count(XCell(a, i), ks) == XTally(a, ks).Eval(i > 0, DoorAt(a.doors, Down, i), DoorAt(a.doors, Up, i))
  {
    CountConcat(XBack(a, i) + XFront(a, i), XTop(a, i), ks);
    CountConcat(XBack(a, i), XFront(a, i), ks);
    XBackCount(a, i, ks);
    XFrontCount(a, i, ks);
    XTopCount(a, i, ks);
  }

  lemma YLeftCount(a: RoomArea, j: int, ks: set<RoomPart>)
    ensures Count(YLeft(a, j), ks) == NegTally(a.openedSides, LeftSide, ks).Eval(j > 0, DoorAt(a.doors, Left, j), DoorAt(a.doors, Right, j))
  {
    var position, size, s, d, l := a.fromTo.Position(), a.fromTo.Size(), a.openedSides, a.doors, a.level;
    if !HasFlag(s, LeftSide) {
      WallYCount(d, LeftBasis, position, size, l, j, false, Solid, ks);
    } else if HasFlag(s, BottomSide) {
      CountConcat(WallY(d, LeftBasis, position, size, l, j, false, RailingParts),
                  WallY(d, BackwardBasis, Vec2(position.x + 1, position.y), size, l, j, false, Stubs), ks);
      WallYCount(d, LeftBasis, position, size, l, j, false, RailingParts, ks);
      WallYCount(d, BackwardBasis, Vec2(position.x + 1, position.y), size, l, j, false, Stubs, ks);
    }
  }

  lemma YRightRailingCount(a: RoomArea, j: int, ks: set<RoomPart>)
    ensures Count(YRightRailing(a, j), ks) == RailingTally(ks).Eval(j > 0, DoorAt(a.doors, Left, j), DoorAt(a.doors, Right, j))
  {
    var position, size, d, l := a.fromTo.Position(), a.fromTo.Size(), a.doors, a.level;
    CountConcat(WallY(d, RightBasis, position, size, l, j, false, RailingParts),
                WallY(d, BackwardBasis, Vec2(position.x - 1, position.y), size, l, j, false, Stubs), ks);
    WallYCount(d, RightBasis, position, size, l, j, false, RailingParts, ks);
    WallYCount(d, BackwardBasis, Vec2(position.x - 1, position.y), size, l, j, false, Stubs, ks);
  }

  lemma YRightCornersCount(a: RoomArea, ks: set<RoomPart>)
    ensures Count(YRightCorners(a), ks) == In(WallShort, ks) + In(WallShort, ks)
  {
    var c := YRightCorners(a);
    assert c == [c[0], c[1]];
    CountPair(c[0], c[1], ks);
  }

  lemma YRightCount(a: RoomArea, j: int, ks: set<RoomPart>)
    ensures Count(YRight(a, j), ks) == PosTally(a.openedSides, RightSide, ks).Eval(j > 0, DoorAt(a.doors, Left, j), DoorAt(a.doors, Right, j))
  {
    var position, size, s, d, l := a.fromTo.Position(), a.fromTo.Size(), a.openedSides, a.doors, a.level;
    if !HasFlag(s, RightSide) {
      WallYCount(d, RightBasis, position, size, l, j, true, Solid, ks);
    } else {
      YRightCornersCount(a, ks);
      if HasFlag(s, BottomSide) {
        CountConcat(YRightRailing(a, j), YRightCorners(a), ks);
        YRightRailingCount(a, j, ks);
        var r := RailingTally(ks);
        assert PosTally(s, RightSide, ks) == Tally(r.base + In(WallShort, ks) + In(WallShort, ks), r.seam, r.neg, r.pos);
      } else {
        assert YRight(a, j) == [] + YRightCorners(a) == YRightCorners(a);
      }
    }
  }

  lemma YTopCount(a: RoomArea, j: int, ks: set<RoomPart>)
    ensures Count(YTop(a, j), ks) == TopTally(a.openedSides, ks).Eval(j > 0, DoorAt(a.doors, Left, j), DoorAt(a.doors, Right, j))
  {
    var position, size, l := a.fromTo.Position(), a.fromTo.Size(), a.level;
    if HasFlag(a.openedSides, TopSide) {
      var neg, pos := WallPosY(position, size, j, false), WallPosY(position, size, j, true);
      var low := [RenderInfo(RightBasis, Cell(pos.x, pos.y, l, Raised), WallLow),
                  RenderInfo(LeftBasis, Cell(neg.x, neg.y, l, Raised), WallLow)];
      var seam := if j > 0 then [RenderInfo(RightBasis, Cell(pos.x, pos.y, l, RaisedSeamZ), WallShortLow),
                                 RenderInfo(LeftBasis, Cell(neg.x, neg.y, l, RaisedSeamZ), WallShortLow)]
                  else [];
      CountConcat(low, seam, ks);
      CountPair(low[0], low[1], ks);
      assert low == [low[0], low[1]];
      if j > 0 {
        CountPair(seam[0], seam[1], ks);
        assert seam == [seam[0], seam[1]];
      }
    }
  }

  /** One iteration of the Y-axis loop contributes the Y tally of the area. */
  lemma YCellCount(a: RoomArea, j: int, ks: set<RoomPart>)
    ensures Count(YCell(a, j), ks) == YTally(a, ks).Eval(j > 0, DoorAt(a.doors, Left, j), DoorAt(a.doors, Right, j))
  {
    CountConcat(YLeft(a, j) + YRight(a, j), YTop(a, j), ks);
    CountConcat(YLeft(a, j), YRight(a, j), ks);
    YLeftCount(a, j, ks);
    YRightCount(a, j, ks);
    YTopCount(a, j, ks);
  }

  /** Adding cell n-1 to the closed form of cells 0 .. n-2. */
  lemma ClosedStep(t: Tally, n: int, negDoors: int, posDoors: int, negDoor: bool, posDoor: bool)
    requires n > 0
    ensures t.Closed(n, negDoors + (if negDoor then 1 else 0), posDoors + (if posDoor then 1 else 0))
         == t.Closed(n - 1, negDoors, posDoors) + t.Eval(n - 1 > 0, negDoor, posDoor)
  {
    assert Span(n) * t.base == Span(n - 1) * t.base + t.base;
    assert Seams(n) * t.seam == Seams(n - 1) * t.seam + (if n - 1 > 0 then t.seam else 0);
    assert (negDoors + (if negDoor then 1 else 0)) * t.neg == negDoors * t.neg + (if negDoor then t.neg else 0);
    assert (posDoors + (if posDoor then 1 else 0)) * t.pos == posDoors * t.pos + (if posDoor then t.pos else 0);
  }

  /** Closed form of the X-axis loop: the tally summed over its n cells. */
  lemma {:induction false} XEdgesCount(a: RoomArea, n: int, ks: set<RoomPart>)
    ensures Count(XEdges(a, n), ks) == XTally(a, ks).Closed(n, DoorCells(a.doors, Down, n), DoorCells(a.doors, Up, n))
    decreases n
  {
    if n > 0 {
      XEdgesCount(a, n - 1, ks);
      CountConcat(XEdges(a, n - 1), XCell(a, n - 1), ks);
      XCellCount(a, n - 1, ks);
      ClosedStep(XTally(a, ks), n, DoorCells(a.doors, Down, n - 1), DoorCells(a.doors, Up, n - 1),
                 DoorAt(a.doors, Down, n - 1), DoorAt(a.doors, Up, n - 1));
    }
  }

  /** Closed form of the Y-axis loop. */
  lemma {:induction false} YEdgesCount(a: RoomArea, n: int, ks: set<RoomPart>)
    ensures Count(YEdges(a, n), ks) == YTally(a, ks).Closed(n, DoorCells(a.doors, Left, n), DoorCells(a.doors, Right, n))
    decreases n
  {
    if n > 0 {
      YEdgesCount(a, n - 1, ks);
      CountConcat(YEdges(a, n - 1), YCell(a, n - 1), ks);
      YCellCount(a, n - 1, ks);
      ClosedStep(YTally(a, ks), n, DoorCells(a.doors, Left, n - 1), DoorCells(a.doors, Right, n - 1),
                 DoorAt(a.doors, Left, n - 1), DoorAt(a.doors, Right, n - 1));
    }
  }

  /** The floor and ceiling quads counted among ks. */
  function FloorCeilingCount(a: RoomArea, ks: set<RoomPart>): int {
    (if !HasFlag(a.openedSides, BottomSide) then In(Floor, ks) else 0)
    + (if !HasFlag(a.openedSides, TopSide) then In(Ceiling, ks) else 0)
  }

  /** The count of any set of part kinds in the list Render returns. */
  lemma RenderCount(a: RoomArea, ks: set<RoomPart>)
    requires a.openedSides != OpenedAll
    ensures Count(RenderSpec(a).value, ks)
         == FloorCeilingCount(a, ks)
            + XTally(a, ks).Closed(a.fromTo.Size().x, DoorCells(a.doors, Down, a.fromTo.Size().x), DoorCells(a.doors, Up, a.fromTo.Size().x))
            + YTally(a, ks).Closed(a.fromTo.Size().y, DoorCells(a.doors, Left, a.fromTo.Size().y), DoorCells(a.doors, Right, a.fromTo.Size().y))
  {
    var fc, xs, ys := FloorAndCeiling(a), XEdges(a, a.fromTo.Size().x), YEdges(a, a.fromTo.Size().y);
    CountConcat(fc + xs, ys, ks);
    CountConcat(fc, xs, ks);
    XEdgesCount(a, a.fromTo.Size().x, ks);
    YEdgesCount(a, a.fromTo.Size().y, ks);
    var position, size := a.fromTo.Position(), a.fromTo.Size();
    var floor := [RenderInfo(FootprintBasis, Footprint(position, size, a.level, false), Floor)];
    var ceiling := [RenderInfo(FootprintBasis, Footprint(position, size, a.level, true), Ceiling)];
    CountSingle(floor[0], ks);
    CountSingle(ceiling[0], ks);
    if !HasFlag(a.openedSides, BottomSide) && !HasFlag(a.openedSides, TopSide) {
      CountConcat(floor, ceiling, ks);
    } else if !HasFlag(a.openedSides, BottomSide) {
      assert fc == floor + [];
    } else if !HasFlag(a.openedSides, TopSide) {
      assert fc == [] + ceiling;
    }
  }

  /** The cells of an edge of length n whose side is closed. */
  function ClosedCells(sides: OpenedSide, side: Side, n: int): nat {
    if HasFlag(sides, side) then 0 else Span(n)
  }

  /** The cells of a closed side of length n that have a door on that face. */
  function ClosedDoorCells(sides: OpenedSide, side: Side, doors: seq<Door>, o: Orientation, n: int): nat {
    if HasFlag(sides, side) then 0 else DoorCells(doors, o, n)
  }

  /* The sums below evaluate EdgeTally for one set of part kinds; n cells,
     nd of them with a door on the negative face, pd on the positive face. */

  lemma FloorOrCeilingEdge(sides: OpenedSide, negSide: Side, posSide: Side, ks: set<RoomPart>, n: int, nd: int, pd: int)
    requires ks == {Floor} || ks == {Ceiling}
    ensures EdgeTally(sides, negSide, posSide, ks).Closed(n, nd, pd) == 0
  {
    assert EdgeTally(sides, negSide, posSide, ks) == Tally(0, 0, 0, 0);
  }

  lemma WallOrDoorFrameEdge(sides: OpenedSide, negSide: Side, posSide: Side, ks: set<RoomPart>, n: int, nd: int, pd: int)
    requires ks == {Wall, DoorFrame}
    ensures EdgeTally(sides, negSide, posSide, ks).Closed(n, nd, pd) == ClosedCells(sides, negSide, n) + ClosedCells(sides, posSide, n)
  {
    var c := (if HasFlag(sides, negSide) then 0 else 1) + (if HasFlag(sides, posSide) then 0 else 1);
    assert EdgeTally(sides, negSide, posSide, ks) == Tally(c, 0, 0, 0);
  }

  lemma DoorFrameEdge(sides: OpenedSide, negSide: Side, posSide: Side, ks: set<RoomPart>, n: int, nd: int, pd: int)
    requires ks == {DoorFrame}
    ensures EdgeTally(sides, negSide, posSide, ks).Closed(n, nd, pd)
         == (if HasFlag(sides, negSide) then 0 else nd) + (if HasFlag(sides, posSide) then 0 else pd)
  {
    var cn, cp := if HasFlag(sides, negSide) then 0 else 1, if HasFlag(sides, posSide) then 0 else 1;
    assert EdgeTally(sides, negSide, posSide, ks) == Tally(0, 0, cn, cp);
  }

  lemma RailingEdge(sides: OpenedSide, negSide: Side, posSide: Side, ks: set<RoomPart>, n: int, nd: int, pd: int)
    requires ks == {Railing}
    ensures EdgeTally(sides, negSide, posSide, ks).Closed(n, nd, pd)
         == if !HasFlag(sides, BottomSide) then 0
            else (if HasFlag(sides, negSide) then Span(n) - nd else 0) + (if HasFlag(sides, posSide) then Span(n) - nd else 0)
  {
    var t := EdgeTally(sides, negSide, posSide, ks);
    if !HasFlag(sides, BottomSide) {
      assert t == Tally(0, 0, 0, 0);
    } else if HasFlag(sides, negSide) && HasFlag(sides, posSide) {
      assert t == Tally(2, 0, -2, 0);
    } else if HasFlag(sides, negSide) || HasFlag(sides, posSide) {
      assert t == Tally(1, 0, -1, 0);
    } else {
      assert t == Tally(0, 0, 0, 0);
    }
  }

  lemma WallLowEdge(sides: OpenedSide, negSide: Side, posSide: Side, ks: set<RoomPart>, n: int, nd: int, pd: int)
    requires ks == {WallLow}
    ensures EdgeTally(sides, negSide, posSide, ks).Closed(n, nd, pd) == if HasFlag(sides, TopSide) then Span(n) + Span(n) else 0
  {
    var c := if HasFlag(sides, TopSide) then 2 else 0;
    assert EdgeTally(sides, negSide, posSide, ks) == Tally(c, 0, 0, 0);
  }

  lemma WallShortLowEdge(sides: OpenedSide, negSide: Side, posSide: Side, ks: set<RoomPart>, n: int, nd: int, pd: int)
    requires ks == {WallShortLow}
    ensures EdgeTally(sides, negSide, posSide, ks).Closed(n, nd, pd) == if HasFlag(sides, TopSide) then Seams(n) + Seams(n) else 0
  {
    var c := if HasFlag(sides, TopSide) then 2 else 0;
    assert EdgeTally(sides, negSide, posSide, ks) == Tally(0, c, 0, 0);
  }

  lemma ClosedEdge(sides: OpenedSide, negSide: Side, posSide: Side, ks: set<RoomPart>, n: int, nd: int, pd: int)
    requires sides == OpenedNone
    requires ks == {WallShort} || ks == {Railing, WallLow, WallShortLow, Stairs, NoPart} || ks == AllParts
    ensures ks == {WallShort} ==> EdgeTally(sides, negSide, posSide, ks).Closed(n, nd, pd) == Seams(n) + Seams(n)
    ensures ks == {Railing, WallLow, WallShortLow, Stairs, NoPart} ==> EdgeTally(sides, negSide, posSide, ks).Closed(n, nd, pd) == 0
    ensures ks == AllParts ==> EdgeTally(sides, negSide, posSide, ks).Closed(n, nd, pd) == Span(n) + Span(n) + Seams(n) + Seams(n)
  {
    if ks == {WallShort} {
      assert EdgeTally(sides, negSide, posSide, ks) == Tally(0, 2, 0, 0);
    } else if ks == AllParts {
      assert EdgeTally(sides, negSide, posSide, ks) == Tally(2, 2, 0, 0);
    } else {
      assert EdgeTally(sides, negSide, posSide, ks) == Tally(0, 0, 0, 0);
    }
  }

  /** One floor quad exactly when the bottom is closed, one ceiling quad
      exactly when the top is closed. */
  lemma FloorAndCeilingCounts(a: RoomArea)
    requires a.openedSides != OpenedAll
    ensures Count(RenderSpec(a).value, {Floor}) == if HasFlag(a.openedSides, BottomSide) then 0 else 1
    ensures Count(RenderSpec(a).value, {Ceiling}) == if HasFlag(a.openedSides, TopSide) then 0 else 1
  {
    var s, x, y := a.openedSides, a.fromTo.Size().x, a.fromTo.Size().y;
    RenderCount(a, {Floor});
    FloorOrCeilingEdge(s, BackSide, FrontSide, {Floor}, x, DoorCells(a.doors, Down, x), DoorCells(a.doors, Up, x));
    FloorOrCeilingEdge(s, LeftSide, RightSide, {Floor}, y, DoorCells(a.doors, Left, y), DoorCells(a.doors, Right, y));
    RenderCount(a, {Ceiling});
    FloorOrCeilingEdge(s, BackSide, FrontSide, {Ceiling}, x, DoorCells(a.doors, Down, x), DoorCells(a.doors, Up, x));
    FloorOrCeilingEdge(s, LeftSide, RightSide, {Ceiling}, y, DoorCells(a.doors, Left, y), DoorCells(a.doors, Right, y));
  }

  /** Walls and door frames come from closed sides only: each closed X edge
      contributes size.X of them and each closed Y edge size.Y. */
  lemma WallAndDoorFrameCount(a: RoomArea)
    requires a.openedSides != OpenedAll
    ensures Count(RenderSpec(a).value, {Wall, DoorFrame})
         == ClosedCells(a.openedSides, BackSide, a.fromTo.Size().x) + ClosedCells(a.openedSides, FrontSide, a.fromTo.Size().x)
            + ClosedCells(a.openedSides, LeftSide, a.fromTo.Size().y) + ClosedCells(a.openedSides, RightSide, a.fromTo.Size().y)
  {
    var s, x, y := a.openedSides, a.fromTo.Size().x, a.fromTo.Size().y;
    RenderCount(a, {Wall, DoorFrame});
    WallOrDoorFrameEdge(s, BackSide, FrontSide, {Wall, DoorFrame}, x, DoorCells(a.doors, Down, x), DoorCells(a.doors, Up, x));
    WallOrDoorFrameEdge(s, LeftSide, RightSide, {Wall, DoorFrame}, y, DoorCells(a.doors, Left, y), DoorCells(a.doors, Right, y));
  }

  /** A door frame replaces the wall of every closed-edge cell that has a door
      on that face (Down for the back, Up for the front, Left and Right). */
  lemma DoorFrameCount(a: RoomArea)
    requires a.openedSides != OpenedAll
    ensures Count(RenderSpec(a).value, {DoorFrame})
         == ClosedDoorCells(a.openedSides, BackSide, a.doors, Down, a.fromTo.Size().x)
            + ClosedDoorCells(a.openedSides, FrontSide, a.doors, Up, a.fromTo.Size().x)
            + ClosedDoorCells(a.openedSides, LeftSide, a.doors, Left, a.fromTo.Size().y)
            + ClosedDoorCells(a.openedSides, RightSide, a.doors, Right, a.fromTo.Size().y)
  {
    var s, x, y := a.openedSides, a.fromTo.Size().x, a.fromTo.Size().y;
    RenderCount(a, {DoorFrame});
    DoorFrameEdge(s, BackSide, FrontSide, {DoorFrame}, x, DoorCells(a.doors, Down, x), DoorCells(a.doors, Up, x));
    DoorFrameEdge(s, LeftSide, RightSide, {DoorFrame}, y, DoorCells(a.doors, Left, y), DoorCells(a.doors, Right, y));
  }

  /** Railings: only when the bottom is open, one per cell of every open side
      except the cells with a door on the negative face of that axis (Down
      for both X edges, Left for both Y edges). */
  lemma RailingCount(a: RoomArea)
    requires a.openedSides != OpenedAll
    ensures var s, x, y := a.openedSides, a.fromTo.Size().x, a.fromTo.Size().y;
            var xr, yr := Span(x) - DoorCells(a.doors, Down, x), Span(y) - DoorCells(a.doors, Left, y);
            Count(RenderSpec(a).value, {Railing})
            == if !HasFlag(s, BottomSide) then 0
               else (if HasFlag(s, BackSide) then xr else 0) + (if HasFlag(s, FrontSide) then xr else 0)
                    + (if HasFlag(s, LeftSide) then yr else 0) + (if HasFlag(s, RightSide) then yr else 0)
  {
    var s, x, y := a.openedSides, a.fromTo.Size().x, a.fromTo.Size().y;
    RenderCount(a, {Railing});
    RailingEdge(s, BackSide, FrontSide, {Railing}, x, DoorCells(a.doors, Down, x), DoorCells(a.doors, Up, x));
    RailingEdge(s, LeftSide, RightSide, {Railing}, y, DoorCells(a.doors, Left, y), DoorCells(a.doors, Right, y));
  }

  /** So a railing is listed only when the bottom and at least one side are open. */
  lemma RailingNeedsOpenSides(a: RoomArea)
    requires a.openedSides != OpenedAll
    requires Count(RenderSpec(a).value, {Railing}) > 0
    ensures HasFlag(a.openedSides, BottomSide)
    ensures HasFlag(a.openedSides, BackSide) || HasFlag(a.openedSides, FrontSide)
         || HasFlag(a.openedSides, LeftSide) || HasFlag(a.openedSides, RightSide)
  {
    RailingCount(a);
  }

  /** Knee walls only with an open top: two low walls per cell and two low
      connectors per cell after the first, on each axis. */
  lemma LowWallCounts(a: RoomArea)
    requires a.openedSides != OpenedAll
    ensures var x, y := a.fromTo.Size().x, a.fromTo.Size().y;
            Count(RenderSpec(a).value, {WallLow}) == if HasFlag(a.openedSides, TopSide) then 2 * (Span(x) + Span(y)) else 0
    ensures var x, y := a.fromTo.Size().x, a.fromTo.Size().y;
            Count(RenderSpec(a).value, {WallShortLow}) == if HasFlag(a.openedSides, TopSide) then 2 * (Seams(x) + Seams(y)) else 0
  {
    var s, x, y := a.openedSides, a.fromTo.Size().x, a.fromTo.Size().y;
    RenderCount(a, {WallLow});
    WallLowEdge(s, BackSide, FrontSide, {WallLow}, x, DoorCells(a.doors, Down, x), DoorCells(a.doors, Up, x));
    WallLowEdge(s, LeftSide, RightSide, {WallLow}, y, DoorCells(a.doors, Left, y), DoorCells(a.doors, Right, y));
    RenderCount(a, {WallShortLow});
    WallShortLowEdge(s, BackSide, FrontSide, {WallShortLow}, x, DoorCells(a.doors, Down, x), DoorCells(a.doors, Up, x));
    WallShortLowEdge(s, LeftSide, RightSide, {WallShortLow}, y, DoorCells(a.doors, Left, y), DoorCells(a.doors, Right, y));
  }

  /** A fully closed area: one floor, one ceiling, a wall or door frame on
      every perimeter cell, a connector between neighbouring cells, and
      nothing else. For a normalized rectangle the list then has exactly
      4 (size.X + size.Y) - 2 entries, within the capacity Render reserves. */
  lemma ClosedAreaCounts(a: RoomArea)
    requires a.openedSides == OpenedNone
    ensures var x, y := a.fromTo.Size().x, a.fromTo.Size().y;
            && Count(RenderSpec(a).value, {Wall, DoorFrame}) == 2 * (Span(x) + Span(y))
            && Count(RenderSpec(a).value, {WallShort}) == 2 * (Seams(x) + Seams(y))
            && Count(RenderSpec(a).value, {Railing, WallLow, WallShortLow, Stairs, NoPart}) == 0
            && |RenderSpec(a).value| == 2 + 2 * (Span(x) + Span(y)) + 2 * (Seams(x) + Seams(y))
    ensures a.fromTo.Normalized() ==>
              && |RenderSpec(a).value| == 4 * (a.fromTo.Size().x + a.fromTo.Size().y) - 2
              && |RenderSpec(a).value| <= 4 * (a.fromTo.Size().x + a.fromTo.Size().y)
  {
    ClosedWallCounts(a);
    ClosedOtherCounts(a);
  }

  /** The walls, door frames and short connectors of a closed area. */
  lemma ClosedWallCounts(a: RoomArea)
    requires a.openedSides == OpenedNone
    ensures var x, y := a.fromTo.Size().x, a.fromTo.Size().y;
            && Count(RenderSpec(a).value, {Wall, DoorFrame}) == 2 * (Span(x) + Span(y))
            && Count(RenderSpec(a).value, {WallShort}) == 2 * (Seams(x) + Seams(y))
  {
    var s, x, y := a.openedSides, a.fromTo.Size().x, a.fromTo.Size().y;
    var dx, ux, ly, ry := DoorCells(a.doors, Down, x), DoorCells(a.doors, Up, x), DoorCells(a.doors, Left, y), DoorCells(a.doors, Right, y);
    RenderCount(a, {Wall, DoorFrame});
    WallOrDoorFrameEdge(s, BackSide, FrontSide, {Wall, DoorFrame}, x, dx, ux);
    WallOrDoorFrameEdge(s, LeftSide, RightSide, {Wall, DoorFrame}, y, ly, ry);
    RenderCount(a, {WallShort});
    ClosedEdge(s, BackSide, FrontSide, {WallShort}, x, dx, ux);
    ClosedEdge(s, LeftSide, RightSide, {WallShort}, y, ly, ry);
  }

  /** No other parts in a closed area, and its total length. */
  lemma ClosedOtherCounts(a: RoomArea)
    requires a.openedSides == OpenedNone
    ensures var x, y := a.fromTo.Size().x, a.fromTo.Size().y;
            && Count(RenderSpec(a).value, {Railing, WallLow, WallShortLow, Stairs, NoPart}) == 0
            && |RenderSpec(a).value| == 2 + 2 * (Span(x) + Span(y)) + 2 * (Seams(x) + Seams(y))
  {
    var s, x, y := a.openedSides, a.fromTo.Size().x, a.fromTo.Size().y;
    var dx, ux, ly, ry := DoorCells(a.doors, Down, x), DoorCells(a.doors, Up, x), DoorCells(a.doors, Left, y), DoorCells(a.doors, Right, y);
    RenderCount(a, {Railing, WallLow, WallShortLow, Stairs, NoPart});
    ClosedEdge(s, BackSide, FrontSide, {Railing, WallLow, WallShortLow, Stairs, NoPart}, x, dx, ux);
    ClosedEdge(s, LeftSide, RightSide, {Railing, WallLow, WallShortLow, Stairs, NoPart}, y, ly, ry);
    RenderCount(a, AllParts);
    ClosedEdge(s, BackSide, FrontSide, AllParts, x, dx, ux);
    ClosedEdge(s, LeftSide, RightSide, AllParts, y, ly, ry);
    CountAllParts(RenderSpec(a).value);
  }
}
