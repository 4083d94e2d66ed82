/** Where the wall of a closed edge cell sits in the list RoomArea.Render
    returns, and which part it is: a door frame exactly when a door of that
    face stands on the cell. */
module RenderDoors {
  import opened Results
  import opened Utilities
  import opened Structures
  import opened RenderCounts

  lemma {:induction false} XEdgesPrefix(a: RoomArea, i: int, n: int)
    requires i <= n
    ensures XEdges(a, i) <= XEdges(a, n)
    decreases n - i
  {
    if i < n {
      XEdgesPrefix(a, i, n - 1);
      if n > 0 {
        assert XEdges(a, n) == XEdges(a, n - 1) + XCell(a, n - 1);
      }
    }
  }

  lemma {:induction false} YEdgesPrefix(a: RoomArea, j: int, n: int)
    requires j <= n
    ensures YEdges(a, j) <= YEdges(a, n)
    decreases n - j
  {
    if j < n {
      YEdgesPrefix(a, j, n - 1);
      if n > 0 {
        assert YEdges(a, n) == YEdges(a, n - 1) + YCell(a, n - 1);
      }
    }
  }

  /** Iteration i of the X-axis loop appends XCell(a, i) right after the
      records of the earlier iterations. */
  lemma XCellAt(a: RoomArea, i: nat, m: nat)
    requires i < a.fromTo.Size().x && m < |XCell(a, i)|
    ensures |XEdges(a, i)| + m < |XEdges(a, a.fromTo.Size().x)|
    ensures XEdges(a, a.fromTo.Size().x)[|XEdges(a, i)| + m] == XCell(a, i)[m]
  {
    XEdgesPrefix(a, i + 1, a.fromTo.Size().x);
    XEdgesStep(a, i);
  }

  lemma YCellAt(a: RoomArea, j: nat, m: nat)
    requires j < a.fromTo.Size().y && m < |YCell(a, j)|
    ensures |YEdges(a, j)| + m < |YEdges(a, a.fromTo.Size().y)|
    ensures YEdges(a, a.fromTo.Size().y)[|YEdges(a, j)| + m] == YCell(a, j)[m]
  {
    YEdgesPrefix(a, j + 1, a.fromTo.Size().y);
    YEdgesStep(a, j);
  }

  /** Every record iteration i of the X-axis loop appends is in the
      rendered list. */
  lemma XCellListed(a: RoomArea, i: nat, m: nat)
    requires a.openedSides != OpenedAll
    requires i < a.fromTo.Size().x && m < |XCell(a, i)|
    ensures XCell(a, i)[m] in RenderSpec(a).value
  {
    XCellAt(a, i, m);
    var fc, xs, ys := FloorAndCeiling(a), XEdges(a, a.fromTo.Size().x), YEdges(a, a.fromTo.Size().y);
    assert xs[|XEdges(a, i)| + m] in xs;
    assert RenderSpec(a).value == fc + xs + ys;
  }

  /** Every record iteration j of the Y-axis loop appends is in the
      rendered list. */
  lemma YCellListed(a: RoomArea, j: nat, m: nat)
    requires a.openedSides != OpenedAll
    requires j < a.fromTo.Size().y && m < |YCell(a, j)|
    ensures YCell(a, j)[m] in RenderSpec(a).value
  {
    YCellAt(a, j, m);
    var fc, xs, ys := FloorAndCeiling(a), XEdges(a, a.fromTo.Size().x), YEdges(a, a.fromTo.Size().y);
    assert ys[|YEdges(a, j)| + m] in ys;
    assert RenderSpec(a).value == fc + xs + ys;
  }

  /** The part a closed edge cell gets: a door frame where a door of the
      face's orientation stands at that offset, a wall otherwise. */
  function EdgePart(doors: seq<Door>, o: Orientation, shift: int): (p: RoomPart)
    ensures p == DoorFrame <==> DoorAt(doors, o, shift)
    ensures p == Wall <==> !DoorAt(doors, o, shift)
  {
    if DoorAt(doors, o, shift) then DoorFrame else Wall
  }

  lemma BackWallInCell(a: RoomArea, i: nat)
    requires !HasFlag(a.openedSides, BackSide)
    ensures var p := a.fromTo.Position();
            0 < |XCell(a, i)|
            && XCell(a, i)[0] == RenderInfo(BackwardBasis, Cell(p.x + i, p.y, a.level, Flush), EdgePart(a.doors, Down, i))
  {
    var xb := XBack(a, i);
    assert XCell(a, i) == xb + (XFront(a, i) + XTop(a, i));
  }

  /** Cell i of a closed back edge: a backward wall on row position.y, a
      door frame iff a Down door is at offset i. */
  lemma BackEdgeCell(a: RoomArea, i: nat)
    requires a.openedSides != OpenedAll && !HasFlag(a.openedSides, BackSide)
    requires i < a.fromTo.Size().x
    ensures var p := a.fromTo.Position();
            RenderInfo(BackwardBasis, Cell(p.x + i, p.y, a.level, Flush), EdgePart(a.doors, Down, i)) in RenderSpec(a).value
  {
    BackWallInCell(a, i);
    XCellListed(a, i, 0);
  }

  lemma FrontWallInCell(a: RoomArea, i: nat)
    requires !HasFlag(a.openedSides, FrontSide)
    ensures var p, s := a.fromTo.Position(), a.fromTo.Size();
            |XBack(a, i)| < |XCell(a, i)|
            && XCell(a, i)[|XBack(a, i)|] == RenderInfo(ForwardBasis, Cell(p.x + i, p.y + s.y - 1, a.level, Flush), EdgePart(a.doors, Up, i))
  {
    var xb, xf := XBack(a, i), XFront(a, i);
    assert XCell(a, i) == xb + (xf + XTop(a, i));
  }

  /** Cell i of a closed front edge: a forward wall on the last row, a door
      frame iff an Up door is at offset i. */
  lemma FrontEdgeCell(a: RoomArea, i: nat)
    requires a.openedSides != OpenedAll && !HasFlag(a.openedSides, FrontSide)
    requires i < a.fromTo.Size().x
    ensures var p, s := a.fromTo.Position(), a.fromTo.Size();
            RenderInfo(ForwardBasis, Cell(p.x + i, p.y + s.y - 1, a.level, Flush), EdgePart(a.doors, Up, i)) in RenderSpec(a).value
  {
    FrontWallInCell(a, i);
    XCellListed(a, i, |XBack(a, i)|);
  }

  lemma LeftWallInCell(a: RoomArea, j: nat)
    requires !HasFlag(a.openedSides, LeftSide)
    ensures var p := a.fromTo.Position();
            0 < |YCell(a, j)|
            && YCell(a, j)[0] == RenderInfo(LeftBasis, Cell(p.x, p.y + j, a.level, Flush), EdgePart(a.doors, Left, j))
  {
    var yl := YLeft(a, j);
    assert YCell(a, j) == yl + (YRight(a, j) + YTop(a, j));
  }

  /** Cell j of a closed left edge: a left wall on column position.x, a door
      frame iff a Left door is at offset j. */
  lemma LeftEdgeCell(a: RoomArea, j: nat)
    requires a.openedSides != OpenedAll && !HasFlag(a.openedSides, LeftSide)
    requires j < a.fromTo.Size().y
    ensures var p := a.fromTo.Position();
            RenderInfo(LeftBasis, Cell(p.x, p.y + j, a.level, Flush), EdgePart(a.doors, Left, j)) in RenderSpec(a).value
  {
    LeftWallInCell(a, j);
    YCellListed(a, j, 0);
  }

  lemma RightWallInCell(a: RoomArea, j: nat)
    requires !HasFlag(a.openedSides, RightSide)
    ensures var p, s := a.fromTo.Position(), a.fromTo.Size();
            |YLeft(a, j)| < |YCell(a, j)|
            && YCell(a, j)[|YLeft(a, j)|] == RenderInfo(RightBasis, Cell(p.x + s.x - 1, p.y + j, a.level, Flush), EdgePart(a.doors, Right, j))
  {
    var yl, yr := YLeft(a, j), YRight(a, j);
    assert YCell(a, j) == yl + (yr + YTop(a, j));
  }

  /** Cell j of a closed right edge: a right wall on the last column, a door
      frame iff a Right door is at offset j. */
  lemma RightEdgeCell(a: RoomArea, j: nat)
    requires a.openedSides != OpenedAll && !HasFlag(a.openedSides, RightSide)
    requires j < a.fromTo.Size().y
    ensures var p, s := a.fromTo.Position(), a.fromTo.Size();
            RenderInfo(RightBasis, Cell(p.x + s.x - 1, p.y + j, a.level, Flush), EdgePart(a.doors, Right, j)) in RenderSpec(a).value
  {
    RightWallInCell(a, j);
    YCellListed(a, j, |YLeft(a, j)|);
  }
}
