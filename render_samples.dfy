/** Room areas of the sample structure that StructureRenderer builds
    (logics/structures/StructureRenderer.cs), evaluated through the count
    lemmas. */
module RenderSamples {
  import opened Results
  import opened Utilities
  import opened Structures
  import opened RenderCounts

  /** Counting a further kind adds its records. */
  lemma {:induction false} CountSplit(s: seq<RenderInfo>, ks: set<RoomPart>, q: RoomPart)
    requires q !in ks
    ensures Count(s, ks + {q}) == Count(s, ks) + Count(s, {q})
    decreases |s|
  {
    if |s| > 0 {
      CountSplit(s[1..], ks, q);
    }
  }

  lemma {:induction false} NoDoorCells(o: Orientation, n: int)
    ensures DoorCells([], o, n) == 0
    decreases n
  {
    if n > 0 {
      NoDoorCells(o, n - 1);
    }
  }

  /** The corner constructor orders the sample corners into the rectangles
      the lemmas below start from. */
  lemma SampleCorners()
    ensures NewFromTo(Vec2(3, -5), Vec2(7, -7)) == FromTo(3, -7, 7, -5)
    ensures NewFromTo(Vec2(3, -5), Vec2(7, -7)).Size() == Vec2(5, 3)
    ensures NewFromTo(Vec2(0, 0), Vec2(9, -4)) == FromTo(0, -4, 9, 0)
    ensures NewFromTo(Vec2(0, 0), Vec2(9, -4)).Size() == Vec2(10, 5)
  {
  }

  /** The closed room of the second sample room: corners (3, -5) and
      (7, -7), one door on the front face at offset 2. It lists one door
      frame, 15 walls and 30 parts in all. */
  lemma ClosedRoomSample(a: RoomArea)
    requires a.fromTo == FromTo(3, -7, 7, -5) && a.doors == [Door(0, Up, 2)] && a.openedSides == OpenedNone
    ensures Count(RenderSpec(a).value, {DoorFrame}) == 1
            && Count(RenderSpec(a).value, {Wall}) == 15
            && |RenderSpec(a).value| == 30
  {
    var d := Door(0, Up, 2);
    SingleDoorCells(d, Down, 5);
    SingleDoorCells(d, Up, 5);
    SingleDoorCells(d, Left, 3);
    SingleDoorCells(d, Right, 3);
    var r := RenderSpec(a).value;
    DoorFrameCount(a);
    assert Count(r, {DoorFrame}) == 1;
    ClosedAreaCounts(a);
    assert Count(r, {Wall, DoorFrame}) == 16;
    CountSplit(r, {Wall}, DoorFrame);
    assert {Wall} + {DoorFrame} == {Wall, DoorFrame};
  }

  /** A door-less area open at the top, the bottom and the back: a railing
      on every back cell, no floor or ceiling, and the knee walls. */
  lemma OpenGallery(a: RoomArea)
    requires a.doors == [] && a.openedSides == {TopSide, BottomSide, BackSide}
    ensures Count(RenderSpec(a).value, {Railing}) == Span(a.fromTo.Size().x)
    ensures Count(RenderSpec(a).value, {Floor}) == 0
    ensures Count(RenderSpec(a).value, {Ceiling}) == 0
    ensures Count(RenderSpec(a).value, {WallLow}) == 2 * (Span(a.fromTo.Size().x) + Span(a.fromTo.Size().y))
  {
    var s, x, y := a.openedSides, a.fromTo.Size().x, a.fromTo.Size().y;
    assert HasFlag(s, BottomSide) && HasFlag(s, BackSide) && HasFlag(s, TopSide);
    assert !HasFlag(s, FrontSide) && !HasFlag(s, LeftSide) && !HasFlag(s, RightSide);
    NoDoorCells(Down, x);
    RailingCount(a);
    FloorAndCeilingCounts(a);
    LowWallCounts(a);
  }

  /** The upper gallery of the first sample room: corners (0, 0) and (9, -4)
      at level 1, open at the top, the bottom and the back. It lists ten
      railings along the back, no floor, no ceiling and 30 low walls. */
  lemma GallerySample(a: RoomArea)
    requires a.fromTo == FromTo(0, -4, 9, 0) && a.doors == [] && a.openedSides == {TopSide, BottomSide, BackSide}
    ensures Count(RenderSpec(a).value, {Railing}) == 10
    ensures Count(RenderSpec(a).value, {Floor}) == 0
    ensures Count(RenderSpec(a).value, {Ceiling}) == 0
    ensures Count(RenderSpec(a).value, {WallLow}) == 30
  {
    OpenGallery(a);
  }

  /** With two doors on different faces, each face counts only its own
      door. */
  lemma {:induction false} TwoDoorCells(d1: Door, d2: Door, o: Orientation, n: int)
    requires d1.orientation != d2.orientation
    ensures DoorCells([d1, d2], o, n)
         == (if d1.orientation == o && 0 <= d1.position < n then 1 else 0)
            + (if d2.orientation == o && 0 <= d2.position < n then 1 else 0)
    decreases n
  {
    if n > 0 {
      TwoDoorCells(d1, d2, o, n - 1);
      var doors := [d1, d2];
      assert DoorAt(doors, o, n - 1) <==>
               (d1.orientation == o && d1.position == n - 1) || (d2.orientation == o && d2.position == n - 1) by {
        if d1.orientation == o && d1.position == n - 1 {
          assert doors[0] == d1;
        }
        if d2.orientation == o && d2.position == n - 1 {
          assert doors[1] == d2;
        }
      }
    }
  }

  /** An area shaped like the lower hall of the first sample room: open at
      the front, the right and the top, with one door on the left face and
      one on the down face, both on the area's edges. */
  predicate HallShape(a: RoomArea) {
    && a.openedSides == {FrontSide, RightSide, TopSide}
    && |a.doors| == 2 && a.doors[0].orientation == Left && a.doors[1].orientation == Down
    && 0 <= a.doors[0].position < a.fromTo.Size().y
    && 0 <= a.doors[1].position < a.fromTo.Size().x
  }

  /** The closed back and left edges of such an area: both doors become
      frames, every other cell of those edges a wall. */
  lemma HallWalls(a: RoomArea)
    requires HallShape(a)
    ensures Count(RenderSpec(a).value, {DoorFrame}) == 2
    ensures Count(RenderSpec(a).value, {Wall}) == Span(a.fromTo.Size().x) + Span(a.fromTo.Size().y) - 2
  {
    var s, x, y := a.openedSides, a.fromTo.Size().x, a.fromTo.Size().y;
    assert !HasFlag(s, BackSide) && !HasFlag(s, LeftSide) && HasFlag(s, FrontSide) && HasFlag(s, RightSide);
    assert a.doors == [a.doors[0], a.doors[1]];
    TwoDoorCells(a.doors[0], a.doors[1], Down, x);
    TwoDoorCells(a.doors[0], a.doors[1], Left, y);
    var r := RenderSpec(a).value;
    DoorFrameCount(a);
    WallAndDoorFrameCount(a);
    CountSplit(r, {Wall}, DoorFrame);
    assert {Wall} + {DoorFrame} == {Wall, DoorFrame};
  }

  /** The closed bottom and open top of such an area: a floor, no ceiling,
      no railing, and the knee walls. */
  lemma HallFloorAndTop(a: RoomArea)
    requires HallShape(a)
    ensures Count(RenderSpec(a).value, {Floor}) == 1
    ensures Count(RenderSpec(a).value, {Ceiling}) == 0
    ensures Count(RenderSpec(a).value, {Railing}) == 0
    ensures Count(RenderSpec(a).value, {WallLow}) == 2 * (Span(a.fromTo.Size().x) + Span(a.fromTo.Size().y))
    ensures Count(RenderSpec(a).value, {WallShortLow}) == 2 * (Seams(a.fromTo.Size().x) + Seams(a.fromTo.Size().y))
  {
    var s := a.openedSides;
    assert !HasFlag(s, BottomSide) && HasFlag(s, TopSide);
    FloorAndCeilingCounts(a);
    RailingCount(a);
    LowWallCounts(a);
  }

  /** The lower hall of the first sample room: corners (0, 0) and (9, -4)
      at level 0, a door on the left face at 2 and one on the down face at
      5, open at the front, the right and the top. It lists a floor, no
      ceiling, two door frames, 13 walls, no railing, 30 low walls and 26
      low connectors. */
  lemma LowerHallSample(a: RoomArea)
    requires a.fromTo == FromTo(0, -4, 9, 0) && a.doors == [Door(0, Left, 2), Door(0, Down, 5)]
    requires a.openedSides == {FrontSide, RightSide, TopSide}
    ensures Count(RenderSpec(a).value, {Floor}) == 1
    ensures Count(RenderSpec(a).value, {Ceiling}) == 0
    ensures Count(RenderSpec(a).value, {DoorFrame}) == 2
    ensures Count(RenderSpec(a).value, {Wall}) == 13
    ensures Count(RenderSpec(a).value, {Railing}) == 0
    ensures Count(RenderSpec(a).value, {WallLow}) == 30
    ensures Count(RenderSpec(a).value, {WallShortLow}) == 26
  {
    assert a.fromTo.Size() == Vec2(10, 5);
    assert HallShape(a);
    HallWalls(a);
    HallFloorAndTop(a);
  }
}
