/** Orientation and the two rotation helpers of Utils (logics/utilities/Utilities.cs). */
module Utilities {
  import opened Results

  /** An unsigned byte, the storage type of the source's byte enums. */
  type Byte = b: int | 0 <= b < 256

  /** Orientation is a byte enum: Up = 0, Right = 1, Down = 2, Left = 3.
      A byte outside 0..3 can still be stored in it. */
  type Orientation = Byte

  const Up: Orientation := 0
  const Right: Orientation := 1
  const Down: Orientation := 2
  const Left: Orientation := 3

  predicate IsDeclared(o: Orientation) { o <= 3 }

  /** Godot's Vector2I. */
  datatype Vec2 = Vec2(x: int, y: int)

  /** The exception thrown for an orientation byte outside the declared members. */
  datatype IllegalOrientation = IllegalOrientation(orientation: Orientation)

  /** Size of an object once rotated: Up and Down swap the axes, Right and Left keep them. */
  function RotateToSize(v: Vec2, o: Orientation): (r: Result<Vec2, IllegalOrientation>)
    ensures r.Success? <==> IsDeclared(o)
    ensures (o == Up || o == Down) ==> r == Success(Vec2(v.y, v.x))
    ensures (o == Right || o == Left) ==> r == Success(v)
    ensures r.Success? ==> r.value.x * r.value.y == v.x * v.y
  {
    if o == Up then Success(Vec2(v.y, v.x))
    else if o == Right then Success(Vec2(v.x, v.y))
    else if o == Down then Success(Vec2(v.y, v.x))
    else if o == Left then Success(Vec2(v.x, v.y))
    else Failure(IllegalOrientation(o))
  }

  /** Rotating twice with the same orientation gives back the original vector. */
  lemma RotateToSizeInvolution(v: Vec2, o: Orientation)
    requires IsDeclared(o)
    ensures RotateToSize(RotateToSize(v, o).value, o) == Success(v)
  {
  }

  /** Offset to apply to the anchor of a rotated object. */
  function RotateToOffset(v: Vec2, o: Orientation): (r: Result<Vec2, IllegalOrientation>)
    ensures r.Success? <==> IsDeclared(o)
    ensures (o == Up || o == Right) ==> r == Success(Vec2(0, 0))
    ensures o == Down ==> r == Success(Vec2(-v.y, -v.x))
    ensures o == Left ==> r == Success(Vec2(-v.x, -v.y))
  {
    match o
    case 0 => Success(Vec2(0, 0))
    case 1 => Success(Vec2(0, 0))
    case 2 => Success(Vec2(-v.y, -v.x))
    case 3 => Success(Vec2(-v.x, -v.y))
    case _ => Failure(IllegalOrientation(o))
  }

  /** The offset of a rotated object is minus its rotated size for Down and Left. */
  lemma RotateToOffsetIsNegatedSize(v: Vec2, o: Orientation)
    requires o == Down || o == Left
    ensures RotateToOffset(v, o).value == Vec2(-RotateToSize(v, o).value.x, -RotateToSize(v, o).value.y)
  {
  }
}
