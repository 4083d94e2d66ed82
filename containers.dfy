/** SlotGroup (logics/items/Container.cs): a rectangle of inventory slots
    with a property byte and the items placed in it. The property byte packs
    two flags, QuickAccess in its low nibble and Hidden in its high one.

    The item overloads fetch each item's asset from the ObjectManager; here
    the asset lookup is the parameter `assetOf`. */
module Containers {
  import opened Results
  import opened Utilities
  import opened Items

  const LowNibble: bv8 := 0x0F
  const HighNibble: bv8 := 0xF0

  /** `p` lies in the half-open rectangle of the given origin and size. */
  predicate InRect(px: int, py: int, ox: int, oy: int, size: Vec2) {
    ox <= px < ox + size.x && oy <= py < oy + size.y
  }

  /** The coordinate IsInItem: both the point (x, y) and the point
      (x + currSize.x, y + currSize.y) lie in the item's half-open
      rectangle. */
  function IsInItemAt(itemX: int, itemY: int, itemSize: Vec2, currSize: Vec2, x: int, y: int): (r: bool)
    ensures r <==> InRect(x, y, itemX, itemY, itemSize) && InRect(x + currSize.x, y + currSize.y, itemX, itemY, itemSize)
  {
    x >= itemX && x < itemX + itemSize.x && y >= itemY && y < itemY + itemSize.y &&
    x + currSize.x >= itemX && x + currSize.x < itemX + itemSize.x &&
    y + currSize.y >= itemY && y + currSize.y < itemY + itemSize.y
  }

  /** For a size with no negative component, IsInItem holds exactly when the
      whole closed rectangle from (x, y) to (x + currSize.x, y + currSize.y)
      lies inside the item. */
  lemma IsInItemCoversRectangle(itemX: int, itemY: int, itemSize: Vec2, currSize: Vec2, x: int, y: int)
    requires currSize.x >= 0 && currSize.y >= 0
    ensures IsInItemAt(itemX, itemY, itemSize, currSize, x, y) <==>
              forall px, py :: x <= px <= x + currSize.x && y <= py <= y + currSize.y ==>
                InRect(px, py, itemX, itemY, itemSize)
  {
    if !IsInItemAt(itemX, itemY, itemSize, currSize, x, y) {
      if !InRect(x, y, itemX, itemY, itemSize) {
        assert !(x <= x <= x + currSize.x && y <= y <= y + currSize.y ==> InRect(x, y, itemX, itemY, itemSize));
      } else {
        var px, py := x + currSize.x, y + currSize.y;
        assert !(x <= px <= x + currSize.x && y <= py <= y + currSize.y ==> InRect(px, py, itemX, itemY, itemSize));
      }
    }
  }

  /** IsInItem(Item, ...) as written: the size it tests against is
      RotateToSize(item.CurrentSize, item.Orientation), and CurrentSize is
      already the rotated asset size, so the rotation is applied twice. */
  function IsInItemAsWritten(item: Item, asset: ItemAsset, currSize: Vec2, x: int, y: int): (r: Result<bool, IllegalOrientation>)
    ensures r.Success? <==> IsDeclared(item.orientation)
  {
    var current := CurrentSize(item, asset);
    if current.Failure? then Failure(current.error)
    else
      var size := RotateToSize(current.value, item.orientation);
      Success(IsInItemAt(item.x, item.y, size.value, currSize, x, y))
  }

  /** The double rotation cancels out: as written, the item's unrotated
      asset size is tested. */
  lemma AsWrittenTestsUnrotatedSize(item: Item, asset: ItemAsset, currSize: Vec2, x: int, y: int)
    requires IsDeclared(item.orientation)
    ensures IsInItemAsWritten(item, asset, currSize, x, y) == Success(IsInItemAt(item.x, item.y, asset.size, currSize, x, y))
  {
    RotateToSizeInvolution(asset.size, item.orientation);
  }

  /** An Up-oriented 1x2 asset at (0, 0) covers the cells (0, 0) and (1, 0)
      once rotated; the as-written test still reports the cell (0, 1) as
      inside it and the cell (1, 0) as outside. */
  lemma AsWrittenMissesRotation()
    ensures var item, asset := Item(0, Up, 0, 0), ItemAsset("", Vec2(1, 2));
            && IsInItemAsWritten(item, asset, Vec2(0, 0), 0, 1) == Success(true)
            && IsInItem(item, asset, Vec2(0, 0), 0, 1) == Success(false)
            && IsInItemAsWritten(item, asset, Vec2(0, 0), 1, 0) == Success(false)
            && IsInItem(item, asset, Vec2(0, 0), 1, 0) == Success(true)
  {
    var item, asset := Item(0, Up, 0, 0), ItemAsset("", Vec2(1, 2));
    AsWrittenTestsUnrotatedSize(item, asset, Vec2(0, 0), 0, 1);
    AsWrittenTestsUnrotatedSize(item, asset, Vec2(0, 0), 1, 0);
  }

  /** IsInItem(Item, ...) as intended: the item's current (rotated) size, as
      the pair overload uses. */
  function IsInItem(item: Item, asset: ItemAsset, currSize: Vec2, x: int, y: int): (r: Result<bool, IllegalOrientation>)
    ensures r.Success? <==> IsDeclared(item.orientation)
    ensures r.Success? ==> r.value == IsInItemAt(item.x, item.y, RotateToSize(asset.size, item.orientation).value, currSize, x, y)
  {
    var current := CurrentSize(item, asset);
    if current.Failure? then Failure(current.error)
    else Success(IsInItemAt(item.x, item.y, current.value, currSize, x, y))
  }

  /** The foreach of both ItemInSlot overloads: the first item, in order,
      that holds (x, y) answers true; an item with an undeclared orientation
      met before that throws; none answers false. */
  function FirstInItem(pairs: seq<(Item, ItemAsset)>, currSize: Vec2, x: int, y: int): (r: Result<bool, IllegalOrientation>)
    ensures (forall i :: 0 <= i < |pairs| ==> IsDeclared(pairs[i].0.orientation)) ==>
              r == Success(exists i :: 0 <= i < |pairs| && IsInItem(pairs[i].0, pairs[i].1, currSize, x, y).value)
    ensures r.Failure? ==> exists i :: 0 <= i < |pairs| && !IsDeclared(pairs[i].0.orientation)
  {
    if pairs == [] then Success(false)
    else
      var hit := IsInItem(pairs[0].0, pairs[0].1, currSize, x, y);
      if hit.Failure? then Failure(hit.error)
      else if hit.value then
        assert IsInItem(pairs[0].0, pairs[0].1, currSize, x, y).value;
        Success(true)
      else
        var rest := FirstInItem(pairs[1..], currSize, x, y);
        assert forall i :: 1 <= i < |pairs| ==> pairs[i] == pairs[1..][i - 1];
        rest
  }

  class SlotGroup {
    var properties: bv8
    const width: Byte
    const height: Byte
    var items: seq<Item>

    constructor (properties: bv8, width: Byte, height: Byte, items: seq<Item>)
      ensures this.properties == properties && this.width == width && this.height == height && this.items == items
    {
      this.properties := properties;
      this.width := width;
      this.height := height;
      this.items := items;
    }

    /** QuickAccess reads true when any bit of the low nibble is set. */
    function QuickAccess(): bool
      reads this
    {
      properties & LowNibble != 0
    }

    /** Hidden reads true when any bit of the high nibble is set. */
    function Hidden(): bool
      reads this
    {
      properties & HighNibble != 0
    }

    /** Sets or clears the whole low nibble; the high nibble is kept. */
    method SetQuickAccess(value: bool)
      modifies this`properties
      ensures QuickAccess() == value && Hidden() == old(Hidden())
      ensures properties & HighNibble == old(properties) & HighNibble
      ensures properties & LowNibble == if value then LowNibble else 0
    {
      if value {
        properties := properties | LowNibble;
      } else {
        properties := properties & HighNibble;
      }
    }

    /** Sets or clears the whole high nibble; the low nibble is kept. */
    method SetHidden(value: bool)
      modifies this`properties
      ensures Hidden() == value && QuickAccess() == old(QuickAccess())
      ensures properties & LowNibble == old(properties) & LowNibble
      ensures properties & HighNibble == if value then HighNibble else 0
    {
      if value {
        properties := properties | HighNibble;
      } else {
        properties := properties & LowNibble;
      }
    }

    /** IsItemOut(size, x, y): the position or the far corner passes the
        group's width or height. */
    function IsItemOutAt(size: Vec2, x: int, y: int): (r: bool)
      ensures !r <==> x <= width && y <= height && x + size.x <= width && y + size.y <= height
    {
      x > width || y > height || x + size.x > width || y + size.y > height
    }

    /** The cell (i, j) is one of the group's slots. */
    predicate InGroup(i: int, j: int) {
      0 <= i < width && 0 <= j < height
    }

    /** What "out" means: an item of at least one cell, placed at a
        non-negative position, is out exactly when one of the cells it
        covers is not a slot of the group. */
    lemma ItemOutMeansCellOutside(size: Vec2, x: int, y: int)
      requires size.x >= 1 && size.y >= 1 && x >= 0 && y >= 0
      ensures !IsItemOutAt(size, x, y) <==>
                forall i, j :: x <= i < x + size.x && y <= j < y + size.y ==> InGroup(i, j)
    {
      if IsItemOutAt(size, x, y) {
        if x + size.x > width {
          assert !InGroup(x + size.x - 1, y);
        } else {
          assert !InGroup(x, y + size.y - 1);
        }
      }
    }

    /** IsItemOut(Item): the same test on the item's position and current
        size. */
    function IsItemOut(item: Item, asset: ItemAsset): (r: Result<bool, IllegalOrientation>)
      ensures r.Success? <==> IsDeclared(item.orientation)
      ensures r.Success? ==> r.value == IsItemOutAt(RotateToSize(asset.size, item.orientation).value, item.x, item.y)
    {
      var size := CurrentSize(item, asset);
      if size.Failure? then Failure(size.error)
      else Success(IsItemOutAt(size.value, item.x, item.y))
    }

    /** ItemInSlot(pairs, size, x, y): the foreach with early return over
        (item, asset) pairs. */
    method ItemInSlotPairs(pairs: seq<(Item, ItemAsset)>, size: Vec2, x: Byte, y: Byte) returns (r: Result<bool, IllegalOrientation>)
      ensures r == FirstInItem(pairs, size, x, y)
    {
      for i := 0 to |pairs|
        invariant FirstInItem(pairs, size, x, y) == FirstInItem(pairs[i..], size, x, y)
      {
        assert pairs[i..][1..] == pairs[i + 1..];
        var pair := pairs[i];
        var itemSize := RotateToSize(pair.1.size, pair.0.orientation);
        if itemSize.Failure? {
          return Failure(itemSize.error);
        }
        if IsInItemAt(pair.0.x, pair.0.y, itemSize.value, size, x, y) {
          return Success(true);
        }
      }
      return Success(false);
    }

    /** ItemInSlot(size, x, y): the same scan over the group's own items, each
        asset fetched by its global identifier. */
    method ItemInSlot(assetOf: nat -> ItemAsset, size: Vec2, x: Byte, y: Byte) returns (r: Result<bool, IllegalOrientation>)
      ensures r == FirstInItem(seq(|items|, i requires 0 <= i < |items| reads this => (items[i], assetOf(items[i].globalID))), size, x, y)
    {
      ghost var pairs := seq(|items|, i requires 0 <= i < |items| reads this => (items[i], assetOf(items[i].globalID)));
      for i := 0 to |items|
        invariant FirstInItem(pairs, size, x, y) == FirstInItem(pairs[i..], size, x, y)
      {
        assert pairs[i..][1..] == pairs[i + 1..];
        var item := items[i];
        var hit := IsInItem(item, assetOf(item.globalID), size, x, y);
        if hit.Failure? {
          return Failure(hit.error);
        }
        if hit.value {
          return Success(true);
        }
      }
      return Success(false);
    }

    /** ItemPositionValid: inside the group and inside an item; the scan is
        skipped (and cannot throw) when the position is out. */
    method ItemPositionValid(pairs: seq<(Item, ItemAsset)>, size: Vec2, x: Byte, y: Byte) returns (r: Result<bool, IllegalOrientation>)
      ensures IsItemOutAt(size, x, y) ==> r == Success(false)
      ensures !IsItemOutAt(size, x, y) ==> r == FirstInItem(pairs, size, x, y)
    {
      if IsItemOutAt(size, x, y) {
        return Success(false);
      }
      r := ItemInSlotPairs(pairs, size, x, y);
    }
  }
}
