/** The item data of logics/items/Item.cs and
    logics/character/effects/StatusEffect.cs. Assets are plain records; an
    item refers to its asset by global identifier, and the asset is passed
    alongside it wherever the source fetches it from the ObjectManager. */
module Items {
  import opened Results
  import opened Utilities

  /** An item kind: its master identifier and its unrotated inventory size. */
  datatype ItemAsset = ItemAsset(id: string, size: Vec2)

  /** A status effect kind, known by its master identifier. */
  datatype StatusEffectAsset = StatusEffectAsset(id: string)

  /** An item placed in a slot group: the global identifier of its asset,
      its orientation and its position. */
  datatype Item = Item(globalID: nat, orientation: Orientation, x: Byte, y: Byte)

  /** Item.CurrentSize: the asset's size rotated by the item's orientation. */
  function CurrentSize(item: Item, asset: ItemAsset): (r: Result<Vec2, IllegalOrientation>)
    ensures r.Success? <==> IsDeclared(item.orientation)
    ensures r.Success? ==> r.value.x * r.value.y == asset.size.x * asset.size.y
  {
    RotateToSize(asset.size, item.orientation)
  }
}
