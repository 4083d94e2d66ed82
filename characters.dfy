/** Character.Equip (logics/character/Character.cs) and the WearableSlot
    flags of logics/character/IWearable.cs. A character wears one item per
    entry of the fixed table wearableSlots; an item goes into a slot when
    its wearable kind fits the slot's flags. */
module Characters {
  import opened Results
  import opened Items

  /** The WearableSlot flags, a ushort enum. */
  const NoSlot: bv16 := 0
  const Helmet: bv16 := 1
  const Visor: bv16 := 2
  const Arms: bv16 := 4
  const Torso: bv16 := 8
  const Legs: bv16 := 16
  const Boots: bv16 := 32
  const Gants: bv16 := 64
  const Back: bv16 := 128
  const IsAccessory: bv16 := 0xFFFF

  /** Enum.HasFlag: every bit of flag is set in value. */
  predicate HasFlag(value: bv16, flag: bv16) {
    value & flag == flag
  }

  /** The slot each of the twelve wearing places accepts. */
  const WearableSlots: seq<bv16> :=
    [Helmet, Visor, Torso, Back, Arms, Arms, Gants, Gants, Legs, Legs, Boots, Boots]

  /** Only 0xFFFF itself has all of IsAccessory's bits. */
  lemma AccessoryIsAllBits(s: bv16)
    ensures HasFlag(s, IsAccessory) <==> s == IsAccessory
  {
  }

  /** A wearing place takes exactly the kinds whose flags are among its own:
      its own flag or None. */
  lemma SlotAccepts(slot: nat, s: bv16)
    requires slot < |WearableSlots|
    ensures HasFlag(WearableSlots[slot], s) <==> s == NoSlot || s == WearableSlots[slot]
  {
    var w := WearableSlots[slot];
    assert w == 1 || w == 2 || w == 4 || w == 8 || w == 16 || w == 32 || w == 64 || w == 128;
  }

  datatype EquipError =
    | SlotOutOfRange  // List indexer exception: slot not in 0..11
    | NullSlots       // wearedItems was never allocated

  /** Why Equip refuses, or that it succeeds, from the item's wearable kind
      (None when its asset is not wearable) and the target slot. */
  function EquipOutcome(wearable: Option<bv16>, slot: int): (r: Result<bool, EquipError>)
    ensures wearable.None? ==> r == Success(false)
    ensures wearable.Some? && wearable.value == IsAccessory ==> r == Success(false)
    ensures wearable.Some? && wearable.value != IsAccessory && !(0 <= slot < |WearableSlots|) ==> r == Failure(SlotOutOfRange)
    ensures r == Success(true) <==>
              wearable.Some? && wearable.value != IsAccessory && 0 <= slot < |WearableSlots|
              && (wearable.value == NoSlot || wearable.value == WearableSlots[slot])
  {
    if wearable.None? then Success(false)
    else if HasFlag(wearable.value, IsAccessory) then Success(false)
    else if !(0 <= slot < |WearableSlots|) then Failure(SlotOutOfRange)
    else
      SlotAccepts(slot, wearable.value);
      Success(HasFlag(WearableSlots[slot], wearable.value))
  }

  class Character {
    /** The items worn; null in the source, which never allocates it. */
    var wearedItems: array?<Option<Item>>

    /** The character as written: wearedItems stays null. */
    constructor ()
      ensures wearedItems == null
    {
      wearedItems := null;
    }

    /** A character with its twelve wearing places allocated, all empty. */
    constructor WithSlots()
      ensures wearedItems != null && fresh(wearedItems) && wearedItems.Length == |WearableSlots|
      ensures forall i :: 0 <= i < wearedItems.Length ==> wearedItems[i].None?
    {
      wearedItems := new Option<Item>[|WearableSlots|](_ => None);
    }

    /** Puts item into wearing place slot when its wearable kind (None for
        an asset that is not wearable) is no accessory and fits the slot,
        replacing any item already there. Any refusal changes nothing. */
    method Equip(item: Item, wearable: Option<bv16>, slot: int) returns (r: Result<bool, EquipError>)
      requires wearedItems != null ==> wearedItems.Length == |WearableSlots|
      modifies wearedItems
      ensures EquipOutcome(wearable, slot) != Success(true) ==>
                r == EquipOutcome(wearable, slot) && (wearedItems != null ==> unchanged(wearedItems))
      ensures EquipOutcome(wearable, slot) == Success(true) && wearedItems == null ==> r == Failure(NullSlots)
      ensures EquipOutcome(wearable, slot) == Success(true) && wearedItems != null ==>
                && r == Success(true)
                && wearedItems[..] == old(wearedItems[..])[slot := Some(item)]
    {
      r := EquipOutcome(wearable, slot);
      if r != Success(true) {
        return;
      }
      if wearedItems == null {
        return Failure(NullSlots);
      }
      wearedItems[slot] := Some(item);
    }
  }

  /** Equip on a character built as written: every item that passes the
      checks meets the unallocated wearedItems, so no equip can succeed;
      for instance a Helmet-kind item in wearing place 0. */
  method EquipOnNewCharacter(item: Item, wearable: Option<bv16>, slot: int) returns (r: Result<bool, EquipError>)
    ensures EquipOutcome(wearable, slot) == Success(true) ==> r == Failure(NullSlots)
    ensures EquipOutcome(wearable, slot) != Success(true) ==> r == EquipOutcome(wearable, slot)
    ensures r != Success(true)
    ensures wearable == Some(Helmet) && slot == 0 ==> r == Failure(NullSlots)
  {
    var c := new Character();
    r := c.Equip(item, wearable, slot);
  }

  /** Equip on a character whose wearing places are allocated: the checks
      decide the outcome, and an accepted item is the only one worn. */
  method EquipOnSlottedCharacter(item: Item, wearable: Option<bv16>, slot: int) returns (r: Result<bool, EquipError>, c: Character)
    ensures r == EquipOutcome(wearable, slot)
    ensures c.wearedItems != null && c.wearedItems.Length == |WearableSlots|
    ensures forall i :: 0 <= i < c.wearedItems.Length ==>
              c.wearedItems[i] == if r == Success(true) && i == slot then Some(item) else None
  {
    c := new Character.WithSlots();
    r := c.Equip(item, wearable, slot);
  }
}
