/** ObjectManager (logics/managers/ObjectManager.cs): the single registry of
    item and status effect assets. Assets are added during an init phase;
    EndInit closes it for good.

    The source's static members forward to the registered instance (`Get`);
    here they are methods of that instance, and the static `instance` field
    is the object ObjectManagerSlot. */
module ObjectManagers {
  import opened Results
  import opened Palettes
  import opened Items

  datatype ObjectManagerError =
    | AlreadyExists  // a second ObjectManager was constructed
    | InitPhaseOver  // an addition after EndInit
    | Registry(error: PaletteError)

  class ObjectManager {
    var items: Palette<string, ItemAsset>
    var effects: Palette<string, StatusEffectAsset>
    /** Set by EndInit; nothing clears it. */
    var pastInitPhase: bool

    ghost predicate Valid()
      reads this, items, effects
    {
      items.Valid() && effects.Valid()
    }

    constructor (itemCapacity: int, effectsCapacity: int)
      requires itemCapacity >= 0 && effectsCapacity >= 0
      ensures Valid() && fresh(items) && fresh(items.items) && fresh(effects) && fresh(effects.items)
      ensures !pastInitPhase && items.count == 0 && effects.count == 0
      ensures items.items.Length == InitialLength(itemCapacity)
      ensures effects.items.Length == InitialLength(effectsCapacity)
    {
      items := new Palette(itemCapacity);
      effects := new Palette(effectsCapacity);
      pastInitPhase := false;
    }

    /** AddItems(params ItemAsset[]): appends to the item registry while the
        init phase lasts; afterwards it fails and nothing changes. */
    method AddItems(newItems: seq<ItemAsset>) returns (r: Result<(), ObjectManagerError>)
      requires Valid()
      modifies items, items.items
      ensures Valid() && pastInitPhase == old(pastInitPhase)
      ensures old(pastInitPhase) ==>
                && r == Failure(InitPhaseOver)
                && unchanged(items) && items.items[..] == old(items.items[..])
      ensures !old(pastInitPhase) ==>
                && r == Success(())
                && items.count == old(items.count) + |newItems|
                && items.items[..old(items.count)] == old(items.items[..items.count])
                && items.items[old(items.count)..items.count] == Stored(newItems)
      ensures unchanged(effects) && effects.items[..] == old(effects.items[..])
    {
      if pastInitPhase {
        return Failure(InitPhaseOver);
      }
      items.AddRange(newItems);
      return Success(());
    }

    /** AddItems(params StatusEffectAsset[]): the same for the effect
        registry. */
    method AddEffects(newEffects: seq<StatusEffectAsset>) returns (r: Result<(), ObjectManagerError>)
      requires Valid()
      modifies effects, effects.items
      ensures Valid() && pastInitPhase == old(pastInitPhase)
      ensures old(pastInitPhase) ==>
                && r == Failure(InitPhaseOver)
                && unchanged(effects) && effects.items[..] == old(effects.items[..])
      ensures !old(pastInitPhase) ==>
                && r == Success(())
                && effects.count == old(effects.count) + |newEffects|
                && effects.items[..old(effects.count)] == old(effects.items[..effects.count])
                && effects.items[old(effects.count)..effects.count] == Stored(newEffects)
      ensures unchanged(items) && items.items[..] == old(items.items[..])
    {
      if pastInitPhase {
        return Failure(InitPhaseOver);
      }
      effects.AddRange(newEffects);
      return Success(());
    }

    /** Closes the init phase; a second call changes nothing. */
    method EndInit()
      modifies this`pastInitPhase
      ensures pastInitPhase
      ensures old(pastInitPhase) ==> unchanged(this)
    {
      pastInitPhase := true;
    }

    /** The item asset registered under a global identifier. */
    method GetItem(globalID: nat) returns (r: Result<Option<ItemAsset>, ObjectManagerError>)
      ensures globalID < items.items.Length ==> r == Success(items.items[globalID])
      ensures globalID >= items.items.Length ==> r == Failure(Registry(IndexOutOfRange))
    {
      var item := items.Get(globalID);
      if item.Failure? {
        return Failure(Registry(item.error));
      }
      return Success(item.value);
    }

    /** The status effect asset registered under a global identifier. */
    method GetEffect(globalID: nat) returns (r: Result<Option<StatusEffectAsset>, ObjectManagerError>)
      ensures globalID < effects.items.Length ==> r == Success(effects.items[globalID])
      ensures globalID >= effects.items.Length ==> r == Failure(Registry(IndexOutOfRange))
    {
      var effect := effects.Get(globalID);
      if effect.Failure? {
        return Failure(Registry(effect.error));
      }
      return Success(effect.value);
    }
  }

  /** The static ObjectManager.instance, read through `Get`. */
  class ObjectManagerSlot {
    var instance: ObjectManager?

    constructor ()
      ensures instance == null
    {
      instance := null;
    }

    /** The constructor's guard: a second ObjectManager fails and the first
        stays registered; the first becomes the instance. */
    method Create(itemCapacity: int, effectsCapacity: int) returns (r: Result<ObjectManager, ObjectManagerError>)
      requires itemCapacity >= 0 && effectsCapacity >= 0
      modifies this
      ensures old(instance) != null ==> r == Failure(AlreadyExists) && instance == old(instance)
      ensures old(instance) == null ==>
                && r.Success? && fresh(r.value) && instance == r.value
                && r.value.Valid() && !r.value.pastInitPhase
                && r.value.items.count == 0 && r.value.effects.count == 0
    {
      if instance != null {
        return Failure(AlreadyExists);
      }
      var manager := new ObjectManager(itemCapacity, effectsCapacity);
      instance := manager;
      return Success(manager);
    }
  }
}
