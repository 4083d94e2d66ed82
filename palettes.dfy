/** The identifier registries of logics/utilities/Palettes.cs.

    MasterToGlobal<T> and GlobalToLocal have the same body. Each holds an
    array of items indexed by a global (or local) identifier, a `count`
    cursor of the slots handed out so far, and a Dictionary64 from the
    reverse key (a master string, or a global identifier) to the index. Both
    are modelled by one generic class Palette<K, T>: K is the reverse key, T
    the item type, and the dictionary is represented by its contents, the map
    `lookup`. An array slot holds None for the element type's default value
    (null, or 0 for GlobalToLocal's ulong items).

    Nothing in either class ever inserts into the dictionary (AddRange writes
    only the array), so `lookup` stays empty and every lookup through it
    fails with KeyNotFound; the model keeps that behaviour. */
module Palettes {
  import opened Results

  datatype PaletteError =
    | IndexOutOfRange  // an identifier past the end of the items array
    | KeyNotFound      // the dictionary indexer's exception for an absent key
    | NullItem         // a member access on a null item
    | CopyTooLong      // Array.Copy asked for more elements than its source has

  /** The length of a new registry's array: the capacity when positive, 11
      otherwise. */
  function InitialLength(capacity: int): nat {
    if capacity > 0 then capacity else 11
  }

  /** The stored form of a run of items. */
  function Stored<T>(xs: seq<T>): (r: seq<Option<T>>)
    ensures |r| == |xs| && forall j :: 0 <= j < |xs| ==> r[j] == Some(xs[j])
  {
    if xs == [] then [] else [Some(xs[0])] + Stored(xs[1..])
  }

  class Palette<K(==), T> {
    var items: array<Option<T>>
    var count: int
    /** The contents of the Dictionary64 from reverse key to index. */
    var lookup: map<K, int>

    /** count never passes the array's length. */
    ghost predicate Valid()
      reads this
    {
      0 <= count <= items.Length
    }

    /** A new registry: an empty dictionary (whose own constructor rejects a
        negative capacity) and an array of InitialLength(capacity) default
        items. */
    constructor (capacity: int)
      requires capacity >= 0
      ensures Valid() && fresh(items) && lookup == map[]
      ensures count == 0 && items.Length == InitialLength(capacity)
      ensures capacity > 0 ==> items.Length == capacity
      ensures capacity == 0 ==> items.Length == 11
      ensures forall i :: 0 <= i < items.Length ==> items[i].None?
    {
      items := new Option<T>[InitialLength(capacity)](_ => None);
      count := 0;
      lookup := map[];
    }

    /** Replaces the array by one of the given size. A larger one keeps every
        old item at its index and default items after them; a smaller one
        keeps the first `size` items and sets count to size; the same size
        changes nothing. The copy on growth takes the old array's length
        (see ResizeAsWritten). */
    method Resize(size: nat)
      requires Valid()
      modifies this
      ensures Valid() && lookup == old(lookup)
      ensures old(items.Length) == size ==> items == old(items) && count == old(count)
      ensures old(items.Length) != size ==> fresh(items) && items.Length == size
      ensures old(items.Length) < size ==>
                && count == old(count)
                && items[..old(items.Length)] == old(items[..])
                && forall i :: old(items.Length) <= i < size ==> items[i].None?
      ensures size < old(items.Length) ==> count == size && items[..] == old(items[..size])
    {
      if items.Length == size {
        return;
      }
      var tmp := items;
      items := new Option<T>[size](_ => None);
      if tmp.Length < size {
        forall i | 0 <= i < tmp.Length {
          items[i] := tmp[i];
        }
        assert items[..tmp.Length] == tmp[..];
      } else {
        forall i | 0 <= i < size {
          items[i] := tmp[i];
        }
        assert items[..] == tmp[..size];
        count := size;
      }
    }

    /** Resize as written: the array is replaced first, then Array.Copy is
        asked for the NEW length from the old, shorter array on growth, which
        throws before copying anything. Every growth therefore fails and
        leaves a fresh array of default items behind, the old items lost. */
    method ResizeAsWritten(size: nat) returns (r: Result<(), PaletteError>)
      requires Valid()
      modifies this
      ensures old(items.Length) < size ==>
                && r == Failure(CopyTooLong)
                && fresh(items) && items.Length == size && count == old(count)
                && forall i :: 0 <= i < size ==> items[i].None?
      ensures old(items.Length) >= size ==> r == Success(())
    {
      if items.Length == size {
        return Success(());
      }
      var tmp := items;
      items := new Option<T>[size](_ => None);
      if tmp.Length < size {
        return Failure(CopyTooLong);
      }
      forall i | 0 <= i < size {
        items[i] := tmp[i];
      }
      count := size;
      return Success(());
    }

    /** Appends newItems at index count, growing the array to exactly
        count + |newItems| first when they do not fit. */
    method AddRange(newItems: seq<T>)
      requires Valid()
      modifies this, items
      ensures Valid() && lookup == old(lookup)
      ensures count == old(count) + |newItems|
      ensures items[..old(count)] == old(items[..count])
      ensures items[old(count)..count] == Stored(newItems)
      ensures old(count) + |newItems| > old(items.Length) ==>
                fresh(items) && items.Length == old(count) + |newItems|
      ensures old(count) + |newItems| <= old(items.Length) ==>
                items == old(items) && items[count..] == old(items[count + |newItems|..])
    {
      if count + |newItems| > items.Length {
        Resize(count + |newItems|);
      }
      WriteAt(count, Stored(newItems));
      count := count + |newItems|;
    }

    /** Writes xs into the array from index at on, leaving the rest alone. */
    method WriteAt(at: nat, xs: seq<Option<T>>)
      requires at + |xs| <= items.Length
      modifies items
      ensures items[..at] == old(items[..at])
      ensures items[at..at + |xs|] == xs
      ensures items[at + |xs|..] == old(items[at + |xs|..])
    {
      forall j | 0 <= j < |xs| {
        items[at + j] := xs[j];
      }
      assert forall i :: 0 <= i < at ==> items[..at][i] == old(items[..at])[i];
      assert forall j :: 0 <= j < |xs| ==> items[at..at + |xs|][j] == xs[j];
    }

    /** GetItem(ulong), this[ulong] and GlobalToLocal.GetGlobal: the item at
        an identifier, or IndexOutOfRange past the array's end. */
    method Get(id: nat) returns (r: Result<Option<T>, PaletteError>)
      ensures id < items.Length ==> r == Success(items[id])
      ensures id >= items.Length ==> r == Failure(IndexOutOfRange)
    {
      if id >= items.Length {
        return Failure(IndexOutOfRange);
      }
      return Success(items[id]);
    }

    /** GetGlobal(string), this[string] and GlobalToLocal.GetLocal: the index
        the dictionary holds for key. As nothing is ever inserted, lookup is
        empty and this always fails. */
    method Find(key: K) returns (r: Result<int, PaletteError>)
      ensures key in lookup ==> r == Success(lookup[key])
      ensures key !in lookup ==> r == Failure(KeyNotFound)
    {
      if key !in lookup {
        return Failure(KeyNotFound);
      }
      return Success(lookup[key]);
    }

    /** GetItem(string): the item at the index the dictionary holds for key;
        like Find, it always fails. */
    method GetByKey(key: K) returns (r: Result<Option<T>, PaletteError>)
      ensures key in lookup && 0 <= lookup[key] < items.Length ==> r == Success(items[lookup[key]])
      ensures key in lookup && !(0 <= lookup[key] < items.Length) ==> r == Failure(IndexOutOfRange)
      ensures key !in lookup ==> r == Failure(KeyNotFound)
    {
      var index := Find(key);
      if index.Failure? {
        return Failure(index.error);
      }
      if !(0 <= index.value < items.Length) {
        return Failure(IndexOutOfRange);
      }
      return Success(items[index.value]);
    }

    /** GetMaster: the master identifier of the item at an identifier. */
    method GetMaster(id: nat, master: T -> K) returns (r: Result<K, PaletteError>)
      ensures id >= items.Length ==> r == Failure(IndexOutOfRange)
      ensures id < items.Length && items[id].None? ==> r == Failure(NullItem)
      ensures id < items.Length && items[id].Some? ==> r == Success(master(items[id].value))
    {
      var item := Get(id);
      if item.Failure? {
        return Failure(item.error);
      }
      if item.value.None? {
        return Failure(NullItem);
      }
      return Success(master(item.value.value));
    }
  }
}
