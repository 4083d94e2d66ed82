/** Dictionary64 (logics/utilities/Dictionary64.cs): a chained hash table
    over two parallel arrays, with 64-bit hash codes, a LIFO free list of
    removed slots and prime-sized growth.

    Keys are passed as Option<K>, None standing for a null key, which every
    operation rejects. The ghost Map is the dictionary the arrays encode;
    shadow names the chains, the free list and the slot of every key. */
module Dict64 {
  import opened Results
  import opened HashPrimes
  import opened HashLayout

  /** The exceptions the table throws. */
  datatype DictError = NullKey | KeyNotFound | DuplicateKey

  /** `version++` on a C# int, which wraps past Int32.MaxValue. */
  function NextVersion(v: int): (r: int)
    ensures v < Int32Max ==> r == v + 1
    ensures v == Int32Max ==> r == -Int32Max - 1
  {
    if v == Int32Max then -Int32Max - 1 else v + 1
  }

  class Dictionary64<K(==), V(==)> {
    var buckets: array<int>
    var entries: array<Entry<K, V>>
    var count: int
    var freeList: int
    var freeCount: int
    var version: int
    /** The hash function given at construction; it never returns a negative
        number (HashUtils masks off the sign bit). */
    const hash: K -> nat

    ghost var Map: map<K, V>
    ghost var shadow: Shadow<K>

    /** The fields as one value; unallocated arrays are empty. */
    function Snapshot(): Layout<K, V>
      reads this, buckets, entries
    {
      Layout(buckets[..], entries[..], count, freeList, freeCount)
    }

    ghost predicate Valid()
      reads this, buckets, entries
    {
      Inv(hash, Snapshot(), shadow, Map)
    }

    /** A negative capacity throws; a positive one allocates at once. */
    constructor (hash: K -> nat, capacity: int)
      requires capacity >= 0
      ensures Valid() && Map == map[] && this.hash == hash
      ensures capacity == 0 ==> buckets.Length == 0
      ensures capacity > 0 ==> buckets.Length == GetPrimeSpec(capacity)
      ensures version == 0
    {
      buckets := new int[0];
      entries := new Entry<K, V>[0](_ => Blank());
      count, freeList, freeCount, version := 0, 0, 0, 0;
      this.hash := hash;
      Map := map[];
      shadow := EmptyShadow(0);
      new;
      AllocatedInv<K, V>(hash, 0);
      assert Snapshot() == Unallocated();
      if capacity > 0 {
        Initialize(capacity);
      }
    }

    /** Allocates GetPrime(capacity) buckets, all empty, and as many blank
        entries. Only an empty table is initialised. */
    method Initialize(capacity: int)
      requires count == 0 && freeCount == 0 && Map == map[]
      modifies this
      ensures Valid() && Map == old(Map)
      ensures fresh(buckets) && fresh(entries)
      ensures buckets.Length == GetPrimeSpec(capacity) >= 3
      ensures count == 0 && freeList == -1 && freeCount == 0 && version == old(version)
    {
      var size := GetPrime(capacity);
      GetPrimeChoice(capacity);
      buckets := new int[size](_ => -1);
      entries := new Entry<K, V>[size](_ => Blank());
      freeList := -1;
      shadow := EmptyShadow(size);
      AllocatedInv<K, V>(hash, size);
      assert Snapshot() == Allocated(size);
    }

    /** The chain walk shared by FindEntry, Insert and Remove: it follows
        the chain of key's bucket from its head until an entry with an equal
        hash code and an equal key, returning its index (-1 when the chain
        ends first) and the index of the entry before it (-1 at the head). */
    method Seek(k: K) returns (i: int, last: int, ghost pos: int)
      requires Valid() && buckets.Length > 0
      ensures var c := shadow.chains[BucketOf(hash(k), entries.Length)];
              && (k in Map ==> 0 <= pos < |c| && 0 <= i < entries.Length && i == c[pos] == shadow.slot[k]
                               && last == (if pos == 0 then -1 else c[pos - 1]))
              && (k !in Map ==> i == -1)
    {
      var hashCode := hash(k);
      var b := hashCode % buckets.Length;
      ghost var t, c := Snapshot(), shadow.chains[b];
      ChainInRange(t, shadow, b);
      last := -1;
      i := buckets[b];
      pos := 0;
      while i >= 0
        invariant 0 <= pos <= |c|
        invariant i == if pos < |c| then c[pos] else -1
        invariant last == if pos == 0 then -1 else c[pos - 1]
        invariant k in Map ==> forall p :: 0 <= p < pos ==> c[p] != shadow.slot[k]
        decreases |c| - pos
      {
        ChainEntryKey(hash, t, shadow, Map, b, pos);
        assert LinkOk(t, c, b, pos);
        if k in Map {
          assert KeySlotOk(t, shadow, Map, k);
          assert LiveAt(hash, t, shadow, i);
        }
        assert entries[i] == t.entries[i];
        if entries[i].hashCode == hashCode && entries[i].key == Some(k) {
          assert k in Map;
          return;
        }
        last := i;
        i := entries[i].next;
        pos := pos + 1;
      }
      NotInWalkedChain(k, b, c);
    }

    /** The index of the entry holding key, or -1. */
    method FindEntry(key: Option<K>) returns (r: Result<int, DictError>)
      requires Valid()
      ensures key.None? ==> r == Failure(NullKey)
      ensures key.Some? && key.value in Map ==>
                r == Success(shadow.slot[key.value]) && 0 <= shadow.slot[key.value] < entries.Length
      ensures key.Some? && key.value !in Map ==> r == Success(-1)
    {
      if key.None? {
        return Failure(NullKey);
      }
      if buckets.Length == 0 {
        EmptyWhenUnallocated();
        return Success(-1);
      }
      var i, _, _ := Seek(key.value);
      return Success(i);
    }

    /** Unallocated arrays hold no key. */
    lemma EmptyWhenUnallocated()
      requires Valid() && entries.Length == 0
      ensures Map == map[] && count == 0 && freeCount == 0
    {
      SlotsBelowCount(hash, Snapshot(), shadow, Map);
    }

    /** A key whose slot is not in the chain of its bucket is absent. */
    lemma NotInWalkedChain(k: K, b: int, c: seq<int>)
      requires Valid() && entries.Length > 0
      requires b == BucketOf(hash(k), entries.Length) && c == shadow.chains[b]
      requires k in Map ==> forall p :: 0 <= p < |c| ==> c[p] != shadow.slot[k]
      ensures k !in Map
    {
      if k in Map {
        FindInChain(hash, Snapshot(), shadow, Map, k);
      }
    }

    method ContainsKey(key: Option<K>) returns (r: Result<bool, DictError>)
      requires Valid()
      ensures key.None? ==> r == Failure(NullKey)
      ensures key.Some? ==> r == Success(key.value in Map)
    {
      var i := FindEntry(key);
      if i.Failure? {
        return Failure(i.error);
      }
      return Success(i.value >= 0);
    }

    /** A scan of the live entries below count. The source's separate loops
        for a null and a non-null value both test equality. */
    method ContainsValue(value: V) returns (r: bool)
      requires Valid()
      ensures r <==> value in Map.Values
    {
      for i := 0 to count
        invariant forall j :: 0 <= j < i && entries[j].hashCode >= 0 ==> entries[j].value != Some(value)
      {
        if entries[i].hashCode >= 0 && entries[i].value == Some(value) {
          assert LiveAt(hash, Snapshot(), shadow, i);
          var k := entries[i].key.value;
          assert KeySlotOk(Snapshot(), shadow, Map, k);
          return true;
        }
      }
      forall k | k in Map
        ensures Map[k] != value
      {
        assert KeySlotOk(Snapshot(), shadow, Map, k);
      }
      return false;
    }

    /** The indexer's get. */
    method Get(key: Option<K>) returns (r: Result<V, DictError>)
      requires Valid()
      ensures key.None? ==> r == Failure(NullKey)
      ensures key.Some? && key.value in Map ==> r == Success(Map[key.value])
      ensures key.Some? && key.value !in Map ==> r == Failure(KeyNotFound)
    {
      var i := FindEntry(key);
      if i.Failure? {
        return Failure(i.error);
      }
      if i.value >= 0 {
        assert KeySlotOk(Snapshot(), shadow, Map, key.value);
        return Success(entries[i.value].value.value);
      }
      return Failure(KeyNotFound);
    }

    /** Grows the table to ExpandPrime(count); the (int) cast of count is
        exact below MaxPrimeArrayLength. */
    method Resize()
      requires Valid() && freeCount == 0 && count == entries.Length && count < MaxPrimeArrayLength
      modifies this
      ensures Valid() && Map == old(Map) && shadow.slot == old(shadow.slot)
      ensures fresh(buckets) && fresh(entries)
      ensures entries.Length == ExpandPrimeSpec(old(count)) > old(count)
      ensures count == old(count) && freeList == old(freeList) && freeCount == 0 && version == old(version)
    {
      var newSize := ExpandPrime(count);
      ExpandPrimeGrows(count);
      ResizeTo(newSize);
    }

    /** Replaces the arrays by newSize fresh ones holding the same chains'
        entries, rebuilt by Rehash. */
    method ResizeTo(newSize: int)
      requires Valid() && freeCount == 0 && count <= newSize && newSize > 0
      modifies this
      ensures Valid() && Map == old(Map) && shadow.slot == old(shadow.slot)
      ensures fresh(buckets) && fresh(entries) && entries.Length == newSize
      ensures count == old(count) && freeList == old(freeList) && freeCount == 0 && version == old(version)
    {
      ghost var t0, s0 := Snapshot(), shadow;
      var newBuckets, newEntries, ch := Rehash(newSize);
      RebuildInv(hash, t0, s0, Map, newSize, newBuckets[..], newEntries[..], ch);
      buckets := newBuckets;
      entries := newEntries;
      shadow := Shadow(ch, [], s0.slot);
    }

    /** Builds newSize fresh buckets and entries: entries below count are
        copied to the same index and every live one is pushed on the front
        of the chain of its new bucket. */
    method Rehash(newSize: int) returns (newBuckets: array<int>, newEntries: array<Entry<K, V>>, ghost ch: seq<seq<int>>)
      requires 0 <= count <= entries.Length && count <= newSize
      ensures fresh(newBuckets) && fresh(newEntries)
      ensures RebuildOk(Snapshot(), newSize, newBuckets[..], newEntries[..], ch, count)
    {
      ghost var t0 := Snapshot();
      newBuckets := new int[newSize](_ => -1);
      newEntries := CopyPrefix(newSize);
      RebuildStart(t0, newSize, newBuckets[..], newEntries[..]);
      ch := seq(newSize, _ => []);
      for i := 0 to count
        invariant RebuildOk(t0, newSize, newBuckets[..], newEntries[..], ch, i)
      {
        RebuildStep(t0, newSize, newBuckets[..], newEntries[..], ch, i);
        ch := RelinkChains(newSize, ch, newEntries[..], i);
        Relink(newBuckets, newEntries, newSize, i);
      }
    }

    /** Fresh entries of length newSize: a copy of the entries below count,
        blank above. */
    method CopyPrefix(newSize: int) returns (newEntries: array<Entry<K, V>>)
      requires 0 <= count <= entries.Length && count <= newSize
      ensures fresh(newEntries) && newEntries.Length == newSize
      ensures forall j :: 0 <= j < newSize ==> newEntries[j] == if j < count then entries[j] else Blank()
    {
      newEntries := new Entry<K, V>[newSize](_ => Blank());
      forall j | 0 <= j < count {
        newEntries[j] := entries[j];
      }
    }

    /** The rehash loop's body: a live entry i goes on the front of the
        chain of its bucket among n. */
    static method Relink(bs: array<int>, es: array<Entry<K, V>>, n: int, i: int)
      requires n > 0 && bs.Length == n && 0 <= i < es.Length
      modifies bs, es
      ensures bs[..] == RelinkBuckets(n, old(bs[..]), old(es[..]), i)
      ensures es[..] == RelinkEntries(n, old(bs[..]), old(es[..]), i)
    {
      if es[i].hashCode >= 0 {
        var bucket := es[i].hashCode % n;
        es[i] := es[i].(next := bs[bucket]);
        bs[bucket] := i;
      }
    }

    /** The shared body of the indexer's set (add false) and Add (add true).
        A present key either fails (add) or has its value replaced in place;
        an absent key takes the most recently freed slot, or else slot count,
        growing the table first when it is full. */
    method Insert(key: Option<K>, value: V, add: bool) returns (r: Result<(), DictError>)
      requires Valid() && count < MaxPrimeArrayLength
      modifies this, buckets, entries
      ensures Valid()
      ensures key.None? || (add && key.value in old(Map)) ==>
                && r == Failure(if key.None? then NullKey else DuplicateKey)
                && Snapshot() == old(Snapshot()) && Map == old(Map) && shadow == old(shadow) && version == old(version)
      ensures key.Some? && !(add && key.value in old(Map)) ==>
                r == Success(()) && Map == old(Map)[key.value := value] && version == NextVersion(old(version))
      ensures key.Some? && !add && key.value in old(Map) ==>
                && Snapshot() == SetValue(old(Snapshot()), old(shadow.slot[key.value]), value)
                && shadow == old(shadow)
      ensures key.Some? && key.value !in old(Map) && old(freeCount) > 0 ==>
                && shadow.slot[key.value] == old(freeList)
                && shadow.free == old(shadow.free[1..])
                && count == old(count) && freeCount == old(freeCount) - 1
                && entries == old(entries)
      ensures key.Some? && key.value !in old(Map) && old(freeCount) == 0 ==>
                && shadow.slot[key.value] == old(count)
                && count == old(count) + 1 && freeCount == 0
      ensures key.Some? && key.value !in old(Map) && old(freeCount) == 0 && 0 < old(count) == old(entries.Length) ==>
                entries.Length == ExpandPrimeSpec(old(count))
      ensures key.Some? && key.value !in old(Map) && old(entries.Length) == 0 ==>
                entries.Length == GetPrimeSpec(0)
      ensures forall k :: k in old(Map) && Some(k) != key ==> shadow.slot[k] == old(shadow.slot[k])
    {
      if key.None? {
        return Failure(NullKey);
      }
      var k := key.value;
      if buckets.Length == 0 {
        EmptyWhenUnallocated();
        Initialize(0);
      }
      var i, _, _ := Seek(k);
      if i >= 0 {
        if add {
          return Failure(DuplicateKey);
        }
        SetEntryValue(i, k, value);
        return Success(());
      }
      assert ShapeOk(Snapshot(), shadow);
      if freeCount == 0 && count == entries.Length {
        Resize();
      }
      AddEntry(k, value);
      return Success(());
    }

    /** Replaces the value of the entry i that holds key k. */
    method SetEntryValue(i: int, ghost k: K, value: V)
      requires Valid() && k in Map && i == shadow.slot[k]
      modifies entries, `version, `Map
      ensures Valid() && Map == old(Map)[k := value] && version == NextVersion(old(version))
      ensures Snapshot() == SetValue(old(Snapshot()), i, value)
    {
      ghost var t0 := Snapshot();
      SetValueInv(hash, t0, shadow, Map, k, value);
      entries[i] := entries[i].(value := Some(value));
      version := NextVersion(version);
      Map := Map[k := value];
      assert Snapshot() == SetValue(t0, i, value);
    }

    /** Stores an absent key in the slot at the head of the free list, or
        else in slot count, and pushes it on the front of its bucket's chain. */
    method AddEntry(k: K, value: V)
      requires Valid() && k !in Map && entries.Length > 0
      requires freeCount > 0 || count < entries.Length
      modifies this, buckets, entries
      ensures Valid() && Map == old(Map)[k := value] && version == NextVersion(old(version))
      ensures buckets == old(buckets) && entries == old(entries)
      ensures old(freeCount) > 0 ==>
                && shadow.slot == old(shadow.slot)[k := old(freeList)]
                && shadow.free == old(shadow.free[1..])
                && count == old(count) && freeCount == old(freeCount) - 1
      ensures old(freeCount) == 0 ==>
                && shadow.slot == old(shadow.slot)[k := old(count)]
                && count == old(count) + 1 && freeCount == 0
    {
      var hashCode := hash(k);
      var targetBucket := hashCode % buckets.Length;
      ghost var t0, s0 := Snapshot(), shadow;
      InsertNewInv(hash, t0, s0, Map, SlotFor(t0), k, value);
      var index := TakeSlot();
      StoreEntry(index, targetBucket, hashCode, k, value);
      version := NextVersion(version);
      shadow := InsertShadow(s0, index, targetBucket, k);
      Map := Map[k := value];
    }

    /** Pops the head of the free list, or else advances count, and returns
        the slot taken. */
    method TakeSlot() returns (index: int)
      requires freeCount > 0 ==> 0 <= freeList < entries.Length
      modifies this`count, this`freeList, this`freeCount
      ensures index == SlotFor(old(Snapshot())) && Snapshot() == Taken(old(Snapshot()))
    {
      if freeCount > 0 {
        index := freeList;
        freeList := entries[index].next;
        freeCount := freeCount - 1;
      } else {
        index := count;
        count := count + 1;
      }
    }

    /** Writes the new entry and makes it the head of its bucket's chain. */
    method StoreEntry(index: int, targetBucket: int, hashCode: int, k: K, value: V)
      requires 0 <= index < entries.Length && 0 <= targetBucket < buckets.Length
      modifies buckets, entries
      ensures Snapshot() == Store(old(Snapshot()), index, targetBucket, hashCode, k, value)
    {
      entries[index] := Entry(hashCode, buckets[targetBucket], Some(k), Some(value));
      buckets[targetBucket] := index;
    }

    /** The indexer's set: adds the key or replaces its value. */
    method Set(key: Option<K>, value: V) returns (r: Result<(), DictError>)
      requires Valid() && count < MaxPrimeArrayLength
      modifies this, buckets, entries
      ensures Valid()
      ensures key.None? ==> r == Failure(NullKey) && Map == old(Map)
      ensures key.Some? ==> r == Success(()) && Map == old(Map)[key.value := value]
      ensures key.Some? && key.value in old(Map) ==>
                count == old(count) && freeList == old(freeList) && freeCount == old(freeCount)
                && shadow == old(shadow)
    {
      r := Insert(key, value, false);
    }

    /** Adds a key that must not be present yet. */
    method Add(key: Option<K>, value: V) returns (r: Result<(), DictError>)
      requires Valid() && count < MaxPrimeArrayLength
      modifies this, buckets, entries
      ensures Valid()
      ensures key.None? ==> r == Failure(NullKey)
      ensures key.Some? && key.value in old(Map) ==> r == Failure(DuplicateKey)
      ensures r.Failure? ==> Snapshot() == old(Snapshot()) && Map == old(Map)
      ensures key.Some? && key.value !in old(Map) ==> r == Success(()) && Map == old(Map)[key.value := value]
    {
      r := Insert(key, value, true);
    }

    /** Unlinks the entry of key from its chain, clears it and pushes its slot
        on the free list. */
    method Remove(key: Option<K>) returns (r: Result<bool, DictError>)
      requires Valid()
      modifies this, buckets, entries
      ensures Valid()
      ensures key.None? ==> r == Failure(NullKey)
      ensures key.Some? ==> r == Success(key.value in old(Map)) && Map == old(Map) - {key.value}
      ensures key.None? || key.value !in old(Map) ==>
                Snapshot() == old(Snapshot()) && shadow == old(shadow) && version == old(version)
      ensures key.Some? && key.value in old(Map) ==>
                && freeList == old(shadow.slot[key.value])
                && shadow.free == [old(shadow.slot[key.value])] + old(shadow.free)
                && count == old(count) && freeCount == old(freeCount) + 1
                && version == NextVersion(old(version))
      ensures forall k :: k in Map ==> shadow.slot[k] == old(shadow.slot[k])
    {
      if key.None? {
        return Failure(NullKey);
      }
      var k := key.value;
      if buckets.Length > 0 {
        var hashCode := hash(k);
        var bucket := hashCode % buckets.Length;
        var i, last;
        ghost var pos;
        i, last, pos := Seek(k);
        if i >= 0 {
          UnlinkEntry(bucket, i, last, pos, k);
          return Success(true);
        }
      } else {
        EmptyWhenUnallocated();
      }
      return Success(false);
    }

    /** Takes entry i, at position pos of the chain of bucket, out of the
        chain (through the bucket at the head, through the entry last
        otherwise), clears it and pushes it on the free list. */
    method UnlinkEntry(bucket: int, i: int, last: int, ghost pos: int, ghost k: K)
      requires Valid() && k in Map && entries.Length > 0
      requires bucket == BucketOf(hash(k), entries.Length)
      requires 0 <= pos < |shadow.chains[bucket]| && i == shadow.chains[bucket][pos] == shadow.slot[k]
      requires last == if pos == 0 then -1 else shadow.chains[bucket][pos - 1]
      modifies this, buckets, entries
      ensures Valid() && Map == old(Map) - {k} && version == NextVersion(old(version))
      ensures buckets == old(buckets) && entries == old(entries)
      ensures freeList == i && shadow.free == [i] + old(shadow.free)
      ensures shadow.slot == old(shadow.slot) - {k}
      ensures count == old(count) && freeCount == old(freeCount) + 1
    {
      ghost var t0, s0 := Snapshot(), shadow;
      ghost var c := s0.chains[bucket];
      RemoveInv(hash, t0, s0, Map, bucket, pos, k);
      SkipEntry(bucket, i, last);
      ReleaseEntry(i);
      version := NextVersion(version);
      shadow := RemoveShadow(s0, bucket, pos, k);
      Map := Map - {k};
    }

    /** Makes the chain skip entry i: through the bucket when i is its head
        (last negative), through entry last otherwise. */
    method SkipEntry(bucket: int, i: int, last: int)
      requires 0 <= bucket < buckets.Length && 0 <= i < entries.Length && last < entries.Length
      modifies buckets, entries
      ensures Snapshot() == Skip(old(Snapshot()), bucket, i, last)
    {
      if last < 0 {
        buckets[bucket] := entries[i].next;
      } else {
        entries[last] := entries[last].(next := entries[i].next);
      }
    }

    /** Clears entry i and pushes it on the free list. */
    method ReleaseEntry(i: int)
      requires 0 <= i < entries.Length
      modifies entries, this`freeList, this`freeCount
      ensures Snapshot() == Release(old(Snapshot()), i)
    {
      entries[i] := Entry(-1, freeList, None, None);
      freeList := i;
      freeCount := freeCount + 1;
    }
  }
}
