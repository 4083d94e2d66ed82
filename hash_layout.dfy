/** The storage layout of Dictionary64 (logics/utilities/Dictionary64.cs)
    as plain values, its well-formedness invariant, and how each update the
    table makes preserves it.

    The buckets hold the index of the first entry of each chain (-1 for an
    empty chain); each entry holds its hash code (negative for a removed
    slot), the index of the next entry of its chain or free list, its key and
    its value. The ghost Shadow names what the arrays encode: the chain of
    every bucket as a list of entry indices, the free list, and the slot of
    every key. */
module HashLayout {
  import opened Results

  /** Dictionary64.Entry; key and value None stand for default(TKey) and
      default(TValue). */
  datatype Entry<K, V> = Entry(hashCode: int, next: int, key: Option<K>, value: Option<V>)

  /** A freshly allocated entry: every field at its default. */
  function Blank<K, V>(): Entry<K, V> {
    Entry(0, 0, None, None)
  }

  /** The fields buckets, entries, count, freeList and freeCount. */
  datatype Layout<K, V> = Layout(buckets: seq<int>, entries: seq<Entry<K, V>>, count: int, freeList: int, freeCount: int)

  datatype Shadow<K> = Shadow(chains: seq<seq<int>>, free: seq<int>, slot: map<K, int>)

  function Head(c: seq<int>): int {
    if |c| == 0 then -1 else c[0]
  }

  function NextIn(c: seq<int>, k: int): int {
    if 0 <= k && k + 1 < |c| then c[k + 1] else -1
  }

  ghost predicate Distinct(c: seq<int>) {
    forall k1, k2 :: 0 <= k1 < k2 < |c| ==> c[k1] != c[k2]
  }

  ghost predicate ShapeOk<K, V>(t: Layout<K, V>, s: Shadow<K>) {
    && |t.buckets| == |t.entries|
    && 0 <= t.count <= |t.entries|
    && |s.chains| == |t.buckets|
    && t.freeCount == |s.free|
  }

  ghost predicate HeadsOk<K, V>(t: Layout<K, V>, s: Shadow<K>)
    requires ShapeOk(t, s)
  {
    forall b :: 0 <= b < |t.buckets| ==> t.buckets[b] == Head(s.chains[b])
  }

  /** Position k of the chain c of bucket b: a live entry below count whose
      hash code falls in bucket b and whose next field is the following
      position (or -1 at the end). */
  ghost predicate LinkOk<K, V>(t: Layout<K, V>, c: seq<int>, b: int, k: int)
    requires 0 <= k < |c|
  {
    var i := c[k];
    && 0 <= i < t.count && i < |t.entries|
    && t.entries[i].hashCode >= 0
    && t.entries[i].hashCode % |t.entries| == b
    && t.entries[i].next == NextIn(c, k)
  }

  ghost predicate ChainsOk<K, V>(t: Layout<K, V>, s: Shadow<K>) {
    && (forall b, k {:trigger LinkOk(t, s.chains[b], b, k)} :: 0 <= b < |s.chains| && 0 <= k < |s.chains[b]| ==> LinkOk(t, s.chains[b], b, k))
    && (forall b {:trigger Distinct(s.chains[b])} :: 0 <= b < |s.chains| ==> Distinct(s.chains[b]))
  }

  /** Position k of the free list: a removed entry below count linked to the
      following position. The last one's next field is not looked at. */
  ghost predicate FreeLinkOk<K, V>(t: Layout<K, V>, f: seq<int>, k: int)
    requires 0 <= k < |f|
  {
    var i := f[k];
    && 0 <= i < t.count && i < |t.entries|
    && t.entries[i].hashCode < 0
    && (k + 1 < |f| ==> t.entries[i].next == f[k + 1])
  }

  ghost predicate FreeOk<K, V>(t: Layout<K, V>, s: Shadow<K>) {
    && (|s.free| > 0 ==> t.freeList == s.free[0])
    && Distinct(s.free)
    && (forall k {:trigger FreeLinkOk(t, s.free, k)} :: 0 <= k < |s.free| ==> FreeLinkOk(t, s.free, k))
  }

  /** Every entry below count is on the chain of its bucket when live, on
      the free list when removed. */
  ghost predicate Covered<K, V>(t: Layout<K, V>, s: Shadow<K>)
    requires ShapeOk(t, s)
  {
    forall i {:trigger CoveredAt(t, s, i)} :: 0 <= i < t.count ==> CoveredAt(t, s, i)
  }

  ghost predicate CoveredAt<K, V>(t: Layout<K, V>, s: Shadow<K>, i: int)
    requires ShapeOk(t, s) && 0 <= i < t.count
  {
    if t.entries[i].hashCode >= 0 then i in s.chains[t.entries[i].hashCode % |t.entries|] else i in s.free
  }

  /** The slot of key k holds k and its value m[k]. */
  ghost predicate SlotHolds<K, V>(t: Layout<K, V>, i: int, k: K, v: V) {
    && 0 <= i < t.count && i < |t.entries|
    && t.entries[i].hashCode >= 0
    && t.entries[i].key == Some(k)
    && t.entries[i].value == Some(v)
  }

  /** A live entry holds a key whose hash is its hash code and whose slot it
      is. */
  ghost predicate LiveEntryOk<K, V>(hash: K -> nat, t: Layout<K, V>, s: Shadow<K>, i: int)
    requires 0 <= i < |t.entries|
  {
    && t.entries[i].key.Some?
    && t.entries[i].value.Some?
    && hash(t.entries[i].key.value) == t.entries[i].hashCode
    && t.entries[i].key.value in s.slot
    && s.slot[t.entries[i].key.value] == i
  }

  ghost predicate KeysOk<K, V>(hash: K -> nat, t: Layout<K, V>, s: Shadow<K>, m: map<K, V>)
    requires ShapeOk(t, s)
  {
    && s.slot.Keys == m.Keys
    && (forall k {:trigger KeySlotOk(t, s, m, k)} :: k in s.slot ==> KeySlotOk(t, s, m, k))
    && (forall i {:trigger LiveAt(hash, t, s, i)} :: 0 <= i < t.count ==> LiveAt(hash, t, s, i))
  }

  /** Key k of the map sits in its slot. */
  ghost predicate KeySlotOk<K, V>(t: Layout<K, V>, s: Shadow<K>, m: map<K, V>, k: K) {
    k in s.slot && k in m && SlotHolds(t, s.slot[k], k, m[k])
  }

  /** Entry i, when live, holds a key whose slot it is. */
  ghost predicate LiveAt<K, V>(hash: K -> nat, t: Layout<K, V>, s: Shadow<K>, i: int)
    requires 0 <= i < |t.entries|
  {
    t.entries[i].hashCode >= 0 ==> LiveEntryOk(hash, t, s, i)
  }

  /** The table invariant: the layout encodes the chains, the free list and
      the key slots of the shadow, and through them the map m. */
  ghost predicate Inv<K, V>(hash: K -> nat, t: Layout<K, V>, s: Shadow<K>, m: map<K, V>) {
    && ShapeOk(t, s)
    && HeadsOk(t, s)
    && ChainsOk(t, s)
    && FreeOk(t, s)
    && Covered(t, s)
    && KeysOk(hash, t, s, m)
  }

  /** The bucket of a hash code in a table of n buckets. */
  function BucketOf(hashCode: nat, n: int): (b: int)
    requires n > 0
    ensures 0 <= b < n
  {
    hashCode % n
  }

  /** A table whose arrays were never allocated (the source's null buckets). */
  function Unallocated<K, V>(): Layout<K, V> {
    Layout([], [], 0, 0, 0)
  }

  /** The layout Initialize builds: every bucket empty, every entry blank. */
  function Allocated<K, V>(size: nat): Layout<K, V> {
    Layout(seq(size, _ => -1), seq(size, _ => Blank()), 0, -1, 0)
  }

  function EmptyShadow<K>(size: nat): Shadow<K> {
    Shadow(seq(size, _ => []), [], map[])
  }

  lemma AllocatedInv<K, V>(hash: K -> nat, size: nat)
    ensures Inv(hash, Allocated<K, V>(size), EmptyShadow<K>(size), map[])
    ensures Inv(hash, Unallocated<K, V>(), EmptyShadow<K>(0), map[])
  {
    var t, s := Allocated<K, V>(size), EmptyShadow<K>(size);
    assert HeadsOk(t, s);
  }

  /** Free slots and key slots all lie below count. */
  lemma SlotsBelowCount<K, V>(hash: K -> nat, t: Layout<K, V>, s: Shadow<K>, m: map<K, V>)
    requires Inv(hash, t, s, m)
    ensures forall k :: 0 <= k < |s.free| ==> 0 <= s.free[k] < t.count
    ensures forall k :: k in s.slot ==> 0 <= s.slot[k] < t.count
  {
    forall k | 0 <= k < |s.free|
      ensures 0 <= s.free[k] < t.count
    {
      assert FreeLinkOk(t, s.free, k);
    }
    forall k | k in s.slot
      ensures 0 <= s.slot[k] < t.count
    {
      assert KeySlotOk(t, s, m, k);
    }
  }

  /** In a well-formed table a key is present iff its slot is in the chain of
      its bucket; the chain positions before the key's slot hold other keys. */
  lemma FindInChain<K, V>(hash: K -> nat, t: Layout<K, V>, s: Shadow<K>, m: map<K, V>, key: K)
    requires Inv(hash, t, s, m) && |t.entries| > 0
    requires key in m
    ensures s.slot[key] in s.chains[BucketOf(hash(key), |t.entries|)]
  {
    var i := s.slot[key];
    assert KeySlotOk(t, s, m, key);
    assert LiveAt(hash, t, s, i);
    assert CoveredAt(t, s, i);
  }

  /** A live entry at a chain position holds the key of its slot. */
  lemma ChainEntryKey<K, V>(hash: K -> nat, t: Layout<K, V>, s: Shadow<K>, m: map<K, V>, b: int, p: int)
    requires Inv(hash, t, s, m)
    requires 0 <= b < |s.chains| && 0 <= p < |s.chains[b]|
    ensures var i := s.chains[b][p];
            && 0 <= i < t.count && i < |t.entries|
            && t.entries[i].hashCode >= 0
            && t.entries[i].key.Some? && t.entries[i].key.value in m
            && s.slot[t.entries[i].key.value] == i
            && t.entries[i].value == Some(m[t.entries[i].key.value])
  {
    var i := s.chains[b][p];
    assert LinkOk(t, s.chains[b], b, p);
    assert LiveAt(hash, t, s, i);
    var k := t.entries[i].key.value;
    assert KeySlotOk(t, s, m, k);
  }

  /** No chain holds an entry that is removed or at or past count. */
  lemma NotInChains<K, V>(hash: K -> nat, t: Layout<K, V>, s: Shadow<K>, m: map<K, V>, index: int)
    requires Inv(hash, t, s, m)
    requires index >= t.count || (0 <= index < |t.entries| && t.entries[index].hashCode < 0)
    ensures forall b :: 0 <= b < |s.chains| ==> index !in s.chains[b]
    ensures forall k :: k in s.slot ==> s.slot[k] != index
  {
    forall b, p | 0 <= b < |s.chains| && 0 <= p < |s.chains[b]|
      ensures s.chains[b][p] != index
    {
      assert LinkOk(t, s.chains[b], b, p);
    }
    forall k | k in s.slot
      ensures s.slot[k] != index
    {
      assert KeySlotOk(t, s, m, k);
    }
  }

  /** The overwrite of a present key: only the value of its slot changes. */
  function SetValue<K, V>(t: Layout<K, V>, i: int, v: V): Layout<K, V>
  {
    if 0 <= i < |t.entries| then t.(entries := t.entries[i := t.entries[i].(value := Some(v))]) else t
  }

  lemma SetValueInv<K, V>(hash: K -> nat, t: Layout<K, V>, s: Shadow<K>, m: map<K, V>, key: K, v: V)
    requires Inv(hash, t, s, m) && key in m
    ensures 0 <= s.slot[key] < |t.entries|
    ensures Inv(hash, SetValue(t, s.slot[key], v), s, m[key := v])
  {
    var i := s.slot[key];
    assert KeySlotOk(t, s, m, key);
    var t', m' := SetValue(t, i, v), m[key := v];
    forall b, k | 0 <= b < |s.chains| && 0 <= k < |s.chains[b]|
      ensures LinkOk(t', s.chains[b], b, k)
    {
      assert LinkOk(t, s.chains[b], b, k);
    }
    forall k | 0 <= k < |s.free|
      ensures FreeLinkOk(t', s.free, k)
    {
      assert FreeLinkOk(t, s.free, k);
    }
    forall j | 0 <= j < t.count
      ensures CoveredAt(t', s, j)
    {
      assert CoveredAt(t, s, j);
    }
    forall k | k in s.slot
      ensures KeySlotOk(t', s, m', k)
    {
      assert KeySlotOk(t, s, m, k);
    }
    forall j | 0 <= j < t'.count
      ensures LiveAt(hash, t', s, j)
    {
      assert LiveAt(hash, t, s, j);
    }
  }

  /** Where a new key goes: the head of the free list when there is one,
      otherwise slot count, which the caller has made sure exists. */
  predicate SlotChoice<K, V>(t: Layout<K, V>, index: int) {
    if t.freeCount > 0 then index == t.freeList
    else index == t.count && t.count < |t.entries|
  }

  /** The slot a new key takes: the head of the free list, or slot count. */
  function SlotFor<K, V>(t: Layout<K, V>): int {
    if t.freeCount > 0 then t.freeList else t.count
  }

  /** Taking that slot: popping the free list, or advancing count. */
  function Taken<K, V>(t: Layout<K, V>): Layout<K, V>
    requires t.freeCount > 0 ==> 0 <= t.freeList < |t.entries|
  {
    if t.freeCount > 0 then t.(freeList := t.entries[t.freeList].next, freeCount := t.freeCount - 1)
    else t.(count := t.count + 1)
  }

  /** Storing a new entry at index in front of the chain of bucket tb. */
  function Store<K, V>(t: Layout<K, V>, index: int, tb: int, hashCode: int, key: K, v: V): Layout<K, V>
    requires 0 <= index < |t.entries| && 0 <= tb < |t.buckets|
  {
    t.(buckets := t.buckets[tb := index],
       entries := t.entries[index := Entry(hashCode, t.buckets[tb], Some(key), Some(v))])
  }

  /** A new key stored at index and pushed on the front of the chain of its
      bucket tb. */
  function InsertNew<K, V>(t: Layout<K, V>, index: int, tb: int, hashCode: int, key: K, v: V): Layout<K, V>
    requires 0 <= index < |t.entries| && 0 <= tb < |t.buckets|
    requires t.freeCount > 0 ==> 0 <= t.freeList < |t.entries|
  {
    Store(Taken(t), index, tb, hashCode, key, v)
  }

  function InsertShadow<K>(s: Shadow<K>, index: int, tb: int, key: K): Shadow<K>
    requires 0 <= tb < |s.chains|
  {
    Shadow(s.chains[tb := [index] + s.chains[tb]],
           if |s.free| > 0 then s.free[1..] else s.free,
           s.slot[key := index])
  }

  /** The facts every piece of the insertion proof starts from. */
  ghost predicate InsertPre<K, V>(hash: K -> nat, t: Layout<K, V>, s: Shadow<K>, m: map<K, V>, index: int, key: K) {
    && Inv(hash, t, s, m) && key !in m && |t.entries| > 0
    && SlotChoice(t, index)
    && 0 <= index < |t.entries|
    && (forall b :: 0 <= b < |s.chains| ==> index !in s.chains[b])
    && (forall k :: k in s.slot ==> s.slot[k] != index)
    && (t.freeCount > 0 ==> index < t.count && t.entries[index].hashCode < 0)
    && (t.freeCount > 0 ==> 0 <= t.freeList < |t.entries|)
  }

  lemma InsertChains<K, V>(hash: K -> nat, t: Layout<K, V>, s: Shadow<K>, m: map<K, V>, index: int, key: K, v: V)
    requires InsertPre(hash, t, s, m, index, key)
    ensures var tb := BucketOf(hash(key), |t.entries|);
            var t', s' := InsertNew(t, index, tb, hash(key), key, v), InsertShadow(s, index, tb, key);
            ShapeOk(t', s') && HeadsOk(t', s') && ChainsOk(t', s')
  {
    var tb := BucketOf(hash(key), |t.entries|);
    var t', s' := InsertNew(t, index, tb, hash(key), key, v), InsertShadow(s, index, tb, key);
    var c := s.chains[tb];
    assert ShapeOk(t', s');
    assert t.buckets[tb] == Head(c);
    forall b | 0 <= b < |t'.buckets|
      ensures t'.buckets[b] == Head(s'.chains[b])
    {
    }
    forall b, k | 0 <= b < |s'.chains| && 0 <= k < |s'.chains[b]|
      ensures LinkOk(t', s'.chains[b], b, k)
    {
      if b == tb && k == 0 {
      } else if b == tb {
        assert s'.chains[b][k] == c[k - 1];
        assert LinkOk(t, c, b, k - 1);
        assert c[k - 1] != index;
        assert NextIn(s'.chains[b], k) == NextIn(c, k - 1);
      } else {
        assert LinkOk(t, s.chains[b], b, k);
      }
    }
    forall b | 0 <= b < |s'.chains|
      ensures Distinct(s'.chains[b])
    {
      assert Distinct(s.chains[b]);
    }
  }

  lemma InsertFree<K, V>(hash: K -> nat, t: Layout<K, V>, s: Shadow<K>, m: map<K, V>, index: int, key: K, v: V)
    requires InsertPre(hash, t, s, m, index, key)
    ensures var tb := BucketOf(hash(key), |t.entries|);
            var t', s' := InsertNew(t, index, tb, hash(key), key, v), InsertShadow(s, index, tb, key);
            ShapeOk(t', s') && FreeOk(t', s') && Covered(t', s')
  {
    var tb := BucketOf(hash(key), |t.entries|);
    var t', s' := InsertNew(t, index, tb, hash(key), key, v), InsertShadow(s, index, tb, key);
    assert ShapeOk(t', s');
    if |s.free| > 1 {
      assert FreeLinkOk(t, s.free, 0);
    }
    forall k | 0 <= k < |s'.free|
      ensures FreeLinkOk(t', s'.free, k)
    {
      assert FreeLinkOk(t, s.free, k + 1);
    }
    forall i | 0 <= i < t'.count
      ensures CoveredAt(t', s', i)
    {
      if i != index {
        assert CoveredAt(t, s, i);
        if t.entries[i].hashCode < 0 {
          assert i in s.free;
          var p :| 0 <= p < |s.free| && s.free[p] == i;
          assert p != 0;
          assert s'.free[p - 1] == i;
        } else {
          var b := t.entries[i].hashCode % |t.entries|;
          assert i in s.chains[b];
        }
      }
    }
  }

  lemma InsertSlots<K, V>(hash: K -> nat, t: Layout<K, V>, s: Shadow<K>, m: map<K, V>, index: int, key: K, v: V)
    requires InsertPre(hash, t, s, m, index, key)
    ensures var tb := BucketOf(hash(key), |t.entries|);
            var t', s', m' := InsertNew(t, index, tb, hash(key), key, v), InsertShadow(s, index, tb, key), m[key := v];
            && s'.slot.Keys == m'.Keys
            && forall k :: k in s'.slot ==> KeySlotOk(t', s', m', k)
  {
    var tb := BucketOf(hash(key), |t.entries|);
    var t', s', m' := InsertNew(t, index, tb, hash(key), key, v), InsertShadow(s, index, tb, key), m[key := v];
    forall k | k in s'.slot
      ensures KeySlotOk(t', s', m', k)
    {
      if k != key {
        var i := s.slot[k];
        assert KeySlotOk(t, s, m, k);
        assert t'.entries[i] == t.entries[i];
      }
    }
  }

  lemma InsertLive<K, V>(hash: K -> nat, t: Layout<K, V>, s: Shadow<K>, m: map<K, V>, index: int, key: K, v: V)
    requires InsertPre(hash, t, s, m, index, key)
    ensures var tb := BucketOf(hash(key), |t.entries|);
            var t', s' := InsertNew(t, index, tb, hash(key), key, v), InsertShadow(s, index, tb, key);
            && |t'.entries| == |t.entries| && t'.count <= |t.entries|
            && forall j :: 0 <= j < t'.count ==> LiveAt(hash, t', s', j)
  {
    var tb := BucketOf(hash(key), |t.entries|);
    var t', s' := InsertNew(t, index, tb, hash(key), key, v), InsertShadow(s, index, tb, key);
    forall j | 0 <= j < t'.count
      ensures LiveAt(hash, t', s', j)
    {
      if j != index {
        assert t'.entries[j] == t.entries[j];
        assert LiveAt(hash, t, s, j);
        if t.entries[j].hashCode >= 0 {
          assert t.entries[j].key.value != key;
        }
      }
    }
  }

  lemma InsertNewInv<K, V>(hash: K -> nat, t: Layout<K, V>, s: Shadow<K>, m: map<K, V>, index: int, key: K, v: V)
    requires Inv(hash, t, s, m) && key !in m && |t.entries| > 0
    requires SlotChoice(t, index)
    ensures 0 <= index < |t.entries| && index == SlotFor(t)
    ensures t.freeCount > 0 ==> 0 <= t.freeList < |t.entries|
    ensures var tb := BucketOf(hash(key), |t.entries|);
            Inv(hash, InsertNew(t, index, tb, hash(key), key, v), InsertShadow(s, index, tb, key), m[key := v])
  {
    if t.freeCount > 0 {
      assert FreeLinkOk(t, s.free, 0);
    }
    NotInChains(hash, t, s, m, index);
    InsertChains(hash, t, s, m, index, key, v);
    InsertFree(hash, t, s, m, index, key, v);
    InsertSlots(hash, t, s, m, index, key, v);
    InsertLive(hash, t, s, m, index, key, v);
  }

  /** The removal of position pos of chain c of bucket b: its predecessor,
      or the bucket when it is the head, skips it, and the entry is cleared
      and pushed on the free list. */
  function Unlink<K, V>(t: Layout<K, V>, c: seq<int>, b: int, pos: int): Layout<K, V>
    requires 0 <= b < |t.buckets| && 0 <= pos < |c|
    requires forall k :: 0 <= k < |c| ==> 0 <= c[k] < |t.entries|
  {
    var i := c[pos];
    Release(Skip(t, b, i, if pos == 0 then -1 else c[pos - 1]), i)
  }

  /** The chain of bucket b skipping entry i: the bucket takes i's next
      when last is negative (i is the head), entry last does otherwise. */
  function Skip<K, V>(t: Layout<K, V>, b: int, i: int, last: int): Layout<K, V>
    requires 0 <= b < |t.buckets| && 0 <= i < |t.entries| && last < |t.entries|
  {
    var next := t.entries[i].next;
    if last < 0 then t.(buckets := t.buckets[b := next])
    else t.(entries := t.entries[last := t.entries[last].(next := next)])
  }

  /** Entry i cleared and pushed on the free list. */
  function Release<K, V>(t: Layout<K, V>, i: int): Layout<K, V>
    requires 0 <= i < |t.entries|
  {
    t.(entries := t.entries[i := Entry(-1, t.freeList, None, None)], freeList := i, freeCount := t.freeCount + 1)
  }

  function RemoveShadow<K>(s: Shadow<K>, b: int, pos: int, key: K): Shadow<K>
    requires 0 <= b < |s.chains| && 0 <= pos < |s.chains[b]|
  {
    var c := s.chains[b];
    Shadow(s.chains[b := c[..pos] + c[pos + 1..]], [c[pos]] + s.free, s.slot - {key})
  }

  /** Every chain position holds an index of the entries. */
  lemma ChainInRange<K, V>(t: Layout<K, V>, s: Shadow<K>, b: int)
    requires ShapeOk(t, s) && ChainsOk(t, s) && 0 <= b < |s.chains|
    ensures forall k :: 0 <= k < |s.chains[b]| ==> 0 <= s.chains[b][k] < |t.entries|
  {
    forall k | 0 <= k < |s.chains[b]|
      ensures 0 <= s.chains[b][k] < |t.entries|
    {
      assert LinkOk(t, s.chains[b], b, k);
    }
  }

  ghost predicate RemovePre<K, V>(hash: K -> nat, t: Layout<K, V>, s: Shadow<K>, m: map<K, V>, b: int, pos: int, key: K) {
    && Inv(hash, t, s, m) && key in m
    && |t.entries| > 0 && b == BucketOf(hash(key), |t.entries|)
    && 0 <= pos < |s.chains[b]| && s.chains[b][pos] == s.slot[key]
    && (forall k :: 0 <= k < |s.chains[b]| ==> 0 <= s.chains[b][k] < |t.entries|)
  }

  lemma RemoveLinkAt<K, V>(t: Layout<K, V>, s: Shadow<K>, b: int, pos: int, key: K, bb: int, k: int)
    requires ShapeOk(t, s) && ChainsOk(t, s) && |t.entries| > 0
    requires 0 <= b < |s.chains| && 0 <= pos < |s.chains[b]|
    requires forall k :: 0 <= k < |s.chains[b]| ==> 0 <= s.chains[b][k] < |t.entries|
    requires 0 <= bb < |s.chains| && 0 <= k < |RemoveShadow(s, b, pos, key).chains[bb]|
    ensures LinkOk(Unlink(t, s.chains[b], b, pos), RemoveShadow(s, b, pos, key).chains[bb], bb, k)
  {
    var c := s.chains[b];
    var t', s' := Unlink(t, c, b, pos), RemoveShadow(s, b, pos, key);
    var c' := s'.chains[b];
    assert LinkOk(t, c, b, pos);
    assert Distinct(c);
    if pos > 0 {
      assert LinkOk(t, c, b, pos - 1);
    }
    if bb == b {
      if k < pos - 1 {
        assert c'[k] == c[k] && c'[k + 1] == c[k + 1];
        assert LinkOk(t, c, b, k);
      } else if k == pos - 1 {
        assert c'[k] == c[k];
        assert NextIn(c', k) == NextIn(c, pos);
      } else {
        assert c'[k] == c[k + 1];
        assert LinkOk(t, c, b, k + 1);
        assert NextIn(c', k) == NextIn(c, k + 1);
      }
    } else {
      assert LinkOk(t, s.chains[bb], bb, k);
    }
  }

  lemma RemoveChains<K, V>(hash: K -> nat, t: Layout<K, V>, s: Shadow<K>, m: map<K, V>, b: int, pos: int, key: K)
    requires RemovePre(hash, t, s, m, b, pos, key)
    ensures var c := s.chains[b];
            var t', s' := Unlink(t, c, b, pos), RemoveShadow(s, b, pos, key);
            ShapeOk(t', s') && HeadsOk(t', s') && ChainsOk(t', s')
  {
    var c := s.chains[b];
    var t', s' := Unlink(t, c, b, pos), RemoveShadow(s, b, pos, key);
    var c' := s'.chains[b];
    assert LinkOk(t, c, b, pos);
    assert ShapeOk(t', s');
    assert t.buckets[b] == Head(c);
    forall bb | 0 <= bb < |t'.buckets|
      ensures t'.buckets[bb] == Head(s'.chains[bb])
    {
      if bb == b && pos > 0 {
        assert c'[0] == c[0];
      }
    }
    forall bb, k | 0 <= bb < |s'.chains| && 0 <= k < |s'.chains[bb]|
      ensures LinkOk(t', s'.chains[bb], bb, k)
    {
      RemoveLinkAt(t, s, b, pos, key, bb, k);
    }
    forall bb | 0 <= bb < |s'.chains|
      ensures Distinct(s'.chains[bb])
    {
      assert Distinct(s.chains[bb]);
      if bb == b {
        forall k1, k2 | 0 <= k1 < k2 < |c'|
          ensures c'[k1] != c'[k2]
        {
          var j1 := if k1 < pos then k1 else k1 + 1;
          var j2 := if k2 < pos then k2 else k2 + 1;
          assert c'[k1] == c[j1] && c'[k2] == c[j2];
        }
      }
    }
  }

  lemma RemoveFree<K, V>(hash: K -> nat, t: Layout<K, V>, s: Shadow<K>, m: map<K, V>, b: int, pos: int, key: K)
    requires RemovePre(hash, t, s, m, b, pos, key)
    ensures var c := s.chains[b];
            var t', s' := Unlink(t, c, b, pos), RemoveShadow(s, b, pos, key);
            ShapeOk(t', s') && FreeOk(t', s') && Covered(t', s')
  {
    var c := s.chains[b];
    var t', s' := Unlink(t, c, b, pos), RemoveShadow(s, b, pos, key);
    var i := c[pos];
    var c' := s'.chains[b];
    assert LinkOk(t, c, b, pos);
    if pos > 0 {
      assert LinkOk(t, c, b, pos - 1);
    }
    assert ShapeOk(t', s');
    forall k | 0 <= k < |s.free|
      ensures s.free[k] != i
    {
      assert FreeLinkOk(t, s.free, k);
    }
    forall k | 0 <= k < |s'.free|
      ensures FreeLinkOk(t', s'.free, k)
    {
      if k > 0 {
        assert FreeLinkOk(t, s.free, k - 1);
      }
    }
    assert Distinct(s.free);
    forall i | 0 <= i < t'.count
      ensures CoveredAt(t', s', i)
    {
      if i != c[pos] {
        assert CoveredAt(t, s, i);
        if t.entries[i].hashCode < 0 {
          assert i in s.free;
        } else {
          var bi := t.entries[i].hashCode % |t.entries|;
          assert i in s.chains[bi];
          if bi == b {
            var p :| 0 <= p < |c| && c[p] == i;
            if p < pos {
              assert c'[p] == i;
            } else {
              assert c'[p - 1] == i;
            }
          }
        }
      }
    }
  }

  /** Unlinking changes only next fields, except at the cleared entry. */
  lemma UnlinkKeepsEntries<K, V>(t: Layout<K, V>, c: seq<int>, b: int, pos: int)
    requires 0 <= b < |t.buckets| && 0 <= pos < |c|
    requires forall k :: 0 <= k < |c| ==> 0 <= c[k] < |t.entries|
    ensures var t' := Unlink(t, c, b, pos);
            && |t'.entries| == |t.entries| && |t'.buckets| == |t.buckets| && t'.count == t.count
            && t'.entries[c[pos]] == Entry(-1, t.freeList, None, None)
            && forall j :: 0 <= j < |t.entries| && j != c[pos] ==>
                 t'.entries[j] == t.entries[j].(next := t'.entries[j].next)
  {
  }

  lemma RemoveKeys<K, V>(hash: K -> nat, t: Layout<K, V>, s: Shadow<K>, m: map<K, V>, b: int, pos: int, key: K)
    requires RemovePre(hash, t, s, m, b, pos, key)
    ensures var c := s.chains[b];
            var t', s' := Unlink(t, c, b, pos), RemoveShadow(s, b, pos, key);
            ShapeOk(t', s') && KeysOk(hash, t', s', m - {key})
  {
    var c := s.chains[b];
    var t', s', m' := Unlink(t, c, b, pos), RemoveShadow(s, b, pos, key), m - {key};
    var i := c[pos];
    UnlinkKeepsEntries(t, c, b, pos);
    assert KeySlotOk(t, s, m, key);
    assert ShapeOk(t', s');
    forall k | k in s'.slot
      ensures KeySlotOk(t', s', m', k)
    {
      assert KeySlotOk(t, s, m, k);
    }
    forall j | 0 <= j < t'.count
      ensures LiveAt(hash, t', s', j)
    {
      assert LiveAt(hash, t, s, j);
    }
  }

  lemma RemoveInv<K, V>(hash: K -> nat, t: Layout<K, V>, s: Shadow<K>, m: map<K, V>, b: int, pos: int, key: K)
    requires Inv(hash, t, s, m) && key in m
    requires |t.entries| > 0 && b == BucketOf(hash(key), |t.entries|)
    requires 0 <= pos < |s.chains[b]| && s.chains[b][pos] == s.slot[key]
    ensures forall k :: 0 <= k < |s.chains[b]| ==> 0 <= s.chains[b][k] < |t.entries|
    ensures Inv(hash, Unlink(t, s.chains[b], b, pos), RemoveShadow(s, b, pos, key), m - {key})
  {
    ChainInRange(t, s, b);
    RemoveChains(hash, t, s, m, b, pos, key);
    RemoveFree(hash, t, s, m, b, pos, key);
    RemoveKeys(hash, t, s, m, b, pos, key);
  }

  /** Entry j of the new array during the rehash loop, when entries below i
      have been relinked: the old entry with only its next field changed
      below i, the old entry itself up to count, blank past it. */
  ghost predicate Copied<K, V>(t: Layout<K, V>, es: seq<Entry<K, V>>, i: int, j: int)
    requires 0 <= j < |es| && t.count <= |t.entries|
  {
    if j >= t.count then es[j] == Blank()
    else if j < i then es[j] == t.entries[j].(next := es[j].next)
    else es[j] == t.entries[j]
  }

  /** Chains with no free list and no key slots. */
  function Bare<K>(ch: seq<seq<int>>): Shadow<K> {
    Shadow(ch, [], map[])
  }

  /** The state of Resize after relinking entries 0 .. i-1 into n new
      buckets whose chains are ch. */
  ghost predicate RebuildOk<K, V>(t: Layout<K, V>, n: int, bs: seq<int>, es: seq<Entry<K, V>>, ch: seq<seq<int>>, i: int) {
    && 0 <= t.count <= |t.entries| && t.count <= n
    && |bs| == n && |es| == n && |ch| == n && 0 <= i <= t.count
    && (forall j :: 0 <= j < n ==> Copied(t, es, i, j))
    && (forall bb :: 0 <= bb < n ==> bs[bb] == Head(ch[bb]))
    && ChainsOk(Layout(bs, es, i, 0, 0), Bare<K>(ch))
    && (forall j :: 0 <= j < i && es[j].hashCode >= 0 ==> j in ch[es[j].hashCode % n])
  }

  lemma RebuildStart<K, V>(t: Layout<K, V>, n: int, bs: seq<int>, es: seq<Entry<K, V>>)
    requires 0 <= t.count <= |t.entries| && t.count <= n
    requires |bs| == n && |es| == n
    requires forall j :: 0 <= j < n ==> bs[j] == -1
    requires forall j :: 0 <= j < n ==> es[j] == if j < t.count then t.entries[j] else Blank()
    ensures RebuildOk(t, n, bs, es, seq(n, _ => []), 0)
  {
    forall j | 0 <= j < n
      ensures Copied(t, es, 0, j)
    {
    }
  }

  /** One iteration of the rehash loop: a live entry i goes on the front of
      the chain of its new bucket. */
  function RelinkBuckets<K, V>(n: int, bs: seq<int>, es: seq<Entry<K, V>>, i: int): seq<int>
    requires n > 0 && |bs| == n && 0 <= i < |es|
  {
    if es[i].hashCode >= 0 then bs[es[i].hashCode % n := i] else bs
  }

  function RelinkEntries<K, V>(n: int, bs: seq<int>, es: seq<Entry<K, V>>, i: int): seq<Entry<K, V>>
    requires n > 0 && |bs| == n && 0 <= i < |es|
  {
    if es[i].hashCode >= 0 then es[i := es[i].(next := bs[es[i].hashCode % n])] else es
  }

  function RelinkChains<K, V>(n: int, ch: seq<seq<int>>, es: seq<Entry<K, V>>, i: int): seq<seq<int>>
    requires n > 0 && |ch| == n && 0 <= i < |es|
  {
    if es[i].hashCode >= 0 then ch[es[i].hashCode % n := [i] + ch[es[i].hashCode % n]] else ch
  }

  lemma RebuildStep<K, V>(t: Layout<K, V>, n: int, bs: seq<int>, es: seq<Entry<K, V>>, ch: seq<seq<int>>, i: int)
    requires RebuildOk(t, n, bs, es, ch, i) && i < t.count
    ensures RebuildOk(t, n, RelinkBuckets(n, bs, es, i), RelinkEntries(n, bs, es, i), RelinkChains(n, ch, es, i), i + 1)
  {
    var bs', es', ch' := RelinkBuckets(n, bs, es, i), RelinkEntries(n, bs, es, i), RelinkChains(n, ch, es, i);
    var u, u' := Layout(bs, es, i, 0, 0), Layout(bs', es', i + 1, 0, 0);
    assert Copied(t, es, i, i);
    var i1 := i + 1;
    forall j | 0 <= j < n
      ensures Copied(t, es', i1, j)
    {
      assert Copied(t, es, i, j);
    }
    forall bb, k | 0 <= bb < n && 0 <= k < |ch'[bb]|
      ensures LinkOk(u', ch'[bb], bb, k)
    {
      if es[i].hashCode >= 0 && bb == es[i].hashCode % n {
        if k > 0 {
          assert ch'[bb][k] == ch[bb][k - 1];
          assert LinkOk(u, ch[bb], bb, k - 1);
          assert NextIn(ch'[bb], k) == NextIn(ch[bb], k - 1);
        }
      } else {
        assert LinkOk(u, ch[bb], bb, k);
      }
    }
    forall bb | 0 <= bb < n
      ensures Distinct(ch'[bb])
    {
      assert Distinct(ch[bb]);
      if es[i].hashCode >= 0 && bb == es[i].hashCode % n {
        forall k | 0 <= k < |ch[bb]|
          ensures ch[bb][k] != i
        {
          assert LinkOk(u, ch[bb], bb, k);
        }
      }
    }
    forall j | 0 <= j < i + 1 && es'[j].hashCode >= 0
      ensures j in ch'[es'[j].hashCode % n]
    {
      if j < i {
        assert j in ch[es[j].hashCode % n];
      }
    }
  }

  /** When the loop has relinked every entry, the new arrays encode the same
      map: every key keeps its slot. A table without removed entries has
      only live ones below count. */
  lemma RebuildInv<K, V>(hash: K -> nat, t: Layout<K, V>, s: Shadow<K>, m: map<K, V>, n: int, bs: seq<int>, es: seq<Entry<K, V>>, ch: seq<seq<int>>)
    requires Inv(hash, t, s, m) && |s.free| == 0 && n > 0
    requires RebuildOk(t, n, bs, es, ch, t.count)
    ensures Inv(hash, Layout(bs, es, t.count, t.freeList, 0), Shadow(ch, [], s.slot), m)
  {
    var t', s' := Layout(bs, es, t.count, t.freeList, 0), Shadow(ch, [], s.slot);
    assert ChainsOk(Layout(bs, es, t.count, 0, 0), Bare<K>(ch));
    forall bb, k | 0 <= bb < n && 0 <= k < |ch[bb]|
      ensures LinkOk(t', ch[bb], bb, k)
    {
      assert LinkOk(Layout(bs, es, t.count, 0, 0), ch[bb], bb, k);
    }
    forall j | 0 <= j < t.count
      ensures es[j].hashCode >= 0 && j in ch[es[j].hashCode % n]
    {
      assert Copied(t, es, t.count, j);
      assert CoveredAt(t, s, j);
    }
    forall k | k in s.slot
      ensures KeySlotOk(t', s', m, k)
    {
      assert KeySlotOk(t, s, m, k);
      assert Copied(t, es, t.count, s.slot[k]);
    }
    forall j | 0 <= j < t.count
      ensures LiveAt(hash, t', s', j)
    {
      assert Copied(t, es, t.count, j);
      assert LiveAt(hash, t, s, j);
    }
  }
}
