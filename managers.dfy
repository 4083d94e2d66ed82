/** Manager<T> (logics/managers/Manager.cs) over ManagerBase
    (logics/managers/ManagerBase.cs): each concrete manager type T has one
    static instance slot, taken by the first manager of that type to
    initialise. Also the order MainManager puts its managers in: a stable
    ascending sort by priority (LINQ OrderBy, a library call, here the
    function StableByPriority) and the filter of the managers whose
    Initialize succeeds.

    The virtual hooks Ready, AllManagersReady, Process and PhysicsProcess
    have empty bodies in the base class; their calls are recorded in the
    ghost log `calls` so that their order can be stated. */
module Managers {
  import opened Results

  /** A signed byte, the type of a manager's priority. */
  type SByte = x: int | -128 <= x < 128

  /** The methods of a manager whose calls are observed. */
  datatype Hook = OnInitialize | OnReady | OnAllManagersReady | OnProcess | OnPhysicsProcess

  /** One observable call on a manager. */
  datatype Call = Call(hook: Hook, manager: ManagerBase)

  /** The calls of one hook on each of ms, in order. */
  function CallsOf(hook: Hook, ms: seq<ManagerBase>): (r: seq<Call>)
    ensures |r| == |ms| && forall j :: 0 <= j < |ms| ==> r[j] == Call(hook, ms[j])
  {
    seq(|ms|, j requires 0 <= j < |ms| => Call(hook, ms[j]))
  }

  /** Calling a hook on one more manager extends the log by that call. */
  lemma CallsOfSnoc(hook: Hook, ms: seq<ManagerBase>, k: nat)
    requires k < |ms|
    ensures CallsOf(hook, ms[..k + 1]) == CallsOf(hook, ms[..k]) + [Call(hook, ms[k])]
  {
    assert CallsOf(hook, ms[..k + 1])[k] == Call(hook, ms[k]);
  }

  /** The static state: MainManager.instance, the instance slot of each
      manager type, and the log of calls made on managers. */
  class Statics {
    var mainInstance: object?
    var instances: map<int, ManagerBase>
    ghost var calls: seq<Call>

    /** The slot of type kind holds a manager of that type, as the static
        field of Manager<T> has type T. */
    predicate Valid()
      reads this
    {
      forall k :: k in instances ==> instances[k].kind == k
    }

    constructor ()
      ensures mainInstance == null && instances == map[] && calls == []
      ensures Valid()
    {
      mainInstance := null;
      instances := map[];
      calls := [];
    }

    /** Manager<T>.Instance: null (None) until a manager of type kind
        initialises, then that manager. */
    function Instance(kind: int): (r: Option<ManagerBase>)
      reads this
      requires Valid()
      ensures r.Some? <==> kind in instances
      ensures r.Some? ==> r.value.kind == kind
    {
      if kind in instances then Some(instances[kind]) else None
    }
  }

  class ManagerBase {
    /** The concrete type T of this Manager<T>. */
    const kind: int
    const priority: SByte
    var active: bool

    constructor (kind: int, priority: SByte, active: bool)
      ensures this.kind == kind && this.priority == priority && this.active == active
    {
      this.kind := kind;
      this.priority := priority;
      this.active := active;
    }

    /** Manager<T>.Initialize: the first manager of its type takes the type's
        instance slot and answers true; any later one answers false and the
        slot keeps its manager. */
    method Initialize(statics: Statics) returns (ok: bool)
      modifies statics`instances, statics`calls
      ensures ok <==> kind !in old(statics.instances)
      ensures statics.instances == if ok then old(statics.instances)[kind := this] else old(statics.instances)
      ensures statics.calls == old(statics.calls) + [Call(OnInitialize, this)]
      ensures old(statics.Valid()) ==> statics.Valid()
    {
      statics.calls := statics.calls + [Call(OnInitialize, this)];
      if kind in statics.instances {
        return false;
      }
      statics.instances := statics.instances[kind := this];
      return true;
    }

    /** The hooks, recorded in the call log. */
    method ReadyHook(statics: Statics)
      modifies statics`calls
      ensures statics.calls == old(statics.calls) + [Call(OnReady, this)]
    {
      statics.calls := statics.calls + [Call(OnReady, this)];
    }

    method AllManagersReadyHook(statics: Statics)
      modifies statics`calls
      ensures statics.calls == old(statics.calls) + [Call(OnAllManagersReady, this)]
    {
      statics.calls := statics.calls + [Call(OnAllManagersReady, this)];
    }

    method ProcessHook(statics: Statics)
      modifies statics`calls
      ensures statics.calls == old(statics.calls) + [Call(OnProcess, this)]
    {
      statics.calls := statics.calls + [Call(OnProcess, this)];
    }

    method PhysicsProcessHook(statics: Statics)
      modifies statics`calls
      ensures statics.calls == old(statics.calls) + [Call(OnPhysicsProcess, this)]
    {
      statics.calls := statics.calls + [Call(OnPhysicsProcess, this)];
    }
  }

  /** The slot map after Initialize has run on each of ms in order. */
  function Registered(ms: seq<ManagerBase>, slots: map<int, ManagerBase>): map<int, ManagerBase>
    decreases |ms|
  {
    if ms == [] then slots
    else
      var before := Registered(ms[..|ms| - 1], slots);
      var m := ms[|ms| - 1];
      if m.kind in before then before else before[m.kind := m]
  }

  /** The managers of ms, in order, whose Initialize answered true. */
  function Survivors(ms: seq<ManagerBase>, slots: map<int, ManagerBase>): seq<ManagerBase>
    decreases |ms|
  {
    if ms == [] then []
    else
      var m := ms[|ms| - 1];
      Survivors(ms[..|ms| - 1], slots) + if m.kind in Registered(ms[..|ms| - 1], slots) then [] else [m]
  }

  /** Initialize leaves a slot for every type of ms, besides the old ones. */
  lemma {:induction false} RegisteredKeys(ms: seq<ManagerBase>, slots: map<int, ManagerBase>)
    ensures Registered(ms, slots).Keys == slots.Keys + set m | m in ms :: m.kind
    decreases |ms|
  {
    if ms != [] {
      var front := ms[..|ms| - 1];
      RegisteredKeys(front, slots);
      assert ms == front + [ms[|ms| - 1]];
      assert (set m | m in ms :: m.kind) == (set m | m in front :: m.kind) + {ms[|ms| - 1].kind};
    }
  }

  /** A slot that was taken keeps its instance. */
  lemma {:induction false} RegisteredKeeps(ms: seq<ManagerBase>, slots: map<int, ManagerBase>)
    ensures forall k :: k in slots ==> k in Registered(ms, slots) && Registered(ms, slots)[k] == slots[k]
    decreases |ms|
  {
    if ms != [] {
      RegisteredKeeps(ms[..|ms| - 1], slots);
    }
  }

  /** Initialize only ever fills the slot of a manager's own type, so a slot
      map whose every slot holds a manager of its type keeps that property. */
  lemma {:induction false} RegisteredKinds(ms: seq<ManagerBase>, slots: map<int, ManagerBase>)
    requires forall k :: k in slots ==> slots[k].kind == k
    ensures forall k :: k in Registered(ms, slots) ==> Registered(ms, slots)[k].kind == k
    decreases |ms|
  {
    if ms != [] {
      RegisteredKinds(ms[..|ms| - 1], slots);
    }
  }

  /** A survivor comes from ms, took a slot that was free, and still holds
      it; a dropped manager's type already had an instance. */
  lemma {:induction false} SurvivorsRegistered(ms: seq<ManagerBase>, slots: map<int, ManagerBase>)
    ensures Registered(ms, slots).Keys == slots.Keys + set m | m in ms :: m.kind
    ensures forall m :: m in Survivors(ms, slots) ==>
              m in ms && m.kind !in slots && m.kind in Registered(ms, slots) && Registered(ms, slots)[m.kind] == m
    ensures forall k :: k in slots ==> Registered(ms, slots)[k] == slots[k]
    decreases |ms|
  {
    RegisteredKeys(ms, slots);
    RegisteredKeeps(ms, slots);
    if ms != [] {
      var front, last := ms[..|ms| - 1], ms[|ms| - 1];
      SurvivorsRegistered(front, slots);
      assert ms == front + [last];
      var before, after := Registered(front, slots), Registered(ms, slots);
      forall m | m in Survivors(ms, slots)
        ensures m in ms && m.kind !in slots && m.kind in after && after[m.kind] == m
      {
        if m in Survivors(front, slots) {
          assert m.kind in before && before[m.kind] == m;
        } else {
          assert m == last && last.kind !in before;
        }
      }
    }
  }

  /** No two managers of ms share a type. */
  ghost predicate DistinctKinds(ms: seq<ManagerBase>) {
    forall i, j :: 0 <= i < j < |ms| ==> ms[i].kind != ms[j].kind
  }

  /** No two survivors share a type. */
  lemma {:induction false} SurvivorsDistinctKinds(ms: seq<ManagerBase>, slots: map<int, ManagerBase>)
    ensures DistinctKinds(Survivors(ms, slots))
    decreases |ms|
  {
    if ms != [] {
      var front, last := ms[..|ms| - 1], ms[|ms| - 1];
      SurvivorsDistinctKinds(front, slots);
      SurvivorsRegistered(front, slots);
      var s := Survivors(front, slots);
      forall i | 0 <= i < |s|
        ensures s[i].kind in Registered(front, slots)
      {
        assert s[i] in s;
      }
      var all := Survivors(ms, slots);
      assert all == s + if last.kind in Registered(front, slots) then [] else [last];
      forall i, j | 0 <= i < j < |all|
        ensures all[i].kind != all[j].kind
      {
        if j < |s| {
          assert DistinctKinds(s);
          assert all[i] == s[i] && all[j] == s[j];
        } else {
          assert last.kind !in Registered(front, slots);
          assert all[i] == s[i] && all[j] == last;
          assert s[i].kind in Registered(front, slots);
        }
      }
    }
  }

  /** The managers of ms with priority p, in their order. */
  function WithPriority(ms: seq<ManagerBase>, p: int): (r: seq<ManagerBase>)
    ensures forall m :: m in r ==> m in ms && m.priority == p
  {
    if ms == [] then []
    else (if ms[0].priority == p then [ms[0]] else []) + WithPriority(ms[1..], p)
  }

  /** The managers of ms with priority at least p, in their order. */
  function AtLeast(ms: seq<ManagerBase>, p: int): (r: seq<ManagerBase>)
    ensures forall m :: m in r ==> m in ms && m.priority >= p
  {
    if ms == [] then []
    else (if ms[0].priority >= p then [ms[0]] else []) + AtLeast(ms[1..], p)
  }

  /** The priority groups from p up to 127, each in its original order. */
  function FromPriority(ms: seq<ManagerBase>, p: int): (r: seq<ManagerBase>)
    ensures forall m :: m in r ==> m in ms && m.priority >= p
    decreases 128 - p
  {
    if p >= 128 then [] else WithPriority(ms, p) + FromPriority(ms, p + 1)
  }

  /** OrderBy(x => x.Priority): a stable sort by ascending priority. */
  function StableByPriority(ms: seq<ManagerBase>): seq<ManagerBase> {
    FromPriority(ms, -128)
  }

  /** Ascending priority. */
  ghost predicate SortedByPriority(ms: seq<ManagerBase>) {
    forall i, j :: 0 <= i < j < |ms| ==> ms[i].priority <= ms[j].priority
  }

  lemma {:induction false} FromPrioritySorted(ms: seq<ManagerBase>, p: int)
    ensures SortedByPriority(FromPriority(ms, p))
    decreases 128 - p
  {
    if p < 128 {
      FromPrioritySorted(ms, p + 1);
      var w, rest := WithPriority(ms, p), FromPriority(ms, p + 1);
      var all: seq<ManagerBase> := w + rest;
      forall i, j | 0 <= i < j < |all|
        ensures all[i].priority <= all[j].priority
      {
        if j < |w| {
          assert w[i] in w && w[j] in w;
        } else if i < |w| {
          assert w[i] in w && rest[j - |w|] in rest;
        } else {
          assert all[i] == rest[i - |w|] && all[j] == rest[j - |w|];
        }
      }
    }
  }

  lemma {:induction false} AtLeastSplits(ms: seq<ManagerBase>, p: int)
    ensures multiset(AtLeast(ms, p)) == multiset(WithPriority(ms, p)) + multiset(AtLeast(ms, p + 1))
  {
    if ms != [] {
      AtLeastSplits(ms[1..], p);
    }
  }

  lemma {:induction false} FromPriorityPermutes(ms: seq<ManagerBase>, p: int)
    requires p >= -128
    ensures multiset(FromPriority(ms, p)) == multiset(AtLeast(ms, p))
    decreases 128 - p
  {
    if p < 128 {
      FromPriorityPermutes(ms, p + 1);
      AtLeastSplits(ms, p);
    } else {
      AtLeastNone(ms, p);
    }
  }

  lemma {:induction false} AtLeastNone(ms: seq<ManagerBase>, p: int)
    requires p >= 128
    ensures AtLeast(ms, p) == []
  {
    if ms != [] {
      AtLeastNone(ms[1..], p);
    }
  }

  lemma {:induction false} AtLeastAll(ms: seq<ManagerBase>)
    ensures AtLeast(ms, -128) == ms
  {
    if ms != [] {
      AtLeastAll(ms[1..]);
      assert ms == [ms[0]] + ms[1..];
    }
  }

  lemma {:induction false} WithPriorityConcat(a: seq<ManagerBase>, b: seq<ManagerBase>, p: int)
    ensures WithPriority(a + b, p) == WithPriority(a, p) + WithPriority(b, p)
  {
    if a == [] {
      assert a + b == b;
    } else {
      var head := if a[0].priority == p then [a[0]] else [];
      var ab := a + b;
      assert ab[0] == a[0] && ab[1..] == a[1..] + b;
      WithPriorityConcat(a[1..], b, p);
      calc {
        WithPriority(ab, p);
        head + WithPriority(a[1..] + b, p);
        head + (WithPriority(a[1..], p) + WithPriority(b, p));
        (head + WithPriority(a[1..], p)) + WithPriority(b, p);
      }
    }
  }

  lemma {:induction false} WithPriorityTwice(ms: seq<ManagerBase>, p: int, q: int)
    ensures WithPriority(WithPriority(ms, q), p) == if p == q then WithPriority(ms, p) else []
  {
    if ms != [] {
      WithPriorityTwice(ms[1..], p, q);
      var head := if ms[0].priority == q then [ms[0]] else [];
      WithPriorityConcat(head, WithPriority(ms[1..], q), p);
    }
  }

  lemma {:induction false} FromPriorityGroup(ms: seq<ManagerBase>, p: int, q: int)
    ensures WithPriority(FromPriority(ms, q), p) == if q <= p < 128 then WithPriority(ms, p) else []
    decreases 128 - q
  {
    if q < 128 {
      FromPriorityGroup(ms, p, q + 1);
      WithPriorityConcat(WithPriority(ms, q), FromPriority(ms, q + 1), p);
      WithPriorityTwice(ms, p, q);
    }
  }

  /** OrderBy sorts ascending, permutes, and is stable: the managers of any
      one priority keep their original order. */
  lemma StableByPriorityIsStableSort(ms: seq<ManagerBase>)
    ensures SortedByPriority(StableByPriority(ms))
    ensures multiset(StableByPriority(ms)) == multiset(ms)
    ensures forall p: SByte :: WithPriority(StableByPriority(ms), p) == WithPriority(ms, p)
  {
    FromPrioritySorted(ms, -128);
    FromPriorityPermutes(ms, -128);
    AtLeastAll(ms);
    forall p: SByte
      ensures WithPriority(StableByPriority(ms), p) == WithPriority(ms, p)
    {
      FromPriorityGroup(ms, p, -128);
    }
  }

  /** Filtering a sorted list keeps it sorted. */
  lemma {:induction false} SurvivorsSorted(ms: seq<ManagerBase>, slots: map<int, ManagerBase>)
    requires SortedByPriority(ms)
    ensures SortedByPriority(Survivors(ms, slots))
    decreases |ms|
  {
    if ms != [] {
      var front := ms[..|ms| - 1];
      var last := ms[|ms| - 1];
      SurvivorsSorted(front, slots);
      SurvivorsRegistered(front, slots);
      var s := Survivors(front, slots);
      forall i | 0 <= i < |s|
        ensures s[i].priority <= last.priority
      {
        assert s[i] in s;
        var k :| 0 <= k < |front| && front[k] == s[i];
      }
    }
  }
}
