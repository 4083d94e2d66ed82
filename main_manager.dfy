/** MainManager (logics/managers/MainManager.cs): the node that starts the
    game's managers. On _Ready it sorts them by priority, initialises them
    lowest priority first, drops those whose type already has an instance,
    and then calls Ready on every survivor before AllManagersReady on any.
    Every frame it calls Process (and every physics frame PhysicsProcess) on
    the active survivors.

    The static MainManager.instance is Statics.mainInstance; the exported
    managers array is the sequence `managers`, which _Ready reassigns. */
module MainManagers {
  import opened Results
  import opened Managers

  datatype MainManagerError =
    | MultipleMainManagers  // the exception of a second _Ready

  /** s backwards: List.Reverse and Enumerable.Reverse. */
  function Reverse<T>(s: seq<T>): (r: seq<T>)
    ensures |r| == |s| && forall j :: 0 <= j < |s| ==> r[j] == s[|s| - 1 - j]
  {
    seq(|s|, j requires 0 <= j < |s| => s[|s| - 1 - j])
  }

  /** Reversing twice gives the sequence back. */
  lemma ReverseReverse<T>(s: seq<T>)
    ensures Reverse(Reverse(s)) == s
  {
    var r := Reverse(Reverse(s));
    forall j | 0 <= j < |s|
      ensures r[j] == s[j]
    {
      assert Reverse(s)[|s| - 1 - j] == s[j];
    }
  }

  /** An element appended to s comes first in s backwards. */
  lemma ReverseSnoc<T>(s: seq<T>, x: T)
    ensures Reverse(s + [x]) == [x] + Reverse(s)
  {
    var a, b := Reverse(s + [x]), [x] + Reverse(s);
    forall j | 0 <= j < |a|
      ensures a[j] == b[j]
    {
      if j > 0 {
        assert (s + [x])[|s| - j] == s[|s| - j];
      }
    }
  }

  /** The front of s backwards grows by the next element of s from the end. */
  lemma ReversePrefixStep<T>(s: seq<T>, i: nat)
    requires i < |s|
    ensures Reverse(s)[..i + 1] == Reverse(s)[..i] + [s[|s| - 1 - i]]
  {
  }

  /** Initialising the manager at index k of ms after those before it: it
      takes its type's slot and survives exactly when the slot is free. */
  lemma InitializeStep(ms: seq<ManagerBase>, slots: map<int, ManagerBase>, k: nat)
    requires k < |ms|
    ensures var m, before := ms[k], Registered(ms[..k], slots);
            && Registered(ms[..k + 1], slots) == (if m.kind in before then before else before[m.kind := m])
            && Survivors(ms[..k + 1], slots) == Survivors(ms[..k], slots) + (if m.kind in before then [] else [ms[k]])
  {
    assert ms[..k + 1][..k] == ms[..k];
  }

  /** One turn of the reverse removal loop, on the list it works on: the
      unvisited part of the reversed sorted list followed by the survivors
      so far, reversed. Removing the manager at index i when its type is
      taken, and keeping it otherwise, gives the same shape one index down. */
  lemma RemovalStep(sorted: seq<ManagerBase>, slots: map<int, ManagerBase>, i: nat)
    requires i < |sorted|
    ensures var k := |sorted| - 1 - i;
            var m, before := sorted[k], Registered(sorted[..k], slots);
            var list := Reverse(sorted)[..i + 1] + Reverse(Survivors(sorted[..k], slots));
            && i < |list| && list[i] == m
            && Registered(sorted[..k + 1], slots) == (if m.kind in before then before else before[m.kind := m])
            && (m.kind in before ==> list[..i] + list[i + 1..] == Reverse(sorted)[..i] + Reverse(Survivors(sorted[..k + 1], slots)))
            && (m.kind !in before ==> list == Reverse(sorted)[..i] + Reverse(Survivors(sorted[..k + 1], slots)))
  {
    var k := |sorted| - 1 - i;
    var m := sorted[k];
    InitializeStep(sorted, slots, k);
    ReversePrefixStep(sorted, i);
    var list := Reverse(sorted)[..i + 1] + Reverse(Survivors(sorted[..k], slots));
    if m.kind in Registered(sorted[..k], slots) {
      assert list[..i] + list[i + 1..] == Reverse(sorted)[..i] + Reverse(Survivors(sorted[..k], slots));
    } else {
      ReverseSnoc(Survivors(sorted[..k], slots), m);
    }
  }

  /** The removal loop's state before its first turn: the whole reversed
      list, no survivor, the slots as they were, no call. */
  lemma RemovalStart(sorted: seq<ManagerBase>, slots: map<int, ManagerBase>)
    ensures Reverse(sorted) == Reverse(sorted)[..|sorted|] + Reverse(Survivors(sorted[..0], slots))
    ensures Registered(sorted[..0], slots) == slots
    ensures CallsOf(OnInitialize, sorted[..0]) == []
  {
    assert sorted[..0] == [];
    assert Reverse(sorted)[..|sorted|] == Reverse(sorted);
  }

  /** The removal loop's state after its last turn, reversed back: the
      survivors in sorted order. */
  lemma RemovalEnd(sorted: seq<ManagerBase>, slots: map<int, ManagerBase>)
    ensures Reverse(Reverse(sorted)[..0] + Reverse(Survivors(sorted[..|sorted|], slots))) == Survivors(sorted, slots)
    ensures Registered(sorted[..|sorted|], slots) == Registered(sorted, slots)
    ensures CallsOf(OnInitialize, sorted[..|sorted|]) == CallsOf(OnInitialize, sorted)
  {
    assert sorted[..|sorted|] == sorted;
    assert Reverse(sorted)[..0] + Reverse(Survivors(sorted, slots)) == Reverse(Survivors(sorted, slots));
    ReverseReverse(Survivors(sorted, slots));
  }

  /** The managers of ms whose IsActive is set, in their order. */
  function Active(ms: seq<ManagerBase>): (r: seq<ManagerBase>)
    reads set m | m in ms
    decreases |ms|
  {
    if ms == [] then []
    else Active(ms[..|ms| - 1]) + if ms[|ms| - 1].active then [ms[|ms| - 1]] else []
  }

  /** Active keeps exactly the active managers, and keeps their order: the
      active managers of a concatenation are those of each part. */
  lemma {:induction false} ActiveKeepsActive(ms: seq<ManagerBase>)
    ensures forall m :: m in Active(ms) <==> m in ms && m.active
    ensures |Active(ms)| <= |ms|
    decreases |ms|
  {
    if ms != [] {
      ActiveKeepsActive(ms[..|ms| - 1]);
      assert ms == ms[..|ms| - 1] + [ms[|ms| - 1]];
    }
  }

  lemma {:induction false} ActiveConcat(a: seq<ManagerBase>, b: seq<ManagerBase>)
    ensures Active(a + b) == Active(a) + Active(b)
    decreases |b|
  {
    if b == [] {
      assert a + b == a;
    } else {
      var front := b[..|b| - 1];
      ActiveConcat(a, front);
      assert (a + b)[..|a + b| - 1] == a + front;
    }
  }

  class MainManager {
    /** The managers, in the order their hooks run. */
    var managers: seq<ManagerBase>
    /** ProcessMode set to Disabled (and the node queued for freeing). */
    var disabled: bool

    constructor (managers: seq<ManagerBase>)
      ensures this.managers == managers && !disabled
    {
      this.managers := managers;
      disabled := false;
    }

    /** _Ready. A second main manager throws and changes nothing. Otherwise
        this becomes the instance; with no managers the node is disabled and
        nothing is initialised. With managers, Initialize runs on each of
        them in the stable ascending priority order; those answering false
        are dropped, and the survivors, still in that order, become
        `managers`. Ready then runs on each of them, and after the last one
        AllManagersReady runs on each of them. */
    method Ready(statics: Statics) returns (r: Result<(), MainManagerError>)
      modifies this, statics
      ensures old(statics.mainInstance) != null ==>
                && r == Failure(MultipleMainManagers)
                && statics.mainInstance == old(statics.mainInstance)
                && statics.instances == old(statics.instances) && statics.calls == old(statics.calls)
                && managers == old(managers) && disabled == old(disabled)
      ensures old(statics.mainInstance) == null ==> r == Success(()) && statics.mainInstance == this
      ensures old(statics.mainInstance) == null && old(managers) == [] ==>
                && disabled && managers == []
                && statics.instances == old(statics.instances) && statics.calls == old(statics.calls)
      ensures old(statics.mainInstance) == null && old(managers) != [] ==>
                var sorted := StableByPriority(old(managers));
                && disabled == old(disabled)
                && managers == Survivors(sorted, old(statics.instances))
                && statics.instances == Registered(sorted, old(statics.instances))
                && statics.calls == old(statics.calls) + CallsOf(OnInitialize, sorted)
                                    + CallsOf(OnReady, managers) + CallsOf(OnAllManagersReady, managers)
      ensures old(statics.Valid()) ==> statics.Valid()
    {
      if statics.mainInstance != null {
        return Failure(MultipleMainManagers);
      }
      statics.mainInstance := this;
      r := Success(());
      if managers == [] {
        disabled := true;
        return;
      }
      var sorted := StableByPriority(managers);
      managers := InitializeAll(sorted, statics);
      ReadyEach(managers, statics);
      AllManagersReadyEach(managers, statics);
    }

    /** The first loop after sorting: Ready on each manager, in order. */
    static method ReadyEach(ms: seq<ManagerBase>, statics: Statics)
      modifies statics`calls
      ensures statics.calls == old(statics.calls) + CallsOf(OnReady, ms)
    {
      var i := 0;
      while i < |ms|
        invariant 0 <= i <= |ms|
        invariant statics.calls == old(statics.calls) + CallsOf(OnReady, ms[..i])
      {
        ms[i].ReadyHook(statics);
        CallsOfSnoc(OnReady, ms, i);
        i := i + 1;
      }
      assert ms[..i] == ms;
    }

    /** The second loop: AllManagersReady on each manager, in order. */
    static method AllManagersReadyEach(ms: seq<ManagerBase>, statics: Statics)
      modifies statics`calls
      ensures statics.calls == old(statics.calls) + CallsOf(OnAllManagersReady, ms)
    {
      var i := 0;
      while i < |ms|
        invariant 0 <= i <= |ms|
        invariant statics.calls == old(statics.calls) + CallsOf(OnAllManagersReady, ms[..i])
      {
        ms[i].AllManagersReadyHook(statics);
        CallsOfSnoc(OnAllManagersReady, ms, i);
        i := i + 1;
      }
      assert ms[..i] == ms;
    }

    /** The sorting and filtering part of _Ready: the sorted managers are
        reversed, and a loop from the last index down to 0 (so from the
        lowest priority up) calls Initialize and removes each manager that
        answers false; the list is then reversed back. The survivors are
        returned in sorted order. */
    static method InitializeAll(sorted: seq<ManagerBase>, statics: Statics) returns (survivors: seq<ManagerBase>)
      modifies statics`instances, statics`calls
      ensures survivors == Survivors(sorted, old(statics.instances))
      ensures statics.instances == Registered(sorted, old(statics.instances))
      ensures statics.calls == old(statics.calls) + CallsOf(OnInitialize, sorted)
      ensures old(statics.Valid()) ==> statics.Valid()
    {
      ghost var slots := statics.instances;
      var reversed := Reverse(sorted);
      var n := |sorted|;
      var i := n - 1;
      RemovalStart(sorted, slots);
      while i >= 0
        invariant -1 <= i < n
        invariant reversed == Reverse(sorted)[..i + 1] + Reverse(Survivors(sorted[..n - 1 - i], slots))
        invariant statics.instances == Registered(sorted[..n - 1 - i], slots)
        invariant statics.calls == old(statics.calls) + CallsOf(OnInitialize, sorted[..n - 1 - i])
        decreases i
      {
        reversed := InitializeOne(sorted, slots, reversed, i, statics);
        CallsOfSnoc(OnInitialize, sorted, n - 1 - i);
        i := i - 1;
      }
      RemovalEnd(sorted, slots);
      if old(statics.Valid()) {
        RegisteredKinds(sorted, slots);
      }
      survivors := Reverse(reversed);
    }

    /** One turn of the reverse loop: Initialize on the manager at index i
        of the reversed list, which is removed when it answers false. */
    static method InitializeOne(sorted: seq<ManagerBase>, ghost slots: map<int, ManagerBase>, reversed: seq<ManagerBase>, i: int, statics: Statics)
      returns (next: seq<ManagerBase>)
      requires 0 <= i < |sorted|
      requires reversed == Reverse(sorted)[..i + 1] + Reverse(Survivors(sorted[..|sorted| - 1 - i], slots))
      requires statics.instances == Registered(sorted[..|sorted| - 1 - i], slots)
      modifies statics`instances, statics`calls
      ensures next == Reverse(sorted)[..i] + Reverse(Survivors(sorted[..|sorted| - i], slots))
      ensures statics.instances == Registered(sorted[..|sorted| - i], slots)
      ensures statics.calls == old(statics.calls) + [Call(OnInitialize, sorted[|sorted| - 1 - i])]
    {
      var m := reversed[i];
      assert m == sorted[|sorted| - 1 - i];
      var ok := m.Initialize(statics);
      next := reversed;
      if !ok {
        next := reversed[..i] + reversed[i + 1..];
      }
      RemovalStep(sorted, slots, i);
    }

    /** _Process: Process runs on each active manager, in order. */
    method Process(statics: Statics)
      modifies statics`calls
      ensures statics.calls == old(statics.calls) + CallsOf(OnProcess, Active(managers))
    {
      var i := 0;
      while i < |managers|
        invariant 0 <= i <= |managers|
        invariant statics.calls == old(statics.calls) + CallsOf(OnProcess, Active(managers[..i]))
      {
        if managers[i].active {
          managers[i].ProcessHook(statics);
        }
        assert managers[..i + 1][..i] == managers[..i];
        i := i + 1;
      }
      assert managers[..i] == managers;
    }

    /** _PhysicsProcess: PhysicsProcess runs on each active manager, in order. */
    method PhysicsProcess(statics: Statics)
      modifies statics`calls
      ensures statics.calls == old(statics.calls) + CallsOf(OnPhysicsProcess, Active(managers))
    {
      var i := 0;
      while i < |managers|
        invariant 0 <= i <= |managers|
        invariant statics.calls == old(statics.calls) + CallsOf(OnPhysicsProcess, Active(managers[..i]))
      {
        if managers[i].active {
          managers[i].PhysicsProcessHook(statics);
        }
        assert managers[..i + 1][..i] == managers[..i];
        i := i + 1;
      }
      assert managers[..i] == managers;
    }
  }

  /** Two lists with the same elements have the same set of types. */
  lemma SameKinds(a: seq<ManagerBase>, b: seq<ManagerBase>)
    requires multiset(a) == multiset(b)
    ensures forall m :: m in a <==> m in b
    ensures (set m | m in a :: m.kind) == (set m | m in b :: m.kind)
  {
    forall m
      ensures m in a <==> m in b
    {
      assert m in a <==> m in multiset(a);
      assert m in b <==> m in multiset(b);
    }
  }

  /** Each survivor comes from ms, is of a type that had no instance
      before, and is now its type's instance. */
  ghost predicate TookFreeSlots(survivors: seq<ManagerBase>, ms: seq<ManagerBase>,
                                slots: map<int, ManagerBase>, after: map<int, ManagerBase>)
  {
    forall m :: m in survivors ==> m in ms && m.kind !in slots && m.kind in after && after[m.kind] == m
  }

  /** What _Ready leaves in `managers`: a list sorted by ascending priority
      in which no two managers share a type, each taken from the original
      list and now its type's instance; afterwards every type of the
      original list has an instance, and the instances that existed before
      are kept. */
  lemma ReadyOutcome(ms: seq<ManagerBase>, slots: map<int, ManagerBase>)
    ensures SortedByPriority(Survivors(StableByPriority(ms), slots))
    ensures DistinctKinds(Survivors(StableByPriority(ms), slots))
    ensures TookFreeSlots(Survivors(StableByPriority(ms), slots), ms, slots, Registered(StableByPriority(ms), slots))
    ensures Registered(StableByPriority(ms), slots).Keys == slots.Keys + set m | m in ms :: m.kind
    ensures forall k :: k in slots ==> Registered(StableByPriority(ms), slots)[k] == slots[k]
  {
    var sorted := StableByPriority(ms);
    StableByPriorityIsStableSort(ms);
    SurvivorsSorted(sorted, slots);
    SurvivorsDistinctKinds(sorted, slots);
    SurvivorsRegistered(sorted, slots);
    SameKinds(sorted, ms);
  }
}
