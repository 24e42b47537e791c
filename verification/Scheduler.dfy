/** Placement of physical tasks on TaskManagers (jobmanager/scheduler.py:145-208). */
module Scheduling {
  import opened Common
  import opened ResourceManagers
  import opened PhysicalTasks

  datatype DeploymentPlan = DeploymentPlan(task: PhysicalTask, taskManagerId: string)

  /** A TaskManager with the free slots it had when the list was sorted. */
  datatype Offer = Offer(tm: TaskManagerInfo, free: int)

  // Sorting by free slots, descending and stable.

  function Insert(x: Offer, s: seq<Offer>): (r: seq<Offer>)
    ensures multiset(r) == multiset(s) + multiset{x}
  {
    if s == [] then [x]
    else if s[0].free <= x.free then [x] + s
    else
      assert s == [s[0]] + s[1..];
      [s[0]] + Insert(x, s[1..])
  }

  function SortByFree(s: seq<Offer>): (r: seq<Offer>)
    ensures multiset(r) == multiset(s)
  {
    if s == [] then []
    else
      assert s == [s[0]] + s[1..];
      Insert(s[0], SortByFree(s[1..]))
  }

  predicate Descending(s: seq<Offer>) {
    forall i, j :: 0 <= i < j < |s| ==> s[i].free >= s[j].free
  }

  lemma {:induction false} InsertKeepsOrder(x: Offer, s: seq<Offer>)
    requires Descending(s)
    ensures Descending(Insert(x, s))
  {
    if s != [] && s[0].free > x.free {
      InsertKeepsOrder(x, s[1..]);
      var r := Insert(x, s[1..]);
      forall i | 0 <= i < |r| ensures r[i].free <= s[0].free {
        assert r[i] in multiset(r);
        assert r[i] == x || r[i] in s[1..];
      }
    }
  }

  lemma {:induction false} SortIsDescending(s: seq<Offer>)
    ensures Descending(SortByFree(s))
  {
    if s == [] {
    } else {
      SortIsDescending(s[1..]);
      InsertKeepsOrder(s[0], SortByFree(s[1..]));
    }
  }

  function WithFree(free: int): Offer -> bool {
    (o: Offer) => o.free == free
  }

  lemma {:induction false} SwapUntied(x: Offer, y: Offer, s: seq<Offer>, free: int)
    requires x.free != y.free
    ensures Filter(WithFree(free), [x] + ([y] + s)) == Filter(WithFree(free), [y] + ([x] + s))
  {
    FilterCons(WithFree(free), x, [y] + s);
    FilterCons(WithFree(free), y, s);
    FilterCons(WithFree(free), y, [x] + s);
    FilterCons(WithFree(free), x, s);
  }

  lemma {:induction false} InsertKeepsTies(x: Offer, s: seq<Offer>, free: int)
    ensures Filter(WithFree(free), Insert(x, s)) == Filter(WithFree(free), [x] + s)
  {
    if s == [] {
      assert [x] + s == [x];
    } else if s[0].free > x.free {
      var y, rest := s[0], s[1..];
      assert Insert(x, s) == [y] + Insert(x, rest);
      assert s == [y] + rest;
      InsertKeepsTies(x, rest, free);
      FilterCons(WithFree(free), y, Insert(x, rest));
      FilterCons(WithFree(free), y, [x] + rest);
      SwapUntied(x, y, rest, free);
    }
  }

  /** TaskManagers with equally many free slots keep their registration order. */
  lemma {:induction false} SortIsStable(s: seq<Offer>, free: int)
    ensures Filter(WithFree(free), SortByFree(s)) == Filter(WithFree(free), s)
  {
    if s == [] {
    } else {
      SortIsStable(s[1..], free);
      InsertKeepsTies(s[0], SortByFree(s[1..]), free);
      assert s == [s[0]] + s[1..];
      FilterCons(WithFree(free), s[0], s[1..]);
      FilterCons(WithFree(free), s[0], SortByFree(s[1..]));
    }
  }

  // How much fits: every placement takes two slots of the shared object, one in AllocateSlot and
  // one in the scheduler, and is made while at least one slot is free.

  function Seats(free: int): nat {
    if free <= 0 then 0 else (free + 1) / 2
  }

  function Capacity(offers: seq<Offer>): nat {
    if offers == [] then 0 else Seats(offers[0].free) + Capacity(offers[1..])
  }

  lemma {:induction false} CapacityAppend(a: seq<Offer>, b: seq<Offer>)
    ensures Capacity(a + b) == Capacity(a) + Capacity(b)
  {
    if a == [] {
      assert a + b == b;
    } else {
      assert (a + b)[1..] == a[1..] + b;
      CapacityAppend(a[1..], b);
    }
  }

  lemma {:induction false} InsertCapacity(x: Offer, s: seq<Offer>)
    ensures Capacity(Insert(x, s)) == Seats(x.free) + Capacity(s)
  {
    if s == [] {
    } else if s[0].free <= x.free {
      assert ([x] + s)[1..] == s;
    } else {
      InsertCapacity(x, s[1..]);
    }
  }

  lemma {:induction false} SortKeepsCapacity(s: seq<Offer>)
    ensures Capacity(SortByFree(s)) == Capacity(s)
  {
    if s == [] {
    } else {
      SortKeepsCapacity(s[1..]);
      InsertCapacity(s[0], SortByFree(s[1..]));
    }
  }

  lemma {:induction false} CapacityStep(offers: seq<Offer>, k: nat)
    requires k < |offers|
    ensures Capacity(offers[..k + 1]) == Capacity(offers[..k]) + Seats(offers[k].free)
    ensures Capacity(offers) >= Capacity(offers[..k + 1])
  {
    assert offers[..k + 1] == offers[..k] + [offers[k]];
    CapacityAppend(offers[..k], [offers[k]]);
    assert offers == offers[..k + 1] + offers[k + 1..];
    CapacityAppend(offers[..k + 1], offers[k + 1..]);
  }

  function PlansOn(plans: seq<DeploymentPlan>, id: string): nat {
    if plans == [] then 0
    else PlansOn(plans[..|plans| - 1], id) + (if plans[|plans| - 1].taskManagerId == id then 1 else 0)
  }

  lemma {:induction false} PlansOnSnoc(plans: seq<DeploymentPlan>, plan: DeploymentPlan, id: string)
    ensures PlansOn(plans + [plan], id) == PlansOn(plans, id) + (if plan.taskManagerId == id then 1 else 0)
  {
    assert (plans + [plan])[..|plans|] == plans;
  }

  /** Seats of the TaskManagers before position k are all taken, and `used` of those at k. */
  ghost predicate FilledUpTo(offers: seq<Offer>, plans: seq<DeploymentPlan>, k: nat, used: nat) {
    && k <= |offers|
    && |plans| == Capacity(offers[..k]) + used
    && (if k < |offers| then used <= Seats(offers[k].free) else used == 0)
    && forall j :: 0 <= j < |offers| ==>
         PlansOn(plans, offers[j].tm.id) == if j < k then Seats(offers[j].free) else if j == k then used else 0
  }

  ghost predicate SlotsTaken(rm: ResourceManager, plans: seq<DeploymentPlan>, before: map<string, int>)
    reads rm, rm.taskManagers.Values
  {
    && before.Keys == rm.taskManagers.Keys
    && forall id :: id in rm.taskManagers ==>
         rm.taskManagers[id].availableSlots == before[id] - 2 * PlansOn(plans, id)
  }

  ghost predicate OffersOf(rm: ResourceManager, offers: seq<Offer>, before: map<string, int>)
    reads rm
  {
    && rm.Valid()
    && before.Keys == rm.taskManagers.Keys
    && (forall j :: 0 <= j < |offers| ==>
          var tm := offers[j].tm;
          tm.id in rm.taskManagers && rm.taskManagers[tm.id] == tm && offers[j].free == before[tm.id] > 0)
    && forall i, j :: 0 <= i < j < |offers| ==> offers[i].tm.id != offers[j].tm.id
  }

  function IdsOf(offers: seq<Offer>): set<string> {
    set o | o in offers :: o.tm.id
  }

  /** The free slots of every registered TaskManager. */
  ghost function FreeSlots(rm: ResourceManager): map<string, int>
    reads rm, rm.taskManagers.Values
  {
    map id | id in rm.taskManagers :: rm.taskManagers[id].availableSlots
  }

  /** The seats of the available TaskManagers among `some`, summed in registration order. */
  ghost function AvailableSeats(rm: ResourceManager, some: seq<string>, now: int): nat
    requires forall id :: id in some ==> id in rm.taskManagers
    reads rm, rm.taskManagers.Values
  {
    if some == [] then 0
    else
      var n := |some| - 1;
      AvailableSeats(rm, some[..n], now)
      + (if rm.IsAvailable(some[n], now) then Seats(rm.taskManagers[some[n]].availableSlots) else 0)
  }

  ghost function OffersFor(infos: seq<TaskManagerInfo>): (r: seq<Offer>)
    reads SetOf(infos)
    ensures |r| == |infos|
  {
    seq(|infos|, i requires 0 <= i < |infos| reads SetOf(infos) => Offer(infos[i], infos[i].availableSlots))
  }

  lemma {:induction false} OffersAddUp(rm: ResourceManager, some: seq<string>, now: int)
    requires forall id :: id in some ==> id in rm.taskManagers
    ensures Capacity(OffersFor(rm.AvailableAmong(some, now))) == AvailableSeats(rm, some, now)
    decreases |some|
  {
    if some == [] {
    } else {
      var n := |some| - 1;
      OffersAddUp(rm, some[..n], now);
      var earlier := OffersFor(rm.AvailableAmong(some[..n], now));
      if rm.IsAvailable(some[n], now) {
        var tm := rm.taskManagers[some[n]];
        assert OffersFor(rm.AvailableAmong(some, now)) == earlier + [Offer(tm, tm.availableSlots)];
        CapacityAppend(earlier, [Offer(tm, tm.availableSlots)]);
      } else {
        assert OffersFor(rm.AvailableAmong(some, now)) == earlier;
      }
    }
  }

  lemma RegisteredIds(rm: ResourceManager)
    requires rm.Valid()
    ensures forall id :: id in rm.ids ==> id in rm.taskManagers
  {
    forall id | id in rm.ids ensures id in rm.taskManagers {
      assert id in SetOf(rm.ids);
    }
  }

  /** The offers before sorting stand for exactly the available TaskManagers. */
  lemma {:induction false} UnsortedOffers(rm: ResourceManager, now: int)
    requires rm.Valid()
    ensures forall id :: id in rm.ids ==> id in rm.taskManagers
    ensures OffersOf(rm, OffersFor(rm.AvailableAmong(rm.ids, now)), FreeSlots(rm))
  {
    RegisteredIds(rm);
    rm.AvailableMembers(rm.ids, now);
  }

  ghost function AvailableIds(rm: ResourceManager, now: int): set<string>
    reads rm, rm.taskManagers.Values
  {
    set id | id in rm.taskManagers && rm.IsAvailable(id, now)
  }

  lemma {:induction false} SortKeepsIds(offers: seq<Offer>)
    ensures IdsOf(SortByFree(offers)) == IdsOf(offers)
  {
    var sorted := SortByFree(offers);
    SameMembers(sorted, offers);
    forall id ensures id in IdsOf(sorted) <==> id in IdsOf(offers) {
      if id in IdsOf(sorted) {
        var o :| o in sorted && o.tm.id == id;
        assert o in offers;
      }
      if id in IdsOf(offers) {
        var o :| o in offers && o.tm.id == id;
        assert o in sorted;
      }
    }
  }

  lemma SameMembers(s: seq<Offer>, t: seq<Offer>)
    requires multiset(s) == multiset(t)
    ensures forall o :: o in s <==> o in t
  {
    forall o ensures o in s <==> o in t {
      assert o in s <==> o in multiset(s);
    }
  }

  lemma {:induction false} OfferedIsAvailable(rm: ResourceManager, now: int, id: string)
    requires rm.Valid()
    ensures forall id :: id in rm.ids ==> id in rm.taskManagers
    ensures id in IdsOf(OffersFor(rm.AvailableAmong(rm.ids, now))) ==> id in AvailableIds(rm, now)
  {
    RegisteredIds(rm);
    rm.AvailableMembers(rm.ids, now);
    var infos := rm.AvailableAmong(rm.ids, now);
    var offers := OffersFor(infos);
    if id in IdsOf(offers) {
      var j: nat :| j < |offers| && offers[j].tm.id == id;
      assert infos[j].id in rm.ids;
    }
  }

  lemma {:induction false} AvailableIsOffered(rm: ResourceManager, now: int, id: string)
    requires rm.Valid() && id in AvailableIds(rm, now)
    ensures forall id :: id in rm.ids ==> id in rm.taskManagers
    ensures id in IdsOf(OffersFor(rm.AvailableAmong(rm.ids, now)))
  {
    RegisteredIds(rm);
    assert id in SetOf(rm.ids);
    rm.AvailableMembers(rm.ids, now);
    var infos := rm.AvailableAmong(rm.ids, now);
    var j: nat :| j < |infos| && infos[j] == rm.taskManagers[id];
    assert OffersFor(infos)[j] in OffersFor(infos);
  }

  /** The offers, sorted, come from exactly the available TaskManagers. */
  lemma {:induction false} OffersComeFromAvailable(rm: ResourceManager, now: int)
    requires rm.Valid()
    ensures forall id :: id in rm.ids ==> id in rm.taskManagers
    ensures IdsOf(SortByFree(OffersFor(rm.AvailableAmong(rm.ids, now)))) == AvailableIds(rm, now)
  {
    UnsortedOffers(rm, now);
    SortKeepsIds(OffersFor(rm.AvailableAmong(rm.ids, now)));
    forall id ensures id in IdsOf(OffersFor(rm.AvailableAmong(rm.ids, now))) <==> id in AvailableIds(rm, now) {
      OfferedIsAvailable(rm, now, id);
      if id in AvailableIds(rm, now) {
        AvailableIsOffered(rm, now, id);
      }
    }
  }

  method AvailableOffers(rm: ResourceManager, now: int) returns (offers: seq<Offer>)
    requires rm.Valid()
    ensures OffersOf(rm, offers, FreeSlots(rm)) && Descending(offers)
    ensures forall id :: id in rm.ids ==> id in rm.taskManagers
    ensures Capacity(offers) == AvailableSeats(rm, rm.ids, now)
    ensures IdsOf(offers) == AvailableIds(rm, now)
  {
    var infos := rm.GetAvailableTaskManagers(now);
    var unsorted: seq<Offer> := [];
    for k := 0 to |infos|
      invariant unsorted == OffersFor(infos)[..k]
    {
      unsorted := unsorted + [Offer(infos[k], infos[k].availableSlots)];
    }
    assert unsorted == OffersFor(infos);
    UnsortedOffers(rm, now);
    OffersAddUp(rm, rm.ids, now);
    offers := SortByFree(unsorted);
    SortIsDescending(unsorted);
    SortKeepsCapacity(unsorted);
    SortKeepsOffers(rm, unsorted, FreeSlots(rm));
    OffersComeFromAvailable(rm, now);
  }

  lemma DuplicateCount<T>(s: seq<T>, i: nat, j: nat)
    requires i < j < |s| && s[i] == s[j]
    ensures multiset(s)[s[i]] >= 2
  {
    assert s == s[..j] + [s[j]] + s[j + 1..];
    assert s[i] in s[..j];
  }

  lemma {:induction false} DistinctCount<T>(s: seq<T>, x: T)
    requires Distinct(s)
    ensures multiset(s)[x] <= 1
  {
    if s == [] {
    } else {
      DistinctCount(s[1..], x);
      assert s == [s[0]] + s[1..];
    }
  }

  lemma {:induction false} SortKeepsOffers(rm: ResourceManager, offers: seq<Offer>, before: map<string, int>)
    requires OffersOf(rm, offers, before)
    ensures OffersOf(rm, SortByFree(offers), before)
  {
    var sorted := SortByFree(offers);
    forall j | 0 <= j < |sorted| ensures sorted[j] in offers {
      assert sorted[j] in multiset(sorted);
    }
    forall i, j | 0 <= i < j < |sorted| ensures sorted[i].tm.id != sorted[j].tm.id {
      if sorted[i].tm.id == sorted[j].tm.id {
        assert sorted[i] in offers && sorted[j] in offers;
        DuplicateCount(sorted, i, j);
        DistinctCount(offers, sorted[i]);
      }
    }
  }

  lemma {:induction false} TakeSeat(offers: seq<Offer>, plans: seq<DeploymentPlan>, k: nat, used: nat,
                                    plan: DeploymentPlan)
    requires forall i, j :: 0 <= i < j < |offers| ==> offers[i].tm.id != offers[j].tm.id
    requires FilledUpTo(offers, plans, k, used) && k < |offers| && used < Seats(offers[k].free)
    requires plan.taskManagerId == offers[k].tm.id
    ensures FilledUpTo(offers, plans + [plan], k, used + 1) && |plans| < Capacity(offers)
  {
    CapacityStep(offers, k);
    forall j | 0 <= j < |offers|
      ensures PlansOn(plans + [plan], offers[j].tm.id) == PlansOn(plans, offers[j].tm.id) + (if j == k then 1 else 0)
    {
      PlansOnSnoc(plans, plan, offers[j].tm.id);
    }
  }

  lemma MoveOn(offers: seq<Offer>, plans: seq<DeploymentPlan>, k: nat, used: nat)
    requires FilledUpTo(offers, plans, k, used) && k < |offers| && used == Seats(offers[k].free)
    ensures FilledUpTo(offers, plans, k + 1, 0)
  {
    CapacityStep(offers, k);
  }

  /** Allocating through the manager and then decrementing the same object: two slots per plan. */
  method TakeSlots(rm: ResourceManager, tm: TaskManagerInfo, task: PhysicalTask,
                   ghost plans: seq<DeploymentPlan>, ghost before: map<string, int>) returns (plan: DeploymentPlan)
    requires rm.Valid() && tm.id in rm.taskManagers && rm.taskManagers[tm.id] == tm
    requires SlotsTaken(rm, plans, before) && tm.availableSlots > 0
    modifies rm.taskManagers.Values`availableSlots
    ensures plan == DeploymentPlan(task, tm.id)
    ensures SlotsTaken(rm, plans + [plan], before)
  {
    var ok := rm.AllocateSlot(tm.id);
    assert ok;
    plan := DeploymentPlan(task, tm.id);
    tm.availableSlots := tm.availableSlots - 1;
    forall id ensures PlansOn(plans + [plan], id) == PlansOn(plans, id) + (if tm.id == id then 1 else 0) {
      PlansOnSnoc(plans, plan, id);
    }
  }

  /** The search for a free TaskManager: it never goes back, and moves on only from an exhausted one. */
  method PlaceTask(rm: ResourceManager, offers: seq<Offer>, task: PhysicalTask, k0: nat,
                   ghost plans: seq<DeploymentPlan>, ghost used0: nat, ghost before: map<string, int>)
    returns (plan: Option<DeploymentPlan>, k: nat, ghost used: nat)
    requires OffersOf(rm, offers, before) && SlotsTaken(rm, plans, before)
    requires FilledUpTo(offers, plans, k0, used0)
    modifies rm.taskManagers.Values`availableSlots
    ensures plan.Some? <==> |plans| < Capacity(offers)
    ensures k0 <= k <= |offers|
    ensures plan.Some? ==> k < |offers| && plan.value == DeploymentPlan(task, offers[k].tm.id)
    ensures plan.Some? ==>
              && FilledUpTo(offers, plans + [plan.value], k, used)
              && SlotsTaken(rm, plans + [plan.value], before)
    ensures plan.None? ==>
              && k == |offers| && used == 0
              && FilledUpTo(offers, plans, k, used) && SlotsTaken(rm, plans, before)
  {
    k, used := k0, used0;
    while k < |offers|
      invariant k0 <= k <= |offers|
      invariant FilledUpTo(offers, plans, k, used) && SlotsTaken(rm, plans, before)
    {
      var tm := offers[k].tm;
      assert tm.availableSlots == offers[k].free - 2 * used;
      if tm.availableSlots > 0 {
        var p := TakeSlots(rm, tm, task, plans, before);
        TakeSeat(offers, plans, k, used, p);
        return Some(p), k, used + 1;
      } else {
        MoveOn(offers, plans, k, used);
        k, used := k + 1, 0;
      }
    }
    assert offers[..|offers|] == offers;
    plan := None;
  }

  /** What AllocateTasks has established after placing the first tasks, up to position k. */
  ghost predicate PlacedInOrder(offers: seq<Offer>, tasks: seq<PhysicalTask>, plans: seq<DeploymentPlan>, k: nat,
                                at: seq<nat>)
  {
    && |plans| == |at| <= |tasks|
    && (forall i :: 0 <= i < |plans| ==>
        at[i] <= k && at[i] < |offers| && plans[i] == DeploymentPlan(tasks[i], offers[at[i]].tm.id))
    && (forall i, j :: 0 <= i < j < |at| ==> at[i] <= at[j])
  }

  lemma ExtendPlacement(offers: seq<Offer>, tasks: seq<PhysicalTask>, plans: seq<DeploymentPlan>, k: nat,
                        at: seq<nat>, plan: DeploymentPlan)
    requires PlacedInOrder(offers, tasks, plans, k, at) && |plans| < |tasks| && k < |offers|
    requires plan == DeploymentPlan(tasks[|plans|], offers[k].tm.id)
    ensures PlacedInOrder(offers, tasks, plans + [plan], k, at + [k])
  {
  }

  lemma LaterPosition(offers: seq<Offer>, tasks: seq<PhysicalTask>, plans: seq<DeploymentPlan>, k: nat, k': nat,
                      at: seq<nat>)
    requires PlacedInOrder(offers, tasks, plans, k, at) && k <= k'
    ensures PlacedInOrder(offers, tasks, plans, k', at)
  {
  }

  /** What the placement loop keeps. */
  ghost predicate Placing(rm: ResourceManager, offers: seq<Offer>, tasks: seq<PhysicalTask>, before: map<string, int>,
                          plans: seq<DeploymentPlan>, k: nat, used: nat, at: seq<nat>)
    reads rm, rm.taskManagers.Values
  {
    && OffersOf(rm, offers, before)
    && SlotsTaken(rm, plans, before)
    && FilledUpTo(offers, plans, k, used)
    && PlacedInOrder(offers, tasks, plans, k, at)
  }

  method PlaceNext(rm: ResourceManager, offers: seq<Offer>, ghost tasks: seq<PhysicalTask>, task: PhysicalTask,
                   ghost before: map<string, int>,
                   ghost plans: seq<DeploymentPlan>, k0: nat, ghost used0: nat, ghost at: seq<nat>)
    returns (plan: Option<DeploymentPlan>, k: nat, ghost used: nat)
    requires Placing(rm, offers, tasks, before, plans, k0, used0, at)
    requires |plans| < |tasks| && tasks[|plans|] == task
    modifies rm.taskManagers.Values`availableSlots
    ensures plan.Some? <==> |plans| < Capacity(offers)
    ensures plan.Some? ==> Placing(rm, offers, tasks, before, plans + [plan.value], k, used, at + [k])
    ensures plan.None? ==> Placing(rm, offers, tasks, before, plans, |offers|, 0, at)
  {
    plan, k, used := PlaceTask(rm, offers, task, k0, plans, used0, before);
    LaterPosition(offers, tasks, plans, k0, k, at);
    if plan.Some? {
      ExtendPlacement(offers, tasks, plans, k, at, plan.value);
    }
  }

  /** The free slots after a failed placement: nothing is given back, and each TaskManager that was
      offered has had two slots taken for every one of its seats. */
  ghost predicate Drained(rm: ResourceManager, before: map<string, int>, offered: set<string>)
    reads rm, rm.taskManagers.Values
  {
    && before.Keys == rm.taskManagers.Keys
    && forall id :: id in rm.taskManagers ==>
         rm.taskManagers[id].availableSlots == before[id] - (if id in offered then 2 * Seats(before[id]) else 0)
  }

  lemma {:induction false} PlanOn(plans: seq<DeploymentPlan>, tm: string) returns (i: nat)
    requires PlansOn(plans, tm) > 0
    ensures i < |plans| && plans[i].taskManagerId == tm
    decreases |plans|
  {
    i := |plans| - 1;
    if plans[i].taskManagerId != tm {
      i := PlanOn(plans[..i], tm);
    }
  }

  lemma FullPlacementDrains(rm: ResourceManager, offers: seq<Offer>, tasks: seq<PhysicalTask>, before: map<string, int>,
                            plans: seq<DeploymentPlan>, at: seq<nat>)
    requires Placing(rm, offers, tasks, before, plans, |offers|, 0, at)
    ensures Drained(rm, before, IdsOf(offers))
  {
    forall id | id in rm.taskManagers
      ensures PlansOn(plans, id) == if id in IdsOf(offers) then Seats(before[id]) else 0
    {
      if PlansOn(plans, id) > 0 {
        var i := PlanOn(plans, id);
        assert offers[at[i]] in offers;
      }
      if id in IdsOf(offers) {
        var o :| o in offers && o.tm.id == id;
        var j :| 0 <= j < |offers| && offers[j] == o;
        assert PlansOn(plans, offers[j].tm.id) == Seats(offers[j].free);
      }
    }
  }

  method PlaceAll(rm: ResourceManager, offers: seq<Offer>, tasks: seq<PhysicalTask>, ghost before: map<string, int>)
    returns (r: Result<seq<DeploymentPlan>>)
    requires OffersOf(rm, offers, before) && Descending(offers) && SlotsTaken(rm, [], before)
    modifies rm.taskManagers.Values`availableSlots
    ensures r.Ok? <==> |tasks| <= Capacity(offers)
    ensures r.Ok? ==> GoodPlacement(before, tasks, r.value) && SlotsTaken(rm, r.value, before)
    ensures r.Err? ==> Drained(rm, before, IdsOf(offers))
  {
    var plans: seq<DeploymentPlan> := [];
    var tmIndex := 0;
    ghost var used: nat, at: seq<nat> := 0, [];
    for t := 0 to |tasks|
      invariant |plans| == t && t <= Capacity(offers)
      invariant Placing(rm, offers, tasks, before, plans, tmIndex, used, at)
    {
      var plan;
      plan, tmIndex, used := PlaceNext(rm, offers, tasks, tasks[t], before, plans, tmIndex, used, at);
      if plan.None? {
        FullPlacementDrains(rm, offers, tasks, before, plans, at);
        return Err;
      }
      plans, at := plans + [plan.value], at + [tmIndex];
    }
    PlacementIsGood(rm, offers, tasks, plans, tmIndex, used, at, before);
    r := Ok(plans);
  }

  /** One plan per task, in task order, on a TaskManager that had a free slot; none gets more than
      half its free slots (rounded up), and those with more free slots are filled first. */
  ghost predicate GoodPlacement(before: map<string, int>, tasks: seq<PhysicalTask>, plans: seq<DeploymentPlan>) {
    && |plans| == |tasks|
    && (forall i :: 0 <= i < |plans| ==>
          var id := plans[i].taskManagerId;
          plans[i].task == tasks[i] && id in before && before[id] > 0 && PlansOn(plans, id) <= Seats(before[id]))
    && (forall i, j :: 0 <= i < j < |plans| && plans[i].taskManagerId in before && plans[j].taskManagerId in before ==>
          before[plans[i].taskManagerId] >= before[plans[j].taskManagerId])
  }

  lemma PlacementIsGood(rm: ResourceManager, offers: seq<Offer>, tasks: seq<PhysicalTask>, plans: seq<DeploymentPlan>,
                        k: nat, used: nat, at: seq<nat>, before: map<string, int>)
    requires Placing(rm, offers, tasks, before, plans, k, used, at)
    requires Descending(offers) && |plans| == |tasks|
    ensures GoodPlacement(before, tasks, plans)
  {
    forall i | 0 <= i < |plans|
      ensures plans[i].taskManagerId in before && before[plans[i].taskManagerId] == offers[at[i]].free > 0
      ensures PlansOn(plans, plans[i].taskManagerId) <= Seats(offers[at[i]].free)
    {
      assert plans[i].taskManagerId == offers[at[i]].tm.id;
    }
    forall i, j | 0 <= i < j < |plans| ensures offers[at[i]].free >= offers[at[j]].free {
      assert at[i] <= at[j];
    }
  }

  /** What comes of placing tasks on the TaskManagers `offered`, which had the slots `before` and
      `seats` seats in all. */
  ghost predicate PlacementOutcome(rm: ResourceManager, before: map<string, int>, offered: set<string>, seats: nat,
                                   tasks: seq<PhysicalTask>, r: Result<seq<DeploymentPlan>>)
    reads rm, rm.taskManagers.Values
  {
    && (r.Ok? <==> offered != {} && |tasks| <= seats)
    && (r.Ok? ==> GoodPlacement(before, tasks, r.value) && SlotsTaken(rm, r.value, before))
    && (r.Err? ==> Drained(rm, before, offered))
  }

  lemma NobodyToDrain(rm: ResourceManager, before: map<string, int>)
    requires SlotsTaken(rm, [], before)
    ensures Drained(rm, before, {})
  {
  }

  lemma SomebodyOffered(offers: seq<Offer>)
    ensures offers == [] <==> IdsOf(offers) == {}
  {
    if offers != [] {
      assert offers[0].tm.id in IdsOf(offers);
    }
  }

  /** First-fit over the TaskManagers by descending free slots. It succeeds exactly when some
      TaskManager is available and the tasks number at most the sum of ceil(free / 2). */
  method AllocateTasks(rm: ResourceManager, tasks: seq<PhysicalTask>, now: int) returns (r: Result<seq<DeploymentPlan>>)
    requires rm.Valid()
    modifies rm.taskManagers.Values`availableSlots
    ensures forall id :: id in rm.ids ==> id in rm.taskManagers
    ensures PlacementOutcome(rm, old(FreeSlots(rm)), old(AvailableIds(rm, now)),
                             old(AvailableSeats(rm, rm.ids, now)), tasks, r)
  {
    RegisteredIds(rm);
    ghost var before, offered, seats := FreeSlots(rm), AvailableIds(rm, now), AvailableSeats(rm, rm.ids, now);
    var offers := AvailableOffers(rm, now);
    assert FreeSlots(rm) == before && IdsOf(offers) == offered && Capacity(offers) == seats;
    SomebodyOffered(offers);
    if offers == [] {
      NobodyToDrain(rm, before);
      return Err;
    }
    r := PlaceAll(rm, offers, tasks, before);
    assert PlacementOutcome(rm, before, offered, seats, tasks, r);
  }

  /** A failed placement leaves the free slots as they were if and only if no TaskManager was available. */
  lemma FailureIsHarmlessIff(rm: ResourceManager, before: map<string, int>, offered: set<string>)
    requires Drained(rm, before, offered) && offered <= rm.taskManagers.Keys
    requires forall id :: id in offered ==> before[id] > 0
    ensures (forall id :: id in rm.taskManagers ==> rm.taskManagers[id].availableSlots == before[id]) <==> offered == {}
  {
    if offered != {} {
      var id :| id in offered;
      assert Seats(before[id]) > 0;
      assert rm.taskManagers[id].availableSlots == before[id] - 2 * Seats(before[id]);
    }
  }

  lemma {:induction false} SeatsOfOne(rm: ResourceManager, id: string, now: int)
    requires rm.ids == [id] && id in rm.taskManagers
    ensures AvailableSeats(rm, rm.ids, now)
            == if rm.IsAvailable(id, now) then Seats(rm.taskManagers[id].availableSlots) else 0
  {
    assert [id][..0] == [];
    assert AvailableSeats(rm, [id][..0], now) == 0;
  }

  lemma {:induction false} AllOnOne(plans: seq<DeploymentPlan>, tasks: seq<PhysicalTask>, before: map<string, int>,
                                    id: string)
    requires GoodPlacement(before, tasks, plans) && before.Keys == {id}
    ensures PlansOn(plans, id) == |plans|
  {
    assert forall i :: 0 <= i < |plans| ==> plans[i].task == tasks[i] && plans[i].taskManagerId == id;
    CountAll(plans, id);
  }

  lemma {:induction false} CountAll(plans: seq<DeploymentPlan>, id: string)
    requires forall i :: 0 <= i < |plans| ==> plans[i].taskManagerId == id
    ensures PlansOn(plans, id) == |plans|
    decreases |plans|
  {
    if plans == [] {
    } else {
      CountAll(plans[..|plans| - 1], id);
    }
  }

  lemma OutcomeOnTwoSlots(rm: ResourceManager, id: string, tasks: seq<PhysicalTask>, r: Result<seq<DeploymentPlan>>)
    requires rm.taskManagers.Keys == {id}
    requires PlacementOutcome(rm, map[id := 2], {id}, 1, tasks, r)
    ensures r.Ok? <==> |tasks| <= 1
    ensures rm.taskManagers[id].availableSlots == if tasks == [] then 2 else 0
  {
    assert Seats(2) == 1;
    if r.Ok? {
      AllOnOne(r.value, tasks, map[id := 2], id);
    }
  }

  method OneTaskManager(id: string) returns (rm: ResourceManager)
    ensures fresh(rm) && fresh(rm.taskManagers.Values) && rm.Valid()
    ensures rm.ids == [id] && rm.taskManagers.Keys == {id}
    ensures FreeSlots(rm) == map[id := 2] && AvailableIds(rm, 0) == {id} && AvailableSeats(rm, rm.ids, 0) == 1
  {
    rm := new ResourceManager(10);
    var ok := rm.RegisterTaskManager(id, 2, 0);
    assert [] + [id] == [id];
    assert rm.IsAvailable(id, 0);
    SeatsOfOne(rm, id, 0);
  }

  /** One TaskManager with two free slots: exactly one task fits and takes both; two tasks fail, and
      the slots are gone all the same. */
  method PlaceOnTwoSlots(id: string, tasks: seq<PhysicalTask>) returns (r: Result<seq<DeploymentPlan>>, free: int)
    ensures r.Ok? <==> |tasks| <= 1
    ensures free == if tasks == [] then 2 else 0
  {
    var rm := OneTaskManager(id);
    r := AllocateTasks(rm, tasks, 0);
    OutcomeOnTwoSlots(rm, id, tasks, r);
    free := rm.taskManagers[id].availableSlots;
  }
}
