/** The scheduler's promises stated over `Schedule` and `GroupByBuilder`
    themselves: completeness, dense ids, priority order, the greedy choice,
    start and end instants, non-overlap per builder, and the shape of the
    per-builder timeline. */
module ScheduleTheorems {
  import opened Wrappers
  import opened Seqs
  import opened StableSort
  import opened PlannerTypes
  import opened Scheduler
  import opened ScheduleProperties

  /** The initial array lists the builders' ids in builder order. */
  lemma InitialIds(builders: seq<Builder>, now: int)
    ensures MapSeq(InitialAvailability(builders, now), AvailabilityId) == MapSeq(builders, BuilderId)
  {
    var a0 := InitialAvailability(builders, now);
    assert forall i :: 0 <= i < |a0| ==> MapSeq(a0, AvailabilityId)[i] == MapSeq(builders, BuilderId)[i];
  }

  /** Item `i` of the schedule is the `i`-th upgrade of the priority-sorted
      queue: id `i + 1`, unselected, lasting that upgrade's duration, starting
      no earlier than `now`, on one of the given builders. */
  lemma ScheduleItemFacts(builders: seq<Builder>, queue: seq<QueueItem>, now: int, i: nat)
    requires |builders| > 0 && i < |queue|
    ensures var item := Schedule(builders, queue, now)[i];
      var q := SortedQueue(queue);
      && item.id == i + 1 && item.buildingId == q[i].id && !item.selected
      && item.endTime == item.startTime + DurationToMinutes(q[i].duration)
      && now <= item.startTime
      && exists p :: 0 <= p < |builders| && builders[p].id == item.builderId
  {
    var a0 := InitialAvailability(builders, now);
    var q := SortedQueue(queue);
    AssignAllItemFacts(q, a0, now, i);
    var item := AssignAll(q, a0).items[i];
    InitialIds(builders, now);
    var p :| 0 <= p < |a0| && MapSeq(a0, AvailabilityId)[p] == item.builderId;
    assert builders[p].id == MapSeq(builders, BuilderId)[p];
  }

  /** The upgrades are scheduled in priority order, and upgrades of equal
      priority keep their queue order: for every priority the scheduled
      upgrades of that priority are exactly the queued ones, in queue order. */
  lemma SchedulePriorityOrder(builders: seq<Builder>, queue: seq<QueueItem>, now: int)
    requires |builders| > 0
    ensures var items := Schedule(builders, queue, now);
      var q := SortedQueue(queue);
      && MapSeq(items, (x: ScheduleItem) => x.buildingId) == MapSeq(q, (b: QueueItem) => b.id)
      && (forall i, j :: 0 <= i < j < |q| ==> PriorityRank(q[i]) <= PriorityRank(q[j]))
      && (forall k :: KeyFilter(q, PriorityRank, k) == KeyFilter(queue, PriorityRank, k))
      && multiset(q) == multiset(queue)
  {
    var items := Schedule(builders, queue, now);
    var q := SortedQueue(queue);
    forall i | 0 <= i < |items|
      ensures items[i].buildingId == q[i].id
    {
      ScheduleItemFacts(builders, queue, now, i);
    }
    forall k {
      SortIsStable(queue, PriorityRank, k);
    }
  }

  /** The greedy choice: item `i` starts at the earliest instant of the array
      as it stood before the item was placed, and its builder is the FIRST
      entry of that array holding that instant. */
  lemma ScheduleIsGreedy(builders: seq<Builder>, queue: seq<QueueItem>, now: int, i: nat)
    requires |builders| > 0 && i < |queue|
    ensures var item := Schedule(builders, queue, now)[i];
      var avail := AvailabilityBefore(builders, queue, now, i);
      && (forall j :: 0 <= j < |avail| ==> item.startTime <= avail[j].nextAvailableTime)
      && exists k :: 0 <= k < |avail| && avail[k] == Availability(item.builderId, item.startTime)
           && (forall j :: 0 <= j < k ==> item.startTime < avail[j].nextAvailableTime)
  {
    var q := SortedQueue(queue);
    var a0 := InitialAvailability(builders, now);
    AssignAllItem(q, a0, i);
    assert q[..i] == SortedQueue(queue)[..i];
    StepChoosesFirstEarliest(AssignAll(q[..i], a0).avail, q[i], i + 1);
  }

  /** With at least one idle builder, the first upgrade starts at `now`. */
  lemma IdleBuilderStartsFirstUpgradeNow(builders: seq<Builder>, queue: seq<QueueItem>, now: int, p: nat)
    requires p < |builders| && builders[p].status == Idle && |queue| > 0
    ensures Schedule(builders, queue, now)[0].startTime == now
  {
    ScheduleIsGreedy(builders, queue, now, 0);
    ScheduleItemFacts(builders, queue, now, 0);
    assert SortedQueue(queue)[..0] == [];
    assert AvailabilityBefore(builders, queue, now, 0)[p].nextAvailableTime == now;
  }

  /** When builder ids are distinct, two upgrades given to the same builder
      never overlap: the later one starts no earlier than the earlier ends. */
  lemma ScheduleNoOverlap(builders: seq<Builder>, queue: seq<QueueItem>, now: int)
    requires |builders| > 0
    requires NoDuplicates(MapSeq(builders, BuilderId))
    ensures var items := Schedule(builders, queue, now);
      forall i, k :: 0 <= i < k < |items| && items[i].builderId == items[k].builderId
        ==> items[i].endTime <= items[k].startTime
  {
    var a0 := InitialAvailability(builders, now);
    InitialIds(builders, now);
    NoDuplicatesMultiset(MapSeq(builders, BuilderId));
    assert forall x :: multiset(MapSeq(a0, AvailabilityId))[x] <= 1;
    AssignAllNoOverlap(SortedQueue(queue), a0);
    assert Schedule(builders, queue, now) == AssignAll(SortedQueue(queue), a0).items;
  }

  /** Whether builder `b` has an item in `items`. */
  function HasItems(items: seq<ScheduleItem>): Builder -> bool {
    (b: Builder) => |ItemsOf(items, b.id)| > 0
  }

  /** The timeline entry of builder `b`: its items, as tasks, in order. */
  function EntryOf(items: seq<ScheduleItem>): Builder -> TimelineItem {
    (b: Builder) => TimelineItem(b.id, MapSeq(ItemsOf(items, b.id), ToTask))
  }

  /** The timeline is "keep the builders that have items, in builder order,
      and give each its entry". */
  lemma {:induction false} GroupByBuilderIsFilterThenMap(builders: seq<Builder>, items: seq<ScheduleItem>)
    ensures GroupByBuilder(builders, items) == MapSeq(Filter(builders, HasItems(items)), EntryOf(items))
    decreases |builders|
  {
    if |builders| > 0 {
      GroupByBuilderIsFilterThenMap(builders[1..], items);
      var rest := Filter(builders[1..], HasItems(items));
      if HasItems(items)(builders[0]) {
        MapSeqAppend([builders[0]], rest, EntryOf(items));
      }
    }
  }

  /** Every task of the timeline is an item of its entry's builder. */
  lemma TimelineTaskOrigin(builders: seq<Builder>, items: seq<ScheduleItem>, e: TimelineItem, t: TimelineTask)
    requires e in GroupByBuilder(builders, items) && t in e.tasks
    ensures exists item :: item in items && item.builderId == e.builderId && ToTask(item) == t
  {
    GroupByBuilderIsFilterThenMap(builders, items);
    var kept := Filter(builders, HasItems(items));
    var k :| 0 <= k < |kept| && MapSeq(kept, EntryOf(items))[k] == e;
    var own := ItemsOf(items, kept[k].id);
    var j :| 0 <= j < |own| && MapSeq(own, ToTask)[j] == t;
    assert own[j] in own;
  }

  /** Every item lands in the entry of its builder, whenever that builder is
      in the list: no item of a listed builder is lost. */
  lemma TimelineKeepsItem(builders: seq<Builder>, items: seq<ScheduleItem>, item: ScheduleItem, p: nat)
    requires item in items && p < |builders| && builders[p].id == item.builderId
    ensures EntryOf(items)(builders[p]) in GroupByBuilder(builders, items)
    ensures ToTask(item) in EntryOf(items)(builders[p]).tasks
  {
    var own := ItemsOf(items, item.builderId);
    assert ToTask(item) in MapSeq(own, ToTask) by {
      assert item in own;
      var j :| 0 <= j < |own| && own[j] == item;
      assert MapSeq(own, ToTask)[j] == ToTask(item);
    }
    var kept := Filter(builders, HasItems(items));
    assert EntryOf(items)(builders[p]) in MapSeq(kept, EntryOf(items)) by {
      assert builders[p] in kept;
      var k :| 0 <= k < |kept| && kept[k] == builders[p];
      assert MapSeq(kept, EntryOf(items))[k] == EntryOf(items)(builders[p]);
    }
    GroupByBuilderIsFilterThenMap(builders, items);
  }

  /** The timeline shows only selected upgrades of the schedule, each on the
      builder the schedule gave it; ids that name no scheduled upgrade are
      ignored. */
  lemma TimelineOnlySelected(builders: seq<Builder>, queue: seq<QueueItem>, selected: seq<int>, now: int,
                             e: TimelineItem, t: TimelineTask)
    requires GenerateBuilderTimeline(builders, queue, selected, now).Success?
    requires e in GenerateBuilderTimeline(builders, queue, selected, now).value && t in e.tasks
    ensures t.id in selected
    ensures exists item :: item in GenerateUpgradeSchedule(builders, queue, now).value
                        && item.builderId == e.builderId && ToTask(item) == t
  {
    var items := GenerateUpgradeSchedule(builders, queue, now).value;
    TimelineTaskOrigin(builders, SelectedItems(items, selected), e, t);
  }

  /** Nothing selected, nothing shown. */
  lemma EmptySelectionEmptyTimeline(builders: seq<Builder>, queue: seq<QueueItem>, now: int)
    requires GenerateBuilderTimeline(builders, queue, [], now).Success?
    ensures GenerateBuilderTimeline(builders, queue, [], now).value == []
  {
    var items := GenerateUpgradeSchedule(builders, queue, now).value;
    FilterNone(items, (x: ScheduleItem) => x.id in []);
    assert SelectedItems(items, []) == [];
    GroupByBuilderIsFilterThenMap(builders, []);
    assert forall b: Builder :: ItemsOf([], b.id) == [];
    FilterNone(builders, HasItems([]));
  }
}
