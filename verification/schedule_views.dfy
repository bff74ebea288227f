/** The two schedule views and the two timeline views over the scheduler:
    the guards that keep them from calling it without data, the per-builder
    grouping of the schedule, and the create/clear buttons. */
module ScheduleViews {
  import opened Wrappers
  import opened Seqs
  import opened StableSort
  import opened PlannerTypes
  import opened Scheduler
  import opened ScheduleTheorems

  /** The schedule a view holds: nothing unless there are builders and
      queued upgrades, else the scheduler's result. */
  function GuardedSchedule(builders: seq<Builder>, queue: seq<QueueItem>, now: int): (r: seq<ScheduleItem>)
    ensures |builders| == 0 || |queue| == 0 ==> r == []
    ensures GenerateUpgradeSchedule(builders, queue, now).Success? ==> r == GenerateUpgradeSchedule(builders, queue, now).value
  {
    if |builders| == 0 || |queue| == 0 then [] else Schedule(builders, queue, now)
  }

  /** The timeline of no items has no entry. */
  lemma {:induction false} NoItemsNoTimeline(builders: seq<Builder>)
    ensures GroupByBuilder(builders, []) == []
    decreases |builders|
  {
    if |builders| > 0 {
      NoItemsNoTimeline(builders[1..]);
      assert ItemsOf([], builders[0].id) == [];
    }
  }

  /** The timeline a view holds: nothing unless there are builders, queued
      upgrades and selected tasks, else the scheduler's timeline. */
  function GuardedTimeline(builders: seq<Builder>, queue: seq<QueueItem>, selected: seq<int>, now: int)
    : (r: seq<TimelineItem>)
    ensures |builders| == 0 || |queue| == 0 || |selected| == 0 ==> r == []
    ensures GenerateBuilderTimeline(builders, queue, selected, now).Success? ==>
      r == GenerateBuilderTimeline(builders, queue, selected, now).value
  {
    if |builders| == 0 then
      NoItemsNoTimeline(builders);
      []
    else if |queue| == 0 then
      NoItemsNoTimeline(builders);
      assert SelectedItems([], selected) == [];
      []
    else if |selected| == 0 then
      EmptySelectionEmptyTimeline(builders, queue, now);
      []
    else
      GroupByBuilder(builders, SelectedItems(Schedule(builders, queue, now), selected))
  }

  function StartTime(item: ScheduleItem): int {
    item.startTime
  }

  /** The items of one builder in `a + b` are its items in `a`, then in `b`. */
  lemma ItemsOfAppend(a: seq<ScheduleItem>, b: seq<ScheduleItem>, builderId: int)
    ensures ItemsOf(a + b, builderId) == ItemsOf(a, builderId) + ItemsOf(b, builderId)
  {
    FilterAppend(a, b, (x: ScheduleItem) => x.builderId == builderId);
  }

  /** The list of `builderId` after pushing `x`: created on first use. */
  function Pushed(g: map<int, seq<ScheduleItem>>, x: ScheduleItem): map<int, seq<ScheduleItem>> {
    g[x.builderId := (if x.builderId in g then g[x.builderId] else []) + [x]]
  }

  /** Pushing one more item keeps the groups equal to the per-builder items. */
  lemma PushKeepsGroups(prefix: seq<ScheduleItem>, x: ScheduleItem, g: map<int, seq<ScheduleItem>>)
    requires forall k :: k in g <==> ItemsOf(prefix, k) != []
    requires forall k :: k in g ==> g[k] == ItemsOf(prefix, k)
    ensures forall k :: k in Pushed(g, x) <==> ItemsOf(prefix + [x], k) != []
    ensures forall k :: k in Pushed(g, x) ==> Pushed(g, x)[k] == ItemsOf(prefix + [x], k)
  {
    forall k
      ensures ItemsOf(prefix + [x], k) == ItemsOf(prefix, k) + (if k == x.builderId then [x] else [])
    {
      ItemsOfAppend(prefix, [x], k);
      assert ItemsOf([x], k) == if k == x.builderId then [x] else [];
    }
  }

  /** The grouping loop: each item, in schedule order, is pushed onto the
      list of its builder. The result maps exactly the builders that have
      items, each to its items in schedule order. */
  function GroupPush(items: seq<ScheduleItem>): (g: map<int, seq<ScheduleItem>>)
    ensures forall k :: k in g <==> ItemsOf(items, k) != []
    ensures forall k :: k in g ==> g[k] == ItemsOf(items, k)
    decreases |items|
  {
    if |items| == 0 then map[]
    else
      var n := |items| - 1;
      PushKeepsGroups(items[..n], items[n], GroupPush(items[..n]));
      assert items == items[..n] + [items[n]];
      Pushed(GroupPush(items[..n]), items[n])
  }

  /** `scheduleByBuilder`: the grouping, then every group sorted by start
      time. Each group holds exactly its builder's items (with their
      multiplicities), ordered by start. */
  function ScheduleByBuilder(items: seq<ScheduleItem>): (r: map<int, seq<ScheduleItem>>)
    ensures forall k :: k in r <==> ItemsOf(items, k) != []
    ensures forall k :: k in r ==> multiset(r[k]) == multiset(ItemsOf(items, k)) && SortedBy(r[k], StartTime)
  {
    var g := GroupPush(items);
    map k | k in g :: Sort(g[k], StartTime)
  }

  /** Every item is in the group of its own builder. */
  lemma ItemInOwnGroup(items: seq<ScheduleItem>, i: nat)
    requires i < |items|
    ensures items[i].builderId in ScheduleByBuilder(items)
    ensures items[i] in ScheduleByBuilder(items)[items[i].builderId]
  {
    var k := items[i].builderId;
    assert items[i] in ItemsOf(items, k);
    assert items[i] in multiset(ScheduleByBuilder(items)[k]);
  }

  /** A group holds an item exactly as often as the schedule does when the
      builder matches, and never otherwise. */
  lemma GroupCounts(items: seq<ScheduleItem>, k: int, x: ScheduleItem)
    requires k in ScheduleByBuilder(items)
    ensures multiset(ScheduleByBuilder(items)[k])[x] == if x.builderId == k then multiset(items)[x] else 0
  {
    FilterMultiset(items, (x: ScheduleItem) => x.builderId == k);
  }

  /** The grouping partitions the schedule: no item is lost, none lands in
      another builder's group, none is duplicated. */
  lemma ScheduleByBuilderPartitions(items: seq<ScheduleItem>)
    ensures var r := ScheduleByBuilder(items);
      && (forall i :: 0 <= i < |items| ==> items[i].builderId in r && items[i] in r[items[i].builderId])
      && (forall k, x: ScheduleItem :: k in r ==> multiset(r[k])[x] == if x.builderId == k then multiset(items)[x] else 0)
  {
    forall i | 0 <= i < |items|
      ensures items[i].builderId in ScheduleByBuilder(items) && items[i] in ScheduleByBuilder(items)[items[i].builderId]
    {
      ItemInOwnGroup(items, i);
    }
    forall k, x: ScheduleItem | k in ScheduleByBuilder(items)
      ensures multiset(ScheduleByBuilder(items)[k])[x] == if x.builderId == k then multiset(items)[x] else 0
    {
      GroupCounts(items, k, x);
    }
  }

  /** On the scheduler's own output, with distinct builder ids, every group
      is already in start order: the sort inside the grouping changes
      nothing and each group is the builder's items in schedule order. */
  lemma {:induction false} ScheduleGroupsAlreadyInOrder(builders: seq<Builder>, queue: seq<QueueItem>, now: int)
    requires |builders| > 0
    requires NoDuplicates(MapSeq(builders, BuilderId))
    ensures var items := Schedule(builders, queue, now);
      forall k :: k in ScheduleByBuilder(items) ==> ScheduleByBuilder(items)[k] == ItemsOf(items, k)
  {
    var items := Schedule(builders, queue, now);
    ScheduleNoOverlap(builders, queue, now);
    forall i | 0 <= i < |items|
      ensures items[i].startTime <= items[i].endTime
    {
      ScheduleItemFacts(builders, queue, now, i);
    }
    forall k | k in ScheduleByBuilder(items)
      ensures ScheduleByBuilder(items)[k] == ItemsOf(items, k)
    {
      FilterSortedBy(items, (x: ScheduleItem) => x.builderId == k, StartTime);
      SortOfSorted(ItemsOf(items, k), StartTime);
    }
  }

  /** The schedule view's flag `isScheduleGenerated` and the selection. The
      flag does not decide whether the schedule is drawn: the schedule is
      recomputed from the data whatever the flag says, and the flag only
      picks the message shown when there is nothing to draw. */
  datatype ScheduleView = ScheduleView(generated: bool, selected: seq<int>)

  const PromptMessage := "Click 'Create Schedule' to generate an upgrade plan."
  const NothingToScheduleMessage := "No upgrades to schedule. Add buildings to the queue first."

  /** What the view draws: the groups of the schedule, or a message. */
  datatype Display = Groups(groups: map<int, seq<ScheduleItem>>) | Message(text: string)

  /** The view's body: the per-builder groups when there are any, else the
      message the flag picks. */
  function ScheduleDisplay(v: ScheduleView, items: seq<ScheduleItem>): (r: Display)
    ensures r.Groups? <==> items != []
    ensures r.Groups? ==> r.groups == ScheduleByBuilder(items)
    ensures r.Message? ==> r.text == if v.generated then NothingToScheduleMessage else PromptMessage
  {
    var g := ScheduleByBuilder(items);
    assert items != [] ==> items[0].builderId in g by {
      if items != [] {
        ItemInOwnGroup(items, 0);
      }
    }
    if |g| == 0 then Message(if v.generated then NothingToScheduleMessage else PromptMessage)
    else Groups(g)
  }

  /** `handleCreateSchedule`: raises the flag, keeps the selection. */
  function CreateSchedule(v: ScheduleView): ScheduleView {
    v.(generated := true)
  }

  /** `handleClearSchedule`: lowers the flag and drops the selection. */
  function ClearSchedule(v: ScheduleView): ScheduleView {
    ScheduleView(false, [])
  }

  /** Neither button changes what is drawn when there is a schedule: the
      groups stay. With nothing to draw, create switches the prompt to the
      nothing-to-schedule message and clear switches it back. */
  lemma ButtonsOnlyPickTheMessage(v: ScheduleView, items: seq<ScheduleItem>)
    ensures items != [] ==>
      && ScheduleDisplay(CreateSchedule(v), items) == ScheduleDisplay(v, items)
      && ScheduleDisplay(ClearSchedule(v), items) == ScheduleDisplay(v, items)
    ensures items == [] ==>
      && ScheduleDisplay(CreateSchedule(v), items) == Message(NothingToScheduleMessage)
      && ScheduleDisplay(ClearSchedule(v), items) == Message(PromptMessage)
  {
  }

  /** After clearing, the flag is down and no task is selected, so the
      timeline of selected tasks is empty whatever the data, and pressing
      create again brings no selection back. */
  lemma ClearedScheduleShowsNoTimeline(v: ScheduleView, builders: seq<Builder>, queue: seq<QueueItem>, now: int)
    ensures !ClearSchedule(v).generated
    ensures GuardedTimeline(builders, queue, ClearSchedule(v).selected, now) == []
    ensures CreateSchedule(ClearSchedule(v)).selected == []
  {
  }

  /** The other schedule view's create button: recomputes the schedule when
      there are builders and queued upgrades, else keeps what it had. */
  function CreateScheduleItems(items: seq<ScheduleItem>, builders: seq<Builder>, queue: seq<QueueItem>, now: int)
    : (r: seq<ScheduleItem>)
    ensures |builders| == 0 || |queue| == 0 ==> r == items
    ensures |builders| > 0 && |queue| > 0 ==> r == GuardedSchedule(builders, queue, now)
  {
    if |builders| > 0 && |queue| > 0 then Schedule(builders, queue, now) else items
  }

  /** Pressing create right after the view recomputed its schedule from the
      same data changes nothing. */
  lemma CreateAfterRecomputeChangesNothing(builders: seq<Builder>, queue: seq<QueueItem>, now: int)
    ensures CreateScheduleItems(GuardedSchedule(builders, queue, now), builders, queue, now)
         == GuardedSchedule(builders, queue, now)
  {
  }

  /** The schedule items and the selection of that view. */
  datatype PlannerView = PlannerView(items: seq<ScheduleItem>, selected: seq<int>)

  /** `handleClearSelection`: drops the selection. */
  function ClearSelection(v: PlannerView): PlannerView {
    v.(selected := [])
  }

  /** Clearing the selection keeps the schedule and empties the timeline. */
  lemma ClearSelectionKeepsSchedule(v: PlannerView, builders: seq<Builder>, queue: seq<QueueItem>, now: int)
    ensures ClearSelection(v).items == v.items
    ensures GuardedTimeline(builders, queue, ClearSelection(v).selected, now) == []
  {
  }
}
