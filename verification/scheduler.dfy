/** The greedy builder-upgrade scheduler and the per-builder timeline derived
    from it.

    The queue is stably sorted by priority (High, Medium, Low). Every builder
    gets a next-available instant: `now` when idle, `now` plus its remaining
    time when busy. Each upgrade, in sorted order, goes to the head of the
    availability array after that array is stably re-sorted by next-available
    instant; the upgrade runs from that instant for its duration, and the
    builder becomes available again when it ends. The re-sort is applied to
    the array left by the previous round, so ties go to the builder that sits
    earlier in that array, not to the lowest builder id. */
module Scheduler {
  import opened Wrappers
  import opened Seqs
  import opened StableSort
  import opened JsMath
  import opened PlannerTypes

  const MinutesPerHour: nat := 60
  const HoursPerDay: nat := 24
  const MinutesPerDay: nat := HoursPerDay * MinutesPerHour

  /** The total length of a duration in minutes. */
  function DurationToMinutes(d: Duration): (m: nat)
    ensures m == 0 <==> d.days == 0 && d.hours == 0 && d.minutes == 0
    ensures m >= d.days * MinutesPerDay && m >= d.hours * MinutesPerHour && m >= d.minutes
  {
    d.days * MinutesPerDay + d.hours * MinutesPerHour + d.minutes
  }

  /** The normalised duration of `m` minutes: whole days, then hours below 24,
      then minutes below 60. */
  function MinutesToDuration(m: nat): (d: Duration)
    ensures d.hours < HoursPerDay && d.minutes < MinutesPerHour
    ensures DurationToMinutes(d) == m
  {
    var q, r := m / MinutesPerDay, m % MinutesPerDay;
    var h, mm := r / MinutesPerHour, r % MinutesPerHour;
    assert m == q * MinutesPerDay + h * MinutesPerHour + mm;
    assert m % MinutesPerHour == mm by {
      assert m == (q * HoursPerDay + h) * MinutesPerHour + mm;
      DivModOf(m, MinutesPerHour, q * HoursPerDay + h, mm);
    }
    Duration(q, h, m % MinutesPerHour)
  }

  /** A non-zero multiple of a positive `d` is at least `d` away from zero. */
  lemma MultipleBounds(k: int, d: int)
    requires d > 0
    ensures k >= 1 ==> k * d >= d
    ensures k <= -1 ==> k * d <= -d
  {
    if k >= 1 {
      assert k * d == (k - 1) * d + d;
    } else if k <= -1 {
      assert k * d == (k + 1) * d - d;
    }
  }

  /** Division by a positive divisor is determined by any quotient/remainder
      decomposition with the remainder in range. */
  lemma DivModOf(m: int, d: int, q: int, r: int)
    requires d > 0 && 0 <= r < d && m == q * d + r
    ensures m / d == q && m % d == r
  {
    assert (q - m / d) * d == m % d - r;
    MultipleBounds(q - m / d, d);
  }

  /** A duration with hours below 24 and minutes below 60 is recovered from
      its total minutes. */
  lemma DurationRoundTrip(d: Duration)
    requires d.hours < HoursPerDay && d.minutes < MinutesPerHour
    ensures MinutesToDuration(DurationToMinutes(d)) == d
  {
    var m := DurationToMinutes(d);
    var within := d.hours * 60 + d.minutes;
    assert within < 1440;
    DivModOf(m, 1440, d.days, within);
    DivModOf(within, 60, d.hours, d.minutes);
    assert m == (d.days * 24 + d.hours) * 60 + d.minutes;
    DivModOf(m, 60, d.days * 24 + d.hours, d.minutes);
  }

  /** An instant moved `minutes` later. */
  function AddMinutes(time: int, minutes: int): int {
    time + minutes
  }

  /** Whether `time` (minutes on the local clock) falls in the nightly sleep
      window that starts at `sleepHours:sleepMinutes` and lasts
      `sleepDuration` hours. Only the time of day of `time` matters. */
  function IsInSleepPeriod(time: int, sleepHours: int, sleepMinutes: int, sleepDuration: int): (asleep: bool)
    ensures time % MinutesPerDay == sleepHours * MinutesPerHour + sleepMinutes ==> asleep
    ensures 0 <= sleepHours < HoursPerDay && 0 <= sleepMinutes < MinutesPerHour && 1 <= sleepDuration < HoursPerDay
            && time % MinutesPerDay == Rem(sleepHours + sleepDuration, HoursPerDay) * MinutesPerHour + sleepMinutes
            ==> !asleep
  {
    var timeOfDay := time % MinutesPerDay;
    var sleepStart := sleepHours * MinutesPerHour + sleepMinutes;
    var sleepEnd := Rem(sleepHours + sleepDuration, HoursPerDay) * MinutesPerHour + sleepMinutes;
    if sleepStart < sleepEnd then
      sleepStart <= timeOfDay < sleepEnd
    else
      timeOfDay >= sleepStart || timeOfDay < sleepEnd
  }

  /** For a start on the clock and a length of one to 24 hours, the window is
      exactly the instants less than `sleepDuration` hours after the most
      recent start: both the same-day and the past-midnight case. */
  lemma SleepPeriodIsWindowAfterStart(time: int, sleepHours: int, sleepMinutes: int, sleepDuration: int)
    requires 0 <= sleepHours < HoursPerDay && 0 <= sleepMinutes < MinutesPerHour
    requires 1 <= sleepDuration <= HoursPerDay
    ensures IsInSleepPeriod(time, sleepHours, sleepMinutes, sleepDuration)
        <==> (time - (sleepHours * MinutesPerHour + sleepMinutes)) % MinutesPerDay < sleepDuration * MinutesPerHour
  {
    var t := time % MinutesPerDay;
    var start := sleepHours * MinutesPerHour + sleepMinutes;
    var q := time / MinutesPerDay;
    assert time == q * MinutesPerDay + t;
    var diff := if t >= start then t - start else t - start + MinutesPerDay;
    assert 0 <= diff < MinutesPerDay;
    assert time - start == q * MinutesPerDay + diff || time - start == (q - 1) * MinutesPerDay + diff;
    ModuloShift(time - start, diff);
    if sleepHours + sleepDuration < HoursPerDay {
      assert Rem(sleepHours + sleepDuration, HoursPerDay) == sleepHours + sleepDuration;
    } else {
      assert Rem(sleepHours + sleepDuration, HoursPerDay) == sleepHours + sleepDuration - HoursPerDay;
    }
  }

  /** A value congruent to `diff` modulo one day, with `diff` inside the day,
      has `diff` as its remainder. */
  lemma ModuloShift(x: int, diff: int)
    requires 0 <= diff < MinutesPerDay
    requires exists q :: x == q * MinutesPerDay + diff
    ensures x % MinutesPerDay == diff
  {
    var q :| x == q * MinutesPerDay + diff;
    assert x / MinutesPerDay == q;
  }

  /** A zero-hour window is not empty: its end equals its start, so the
      past-midnight branch holds for every instant. */
  lemma ZeroSleepDurationCoversWholeDay(time: int, sleepHours: int, sleepMinutes: int)
    requires 0 <= sleepHours < HoursPerDay && 0 <= sleepMinutes < MinutesPerHour
    ensures IsInSleepPeriod(time, sleepHours, sleepMinutes, 0)
  {
  }

  /** A builder's entry in the availability array. */
  datatype Availability = Availability(builderId: int, nextAvailableTime: int)

  function NextTime(a: Availability): int {
    a.nextAvailableTime
  }

  function AvailabilityId(a: Availability): int {
    a.builderId
  }

  function BuilderId(b: Builder): int {
    b.id
  }

  /** When a builder can take its first upgrade: `now` when idle; when busy,
      `now` plus its remaining time, a missing remaining time counting as 0. */
  function ReadyAt(b: Builder, now: int): (t: int)
    ensures t >= now
    ensures b.status == Idle ==> t == now
    ensures b.status == Busy ==> t - now == DurationToMinutes(b.remainingTime.GetOr(Duration(0, 0, 0)))
  {
    if b.status == Idle then now
    else AddMinutes(now, DurationToMinutes(b.remainingTime.GetOr(Duration(0, 0, 0))))
  }

  /** The availability array before the first upgrade, in builder order. */
  function InitialAvailability(builders: seq<Builder>, now: int): (r: seq<Availability>)
    ensures |r| == |builders|
    ensures forall i :: 0 <= i < |r| ==> r[i].builderId == builders[i].id
    ensures forall i :: 0 <= i < |r| ==> r[i].nextAvailableTime == ReadyAt(builders[i], now)
  {
    seq(|builders|, i requires 0 <= i < |builders| => Availability(builders[i].id, ReadyAt(builders[i], now)))
  }

  /** High before Medium before Low. */
  function PriorityRank(item: QueueItem): int {
    match item.priority
    case High => 0
    case Medium => 1
    case Low => 2
  }

  /** The queue in the order upgrades are scheduled. */
  function SortedQueue(queue: seq<QueueItem>): seq<QueueItem> {
    Sort(queue, PriorityRank)
  }

  /** One round: re-sort the array by next-available instant, give the upgrade
      to the head, and move the head's instant to the upgrade's end. The
      upgrade starts at the earliest instant in the array. */
  function Step(avail: seq<Availability>, building: QueueItem, id: int): (r: (ScheduleItem, seq<Availability>))
    requires |avail| > 0
    ensures r.0.id == id && r.0.buildingId == building.id && !r.0.selected
    ensures r.0.endTime == r.0.startTime + DurationToMinutes(building.duration)
    ensures forall j :: 0 <= j < |avail| ==> r.0.startTime <= avail[j].nextAvailableTime
    ensures |r.1| == |avail| && r.1[0] == Availability(r.0.builderId, r.0.endTime)
  {
    var sorted := Sort(avail, NextTime);
    SortHeadMinimum(avail, NextTime);
    var earliest := sorted[0];
    var startTime := earliest.nextAvailableTime;
    var endTime := AddMinutes(startTime, DurationToMinutes(building.duration));
    (ScheduleItem(id, building.id, earliest.builderId, startTime, endTime, false),
     [earliest.(nextAvailableTime := endTime)] + sorted[1..])
  }

  /** The tie-break of `Step`: the chosen builder is the FIRST entry of the
      array (as the previous round left it) whose instant is the minimum. */
  lemma StepChoosesFirstEarliest(avail: seq<Availability>, building: QueueItem, id: int)
    requires |avail| > 0
    ensures var item := Step(avail, building, id).0;
      exists k :: 0 <= k < |avail| && avail[k] == Availability(item.builderId, item.startTime)
               && (forall j :: 0 <= j < k ==> item.startTime < avail[j].nextAvailableTime)
  {
    SortHeadMinimum(avail, NextTime);
  }

  /** `Step` replaces the chosen entry by one with the new instant and keeps
      every other entry. */
  lemma StepKeepsOtherEntries(avail: seq<Availability>, building: QueueItem, id: int)
    requires |avail| > 0
    ensures var (item, next) := Step(avail, building, id);
      multiset(next[1..]) + multiset{Availability(item.builderId, item.startTime)} == multiset(avail)
  {
    var sorted := Sort(avail, NextTime);
    var next := Step(avail, building, id).1;
    assert next[1..] == sorted[1..];
    assert sorted == [sorted[0]] + sorted[1..];
  }

  /** `Step` keeps the builder ids of the array. */
  lemma StepKeepsIds(avail: seq<Availability>, building: QueueItem, id: int)
    requires |avail| > 0
    ensures multiset(MapSeq(Step(avail, building, id).1, AvailabilityId)) == multiset(MapSeq(avail, AvailabilityId))
  {
    var sorted := Sort(avail, NextTime);
    var next := Step(avail, building, id).1;
    SortProjection(avail, NextTime, AvailabilityId);
    assert sorted == [sorted[0]] + sorted[1..];
    assert next == [next[0]] + sorted[1..];
    MapSeqAppend([sorted[0]], sorted[1..], AvailabilityId);
    MapSeqAppend([next[0]], sorted[1..], AvailabilityId);
  }

  /** The upgrades placed so far and the availability array after them. */
  datatype Assignment = Assignment(items: seq<ScheduleItem>, avail: seq<Availability>)

  /** One round applied to a partial assignment: the new item is appended. */
  function Advance(r: Assignment, building: QueueItem, id: int): (r': Assignment)
    requires |r.avail| > 0
    ensures |r'.items| == |r.items| + 1 && |r'.avail| == |r.avail|
  {
    var step := Step(r.avail, building, id);
    Assignment(r.items + [step.0], step.1)
  }

  /** Runs `Step` over `buildings` in order, from the array `avail0`; the
      upgrade at position `i` gets id `i + 1`. Defined on the last building so
      that the state before upgrade `i` is the run over the first `i`. */
  function AssignAll(buildings: seq<QueueItem>, avail0: seq<Availability>): (r: Assignment)
    requires |avail0| > 0
    ensures |r.items| == |buildings| && |r.avail| == |avail0|
    decreases |buildings|
  {
    if |buildings| == 0 then Assignment([], avail0)
    else
      Advance(AssignAll(buildings[..|buildings| - 1], avail0), buildings[|buildings| - 1], |buildings|)
  }

  /** The schedule for a non-empty set of builders. */
  function Schedule(builders: seq<Builder>, queue: seq<QueueItem>, now: int): (r: seq<ScheduleItem>)
    requires |builders| > 0
    ensures |r| == |queue|
  {
    AssignAll(SortedQueue(queue), InitialAvailability(builders, now)).items
  }

  /** The availability array just before upgrade `i` of the schedule is placed. */
  function AvailabilityBefore(builders: seq<Builder>, queue: seq<QueueItem>, now: int, i: nat): seq<Availability>
    requires |builders| > 0 && i <= |queue|
  {
    AssignAll(SortedQueue(queue)[..i], InitialAvailability(builders, now)).avail
  }

  /** `generateUpgradeSchedule`. With no builders and a non-empty queue the
      array has no head to take and the call fails; otherwise one item per
      queued upgrade. */
  function GenerateUpgradeSchedule(builders: seq<Builder>, queue: seq<QueueItem>, now: int)
    : (r: Result<seq<ScheduleItem>, ScheduleError>)
    ensures r.Failure? <==> |builders| == 0 && |queue| > 0
    ensures r.Success? ==> |r.value| == |queue|
  {
    if |queue| == 0 then Success([])
    else if |builders| == 0 then Failure(NoBuilders)
    else Success(Schedule(builders, queue, now))
  }

  /** The schedule items whose id is selected, in schedule order. */
  function SelectedItems(items: seq<ScheduleItem>, selected: seq<int>): seq<ScheduleItem> {
    Filter(items, (x: ScheduleItem) => x.id in selected)
  }

  /** The items placed on builder `builderId`, in schedule order. */
  function ItemsOf(items: seq<ScheduleItem>, builderId: int): seq<ScheduleItem> {
    Filter(items, (x: ScheduleItem) => x.builderId == builderId)
  }

  function ToTask(item: ScheduleItem): TimelineTask {
    TimelineTask(item.id, item.buildingId, item.startTime, item.endTime)
  }

  /** One timeline entry per builder, in builder order, holding that builder's
      items; builders without items get no entry. */
  function GroupByBuilder(builders: seq<Builder>, items: seq<ScheduleItem>): (r: seq<TimelineItem>)
    ensures |r| <= |builders|
    ensures forall k :: 0 <= k < |r| ==> |r[k].tasks| > 0
    decreases |builders|
  {
    if |builders| == 0 then []
    else
      var tasks := MapSeq(ItemsOf(items, builders[0].id), ToTask);
      (if |tasks| > 0 then [TimelineItem(builders[0].id, tasks)] else [])
        + GroupByBuilder(builders[1..], items)
  }

  /** `generateBuilderTimeline`: the schedule recomputed, filtered to the
      selected ids and grouped per builder. */
  function GenerateBuilderTimeline(builders: seq<Builder>, queue: seq<QueueItem>, selected: seq<int>, now: int)
    : (r: Result<seq<TimelineItem>, ScheduleError>)
    ensures r.Failure? <==> |builders| == 0 && |queue| > 0
  {
    match GenerateUpgradeSchedule(builders, queue, now)
    case Failure(e) => Failure(e)
    case Success(items) => Success(GroupByBuilder(builders, SelectedItems(items, selected)))
  }
}
