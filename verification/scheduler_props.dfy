/** What the schedule promises: one item per queued upgrade in priority order
    with dense ids, each placed greedily on the earliest builder, never before
    `now`, and never overlapping on one builder. */
module ScheduleProperties {
  import opened Wrappers
  import opened Seqs
  import opened StableSort
  import opened PlannerTypes
  import opened Scheduler

  /** The run over a prefix of the buildings is a prefix of the run. */
  lemma {:induction false} AssignAllPrefix(b: seq<QueueItem>, a0: seq<Availability>, n: nat)
    requires |a0| > 0 && n <= |b|
    ensures AssignAll(b[..n], a0).items == AssignAll(b, a0).items[..n]
    decreases |b|
  {
    if n < |b| {
      var b' := b[..|b| - 1];
      AssignAllPrefix(b', a0, n);
      assert b'[..n] == b[..n];
      assert AssignAll(b, a0).items == AssignAll(b', a0).items + [Step(AssignAll(b', a0).avail, b[|b| - 1], |b|).0];
    } else {
      assert b[..n] == b;
    }
  }

  /** Item `i` of a run is what `Step` makes of the state left by the first
      `i` buildings. */
  lemma AssignAllItem(b: seq<QueueItem>, a0: seq<Availability>, i: nat)
    requires |a0| > 0 && i < |b|
    ensures AssignAll(b, a0).items[i] == Step(AssignAll(b[..i], a0).avail, b[i], i + 1).0
  {
    var c := b[..i + 1];
    var before := AssignAll(b[..i], a0);
    assert AssignAll(c, a0).items[i] == Step(before.avail, b[i], i + 1).0 by {
      assert c[..|c| - 1] == b[..i] && c[|c| - 1] == b[i];
    }
    AssignAllPrefix(b, a0, i + 1);
  }

  /** A run keeps the multiset of builder ids in the availability array. */
  lemma {:induction false} AssignAllKeepsIds(b: seq<QueueItem>, a0: seq<Availability>)
    requires |a0| > 0
    ensures multiset(MapSeq(AssignAll(b, a0).avail, AvailabilityId)) == multiset(MapSeq(a0, AvailabilityId))
    decreases |b|
  {
    if |b| > 0 {
      var n := |b| - 1;
      AssignAllKeepsIds(b[..n], a0);
      StepKeepsIds(AssignAll(b[..n], a0).avail, b[n], n + 1);
    }
  }

  /** One round moves no entry of the array below a common lower bound. */
  lemma StepNotBefore(avail: seq<Availability>, building: QueueItem, id: int, now: int)
    requires |avail| > 0
    requires forall j :: 0 <= j < |avail| ==> now <= avail[j].nextAvailableTime
    ensures var next := Step(avail, building, id).1;
      forall j :: 0 <= j < |next| ==> now <= next[j].nextAvailableTime
  {
    var (item, next) := Step(avail, building, id);
    StepChoosesFirstEarliest(avail, building, id);
    StepKeepsOtherEntries(avail, building, id);
    forall j | 0 <= j < |next|
      ensures now <= next[j].nextAvailableTime
    {
      if j > 0 {
        assert next[j] in multiset(next[1..]);
      }
    }
  }

  /** No entry of a run's array is earlier than a lower bound of the initial
      entries. */
  lemma {:induction false} AssignAllNotBefore(b: seq<QueueItem>, a0: seq<Availability>, now: int)
    requires |a0| > 0
    requires forall j :: 0 <= j < |a0| ==> now <= a0[j].nextAvailableTime
    ensures forall j :: 0 <= j < |AssignAll(b, a0).avail| ==> now <= AssignAll(b, a0).avail[j].nextAvailableTime
    decreases |b|
  {
    if |b| > 0 {
      var n := |b| - 1;
      AssignAllNotBefore(b[..n], a0, now);
      StepNotBefore(AssignAll(b[..n], a0).avail, b[n], n + 1, now);
    }
  }

  /** What every single item of a run satisfies: its id is its position plus
      one, it names its building, it is unselected, it lasts the building's
      duration, and it starts at an instant of one of the initial builders no
      earlier than `now`. */
  lemma AssignAllItemFacts(b: seq<QueueItem>, a0: seq<Availability>, now: int, k: nat)
    requires |a0| > 0 && k < |b|
    requires forall j :: 0 <= j < |a0| ==> now <= a0[j].nextAvailableTime
    ensures var item := AssignAll(b, a0).items[k];
      && item.id == k + 1 && item.buildingId == b[k].id && !item.selected
      && item.endTime == item.startTime + DurationToMinutes(b[k].duration)
      && now <= item.startTime
      && item.builderId in MapSeq(a0, AvailabilityId)
  {
    AssignAllItem(b, a0, k);
    var before := AssignAll(b[..k], a0);
    AssignAllNotBefore(b[..k], a0, now);
    AssignAllKeepsIds(b[..k], a0);
    StepChoosesFirstEarliest(before.avail, b[k], k + 1);
    var item := Step(before.avail, b[k], k + 1).0;
    var c :| 0 <= c < |before.avail| && before.avail[c] == Availability(item.builderId, item.startTime);
    assert item.builderId == MapSeq(before.avail, AvailabilityId)[c];
    assert item.builderId in multiset(MapSeq(a0, AvailabilityId));
  }

  /** Every array entry is no earlier than the end of each item already given
      to that entry's builder. */
  ghost predicate EntriesNotBeforeItems(items: seq<ScheduleItem>, avail: seq<Availability>) {
    forall k, j :: 0 <= k < |items| && 0 <= j < |avail| && avail[j].builderId == items[k].builderId
      ==> items[k].endTime <= avail[j].nextAvailableTime
  }

  /** The bookkeeping of one round in general form: the chosen entry `c`
      (builder `item.builderId`, instant `item.startTime`) is replaced at the
      head by the item's end and every other entry is kept. With distinct
      builder ids afterwards, `EntriesNotBeforeItems` carries over. */
  lemma RoundKeepsEntriesNotBeforeItems(items: seq<ScheduleItem>, avail: seq<Availability>,
                                         item: ScheduleItem, next: seq<Availability>, c: nat)
    requires c < |avail| && avail[c] == Availability(item.builderId, item.startTime)
    requires |next| == |avail| && next[0] == Availability(item.builderId, item.endTime)
    requires item.startTime <= item.endTime
    requires multiset(next[1..]) + multiset{avail[c]} == multiset(avail)
    requires forall x :: multiset(MapSeq(next, AvailabilityId))[x] <= 1
    requires EntriesNotBeforeItems(items, avail)
    ensures EntriesNotBeforeItems(items + [item], next)
  {
    var ids := MapSeq(next, AvailabilityId);
    var all := items + [item];
    forall k, j | 0 <= k < |all| && 0 <= j < |next| && next[j].builderId == all[k].builderId
      ensures all[k].endTime <= next[j].nextAvailableTime
    {
      if j > 0 {
        DistinctPositions(ids, 0, j);
        assert next[j] in multiset(next[1..]);
        assert next[j] in multiset(avail);
        var p :| 0 <= p < |avail| && avail[p] == next[j];
        assert all[k] == items[k];
      } else if k < |items| {
        assert all[k] == items[k];
      }
    }
  }

  /** With distinct builder ids, one round keeps `EntriesNotBeforeItems`. */
  lemma AdvanceKeepsEntriesNotBeforeItems(before: Assignment, building: QueueItem, id: int, ids: multiset<int>)
    requires |before.avail| > 0
    requires multiset(MapSeq(before.avail, AvailabilityId)) == ids && forall x :: ids[x] <= 1
    requires EntriesNotBeforeItems(before.items, before.avail)
    ensures EntriesNotBeforeItems(Advance(before, building, id).items, Advance(before, building, id).avail)
  {
    var avail := before.avail;
    var (item, next) := Step(avail, building, id);
    StepChoosesFirstEarliest(avail, building, id);
    StepKeepsOtherEntries(avail, building, id);
    StepKeepsIds(avail, building, id);
    var c :| 0 <= c < |avail| && avail[c] == Availability(item.builderId, item.startTime);
    RoundKeepsEntriesNotBeforeItems(before.items, avail, item, next, c);
  }

  /** With distinct builder ids, a whole run keeps `EntriesNotBeforeItems`. */
  lemma {:induction false} AssignAllEntriesNotBeforeItems(b: seq<QueueItem>, a0: seq<Availability>)
    requires |a0| > 0
    requires forall x :: multiset(MapSeq(a0, AvailabilityId))[x] <= 1
    ensures EntriesNotBeforeItems(AssignAll(b, a0).items, AssignAll(b, a0).avail)
    decreases |b|
  {
    if |b| > 0 {
      var n := |b| - 1;
      var before := AssignAll(b[..n], a0);
      assert AssignAll(b, a0) == Advance(before, b[n], n + 1);
      AssignAllEntriesNotBeforeItems(b[..n], a0);
      AssignAllKeepsIds(b[..n], a0);
      AdvanceKeepsEntriesNotBeforeItems(before, b[n], n + 1, multiset(MapSeq(a0, AvailabilityId)));
    }
  }

  /** With distinct builder ids, an item starts no earlier than any earlier
      item of the same builder ends. */
  lemma NoOverlapPair(b: seq<QueueItem>, a0: seq<Availability>, i: nat, k: nat)
    requires |a0| > 0 && i < k < |b|
    requires forall x :: multiset(MapSeq(a0, AvailabilityId))[x] <= 1
    requires AssignAll(b, a0).items[i].builderId == AssignAll(b, a0).items[k].builderId
    ensures AssignAll(b, a0).items[i].endTime <= AssignAll(b, a0).items[k].startTime
  {
    var items := AssignAll(b, a0).items;
    var before := AssignAll(b[..k], a0);
    AssignAllItem(b, a0, k);
    assert before.items[i] == items[i] by {
      AssignAllPrefix(b, a0, k);
    }
    var item := Step(before.avail, b[k], k + 1).0;
    assert exists c :: 0 <= c < |before.avail| && before.avail[c] == Availability(item.builderId, item.startTime) by {
      StepChoosesFirstEarliest(before.avail, b[k], k + 1);
    }
    var c :| 0 <= c < |before.avail| && before.avail[c] == Availability(item.builderId, item.startTime);
    assert EntriesNotBeforeItems(before.items, before.avail) by {
      AssignAllEntriesNotBeforeItems(b[..k], a0);
    }
    assert before.items[i].endTime <= before.avail[c].nextAvailableTime;
  }

  /** With distinct builder ids, two items of one builder never overlap: the
      later one starts no earlier than the earlier one ends. */
  lemma AssignAllNoOverlap(b: seq<QueueItem>, a0: seq<Availability>)
    requires |a0| > 0
    requires forall x :: multiset(MapSeq(a0, AvailabilityId))[x] <= 1
    ensures var items := AssignAll(b, a0).items;
      forall i, k :: 0 <= i < k < |items| && items[i].builderId == items[k].builderId
        ==> items[i].endTime <= items[k].startTime
  {
    var items := AssignAll(b, a0).items;
    forall i, k | 0 <= i < k < |items| && items[i].builderId == items[k].builderId
      ensures items[i].endTime <= items[k].startTime
    {
      NoOverlapPair(b, a0, i, k);
    }
  }
}
