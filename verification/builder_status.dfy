/** The builder list editor: changing the number of builders and setting one
    builder's status and remaining time. */
module BuilderEdits {
  import opened Wrappers
  import opened Seqs
  import opened PlannerTypes
  import opened Scheduler

  /** The builder added at position `i` when the list grows: id `i + 1`,
      idle, no remaining time. */
  function NewBuilder(i: nat): Builder {
    Builder(i + 1, Idle, None)
  }

  /** The list resized to `count`, declaratively: position `i` keeps the old
      builder when there is one and gets a new builder otherwise. */
  function Resized(builders: seq<Builder>, count: nat): (r: seq<Builder>)
    ensures |r| == count
  {
    seq(count, i requires 0 <= i < count => if i < |builders| then builders[i] else NewBuilder(i))
  }

  /** `handleBuilderCountChange`: builds the new list position by position. */
  method ResizeBuilders(builders: seq<Builder>, count: nat) returns (r: seq<Builder>)
    ensures |r| == count
    ensures forall i :: 0 <= i < count && i < |builders| ==> r[i] == builders[i]
    ensures forall i :: |builders| <= i < count ==> r[i] == NewBuilder(i)
    ensures r == Resized(builders, count)
  {
    r := [];
    var i := 0;
    while i < count
      invariant i <= count && |r| == i
      invariant forall j :: 0 <= j < i && j < |builders| ==> r[j] == builders[j]
      invariant forall j :: |builders| <= j < i ==> r[j] == NewBuilder(j)
    {
      if i < |builders| {
        r := r + [builders[i]];
      } else {
        r := r + [NewBuilder(i)];
      }
      i := i + 1;
    }
  }

  /** Resizing to the current count changes nothing. */
  lemma ResizeToSameCount(builders: seq<Builder>)
    ensures Resized(builders, |builders|) == builders
  {
  }

  /** Two resizes are one when the first keeps every builder the second
      needs: it is no shorter than the second, or no shorter than the list. */
  lemma ResizeTwice(builders: seq<Builder>, m: nat, n: nat)
    requires m >= n || m >= |builders|
    ensures Resized(Resized(builders, m), n) == Resized(builders, n)
  {
  }

  /** Shrinking below the list and growing back loses the dropped builders:
      the position `m` now holds a new idle builder. */
  lemma ShrinkThenGrowResetsBuilder(builders: seq<Builder>, m: nat, n: nat)
    requires m < |builders| && m < n
    ensures Resized(Resized(builders, m), n)[m] == NewBuilder(m)
  {
  }

  /** A list numbered 1, 2, ... stays numbered 1, 2, ... after a resize, so
      its builder ids stay distinct. */
  lemma ResizeKeepsNumbering(builders: seq<Builder>, count: nat)
    requires forall i :: 0 <= i < |builders| ==> builders[i].id == i + 1
    ensures forall i :: 0 <= i < count ==> Resized(builders, count)[i].id == i + 1
    ensures NoDuplicates(MapSeq(Resized(builders, count), BuilderId))
  {
    var ids := MapSeq(Resized(builders, count), BuilderId);
    assert forall i :: 0 <= i < |ids| ==> ids[i] == i + 1;
  }

  /** One builder after a status edit: the status set, the remaining time set
      when busy and cleared when idle, the id kept. */
  function WithStatus(b: Builder, status: BuilderStatus, days: Option<nat>, hours: Option<nat>, minutes: Option<nat>): Builder {
    b.(status := status, remainingTime := if status == Busy then Some(FormDuration(days, hours, minutes)) else None)
  }

  /** `updateBuilderStatus`: every builder with the given id gets the status
      and, when busy, the entered days, hours and minutes with a blank part
      as 0; nothing else of it changes. Every other builder is left as it
      was, and the list keeps its length and order. */
  function UpdateBuilderStatus(builders: seq<Builder>, builderId: int, status: BuilderStatus,
                               days: Option<nat>, hours: Option<nat>, minutes: Option<nat>): (r: seq<Builder>)
    ensures |r| == |builders|
    ensures forall i :: 0 <= i < |r| ==> r[i].id == builders[i].id
    ensures forall i :: 0 <= i < |r| && builders[i].id != builderId ==> r[i] == builders[i]
    ensures forall i :: 0 <= i < |r| && builders[i].id == builderId ==>
      r[i].status == status && (r[i].remainingTime.Some? <==> status == Busy)
    ensures forall i :: 0 <= i < |r| && builders[i].id == builderId && status == Busy ==>
      r[i].remainingTime == Some(Duration(days.GetOr(0), hours.GetOr(0), minutes.GetOr(0)))
    ensures forall i :: 0 <= i < |r| && builders[i].id == builderId ==>
      r[i] == builders[i].(status := r[i].status, remainingTime := r[i].remainingTime)
  {
    MapSeq(builders, (b: Builder) => if b.id == builderId then WithStatus(b, status, days, hours, minutes) else b)
  }

  /** Applying the same edit twice is applying it once. */
  lemma UpdateBuilderStatusIdempotent(builders: seq<Builder>, builderId: int, status: BuilderStatus,
                                     days: Option<nat>, hours: Option<nat>, minutes: Option<nat>)
    ensures var once := UpdateBuilderStatus(builders, builderId, status, days, hours, minutes);
      UpdateBuilderStatus(once, builderId, status, days, hours, minutes) == once
  {
  }

  /** What the scheduler makes of an edited builder: idle means available at
      `now`; busy means available after the entered time, missing components
      counting as zero. */
  lemma UpdatedBuilderReadyAt(builders: seq<Builder>, builderId: int, status: BuilderStatus,
                              days: Option<nat>, hours: Option<nat>, minutes: Option<nat>, now: int, i: nat)
    requires i < |builders| && builders[i].id == builderId
    ensures var b := UpdateBuilderStatus(builders, builderId, status, days, hours, minutes)[i];
      ReadyAt(b, now) == now + if status == Idle then 0
        else days.GetOr(0) * MinutesPerDay + hours.GetOr(0) * MinutesPerHour + minutes.GetOr(0)
  {
  }

  /** The sleep-duration input: a number that parses to 0, or does not parse
      (`parseInt(...) || 8`), becomes 8 hours; any other parsed number is
      kept. */
  function SleepDurationInput(parsed: Option<int>): (hours: int)
    ensures hours != 0
    ensures parsed.Some? && parsed.value != 0 ==> hours == parsed.value
    ensures (parsed.None? || parsed.value == 0) ==> hours == 8
  {
    match parsed
    case Some(n) => if n != 0 then n else 8
    case None => 8
  }
}
