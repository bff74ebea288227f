/** What the two timeline views compute for display: the window the tasks
    are drawn in, a task's duration as text, its progress, and its bar
    geometry and colour. Instants are minutes, as in the scheduler; the
    duration texts take milliseconds, as ECMAScript dates subtract to. */
module TimelineView {
  import opened Wrappers
  import opened Text
  import opened JsMath
  import opened PlannerTypes
  import opened Scheduler

  /** Length of the default window and of the width/position scale. */
  const TimelineDays: nat := 7

  /** The window the toolkit timeline is drawn in. Without data it is a week
      from `now`. Otherwise it starts at the earlier of `now` and the first
      task start, and ends at the later of `now` and the last task end. */
  method TimelineWindow(data: seq<TimelineItem>, now: int) returns (start: int, end: int)
    ensures |data| == 0 ==> start == now && end == now + TimelineDays * MinutesPerDay
    ensures |data| > 0 ==> start <= now <= end
    ensures |data| > 0 ==> forall b, i :: 0 <= b < |data| && 0 <= i < |data[b].tasks| ==>
      start <= data[b].tasks[i].startTime && data[b].tasks[i].endTime <= end
    ensures |data| > 0 && start != now ==>
      exists b, i :: 0 <= b < |data| && 0 <= i < |data[b].tasks| && start == data[b].tasks[i].startTime
    ensures |data| > 0 && end != now ==>
      exists b, i :: 0 <= b < |data| && 0 <= i < |data[b].tasks| && end == data[b].tasks[i].endTime
  {
    if |data| == 0 {
      return now, now + TimelineDays * MinutesPerDay;
    }
    start, end := now, now;
    // Where the current bounds came from, when not from `now`.
    ghost var sb, si, eb, ei := -1, 0, -1, 0;
    var b := 0;
    while b < |data|
      invariant 0 <= b <= |data|
      invariant start <= now <= end
      invariant forall b', i :: 0 <= b' < b && 0 <= i < |data[b'].tasks| ==>
        start <= data[b'].tasks[i].startTime && data[b'].tasks[i].endTime <= end
      invariant start != now ==> 0 <= sb < b && 0 <= si < |data[sb].tasks| && start == data[sb].tasks[si].startTime
      invariant end != now ==> 0 <= eb < b && 0 <= ei < |data[eb].tasks| && end == data[eb].tasks[ei].endTime
    {
      var tasks := data[b].tasks;
      var i := 0;
      while i < |tasks|
        invariant 0 <= i <= |tasks|
        invariant start <= now <= end
        invariant forall b', i' :: 0 <= b' < b && 0 <= i' < |data[b'].tasks| ==>
          start <= data[b'].tasks[i'].startTime && data[b'].tasks[i'].endTime <= end
        invariant forall i' :: 0 <= i' < i ==> start <= tasks[i'].startTime && tasks[i'].endTime <= end
        invariant start != now ==>
          0 <= sb <= b && 0 <= si < |data[sb].tasks| && (sb == b ==> si < i) && start == data[sb].tasks[si].startTime
        invariant end != now ==>
          0 <= eb <= b && 0 <= ei < |data[eb].tasks| && (eb == b ==> ei < i) && end == data[eb].tasks[ei].endTime
      {
        if tasks[i].startTime < start {
          start := tasks[i].startTime;
          sb, si := b, i;
        }
        if tasks[i].endTime > end {
          end := tasks[i].endTime;
          eb, ei := b, i;
        }
        i := i + 1;
      }
      b := b + 1;
    }
  }

  /** Days, hours and minutes of a millisecond count, each component as
      `Math.floor` of a quotient of `%` remainders. */
  datatype DurationParts = DurationParts(days: int, hours: int, minutes: int)

  /** The split both timelines perform on `end - start`. */
  function SplitMillis(ms: int): (p: DurationParts)
    ensures ms >= 0 ==> p.days >= 0 && 0 <= p.hours < HoursPerDay && 0 <= p.minutes < MinutesPerHour
  {
    DurationParts(FloorDiv(ms, MillisPerDay),
                  FloorDiv(Rem(ms, MillisPerDay), MillisPerHour),
                  FloorDiv(Rem(ms, MillisPerHour), MillisPerMinute))
  }

  function PartsOf(d: Duration): DurationParts {
    DurationParts(d.days, d.hours, d.minutes)
  }

  /** For a non-negative count the split is the scheduler's normalisation of
      the whole minutes it holds: the seconds are dropped and the rest is
      days, hours below 24 and minutes below 60. */
  lemma SplitMillisIsWholeMinutes(ms: int)
    requires ms >= 0
    ensures SplitMillis(ms) == PartsOf(MinutesToDuration(ms / MillisPerMinute))
  {
    var m := ms / 60000;
    var s := ms % 60000;
    var d := m / 1440;
    var r := m % 1440;
    var h := r / 60;
    var mi := r % 60;
    assert ms == m * 60000 + s;
    assert m == d * 1440 + r;
    assert r == h * 60 + mi;
    assert ms == d * 86400000 + (r * 60000 + s);
    DivModOf(ms, 86400000, d, r * 60000 + s);
    assert r * 60000 + s == h * 3600000 + (mi * 60000 + s);
    DivModOf(r * 60000 + s, 3600000, h, mi * 60000 + s);
    assert ms == (d * 24 + h) * 3600000 + (mi * 60000 + s);
    DivModOf(ms, 3600000, d * 24 + h, mi * 60000 + s);
    DivModOf(mi * 60000 + s, 60000, mi, s);
    assert m == (d * 24 + h) * 60 + mi;
    DivModOf(m, 60, d * 24 + h, mi);
  }

  /** A numeral holds only digits and a minus sign. */
  lemma NumeralHasNoLetter(i: int, c: char)
    requires !IsDigit(c) && c != '-'
    ensures c !in IntToString(i)
  {
  }

  /** A numeral starts with a visible character. */
  lemma NumeralStartsVisible(i: int)
    ensures !IsWhitespace(IntToString(i)[0])
  {
  }

  /** "1d 2h 3m" for given parts: days only when positive, hours when they
      or the days are positive, minutes always. */
  function DurationLabel(p: DurationParts): string {
    (if p.days > 0 then IntToString(p.days) + "d " else "")
      + (if p.hours > 0 || p.days > 0 then IntToString(p.hours) + "h " else "")
      + IntToString(p.minutes) + "m"
  }

  /** The toolkit's `formatDuration`: the label of the split. */
  function FormatDuration(ms: int): (r: string)
    ensures 'd' in r <==> SplitMillis(ms).days > 0
    ensures 'h' in r <==> SplitMillis(ms).hours > 0 || SplitMillis(ms).days > 0
    ensures |r| > 0 && r[|r| - 1] == 'm'
  {
    var p := SplitMillis(ms);
    NumeralHasNoLetter(p.days, 'd');
    NumeralHasNoLetter(p.hours, 'd');
    NumeralHasNoLetter(p.minutes, 'd');
    NumeralHasNoLetter(p.days, 'h');
    NumeralHasNoLetter(p.hours, 'h');
    NumeralHasNoLetter(p.minutes, 'h');
    DurationLabel(p)
  }

  /** `${x}u` followed by `sep` when `x` is positive, else nothing. */
  function Piece(x: int, u: char, sep: string): string {
    if x > 0 then IntToString(x) + [u] + sep else ""
  }

  /** The positive parts written as "1d 2h 3m" before trimming: the days
      and hours pieces end in a space. */
  function PositivePartsText(p: DurationParts): string {
    Piece(p.days, 'd', " ") + Piece(p.hours, 'h', " ") + Piece(p.minutes, 'm', "")
  }

  /** The positive parts written as "1d 2h 3m", trimmed. */
  function PositivePartsLabel(p: DurationParts): string {
    Trim(PositivePartsText(p))
  }

  /** The other timeline's `getTaskDuration`: only positive components are
      written, each under its own unit letter, and the result is trimmed, so
      it is empty exactly when no component is positive. */
  function TaskDurationText(ms: int): (r: string)
    ensures r == "" <==> SplitMillis(ms).days <= 0 && SplitMillis(ms).hours <= 0 && SplitMillis(ms).minutes <= 0
    ensures 'd' in r <==> SplitMillis(ms).days > 0
    ensures 'h' in r <==> SplitMillis(ms).hours > 0
    ensures 'm' in r <==> SplitMillis(ms).minutes > 0
  {
    var p := SplitMillis(ms);
    PositiveLabelEmptyIffNoPart(p);
    PositiveLabelLetters(p);
    PositivePartsLabel(p)
  }

  /** The positive-parts label is empty exactly when no part is positive. */
  lemma PositiveLabelEmptyIffNoPart(p: DurationParts)
    ensures PositivePartsLabel(p) == "" <==> p.days <= 0 && p.hours <= 0 && p.minutes <= 0
  {
    var text := PositivePartsText(p);
    TrimEmptyIffBlank(text);
    NumeralStartsVisible(p.days);
    NumeralStartsVisible(p.hours);
    NumeralStartsVisible(p.minutes);
    var first := if p.days > 0 then IntToString(p.days) else if p.hours > 0 then IntToString(p.hours) else IntToString(p.minutes);
    assert text != "" ==> text[0] == first[0];
  }

  /** Each unit letter is in the positive-parts label exactly when its part
      is positive. */
  lemma PositiveLabelLetters(p: DurationParts)
    ensures 'd' in PositivePartsLabel(p) <==> p.days > 0
    ensures 'h' in PositivePartsLabel(p) <==> p.hours > 0
    ensures 'm' in PositivePartsLabel(p) <==> p.minutes > 0
  {
    LetterMarksPart(p, 'd');
    LetterMarksPart(p, 'h');
    LetterMarksPart(p, 'm');
  }

  /** A piece holds a unit letter exactly when it is written and the letter
      is its own. */
  lemma LetterInPiece(x: int, u: char, sep: string, c: char)
    requires c == 'd' || c == 'h' || c == 'm'
    requires sep == " " || sep == ""
    ensures c in Piece(x, u, sep) <==> x > 0 && c == u
  {
    NumeralHasNoLetter(x, c);
  }

  /** In the untrimmed text each unit letter appears exactly when its part
      is positive, and trimming keeps it. */
  lemma LetterMarksPart(p: DurationParts, c: char)
    requires c == 'd' || c == 'h' || c == 'm'
    ensures c in PositivePartsLabel(p) <==> (if c == 'd' then p.days else if c == 'h' then p.hours else p.minutes) > 0
  {
    var d, h, m := Piece(p.days, 'd', " "), Piece(p.hours, 'h', " "), Piece(p.minutes, 'm', "");
    assert c in PositivePartsText(p) <==> c in d || c in h || c in m;
    LetterInPiece(p.days, 'd', " ", c);
    LetterInPiece(p.hours, 'h', " ", c);
    LetterInPiece(p.minutes, 'm', "", c);
    TrimKeepsVisible(PositivePartsText(p), c);
  }

  /** For a non-negative count, no component is positive exactly when the
      count is below one minute. */
  lemma NoPartUnderAMinute(ms: int)
    requires ms >= 0
    ensures var p := SplitMillis(ms);
      p.days <= 0 && p.hours <= 0 && p.minutes <= 0 <==> ms < MillisPerMinute
  {
    var m := ms / MillisPerMinute;
    SplitMillisIsWholeMinutes(ms);
    assert DurationToMinutes(MinutesToDuration(m)) == m;
  }

  /** For a task of non-negative length the text is empty exactly when the
      task is shorter than a minute. */
  lemma TaskDurationEmptyUnderAMinute(ms: int)
    requires ms >= 0
    ensures TaskDurationText(ms) == "" <==> ms < MillisPerMinute
  {
    NoPartUnderAMinute(ms);
  }

  /** Under a minute the toolkit's text is "0m" where the other one is empty. */
  lemma FormatDurationUnderAMinute(ms: int)
    requires 0 <= ms < MillisPerMinute
    ensures FormatDuration(ms) == "0m"
  {
    assert SplitMillis(ms) == DurationParts(0, 0, 0);
    assert IntToString(0) == "0";
  }

  /** The progress bar of a task at `now`: 0 before it starts, 100 after it
      ends, else the elapsed share in whole percent. A task of zero length
      at its own instant divides zero by zero, which has no value (`None`). */
  function Progress(now: int, start: int, end: int): (r: Option<int>)
    ensures now < start ==> r == Some(0)
    ensures start <= now && now > end ==> r == Some(100)
    ensures start <= now <= end && start < end ==> r.Some? && 0 <= r.value <= 100
    ensures r.None? <==> now == start == end
  {
    if now < start then Some(0)
    else if now > end then Some(100)
    else if end - start == 0 then None
    else Some(FloorDiv((now - start) * 100, end - start))
  }

  /** `Math.floor` of a quotient never decreases with the dividend. */
  lemma FloorDivMonotone(x1: int, x2: int, t: int)
    requires t > 0 && x1 <= x2
    ensures FloorDiv(x1, t) <= FloorDiv(x2, t)
  {
    var q1 := FloorDiv(x1, t);
    var q2 := FloorDiv(x2, t);
    assert (q1 - q2) * t == q1 * t - q2 * t;
    MultipleBounds(q1 - q2, t);
  }

  /** Progress never goes back as time passes. */
  lemma ProgressMonotone(start: int, end: int, now1: int, now2: int)
    requires start <= end && now1 <= now2
    requires Progress(now1, start, end).Some? && Progress(now2, start, end).Some?
    ensures Progress(now1, start, end).value <= Progress(now2, start, end).value
  {
    if start <= now1 && now2 <= end && start < end {
      FloorDivMonotone((now1 - start) * 100, (now2 - start) * 100, end - start);
    }
  }

  /** The length of the width/position scale in milliseconds. */
  const ScaleMillis: nat := TimelineDays * MillisPerDay

  /** A task bar's width in percent of the week, never below 5. */
  function TaskWidth(durationMs: int): (w: real)
    ensures w >= 5.0
    ensures w > 5.0 <==> durationMs * 20 > ScaleMillis
    ensures w > 5.0 ==> w == durationMs as real * 100.0 / ScaleMillis as real
  {
    var percentage := (durationMs as real / ScaleMillis as real) * 100.0;
    if percentage > 5.0 then percentage else 5.0
  }

  /** A task bar's offset in percent of the week from `now`, clamped to the
      scale: 0 for a task that has started, 100 for one a week or more
      ahead. */
  function TaskPosition(startMs: int, nowMs: int): (x: real)
    ensures 0.0 <= x <= 100.0
    ensures x == 0.0 <==> startMs <= nowMs
    ensures x == 100.0 <==> startMs - nowMs >= ScaleMillis
    ensures 0.0 < x < 100.0 ==> x == (startMs - nowMs) as real * 100.0 / ScaleMillis as real
  {
    var percentage := ((startMs - nowMs) as real / ScaleMillis as real) * 100.0;
    var capped := if percentage < 100.0 then percentage else 100.0;
    if 0.0 > capped then 0.0 else capped
  }

  /** `Array.prototype.find` on the queue by id: the first item with the id. */
  function FindBuilding(queue: seq<QueueItem>, id: int): (r: Option<QueueItem>)
    ensures r.None? <==> forall i :: 0 <= i < |queue| ==> queue[i].id != id
    ensures r.Some? ==> exists k :: 0 <= k < |queue| && queue[k] == r.value && r.value.id == id
                               && forall j :: 0 <= j < k ==> queue[j].id != id
    decreases |queue|
  {
    if |queue| == 0 then None
    else if queue[0].id == id then Some(queue[0])
    else
      var r := FindBuilding(queue[1..], id);
      assert forall i :: 1 <= i < |queue| ==> queue[i] == queue[1..][i - 1];
      if r.Some? then
        var k :| 0 <= k < |queue[1..]| && queue[1..][k] == r.value && r.value.id == id
                 && forall j :: 0 <= j < k ==> queue[1..][j].id != id;
        assert queue[k + 1] == r.value;
        r
      else r
  }

  /** The colour class of a task bar, by the category of its building. */
  function TaskColor(queue: seq<QueueItem>, buildingId: int): (c: string)
    ensures c == "bg-gray-400" <==> FindBuilding(queue, buildingId).None?
    ensures FindBuilding(queue, buildingId).Some? ==>
      c == match FindBuilding(queue, buildingId).value.category
           case Defense => "bg-primary"
           case Army => "bg-success"
           case Resource => "bg-warning"
           case Other => "bg-info"
  {
    match FindBuilding(queue, buildingId)
    case None => "bg-gray-400"
    case Some(building) =>
      match building.category
      case Defense => "bg-primary"
      case Army => "bg-success"
      case Resource => "bg-warning"
      case _ => "bg-info"
  }
}
