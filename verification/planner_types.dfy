/** The planner's records: builders, queued building upgrades, scheduled
    upgrades and the per-builder timeline. Instants are whole minutes on one
    clock; durations are day/hour/minute components. */
module PlannerTypes {
  import opened Wrappers

  /** A duration as the forms enter it. Components are not normalised: 30
      hours is a legal `hours` value. */
  datatype Duration = Duration(days: nat, hours: nat, minutes: nat)

  datatype BuilderStatus = Idle | Busy

  /** A builder; `remainingTime` is only meaningful while busy. */
  datatype Builder = Builder(id: int, status: BuilderStatus, remainingTime: Option<Duration>)

  datatype Category = Defense | Army | Resource | Other

  datatype Priority = High | Medium | Low

  /** A building upgrade waiting in the queue. */
  datatype QueueItem = QueueItem(
    id: int,
    name: string,
    category: Category,
    duration: Duration,
    priority: Priority)

  /** One upgrade placed on one builder, from `startTime` to `endTime`. */
  datatype ScheduleItem = ScheduleItem(
    id: int,
    buildingId: int,
    builderId: int,
    startTime: int,
    endTime: int,
    selected: bool)

  /** A scheduled upgrade as the timeline shows it. */
  datatype TimelineTask = TimelineTask(id: int, buildingId: int, startTime: int, endTime: int)

  /** The selected upgrades of one builder. */
  datatype TimelineItem = TimelineItem(builderId: int, tasks: seq<TimelineTask>)

  /** The planner's only failure: the scheduler was asked to place upgrades
      but has no builder to place them on. */
  datatype ScheduleError = NoBuilders

  /** The duration a form builds from its three number inputs: a blank
      input counts as 0. */
  function FormDuration(days: Option<nat>, hours: Option<nat>, minutes: Option<nat>): Duration {
    Duration(days.GetOr(0), hours.GetOr(0), minutes.GetOr(0))
  }
}
