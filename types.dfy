/** The records and enumerations the ticket core works on: a ticket, its
    priority and status, the messages it holds, and the audit-log entries. */
module Types {
  import opened Wrappers

  datatype Priority = Low | Medium | High | Urgent

  /** The string an enumeration member stands for. */
  function PriorityValue(p: Priority): string
  {
    match p
    case Low => "low"
    case Medium => "medium"
    case High => "high"
    case Urgent => "urgent"
  }

  datatype Status = Open | Claimed | Closed | Deleted

  datatype Message = Message(
    authorId: string,
    authorUsername: string,
    content: string,
    timestamp: int,
    attachments: Option<seq<string>>)

  /** One ticket record. Optional fields of the record are `Option`s; the
      optional `inactivityWarned` flag is a `bool`, its absence read as false. */
  datatype Ticket = Ticket(
    ticketId: string,
    channelId: string,
    guildId: string,
    embedMessageId: Option<string>,
    userId: string,
    username: string,
    category: string,
    panelNumber: int,
    categoryIndex: int,
    createdAt: int,
    claimedBy: Option<string>,
    claimedByUsername: Option<string>,
    priority: Priority,
    tags: seq<string>,
    status: Status,
    messages: seq<Message>,
    lastActivity: int,
    inactivityWarned: bool,
    inactivityWarningTime: Option<int>,
    rating: Option<int>,
    feedbackText: Option<string>)

  /** JavaScript truthiness of an optional string: present and not empty. */
  predicate Truthy(o: Option<string>)
  {
    o.Some? && o.value != ""
  }

  datatype LogType =
    | TicketCreated | TicketClosed | TicketReopened | TicketDeleted
    | TicketClaimed | TicketUnclaimed | PriorityChanged | TagAdded
    | TagRemoved | MemberAdded | MemberRemoved | RatingSubmitted

  function LogTypeValue(t: LogType): string
  {
    match t
    case TicketCreated => "ticket_created"
    case TicketClosed => "ticket_closed"
    case TicketReopened => "ticket_reopened"
    case TicketDeleted => "ticket_deleted"
    case TicketClaimed => "ticket_claimed"
    case TicketUnclaimed => "ticket_unclaimed"
    case PriorityChanged => "priority_changed"
    case TagAdded => "tag_added"
    case TagRemoved => "tag_removed"
    case MemberAdded => "member_added"
    case MemberRemoved => "member_removed"
    case RatingSubmitted => "rating_submitted"
  }

  /** The only structured metadata the core attaches to an entry: the rating
      and feedback of a rating submission. */
  datatype Metadata = RatingMetadata(rating: int, feedback: Option<string>)

  datatype LogEntry = LogEntry(
    timestamp: int,
    logType: LogType,
    ticketId: Option<string>,
    userId: string,
    username: string,
    details: string,
    metadata: Option<Metadata>)

  /** One day of a working-hours schedule; `start` and `end` are `HH:MM`. */
  datatype DaySchedule = DaySchedule(enabled: bool, start: string, end: string)

  /** The notice shown outside working hours. */
  datatype HoursNotice = HoursNotice(title: string, description: string, color: string)

  /** A working-hours block. The schedule keeps the order of its day names,
      since listings of the schedule follow it. */
  datatype WorkingHours = WorkingHours(
    enabled: bool,
    timezone: string,
    message: HoursNotice,
    schedule: seq<(string, DaySchedule)>)

  /** The schedule entry for a day name, the first one if any. */
  function ScheduleFor(schedule: seq<(string, DaySchedule)>, day: string): (r: Option<DaySchedule>)
    ensures r.Some? <==> exists i :: 0 <= i < |schedule| && schedule[i].0 == day
    ensures r.Some? ==> (day, r.value) in schedule
  {
    if schedule == [] then None
    else if schedule[0].0 == day then Some(schedule[0].1)
    else ScheduleFor(schedule[1..], day)
  }

  /** The parts of a ticket panel the ticket core reads. */
  datatype Panel = Panel(
    ticketCategoryId: string,
    logChannelId: string,
    workingHours: Option<WorkingHours>)
}
