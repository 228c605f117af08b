/** The audit log: an in-memory list of entries that every successful ticket
    operation appends to, with the queries over it, the pruning of old
    entries, and the title and colour tables used to display an entry. */
module Logger {
  import opened Wrappers
  import opened Types
  import opened Sequences

  /** Milliseconds in a day. */
  const DayMillis: int := 24 * 60 * 60 * 1000

  /** The start index of `logs.slice(-limit)` on a list of `n` entries: a
      negative start counts back from the end, and `-0` is `0`. */
  function SliceStart(n: nat, limit: int): (start: nat)
    ensures start <= n
  {
    var k := -limit;
    if k < 0 then (if n + k < 0 then 0 else n + k)
    else if k > n then n
    else k
  }

  /** `getRecentLogs(limit)`: `logs.slice(-limit).reverse()`. */
  function RecentLogs(logs: seq<LogEntry>, limit: int): (r: seq<LogEntry>)
    ensures limit >= 1 ==> |r| == (if limit < |logs| then limit else |logs|)
    ensures limit == 0 ==> |r| == |logs|
    ensures limit < 0 ==> |r| == (if -limit < |logs| then |logs| + limit else 0)
    ensures forall i :: 0 <= i < |r| ==> r[i] == logs[|logs| - 1 - i]
  {
    Reverse(logs[SliceStart(|logs|, limit)..])
  }

  function ForTicket(ticketId: string): LogEntry -> bool
  {
    (e: LogEntry) => e.ticketId == Some(ticketId)
  }

  function OfType(t: LogType): LogEntry -> bool
  {
    (e: LogEntry) => e.logType == t
  }

  /** `getLogsByTicket(ticketId)` */
  function LogsByTicket(logs: seq<LogEntry>, ticketId: string): (r: seq<LogEntry>)
    ensures forall e :: e in r <==> e in logs && e.ticketId == Some(ticketId)
  {
    FilterMembers(logs, ForTicket(ticketId));
    Filter(logs, ForTicket(ticketId))
  }

  /** Appending an entry appends it to the ticket's entries iff it is about
      that ticket, so the entries keep their log order and multiplicity. */
  lemma LogsByTicketAppend(logs: seq<LogEntry>, e: LogEntry, ticketId: string)
    ensures LogsByTicket(logs + [e], ticketId)
         == LogsByTicket(logs, ticketId) + (if e.ticketId == Some(ticketId) then [e] else [])
  {
    FilterAppend(logs, [e], ForTicket(ticketId));
  }

  /** `getLogsByType(type)` */
  function LogsByType(logs: seq<LogEntry>, t: LogType): (r: seq<LogEntry>)
    ensures forall e :: e in r <==> e in logs && e.logType == t
  {
    FilterMembers(logs, OfType(t));
    Filter(logs, OfType(t))
  }

  /** Appending an entry appends it to the entries of its type only, so the
      entries keep their log order and multiplicity. */
  lemma LogsByTypeAppend(logs: seq<LogEntry>, e: LogEntry, t: LogType)
    ensures LogsByType(logs + [e], t) == LogsByType(logs, t) + (if e.logType == t then [e] else [])
  {
    FilterAppend(logs, [e], OfType(t));
  }

  function IsNewer(cutoff: int): LogEntry -> bool
  {
    (e: LogEntry) => e.timestamp > cutoff
  }

  /** The entries `clearOldLogs` keeps: those strictly newer than the cutoff. */
  function NewerThan(logs: seq<LogEntry>, cutoff: int): (r: seq<LogEntry>)
    ensures forall e :: e in r <==> e in logs && e.timestamp > cutoff
  {
    FilterMembers(logs, IsNewer(cutoff));
    Filter(logs, IsNewer(cutoff))
  }

  /** Pruning after appending a fresh entry is pruning first and then
      appending it; a stale entry is dropped. */
  lemma PruneAfterAppend(logs: seq<LogEntry>, e: LogEntry, cutoff: int)
    ensures NewerThan(logs + [e], cutoff)
         == NewerThan(logs, cutoff) + (if e.timestamp > cutoff then [e] else [])
  {
    FilterAppend(logs, [e], IsNewer(cutoff));
  }

  /** Pruning with a cutoff before every entry keeps the whole log. */
  lemma PruneNothingOld(logs: seq<LogEntry>, cutoff: int)
    requires forall i :: 0 <= i < |logs| ==> logs[i].timestamp > cutoff
    ensures NewerThan(logs, cutoff) == logs
  {
    FilterAllOrNone(logs, IsNewer(cutoff));
  }

  /** The display title of an entry. Every log type has an entry in the
      table, so the fallback to the raw type string is never taken. */
  function LogTitle(t: LogType): (r: string)
    ensures r != LogTypeValue(t)
  {
    match t
    case TicketCreated => "\U{1F3AB} Ticket Created"
    case TicketClosed => "\U{1F512} Ticket Closed"
    case TicketReopened => "\U{1F513} Ticket Reopened"
    case TicketDeleted => "\U{1F5D1}\U{FE0F} Ticket Deleted"
    case TicketClaimed => "\U{270B} Ticket Claimed"
    case TicketUnclaimed => "\U{1F44B} Ticket Unclaimed"
    case PriorityChanged => "\U{1F3AF} Priority Changed"
    case TagAdded => "\U{1F3F7}\U{FE0F} Tag Added"
    case TagRemoved => "\U{1F3F7}\U{FE0F} Tag Removed"
    case MemberAdded => "\U{2795} Member Added"
    case MemberRemoved => "\U{2796} Member Removed"
    case RatingSubmitted => "\U{2B50} Rating Submitted"
  }

  /** The display colour of an entry, a 24-bit RGB value. Every table value is
      non-zero, so the `|| 0x5865f2` fallback is never taken. */
  function LogColor(t: LogType): (r: int)
    ensures 0 < r <= 0xFFFFFF
  {
    match t
    case TicketCreated => 0x00ff00
    case TicketClosed => 0xff0000
    case TicketReopened => 0x00ff00
    case TicketDeleted => 0x808080
    case TicketClaimed => 0x5865f2
    case TicketUnclaimed => 0x5865f2
    case PriorityChanged => 0xffaa00
    case TagAdded => 0x00ffff
    case TagRemoved => 0x00ffff
    case MemberAdded => 0x00ff00
    case MemberRemoved => 0xff0000
    case RatingSubmitted => 0xffd700
  }

  /** No two log types share a title. */
  lemma LogTitlesDistinct(a: LogType, b: LogType)
    requires a != b
    ensures LogTitle(a) != LogTitle(b)
  {
  }

  /** The in-memory audit log. */
  class AuditLog {
    var logs: seq<LogEntry>

    constructor ()
      ensures logs == []
    {
      logs := [];
    }

    /** `log`: appends exactly one entry, stamped `now`, and returns it. */
    method Log(t: LogType, userId: string, username: string, details: string,
               ticketId: Option<string>, metadata: Option<Metadata>, now: int)
      returns (e: LogEntry)
      modifies this
      ensures e == LogEntry(now, t, ticketId, userId, username, details, metadata)
      ensures logs == old(logs) + [e]
    {
      e := LogEntry(now, t, ticketId, userId, username, details, metadata);
      logs := logs + [e];
    }

    /** `clearOldLogs(daysToKeep)`: keeps the entries newer than
        `now - daysToKeep` days, in their order. */
    method ClearOldLogs(daysToKeep: int, now: int)
      modifies this
      ensures logs == NewerThan(old(logs), now - daysToKeep * DayMillis)
    {
      var cutoff := now - daysToKeep * DayMillis;
      logs := NewerThan(logs, cutoff);
    }
  }
}
