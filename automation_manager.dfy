/** The automation layer over the ticket store: the monitoring timer guard,
    the two-stage inactivity sweep (warn, then auto-close), the staff-reminder
    selection, the global working-hours check and the overload check.

    The chat platform is abstracted as the sets of ticket ids for which the
    channel was found and the message was sent; a ticket outside the set is
    skipped, as the per-ticket `continue` and `catch` do. */
module AutomationManager {
  import opened Wrappers
  import opened Strings
  import opened Types
  import opened Sequences
  import opened TicketManager
  import Logger

  // ---------------------------------------------------------------- timer guard

  /** The monitoring timer; `checkInterval` holds the handle of the running
      interval timer, if any. */
  class Monitor {
    var checkInterval: Option<int>

    constructor ()
      ensures checkInterval.None?
    {
      checkInterval := None;
    }

    /** `startMonitoring`: installs the timer `handle` unless one is running. */
    method StartMonitoring(handle: int)
      modifies this
      ensures old(checkInterval).Some? ==> checkInterval == old(checkInterval)
      ensures old(checkInterval).None? ==> checkInterval == Some(handle)
    {
      if checkInterval.Some? {
        return;
      }
      checkInterval := Some(handle);
    }

    /** `stopMonitoring`: clears the running timer, returning the handle that
        was cleared; with no timer it does nothing. */
    method StopMonitoring() returns (cleared: Option<int>)
      modifies this
      ensures cleared == old(checkInterval)
      ensures checkInterval.None?
    {
      cleared := checkInterval;
      if checkInterval.Some? {
        checkInterval := None;
      }
    }
  }

  /** Starting twice installs the first handle only; stopping twice clears it
      once. */
  method StartStopIdempotent(h1: int, h2: int) returns (first: Option<int>, second: Option<int>)
    ensures first == Some(h1) && second.None?
  {
    var mon := new Monitor();
    mon.StartMonitoring(h1);
    mon.StartMonitoring(h2);
    assert mon.checkInterval == Some(h1);
    first := mon.StopMonitoring();
    second := mon.StopMonitoring();
  }

  // ---------------------------------------------------------------- selection

  /** The warning pass selects the active tickets idle for more than
      `warningMinutes` that have not been warned. */
  predicate WarnDue(t: Ticket, warningMinutes: int, now: int)
  {
    IsActive(t) && t.lastActivity < now - warningMinutes * MinuteMillis && !t.inactivityWarned
  }

  /** The close pass selects the active tickets idle for more than
      `timeoutMinutes` that have been warned. */
  predicate CloseDue(t: Ticket, timeoutMinutes: int, now: int)
  {
    IsActive(t) && t.lastActivity < now - timeoutMinutes * MinuteMillis && t.inactivityWarned
  }

  function NotWarned(t: Ticket): bool { !t.inactivityWarned }

  function WasWarned(t: Ticket): bool { t.inactivityWarned }

  /** `getInactiveTickets(warning).filter(t => !t.inactivityWarned)` */
  function ToWarn(all: seq<Ticket>, warningMinutes: int, now: int): (r: seq<Ticket>)
    ensures forall t :: t in r <==> t in all && WarnDue(t, warningMinutes, now)
    ensures DistinctIds(all) ==> DistinctIds(r)
  {
    var inactive := InactiveTickets(all, warningMinutes, now);
    FilterMembers(inactive, NotWarned);
    FilterKeepsDistinctIds(inactive, NotWarned);
    Filter(inactive, NotWarned)
  }

  /** `getInactiveTickets(timeout).filter(t => t.inactivityWarned)` */
  function ToClose(all: seq<Ticket>, timeoutMinutes: int, now: int): (r: seq<Ticket>)
    ensures forall t :: t in r <==> t in all && CloseDue(t, timeoutMinutes, now)
    ensures DistinctIds(all) ==> DistinctIds(r)
  {
    var inactive := InactiveTickets(all, timeoutMinutes, now);
    FilterMembers(inactive, WasWarned);
    FilterKeepsDistinctIds(inactive, WasWarned);
    Filter(inactive, WasWarned)
  }

  // ---------------------------------------------------------------- the sweep, specified

  /** The store after the warning pass: each selected ticket whose warning
      arrived is marked. */
  function WarnPass(m: map<string, Ticket>, warningMinutes: int, now: int, delivered: set<string>): (r: map<string, Ticket>)
    ensures r.Keys == m.Keys
    ensures forall k :: k in m ==>
      && (r[k].inactivityWarned <==> m[k].inactivityWarned || (k in delivered && WarnDue(m[k], warningMinutes, now)))
      && r[k].status == m[k].status && r[k].lastActivity == m[k].lastActivity
      && r[k].messages == m[k].messages && r[k].claimedBy == m[k].claimedBy && r[k].ticketId == m[k].ticketId
  {
    map k | k in m :: if k in delivered && WarnDue(m[k], warningMinutes, now) then Warned(m[k], now) else m[k]
  }

  /** A ticket closed by the sweep at `now`. */
  function AutoClosed(t: Ticket, now: int): Ticket
  {
    t.(status := Closed, lastActivity := now)
  }

  /** The store after the close pass: each selected ticket whose notice
      arrived is closed. */
  function ClosePass(m: map<string, Ticket>, timeoutMinutes: int, now: int, delivered: set<string>): (r: map<string, Ticket>)
    ensures r.Keys == m.Keys
    ensures forall k :: k in m ==>
      && (r[k].status == Closed <==> m[k].status == Closed || (k in delivered && CloseDue(m[k], timeoutMinutes, now)))
      && r[k].inactivityWarned == m[k].inactivityWarned
      && r[k].messages == m[k].messages && r[k].claimedBy == m[k].claimedBy && r[k].ticketId == m[k].ticketId
  {
    map k | k in m :: if k in delivered && CloseDue(m[k], timeoutMinutes, now) then AutoClosed(m[k], now) else m[k]
  }

  /** One run of `checkInactivity`; the close pass reads the store as the
      warning pass left it. */
  function Sweep(m: map<string, Ticket>, autoClose: bool, warningMinutes: int, timeoutMinutes: int,
                 now: int, warnDelivered: set<string>, closeDelivered: set<string>): (r: map<string, Ticket>)
    ensures r.Keys == m.Keys
    ensures !autoClose ==> r == m
    ensures forall k :: k in m ==>
      r[k].messages == m[k].messages && r[k].claimedBy == m[k].claimedBy && r[k].ticketId == m[k].ticketId
  {
    if !autoClose then m
    else ClosePass(WarnPass(m, warningMinutes, now, warnDelivered), timeoutMinutes, now, closeDelivered)
  }

  /** What the sweep does to one ticket: it keeps its key; it is closed by the
      sweep exactly when it is active, its close notice arrived, it is idle
      past the timeout, and it was warned before or in this sweep's warning
      pass; otherwise it changes only by the warning mark. */
  lemma {:induction false} SweepPerTicket(m: map<string, Ticket>, warningMinutes: int, timeoutMinutes: int,
                                          now: int, wD: set<string>, cD: set<string>, k: string)
    requires k in m
    ensures var m' := Sweep(m, true, warningMinutes, timeoutMinutes, now, wD, cD);
      var warnedNow := k in wD && WarnDue(m[k], warningMinutes, now);
      && k in m'
      && ((m'[k].status == Closed && m[k].status != Closed)
          <==> (k in cD && IsActive(m[k]) && m[k].lastActivity < now - timeoutMinutes * MinuteMillis
                && (m[k].inactivityWarned || warnedNow)))
      && m'[k].ticketId == m[k].ticketId && m'[k].messages == m[k].messages
      && m'[k].claimedBy == m[k].claimedBy
  {
    var m1 := WarnPass(m, warningMinutes, now, wD);
    assert k in m1;
    var t1 := m1[k];
    assert t1.status == m[k].status && t1.lastActivity == m[k].lastActivity;
    assert t1.inactivityWarned == (m[k].inactivityWarned || (k in wD && WarnDue(m[k], warningMinutes, now)));
  }

  /** With auto-close off the sweep changes nothing. */
  lemma SweepOffIsIdentity(m: map<string, Ticket>, warningMinutes: int, timeoutMinutes: int,
                           now: int, wD: set<string>, cD: set<string>)
    ensures Sweep(m, false, warningMinutes, timeoutMinutes, now, wD, cD) == m
  {
  }

  /** An unwarned ticket idle past both thresholds, with both messages
      delivered, is warned and closed in the same sweep. */
  lemma WarnAndCloseInOneSweep(m: map<string, Ticket>, warningMinutes: int, timeoutMinutes: int,
                               now: int, wD: set<string>, cD: set<string>, k: string)
    requires k in m && IsActive(m[k]) && !m[k].inactivityWarned
    requires m[k].lastActivity < now - warningMinutes * MinuteMillis
    requires m[k].lastActivity < now - timeoutMinutes * MinuteMillis
    requires k in wD && k in cD
    ensures var m' := Sweep(m, true, warningMinutes, timeoutMinutes, now, wD, cD);
      k in m' && m'[k].status == Closed && m'[k].inactivityWarned && m'[k].inactivityWarningTime == Some(now)
  {
    SweepPerTicket(m, warningMinutes, timeoutMinutes, now, wD, cD, k);
  }

  /** A message added after a warning clears it, so a sweep that comes less
      than `timeoutMinutes` after that message does not close the ticket. */
  lemma MessageAfterWarningPreventsClose(m: map<string, Ticket>, k: string, msg: Message, at: int,
                                         warningMinutes: int, timeoutMinutes: int, now: int,
                                         wD: set<string>, cD: set<string>)
    requires k in m && m[k].inactivityWarned && m[k].status != Closed
    requires at >= now - timeoutMinutes * MinuteMillis
    ensures var m1 := MessageStep(m, k, msg, at);
      var m2 := Sweep(m1, true, warningMinutes, timeoutMinutes, now, wD, cD);
      k in m2 && m2[k].status == m[k].status
  {
    var m1 := MessageStep(m, k, msg, at);
    SweepPerTicket(m1, warningMinutes, timeoutMinutes, now, wD, cD, k);
  }

  /** A CLOSED ticket is left exactly as it is by every sweep, so a ticket is
      auto-closed at most once. */
  lemma ClosedTicketUntouched(m: map<string, Ticket>, autoClose: bool, warningMinutes: int, timeoutMinutes: int,
                              now: int, wD: set<string>, cD: set<string>, k: string)
    requires k in m && m[k].status == Closed
    ensures var m' := Sweep(m, autoClose, warningMinutes, timeoutMinutes, now, wD, cD);
      k in m' && m'[k] == m[k]
  {
    if autoClose {
      var m1 := WarnPass(m, warningMinutes, now, wD);
      assert m1[k] == m[k];
    }
  }

  /** A second sweep, at any later time and with any deliveries, does not
      touch a ticket that the first sweep closed. */
  lemma SweepClosesOnce(m: map<string, Ticket>, w1: int, t1: int, n1: int, wD1: set<string>, cD1: set<string>,
                        w2: int, t2: int, n2: int, wD2: set<string>, cD2: set<string>, k: string)
    requires k in m && m[k].status != Closed
    requires Sweep(m, true, w1, t1, n1, wD1, cD1)[k].status == Closed
    ensures var m1 := Sweep(m, true, w1, t1, n1, wD1, cD1);
      Sweep(m1, true, w2, t2, n2, wD2, cD2)[k] == m1[k]
  {
    SweepPerTicket(m, w1, t1, n1, wD1, cD1, k);
    var m1 := Sweep(m, true, w1, t1, n1, wD1, cD1);
    ClosedTicketUntouched(m1, true, w2, t2, n2, wD2, cD2, k);
  }

  // ---------------------------------------------------------------- the sweep, performed

  /** The store with the tickets in `ids` marked as warned. */
  function MarkWarned(m: map<string, Ticket>, ids: set<string>, now: int): map<string, Ticket>
  {
    map k | k in m :: if k in ids then Warned(m[k], now) else m[k]
  }

  /** The store with the tickets in `ids` auto-closed. */
  function MarkClosed(m: map<string, Ticket>, ids: set<string>, now: int): map<string, Ticket>
  {
    map k | k in m :: if k in ids then AutoClosed(m[k], now) else m[k]
  }

  /** The ids of the tickets among the first `i` of `ts` that are in `d`. */
  function IdsUpTo(ts: seq<Ticket>, i: nat, d: set<string>): set<string>
    requires i <= |ts|
  {
    set j | 0 <= j < i && ts[j].ticketId in d :: ts[j].ticketId
  }

  lemma IdsUpToStep(ts: seq<Ticket>, i: nat, d: set<string>)
    requires i < |ts|
    ensures IdsUpTo(ts, i + 1, d) == IdsUpTo(ts, i, d) + (if ts[i].ticketId in d then {ts[i].ticketId} else {})
  {
  }

  /** The audit entries of the auto-closes, in order. */
  function CloseEntries(ts: seq<Ticket>, now: int, botId: string, botName: string): (r: seq<LogEntry>)
    ensures |r| == |ts|
    ensures forall i :: 0 <= i < |ts| ==>
      r[i] == Entry(now, TicketClosed, ts[i].ticketId, botId, botName, "Closed ticket " + ts[i].ticketId)
  {
    seq(|ts|, i requires 0 <= i < |ts| =>
      Entry(now, TicketClosed, ts[i].ticketId, botId, botName, "Closed ticket " + ts[i].ticketId))
  }

  function InSet(d: set<string>): Ticket -> bool
  {
    (t: Ticket) => t.ticketId in d
  }

  /** One more filtered element appends one more entry. */
  lemma CloseEntriesStep(ts: seq<Ticket>, i: nat, d: set<string>, now: int, botId: string, botName: string)
    requires i < |ts|
    ensures Filter(ts[..i + 1], InSet(d)) == Filter(ts[..i], InSet(d)) + (if ts[i].ticketId in d then [ts[i]] else [])
    ensures CloseEntries(Filter(ts[..i + 1], InSet(d)), now, botId, botName)
         == CloseEntries(Filter(ts[..i], InSet(d)), now, botId, botName)
            + (if ts[i].ticketId in d then [Entry(now, TicketClosed, ts[i].ticketId, botId, botName,
                                                   "Closed ticket " + ts[i].ticketId)] else [])
  {
    assert ts[..i + 1] == ts[..i] + [ts[i]];
    FilterAppend(ts[..i], [ts[i]], InSet(d));
    assert Filter([ts[i]], InSet(d)) == (if ts[i].ticketId in d then [ts[i]] else []);
  }

  /** Warning one more ticket extends the marked set. */
  lemma MarkWarnedStep(m: map<string, Ticket>, ids: set<string>, id: string, now: int)
    requires id in m
    ensures WarnStep(MarkWarned(m, ids, now), id, now) == MarkWarned(m, ids + {id}, now)
  {
  }

  /** Closing one more selected ticket extends the closed set. */
  lemma MarkClosedStep(m: map<string, Ticket>, ids: set<string>, id: string, now: int)
    requires id in m && id !in ids && m[id].status != Closed
    ensures CloseStep(MarkClosed(m, ids, now), id, now) == Outcome(true, MarkClosed(m, ids + {id}, now))
  {
  }

  /** The warning loop: marks every listed ticket whose warning arrived. */
  method WarnEach(store: TicketStore, toWarn: seq<Ticket>, delivered: set<string>, now: int)
    requires store.Valid()
    requires forall t :: t in toWarn ==> t.ticketId in store.tickets
    modifies store
    ensures store.Valid() && store.order == old(store.order)
    ensures store.tickets == MarkWarned(old(store.tickets), IdsUpTo(toWarn, |toWarn|, delivered), now)
  {
    ghost var m0 := store.tickets;
    var i := 0;
    while i < |toWarn|
      invariant 0 <= i <= |toWarn|
      invariant store.Valid() && store.order == old(store.order)
      invariant store.tickets == MarkWarned(m0, IdsUpTo(toWarn, i, delivered), now)
    {
      WarnOne(store, toWarn, i, delivered, now, m0);
      i := i + 1;
    }
  }

  /** One round of the warning loop. */
  method WarnOne(store: TicketStore, toWarn: seq<Ticket>, i: nat, delivered: set<string>, now: int,
                 ghost m0: map<string, Ticket>)
    requires i < |toWarn| && store.Valid()
    requires forall t :: t in toWarn ==> t.ticketId in m0
    requires store.tickets == MarkWarned(m0, IdsUpTo(toWarn, i, delivered), now)
    modifies store
    ensures store.Valid() && store.order == old(store.order)
    ensures store.tickets == MarkWarned(m0, IdsUpTo(toWarn, i + 1, delivered), now)
  {
    var id := toWarn[i].ticketId;
    IdsUpToStep(toWarn, i, delivered);
    if id in delivered {
      assert toWarn[i] in toWarn;
      MarkWarnedStep(m0, IdsUpTo(toWarn, i, delivered), id, now);
      store.SetInactivityWarned(id, now);
    }
  }

  /** The close loop: closes and logs every listed ticket whose notice
      arrived. */
  method CloseEach(store: TicketStore, toClose: seq<Ticket>, delivered: set<string>, now: int,
                   botId: string, botName: string)
    requires store.Valid() && DistinctIds(toClose)
    requires forall t :: t in toClose ==> t.ticketId in store.tickets && store.tickets[t.ticketId].status != Closed
    modifies store, store.audit
    ensures store.Valid() && store.order == old(store.order)
    ensures store.tickets == MarkClosed(old(store.tickets), IdsUpTo(toClose, |toClose|, delivered), now)
    ensures store.audit.logs == old(store.audit.logs)
      + CloseEntries(Filter(toClose, InSet(delivered)), now, botId, botName)
  {
    ghost var m1 := store.tickets;
    ghost var logs0 := store.audit.logs;
    var i := 0;
    while i < |toClose|
      invariant 0 <= i <= |toClose|
      invariant store.Valid() && store.order == old(store.order)
      invariant store.tickets == MarkClosed(m1, IdsUpTo(toClose, i, delivered), now)
      invariant store.audit.logs == logs0 + CloseEntries(Filter(toClose[..i], InSet(delivered)), now, botId, botName)
    {
      CloseOne(store, toClose, i, delivered, now, botId, botName, m1, logs0);
      i := i + 1;
    }
    assert toClose[..|toClose|] == toClose;
  }

  /** One round of the close loop. */
  method CloseOne(store: TicketStore, toClose: seq<Ticket>, i: nat, delivered: set<string>, now: int,
                  botId: string, botName: string, ghost m1: map<string, Ticket>, ghost logs0: seq<LogEntry>)
    requires i < |toClose| && DistinctIds(toClose) && store.Valid()
    requires forall t :: t in toClose ==> t.ticketId in m1 && m1[t.ticketId].status != Closed
    requires store.tickets == MarkClosed(m1, IdsUpTo(toClose, i, delivered), now)
    requires store.audit.logs == logs0 + CloseEntries(Filter(toClose[..i], InSet(delivered)), now, botId, botName)
    modifies store, store.audit
    ensures store.Valid() && store.order == old(store.order)
    ensures store.tickets == MarkClosed(m1, IdsUpTo(toClose, i + 1, delivered), now)
    ensures store.audit.logs == logs0 + CloseEntries(Filter(toClose[..i + 1], InSet(delivered)), now, botId, botName)
  {
    var id := toClose[i].ticketId;
    CloseEntriesStep(toClose, i, delivered, now, botId, botName);
    IdsUpToStep(toClose, i, delivered);
    if id in delivered {
      assert toClose[i] in toClose;
      assert id !in IdsUpTo(toClose, i, delivered);
      MarkClosedStep(m1, IdsUpTo(toClose, i, delivered), id, now);
      var _ := store.CloseTicket(id, botId, botName, now);
    }
  }

  /** A ticket is among the delivered warning candidates exactly when its
      warning arrived and it is due a warning. */
  lemma WarnIdsAreDue(m: map<string, Ticket>, order: seq<string>, warningMinutes: int, now: int,
                      delivered: set<string>)
    requires Keyed(m, order)
    ensures var toWarn := ToWarn(ValuesOf(m, order), warningMinutes, now);
      forall k :: k in m ==>
        (k in IdsUpTo(toWarn, |toWarn|, delivered) <==> k in delivered && WarnDue(m[k], warningMinutes, now))
  {
    ValuesMembers(m, order);
    var toWarn := ToWarn(ValuesOf(m, order), warningMinutes, now);
    var ids := IdsUpTo(toWarn, |toWarn|, delivered);
    forall k | k in m ensures k in ids <==> k in delivered && WarnDue(m[k], warningMinutes, now) {
      if k in delivered && WarnDue(m[k], warningMinutes, now) {
        assert m[k] in toWarn;
        var j :| 0 <= j < |toWarn| && toWarn[j] == m[k];
        assert toWarn[j].ticketId == k;
      }
      if k in ids {
        var j :| 0 <= j < |toWarn| && toWarn[j].ticketId in delivered && toWarn[j].ticketId == k;
        assert toWarn[j] in toWarn;
      }
    }
  }

  lemma MarkWarnedIsWarnPass(m: map<string, Ticket>, ids: set<string>, warningMinutes: int, now: int,
                             delivered: set<string>)
    requires forall k :: k in m ==> (k in ids <==> k in delivered && WarnDue(m[k], warningMinutes, now))
    ensures MarkWarned(m, ids, now) == WarnPass(m, warningMinutes, now, delivered)
  {
  }

  /** Marking the listed warning candidates is the warning pass. */
  lemma WarnEachIsWarnPass(m: map<string, Ticket>, order: seq<string>, warningMinutes: int, now: int,
                           delivered: set<string>)
    requires Keyed(m, order)
    ensures var toWarn := ToWarn(ValuesOf(m, order), warningMinutes, now);
      MarkWarned(m, IdsUpTo(toWarn, |toWarn|, delivered), now) == WarnPass(m, warningMinutes, now, delivered)
  {
    var toWarn := ToWarn(ValuesOf(m, order), warningMinutes, now);
    WarnIdsAreDue(m, order, warningMinutes, now, delivered);
    MarkWarnedIsWarnPass(m, IdsUpTo(toWarn, |toWarn|, delivered), warningMinutes, now, delivered);
  }

  /** A ticket is among the delivered close candidates exactly when its
      notice arrived and it is due to close. */
  lemma CloseIdsAreDue(m: map<string, Ticket>, order: seq<string>, timeoutMinutes: int, now: int,
                       delivered: set<string>)
    requires Keyed(m, order)
    ensures var toClose := ToClose(ValuesOf(m, order), timeoutMinutes, now);
      forall k :: k in m ==>
        (k in IdsUpTo(toClose, |toClose|, delivered) <==> k in delivered && CloseDue(m[k], timeoutMinutes, now))
  {
    ValuesMembers(m, order);
    var toClose := ToClose(ValuesOf(m, order), timeoutMinutes, now);
    var ids := IdsUpTo(toClose, |toClose|, delivered);
    forall k | k in m ensures k in ids <==> k in delivered && CloseDue(m[k], timeoutMinutes, now) {
      if k in delivered && CloseDue(m[k], timeoutMinutes, now) {
        assert m[k] in toClose;
        var j :| 0 <= j < |toClose| && toClose[j] == m[k];
        assert toClose[j].ticketId == k;
      }
      if k in ids {
        var j :| 0 <= j < |toClose| && toClose[j].ticketId in delivered && toClose[j].ticketId == k;
        assert toClose[j] in toClose;
      }
    }
  }

  lemma MarkClosedIsClosePass(m: map<string, Ticket>, ids: set<string>, timeoutMinutes: int, now: int,
                              delivered: set<string>)
    requires forall k :: k in m ==> (k in ids <==> k in delivered && CloseDue(m[k], timeoutMinutes, now))
    ensures MarkClosed(m, ids, now) == ClosePass(m, timeoutMinutes, now, delivered)
  {
  }

  /** Closing the listed close candidates is the close pass. */
  lemma CloseEachIsClosePass(m: map<string, Ticket>, order: seq<string>, timeoutMinutes: int, now: int,
                             delivered: set<string>)
    requires Keyed(m, order)
    ensures var toClose := ToClose(ValuesOf(m, order), timeoutMinutes, now);
      MarkClosed(m, IdsUpTo(toClose, |toClose|, delivered), now) == ClosePass(m, timeoutMinutes, now, delivered)
  {
    var toClose := ToClose(ValuesOf(m, order), timeoutMinutes, now);
    CloseIdsAreDue(m, order, timeoutMinutes, now, delivered);
    MarkClosedIsClosePass(m, IdsUpTo(toClose, |toClose|, delivered), timeoutMinutes, now, delivered);
  }

  /** `checkInactivity`. The warning loop marks each selected ticket whose
      warning arrived; the close list is then read afresh and each selected
      ticket whose notice arrived is closed and logged under the bot. */
  method CheckInactivity(store: TicketStore, autoClose: bool, warningMinutes: int, timeoutMinutes: int,
                         now: int, warnDelivered: set<string>, closeDelivered: set<string>,
                         botId: string, botName: string)
    requires store.Valid()
    modifies store, store.audit
    ensures store.Valid() && store.order == old(store.order)
    ensures store.tickets == Sweep(old(store.tickets), autoClose, warningMinutes, timeoutMinutes, now,
                                   warnDelivered, closeDelivered)
    ensures !autoClose ==> store.audit.logs == old(store.audit.logs)
    ensures autoClose ==>
      var warned := WarnPass(old(store.tickets), warningMinutes, now, warnDelivered);
      var toClose := ToClose(ValuesOf(warned, old(store.order)), timeoutMinutes, now);
      store.audit.logs == old(store.audit.logs)
        + CloseEntries(Filter(toClose, InSet(closeDelivered)), now, botId, botName)
  {
    if !autoClose {
      return;
    }
    WarnPhase(store, warningMinutes, now, warnDelivered);
    ClosePhase(store, timeoutMinutes, now, closeDelivered, botId, botName);
  }

  /** The first half of `checkInactivity`: select, then warn. */
  method WarnPhase(store: TicketStore, warningMinutes: int, now: int, delivered: set<string>)
    requires store.Valid()
    modifies store
    ensures store.Valid() && store.order == old(store.order)
    ensures store.tickets == WarnPass(old(store.tickets), warningMinutes, now, delivered)
  {
    var toWarn := ToWarn(store.All(), warningMinutes, now);
    WarnEachIsWarnPass(store.tickets, store.order, warningMinutes, now, delivered);
    WarnEach(store, toWarn, delivered, now);
  }

  /** The second half of `checkInactivity`: select afresh, then close and
      log. */
  method ClosePhase(store: TicketStore, timeoutMinutes: int, now: int, delivered: set<string>,
                    botId: string, botName: string)
    requires store.Valid()
    modifies store, store.audit
    ensures store.Valid() && store.order == old(store.order)
    ensures store.tickets == ClosePass(old(store.tickets), timeoutMinutes, now, delivered)
    ensures store.audit.logs == old(store.audit.logs)
      + CloseEntries(Filter(ToClose(ValuesOf(old(store.tickets), old(store.order)), timeoutMinutes, now),
                            InSet(delivered)), now, botId, botName)
  {
    var toClose := ToClose(store.All(), timeoutMinutes, now);
    CloseEachIsClosePass(store.tickets, store.order, timeoutMinutes, now, delivered);
    CloseEach(store, toClose, delivered, now, botId, botName);
  }

  // ---------------------------------------------------------------- staff reminders

  /** Only the opener has written: exactly one message, by the ticket's user. */
  predicate AwaitingStaff(t: Ticket)
  {
    |t.messages| == 1 && t.messages[0].authorId == t.userId
  }

  /** `getInactiveTickets(reminder).filter(...)`: the tickets a reminder is
      sent for. */
  function StaffReminderTickets(all: seq<Ticket>, reminderMinutes: int, now: int): (r: seq<Ticket>)
    ensures forall t :: t in r <==>
      t in all && IsActive(t) && t.lastActivity < now - reminderMinutes * MinuteMillis && AwaitingStaff(t)
  {
    var inactive := InactiveTickets(all, reminderMinutes, now);
    FilterMembers(inactive, AwaitingStaff);
    Filter(inactive, AwaitingStaff)
  }

  /** Whole minutes waited since the last activity, rounded down. */
  function MinutesWaiting(t: Ticket, now: int): (r: int)
    ensures r * MinuteMillis <= now - t.lastActivity < (r + 1) * MinuteMillis
  {
    (now - t.lastActivity) / MinuteMillis
  }

  /** One `<@&id>` mention per staff role, in order. */
  function Mentions(roles: seq<string>): (r: seq<string>)
    ensures |r| == |roles| && forall i :: 0 <= i < |roles| ==> r[i] == "<@&" + roles[i] + ">"
  {
    seq(|roles|, i requires 0 <= i < |roles| => "<@&" + roles[i] + ">")
  }

  /** The role mentions put before a reminder, separated by spaces. */
  function StaffPings(roles: seq<string>): (r: string)
    ensures roles == [] ==> r == ""
  {
    Join(Mentions(roles), " ")
  }

  /** For role ids without spaces, the ping string splits back into one
      mention per role, in order. */
  lemma StaffPingsSplit(roles: seq<string>)
    requires roles != []
    requires forall i :: 0 <= i < |roles| ==> ' ' !in roles[i]
    ensures Split(StaffPings(roles), ' ') == Mentions(roles)
  {
    var ms := Mentions(roles);
    forall i | 0 <= i < |ms|
      ensures ' ' !in ms[i]
    {
      assert ms[i] == "<@&" + roles[i] + ">";
    }
    SplitJoin(ms, ' ');
  }

  datatype Reminder = Reminder(ticketId: string, minutesWaiting: int)

  function RemindersFor(ts: seq<Ticket>, now: int): (r: seq<Reminder>)
    ensures |r| == |ts|
    ensures forall i :: 0 <= i < |ts| ==> r[i] == Reminder(ts[i].ticketId, MinutesWaiting(ts[i], now))
  {
    seq(|ts|, i requires 0 <= i < |ts| => Reminder(ts[i].ticketId, MinutesWaiting(ts[i], now)))
  }

  /** One more listed ticket adds its reminder when it was delivered. */
  lemma RemindersStep(ts: seq<Ticket>, i: nat, d: set<string>, now: int)
    requires i < |ts|
    ensures RemindersFor(Filter(ts[..i + 1], InSet(d)), now)
         == RemindersFor(Filter(ts[..i], InSet(d)), now)
            + (if ts[i].ticketId in d then [Reminder(ts[i].ticketId, MinutesWaiting(ts[i], now))] else [])
  {
    assert ts[..i + 1] == ts[..i] + [ts[i]];
    FilterAppend(ts[..i], [ts[i]], InSet(d));
    assert Filter([ts[i]], InSet(d)) == (if ts[i].ticketId in d then [ts[i]] else []);
  }

  /** `checkStaffResponse`: the reminders sent, in order, one for each
      selected ticket whose reminder arrived. No ticket changes. */
  method CheckStaffResponse(store: TicketStore, reminderMinutes: int, now: int, delivered: set<string>)
    returns (sent: seq<Reminder>)
    requires store.Valid()
    ensures sent == RemindersFor(Filter(StaffReminderTickets(store.All(), reminderMinutes, now), InSet(delivered)), now)
  {
    var selected := StaffReminderTickets(store.All(), reminderMinutes, now);
    sent := SendReminders(selected, now, delivered);
  }

  /** The loop of `checkStaffResponse` over the selected tickets. */
  method SendReminders(selected: seq<Ticket>, now: int, delivered: set<string>) returns (sent: seq<Reminder>)
    ensures sent == RemindersFor(Filter(selected, InSet(delivered)), now)
  {
    sent := [];
    var i := 0;
    while i < |selected|
      invariant 0 <= i <= |selected|
      invariant sent == RemindersFor(Filter(selected[..i], InSet(delivered)), now)
    {
      RemindersStep(selected, i, delivered, now);
      var reminded := if selected[i].ticketId in delivered
                      then [Reminder(selected[i].ticketId, MinutesWaiting(selected[i], now))] else [];
      sent := sent + reminded;
      i := i + 1;
    }
    assert selected[..|selected|] == selected;
  }

  /** Every reminder is for a delivered, active ticket of the store on which
      only its opener has written. */
  lemma RemindersAreForWaitingTickets(m: map<string, Ticket>, order: seq<string>, reminderMinutes: int,
                                      now: int, delivered: set<string>)
    requires Keyed(m, order)
    ensures var sel := Filter(StaffReminderTickets(ValuesOf(m, order), reminderMinutes, now), InSet(delivered));
      forall r :: r in RemindersFor(sel, now) ==>
        r.ticketId in delivered && r.ticketId in m && AwaitingStaff(m[r.ticketId]) && IsActive(m[r.ticketId])
  {
    ValuesMembers(m, order);
    var inner := StaffReminderTickets(ValuesOf(m, order), reminderMinutes, now);
    FilterMembers(inner, InSet(delivered));
    var sel := Filter(inner, InSet(delivered));
    forall r | r in RemindersFor(sel, now)
      ensures r.ticketId in delivered && r.ticketId in m && AwaitingStaff(m[r.ticketId]) && IsActive(m[r.ticketId])
    {
      var rs := RemindersFor(sel, now);
      var j :| 0 <= j < |rs| && rs[j] == r;
      assert sel[j] in sel;
    }
  }

  // ---------------------------------------------------------------- working hours and overload

  /** One enabled day as `getWorkingHoursString` lists it. */
  function DayEntry(e: (string, DaySchedule)): string
  {
    e.0 + ": " + e.1.start + "-" + e.1.end
  }

  /** The entries of the enabled days, in schedule order. */
  function EnabledDays(schedule: seq<(string, DaySchedule)>): (r: seq<string>)
    ensures |r| <= |schedule|
    ensures forall d :: d in r ==> exists i :: 0 <= i < |schedule| && schedule[i].1.enabled && d == DayEntry(schedule[i])
    ensures forall i :: 0 <= i < |schedule| && schedule[i].1.enabled ==> DayEntry(schedule[i]) in r
  {
    if schedule == [] then []
    else
      var rest := EnabledDays(schedule[1..]);
      assert forall i :: 1 <= i < |schedule| ==> schedule[i] == schedule[1..][i - 1];
      (if schedule[0].1.enabled then [DayEntry(schedule[0])] else []) + rest
  }

  /** The days of two schedules one after the other are the days of the
      first, then those of the second. */
  lemma {:induction false} EnabledDaysAppend(a: seq<(string, DaySchedule)>, b: seq<(string, DaySchedule)>)
    ensures EnabledDays(a + b) == EnabledDays(a) + EnabledDays(b)
  {
    if a != [] {
      assert (a + b)[0] == a[0] && (a + b)[1..] == a[1..] + b;
      EnabledDaysAppend(a[1..], b);
    } else {
      assert a + b == b;
    }
  }

  /** `getWorkingHoursString`: `day: start-end` for each enabled day, in
      schedule order, joined by `, `. */
  function WorkingHoursString(wh: WorkingHours): (r: string)
    ensures (forall i :: 0 <= i < |wh.schedule| ==> !wh.schedule[i].1.enabled) ==> r == ""
  {
    NoEnabledDays(wh.schedule);
    Join(EnabledDays(wh.schedule), ", ")
  }

  /** A one-day schedule lists that day iff it is enabled. */
  lemma WorkingHoursStringOne(wh: WorkingHours, e: (string, DaySchedule))
    requires wh.schedule == [e]
    ensures WorkingHoursString(wh) == if e.1.enabled then DayEntry(e) else ""
  {
    assert wh.schedule[1..] == [];
  }

  /** The listing of a schedule split in two is the listing of each part,
      joined by `, ` when both list a day. */
  lemma WorkingHoursStringAppend(wh: WorkingHours, a: seq<(string, DaySchedule)>, b: seq<(string, DaySchedule)>)
    requires wh.schedule == a + b
    ensures WorkingHoursString(wh) ==
      if EnabledDays(a) == [] then WorkingHoursString(wh.(schedule := b))
      else if EnabledDays(b) == [] then WorkingHoursString(wh.(schedule := a))
      else WorkingHoursString(wh.(schedule := a)) + ", " + WorkingHoursString(wh.(schedule := b))
  {
    EnabledDaysAppend(a, b);
    var x := EnabledDays(a);
    var y := EnabledDays(b);
    if x == [] {
      assert x + y == y;
    } else if y == [] {
      assert x + y == x;
    } else {
      JoinAppend(x, y, ", ");
    }
  }

  lemma {:induction false} NoEnabledDays(schedule: seq<(string, DaySchedule)>)
    ensures (forall i :: 0 <= i < |schedule| ==> !schedule[i].1.enabled) ==> EnabledDays(schedule) == []
  {
    if schedule != [] {
      NoEnabledDays(schedule[1..]);
      if forall i :: 0 <= i < |schedule| ==> !schedule[i].1.enabled {
        assert !schedule[0].1.enabled;
        assert forall i :: 0 <= i < |schedule[1..]| ==> !schedule[1..][i].1.enabled by {
          forall i | 0 <= i < |schedule[1..]| ensures !schedule[1..][i].1.enabled {
            assert schedule[1..][i] == schedule[i + 1];
          }
        }
      }
    }
  }

  datatype OpenCheck = OpenCheck(isOpen: bool, message: Option<string>)

  /** `checkWorkingHours` over the configuration's working hours, with the
      `working_hours.outside` text (or its key, which has no placeholder) as
      `outsideText`. */
  function CheckWorkingHours(hours: Option<WorkingHours>, weekday: string, clock: string, outsideText: string): (r: OpenCheck)
    ensures r.message.Some? <==> !r.isOpen
    ensures hours.None? || !hours.value.enabled ==> r.isOpen
    ensures !r.isOpen ==> r.message == Some(ReplaceAll(outsideText, "{hours}", WorkingHoursString(hours.value)))
  {
    if hours.None? || !hours.value.enabled then OpenCheck(true, None)
    else
      var day := ScheduleFor(hours.value.schedule, weekday);
      if day.None? || !day.value.enabled || LexLess(clock, day.value.start) || LexLess(day.value.end, clock) then
        OpenCheck(false, Some(ReplaceAll(outsideText, "{hours}", WorkingHoursString(hours.value))))
      else OpenCheck(true, None)
  }

  /** The global check and a panel's check agree on the same working hours. */
  lemma HoursChecksAgree(wh: WorkingHours, weekday: string, clock: string, outsideText: string, p: Panel)
    requires p.workingHours == Some(wh)
    ensures CheckWorkingHours(Some(wh), weekday, clock, outsideText).isOpen
        == !TicketManager.CheckWorkingHours(Some(p), weekday, clock).isOutsideHours
  {
  }

  lemma ValuesCons(m: map<string, Ticket>, order: seq<string>)
    requires order != [] && forall k :: k in order ==> k in m
    ensures ValuesOf(m, order) == [m[order[0]]] + ValuesOf(m, order[1..])
  {
  }

  lemma ActiveKeysCons(m: map<string, Ticket>, order: seq<string>)
    requires order != [] && order[0] !in order[1..] && forall k :: k in order ==> k in m
    ensures |set k | k in order && IsActive(m[k])|
         == |set k | k in order[1..] && IsActive(m[k])| + (if IsActive(m[order[0]]) then 1 else 0)
  {
    var rest := set k | k in order[1..] && IsActive(m[k]);
    assert (set k | k in order && IsActive(m[k])) == rest + (if IsActive(m[order[0]]) then {order[0]} else {});
  }

  lemma NoDuplicatesTail<T>(s: seq<T>)
    requires s != [] && NoDuplicates(s)
    ensures NoDuplicates(s[1..]) && s[0] !in s[1..]
  {
    forall i, j | 0 <= i < j < |s[1..]| ensures s[1..][i] != s[1..][j] { assert s[1..][i] == s[i + 1]; }
  }

  /** The listed open tickets are as many as the active keys of the store. */
  lemma {:induction false} OpenCountIsActiveKeys(m: map<string, Ticket>, order: seq<string>)
    requires NoDuplicates(order) && forall k :: k in order ==> k in m
    ensures |OpenTickets(ValuesOf(m, order))| == |set k | k in order && IsActive(m[k])|
  {
    if order != [] {
      NoDuplicatesTail(order);
      OpenCountIsActiveKeys(m, order[1..]);
      ValuesCons(m, order);
      FilterAppend([m[order[0]]], ValuesOf(m, order[1..]), IsActive);
      ActiveKeysCons(m, order);
    }
  }

  /** `checkTicketOverload`: overload means at least `limit` active tickets
      in the store. */
  method CheckStoreOverload(store: TicketStore, limit: int) returns (r: bool)
    requires store.Valid()
    ensures r <==> |set k | k in store.tickets && IsActive(store.tickets[k])| >= limit
  {
    OpenCountIsActiveKeys(store.tickets, store.order);
    assert (set k | k in store.order && IsActive(store.tickets[k]))
        == (set k | k in store.tickets && IsActive(store.tickets[k]));
    r := |OpenTickets(store.All())| >= limit;
  }
}
