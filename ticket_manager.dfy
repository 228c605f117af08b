/** The ticket store: the tickets keyed by id, the lifecycle operations that
    change one ticket at a time and record each success in the audit log, the
    queries over the store, and the per-panel working-hours check.

    Each operation is first given as a pure step on the map of tickets; the
    store's methods perform that step in place, and the lemmas relate steps
    to one another. */
module TicketManager {
  import opened Wrappers
  import opened Strings
  import opened Types
  import opened Sequences
  import Logger

  /** Milliseconds in a minute. */
  const MinuteMillis: int := 60 * 1000

  /** OPEN and CLAIMED tickets are the active ones. */
  predicate IsActive(t: Ticket)
  {
    t.status == Open || t.status == Claimed
  }

  /** Every record is stored under its own id, and `order` lists each key once,
      in insertion order (the order in which the object's values are listed). */
  predicate Keyed(m: map<string, Ticket>, order: seq<string>)
  {
    && NoDuplicates(order)
    && (forall k :: k in m ==> k in order)
    && (forall k :: k in order ==> k in m)
    && (forall k :: k in m ==> m[k].ticketId == k)
  }

  // ---------------------------------------------------------------- ids

  /** `ticket-` and the number, left-padded with zeros to four digits. */
  function TicketIdFor(n: nat): (id: string)
    ensures |id| >= 11 && id[..7] == "ticket-"
  {
    "ticket-" + PadStart(NatToString(n), 4, '0')
  }

  /** Distinct numbers give distinct ids, also past 9999 where the padding
      stops. */
  lemma TicketIdInjective(a: nat, b: nat)
    requires TicketIdFor(a) == TicketIdFor(b)
    ensures a == b
  {
    assert TicketIdFor(a)[7..] == PadStart(NatToString(a), 4, '0');
    assert TicketIdFor(b)[7..] == PadStart(NatToString(b), 4, '0');
    PaddedDecimalInjective(a, b, 4);
  }

  /** The ids of the first `n` tickets. */
  function FirstIds(n: nat): set<string>
  {
    set i: nat | 1 <= i <= n :: TicketIdFor(i)
  }

  /** The image of 1..n under an injective numbering has n elements and
      leaves out the image of n + 1. */
  lemma {:induction false} NumberedCard(f: nat -> string, n: nat)
    requires forall a: nat, b: nat :: f(a) == f(b) ==> a == b
    ensures |set i: nat | 1 <= i <= n :: f(i)| == n
    ensures f(n + 1) !in set i: nat | 1 <= i <= n :: f(i)
  {
    if n > 0 {
      NumberedCard(f, n - 1);
      assert (set i: nat | 1 <= i <= n :: f(i)) == (set i: nat | 1 <= i <= n - 1 :: f(i)) + {f(n)};
    } else {
      assert (set i: nat | 1 <= i <= n :: f(i)) == {};
    }
  }

  lemma FirstIdsCard(n: nat)
    ensures |FirstIds(n)| == n
    ensures TicketIdFor(n + 1) !in FirstIds(n)
  {
    forall a: nat, b: nat | TicketIdFor(a) == TicketIdFor(b) ensures a == b {
      TicketIdInjective(a, b);
    }
    var f: nat -> string := TicketIdFor;
    NumberedCard(f, n);
    assert forall i: nat :: f(i) == TicketIdFor(i);
    assert FirstIds(n) == set i: nat | 1 <= i <= n :: f(i);
  }

  /** When the keys are exactly ticket-0001 … ticket-n, the id derived from
      the store size is a new key. */
  lemma NextTicketIdFresh(m: map<string, Ticket>, n: nat)
    requires m.Keys == FirstIds(n)
    ensures |m| == n
    ensures TicketIdFor(|m| + 1) !in m
    ensures m.Keys + {TicketIdFor(|m| + 1)} == FirstIds(n + 1)
  {
    FirstIdsCard(n);
    assert |m| == |m.Keys| == n;
    var id := TicketIdFor(n + 1);
    FirstIdsStep(n);
    calc {
      m.Keys + {TicketIdFor(|m| + 1)};
      FirstIds(n) + {id};
      FirstIds(n + 1);
    }
  }

  lemma FirstIdsStep(n: nat)
    ensures FirstIds(n + 1) == FirstIds(n) + {TicketIdFor(n + 1)}
  {
    forall x | x in FirstIds(n + 1)
      ensures x in FirstIds(n) || x == TicketIdFor(n + 1)
    {
      var i: nat :| 1 <= i <= n + 1 && x == TicketIdFor(i);
      if i <= n {
        assert x in FirstIds(n);
      }
    }
    forall x | x in FirstIds(n)
      ensures x in FirstIds(n + 1)
    {
      var i: nat :| 1 <= i <= n && x == TicketIdFor(i);
    }
  }

  // ---------------------------------------------------------------- the new record

  /** The questionnaire answers as the ticket's opening messages: one per
      answer, in order, authored by the opener, stamped one millisecond
      apart. */
  function SeedMessages(answers: seq<string>, userId: string, username: string, now: int): (r: seq<Message>)
    ensures |r| == |answers|
    ensures forall i :: 0 <= i < |r| ==>
      r[i].content == answers[i] && r[i].authorId == userId && r[i].authorUsername == username
      && r[i].timestamp == now + i && r[i].attachments.None?
  {
    seq(|answers|, i requires 0 <= i < |answers| => Message(userId, username, answers[i], now + i, None))
  }

  /** The record `createTicket` stores before the welcome message is posted. */
  function NewTicket(id: string, channelId: string, guildId: string, userId: string, username: string,
                     category: string, answers: seq<string>, panelNumber: int, categoryIndex: int,
                     now: int): (t: Ticket)
    ensures t.ticketId == id && t.userId == userId && t.channelId == channelId
    ensures t.status == Open && t.priority == Medium && t.tags == []
    ensures t.createdAt == now && t.lastActivity == now
    ensures t.claimedBy.None? && t.embedMessageId.None? && !t.inactivityWarned
    ensures t.messages == SeedMessages(answers, userId, username, now)
  {
    Ticket(id, channelId, guildId, None, userId, username, category, panelNumber, categoryIndex,
           now, None, None, Medium, [], Open, SeedMessages(answers, userId, username, now), now,
           false, None, None, None)
  }

  /** The number of the user's active tickets, which `max_tickets_per_user`
      bounds. */
  function ActiveCount(m: map<string, Ticket>, userId: string): nat
  {
    |set k | k in m && m[k].userId == userId && IsActive(m[k])|
  }

  /** Closing one of the user's active tickets frees exactly one slot. */
  lemma CloseFreesSlot(m: map<string, Ticket>, id: string, now: int)
    requires id in m && IsActive(m[id])
    ensures ActiveCount(CloseStep(m, id, now).tickets, m[id].userId) == ActiveCount(m, m[id].userId) - 1
  {
    var u := m[id].userId;
    var m' := CloseStep(m, id, now).tickets;
    var before := set k | k in m && m[k].userId == u && IsActive(m[k]);
    var after := set k | k in m' && m'[k].userId == u && IsActive(m'[k]);
    assert after == before - {id};
  }

  /** Storing a new OPEN ticket under a fresh id uses exactly one slot. */
  lemma CreateUsesSlot(m: map<string, Ticket>, t: Ticket)
    requires t.ticketId !in m && t.status == Open
    ensures ActiveCount(m[t.ticketId := t], t.userId) == ActiveCount(m, t.userId) + 1
  {
    var u := t.userId;
    var m' := m[t.ticketId := t];
    var before := set k | k in m && m[k].userId == u && IsActive(m[k]);
    var after := set k | k in m' && m'[k].userId == u && IsActive(m'[k]);
    assert after == before + {t.ticketId};
  }

  // ---------------------------------------------------------------- steps

  /** The result of one keyed operation: whether it succeeded, and the map of
      tickets afterwards. */
  datatype Outcome = Outcome(ok: bool, tickets: map<string, Ticket>)

  /** "Nothing but ticket `id` changes, and no key is added or removed." */
  predicate OnlyTouches(m: map<string, Ticket>, m': map<string, Ticket>, id: string)
  {
    m'.Keys == m.Keys && forall k :: k in m && k != id ==> m'[k] == m[k]
  }

  /** `claimTicket`: refused for a missing or CLOSED ticket, and for one whose
      `claimedBy` is set (an empty string counts as unset). A DELETED ticket
      can be claimed. */
  function ClaimStep(m: map<string, Ticket>, id: string, userId: string, username: string): (r: Outcome)
    ensures r.ok <==> id in m && m[id].status != Closed && !Truthy(m[id].claimedBy)
    ensures !r.ok ==> r.tickets == m
    ensures OnlyTouches(m, r.tickets, id)
    ensures r.ok ==> r.tickets[id] == m[id].(claimedBy := Some(userId), claimedByUsername := Some(username),
                                              status := Claimed)
  {
    if id !in m || m[id].status == Closed || Truthy(m[id].claimedBy) then Outcome(false, m)
    else Outcome(true, m[id := m[id].(claimedBy := Some(userId), claimedByUsername := Some(username),
                                       status := Claimed)])
  }

  /** `unclaimTicket`: refused unless `claimedBy` is set; otherwise both claim
      fields go and the status becomes OPEN, whatever it was. */
  function UnclaimStep(m: map<string, Ticket>, id: string): (r: Outcome)
    ensures r.ok <==> id in m && Truthy(m[id].claimedBy)
    ensures !r.ok ==> r.tickets == m
    ensures OnlyTouches(m, r.tickets, id)
    ensures r.ok ==> r.tickets[id] == m[id].(claimedBy := None, claimedByUsername := None, status := Open)
  {
    if id !in m || !Truthy(m[id].claimedBy) then Outcome(false, m)
    else Outcome(true, m[id := m[id].(claimedBy := None, claimedByUsername := None, status := Open)])
  }

  /** `setPriority`: refused only for a missing ticket. */
  function PriorityStep(m: map<string, Ticket>, id: string, p: Priority): (r: Outcome)
    ensures r.ok <==> id in m
    ensures OnlyTouches(m, r.tickets, id)
    ensures !r.ok ==> r.tickets == m
    ensures r.ok ==> r.tickets[id] == m[id].(priority := p)
  {
    if id !in m then Outcome(false, m)
    else Outcome(true, m[id := m[id].(priority := p)])
  }

  /** `addTag`: refused for a missing ticket or a tag it already has;
      otherwise the tag goes at the end. */
  function AddTagStep(m: map<string, Ticket>, id: string, tag: string): (r: Outcome)
    ensures r.ok <==> id in m && tag !in m[id].tags
    ensures !r.ok ==> r.tickets == m
    ensures OnlyTouches(m, r.tickets, id)
    ensures r.ok ==> r.tickets[id] == m[id].(tags := m[id].tags + [tag])
  {
    if id !in m || tag in m[id].tags then Outcome(false, m)
    else Outcome(true, m[id := m[id].(tags := m[id].tags + [tag])])
  }

  function IsNot(tag: string): string -> bool
  {
    (t: string) => t != tag
  }

  /** The tags other than `tag`, in their order (`tags.filter(t => t !== tag)`). */
  function Without(tags: seq<string>, tag: string): (r: seq<string>)
    ensures forall t :: t in r <==> t in tags && t != tag
  {
    FilterMembers(tags, IsNot(tag));
    Filter(tags, IsNot(tag))
  }

  /** `removeTag`: refused for a missing ticket or a tag it does not have;
      otherwise every occurrence of the tag goes. */
  function RemoveTagStep(m: map<string, Ticket>, id: string, tag: string): (r: Outcome)
    ensures r.ok <==> id in m && tag in m[id].tags
    ensures !r.ok ==> r.tickets == m
    ensures OnlyTouches(m, r.tickets, id)
    ensures r.ok ==> r.tickets[id] == m[id].(tags := Without(m[id].tags, tag))
  {
    if id !in m || tag !in m[id].tags then Outcome(false, m)
    else Outcome(true, m[id := m[id].(tags := Without(m[id].tags, tag))])
  }

  /** `addMessage`: on an existing ticket, appends the message, marks the
      ticket active now and clears the inactivity warning; a missing id
      changes nothing. */
  function MessageStep(m: map<string, Ticket>, id: string, msg: Message, now: int): (m': map<string, Ticket>)
    ensures id !in m ==> m' == m
    ensures OnlyTouches(m, m', id)
    ensures id in m ==> m'[id] == m[id].(messages := m[id].messages + [msg], lastActivity := now,
                                         inactivityWarned := false, inactivityWarningTime := None)
  {
    if id !in m then m
    else m[id := m[id].(messages := m[id].messages + [msg], lastActivity := now,
                        inactivityWarned := false, inactivityWarningTime := None)]
  }

  /** `closeTicket`: refused for a missing or already CLOSED ticket;
      otherwise the status becomes CLOSED and the ticket is marked active
      now. The claim fields are kept. */
  function CloseStep(m: map<string, Ticket>, id: string, now: int): (r: Outcome)
    ensures r.ok <==> id in m && m[id].status != Closed
    ensures !r.ok ==> r.tickets == m
    ensures OnlyTouches(m, r.tickets, id)
    ensures r.ok ==> r.tickets[id] == m[id].(status := Closed, lastActivity := now)
  {
    if id !in m || m[id].status == Closed then Outcome(false, m)
    else Outcome(true, m[id := m[id].(status := Closed, lastActivity := now)])
  }

  /** `reopenTicket`: only a CLOSED ticket is reopened, to OPEN. */
  function ReopenStep(m: map<string, Ticket>, id: string, now: int): (r: Outcome)
    ensures r.ok <==> id in m && m[id].status == Closed
    ensures !r.ok ==> r.tickets == m
    ensures OnlyTouches(m, r.tickets, id)
    ensures r.ok ==> r.tickets[id] == m[id].(status := Open, lastActivity := now)
  {
    if id !in m || m[id].status != Closed then Outcome(false, m)
    else Outcome(true, m[id := m[id].(status := Open, lastActivity := now)])
  }

  /** `deleteTicket`: a soft delete; the record stays under its key. */
  function DeleteStep(m: map<string, Ticket>, id: string): (r: Outcome)
    ensures r.ok <==> id in m
    ensures r.tickets.Keys == m.Keys
    ensures OnlyTouches(m, r.tickets, id)
    ensures r.ok ==> r.tickets[id] == m[id].(status := Deleted)
  {
    if id !in m then Outcome(false, m)
    else Outcome(true, m[id := m[id].(status := Deleted)])
  }

  /** `setRating`: stores the rating and the feedback (absent when none is
      given) on any existing ticket. */
  function RatingStep(m: map<string, Ticket>, id: string, rating: int, feedback: Option<string>): (r: Outcome)
    ensures r.ok <==> id in m
    ensures OnlyTouches(m, r.tickets, id)
    ensures !r.ok ==> r.tickets == m
    ensures r.ok ==> r.tickets[id] == m[id].(rating := Some(rating), feedbackText := feedback)
  {
    if id !in m then Outcome(false, m)
    else Outcome(true, m[id := m[id].(rating := Some(rating), feedbackText := feedback)])
  }

  /** A ticket marked as warned at `now`. */
  function Warned(t: Ticket, now: int): Ticket
  {
    t.(inactivityWarned := true, inactivityWarningTime := Some(now))
  }

  /** `setInactivityWarned`: marks an existing ticket; a missing id changes
      nothing. */
  function WarnStep(m: map<string, Ticket>, id: string, now: int): (m': map<string, Ticket>)
    ensures id !in m ==> m' == m
    ensures OnlyTouches(m, m', id)
    ensures id in m ==> m'[id] == m[id].(inactivityWarned := true, inactivityWarningTime := Some(now))
  {
    if id !in m then m else m[id := Warned(m[id], now)]
  }

  // ---------------------------------------------------------------- lemmas over steps

  /** Once claimed under a non-empty user id, a ticket cannot be claimed
      again, and the failed claim leaves the claimant in place. */
  lemma SecondClaimFails(m: map<string, Ticket>, id: string, a: string, an: string, b: string, bn: string)
    requires ClaimStep(m, id, a, an).ok && a != ""
    ensures var m1 := ClaimStep(m, id, a, an).tickets;
            !ClaimStep(m1, id, b, bn).ok && ClaimStep(m1, id, b, bn).tickets == m1
            && m1[id].claimedBy == Some(a)
  {
  }

  /** Unclaiming undoes a claim on an OPEN ticket that had no claimant. */
  lemma UnclaimUndoesClaim(m: map<string, Ticket>, id: string, userId: string, username: string)
    requires id in m && m[id].status == Open
    requires m[id].claimedBy.None? && m[id].claimedByUsername.None?
    requires userId != ""
    ensures ClaimStep(m, id, userId, username).ok
    ensures UnclaimStep(ClaimStep(m, id, userId, username).tickets, id) == Outcome(true, m)
  {
    var m1 := ClaimStep(m, id, userId, username).tickets;
    var m2 := UnclaimStep(m1, id).tickets;
    assert m2[id] == m[id];
    assert m2 == m;
  }

  /** Closing keeps the claim, so unclaiming a closed, claimed ticket succeeds
      and brings it back to OPEN without a reopen. */
  lemma UnclaimAfterCloseReopens(m: map<string, Ticket>, id: string, now: int)
    requires id in m && m[id].status == Claimed && Truthy(m[id].claimedBy)
    ensures var c := CloseStep(m, id, now);
            c.ok && c.tickets[id].claimedBy == m[id].claimedBy
            && UnclaimStep(c.tickets, id).ok && UnclaimStep(c.tickets, id).tickets[id].status == Open
  {
  }

  /** A second close is refused and changes nothing; reopening the closed
      ticket makes it OPEN again with its claim kept. */
  lemma CloseThenReopen(m: map<string, Ticket>, id: string, t1: int, t2: int)
    requires id in m && m[id].status != Closed
    ensures var c := CloseStep(m, id, t1).tickets;
            !CloseStep(c, id, t2).ok && CloseStep(c, id, t2).tickets == c
            && ReopenStep(c, id, t2).ok
            && ReopenStep(c, id, t2).tickets[id] == m[id].(status := Open, lastActivity := t2)
  {
  }

  /** A tag added twice is stored once. */
  lemma AddTagTwice(m: map<string, Ticket>, id: string, tag: string)
    requires id in m && tag !in m[id].tags
    ensures var m1 := AddTagStep(m, id, tag).tickets;
            !AddTagStep(m1, id, tag).ok && m1[id].tags == m[id].tags + [tag]
  {
  }

  /** Removing a tag that was just added restores the ticket. */
  lemma RemoveUndoesAdd(m: map<string, Ticket>, id: string, tag: string)
    requires id in m && tag !in m[id].tags
    ensures RemoveTagStep(AddTagStep(m, id, tag).tickets, id, tag) == Outcome(true, m)
  {
    var tags := m[id].tags;
    FilterAppend(tags, [tag], IsNot(tag));
    FilterAllOrNone(tags, IsNot(tag));
    FilterAllOrNone([tag], IsNot(tag));
    assert Without(tags + [tag], tag) == tags;
    var m2 := RemoveTagStep(AddTagStep(m, id, tag).tickets, id, tag).tickets;
    assert m2[id] == m[id];
    assert m2 == m;
  }

  /** A duplicate-free tag list stays duplicate-free under both tag steps. */
  lemma TagsStayDistinct(m: map<string, Ticket>, id: string, tag: string)
    requires id in m && NoDuplicates(m[id].tags)
    ensures NoDuplicates(AddTagStep(m, id, tag).tickets[id].tags)
    ensures NoDuplicates(RemoveTagStep(m, id, tag).tickets[id].tags)
  {
    var tags := m[id].tags;
    if tag !in tags {
      var t' := tags + [tag];
      forall i, j | 0 <= i < j < |t'| ensures t'[i] != t'[j] {
        if j == |tags| { assert t'[i] == tags[i]; }
      }
    }
    FilterKeepsDistinct(tags, IsNot(tag));
  }

  // ---------------------------------------------------------------- queries

  /** `Object.values(tickets)`: the records in key insertion order. */
  function ValuesOf(m: map<string, Ticket>, order: seq<string>): (r: seq<Ticket>)
    requires forall k :: k in order ==> k in m
    ensures |r| == |order| && forall i :: 0 <= i < |order| ==> r[i] == m[order[i]]
  {
    seq(|order|, i requires 0 <= i < |order| => m[order[i]])
  }

  /** The listed records are exactly the stored ones. */
  lemma ValuesMembers(m: map<string, Ticket>, order: seq<string>)
    requires Keyed(m, order)
    ensures forall t :: t in ValuesOf(m, order) <==> t.ticketId in m && m[t.ticketId] == t
  {
    var vs := ValuesOf(m, order);
    forall t: Ticket | t.ticketId in m && m[t.ticketId] == t ensures t in vs {
      var i :| 0 <= i < |order| && order[i] == t.ticketId;
      assert vs[i] == t;
    }
  }

  /** No two listed records share an id. */
  lemma ValuesDistinct(m: map<string, Ticket>, order: seq<string>)
    requires Keyed(m, order)
    ensures DistinctIds(ValuesOf(m, order))
  {
  }

  predicate DistinctIds(s: seq<Ticket>)
  {
    forall i, j :: 0 <= i < j < |s| ==> s[i].ticketId != s[j].ticketId
  }

  /** A filter of records with distinct ids has distinct ids. */
  lemma {:induction false} FilterKeepsDistinctIds(s: seq<Ticket>, p: Ticket -> bool)
    ensures DistinctIds(s) ==> DistinctIds(Filter(s, p))
  {
    if s != [] && DistinctIds(s) {
      FilterKeepsDistinctIds(s[1..], p);
      FilterMembers(s[1..], p);
      var tail := Filter(s[1..], p);
      var r := Filter(s, p);
      if p(s[0]) {
        assert r == [s[0]] + tail;
        forall i, j | 0 <= i < j < |r| ensures r[i].ticketId != r[j].ticketId {
          assert r[j] == tail[j - 1];
          if i == 0 {
            assert tail[j - 1] in s[1..];
            var k :| 0 <= k < |s[1..]| && s[1..][k] == tail[j - 1];
            assert s[k + 1] == r[j];
          } else {
            assert r[i] == tail[i - 1];
          }
        }
      }
    }
  }

  /** `getOpenTickets`: the OPEN and CLAIMED records, in listing order. */
  function OpenTickets(all: seq<Ticket>): (r: seq<Ticket>)
    ensures forall t :: t in r <==> t in all && IsActive(t)
    ensures DistinctIds(all) ==> DistinctIds(r)
  {
    FilterMembers(all, IsActive);
    FilterKeepsDistinctIds(all, IsActive);
    Filter(all, IsActive)
  }

  function IdleBefore(cutoff: int): Ticket -> bool
  {
    (t: Ticket) => t.lastActivity < cutoff
  }

  /** `getInactiveTickets(minutes)`: the active records whose last activity is
      more than `minutes` minutes before `now`. */
  function InactiveTickets(all: seq<Ticket>, minutes: int, now: int): (r: seq<Ticket>)
    ensures forall t :: t in r <==> t in all && IsActive(t) && t.lastActivity < now - minutes * MinuteMillis
    ensures DistinctIds(all) ==> DistinctIds(r)
  {
    var open := OpenTickets(all);
    FilterMembers(open, IdleBefore(now - minutes * MinuteMillis));
    FilterKeepsDistinctIds(open, IdleBefore(now - minutes * MinuteMillis));
    Filter(open, IdleBefore(now - minutes * MinuteMillis))
  }

  /** The record `getTicketByChannel` finds: the first listed record for the
      channel that is not DELETED. */
  function FirstByChannel(m: map<string, Ticket>, order: seq<string>, channelId: string): (r: Option<string>)
    requires forall k :: k in order ==> k in m
    ensures r.Some? ==> r.value in order && m[r.value].channelId == channelId && m[r.value].status != Deleted
    ensures r.None? ==> forall i :: 0 <= i < |order| ==>
      m[order[i]].channelId != channelId || m[order[i]].status == Deleted
  {
    if order == [] then None
    else if m[order[0]].channelId == channelId && m[order[0]].status != Deleted then Some(order[0])
    else FirstByChannel(m, order[1..], channelId)
  }

  // ---------------------------------------------------------------- working hours

  datatype HoursCheck = HoursCheck(isOutsideHours: bool, notice: Option<HoursNotice>)

  /** `checkWorkingHours(panelNumber)` for the panel's weekday name and local
      `HH:MM` time. The time is compared with the day's bounds as strings. */
  function CheckWorkingHours(panel: Option<Panel>, weekday: string, clock: string): (r: HoursCheck)
    ensures r.notice.Some? <==> r.isOutsideHours
    ensures panel.None? || panel.value.workingHours.None? || !panel.value.workingHours.value.enabled
            ==> !r.isOutsideHours
    ensures r.isOutsideHours ==> r.notice == Some(panel.value.workingHours.value.message)
    ensures panel.Some? && panel.value.workingHours.Some? && panel.value.workingHours.value.enabled
            && !ScheduleDayOpen(panel.value.workingHours.value.schedule, weekday)
            ==> r.isOutsideHours
  {
    if panel.None? || panel.value.workingHours.None? || !panel.value.workingHours.value.enabled then
      HoursCheck(false, None)
    else
      var wh := panel.value.workingHours.value;
      var day := ScheduleFor(wh.schedule, weekday);
      if day.None? || !day.value.enabled then HoursCheck(true, Some(wh.message))
      else if LexLess(clock, day.value.start) || LexLess(day.value.end, clock) then HoursCheck(true, Some(wh.message))
      else HoursCheck(false, None)
  }

  /** The day has a schedule entry and it is enabled. */
  predicate ScheduleDayOpen(schedule: seq<(string, DaySchedule)>, weekday: string)
  {
    ScheduleFor(schedule, weekday).Some? && ScheduleFor(schedule, weekday).value.enabled
  }

  /** For well-formed `HH:MM` strings the string comparison is the
      chronological one: an enabled day is open from `start` to `end`, both
      minutes included. */
  lemma WorkingHoursInclusive(wh: WorkingHours, weekday: string, clock: string)
    requires wh.enabled && ScheduleDayOpen(wh.schedule, weekday)
    requires IsClock(clock)
    requires IsClock(ScheduleFor(wh.schedule, weekday).value.start)
    requires IsClock(ScheduleFor(wh.schedule, weekday).value.end)
    ensures var day := ScheduleFor(wh.schedule, weekday).value;
            var p := Some(Panel("", "", Some(wh)));
            !CheckWorkingHours(p, weekday, clock).isOutsideHours
            <==> ClockMinutes(day.start) <= ClockMinutes(clock) <= ClockMinutes(day.end)
  {
    var day := ScheduleFor(wh.schedule, weekday).value;
    ClockLexIsChronological(clock, day.start);
    ClockLexIsChronological(day.end, clock);
  }

  // ---------------------------------------------------------------- the store

  /** What the chat platform did with the new ticket's channel and messages:
      the channel could not be made; the welcome message could not be posted;
      the out-of-hours notice could not be posted; or everything arrived. */
  datatype Delivery =
    | ChannelRefused
    | WelcomeRefused(channelId: string)
    | NoticeRefused(channelId: string, embedId: string)
    | Delivered(channelId: string, embedId: string)
  {
    function EmbedId(): Option<string>
    {
      match this
      case NoticeRefused(_, e) => Some(e)
      case Delivered(_, e) => Some(e)
      case _ => None
    }
  }

  /** The store after `createTicket`, and the channel it returns. */
  datatype Creation = Creation(tickets: map<string, Ticket>, order: seq<string>, channel: Option<string>)

  /** `createTicket` as one step. The per-user limit is checked first; the id
      is derived from the store size; a missing panel or a refused channel
      aborts with nothing stored. Once the channel exists the record is
      stored, and a later refusal aborts with the record kept. The channel is
      returned only when every send that was attempted arrived. */
  function CreateStep(m: map<string, Ticket>, order: seq<string>, guildId: string, userId: string,
                      username: string, category: string, answers: seq<string>, panelNumber: int,
                      categoryIndex: int, maxPerUser: int, panel: Option<Panel>, weekday: string,
                      clock: string, delivery: Delivery, now: int): (c: Creation)
    ensures ActiveCount(m, userId) >= maxPerUser ==> c == Creation(m, order, None)
    ensures panel.None? || delivery.ChannelRefused? ==> c == Creation(m, order, None)
    ensures c.channel.Some? ==> c.channel == Some(delivery.channelId) && delivery.EmbedId().Some?
    ensures c.tickets == m
         || (TicketIdFor(|m| + 1) in c.tickets && c.tickets == m[TicketIdFor(|m| + 1) := c.tickets[TicketIdFor(|m| + 1)]])
    ensures c.tickets != m ==> var t := c.tickets[TicketIdFor(|m| + 1)];
      t.ticketId == TicketIdFor(|m| + 1) && t.status == Open && t.userId == userId
    ensures ActiveCount(m, userId) < maxPerUser && panel.Some? && !delivery.ChannelRefused? ==>
      var id := TicketIdFor(|m| + 1);
      && c.tickets == m[id := NewTicket(id, delivery.channelId, guildId, userId, username, category, answers,
                                        panelNumber, categoryIndex, now).(embedMessageId := delivery.EmbedId())]
      && c.order == (if id in m then order else order + [id])
      && (c.channel.Some? <==> !delivery.WelcomeRefused?
                               && !(delivery.NoticeRefused? && CheckWorkingHours(panel, weekday, clock).isOutsideHours))
  {
    var id := TicketIdFor(|m| + 1);
    if ActiveCount(m, userId) >= maxPerUser || panel.None? || delivery.ChannelRefused? then
      Creation(m, order, None)
    else
      var data := NewTicket(id, delivery.channelId, guildId, userId, username, category, answers,
                            panelNumber, categoryIndex, now).(embedMessageId := delivery.EmbedId());
      var order' := if id in m then order else order + [id];
      var reached := !delivery.WelcomeRefused?
        && !(delivery.NoticeRefused? && CheckWorkingHours(panel, weekday, clock).isOutsideHours);
      Creation(m[id := data], order', if reached then Some(delivery.channelId) else None)
  }

  /** Storing a record under its own id keeps the store keyed. */
  lemma KeyedInsert(m: map<string, Ticket>, order: seq<string>, t: Ticket)
    requires Keyed(m, order)
    ensures Keyed(m[t.ticketId := t], if t.ticketId in m then order else order + [t.ticketId])
  {
    if t.ticketId !in m {
      var o := order + [t.ticketId];
      forall i, j | 0 <= i < j < |o| ensures o[i] != o[j] {
        if j == |order| { assert o[i] == order[i]; }
      }
    }
  }

  /** A freshly numbered store entry, created under the limit, uses one of
      the user's slots. */
  lemma CreateStepUsesSlot(m: map<string, Ticket>, order: seq<string>, guildId: string, userId: string,
                           username: string, category: string, answers: seq<string>, panelNumber: int,
                           categoryIndex: int, maxPerUser: int, panel: Option<Panel>, weekday: string,
                           clock: string, delivery: Delivery, now: int)
    requires TicketIdFor(|m| + 1) !in m
    ensures var c := CreateStep(m, order, guildId, userId, username, category, answers, panelNumber,
                                categoryIndex, maxPerUser, panel, weekday, clock, delivery, now);
      ActiveCount(c.tickets, userId) == ActiveCount(m, userId) + (if c.tickets == m then 0 else 1)
  {
    var c := CreateStep(m, order, guildId, userId, username, category, answers, panelNumber,
                        categoryIndex, maxPerUser, panel, weekday, clock, delivery, now);
    if c.tickets != m {
      CreateUsesSlot(m, c.tickets[TicketIdFor(|m| + 1)]);
      assert c.tickets == m[TicketIdFor(|m| + 1) := c.tickets[TicketIdFor(|m| + 1)]];
    }
  }

  /** The audit-log entry for a successful ticket operation. */
  function Entry(now: int, t: LogType, id: string, userId: string, username: string, details: string): LogEntry
  {
    LogEntry(now, t, Some(id), userId, username, details, None)
  }

  class TicketStore {
    var tickets: map<string, Ticket>
    /** The keys in insertion order. */
    var order: seq<string>
    const audit: Logger.AuditLog

    predicate Valid()
      reads this
    {
      Keyed(tickets, order)
    }

    constructor (audit: Logger.AuditLog)
      ensures Valid() && tickets == map[] && order == [] && this.audit == audit
    {
      tickets := map[];
      order := [];
      this.audit := audit;
    }

    /** `getAllTickets` */
    function All(): (r: seq<Ticket>)
      reads this
      requires Valid()
      ensures forall t :: t in r <==> t.ticketId in tickets && tickets[t.ticketId] == t
      ensures DistinctIds(r)
    {
      ValuesMembers(tickets, order);
      ValuesDistinct(tickets, order);
      ValuesOf(tickets, order)
    }

    /** `getTicketById` */
    function TicketById(id: string): (r: Option<Ticket>)
      reads this
      ensures r.Some? <==> id in tickets
      ensures r.Some? ==> r.value == tickets[id]
    {
      if id in tickets then Some(tickets[id]) else None
    }

    /** `getTicketByChannel`: a search in listing order. */
    method GetTicketByChannel(channelId: string) returns (r: Option<(string, Ticket)>)
      requires Valid()
      ensures r.None? <==> FirstByChannel(tickets, order, channelId).None?
      ensures r.Some? ==> FirstByChannel(tickets, order, channelId) == Some(r.value.0)
      ensures r.Some? ==> r.value.1 == tickets[r.value.0] && r.value.1.ticketId == r.value.0
    {
      var i := 0;
      while i < |order|
        invariant 0 <= i <= |order|
        invariant FirstByChannel(tickets, order, channelId) == FirstByChannel(tickets, order[i..], channelId)
      {
        var data := tickets[order[i]];
        if data.channelId == channelId && data.status != Deleted {
          return Some((order[i], data));
        }
        assert order[i..][1..] == order[i + 1..];
        i := i + 1;
      }
      return None;
    }

    /** `createTicket`: the entry is logged when the channel is returned. */
    method CreateTicket(guildId: string, userId: string, username: string, category: string,
                        answers: seq<string>, panelNumber: int, categoryIndex: int,
                        maxPerUser: int, panel: Option<Panel>, weekday: string, clock: string,
                        delivery: Delivery, now: int)
      returns (channel: Option<string>)
      requires Valid()
      modifies this, audit
      ensures Valid()
      ensures Creation(tickets, order, channel)
           == CreateStep(old(tickets), old(order), guildId, userId, username, category, answers, panelNumber,
                         categoryIndex, maxPerUser, panel, weekday, clock, delivery, now)
      ensures var id := TicketIdFor(|old(tickets)| + 1);
              audit.logs == old(audit.logs)
                + (if channel.Some? then [Entry(now, TicketCreated, id, userId, username,
                                                "Created ticket " + id + " in category: " + category)]
                   else [])
    {
      var id := TicketIdFor(|tickets| + 1);
      var c := CreateStep(tickets, order, guildId, userId, username, category, answers, panelNumber,
                          categoryIndex, maxPerUser, panel, weekday, clock, delivery, now);
      if c.tickets != tickets {
        KeyedInsert(tickets, order, c.tickets[TicketIdFor(|tickets| + 1)]);
      }
      tickets, order, channel := c.tickets, c.order, c.channel;
      if channel.Some? {
        var _ := audit.Log(TicketCreated, userId, username, "Created ticket " + id + " in category: " + category,
                           Some(id), None, now);
      }
    }

    /** `claimTicket` */
    method ClaimTicket(id: string, userId: string, username: string, now: int) returns (ok: bool)
      requires Valid()
      modifies this, audit
      ensures Valid() && order == old(order)
      ensures Outcome(ok, tickets) == ClaimStep(old(tickets), id, userId, username)
      ensures audit.logs == old(audit.logs)
        + (if ok then [Entry(now, TicketClaimed, id, userId, username, "Claimed ticket " + id)] else [])
    {
      var r := ClaimStep(tickets, id, userId, username);
      ok := r.ok;
      if ok {
        tickets := r.tickets;
        var _ := audit.Log(TicketClaimed, userId, username, "Claimed ticket " + id, Some(id), None, now);
      }
    }

    /** `unclaimTicket`: the entry is logged under the ticket's owner. */
    method UnclaimTicket(id: string, now: int) returns (ok: bool)
      requires Valid()
      modifies this, audit
      ensures Valid() && order == old(order)
      ensures Outcome(ok, tickets) == UnclaimStep(old(tickets), id)
      ensures audit.logs == old(audit.logs)
        + (if ok then [Entry(now, TicketUnclaimed, id, old(tickets)[id].userId, old(tickets)[id].username,
                             "Unclaimed ticket " + id)] else [])
    {
      var r := UnclaimStep(tickets, id);
      ok := r.ok;
      if ok {
        var owner := tickets[id];
        tickets := r.tickets;
        var _ := audit.Log(TicketUnclaimed, owner.userId, owner.username, "Unclaimed ticket " + id, Some(id), None, now);
      }
    }

    /** `setPriority` */
    method SetPriority(id: string, p: Priority, userId: string, username: string, now: int) returns (ok: bool)
      requires Valid()
      modifies this, audit
      ensures Valid() && order == old(order)
      ensures Outcome(ok, tickets) == PriorityStep(old(tickets), id, p)
      ensures audit.logs == old(audit.logs)
        + (if ok then [Entry(now, PriorityChanged, id, userId, username, "Changed priority to " + PriorityValue(p))] else [])
    {
      var r := PriorityStep(tickets, id, p);
      ok := r.ok;
      if ok {
        tickets := r.tickets;
        var _ := audit.Log(PriorityChanged, userId, username, "Changed priority to " + PriorityValue(p), Some(id), None, now);
      }
    }

    /** `addTag` */
    method AddTag(id: string, tag: string, userId: string, username: string, now: int) returns (ok: bool)
      requires Valid()
      modifies this, audit
      ensures Valid() && order == old(order)
      ensures Outcome(ok, tickets) == AddTagStep(old(tickets), id, tag)
      ensures audit.logs == old(audit.logs)
        + (if ok then [Entry(now, TagAdded, id, userId, username, "Added tag: " + tag)] else [])
    {
      var r := AddTagStep(tickets, id, tag);
      ok := r.ok;
      if ok {
        tickets := r.tickets;
        var _ := audit.Log(TagAdded, userId, username, "Added tag: " + tag, Some(id), None, now);
      }
    }

    /** `removeTag` */
    method RemoveTag(id: string, tag: string, userId: string, username: string, now: int) returns (ok: bool)
      requires Valid()
      modifies this, audit
      ensures Valid() && order == old(order)
      ensures Outcome(ok, tickets) == RemoveTagStep(old(tickets), id, tag)
      ensures audit.logs == old(audit.logs)
        + (if ok then [Entry(now, TagRemoved, id, userId, username, "Removed tag: " + tag)] else [])
    {
      var r := RemoveTagStep(tickets, id, tag);
      ok := r.ok;
      if ok {
        tickets := r.tickets;
        var _ := audit.Log(TagRemoved, userId, username, "Removed tag: " + tag, Some(id), None, now);
      }
    }

    /** `addMessage`: nothing is logged. */
    method AddMessage(id: string, msg: Message, now: int)
      requires Valid()
      modifies this
      ensures Valid() && order == old(order)
      ensures tickets == MessageStep(old(tickets), id, msg, now)
    {
      tickets := MessageStep(tickets, id, msg, now);
    }

    /** `closeTicket` */
    method CloseTicket(id: string, userId: string, username: string, now: int) returns (ok: bool)
      requires Valid()
      modifies this, audit
      ensures Valid() && order == old(order)
      ensures Outcome(ok, tickets) == CloseStep(old(tickets), id, now)
      ensures audit.logs == old(audit.logs)
        + (if ok then [Entry(now, TicketClosed, id, userId, username, "Closed ticket " + id)] else [])
    {
      var r := CloseStep(tickets, id, now);
      ok := r.ok;
      if ok {
        tickets := r.tickets;
        var _ := audit.Log(TicketClosed, userId, username, "Closed ticket " + id, Some(id), None, now);
      }
    }

    /** `reopenTicket` */
    method ReopenTicket(id: string, userId: string, username: string, now: int) returns (ok: bool)
      requires Valid()
      modifies this, audit
      ensures Valid() && order == old(order)
      ensures Outcome(ok, tickets) == ReopenStep(old(tickets), id, now)
      ensures audit.logs == old(audit.logs)
        + (if ok then [Entry(now, TicketReopened, id, userId, username, "Reopened ticket " + id)] else [])
    {
      var r := ReopenStep(tickets, id, now);
      ok := r.ok;
      if ok {
        tickets := r.tickets;
        var _ := audit.Log(TicketReopened, userId, username, "Reopened ticket " + id, Some(id), None, now);
      }
    }

    /** `deleteTicket` */
    method DeleteTicket(id: string, userId: string, username: string, now: int) returns (ok: bool)
      requires Valid()
      modifies this, audit
      ensures Valid() && order == old(order)
      ensures Outcome(ok, tickets) == DeleteStep(old(tickets), id)
      ensures audit.logs == old(audit.logs)
        + (if ok then [Entry(now, TicketDeleted, id, userId, username, "Deleted ticket " + id)] else [])
    {
      var r := DeleteStep(tickets, id);
      ok := r.ok;
      if ok {
        tickets := r.tickets;
        var _ := audit.Log(TicketDeleted, userId, username, "Deleted ticket " + id, Some(id), None, now);
      }
    }

    /** `setRating`: logged under the ticket's owner, with the rating and the
        feedback as metadata. */
    method SetRating(id: string, rating: int, feedback: Option<string>, now: int) returns (ok: bool)
      requires Valid()
      modifies this, audit
      ensures Valid() && order == old(order)
      ensures Outcome(ok, tickets) == RatingStep(old(tickets), id, rating, feedback)
      ensures audit.logs == old(audit.logs)
        + (if ok then [LogEntry(now, RatingSubmitted, Some(id), old(tickets)[id].userId, old(tickets)[id].username,
                                "Submitted rating: " + IntToString(rating) + "/5",
                                Some(RatingMetadata(rating, feedback)))] else [])
    {
      var r := RatingStep(tickets, id, rating, feedback);
      ok := r.ok;
      if ok {
        var owner := tickets[id];
        tickets := r.tickets;
        var _ := audit.Log(RatingSubmitted, owner.userId, owner.username,
                           "Submitted rating: " + IntToString(rating) + "/5", Some(id),
                           Some(RatingMetadata(rating, feedback)), now);
      }
    }

    /** `setInactivityWarned`: nothing is logged. */
    method SetInactivityWarned(id: string, now: int)
      requires Valid()
      modifies this
      ensures Valid() && order == old(order)
      ensures tickets == WarnStep(old(tickets), id, now)
    {
      tickets := WarnStep(tickets, id, now);
    }
  }
}
