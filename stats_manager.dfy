/** Ticket statistics: the status counts, the integer averages of response
    and resolution time, the per-category and per-staff tallies, the rating
    distribution, and the leaders of a tally. */
module StatsManager {
  import opened Wrappers
  import opened Types
  import opened Sequences
  import opened TicketManager

  const HourMillis: int := 60 * MinuteMillis

  // ---------------------------------------------------------------- counts

  function IsClosed(t: Ticket): bool { t.status == Closed }

  function ClosedTickets(all: seq<Ticket>): (r: seq<Ticket>)
    ensures forall t :: t in r <==> t in all && t.status == Closed
    ensures forall i :: 0 <= i < |r| ==> r[i].status == Closed
  {
    FilterMembers(all, IsClosed);
    Filter(all, IsClosed)
  }

  /** No ticket is both active and closed, so the two counts together never
      exceed the total. */
  lemma {:induction false} OpenPlusClosedAtMostTotal(all: seq<Ticket>)
    ensures |OpenTickets(all)| + |ClosedTickets(all)| <= |all|
  {
    if all != [] {
      var init := all[..|all| - 1];
      var last := all[|all| - 1];
      assert all == init + [last];
      OpenPlusClosedAtMostTotal(init);
      FilterAppend(init, [last], IsActive);
      FilterAppend(init, [last], IsClosed);
    }
  }

  // ---------------------------------------------------------------- averages

  /** The first message not written by `userId` (`messages.find`). */
  function FirstOther(ms: seq<Message>, userId: string): (r: Option<nat>)
    ensures r.Some? ==> r.value < |ms| && ms[r.value].authorId != userId
    ensures r.Some? ==> forall j :: 0 <= j < r.value ==> ms[j].authorId == userId
    ensures r.None? ==> forall j :: 0 <= j < |ms| ==> ms[j].authorId == userId
  {
    if ms == [] then None
    else if ms[0].authorId != userId then Some(0)
    else match FirstOther(ms[1..], userId)
      case None => None
      case Some(j) => Some(j + 1)
  }

  /** The response delay a closed ticket contributes: from its first message
      to the first message by someone other than its opener, when it has at
      least two messages and such a message exists. */
  function ResponseDelay(t: Ticket): Option<int>
  {
    if |t.messages| >= 2 then
      match FirstOther(t.messages, t.userId)
      case None => None
      case Some(j) => Some(t.messages[j].timestamp - t.messages[0].timestamp)
    else None
  }

  /** The resolution time a ticket contributes: closed, with a non-zero
      creation time, from creation to its last activity (or `now` when that
      is zero). */
  function ResolutionTime(t: Ticket, now: int): Option<int>
  {
    if t.status == Closed && t.createdAt != 0 then
      Some((if t.lastActivity != 0 then t.lastActivity else now) - t.createdAt)
    else None
  }

  function ResolutionAt(now: int): Ticket -> Option<int>
  {
    (t: Ticket) => ResolutionTime(t, now)
  }

  /** The sum of the samples of the tickets that give one. */
  function SampleSum(ts: seq<Ticket>, f: Ticket -> Option<int>): int
  {
    if ts == [] then 0
    else SampleSum(ts[..|ts| - 1], f) + (match f(ts[|ts| - 1]) case Some(d) => d case None => 0)
  }

  /** The number of tickets that give a sample. */
  function SampleCount(ts: seq<Ticket>, f: Ticket -> Option<int>): (n: nat)
    ensures n <= |ts|
  {
    if ts == [] then 0
    else SampleCount(ts[..|ts| - 1], f) + (if f(ts[|ts| - 1]).Some? then 1 else 0)
  }

  /** With no sample the sum is zero. */
  lemma {:induction false} NoSampleZeroSum(ts: seq<Ticket>, f: Ticket -> Option<int>)
    requires SampleCount(ts, f) == 0
    ensures SampleSum(ts, f) == 0
  {
    if ts != [] {
      NoSampleZeroSum(ts[..|ts| - 1], f);
    }
  }

  /** The floor of the mean of the samples in `unit`s, 0 without samples;
      `Math.floor` of a quotient by a positive divisor is Dafny's division. */
  function MeanFloor(sum: int, count: nat, unit: nat): (r: int)
    requires unit > 0
    ensures count > 0 ==> r * count * unit <= sum < (r + 1) * count * unit
    ensures count == 0 ==> r == 0
  {
    if count > 0 then sum / (count * unit) else 0
  }

  /** The accumulation loop of an average. */
  method Accumulate(ts: seq<Ticket>, f: Ticket -> Option<int>) returns (total: int, count: nat)
    ensures total == SampleSum(ts, f) && count == SampleCount(ts, f)
  {
    total, count := 0, 0;
    var i := 0;
    while i < |ts|
      invariant 0 <= i <= |ts|
      invariant total == SampleSum(ts[..i], f) && count == SampleCount(ts[..i], f)
    {
      assert ts[..i + 1][..i] == ts[..i];
      match f(ts[i]) {
        case Some(d) =>
          total := total + d;
          count := count + 1;
        case None =>
      }
      i := i + 1;
    }
    assert ts[..|ts|] == ts;
  }

  /** `calculateAvgResponseTime` over the closed tickets: the floor of the
      mean delay in minutes, or 0. */
  method AvgResponseTime(closed: seq<Ticket>) returns (r: int)
    ensures var n := SampleCount(closed, ResponseDelay);
      r == MeanFloor(SampleSum(closed, ResponseDelay), n, MinuteMillis)
  {
    if |closed| == 0 {
      return 0;
    }
    var total, count := Accumulate(closed, ResponseDelay);
    r := if count > 0 then total / (count * MinuteMillis) else 0;
  }

  /** `calculateAvgResolutionTime` over the closed tickets: the floor of the
      mean resolution time in hours, or 0. */
  method AvgResolutionTime(closed: seq<Ticket>, now: int) returns (r: int)
    ensures var n := SampleCount(closed, ResolutionAt(now));
      r == MeanFloor(SampleSum(closed, ResolutionAt(now)), n, HourMillis)
  {
    if |closed| == 0 {
      return 0;
    }
    var total, count := Accumulate(closed, ResolutionAt(now));
    r := if count > 0 then total / (count * HourMillis) else 0;
  }

  // ---------------------------------------------------------------- tallies

  /** A tally: its keys in first-seen order, each with its count. */
  type Tally = seq<(string, int)>

  predicate DistinctKeys(t: Tally)
  {
    forall i, j :: 0 <= i < j < |t| ==> t[i].0 != t[j].0
  }

  /** The count under a key, 0 when absent (`x[k] || 0`). */
  function CountOf(t: Tally, k: string): int
  {
    if t == [] then 0 else if t[0].0 == k then t[0].1 else CountOf(t[1..], k)
  }

  function TallySum(t: Tally): int
  {
    if t == [] then 0 else t[0].1 + TallySum(t[1..])
  }

  /** `x[k] = (x[k] || 0) + 1`: the entry under `k` goes up by one, or a new
      entry `(k, 1)` is appended. */
  function Bump(t: Tally, k: string): (r: Tally)
    ensures |r| == |t| || r == t + [(k, 1)]
  {
    if t == [] then [(k, 1)]
    else if t[0].0 == k then [(k, t[0].1 + 1)] + t[1..]
    else [t[0]] + Bump(t[1..], k)
  }

  lemma {:induction false} BumpCounts(t: Tally, k: string, j: string)
    ensures CountOf(Bump(t, k), j) == CountOf(t, j) + (if j == k then 1 else 0)
    ensures TallySum(Bump(t, k)) == TallySum(t) + 1
  {
    if t != [] && t[0].0 != k {
      BumpCounts(t[1..], k, j);
      assert Bump(t, k)[1..] == Bump(t[1..], k);
    }
  }

  lemma BumpKeys(t: Tally, k: string)
    requires DistinctKeys(t)
    ensures DistinctKeys(Bump(t, k))
    ensures forall e :: e in Bump(t, k) ==> e.0 == k || exists d :: d in t && d.0 == e.0
  {
    BumpDistinct(t, k);
    BumpOnlyKey(t, k);
  }

  lemma {:induction false} BumpDistinct(t: Tally, k: string)
    requires DistinctKeys(t)
    ensures DistinctKeys(Bump(t, k))
  {
    if t == [] {
      assert Bump(t, k) == [(k, 1)];
    } else if t[0].0 == k {
      var r := Bump(t, k);
      assert r == [(k, t[0].1 + 1)] + t[1..];
      assert forall i :: 0 <= i < |r| ==> r[i].0 == t[i].0;
    } else {
      BumpDistinct(t[1..], k);
      BumpOnlyKey(t[1..], k);
      var r := Bump(t, k);
      assert r == [t[0]] + Bump(t[1..], k);
      forall j | 0 < j < |r|
        ensures r[j].0 != t[0].0
      {
        assert r[j] in Bump(t[1..], k);
      }
    }
  }

  lemma {:induction false} BumpOnlyKey(t: Tally, k: string)
    ensures forall e :: e in Bump(t, k) ==> e.0 == k || exists d :: d in t && d.0 == e.0
  {
    if t == [] {
      assert Bump(t, k) == [(k, 1)];
    } else if t[0].0 == k {
      var r := Bump(t, k);
      assert r == [(k, t[0].1 + 1)] + t[1..];
      forall e | e in r
        ensures e.0 == k || exists d :: d in t && d.0 == e.0
      {
        var i :| 0 <= i < |r| && r[i] == e;
        assert t[i] in t;
      }
    } else {
      BumpOnlyKey(t[1..], k);
      var r := Bump(t, k);
      assert r == [t[0]] + Bump(t[1..], k);
      forall e | e in r
        ensures e.0 == k || exists d :: d in t && d.0 == e.0
      {
        if e == t[0] {
          assert t[0] in t;
        } else {
          assert e in Bump(t[1..], k);
          if e.0 != k {
            var d :| d in t[1..] && d.0 == e.0;
            assert d in t;
          }
        }
      }
    }
  }

  /** `getTicketsByCategory`, specified: one bump per ticket, in order. */
  function CategoryTally(ts: seq<Ticket>): (r: Tally)
    ensures TallySum(r) == |ts|
    ensures |r| <= |ts|
  {
    if ts == [] then []
    else
      var init := CategoryTally(ts[..|ts| - 1]);
      BumpCounts(init, ts[|ts| - 1].category, "");
      Bump(init, ts[|ts| - 1].category)
  }

  /** `getTicketsByStaff`, specified: one bump per ticket with a non-empty
      claimer name, closed tickets included. */
  function StaffTally(ts: seq<Ticket>): (r: Tally)
    ensures TallySum(r) == ClaimedCount(ts)
    ensures |r| <= ClaimedCount(ts)
  {
    if ts == [] then []
    else
      var init := StaffTally(ts[..|ts| - 1]);
      var t := ts[|ts| - 1];
      if Truthy(t.claimedByUsername) then
        BumpCounts(init, t.claimedByUsername.value, "");
        Bump(init, t.claimedByUsername.value)
      else init
  }

  /** The number of tickets in a category. */
  function InCategory(ts: seq<Ticket>, c: string): nat
  {
    if ts == [] then 0 else InCategory(ts[..|ts| - 1], c) + (if ts[|ts| - 1].category == c then 1 else 0)
  }

  /** The number of tickets a named staff member claimed. */
  function ClaimedBy(ts: seq<Ticket>, name: string): nat
  {
    if ts == [] then 0
    else
      var t := ts[|ts| - 1];
      ClaimedBy(ts[..|ts| - 1], name) + (if Truthy(t.claimedByUsername) && t.claimedByUsername.value == name then 1 else 0)
  }

  /** The number of tickets with a non-empty claimer name. */
  function ClaimedCount(ts: seq<Ticket>): nat
  {
    if ts == [] then 0 else ClaimedCount(ts[..|ts| - 1]) + (if Truthy(ts[|ts| - 1].claimedByUsername) then 1 else 0)
  }

  /** Every category appears once, with the number of its tickets, and the
      counts add up to the number of tickets. */
  lemma {:induction false} CategoryTallyCounts(ts: seq<Ticket>, c: string)
    ensures DistinctKeys(CategoryTally(ts))
    ensures CountOf(CategoryTally(ts), c) == InCategory(ts, c)
    ensures TallySum(CategoryTally(ts)) == |ts|
  {
    if ts != [] {
      var init := ts[..|ts| - 1];
      CategoryTallyCounts(init, c);
      BumpCounts(CategoryTally(init), ts[|ts| - 1].category, c);
      BumpKeys(CategoryTally(init), ts[|ts| - 1].category);
    }
  }

  /** Every staff name appears once, with the number of tickets it claimed,
      and the counts add up to the number of claimed tickets. */
  lemma {:induction false} StaffTallyCounts(ts: seq<Ticket>, name: string)
    ensures DistinctKeys(StaffTally(ts))
    ensures CountOf(StaffTally(ts), name) == ClaimedBy(ts, name)
    ensures TallySum(StaffTally(ts)) == ClaimedCount(ts)
  {
    if ts != [] {
      var init := ts[..|ts| - 1];
      var t := ts[|ts| - 1];
      StaffTallyCounts(init, name);
      if Truthy(t.claimedByUsername) {
        BumpCounts(StaffTally(init), t.claimedByUsername.value, name);
        BumpKeys(StaffTally(init), t.claimedByUsername.value);
      }
    }
  }

  /** The tally loop of `getTicketsByCategory`. */
  method TicketsByCategory(ts: seq<Ticket>) returns (r: Tally)
    ensures r == CategoryTally(ts)
  {
    r := [];
    for i := 0 to |ts|
      invariant r == CategoryTally(ts[..i])
    {
      assert ts[..i + 1][..i] == ts[..i];
      r := Bump(r, ts[i].category);
    }
    assert ts[..|ts|] == ts;
  }

  /** The tally loop of `getTicketsByStaff`. */
  method TicketsByStaff(ts: seq<Ticket>) returns (r: Tally)
    ensures r == StaffTally(ts)
  {
    r := [];
    for i := 0 to |ts|
      invariant r == StaffTally(ts[..i])
    {
      assert ts[..i + 1][..i] == ts[..i];
      if Truthy(ts[i].claimedByUsername) {
        r := Bump(r, ts[i].claimedByUsername.value);
      }
    }
    assert ts[..|ts|] == ts;
  }

  // ---------------------------------------------------------------- ratings

  /** A counter of the distribution: a number, or `NaN` once `undefined` has
      been incremented. */
  datatype Counter = Num(n: nat) | NaN

  function Incremented(c: Option<Counter>): Counter
  {
    match c
    case Some(Num(n)) => Num(n + 1)
    case _ => NaN
  }

  const InitialDistribution: map<int, Counter> := map[1 := Num(0), 2 := Num(0), 3 := Num(0), 4 := Num(0), 5 := Num(0)]

  /** A rating counts when it is present and non-zero. */
  predicate Counts(t: Ticket)
  {
    t.rating.Some? && t.rating.value != 0
  }

  /** `getRatingDistribution`, specified: one increment per counted rating. */
  function Distribution(ts: seq<Ticket>): (r: map<int, Counter>)
    ensures forall k :: 1 <= k <= 5 ==> k in r && r[k].Num?
    ensures 0 !in r
  {
    if ts == [] then InitialDistribution
    else
      var d := Distribution(ts[..|ts| - 1]);
      var t := ts[|ts| - 1];
      if Counts(t) then
        var r := t.rating.value;
        d[r := Incremented(if r in d then Some(d[r]) else None)]
      else d
  }

  /** The number of tickets rated `r`. */
  function RatedAs(ts: seq<Ticket>, r: int): nat
  {
    if ts == [] then 0 else RatedAs(ts[..|ts| - 1], r) + (if ts[|ts| - 1].rating == Some(r) then 1 else 0)
  }

  /** The keys 1 to 5 count the tickets with that rating; any other key is a
      non-zero rating that some ticket has, and its counter is `NaN`. */
  lemma {:induction false} DistributionCounts(ts: seq<Ticket>, r: int)
    ensures 1 <= r <= 5 ==> r in Distribution(ts) && Distribution(ts)[r] == Num(RatedAs(ts, r))
    ensures !(1 <= r <= 5) ==> (r in Distribution(ts) <==> r != 0 && RatedAs(ts, r) > 0)
    ensures !(1 <= r <= 5) && r in Distribution(ts) ==> Distribution(ts)[r] == NaN
  {
    if ts != [] {
      DistributionCounts(ts[..|ts| - 1], r);
    }
  }

  /** The distribution loop. */
  method RatingDistribution(closed: seq<Ticket>) returns (d: map<int, Counter>)
    ensures d == Distribution(closed)
  {
    d := InitialDistribution;
    for i := 0 to |closed|
      invariant d == Distribution(closed[..i])
    {
      assert closed[..i + 1][..i] == closed[..i];
      var t := closed[i];
      if Counts(t) {
        var r := t.rating.value;
        d := d[r := Incremented(if r in d then Some(d[r]) else None)];
      }
    }
    assert closed[..|closed|] == closed;
  }

  // ---------------------------------------------------------------- leaders

  /** `reduce((max, cur) => cur[1] > max[1] ? cur : max)` from `acc`. */
  function Leader(acc: (string, int), rest: Tally): (string, int)
    decreases rest
  {
    if rest == [] then acc
    else Leader(if rest[0].1 > acc.1 then rest[0] else acc, rest[1..])
  }

  lemma {:induction false} LeaderIsFirstMaximum(acc: (string, int), rest: Tally)
    decreases rest
    ensures var w := Leader(acc, rest);
      && (w == acc || w in rest)
      && w.1 >= acc.1
      && (forall e :: e in rest ==> e.1 <= w.1)
      && (w != acc ==> w.1 > acc.1 && exists i :: 0 <= i < |rest| && rest[i] == w
                                       && forall j :: 0 <= j < i ==> rest[j].1 < w.1)
  {
    if rest != [] {
      var next := if rest[0].1 > acc.1 then rest[0] else acc;
      LeaderIsFirstMaximum(next, rest[1..]);
      var w := Leader(acc, rest);
      if w != acc && w != rest[0] {
        var i :| 0 <= i < |rest[1..]| && rest[1..][i] == w && forall j :: 0 <= j < i ==> rest[1..][j].1 < w.1;
        assert rest[i + 1] == w;
        forall j | 0 <= j < i + 1 ensures rest[j].1 < w.1 {
          if j > 0 { assert rest[j] == rest[1..][j - 1]; }
        }
      }
    }
  }

  /** `getTopStaff` / `getBusiestCategory` on a tally: nothing when it is
      empty, otherwise an entry with the greatest count, the first such. */
  function TallyLeader(t: Tally): (r: Option<(string, int)>)
    ensures r.None? <==> t == []
    ensures r.Some? ==> IsFirstMaximum(t, r.value)
  {
    if t == [] then None
    else
      LeaderOfTally(t);
      Some(Leader(t[0], t[1..]))
  }

  /** `w` is an entry of `t` with the greatest count, and no entry before it
      has that count. */
  ghost predicate IsFirstMaximum(t: Tally, w: (string, int))
  {
    exists i :: 0 <= i < |t| && t[i] == w
                && (forall j :: 0 <= j < i ==> t[j].1 < w.1)
                && (forall j :: i <= j < |t| ==> t[j].1 <= w.1)
  }

  lemma LeaderOfTally(t: Tally)
    requires t != []
    ensures IsFirstMaximum(t, Leader(t[0], t[1..]))
  {
    LeaderIsFirstMaximum(t[0], t[1..]);
    var w := Leader(t[0], t[1..]);
    var k := 0;
    if w != t[0] {
      var i :| 0 <= i < |t[1..]| && t[1..][i] == w && forall j :: 0 <= j < i ==> t[1..][j].1 < w.1;
      k := i + 1;
    }
    forall j | 0 <= j < k
      ensures t[j].1 < w.1
    {
      if j > 0 { assert t[j] == t[1..][j - 1]; }
    }
    forall j | k <= j < |t|
      ensures t[j].1 <= w.1
    {
      if j > 0 { assert t[j] in t[1..]; }
    }
    assert t[k] == w;
  }

  // ---------------------------------------------------------------- the report

  datatype StatsData = StatsData(
    totalTickets: nat,
    openTickets: nat,
    closedTickets: nat,
    avgResponseTime: int,
    avgResolutionTime: int,
    ticketsByCategory: Tally,
    ticketsByStaff: Tally,
    ratingDistribution: map<int, Counter>)

  /** `calculateStats`: counts over all tickets, averages and the rating
      distribution over the closed ones, tallies over all. */
  method CalculateStats(all: seq<Ticket>, now: int) returns (s: StatsData)
    ensures s.totalTickets == |all|
    ensures s.openTickets == |OpenTickets(all)| && s.closedTickets == |ClosedTickets(all)|
    ensures s.openTickets + s.closedTickets <= s.totalTickets
    ensures var closed := ClosedTickets(all);
      && s.avgResponseTime == MeanFloor(SampleSum(closed, ResponseDelay), SampleCount(closed, ResponseDelay), MinuteMillis)
      && s.avgResolutionTime == MeanFloor(SampleSum(closed, ResolutionAt(now)),
                                          SampleCount(closed, ResolutionAt(now)), HourMillis)
      && s.ratingDistribution == Distribution(closed)
    ensures s.ticketsByCategory == CategoryTally(all) && s.ticketsByStaff == StaffTally(all)
  {
    var closed := ClosedTickets(all);
    OpenPlusClosedAtMostTotal(all);
    var resp := AvgResponseTime(closed);
    var resol := AvgResolutionTime(closed, now);
    var byCategory := TicketsByCategory(all);
    var byStaff := TicketsByStaff(all);
    var dist := RatingDistribution(closed);
    s := StatsData(|all|, |OpenTickets(all)|, |closed|, resp, resol, byCategory, byStaff, dist);
  }

  /** `getTopStaff` */
  function TopStaff(all: seq<Ticket>): (r: Option<(string, int)>)
    ensures r.None? <==> ClaimedCount(all) == 0
    ensures r.Some? ==> r.value.1 == ClaimedBy(all, r.value.0) && ClaimedBy(all, r.value.0) > 0
  {
    StaffTallyCounts(all, "");
    var t := StaffTally(all);
    StaffTallyPositive(all);
    PositiveSum(t);
    var r := TallyLeader(t);
    if r.Some? then
      var i :| 0 <= i < |t| && t[i] == r.value;
      TallyEntryCount(t, i);
      StaffTallyCounts(all, r.value.0);
      PositiveCounts(all, i);
      r
    else
      r
  }

  /** `getBusiestCategory` */
  function BusiestCategory(all: seq<Ticket>): (r: Option<(string, int)>)
    ensures r.None? <==> all == []
    ensures r.Some? ==> r.value.1 == InCategory(all, r.value.0)
    ensures r.Some? ==> forall c :: InCategory(all, c) <= r.value.1
  {
    BusiestCategoryLeads(all);
    TallyLeader(CategoryTally(all))
  }

  lemma BusiestCategoryLeads(all: seq<Ticket>)
    ensures TallyLeader(CategoryTally(all)).None? <==> all == []
    ensures TallyLeader(CategoryTally(all)).Some? ==>
      var w := TallyLeader(CategoryTally(all)).value;
      w.1 == InCategory(all, w.0) && forall c :: InCategory(all, c) <= w.1
  {
    CategoryTallyCounts(all, "");
    var t := CategoryTally(all);
    var r := TallyLeader(t);
    if r.Some? {
      var i :| 0 <= i < |t| && t[i] == r.value;
      TallyEntryCount(t, i);
      CategoryTallyCounts(all, r.value.0);
      forall c
        ensures InCategory(all, c) <= r.value.1
      {
        CategoryTallyCounts(all, c);
        CountOfBelowMax(t, c, r.value.1);
      }
    } else {
      assert TallySum(t) == 0;
    }
  }

  /** In a tally with distinct keys the count under an entry's key is that
      entry's count. */
  lemma {:induction false} TallyEntryCount(t: Tally, i: nat)
    requires DistinctKeys(t) && i < |t|
    ensures CountOf(t, t[i].0) == t[i].1
  {
    if i > 0 {
      assert t[0].0 != t[i].0;
      assert DistinctKeys(t[1..]) by {
        forall a, b | 0 <= a < b < |t[1..]| ensures t[1..][a].0 != t[1..][b].0 {
          assert t[1..][a] == t[a + 1] && t[1..][b] == t[b + 1];
        }
      }
      TallyEntryCount(t[1..], i - 1);
    }
  }

  /** A count under any key is at most a bound on every entry, or zero. */
  lemma {:induction false} CountOfBelowMax(t: Tally, k: string, bound: int)
    requires forall j :: 0 <= j < |t| ==> t[j].1 <= bound
    requires bound >= 0
    ensures CountOf(t, k) <= bound
  {
    if t != [] && t[0].0 != k {
      CountOfBelowMax(t[1..], k, bound);
    }
  }

  /** Every entry of the staff tally has a positive count. */
  lemma {:induction false} PositiveCounts(all: seq<Ticket>, i: nat)
    requires i < |StaffTally(all)|
    ensures StaffTally(all)[i].1 > 0
  {
    StaffTallyPositive(all);
  }

  lemma {:induction false} StaffTallyPositive(all: seq<Ticket>)
    ensures forall j :: 0 <= j < |StaffTally(all)| ==> StaffTally(all)[j].1 > 0
  {
    if all != [] {
      StaffTallyPositive(all[..|all| - 1]);
      var t := all[|all| - 1];
      if Truthy(t.claimedByUsername) {
        BumpPositive(StaffTally(all[..|all| - 1]), t.claimedByUsername.value);
      }
    }
  }

  lemma {:induction false} PositiveSum(t: Tally)
    requires forall j :: 0 <= j < |t| ==> t[j].1 > 0
    ensures t != [] ==> TallySum(t) > 0
    ensures TallySum(t) >= 0
  {
    if t != [] {
      PositiveSum(t[1..]);
    }
  }

  lemma {:induction false} BumpPositive(t: Tally, k: string)
    requires forall j :: 0 <= j < |t| ==> t[j].1 > 0
    ensures forall j :: 0 <= j < |Bump(t, k)| ==> Bump(t, k)[j].1 > 0
  {
    if t != [] && t[0].0 != k {
      BumpPositive(t[1..], k);
      assert Bump(t, k) == [t[0]] + Bump(t[1..], k);
    }
  }
}
