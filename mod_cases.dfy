/** The moderation case registry of the moderator toolkit addon: one case per
    moderation action, numbered by a counter that only grows, stored by its
    case id, and counted per target user. The JSON file the registry is
    saved to and loaded from is the `CasesFile` outcome passed in. */
module ModCases {
  import opened Wrappers
  import opened Strings
  import opened Types

  datatype User = User(id: string, tag: string)

  /** A recorded case. `duration` is `None` for `null`. */
  datatype Case = Case(id: string, caseType: string, moderator: User, target: User,
                       reason: string, duration: Option<int>, timestamp: string)

  const NoReason: string := "No reason provided"

  /** `CASE-` and the counter, left-padded with zeros to six characters. */
  function CaseId(counter: int): (id: string)
    ensures |id| >= 5 && id[..5] == "CASE-"
    ensures counter >= 0 ==> |id| >= 11
  {
    "CASE-" + PadStart(IntToString(counter), 6, '0')
  }

  /** Distinct non-negative counters give distinct case ids. */
  lemma CaseIdInjective(a: nat, b: nat)
    requires CaseId(a) == CaseId(b)
    ensures a == b
  {
    assert CaseId(a)[5..] == PadStart(NatToString(a), 6, '0');
    assert CaseId(b)[5..] == PadStart(NatToString(b), 6, '0');
    PaddedDecimalInjective(a, b, 6);
  }

  /** The case id of a counter up to 999999 is `CASE-` and exactly six
      digits, which read back as the counter. */
  lemma CaseIdDigits(n: nat)
    requires n <= 999999
    ensures |CaseId(n)| == 11
    ensures AllDigits(CaseId(n)[5..]) && DigitsValue(CaseId(n)[5..]) == n
  {
    assert Pow10(6) == 1000000;
    DecimalLength(n, 6);
    assert CaseId(n)[5..] == PadStart(NatToString(n), 6, '0');
    PaddedDecimalValue(n, 6);
  }

  function Pow10(k: nat): nat
  {
    if k == 0 then 1 else 10 * Pow10(k - 1)
  }

  /** A number below `10^k` has at most `k` decimal digits. */
  lemma {:induction false} DecimalLength(n: nat, k: nat)
    requires 1 <= k && n < Pow10(k)
    ensures |NatToString(n)| <= k
  {
    if n >= 10 {
      DecimalLength(n / 10, k - 1);
    }
  }

  /** `reason || "No reason provided"` */
  function ReasonOf(reason: Option<string>): (r: string)
    ensures Truthy(reason) ==> r == reason.value
    ensures !Truthy(reason) ==> r == NoReason
  {
    if Truthy(reason) then reason.value else NoReason
  }

  /** The number of recorded cases of the given type against a user. */
  function CountOf(cases: map<string, Case>, userId: string, caseType: string): nat
  {
    |set k | k in cases && cases[k].target.id == userId && cases[k].caseType == caseType|
  }

  /** Recording a case under a new id raises its target's count of its type
      by one and leaves every other count as it was. */
  lemma CountAfterAdd(cases: map<string, Case>, id: string, c: Case, userId: string, caseType: string)
    requires id !in cases
    ensures CountOf(cases[id := c], userId, caseType)
         == CountOf(cases, userId, caseType) + (if c.target.id == userId && c.caseType == caseType then 1 else 0)
  {
    var before := set k | k in cases && cases[k].target.id == userId && cases[k].caseType == caseType;
    var m := cases[id := c];
    var after := set k | k in m && m[k].target.id == userId && m[k].caseType == caseType;
    assert id !in before;
    if c.target.id == userId && c.caseType == caseType {
      assert after == before + {id};
    } else {
      assert after == before;
    }
    assert CountOf(cases, userId, caseType) == |before|;
    assert CountOf(m, userId, caseType) == |after|;
  }

  /** The userinfo counts: warnings and mutes against the user. */
  function UserCounts(cases: map<string, Case>, userId: string): (r: (nat, nat))
    ensures r.0 == 0 <==> forall k :: k in cases && cases[k].target.id == userId ==> cases[k].caseType != "WARN"
    ensures r.1 == 0 <==> forall k :: k in cases && cases[k].target.id == userId ==> cases[k].caseType != "MUTE"
  {
    EmptyCount(cases, userId, "WARN");
    EmptyCount(cases, userId, "MUTE");
    (CountOf(cases, userId, "WARN"), CountOf(cases, userId, "MUTE"))
  }

  lemma EmptyCount(cases: map<string, Case>, userId: string, caseType: string)
    ensures CountOf(cases, userId, caseType) == 0
        <==> forall k :: k in cases && cases[k].target.id == userId ==> cases[k].caseType != caseType
  {
    var s := set k | k in cases && cases[k].target.id == userId && cases[k].caseType == caseType;
    assert CountOf(cases, userId, caseType) == |s|;
    if exists k :: k in cases && cases[k].target.id == userId && cases[k].caseType == caseType {
      var k :| k in cases && cases[k].target.id == userId && cases[k].caseType == caseType;
      assert k in s;
    } else {
      assert s == {};
    }
  }

  /** The `case` command's lookup: the requested id upper-cased, then the
      stored case under it. */
  function FindCase(cases: map<string, Case>, requested: string): (r: Option<Case>)
    ensures r.Some? <==> AsciiUpper(requested) in cases
    ensures r.Some? ==> r.value == cases[AsciiUpper(requested)]
  {
    var key := AsciiUpper(requested);
    if key in cases then Some(cases[key]) else None
  }

  /** A case id typed in any mix of cases finds the case. */
  lemma FindCaseIgnoresCase(cases: map<string, Case>, n: nat)
    requires CaseId(n) in cases
    ensures FindCase(cases, AsciiLower(CaseId(n))) == Some(cases[CaseId(n)])
    ensures FindCase(cases, CaseId(n)) == Some(cases[CaseId(n)])
  {
    CaseIdNoLower(n);
    UpperOfLower(CaseId(n));
  }

  /** A case id holds no lower-case letter: `CASE-` and then digits. */
  lemma CaseIdNoLower(n: nat)
    ensures NoLower(CaseId(n))
  {
    var digits := PadStart(NatToString(n), 6, '0');
    PaddedDecimalValue(n, 6);
    PrefixNoLower();
    NoLowerAppend("CASE-", digits);
  }

  predicate NoLower(s: string)
  {
    forall i :: 0 <= i < |s| ==> !('a' <= s[i] <= 'z')
  }

  lemma PrefixNoLower()
    ensures NoLower("CASE-")
  {
    var p := "CASE-";
    forall i | 0 <= i < |p|
      ensures !('a' <= p[i] <= 'z')
    {
      if i == 0 {
        assert p[0] == 'C';
      } else if i == 1 {
        assert p[1] == 'A';
      } else if i == 2 {
        assert p[2] == 'S';
      } else if i == 3 {
        assert p[3] == 'E';
      } else {
        assert p[4] == '-';
      }
    }
  }

  lemma NoLowerAppend(a: string, digits: string)
    requires NoLower(a) && AllDigits(digits)
    ensures NoLower(a + digits)
  {
    forall i | 0 <= i < |a + digits|
      ensures !('a' <= (a + digits)[i] <= 'z')
    {
      if i >= |a| {
        assert (a + digits)[i] == digits[i - |a|];
      }
    }
  }

  /** What reading `mod_cases.json` gives: no file, an error (caught and
      logged), or the stored entries and counter. */
  datatype CasesFile = NoFile | Unreadable | Stored(entries: seq<(string, Case)>, counter: Option<int>)

  /** `new Map(entries)`: later entries under the same id win. */
  function MapOf(entries: seq<(string, Case)>): (m: map<string, Case>)
    ensures forall i :: 0 <= i < |entries| ==> entries[i].0 in m
    ensures forall k :: k in m ==> exists i :: 0 <= i < |entries| && entries[i].0 == k
  {
    if entries == [] then map[]
    else
      var last := entries[|entries| - 1];
      var m := MapOf(entries[..|entries| - 1])[last.0 := last.1];
      assert forall i :: 0 <= i < |entries| - 1 ==> entries[..|entries| - 1][i] == entries[i];
      m
  }

  /** The value stored for an id is the one of its last entry. */
  lemma {:induction false} MapOfLastWins(entries: seq<(string, Case)>, i: nat)
    requires i < |entries|
    requires forall j :: i < j < |entries| ==> entries[j].0 != entries[i].0
    ensures MapOf(entries)[entries[i].0] == entries[i].1
  {
    if i < |entries| - 1 {
      var init := entries[..|entries| - 1];
      assert init[i] == entries[i];
      forall j | i < j < |init|
        ensures init[j].0 != init[i].0
      {
        assert init[j] == entries[j];
      }
      MapOfLastWins(init, i);
    }
  }

  /** `data.counter || 1` */
  function StoredCounter(counter: Option<int>): (r: int)
    ensures counter.Some? && counter.value != 0 ==> r == counter.value
    ensures counter.None? || counter == Some(0) ==> r == 1
  {
    if counter.Some? && counter.value != 0 then counter.value else 1
  }

  /** Every case id numbered from zero up is below the counter if recorded. */
  ghost predicate IdsBelow(cases: map<string, Case>, counter: int)
  {
    forall n: nat :: CaseId(n) in cases ==> n < counter
  }

  /** The counter's id is free, and recording a case under it keeps the ids
      below the advanced counter. */
  lemma IssueKeepsIdsBelow(cases: map<string, Case>, counter: nat, c: Case)
    requires IdsBelow(cases, counter)
    ensures CaseId(counter) !in cases
    ensures IdsBelow(cases[CaseId(counter) := c], counter + 1)
  {
    forall n: nat | CaseId(n) in cases[CaseId(counter) := c]
      ensures n < counter + 1
    {
      if CaseId(n) == CaseId(counter) {
        CaseIdInjective(n, counter);
      }
    }
  }

  class Registry {
    var cases: map<string, Case>
    var counter: int

    /** Every case id numbered by the counter was issued before it: the next
        id is free. */
    ghost predicate Valid()
      reads this
    {
      counter >= 1 && IdsBelow(cases, counter)
    }

    /** The addon's initial state: no cases, the counter at 1. */
    constructor ()
      ensures cases == map[] && counter == 1
      ensures Valid()
    {
      cases := map[];
      counter := 1;
    }

    /** `loadCases`: replaces the registry by the stored one; without a file
        or on an error nothing changes. */
    method LoadCases(file: CasesFile)
      modifies this
      ensures file.Stored? ==> cases == MapOf(file.entries) && counter == StoredCounter(file.counter)
      ensures !file.Stored? ==> cases == old(cases) && counter == old(counter)
    {
      if file.Stored? {
        cases := MapOf(file.entries);
        counter := StoredCounter(file.counter);
      }
    }

    /** `createCase`: records the case under the counter's id and advances
        the counter by one; on a valid registry the id was free, so no
        earlier case is replaced. */
    method CreateCase(caseType: string, moderator: User, target: User, reason: Option<string>,
                      duration: Option<int>, timestamp: string) returns (c: Case)
      modifies this
      ensures c == Case(CaseId(old(counter)), caseType, moderator, target, ReasonOf(reason), duration, timestamp)
      ensures cases == old(cases)[c.id := c]
      ensures counter == old(counter) + 1
      ensures old(Valid()) ==> c.id !in old(cases) && |cases| == |old(cases)| + 1 && Valid()
    {
      c := Case(CaseId(counter), caseType, moderator, target, ReasonOf(reason), duration, timestamp);
      if Valid() {
        IssueKeepsIdsBelow(cases, counter, c);
      }
      cases := cases[c.id := c];
      counter := counter + 1;
    }
  }

  /** Two cases created one after the other get consecutive counters and
      distinct ids, both stay recorded, and the second counts against its
      target. */
  method TwoCases(moderator: User, first: User, second: User, reason: Option<string>, timestamp: string)
    returns (a: Case, b: Case, registry: Registry)
    ensures a.id == CaseId(1) && b.id == CaseId(2) && a.id != b.id
    ensures registry.cases == map[a.id := a, b.id := b] && registry.counter == 3
    ensures a.reason == b.reason == ReasonOf(reason)
    ensures UserCounts(registry.cases, second.id).0 >= 1
  {
    registry := new Registry();
    a := registry.CreateCase("WARN", moderator, first, reason, None, timestamp);
    b := registry.CreateCase("WARN", moderator, second, reason, None, timestamp);
    CountAfterAdd(map[a.id := a], b.id, b, second.id, "WARN");
  }
}
