/**
 * The logic of the timetable screen: the period number read from a time
 * slot, the event-type label, today's schedule ordered by period and the
 * weekly schedule grouped by day.
 */
module TimetablePage {
  import opened Wrappers
  import opened Text
  import opened Timetable

  // ---------------------------------------------------------------------
  // Period number: the first match of /\(P(\d+)\)/

  /** The length of the run of digits that starts at index `j`. */
  function DigitRun(s: string, j: nat): (n: nat)
    requires j <= |s|
    ensures j + n <= |s| && AllDigits(s[j..j + n])
    ensures j + n == |s| || !IsDigit(s[j + n])
    decreases |s| - j
  {
    if j < |s| && IsDigit(s[j]) then
      var n := 1 + DigitRun(s, j + 1);
      assert s[j..j + n] == [s[j]] + s[j + 1..j + n];
      n
    else 0
  }

  /** `(P`, one or more digits and `)` start at index `i`. */
  predicate PeriodAt(s: string, i: nat) {
    i + 2 <= |s| && s[i] == '(' && s[i + 1] == 'P'
    && DigitRun(s, i + 2) >= 1
    && i + 2 + DigitRun(s, i + 2) < |s| && s[i + 2 + DigitRun(s, i + 2)] == ')'
  }

  /** The number written between `(P` and `)` at a match. */
  function PeriodValue(s: string, i: nat): nat
    requires PeriodAt(s, i)
  {
    DecimalValue(s[i + 2..i + 2 + DigitRun(s, i + 2)])
  }

  /** The value of the leftmost match at or after `i`, or 0. */
  function PeriodFrom(s: string, i: nat): nat
    requires i <= |s|
    decreases |s| - i
  {
    if i == |s| then 0
    else if PeriodAt(s, i) then PeriodValue(s, i)
    else PeriodFrom(s, i + 1)
  }

  /** `extractPeriodNumber(timeSlot)` */
  function ExtractPeriodNumber(timeSlot: string): nat {
    PeriodFrom(timeSlot, 0)
  }

  /** The leftmost match gives the period number. */
  lemma {:induction false} FirstMatchIsPeriod(s: string, i: nat)
    requires PeriodAt(s, i)
    requires forall j :: 0 <= j < i ==> !PeriodAt(s, j)
    ensures ExtractPeriodNumber(s) == PeriodValue(s, i)
  {
    PeriodFromReaches(s, 0, i);
  }

  lemma {:induction false} PeriodFromReaches(s: string, k: nat, i: nat)
    requires k <= i && PeriodAt(s, i)
    requires forall j :: k <= j < i ==> !PeriodAt(s, j)
    ensures PeriodFrom(s, k) == PeriodValue(s, i)
    decreases i - k
  {
    if k < i {
      PeriodFromReaches(s, k + 1, i);
    }
  }

  /** A time slot without any match has period number 0. */
  lemma {:induction false} NoMatchIsZero(s: string)
    requires forall j :: 0 <= j < |s| ==> !PeriodAt(s, j)
    ensures ExtractPeriodNumber(s) == 0
  {
    NoMatchFrom(s, 0);
  }

  lemma {:induction false} NoMatchFrom(s: string, k: nat)
    requires k <= |s|
    requires forall j :: k <= j < |s| ==> !PeriodAt(s, j)
    ensures PeriodFrom(s, k) == 0
    decreases |s| - k
  {
    if k < |s| {
      NoMatchFrom(s, k + 1);
    }
  }

  lemma {:induction false} DigitRunOf(s: string, j: nat, k: nat)
    requires j + k < |s| && AllDigits(s[j..j + k]) && !IsDigit(s[j + k])
    ensures DigitRun(s, j) == k
    decreases k
  {
    if k > 0 {
      assert IsDigit(s[j..j + k][0]);
      assert s[j + 1..j + k] == s[j..j + k][1..];
      DigitRunOf(s, j + 1, k - 1);
    }
  }

  /** `(P`, the digits `d` and `)` written at index `i` form a match whose value is that of `d`. */
  lemma PeriodAtSlot(s: string, i: nat, d: string)
    requires |d| >= 1 && AllDigits(d)
    requires i + 3 + |d| <= |s| && s[i] == '(' && s[i + 1] == 'P'
    requires s[i + 2..i + 2 + |d|] == d && s[i + 2 + |d|] == ')'
    ensures PeriodAt(s, i) && PeriodValue(s, i) == DecimalValue(d)
  {
    DigitRunOf(s, i + 2, |d|);
  }

  /** No match starts inside a prefix without `(`. */
  lemma NoMatchInPrefix(s: string, before: string)
    requires StartsWith(s, before) && '(' !in before
    ensures forall j :: 0 <= j < |before| ==> !PeriodAt(s, j)
  {
    forall j | 0 <= j < |before|
      ensures !PeriodAt(s, j)
    {
      assert s[j] == s[..|before|][j] == before[j];
    }
  }

  /**
   * A period written as `(P<n>)` after text without `(` reads back as `n`,
   * whatever follows it.
   */
  lemma PeriodRoundTrip(before: string, n: nat, after: string)
    requires '(' !in before
    ensures ExtractPeriodNumber(before + "(P" + NatToDecimal(n) + ")" + after) == n
  {
    var d := NatToDecimal(n);
    var open := before + "(P";
    var digits := open + d;
    var closed := digits + ")";
    var s := closed + after;
    var i := |before|;
    assert s[i] == open[i] == '(' && s[i + 1] == open[i + 1] == 'P';
    assert s[i + 2..i + 2 + |d|] == digits[i + 2..i + 2 + |d|] == d;
    assert s[i + 2 + |d|] == closed[i + 2 + |d|] == ')';
    PeriodAtSlot(s, i, d);
    assert s[..i] == before;
    NoMatchInPrefix(s, before);
    FirstMatchIsPeriod(s, i);
    DecimalRoundTrip(n);
  }

  // ---------------------------------------------------------------------
  // Event type

  const Practical := "Practical"
  const NonCredit := "Non-Credit"
  const Lecture := "Lecture"

  /** `getEventType(subjectCode)`: `55` is tested before `BNC`. */
  function EventType(subjectCode: string): (t: string)
    ensures t in {Practical, NonCredit, Lecture}
  {
    if Contains(subjectCode, "55") then Practical
    else if Contains(subjectCode, "BNC") then NonCredit
    else Lecture
  }

  /** The label in terms of where the marker codes occur in the subject code. */
  lemma EventTypeByOccurrence(code: string)
    ensures EventType(code) == Practical <==> exists i :: OccursAt(code, "55", i)
    ensures EventType(code) == NonCredit <==>
      (!exists i :: OccursAt(code, "55", i)) && exists i :: OccursAt(code, "BNC", i)
    ensures EventType(code) == Lecture <==>
      (!exists i :: OccursAt(code, "55", i)) && !exists i :: OccursAt(code, "BNC", i)
  {
    ContainsIsOccurrence(code, "55");
    ContainsIsOccurrence(code, "BNC");
  }

  // ---------------------------------------------------------------------
  // Ordering by period: a stable sort on a copy of the list

  predicate SortedBy<T>(s: seq<T>, key: T -> nat) {
    forall i, j :: 0 <= i < j < |s| ==> key(s[i]) <= key(s[j])
  }

  /** The elements of `s` whose key is `k`, in order. */
  function WithKey<T>(s: seq<T>, key: T -> nat, k: nat): seq<T> {
    if s == [] then []
    else WithKey(s[..|s| - 1], key, k) + (if key(s[|s| - 1]) == k then [s[|s| - 1]] else [])
  }

  /** `e` placed after the elements of `s` whose key is not larger. */
  function InsertBy<T>(e: T, s: seq<T>, key: T -> nat): (r: seq<T>)
    ensures |r| == |s| + 1
  {
    if s == [] then [e]
    else if key(e) < key(s[0]) then [e] + s
    else [s[0]] + InsertBy(e, s[1..], key)
  }

  /**
   * A stable sort by `key`: each element is inserted after all earlier ones
   * with a key that is not larger.
   */
  function SortBy<T>(s: seq<T>, key: T -> nat): (r: seq<T>)
    ensures |r| == |s|
  {
    if s == [] then [] else InsertBy(s[|s| - 1], SortBy(s[..|s| - 1], key), key)
  }

  lemma {:induction false} InsertPermutes<T>(e: T, s: seq<T>, key: T -> nat)
    ensures multiset(InsertBy(e, s, key)) == multiset(s) + multiset{e}
    decreases |s|
  {
    if s != [] && key(e) >= key(s[0]) {
      InsertPermutes(e, s[1..], key);
      assert s == [s[0]] + s[1..];
    }
  }

  lemma InsertMembers<T>(e: T, s: seq<T>, key: T -> nat, x: T)
    ensures x in InsertBy(e, s, key) <==> x == e || x in s
  {
    InsertPermutes(e, s, key);
    assert x in InsertBy(e, s, key) <==> x in multiset(InsertBy(e, s, key));
    assert x in s <==> x in multiset(s);
  }

  lemma {:induction false} InsertSorted<T>(e: T, s: seq<T>, key: T -> nat)
    requires SortedBy(s, key)
    ensures SortedBy(InsertBy(e, s, key), key)
    decreases |s|
  {
    if s != [] && key(e) >= key(s[0]) {
      var t := s[1..];
      InsertSorted(e, t, key);
      var r := InsertBy(e, t, key);
      forall x | x in r
        ensures key(s[0]) <= key(x)
      {
        InsertMembers(e, t, key, x);
      }
      assert InsertBy(e, s, key) == [s[0]] + r;
      assert forall j :: 0 <= j < |r| ==> key(s[0]) <= key(r[j]);
    }
  }

  lemma {:induction false} SortPermutes<T>(s: seq<T>, key: T -> nat)
    ensures multiset(SortBy(s, key)) == multiset(s)
  {
    if s != [] {
      var init := s[..|s| - 1];
      SortPermutes(init, key);
      InsertPermutes(s[|s| - 1], SortBy(init, key), key);
      assert s == init + [s[|s| - 1]];
    }
  }

  lemma {:induction false} SortSorted<T>(s: seq<T>, key: T -> nat)
    ensures SortedBy(SortBy(s, key), key)
  {
    if s != [] {
      SortSorted(s[..|s| - 1], key);
      InsertSorted(s[|s| - 1], SortBy(s[..|s| - 1], key), key);
    }
  }

  lemma {:induction false} WithKeyCons<T>(e: T, s: seq<T>, key: T -> nat, k: nat)
    ensures WithKey([e] + s, key, k) == (if key(e) == k then [e] else []) + WithKey(s, key, k)
    decreases |s|
  {
    if s != [] {
      var t := [e] + s;
      assert t[..|t| - 1] == [e] + s[..|s| - 1];
      WithKeyCons(e, s[..|s| - 1], key, k);
    } else {
      assert WithKey([e], key, k) == WithKey([], key, k) + (if key(e) == k then [e] else []);
    }
  }

  lemma {:induction false} WithKeyNone<T>(s: seq<T>, key: T -> nat, k: nat)
    requires forall i :: 0 <= i < |s| ==> key(s[i]) != k
    ensures WithKey(s, key, k) == []
  {
    if s != [] {
      WithKeyNone(s[..|s| - 1], key, k);
    }
  }

  /** Placing `e` in front of a sorted list of larger keys keeps every key's order. */
  lemma InsertFrontStable<T>(e: T, s: seq<T>, key: T -> nat, k: nat)
    requires SortedBy(s, key) && s != [] && key(e) < key(s[0])
    ensures WithKey([e] + s, key, k) == WithKey(s, key, k) + (if key(e) == k then [e] else [])
  {
    WithKeyCons(e, s, key, k);
    if key(e) == k {
      WithKeyNone(s, key, k);
    }
  }

  lemma InsertBehindStable<T>(x: T, t: seq<T>, r: seq<T>, e: T, key: T -> nat, k: nat)
    requires WithKey(r, key, k) == WithKey(t, key, k) + (if key(e) == k then [e] else [])
    ensures WithKey([x] + r, key, k) == WithKey([x] + t, key, k) + (if key(e) == k then [e] else [])
  {
    var c: seq<T> := if key(x) == k then [x] else [];
    var d: seq<T> := if key(e) == k then [e] else [];
    WithKeyCons(x, r, key, k);
    WithKeyCons(x, t, key, k);
    calc {
      WithKey([x] + r, key, k);
      c + WithKey(r, key, k);
      c + (WithKey(t, key, k) + d);
      { assert c + (WithKey(t, key, k) + d) == (c + WithKey(t, key, k)) + d; }
      (c + WithKey(t, key, k)) + d;
      WithKey([x] + t, key, k) + d;
    }
  }

  lemma {:induction false} InsertStable<T>(e: T, s: seq<T>, key: T -> nat, k: nat)
    requires SortedBy(s, key)
    ensures WithKey(InsertBy(e, s, key), key, k) == WithKey(s, key, k) + (if key(e) == k then [e] else [])
    decreases |s|
  {
    if s == [] {
      assert WithKey([e], key, k) == WithKey([], key, k) + (if key(e) == k then [e] else []);
    } else if key(e) < key(s[0]) {
      InsertFrontStable(e, s, key, k);
    } else {
      var t := s[1..];
      InsertStable(e, t, key, k);
      InsertBehindStable(s[0], t, InsertBy(e, t, key), e, key, k);
      assert s == [s[0]] + t;
    }
  }

  lemma {:induction false} SortStable<T>(s: seq<T>, key: T -> nat, k: nat)
    ensures WithKey(SortBy(s, key), key, k) == WithKey(s, key, k)
  {
    if s != [] {
      SortStable(s[..|s| - 1], key, k);
      SortSorted(s[..|s| - 1], key);
      InsertStable(s[|s| - 1], SortBy(s[..|s| - 1], key), key, k);
    }
  }

  /** The comparator's key: `extractPeriodNumber(event.timeSlot)`. */
  function Period(e: TimeTableEvent): nat {
    ExtractPeriodNumber(e.timeSlot)
  }

  /**
   * `[...list].sort((a, b) => period(a) - period(b))`: the comparator
   * orders by period, and `Array.prototype.sort` is stable.
   */
  function SortByPeriod(s: seq<TimeTableEvent>): (r: seq<TimeTableEvent>)
    ensures multiset(r) == multiset(s)
    ensures SortedBy(r, Period)
  {
    SortPermutes(s, Period);
    SortSorted(s, Period);
    SortBy(s, Period)
  }

  /** Events with the same period keep their relative order. */
  lemma SortByPeriodStable(s: seq<TimeTableEvent>, p: nat)
    ensures WithKey(SortByPeriod(s), Period, p) == WithKey(s, Period, p)
  {
    SortStable(s, Period, p);
  }

  /** `sortedTodaySchedule`: the fetched schedule ordered by period, `[]` before any data. */
  function SortedTodaySchedule(todaySchedule: Option<seq<TimeTableEvent>>): (r: seq<TimeTableEvent>)
    ensures todaySchedule.None? ==> r == []
    ensures todaySchedule.Some? ==> multiset(r) == multiset(todaySchedule.value) && SortedBy(r, Period)
  {
    if todaySchedule.Some? then SortByPeriod(todaySchedule.value) else []
  }

  // ---------------------------------------------------------------------
  // Grouping the weekly schedule by day

  /** The days the events fall on. */
  function DaysOf(events: seq<TimeTableEvent>): set<string> {
    if events == [] then {} else DaysOf(events[..|events| - 1]) + {events[|events| - 1].day}
  }

  /** The events on `day`, in input order. */
  function OnDay(events: seq<TimeTableEvent>, day: string): seq<TimeTableEvent> {
    if events == [] then []
    else
      var last := events[|events| - 1];
      OnDay(events[..|events| - 1], day) + (if last.day == day then [last] else [])
  }

  /** `groupByDay(events)`: each day's events, sorted by period. */
  function GroupedByDay(events: seq<TimeTableEvent>): map<string, seq<TimeTableEvent>> {
    map day | day in DaysOf(events) :: SortByPeriod(OnDay(events, day))
  }

  lemma {:induction false} DaysOfMembers(events: seq<TimeTableEvent>, day: string)
    ensures day in DaysOf(events) <==> exists i :: 0 <= i < |events| && events[i].day == day
  {
    if events != [] {
      var init := events[..|events| - 1];
      DaysOfMembers(init, day);
      if exists i :: 0 <= i < |init| && init[i].day == day {
        var i :| 0 <= i < |init| && init[i].day == day;
        assert events[i] == init[i];
      }
      if exists i :: 0 <= i < |events| && events[i].day == day {
        var i :| 0 <= i < |events| && events[i].day == day;
        if i < |init| {
          assert init[i] == events[i];
        }
      }
    }
  }

  lemma {:induction false} OnDayOnlyThatDay(events: seq<TimeTableEvent>, day: string, x: TimeTableEvent)
    requires x in OnDay(events, day)
    ensures x.day == day && x in events
  {
    var init := events[..|events| - 1];
    if x in OnDay(init, day) {
      OnDayOnlyThatDay(init, day, x);
      assert x in events[..|events| - 1];
    }
  }

  lemma {:induction false} OnDayCount(events: seq<TimeTableEvent>, x: TimeTableEvent)
    ensures multiset(OnDay(events, x.day))[x] == multiset(events)[x]
  {
    if events != [] {
      var init := events[..|events| - 1];
      OnDayCount(init, x);
      assert events == init + [events[|events| - 1]];
    }
  }

  /**
   * Every event is grouped exactly once: under its own day, as often as it
   * occurs in the input, and under no other day.
   */
  lemma GroupedExactlyOnce(events: seq<TimeTableEvent>, x: TimeTableEvent)
    ensures x in events ==>
      (x.day in GroupedByDay(events) && multiset(GroupedByDay(events)[x.day])[x] == multiset(events)[x])
    ensures forall day :: day in GroupedByDay(events) && day != x.day ==> x !in GroupedByDay(events)[day]
  {
    var g := GroupedByDay(events);
    if x in events {
      var i :| 0 <= i < |events| && events[i] == x;
      DaysOfMembers(events, x.day);
      OnDayCount(events, x);
    }
    forall day | day in g && day != x.day
      ensures x !in g[day]
    {
      if x in g[day] {
        assert x in multiset(g[day]);
        OnDayOnlyThatDay(events, day, x);
      }
    }
  }

  /** The days of the grouping are exactly the days of the events. */
  lemma GroupedDays(events: seq<TimeTableEvent>, day: string)
    ensures day in GroupedByDay(events) <==> exists i :: 0 <= i < |events| && events[i].day == day
  {
    DaysOfMembers(events, day);
  }

  /** The grouping of `events[..i]` before sorting: each day's events in input order. */
  predicate GroupedUpTo(grouped: map<string, seq<TimeTableEvent>>, events: seq<TimeTableEvent>, i: nat)
    requires i <= |events|
  {
    grouped.Keys == DaysOf(events[..i])
    && forall day :: day in grouped ==> grouped[day] == OnDay(events[..i], day)
  }

  /** Pushing `events[i]` under its day extends the grouping of `events[..i]` by one event. */
  lemma GroupingStep(grouped: map<string, seq<TimeTableEvent>>, events: seq<TimeTableEvent>, i: nat)
    requires i < |events| && GroupedUpTo(grouped, events, i)
    ensures var event := events[i];
      GroupedUpTo(grouped[event.day := (if event.day in grouped then grouped[event.day] else []) + [event]], events, i + 1)
  {
    var event := events[i];
    var after := grouped[event.day := (if event.day in grouped then grouped[event.day] else []) + [event]];
    assert events[..i + 1][..i] == events[..i];
    forall day | day in after
      ensures after[day] == OnDay(events[..i + 1], day)
    {
      if day == event.day && day !in grouped {
        DaysOfMembers(events[..i], day);
        if OnDay(events[..i], day) != [] {
          var x := OnDay(events[..i], day)[0];
          OnDayOnlyThatDay(events[..i], day, x);
          assert false;
        }
      }
    }
  }

  /** `grouped` is `unsorted` with the lists of the days not `pending` sorted by period. */
  predicate SortedExcept(grouped: map<string, seq<TimeTableEvent>>, unsorted: map<string, seq<TimeTableEvent>>, pending: set<string>) {
    pending <= grouped.Keys && grouped.Keys == unsorted.Keys
    && forall day :: day in grouped ==>
      grouped[day] == if day in pending then unsorted[day] else SortByPeriod(unsorted[day])
  }

  lemma SortingStep(grouped: map<string, seq<TimeTableEvent>>, unsorted: map<string, seq<TimeTableEvent>>, pending: set<string>, day: string)
    requires SortedExcept(grouped, unsorted, pending) && day in pending
    ensures SortedExcept(grouped[day := SortByPeriod(grouped[day])], unsorted, pending - {day})
  {
  }

  /** Sorting every day's list of the complete grouping gives `groupByDay`'s result. */
  lemma SortedAll(grouped: map<string, seq<TimeTableEvent>>, unsorted: map<string, seq<TimeTableEvent>>, events: seq<TimeTableEvent>)
    requires GroupedUpTo(unsorted, events, |events|) && SortedExcept(grouped, unsorted, {})
    ensures grouped == GroupedByDay(events)
  {
    assert events[..|events|] == events;
  }

  /** `groupByDay`: push each event under its day, then sort each day's list by period. */
  method GroupByDay(events: seq<TimeTableEvent>) returns (grouped: map<string, seq<TimeTableEvent>>)
    ensures grouped == GroupedByDay(events)
  {
    grouped := map[];
    var i := 0;
    while i < |events|
      invariant 0 <= i <= |events|
      invariant GroupedUpTo(grouped, events, i)
    {
      var event := events[i];
      GroupingStep(grouped, events, i);
      // `if (!grouped[day]) grouped[day] = []` then `grouped[day].push(event)`
      var list := if event.day in grouped then grouped[event.day] else [];
      grouped := grouped[event.day := list + [event]];
      i := i + 1;
    }
    ghost var unsorted := grouped;
    var pending := grouped.Keys;
    while pending != {}
      invariant SortedExcept(grouped, unsorted, pending)
      decreases |pending|
    {
      var day :| day in pending;
      SortingStep(grouped, unsorted, pending, day);
      grouped := grouped[day := SortByPeriod(grouped[day])];
      pending := pending - {day};
    }
    SortedAll(grouped, unsorted, events);
  }

  /** `weeklyByDay`: the grouping of the fetched weekly schedule, empty before any data. */
  method WeeklyByDay(weeklySchedule: Option<seq<TimeTableEvent>>) returns (byDay: map<string, seq<TimeTableEvent>>)
    ensures weeklySchedule.None? ==> byDay == map[]
    ensures weeklySchedule.Some? ==> byDay == GroupedByDay(weeklySchedule.value)
  {
    if weeklySchedule.Some? {
      byDay := GroupByDay(weeklySchedule.value);
    } else {
      byDay := map[];
    }
  }
}
