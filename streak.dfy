/** The activity streak: the number of consecutive calendar days, ending at
    the most recent active day, on which at least one action was completed,
    or 0 when the most recent active day is more than one day before today. */
module StreakCalculator {
  import opened Common

  // ---------------------------------------------------------------------------
  // Sorting (`dates.sort((a, b) => b - a)`)

  /** Latest first; equal days may repeat. */
  predicate SortedDescending(s: seq<Day>) {
    forall i, j :: 0 <= i < j < |s| ==> s[i] >= s[j]
  }

  /** Putting a day no earlier than every element in front keeps the order. */
  lemma SortedCons(head: Day, tail: seq<Day>)
    requires SortedDescending(tail)
    requires forall j :: 0 <= j < |tail| ==> tail[j] <= head
    ensures SortedDescending([head] + tail)
  {
    forall i, j | 0 <= i < j < |tail| + 1 ensures ([head] + tail)[i] >= ([head] + tail)[j] {
      if i > 0 {
        assert ([head] + tail)[i] == tail[i - 1];
      }
      assert ([head] + tail)[j] == tail[j - 1];
    }
  }

  /** What `Insert` puts after the head of a list is no later than the head. */
  lemma InsertedBelowHead(x: Day, s: seq<Day>, rest: seq<Day>)
    requires s != [] && SortedDescending(s) && x < s[0]
    requires multiset(rest) == multiset(s[1..]) + multiset{x}
    ensures forall j :: 0 <= j < |rest| ==> rest[j] <= s[0]
  {
    forall j | 0 <= j < |rest| ensures rest[j] <= s[0] {
      assert rest[j] in multiset(rest);
      if rest[j] != x {
        assert rest[j] in multiset(s[1..]);
        var k :| 0 <= k < |s[1..]| && s[1..][k] == rest[j];
        assert s[1..][k] == s[k + 1];
      }
    }
  }

  /** Places `x` into a list sorted latest first. */
  function Insert(x: Day, s: seq<Day>): (r: seq<Day>)
    requires SortedDescending(s)
    ensures SortedDescending(r)
    ensures multiset(r) == multiset(s) + multiset{x}
  {
    if s == [] then [x]
    else if x >= s[0] then SortedCons(x, s); [x] + s
    else
      var rest := Insert(x, s[1..]);
      InsertedBelowHead(x, s, rest);
      SortedCons(s[0], rest);
      assert s == [s[0]] + s[1..];
      [s[0]] + rest
  }

  /** A copy of `s` sorted latest first. Sorted integers are unique, so this
      stands for any sorting algorithm with the same comparator. */
  function SortDescending(s: seq<Day>): (r: seq<Day>)
    ensures SortedDescending(r)
    ensures multiset(r) == multiset(s)
  {
    if s == [] then []
    else
      assert s == [s[0]] + s[1..];
      Insert(s[0], SortDescending(s[1..]))
  }

  // ---------------------------------------------------------------------------
  // The streak, stated on the set of active days

  /** The days on which some action was completed. */
  function ActiveDays(dates: seq<Day>): (active: set<Day>)
    ensures forall d :: d in active <==> d in dates
  {
    set d | d in dates
  }

  /** The most recent active day. */
  function Latest(dates: seq<Day>): (m: Day)
    requires |dates| > 0
    ensures m in dates
    ensures forall d :: d in dates ==> d <= m
  {
    if |dates| == 1 then dates[0]
    else
      var rest := Latest(dates[1..]);
      assert forall d :: d in dates ==> d == dates[0] || d in dates[1..];
      if dates[0] >= rest then dates[0] else rest
  }

  /** How many consecutive days, counting back from `day`, are active. */
  function RunEndingAt(active: set<Day>, day: Day): (n: nat)
    ensures n <= |active|
    decreases |active|
  {
    if day in active then 1 + RunEndingAt(active - {day}, day - 1) else 0
  }

  /** `RunEndingAt` is the length of the run: the `n` days up to `day` are
      active and the day before them is not. */
  lemma {:induction false} RunEndingAtMeans(active: set<Day>, day: Day)
    ensures forall x :: day - RunEndingAt(active, day) < x <= day ==> x in active
    ensures day - RunEndingAt(active, day) !in active
    decreases |active|
  {
    if day in active {
      var n := RunEndingAt(active - {day}, day - 1);
      assert RunEndingAt(active, day) == 1 + n;
      RunEndingAtMeans(active - {day}, day - 1);
      forall x | day - (1 + n) < x <= day ensures x in active {
        if x < day {
          assert x in active - {day};
        }
      }
    }
  }

  /** Conversely, a run of exactly `n` active days ending at `day` gives `n`. */
  lemma {:induction false} RunEndingAtExact(active: set<Day>, day: Day, n: nat)
    requires forall x :: day - n < x <= day ==> x in active
    requires day - n !in active
    ensures RunEndingAt(active, day) == n
    decreases n
  {
    if n > 0 {
      assert day in active;
      RunEndingAtExact(active - {day}, day - 1, n - 1);
    }
  }

  /** The streak as of `today`: 0 with no active day or when the latest one is
      more than a day old, else the run of consecutive active days ending at
      the latest one. */
  function Streak(dates: seq<Day>, today: Day): (n: nat)
    ensures n <= |ActiveDays(dates)|
    ensures dates == [] ==> n == 0
    ensures dates != [] && today - Latest(dates) > 1 ==> n == 0
    ensures dates != [] && today - Latest(dates) <= 1 ==> n >= 1
  {
    if |dates| == 0 then 0
    else
      var latest := Latest(dates);
      if today - latest > 1 then 0
      else
        assert latest in ActiveDays(dates);
        RunEndingAt(ActiveDays(dates), latest)
  }

  /** A positive streak is made of active days only: the latest day, which is
      no earlier than yesterday (a later day also counts), and the days just
      before it. */
  lemma StreakDaysActive(dates: seq<Day>, today: Day)
    requires Streak(dates, today) > 0
    ensures forall x :: Latest(dates) - Streak(dates, today) < x <= Latest(dates) ==> x in dates
    ensures Latest(dates) - Streak(dates, today) !in dates
    ensures Latest(dates) >= today - 1
  {
    RunEndingAtMeans(ActiveDays(dates), Latest(dates));
  }

  /** Repeated days and the order of the list do not matter. */
  lemma StreakIgnoresOrderAndRepeats(dates: seq<Day>, other: seq<Day>, today: Day)
    requires forall d :: d in dates <==> d in other
    ensures Streak(dates, today) == Streak(other, today)
  {
    assert forall d :: d in ActiveDays(dates) <==> d in ActiveDays(other);
    assert ActiveDays(dates) == ActiveDays(other);
    if dates != [] {
      assert Latest(dates) in other;
      assert Latest(other) in dates;
    }
  }

  // ---------------------------------------------------------------------------
  // The algorithm

  /** Two lists with the same multiset hold the same days. */
  lemma SameDays(s: seq<Day>, t: seq<Day>)
    requires multiset(s) == multiset(t)
    ensures |s| == |t|
    ensures forall d :: d in s <==> d in t
  {
    assert |s| == |multiset(s)|;
    forall d ensures d in s <==> d in t {
      assert d in s <==> d in multiset(s);
      assert d in t <==> d in multiset(t);
    }
  }

  /** A list sorted latest first starts with the latest of the days it holds. */
  lemma SortedStartsWithLatest(s: seq<Day>, dates: seq<Day>)
    requires |s| > 0 && |dates| > 0 && SortedDescending(dates)
    requires forall d :: d in dates <==> d in s
    ensures dates[0] == Latest(s)
  {
    assert dates[0] in dates;
    var j :| 0 <= j < |dates| && dates[j] == Latest(s);
    assert dates[0] >= dates[j];
  }

  /** In a list sorted latest first, a day strictly between two neighbours,
      or earlier than the last element, does not occur. */
  lemma AbsentFromSorted(dates: seq<Day>, i: nat, v: Day)
    requires SortedDescending(dates) && 0 < i <= |dates|
    requires v < dates[i - 1]
    requires i < |dates| ==> dates[i] < v
    ensures v !in dates
  {
    forall j | 0 <= j < |dates| ensures dates[j] != v {
      if j < i {
        assert dates[j] >= dates[i - 1];
      } else {
        assert dates[j] <= dates[i];
      }
    }
  }

  /** The `for` loop of `calculateStreak`, on the sorted copy: count back
      from the latest day, adding one for each step of exactly one day,
      skipping repeated days and stopping at the first larger gap. The count
      is the length of the run of consecutive days ending at the latest one. */
  method CountRun(dates: seq<Day>) returns (streak: nat)
    requires |dates| > 0 && SortedDescending(dates)
    ensures forall x :: dates[0] - streak < x <= dates[0] ==> x in dates
    ensures dates[0] - streak !in dates
  {
    var lastDate := dates[0];
    streak := 1;
    var i := 1;
    while i < |dates|
      invariant 1 <= i <= |dates|
      invariant 1 <= streak <= i
      invariant dates[i - 1] == lastDate - streak + 1
      invariant forall x :: lastDate - streak < x <= lastDate ==> x in dates
    {
      var diff := dates[i - 1] - dates[i];
      if diff == 1 {
        streak := streak + 1;
      } else if diff > 1 {
        AbsentFromSorted(dates, i, lastDate - streak);
        break;
      }
      i := i + 1;
    }
    if i == |dates| {
      AbsentFromSorted(dates, i, lastDate - streak);
    }
  }

  /** `calculateStreak`: sort a copy latest first, give up when the latest day
      is more than one day before today, else count the run of consecutive
      days ending at the latest one. The list passed in is not reordered. */
  method CalculateStreak(streakDates: seq<Day>, today: Day) returns (streak: nat)
    ensures streak == Streak(streakDates, today)
  {
    if |streakDates| == 0 {
      return 0;
    }
    var dates := SortDescending(streakDates);
    SameDays(dates, streakDates);
    SortedStartsWithLatest(streakDates, dates);
    var diffDays := today - dates[0];
    if diffDays > 1 {
      return 0;
    }
    streak := CountRun(dates);
    StreakIsRun(streakDates, today, dates[0], streak);
  }

  /** Within a day of `today`, the streak is the run ending at the latest day. */
  lemma StreakUnfolds(dates: seq<Day>, today: Day)
    requires |dates| > 0 && today - Latest(dates) <= 1
    ensures Streak(dates, today) == RunEndingAt(ActiveDays(dates), Latest(dates))
  {
  }

  /** A run of exactly `n` days of the list ending at `day`, with the day
      before it missing, is the run of active days ending at `day`. */
  lemma RunOfDates(dates: seq<Day>, day: Day, n: nat)
    requires forall x :: day - n < x <= day ==> x in dates
    requires day - n !in dates
    ensures RunEndingAt(ActiveDays(dates), day) == n
  {
    var active := ActiveDays(dates);
    forall x | day - n < x <= day ensures x in active {
      assert x in dates;
    }
    RunEndingAtExact(active, day, n);
  }

  /** A run of exactly `n` active days ending at the latest one, not more than
      a day before today, is the streak. */
  lemma StreakIsRun(dates: seq<Day>, today: Day, latest: Day, n: nat)
    requires |dates| > 0 && latest == Latest(dates) && today - latest <= 1
    requires forall x :: latest - n < x <= latest ==> x in dates
    requires latest - n !in dates
    ensures Streak(dates, today) == n
  {
    RunOfDates(dates, latest, n);
    StreakUnfolds(dates, today);
  }

  // ---------------------------------------------------------------------------
  // Edge cases, on the specification

  lemma StreakSingleDay(today: Day)
    ensures Streak([today], today) == 1
    ensures Streak([today - 1], today) == 1
    ensures Streak([today - 2], today) == 0
  {
    RunEndingAtExact(ActiveDays([today]), today, 1);
    RunEndingAtExact(ActiveDays([today - 1]), today - 1, 1);
  }

  lemma StreakThreeDays(today: Day)
    ensures Streak([today, today - 1, today - 2], today) == 3
  {
    var dates := [today, today - 1, today - 2];
    assert Latest(dates) == today;
    RunEndingAtExact(ActiveDays(dates), today, 3);
  }

  lemma StreakStopsAtGap(today: Day)
    ensures Streak([today, today - 2], today) == 1
  {
    var dates := [today, today - 2];
    assert Latest(dates) == today;
    RunEndingAtExact(ActiveDays(dates), today, 1);
  }

  // ---------------------------------------------------------------------------
  // The loop as written, on local-midnight timestamps

  /** `Math.floor((later - earlier) / (1000 * 60 * 60 * 24))` with the
      timestamps counted in hours: whole 24-hour periods between two local
      midnights, not calendar days. Division by a positive number rounds down
      in Dafny, as `Math.floor` does. */
  function WholeDays(later: int, earlier: int): int {
    (later - earlier) / 24
  }

  /** The counting loop as written, on local midnights in hours, sorted latest
      first: one more for each neighbour pair a whole day apart, a pair less
      than a day apart skipped, and a stop at the first larger gap. */
  function CountAsWritten(stamps: seq<int>): (n: nat)
    requires |stamps| > 0
    ensures n <= |stamps|
  {
    if |stamps| == 1 then 1
    else
      var diff := WholeDays(stamps[0], stamps[1]);
      if diff == 1 then 1 + CountAsWritten(stamps[1..])
      else if diff > 1 then 1
      else CountAsWritten(stamps[1..])
  }

  /** `calculateStreak` as written, on local midnights in hours: sort a copy
      latest first, return 0 when the latest is more than one whole day before
      today, else count with the loop. */
  function StreakAsWritten(stamps: seq<int>, todayStamp: int): (n: nat)
    ensures stamps == [] ==> n == 0
    ensures n <= |stamps|
  {
    if stamps == [] then 0
    else
      var sorted := SortDescending(stamps);
      assert |sorted| == |multiset(sorted)| == |multiset(stamps)| == |stamps|;
      if WholeDays(todayStamp, sorted[0]) > 1 then 0
      else CountAsWritten(sorted)
  }

  /** Sorting two values puts the larger first. */
  lemma SortPair(a: int, b: int)
    ensures SortDescending([a, b]) == if a >= b then [a, b] else [b, a]
  {
    assert [a, b][1..] == [b];
    assert SortDescending([b]) == [b];
  }

  /** The list that toggling builds is oldest first; it is sorted before
      counting, so both orders of two midnights a day apart give 2. */
  lemma AsWrittenSortsFirst()
    ensures StreakAsWritten([0, 24], 24) == 2
    ensures StreakAsWritten([24, 0], 24) == 2
  {
    SortPair(0, 24);
    SortPair(24, 0);
    assert CountAsWritten([24, 0][1..]) == 1;
  }

  /** In a time zone that moves its clocks forward, the local midnights of the
      two days around the change are 23 hours apart. The code as written finds
      zero whole days between them and skips the pair as a repeat, so two
      consecutive active days give a streak of 1; on day numbers the streak is 2. */
  lemma SpringForwardUndercount(day: Day, midnight: int)
    ensures StreakAsWritten([midnight + 23, midnight], midnight + 23) == 1
    ensures Streak([day + 1, day], day + 1) == 2
  {
    SortPair(midnight + 23, midnight);
    assert WholeDays(midnight + 23, midnight) == 0;
    assert CountAsWritten([midnight + 23, midnight][1..]) == 1;
    assert Latest([day + 1, day]) == day + 1;
    StreakIsRun([day + 1, day], day + 1, day + 1, 2);
  }
}
