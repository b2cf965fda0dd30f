/** The host's split of the schedule into the blocks that start today and the
    blocks that start on a later day. */
module Calendar {
  import opened Clock
  import opened Ranking
  import opened Allocation

  /** The entries whose block starts on `today`, in schedule order. */
  function TodayEntries(s: seq<Entry>, today: int): (r: seq<Entry>)
    ensures multiset(r) <= multiset(s)
    ensures forall i :: 0 <= i < |r| ==> DayOf(r[i].start) == today
  {
    if s == [] then []
    else
      assert s == [s[0]] + s[1..];
      if DayOf(s[0].start) == today then [s[0]] + TodayEntries(s[1..], today)
      else TodayEntries(s[1..], today)
  }

  /** The entries whose block starts after `today`, in schedule order. */
  function UpcomingEntries(s: seq<Entry>, today: int): (r: seq<Entry>)
    ensures multiset(r) <= multiset(s)
    ensures forall i :: 0 <= i < |r| ==> DayOf(r[i].start) > today
  {
    if s == [] then []
    else
      assert s == [s[0]] + s[1..];
      if DayOf(s[0].start) > today then [s[0]] + UpcomingEntries(s[1..], today)
      else UpcomingEntries(s[1..], today)
  }

  /** Today's entries are exactly the schedule's entries that start on `today`,
      and the upcoming ones exactly those that start later. */
  lemma {:induction false} SplitMembers(s: seq<Entry>, today: int, e: Entry)
    ensures e in TodayEntries(s, today) <==> e in s && DayOf(e.start) == today
    ensures e in UpcomingEntries(s, today) <==> e in s && DayOf(e.start) > today
  {
    if s != [] {
      assert s == [s[0]] + s[1..];
      SplitMembers(s[1..], today, e);
    }
  }

  /** No entry is shown both as today's and as upcoming. */
  lemma TodayUpcomingDisjoint(s: seq<Entry>, today: int, e: Entry)
    ensures !(e in TodayEntries(s, today) && e in UpcomingEntries(s, today))
  {
    SplitMembers(s, today, e);
  }

  lemma {:induction false} AllLater(s: seq<Entry>, today: int)
    requires forall i :: 0 <= i < |s| ==> DayOf(s[i].start) > today
    ensures TodayEntries(s, today) == [] && UpcomingEntries(s, today) == s
  {
    if s != [] {
      AllLater(s[1..], today);
    }
  }

  /** A schedule whose starts never decrease and never fall before `today` is
      today's entries followed by the upcoming ones. */
  lemma {:induction false} SplitOrdered(s: seq<Entry>, today: int)
    requires forall i :: 0 <= i < |s| ==> DayOf(s[i].start) >= today
    requires forall i, j :: 0 <= i < j < |s| ==> s[i].start <= s[j].start
    ensures TodayEntries(s, today) + UpcomingEntries(s, today) == s
  {
    if s != [] {
      if DayOf(s[0].start) == today {
        SplitOrdered(s[1..], today);
        assert s == [s[0]] + s[1..];
      } else {
        forall i | 0 <= i < |s[1..]|
          ensures DayOf(s[1..][i].start) > today
        {
          DayOfMonotone(s[0].start, s[1..][i].start);
        }
        AllLater(s[1..], today);
      }
    }
  }

  /** Every block of a schedule allocated from 09:00 of `today` is shown exactly
      once: the blocks of today come first and all the others are upcoming. */
  lemma SplitCoversSchedule(rows: seq<Row>, today: int, now: int, s: seq<Entry>)
    requires IsGreedySchedule(rows, Combine(today, DayStartTime), now, s)
    ensures TodayEntries(s, today) + UpcomingEntries(s, today) == s
  {
    SlotBounds(s, Combine(today, DayStartTime));
    SlotsSeparated(s, Combine(today, DayStartTime));
    forall i | 0 <= i < |s|
      ensures DayOf(s[i].start) >= today
    {
      DayOfMonotone(Combine(today, DayStartTime), s[i].start);
    }
    SplitOrdered(s, today);
  }
}
