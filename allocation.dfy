/** The greedy time allocation: the ranked rows are walked once with a single
    cursor that starts at 09:00 of the current day; every row that is not
    Completed gets the block that starts at the later of the cursor and its own
    free start, and the cursor moves to the end of that block plus a break. */
module Allocation {
  import opened Clock
  import opened Tasks
  import opened Heuristic
  import opened Ranking

  /** The break between two consecutive blocks. */
  const BreakLength: int := 15 * Minute
  /** The time of day at which the cursor starts. */
  const DayStartTime: int := 9 * Hour

  /** A schedule entry: the row, its block and its time-left label. */
  datatype Entry = Entry(row: Row, start: int, end: int, remaining: Label)

  /** The later of two timestamps. */
  function Max(a: int, b: int): (m: int)
    ensures m >= a && m >= b
    ensures m == a || m == b
  {
    if a >= b then a else b
  }

  /** The rows that are not Completed, in their order. */
  function PendingRows(rows: seq<Row>): (p: seq<Row>)
    ensures |p| <= |rows|
    ensures forall i :: 0 <= i < |p| ==> p[i].task.status == Pending
  {
    if rows == [] then []
    else if rows[0].task.status == Completed then PendingRows(rows[1..])
    else
      assert rows[0].task.status.Pending?;
      [rows[0]] + PendingRows(rows[1..])
  }

  lemma {:induction false} PendingRowsAppend(a: seq<Row>, b: seq<Row>)
    ensures PendingRows(a + b) == PendingRows(a) + PendingRows(b)
  {
    if a == [] {
      assert a + b == b;
    } else {
      assert (a + b)[0] == a[0] && (a + b)[1..] == a[1..] + b;
      PendingRowsAppend(a[1..], b);
    }
  }

  /** Filtering keeps every Pending row exactly as often as it occurs and drops every Completed one. */
  lemma {:induction false} PendingRowsCount(rows: seq<Row>)
    ensures forall r :: multiset(PendingRows(rows))[r] ==
                        if r.task.status == Pending then multiset(rows)[r] else 0
  {
    if rows != [] {
      assert rows == [rows[0]] + rows[1..];
      PendingRowsCount(rows[1..]);
    }
  }

  /** Rows that are the same up to order keep, once filtered, the same up to order. */
  lemma PendingRowsOfPermutation(a: seq<Row>, b: seq<Row>)
    requires multiset(a) == multiset(b)
    ensures multiset(PendingRows(a)) == multiset(PendingRows(b))
  {
    PendingRowsCount(a);
    PendingRowsCount(b);
    assert forall r :: multiset(PendingRows(a))[r] == multiset(PendingRows(b))[r];
  }

  /** Filtering keeps the order of the priorities. */
  lemma {:induction false} PendingRowsKeepOrder(rows: seq<Row>)
    requires NonIncreasing(rows)
    ensures NonIncreasing(PendingRows(rows))
    ensures forall i :: 0 <= i < |PendingRows(rows)| ==>
                          rows != [] && PendingRows(rows)[i].priority <= rows[0].priority
  {
    if rows != [] {
      var tail := rows[1..];
      assert NonIncreasing(tail);
      PendingRowsKeepOrder(tail);
    }
  }

  /** The rows of a schedule, entry by entry. */
  function RowsOf(s: seq<Entry>): (rows: seq<Row>)
    ensures |rows| == |s|
    ensures forall i :: 0 <= i < |s| ==> rows[i] == s[i].row
  {
    seq(|s|, i requires 0 <= i < |s| => s[i].row)
  }

  /** The cursor when entry `i` is placed: the day start for the first entry,
      otherwise the end of the previous block plus the break. */
  function CursorBefore(s: seq<Entry>, i: int, dayStart: int): int
    requires 0 <= i <= |s|
  {
    if i == 0 then dayStart else s[i - 1].end + BreakLength
  }

  /** Entry `i` starts at the later of the cursor and its task's free start and
      lasts its row's duration. */
  predicate Placed(s: seq<Entry>, i: int, dayStart: int)
    requires 0 <= i < |s|
  {
    s[i].start == Max(CursorBefore(s, i, dayStart), s[i].row.task.freeStart) &&
    s[i].end == s[i].start + s[i].row.duration
  }

  /** Every entry is placed after the cursor. */
  predicate SlotsFollowCursor(s: seq<Entry>, dayStart: int)
  {
    forall i :: 0 <= i < |s| ==> Placed(s, i, dayStart)
  }

  /** Every entry carries the time-left label of its deadline at `now`. */
  predicate LabelledAt(s: seq<Entry>, now: int)
  {
    forall i :: 0 <= i < |s| ==> s[i].remaining == Remaining(s[i].row.task.deadline, now)
  }

  /** What the allocation loop produces from the ranked rows: exactly the rows
      that are not Completed, in their order, each placed after the cursor. */
  predicate IsGreedySchedule(rows: seq<Row>, dayStart: int, now: int, s: seq<Entry>)
  {
    RowsOf(s) == PendingRows(rows) && SlotsFollowCursor(s, dayStart) && LabelledAt(s, now)
  }

  /** The allocation loop over the ranked rows. */
  method Allocate(rows: seq<Row>, dayStart: int, now: int) returns (schedule: seq<Entry>)
    ensures IsGreedySchedule(rows, dayStart, now, schedule)
  {
    schedule := [];
    var cursor := dayStart;
    for i := 0 to |rows|
      invariant RowsOf(schedule) == PendingRows(rows[..i])
      invariant SlotsFollowCursor(schedule, dayStart)
      invariant LabelledAt(schedule, now)
      invariant cursor == CursorBefore(schedule, |schedule|, dayStart)
    {
      var row := rows[i];
      assert rows[..i + 1] == rows[..i] + [row];
      PendingRowsAppend(rows[..i], [row]);
      if row.task.status != Completed {
        var start := Max(cursor, row.task.freeStart);
        var end := start + row.duration;
        var next := schedule + [Entry(row, start, end, Remaining(row.task.deadline, now))];
        forall k | 0 <= k < |next|
          ensures Placed(next, k, dayStart)
        {
          if k < |schedule| {
            assert Placed(schedule, k, dayStart);
          }
        }
        schedule := next;
        cursor := end + BreakLength;
      }
    }
    assert rows[..|rows|] == rows;
  }

  /** The description is complete: the rows, the day start and `now` determine the schedule. */
  lemma GreedyScheduleUnique(rows: seq<Row>, dayStart: int, now: int, s1: seq<Entry>, s2: seq<Entry>)
    requires IsGreedySchedule(rows, dayStart, now, s1)
    requires IsGreedySchedule(rows, dayStart, now, s2)
    ensures s1 == s2
  {
    assert |s1| == |RowsOf(s1)| == |RowsOf(s2)| == |s2|;
    var i := 0;
    while i < |s1|
      invariant 0 <= i <= |s1|
      invariant s1[..i] == s2[..i]
    {
      assert s1[i].row == RowsOf(s1)[i] == RowsOf(s2)[i] == s2[i].row;
      assert i > 0 ==> s1[i - 1] == s2[..i][i - 1];
      assert CursorBefore(s1, i, dayStart) == CursorBefore(s2, i, dayStart);
      assert Placed(s1, i, dayStart) && Placed(s2, i, dayStart);
      assert s1[..i + 1] == s1[..i] + [s1[i]];
      assert s2[..i + 1] == s2[..i] + [s2[i]];
      i := i + 1;
    }
    assert s1 == s1[..i] && s2 == s2[..i];
  }

  /** Every block starts no earlier than the day start and than its task's free
      start, and lasts its row's duration. */
  lemma SlotBounds(s: seq<Entry>, dayStart: int)
    requires SlotsFollowCursor(s, dayStart)
    ensures forall i :: 0 <= i < |s| ==>
      s[i].start >= dayStart && s[i].start >= s[i].row.task.freeStart &&
      s[i].end == s[i].start + s[i].row.duration
  {
    var i := 0;
    while i < |s|
      invariant 0 <= i <= |s|
      invariant forall k :: 0 <= k < i ==> s[k].start >= dayStart && Placed(s, k, dayStart)
    {
      assert Placed(s, i, dayStart);
      assert i > 0 ==> Placed(s, i - 1, dayStart);
      i := i + 1;
    }
  }

  lemma {:induction false} SeparatedFrom(s: seq<Entry>, dayStart: int, i: int, j: int)
    requires SlotsFollowCursor(s, dayStart)
    requires 0 <= i < j < |s|
    ensures s[i].end + BreakLength <= s[j].start
    decreases j
  {
    assert Placed(s, j, dayStart) && Placed(s, j - 1, dayStart);
    if j > i + 1 {
      SeparatedFrom(s, dayStart, i, j - 1);
    }
  }

  /** Blocks never overlap: every later block starts at least a break after every
      earlier block ends, so the start times strictly increase. */
  lemma SlotsSeparated(s: seq<Entry>, dayStart: int)
    requires SlotsFollowCursor(s, dayStart)
    ensures forall i, j :: 0 <= i < j < |s| ==>
      s[i].end + BreakLength <= s[j].start && s[i].start < s[j].start
  {
    forall i, j | 0 <= i < j < |s|
      ensures s[i].end + BreakLength <= s[j].start && s[i].start < s[j].start
    {
      SeparatedFrom(s, dayStart, i, j);
      assert Placed(s, i, dayStart);
    }
  }

  /** The schedule holds no Completed task, and holds every row that is not
      Completed exactly as often as the table does. */
  lemma GreedyScheduleExactlyPending(rows: seq<Row>, dayStart: int, now: int, s: seq<Entry>)
    requires IsGreedySchedule(rows, dayStart, now, s)
    ensures forall i :: 0 <= i < |s| ==> s[i].row.task.status == Pending
    ensures forall r :: multiset(RowsOf(s))[r] ==
                        if r.task.status == Pending then multiset(rows)[r] else 0
  {
    PendingRowsCount(rows);
    assert forall i :: 0 <= i < |s| ==> s[i].row == PendingRows(rows)[i];
  }

  /** Ranked rows are scheduled in ranked order. */
  lemma GreedyScheduleKeepsOrder(rows: seq<Row>, dayStart: int, now: int, s: seq<Entry>)
    requires IsGreedySchedule(rows, dayStart, now, s)
    requires NonIncreasing(rows)
    ensures NonIncreasing(RowsOf(s))
  {
    PendingRowsKeepOrder(rows);
  }

  /** Two Hard tasks free from 09:00 to 11:00 with a Completed task between them,
      scored at 09:00 of day 0 (21, 17 and 15): the first block is 09:00-11:00, the
      second starts after the break at 11:15 and so ends at 13:15, past its task's
      free end, which placement never consults. */
  lemma SpillsPastFreeEnd(s: seq<Entry>)
    requires
      var a := Task("Read", Hard, 9 * Hour, 11 * Hour, 12 * Hour, Pending);
      var c := Task("Done", Easy, 9 * Hour, 10 * Hour, 12 * Hour, Completed);
      var b := Task("Revise", Hard, 9 * Hour, 11 * Hour, 18 * Hour, Pending);
      IsGreedySchedule(Annotate([a, c, b], 9 * Hour), Combine(0, DayStartTime), 9 * Hour, s)
    ensures NonIncreasing(RowsOf(s))
    ensures |s| == 2
    ensures s[0].row.priority == 21 && s[1].row.priority == 15
    ensures s[0].start == 9 * Hour && s[0].end == 11 * Hour
    ensures s[1].start == 11 * Hour + 15 * Minute && s[1].end == 13 * Hour + 15 * Minute
    ensures s[1].end > s[1].row.task.freeEnd
  {
    var now := 9 * Hour;
    var a := Task("Read", Hard, 9 * Hour, 11 * Hour, 12 * Hour, Pending);
    var c := Task("Done", Easy, 9 * Hour, 10 * Hour, 12 * Hour, Completed);
    var b := Task("Revise", Hard, 9 * Hour, 11 * Hour, 18 * Hour, Pending);
    var rows := [Row(a, 21, 2 * Hour), Row(c, 17, 45 * Minute), Row(b, 15, 2 * Hour)];
    assert Annotate([a, c, b], now) == rows by {
      PriorityInSeconds(a, now);
      PriorityInSeconds(c, now);
      PriorityInSeconds(b, now);
    }
    var expected := [
      Entry(rows[0], 9 * Hour, 11 * Hour, Remaining(a.deadline, now)),
      Entry(rows[2], 11 * Hour + 15 * Minute, 13 * Hour + 15 * Minute, Remaining(b.deadline, now))];
    assert PendingRows(rows) == [rows[0], rows[2]] by {
      assert rows[1..] == [rows[1], rows[2]] && rows[1..][1..] == [rows[2]];
      assert PendingRows([rows[2]]) == [rows[2]] by {
        assert [rows[2]][1..] == [];
      }
    }
    assert RowsOf(expected) == [rows[0], rows[2]];
    assert Placed(expected, 0, Combine(0, DayStartTime));
    assert Placed(expected, 1, Combine(0, DayStartTime));
    GreedyScheduleUnique(rows, Combine(0, DayStartTime), now, s, expected);
  }

  /** Ranks the annotated task table and allocates it from 09:00 of `today`. */
  method BuildSchedule(tasks: seq<Task>, now: int, today: int) returns (schedule: seq<Entry>)
    ensures exists ranked ::
              IsRanking(Annotate(tasks, now), ranked) &&
              IsGreedySchedule(ranked, Combine(today, DayStartTime), now, schedule)
    ensures multiset(RowsOf(schedule)) == multiset(PendingRows(Annotate(tasks, now)))
    ensures NonIncreasing(RowsOf(schedule))
    ensures forall i :: 0 <= i < |schedule| ==>
      var e := schedule[i];
      e.row.task.status == Pending &&
      e.row.priority == Priority(e.row.task, now) &&
      e.start >= Combine(today, DayStartTime) && e.start >= e.row.task.freeStart &&
      e.end == e.start + StudyDuration(e.row.task.hardness) &&
      e.remaining == Remaining(e.row.task.deadline, now)
    ensures forall i, j :: 0 <= i < j < |schedule| ==>
      schedule[i].end + BreakLength <= schedule[j].start
  {
    var rows := Annotate(tasks, now);
    var ranked := Rank(rows);
    schedule := Allocate(ranked, Combine(today, DayStartTime), now);
    PendingRowsOfPermutation(ranked, rows);
    GreedyScheduleExactlyPending(ranked, Combine(today, DayStartTime), now, schedule);
    GreedyScheduleKeepsOrder(ranked, Combine(today, DayStartTime), now, schedule);
    SlotBounds(schedule, Combine(today, DayStartTime));
    SlotsSeparated(schedule, Combine(today, DayStartTime));
    AnnotateScored(tasks, now);
    RankingKeepsScores(rows, ranked, now);
    PendingRowsCount(ranked);
    forall i | 0 <= i < |schedule|
      ensures schedule[i].row in ranked
    {
      assert RowsOf(schedule)[i] in multiset(RowsOf(schedule));
    }
  }
}
