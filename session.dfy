/** The session's task list and the page run that schedules it. */
module Session {
  import opened Clock
  import opened Tasks
  import opened Ranking
  import opened Allocation

  class TaskList {
    var tasks: seq<Task>

    /** A session starts with no tasks. */
    constructor ()
      ensures tasks == []
    {
      tasks := [];
    }

    /** The "Add Task" action: combines the chosen dates and times of day into
        timestamps and appends a Pending task with exactly the given fields. */
    method Add(name: string, hardness: Hardness, freeDate: int, start: int, end: int,
               date: int, dtime: int)
      requires 0 <= start < SecondsPerDay && 0 <= end < SecondsPerDay
      requires 0 <= dtime < SecondsPerDay
      modifies this
      ensures tasks == old(tasks) + [Task(name, hardness, Combine(freeDate, start),
                                          Combine(freeDate, end), Combine(date, dtime), Pending)]
      ensures |tasks| == |old(tasks)| + 1 && tasks[|tasks| - 1].status == Pending
      ensures DayOf(tasks[|tasks| - 1].freeStart) == freeDate
      ensures DayOf(tasks[|tasks| - 1].deadline) == date
    {
      var freeStart := Combine(freeDate, start);
      var freeEnd := Combine(freeDate, end);
      var deadline := Combine(date, dtime);
      tasks := tasks + [Task(name, hardness, freeStart, freeEnd, deadline, Pending)];
    }

    /** The main part of a page run: with no tasks the page stops without a
        schedule; otherwise the tasks are ranked and allocated from 09:00 of `today`. */
    method Plan(now: int, today: int) returns (r: Option<seq<Entry>>)
      ensures r.None? <==> tasks == []
      ensures r.Some? ==> exists ranked ::
                            IsRanking(Annotate(tasks, now), ranked) &&
                            IsGreedySchedule(ranked, Combine(today, DayStartTime), now, r.value)
    {
      if tasks == [] {
        return None;
      }
      var schedule := BuildSchedule(tasks, now, today);
      return Some(schedule);
    }
  }
}
