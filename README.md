# AI Study Scheduler — a Dafny model of its scheduling heuristic

The study scheduler collects study tasks (name, difficulty, free window,
deadline). It scores each task and ranks the tasks by descending score. It
then walks them once with a single cursor that starts at 09:00 of the current
day, giving each task that is not Completed a block of 45, 90 or 120 minutes.
Each block starts at the later of the cursor and the task's free start, and a
15-minute break follows it. The page shows the blocks that start today and,
separately, those that start on a later day.

This project models that heuristic:

- `Clock` (time.dfy): timestamps as whole seconds from a midnight epoch. A
  timestamp's calendar day is its floor quotient by 86400. `Combine` plays the
  part of `datetime.combine`.
- `Tasks` (tasks.dfy): the task record, the difficulty and status datatypes,
  and the name-keyed lookup with its missing-key case.
- `Heuristic` (heuristic.dfy): the difficulty weights, the block lengths, the
  priority score, the time-left label and the label's displayed text. The
  score and the label are defined on exact real-valued hours, as the source
  computes them. Lemmas then tie both to thresholds and divisions on integer
  seconds.
- `Ranking` (ranking.dfy): the table with its Priority and Duration columns,
  and what counts as a ranking of it. A ranking is any permutation whose
  priorities never increase, because the source's sort does not fix the order
  of ties. `Rank`, an insertion sort, is one such ranking.
- `Allocation` (allocation.dfy): the allocation loop as a method with loop
  invariants (`Allocate`), proved against `IsGreedySchedule`, a description of
  its result. The lemmas about that description show three things. The
  description fixes the schedule exactly. The schedule holds precisely the
  tasks that are not Completed, in ranked order. Its blocks are bounded below
  and separated by the break. `BuildSchedule` runs the whole pipeline.
- `Calendar` (calendar.dfy): the split into today's and upcoming blocks.
- `Session` (session.dfy): the session's task list as a class, with the
  "Add Task" action and the page run that stops when the list is empty.

`now` and the current day (`today`) are parameters. Each stands for one
reading of the clock per page run.

Some behaviours of app.py that the model keeps:

- Ties are left unordered: `sort_values` at app.py:79 does not fix their order.
- Completed tasks are scored and ranked with the rest (app.py:77-79) and
  skipped only inside the allocation loop (app.py:86-87).
- An unknown difficulty is a missing key of the lookup tables at
  app.py:15-22, modelled as `None`.
- Nothing checks the free window: `FreeEnd` is stored (app.py:65) and never
  read during placement.

## Model

| member | source | states |
|---|---|---|
| Tasks.HardnessName | app.py:15-22 | every difficulty's key is one of "Easy", "Medium" and "Hard", and Easy and Hard have their own keys |
| Tasks.ParseHardness | app.py:15-22 | a key is found exactly when it is "Easy", "Medium" or "Hard", and then it is the name of the difficulty found |
| Tasks.ParseHardnessName | app.py:15-22 | every difficulty is found again under its own name |
| Heuristic.Weight | app.py:15 | the weight of a difficulty lies between 1 and 3 |
| Heuristic.WeightOrdersHardness | app.py:15 | Easy < Medium < Hard by weight, and equal weights mean equal difficulties |
| Heuristic.StudyDuration | app.py:17-22 | every block lasts between 45 minutes and 2 hours |
| Heuristic.StudyDurationMinutes | app.py:17-22 | the blocks last exactly 45, 90 and 120 minutes, and a harder difficulty gets a strictly longer block |
| Heuristic.StudyDurationOf | app.py:17-22 | the name-keyed lookup has no entry exactly for names outside the table, and gives 45, 90 or 120 minutes for the three names |
| Heuristic.HoursLeft | app.py:25 | the hours left are never negative |
| Heuristic.Urgency | app.py:26 | the urgency tier is 1, 3 or 5 |
| Heuristic.UrgencyInSeconds | app.py:25-26 | tier 1 exactly when more than 24 h are left, tier 3 exactly when more than 6 h and at most 24 h are left, tier 5 exactly when at most 6 h are left, past deadlines included |
| Heuristic.Priority | app.py:24-27 | every score lies between 5 and 21 |
| Heuristic.PriorityInSeconds | app.py:24-27 | the score is twice the weight plus three times the tier in whole seconds; it is 21 exactly for a Hard task due within 6 h, and 5 exactly for an Easy task due in more than 24 h |
| Heuristic.PriorityEarlierDeadline | app.py:25-27 | at a fixed moment an earlier deadline never lowers the score |
| Heuristic.PriorityHarder | app.py:24-27 | at a fixed moment a harder difficulty never lowers the score |
| Heuristic.Remaining | app.py:29-34 | the label is "Expired" exactly when the deadline is not in the future; an hour count is below 24 and a day count is at least 1 |
| Heuristic.RemainingInSeconds | app.py:29-34 | rounding the real hours down is seconds div 3600 while under 24 h are left, and the days are seconds div 86400 after that |
| Heuristic.Decimal | app.py:34 | the numeral is a non-empty string of digits without a leading zero |
| Heuristic.DecimalRoundTrip | app.py:34 | reading the numeral back gives the number |
| Heuristic.Render | app.py:32-34 | the displayed text is "Expired" exactly for the expired label; hour counts end in " hrs" and day counts in " days" after their numeral |
| Heuristic.RenderInjective | app.py:32-34 | different labels are displayed as different texts |
| Heuristic.RenderExpired | app.py:29-34 | the displayed text is "Expired" exactly when the deadline is not in the future |
| Clock.DayOf | app.py:111 | the day of a timestamp is the day whose 86400 seconds contain it |
| Clock.Combine | app.py:56-59 | the combined timestamp falls on the given day at the given time of day |
| Clock.CombineSplit | app.py:56-59 | splitting a timestamp into day and time of day and combining them gives it back |
| Clock.DayOfMonotone | app.py:111 | a later timestamp never falls on an earlier day |
| Ranking.Annotate | app.py:76-78 | one row per task, in order, each with a score in 5..21 and a positive block length |
| Ranking.AnnotateScored | app.py:77-78 | every row carries its own task's score and block length |
| Ranking.Insert | app.py:79 | inserting lengthens the sequence by one, leaves either the new row or the old head in front, and keeps priorities non-increasing |
| Ranking.InsertPermutes | app.py:79 | inserting adds exactly the one row and keeps every other row as often as before |
| Ranking.Rank | app.py:79 | the result holds the same rows, each as often, in non-increasing priority |
| Ranking.RankingKeepsScores | app.py:79 | every ranking of a scored table is still scored |
| Allocation.PendingRows | app.py:85-87 | the rows the loop keeps are all Pending and never more than the table's |
| Allocation.PendingRowsAppend | app.py:85-87 | skipping Completed rows distributes over concatenation |
| Allocation.PendingRowsCount | app.py:85-88 | every row that is not Completed is kept exactly as often as it occurs, and every Completed row is dropped |
| Allocation.PendingRowsOfPermutation | app.py:79-88 | rankings that differ only in how they order ties schedule the same rows, each as often |
| Allocation.PendingRowsKeepOrder | app.py:79-88 | skipping Completed rows keeps priorities non-increasing, and no kept row outranks the table's first |
| Allocation.Max | app.py:89 | the later of two timestamps is one of them and no earlier than either |
| Allocation.Allocate | app.py:82-99 | the loop's schedule is the greedy schedule of the ranked rows: the rows that are not Completed, in order, each block starting at the later of the cursor and the task's free start and lasting the row's duration, labelled at `now` |
| Allocation.GreedyScheduleUnique | app.py:82-99 | the ranked rows, the day start and `now` determine the schedule completely |
| Allocation.SlotBounds | app.py:83-90 | every block starts no earlier than the day start and its task's free start, and ends its duration after it starts |
| Allocation.SeparatedFrom | app.py:89-99 | a later block starts at least a break after an earlier block ends |
| Allocation.SlotsSeparated | app.py:89-99 | blocks never overlap: every later block starts at least 15 minutes after every earlier one ends, and start times strictly increase |
| Allocation.GreedyScheduleExactlyPending | app.py:85-97 | no Completed task is scheduled, and every task that is not Completed is scheduled exactly as often as it is listed |
| Allocation.GreedyScheduleKeepsOrder | app.py:79-97 | ranked rows are scheduled in non-increasing priority |
| Allocation.SpillsPastFreeEnd | app.py:89-99 | worked example with tasks scored at 09:00 (21, 17 and 15): the Completed one is skipped, the Hard task placed at 09:00 runs to 11:00, the next starts at 11:15 and its block ends past its free end |
| Allocation.BuildSchedule | app.py:76-99 | the schedule is the greedy schedule of some ranking of the scored tasks: it holds exactly the tasks that are not Completed, in non-increasing priority, from 09:00 today, each block as long as its difficulty's and a break apart from every other |
| Calendar.TodayEntries | app.py:111 | every entry kept as today's starts on today, and the kept entries are a sub-multiset of the schedule: each comes from the schedule and appears no more often than there |
| Calendar.UpcomingEntries | app.py:146 | every entry kept as upcoming starts after today, and the kept entries are a sub-multiset of the schedule: each comes from the schedule and appears no more often than there |
| Calendar.SplitMembers | app.py:111-146 | today's entries are exactly the schedule's entries that start on today, and the upcoming ones exactly those that start after today |
| Calendar.TodayUpcomingDisjoint | app.py:106-146 | no entry is both today's and upcoming |
| Calendar.AllLater | app.py:111-146 | when every block starts after today, nothing is today's and everything is upcoming |
| Calendar.SplitOrdered | app.py:111-146 | a schedule ordered by start and not before today is today's entries followed by the upcoming ones |
| Calendar.SplitCoversSchedule | app.py:83-146 | every block allocated from 09:00 today is shown exactly once: first today's, then the upcoming ones |
| Session.TaskList.constructor | app.py:11-12 | a session starts with an empty task list |
| Session.TaskList.Add | app.py:55-68 | the action appends one Pending task with exactly the given name and difficulty, with the window and deadline combined from the chosen days and times of day, and changes nothing else |
| Session.TaskList.Plan | app.py:72-99 | with no tasks the run stops without a schedule; otherwise the schedule is the greedy schedule of some ranking of the scored tasks |

## Left out

- The Streamlit page (title, sidebar widgets, expanders, columns, info messages, the table display, `st.rerun`): user interface, not logic.
- The Complete, Edit and Delete buttons: they index the task list with positions taken from the re-indexed schedule, so the position they change is not reliably the task shown. Edit also reads a text field inside a button handler. They are not modelled as list operations.
- Reminder notifications and random placement inside a free window: app.py has neither.
- The `fmt` time formatting: locale- and library-dependent string formatting.
- The wall clock: `now` and `today` are parameters. The source reads the clock afresh for every score, every label and each "today", so an instant or a midnight passing between two readings is not modelled.
- Floating point: hours are exact reals. Timestamps are whole seconds, so sub-second remainders of the source's time differences are not modelled.
- The pandas table: it is a sequence of rows, and the source's unstable sort is any ranking with non-increasing priorities.
- Ranking.Rank: it breaks ties by keeping input order. That is one admissible ranking, not the order pandas picks. `BuildSchedule` and `Plan` therefore promise only that some ranking was used.
- Allocation.SlotBounds: it does not bound blocks above by the free end, because placement never reads the free end (`SpillsPastFreeEnd` shows a block that runs past it).
- Session.TaskList.Add: the source takes the days and times from date and time widgets; here the time of day must lie within one day, which those widgets guarantee.
