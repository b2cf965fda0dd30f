/** The task table with its computed columns, ranked by descending priority. */
module Ranking {
  import opened Tasks
  import opened Heuristic

  /** A row of the table: a task with its priority score and its study block length. */
  datatype Row = Row(task: Task, priority: int, duration: nat)

  /** The table built from the task list: one row per task, in list order, scored
      against the moment `now`. */
  function Annotate(tasks: seq<Task>, now: int): (rows: seq<Row>)
    ensures |rows| == |tasks|
    ensures forall i :: 0 <= i < |rows| ==>
      rows[i].task == tasks[i] && 5 <= rows[i].priority <= 21 && rows[i].duration > 0
  {
    seq(|tasks|, i requires 0 <= i < |tasks| =>
      Row(tasks[i], Priority(tasks[i], now), StudyDuration(tasks[i].hardness)))
  }

  /** Every row carries the score and block length of its own task. */
  predicate Scored(rows: seq<Row>, now: int)
  {
    forall r :: r in rows ==>
      r.priority == Priority(r.task, now) && r.duration == StudyDuration(r.task.hardness)
  }

  lemma AnnotateScored(tasks: seq<Task>, now: int)
    ensures Scored(Annotate(tasks, now), now)
  {
  }

  /** Priorities never increase along the sequence. */
  predicate NonIncreasing(rows: seq<Row>)
  {
    forall i, j :: 0 <= i < j < |rows| ==> rows[i].priority >= rows[j].priority
  }

  /** `ranked` is an admissible outcome of sorting `rows` by descending priority:
      the same rows, each as often, with priorities non-increasing. Rows of equal
      priority may come in any order. */
  predicate IsRanking(rows: seq<Row>, ranked: seq<Row>)
  {
    multiset(ranked) == multiset(rows) && NonIncreasing(ranked)
  }

  /** Inserts a row into a ranked sequence ahead of the first row of lower priority. */
  function Insert(r: Row, ranked: seq<Row>): (s: seq<Row>)
    ensures |s| == |ranked| + 1 && (s[0] == r || (ranked != [] && s[0] == ranked[0]))
    ensures NonIncreasing(ranked) ==> NonIncreasing(s)
  {
    if ranked == [] || r.priority >= ranked[0].priority then [r] + ranked
    else
      assert ranked == [ranked[0]] + ranked[1..];
      [ranked[0]] + Insert(r, ranked[1..])
  }

  /** Inserting adds exactly the one row. */
  lemma {:induction false} InsertPermutes(r: Row, ranked: seq<Row>)
    ensures multiset(Insert(r, ranked)) == multiset(ranked) + multiset{r}
  {
    if ranked != [] && r.priority < ranked[0].priority {
      assert ranked == [ranked[0]] + ranked[1..];
      InsertPermutes(r, ranked[1..]);
    }
  }

  /** One ranking of the table: an insertion sort by descending priority. */
  function Rank(rows: seq<Row>): (ranked: seq<Row>)
    ensures IsRanking(rows, ranked)
  {
    if rows == [] then []
    else
      assert rows == [rows[0]] + rows[1..];
      InsertPermutes(rows[0], Rank(rows[1..]));
      Insert(rows[0], Rank(rows[1..]))
  }

  /** Ranking keeps every row, so it keeps the score of every row. */
  lemma RankingKeepsScores(rows: seq<Row>, ranked: seq<Row>, now: int)
    requires IsRanking(rows, ranked) && Scored(rows, now)
    ensures Scored(ranked, now)
  {
    forall r | r in ranked
      ensures r.priority == Priority(r.task, now) && r.duration == StudyDuration(r.task.hardness)
    {
      assert r in multiset(ranked);
    }
  }
}
