/** The statistics panel (src/components/dashboard/StatisticsSection.tsx): the counts and
    completion rate derived from the `completed` column of the user's tasks. */
module Statistics {
  import opened Common

  datatype TaskStats = TaskStats(total: nat, completed: nat, pending: int, completionRate: nat)

  /** The panel's state: the last stats it derived and whether it is still loading. */
  datatype StatsView = StatsView(stats: TaskStats, loading: bool)

  const InitialView := StatsView(TaskStats(0, 0, 0, 0), true)

  /** `data.filter(task => task.completed).length`. */
  function CountCompleted(flags: seq<bool>): (n: nat)
    ensures n <= |flags|
    ensures n == 0 <==> forall i :: 0 <= i < |flags| ==> !flags[i]
    ensures n == |flags| <==> forall i :: 0 <= i < |flags| ==> flags[i]
    ensures n == multiset(flags)[true]
  {
    if flags == [] then 0
    else
      assert flags == [flags[0]] + flags[1..];
      (if flags[0] then 1 else 0) + CountCompleted(flags[1..])
  }

  /** `Math.round((completed / total) * 100)` on exact rationals: the whole number nearest
      to 100·completed/total, a half rounded up. */
  function RoundedPercent(completed: nat, total: nat): (r: int)
    requires total > 0
    ensures 2 * total * r <= 200 * completed + total < 2 * total * (r + 1)
  {
    (200 * completed + total) / (2 * total)
  }

  /** `total > 0 ? Math.round((completed / total) * 100) : 0`. */
  function CompletionRate(completed: nat, total: nat): (r: int)
    ensures r >= 0
    ensures total == 0 ==> r == 0
    ensures total > 0 ==> 2 * total * r <= 200 * completed + total < 2 * total * (r + 1)
  {
    if total > 0 then RoundedPercent(completed, total) else 0
  }

  /** The derivation in `fetchStats` from the rows' completion flags. */
  function Derive(flags: seq<bool>): (s: TaskStats)
    ensures s.total == |flags| && s.completed == CountCompleted(flags)
    ensures s.completed <= s.total
    ensures s.pending >= 0 && s.completed + s.pending == s.total
    ensures 0 <= s.completionRate <= 100
    ensures s.total == 0 ==> s.completionRate == 0
    ensures s.total > 0 ==>
              2 * s.total * s.completionRate <= 200 * s.completed + s.total < 2 * s.total * (s.completionRate + 1)
  {
    var total := |flags|;
    var completed := CountCompleted(flags);
    RateBounds(completed, total);
    TaskStats(total, completed, total - completed, CompletionRate(completed, total))
  }

  /** `data || []`. */
  function FlagsOrEmpty(data: Option<seq<bool>>): seq<bool> {
    match data
    case None => []
    case Some(flags) => flags
  }

  /** `fetchStats`: a successful query replaces the stats by those of its rows (a null
      result counting as none); a failed one keeps the previous stats. Loading ends
      either way. */
  function FetchStats(prev: StatsView, outcome: Result<Option<seq<bool>>>): (r: StatsView)
    ensures !r.loading
    ensures outcome.Err? ==> r.stats == prev.stats
    ensures outcome.Ok? ==> r.stats.total == |FlagsOrEmpty(outcome.value)|
    ensures outcome.Ok? ==> r.stats.completed == CountCompleted(FlagsOrEmpty(outcome.value))
    ensures outcome.Ok? ==> 0 <= r.stats.completionRate <= 100
    ensures outcome.Ok? ==> r.stats == Derive(FlagsOrEmpty(outcome.value))
  {
    match outcome
    case Ok(data) => StatsView(Derive(FlagsOrEmpty(data)), false)
    case Err(_) => StatsView(prev.stats, false)
  }

  /** The panel starts out loading with the stats of an empty task list, so a failed first
      query shows the same zeros as a query that returns no rows (null included). */
  lemma InitialFetch(msg: string)
    ensures InitialView.loading && InitialView.stats == Derive([])
    ensures FetchStats(InitialView, Err(msg)) == StatsView(TaskStats(0, 0, 0, 0), false)
    ensures FetchStats(InitialView, Ok(None)) == FetchStats(InitialView, Err(msg))
    ensures FetchStats(InitialView, Ok(Some([]))) == FetchStats(InitialView, Err(msg))
  {
  }

  /** The rate lies in [0, 100]; it is 0 when nothing is completed and 100 when
      everything is. */
  lemma RateBounds(completed: nat, total: nat)
    requires completed <= total
    ensures 0 <= CompletionRate(completed, total) <= 100
    ensures completed == 0 ==> CompletionRate(completed, total) == 0
    ensures completed == total ==> CompletionRate(completed, total) == (if total > 0 then 100 else 0)
  {
    if total > 0 {
      var r := RoundedPercent(completed, total);
      if r < 0 {
        assert 2 * total * (r + 1) <= 0 by { MulNonPositive(2 * total, r + 1); }
      }
      if r > 100 {
        assert 2 * total * r >= 2 * total * 101 by { MulMonotone(2 * total, 101, r); }
      }
      if completed == 0 && r > 0 {
        assert 2 * total * r >= 2 * total by { MulMonotone(2 * total, 1, r); }
      }
      if completed == total && r < 100 {
        assert 2 * total * (r + 1) <= 2 * total * 100 by { MulMonotone(2 * total, r + 1, 100); }
      }
    }
  }

  /** For a fixed total, completing more tasks never lowers the rate. */
  lemma RateMonotone(c1: nat, c2: nat, total: nat)
    requires c1 <= c2
    ensures CompletionRate(c1, total) <= CompletionRate(c2, total)
  {
    if total > 0 {
      var r1, r2 := RoundedPercent(c1, total), RoundedPercent(c2, total);
      assert 2 * total * r1 < 2 * total * (r2 + 1);
      MulCancel(2 * total, r1, r2 + 1);
    }
  }

  /** Worked values: 1 of 3 gives 33, 1 of 8 (12.5) rounds up to 13, 2 of 3 gives 67,
      and an empty list gives 0. */
  lemma RateExamples()
    ensures CompletionRate(1, 3) == 33
    ensures CompletionRate(1, 8) == 13
    ensures CompletionRate(2, 3) == 67
    ensures CompletionRate(0, 0) == 0
  {
  }

  /** Three tasks of which one is completed. */
  lemma ThreeTasksOneDone()
    ensures Derive([false, true, false]) == TaskStats(3, 1, 2, 33)
  {
  }

  lemma MulMonotone(k: nat, a: int, b: int)
    requires a <= b
    ensures k * a <= k * b
  {
  }

  lemma MulCancel(k: nat, a: int, b: int)
    requires k > 0 && k * a < k * b
    ensures a < b
  {
    if a >= b {
      MulMonotone(k, b, a);
    }
  }

  lemma MulNonPositive(k: nat, a: int)
    requires a <= 0
    ensures k * a <= 0
  {
  }
}
