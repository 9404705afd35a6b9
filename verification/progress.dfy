/**
 The progress record: how many training runs each day has had, and the status derived from it
 (app.py:107-108 and 121).
 */
module Progress {
  import opened Common

  /** Day key -> number of runs recorded; a day that is not a key has had none. */
  type Progress = map<DayKey, nat>

  /** A day counts as passed from this many runs on. */
  const PassThreshold := 3

  /** The status shown next to a day: passed ("zaliczony") or still in progress ("w trakcie"). */
  datatype DayStatus = Passed | InProgress

  /** The runs recorded for `d`, 0 when `d` has no entry (`progress.get(d, 0)`). */
  function Completed(p: Progress, d: DayKey): (n: nat)
    ensures d in p ==> n == p[d]
    ensures n > 0 ==> d in p
  {
    if d in p then p[d] else 0
  }

  /**
   The status of `d` (app.py:107-108): passed exactly when the record holds at least three runs
   for it, so a day without an entry is in progress.
   */
  function StatusOf(p: Progress, d: DayKey): (s: DayStatus)
    ensures s == Passed <==> d in p && p[d] >= PassThreshold
    ensures d !in p ==> s == InProgress
  {
    if Completed(p, d) >= PassThreshold then Passed else InProgress
  }

  /**
   Records one run of `d` (app.py:121): its count goes up by one, the key is created when it was
   missing, and every other day keeps its entry exactly.
   */
  function RecordRun(p: Progress, d: DayKey): (q: Progress)
    ensures Completed(q, d) == Completed(p, d) + 1
    ensures q.Keys == p.Keys + {d}
    ensures forall e :: e in p && e != d ==> q[e] == p[e]
  {
    p[d := Completed(p, d) + 1]
  }

  /** Recording a run never changes the count of any other day. */
  lemma RecordRunLeavesOthers(p: Progress, d: DayKey, e: DayKey)
    requires e != d
    ensures Completed(RecordRun(p, d), e) == Completed(p, e)
  {
  }

  /** Once a day is passed, recording any further run, of it or of another day, keeps it passed. */
  lemma PassedStaysPassed(p: Progress, d: DayKey, e: DayKey)
    requires StatusOf(p, d) == Passed
    ensures StatusOf(RecordRun(p, e), d) == Passed
  {
  }

  /** The record after `n` runs of `d`. */
  function RecordRuns(p: Progress, d: DayKey, n: nat): Progress
    decreases n
  {
    if n == 0 then p else RecordRun(RecordRuns(p, d, n - 1), d)
  }

  /**
   After `n` runs of `d` its count has risen by exactly `n`, other days are untouched, and `d` is
   passed exactly when its earlier count plus `n` reaches the threshold.
   */
  lemma {:induction false} RunsAddUp(p: Progress, d: DayKey, n: nat)
    ensures Completed(RecordRuns(p, d, n), d) == Completed(p, d) + n
    ensures forall e :: e != d ==> Completed(RecordRuns(p, d, n), e) == Completed(p, e)
    ensures StatusOf(RecordRuns(p, d, n), d) == Passed <==> Completed(p, d) + n >= PassThreshold
    decreases n
  {
    if n > 0 {
      RunsAddUp(p, d, n - 1);
      forall e | e != d
        ensures Completed(RecordRuns(p, d, n), e) == Completed(p, e)
      {
        RecordRunLeavesOthers(RecordRuns(p, d, n - 1), d, e);
      }
    }
  }

  /** From an empty record, a day is still in progress after two runs and passed after three. */
  lemma ThirdRunPasses(d: DayKey)
    ensures StatusOf(RecordRuns(map[], d, 2), d) == InProgress
    ensures StatusOf(RecordRuns(map[], d, 3), d) == Passed
  {
    RunsAddUp(map[], d, 2);
    RunsAddUp(map[], d, 3);
  }
}
