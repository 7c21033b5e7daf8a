/** The admin's daily progress screen: totals over the callers' counts, the daily
    target of 100 responses per caller, and the per-caller status label. */
module ProgressDashboard {
  /** The responses a caller logged on the selected day. */
  datatype CallerProgress = CallerProgress(callerId: nat, responsesToday: nat)

  const DailyTarget: nat := 100
  const OnTrackFloor: nat := 75

  /** `progress.reduce((sum, p) => sum + p.responses_today, 0)`. */
  function TotalResponses(progress: seq<CallerProgress>): nat {
    if |progress| == 0 then 0
    else TotalResponses(progress[..|progress| - 1]) + progress[|progress| - 1].responsesToday
  }

  /** `progress.length * 100`. */
  function TotalTarget(progress: seq<CallerProgress>): (r: nat)
    ensures r == 0 <==> |progress| == 0
    ensures r % DailyTarget == 0
  {
    |progress| * DailyTarget
  }

  /** `totalTarget > 0 ? totalResponses / totalTarget * 100 : 0`, in exact arithmetic. */
  function OverallPercentage(progress: seq<CallerProgress>): (r: real)
    ensures r >= 0.0
    ensures |progress| == 0 ==> r == 0.0
    ensures |progress| > 0 ==> r * (TotalTarget(progress) as real) == (TotalResponses(progress) as real) * 100.0
  {
    var target := TotalTarget(progress);
    if target > 0 then Percent(TotalResponses(progress), target) else 0.0
  }

  /** `part / whole * 100` in exact arithmetic. */
  function Percent(part: nat, whole: nat): (r: real)
    requires whole > 0
    ensures r >= 0.0
    ensures r * (whole as real) == (part as real) * 100.0
  {
    ScaledQuotient(part as real, whole as real);
    (part as real / whole as real) * 100.0
  }

  /** The label in a caller's status column. */
  datatype Standing = TargetMet | OnTrack | Behind

  function StandingOf(responses: nat): (r: Standing)
    ensures r == TargetMet <==> responses >= DailyTarget
    ensures r == OnTrack <==> OnTrackFloor <= responses < DailyTarget
    ensures r == Behind <==> responses < OnTrackFloor
  {
    if responses >= DailyTarget then TargetMet
    else if responses >= OnTrackFloor then OnTrack
    else Behind
  }

  /** `progress.filter(p => p.responses_today >= 100).length`. */
  function TargetsMet(progress: seq<CallerProgress>): (r: nat)
    ensures r <= |progress|
  {
    if |progress| == 0 then 0
    else TargetsMet(progress[..|progress| - 1]) + (if progress[|progress| - 1].responsesToday >= DailyTarget then 1 else 0)
  }

  /** The number of rows carrying a given label. */
  function CountStanding(progress: seq<CallerProgress>, standing: Standing): nat {
    if |progress| == 0 then 0
    else
      var last := if StandingOf(progress[|progress| - 1].responsesToday) == standing then 1 else 0;
      CountStanding(progress[..|progress| - 1], standing) + last
  }

  /** The total does not depend on how the rows are split: the total of two lists
      joined is the sum of their totals. */
  lemma {:induction false} TotalResponsesAppend(a: seq<CallerProgress>, b: seq<CallerProgress>)
    ensures TotalResponses(a + b) == TotalResponses(a) + TotalResponses(b)
  {
    if |b| > 0 {
      var c := a + b;
      var b' := b[..|b| - 1];
      assert c[..|c| - 1] == a + b' && c[|c| - 1] == b[|b| - 1];
      TotalResponsesAppend(a, b');
      assert TotalResponses(b) == TotalResponses(b') + b[|b| - 1].responsesToday;
    } else {
      assert a + b == a;
    }
  }

  /** Every caller's count is part of the total, and the total is 0 exactly when
      nobody logged a response. */
  lemma {:induction false} TotalResponsesBounds(progress: seq<CallerProgress>)
    ensures forall j :: 0 <= j < |progress| ==> progress[j].responsesToday <= TotalResponses(progress)
    ensures TotalResponses(progress) == 0 <==> forall j :: 0 <= j < |progress| ==> progress[j].responsesToday == 0
  {
    if |progress| > 0 {
      var prefix := progress[..|progress| - 1];
      TotalResponsesBounds(prefix);
      assert forall j :: 0 <= j < |prefix| ==> prefix[j] == progress[j];
    }
  }

  /** The "Targets Met" card is 0 exactly when no caller reached the target. */
  lemma {:induction false} NoTargetsMet(progress: seq<CallerProgress>)
    ensures TargetsMet(progress) == 0 <==> forall j :: 0 <= j < |progress| ==> progress[j].responsesToday < DailyTarget
  {
    if |progress| > 0 {
      var prefix := progress[..|progress| - 1];
      NoTargetsMet(prefix);
      assert forall j :: 0 <= j < |prefix| ==> prefix[j] == progress[j];
    }
  }

  /** The "Targets Met" card counts exactly the rows labelled 'Target Met'. */
  lemma {:induction false} TargetsMetCountsLabels(progress: seq<CallerProgress>)
    ensures TargetsMet(progress) == CountStanding(progress, TargetMet)
  {
    if |progress| > 0 {
      TargetsMetCountsLabels(progress[..|progress| - 1]);
    }
  }

  /** When every caller reached the target, every caller is counted. */
  lemma {:induction false} AllMetAllCounted(progress: seq<CallerProgress>)
    requires forall j :: 0 <= j < |progress| ==> progress[j].responsesToday >= DailyTarget
    ensures TargetsMet(progress) == |progress|
  {
    if |progress| > 0 {
      var prefix := progress[..|progress| - 1];
      assert forall j :: 0 <= j < |prefix| ==> prefix[j] == progress[j];
      AllMetAllCounted(prefix);
    }
  }

  /** Each caller who met the target contributes at least 100 responses to the total. */
  lemma {:induction false} TotalCoversTargetsMet(progress: seq<CallerProgress>)
    ensures TotalResponses(progress) >= DailyTarget * TargetsMet(progress)
  {
    if |progress| > 0 {
      TotalCoversTargetsMet(progress[..|progress| - 1]);
    }
  }

  /** When every caller met the target, the overall figure is at least 100%. */
  lemma AllTargetsMetMeansFullProgress(progress: seq<CallerProgress>)
    requires |progress| > 0
    requires forall j :: 0 <= j < |progress| ==> progress[j].responsesToday >= DailyTarget
    ensures OverallPercentage(progress) >= 100.0
  {
    AllMetAllCounted(progress);
    TotalCoversTargetsMet(progress);
    var t := TotalTarget(progress) as real;
    var s := TotalResponses(progress) as real;
    assert s >= t > 0.0;
    QuotientAtLeastOne(s, t);
  }

  /** A percentage times its base gives back a hundred times the part. */
  lemma ScaledQuotient(s: real, t: real)
    requires s >= 0.0 && t > 0.0
    ensures (s / t) * 100.0 >= 0.0
    ensures (s / t) * 100.0 * t == s * 100.0
  {
    assert s / t * t == s;
  }

  lemma QuotientAtLeastOne(s: real, t: real)
    requires s >= t > 0.0
    ensures s / t >= 1.0
  {
    assert s / t * t == s;
  }

  /** A user's task counts as the custom-users table receives them. */
  datatype TaskCounts = TaskCounts(totalTasks: nat, completedTasks: nat)

  /** The number of tasks in a list that are not completed. */
  function OpenTasks(statuses: seq<string>): (r: nat)
    ensures r <= |statuses|
  {
    if |statuses| == 0 then 0
    else OpenTasks(statuses[..|statuses| - 1]) + (if statuses[|statuses| - 1] != "completed" then 1 else 0)
  }

  function CompletedTasks(statuses: seq<string>): (r: nat)
    ensures r <= |statuses|
  {
    if |statuses| == 0 then 0
    else CompletedTasks(statuses[..|statuses| - 1]) + (if statuses[|statuses| - 1] == "completed" then 1 else 0)
  }

  /** `total_tasks - completed_tasks`. */
  function ActiveTasks(c: TaskCounts): int {
    c.totalTasks as int - c.completedTasks as int
  }

  /** For counts taken over one task list, the active column is the number of tasks
      not completed. */
  lemma {:induction false} ActiveTasksAreOpenTasks(statuses: seq<string>)
    ensures ActiveTasks(TaskCounts(|statuses|, CompletedTasks(statuses))) == OpenTasks(statuses)
  {
    if |statuses| > 0 {
      ActiveTasksAreOpenTasks(statuses[..|statuses| - 1]);
    }
  }
}
