/** What the page derives from the selector's result once the optimizer is
    run: the postponed tasks, a back-to-back timeline of the chosen tasks,
    and the what-if scores for slightly different budgets. */
module Analysis {
  import opened TaskModel
  import opened Combinatorics
  import opened Optimizer

  // ---------------------------------------------------------------------
  // Postponed tasks

  /** The tasks that were not chosen, in their original order. Records are
      compared by value, so every copy of a chosen record is left out. */
  function Postponed(tasks: seq<Task>, combo: seq<Task>): (r: seq<Task>)
    ensures forall t :: t in r <==> t in tasks && t !in combo
    ensures |r| <= |tasks|
  {
    if tasks == [] then []
    else
      var init, last := tasks[..|tasks| - 1], tasks[|tasks| - 1];
      assert tasks == init + [last];
      Postponed(init, combo) + (if last in combo then [] else [last])
  }

  /** The postponed tasks keep the order they had in the task list. */
  lemma {:induction false} PostponedKeepsOrder(tasks: seq<Task>, combo: seq<Task>)
    ensures exists idx :: IsCombination(idx, |tasks|) && Postponed(tasks, combo) == Pick(tasks, idx)
  {
    if tasks == [] {
      assert IsCombination([], 0) && Postponed(tasks, combo) == Pick(tasks, []);
    } else {
      var init, last := tasks[..|tasks| - 1], tasks[|tasks| - 1];
      assert tasks == init + [last];
      PostponedKeepsOrder(init, combo);
      var idx: seq<nat> :| IsCombination(idx, |init|) && Postponed(init, combo) == Pick(init, idx);
      PickSnoc(init, last, idx);
    }
  }

  /** Positions into a prefix pick the same elements from the whole
      sequence; adding the last position picks the last element too. */
  lemma PickSnoc<T>(init: seq<T>, last: T, idx: seq<nat>)
    requires IsCombination(idx, |init|)
    ensures IsCombination(idx, |init| + 1) && Pick(init + [last], idx) == Pick(init, idx)
    ensures IsCombination(idx + [|init|], |init| + 1)
    ensures Pick(init + [last], idx + [|init|]) == Pick(init, idx) + [last]
  {
    var s := init + [last];
    assert forall k :: 0 <= k < |idx| ==> s[idx[k]] == init[idx[k]];
  }

  /** Every copy of an unchosen task is kept, and no copy of a chosen one:
      the postponed list holds each record as often as the task list does,
      unless the record was chosen. */
  lemma {:induction false} PostponedCount(tasks: seq<Task>, combo: seq<Task>, t: Task)
    ensures multiset(Postponed(tasks, combo))[t] == if t in combo then 0 else multiset(tasks)[t]
  {
    if tasks != [] {
      var init, last := tasks[..|tasks| - 1], tasks[|tasks| - 1];
      assert tasks == init + [last];
      PostponedCount(init, combo, t);
    }
  }

  /** Nothing is postponed exactly when every task equals a chosen one. */
  lemma PostponedEmptyIff(tasks: seq<Task>, combo: seq<Task>)
    ensures Postponed(tasks, combo) == [] <==> forall i :: 0 <= i < |tasks| ==> tasks[i] in combo
  {
    var r := Postponed(tasks, combo);
    if r != [] {
      assert r[0] in r;
    }
  }

  // ---------------------------------------------------------------------
  // Timeline

  /** One bar of the timeline: a task name with its start and end hour. */
  datatype Slot = Slot(task: string, start: real, end: real)

  /** The timeline of `ts`: each task starts when the ones before it in
      `ts` have ended, the first at hour 0. */
  function Timeline(ts: seq<Task>): seq<Slot> {
    if ts == [] then []
    else
      var init, last := ts[..|ts| - 1], ts[|ts| - 1];
      Timeline(init) + [Slot(last.name, TotalTime(init), TotalTime(init) + last.time)]
  }

  /** Slot `i` of the timeline is task `i`, starting at the total time of
      the tasks before it and lasting its own hours. */
  lemma {:induction false} TimelineAt(ts: seq<Task>)
    ensures |Timeline(ts)| == |ts|
    ensures forall i :: 0 <= i < |ts| ==>
      Timeline(ts)[i] == Slot(ts[i].name, TotalTime(ts[..i]), TotalTime(ts[..i]) + ts[i].time)
  {
    if ts != [] {
      var init := ts[..|ts| - 1];
      TimelineAt(init);
      forall i | 0 <= i < |init| ensures init[..i] == ts[..i] && init[i] == ts[i] {
      }
    }
  }

  /** The timeline has no gaps and no overlaps: it starts at hour 0, each
      slot starts where the previous one ends, and the last one ends at the
      total time of the tasks. */
  lemma TimelineBackToBack(ts: seq<Task>)
    ensures |Timeline(ts)| == |ts|
    ensures ts != [] ==> Timeline(ts)[0].start == 0.0 && Timeline(ts)[|ts| - 1].end == TotalTime(ts)
    ensures forall i :: 0 <= i < |ts| ==> Timeline(ts)[i].end == Timeline(ts)[i].start + ts[i].time
    ensures forall i :: 0 < i < |ts| ==> Timeline(ts)[i].start == Timeline(ts)[i - 1].end
  {
    TimelineAt(ts);
    forall i | 0 < i < |ts| ensures Timeline(ts)[i].start == Timeline(ts)[i - 1].end {
      TimelineLink(ts, i);
    }
    if ts != [] {
      TimelineLink(ts, |ts|);
    }
  }

  /** Slot `i` starts where slot `i - 1` ends; past the last slot, the
      total time is where the last one ends. */
  lemma TimelineLink(ts: seq<Task>, i: nat)
    requires 0 < i <= |ts|
    ensures |Timeline(ts)| == |ts|
    ensures i < |ts| ==> Timeline(ts)[i].start == Timeline(ts)[i - 1].end
    ensures i == |ts| ==> Timeline(ts)[i - 1].end == TotalTime(ts)
  {
    TimelineAt(ts);
    TotalTimeStep(ts, i - 1);
    assert ts[..|ts|] == ts;
  }

  /** The running start time grows by one task's hours at each step. */
  lemma TotalTimeStep(ts: seq<Task>, i: nat)
    requires i < |ts|
    ensures TotalTime(ts[..i + 1]) == TotalTime(ts[..i]) + ts[i].time
  {
    assert ts[..i + 1][..i] == ts[..i];
  }

  /** Lays the chosen tasks back to back from hour 0, in the order given. */
  method BuildSchedule(combo: seq<Task>) returns (schedule: seq<Slot>)
    ensures schedule == Timeline(combo)
  {
    var startTime := 0.0;
    schedule := [];
    for i := 0 to |combo|
      invariant startTime == TotalTime(combo[..i])
      invariant schedule == Timeline(combo[..i])
    {
      var t := combo[i];
      assert combo[..i + 1][..i] == combo[..i];
      schedule := schedule + [Slot(t.name, startTime, startTime + t.time)];
      startTime := startTime + t.time;
    }
    assert combo[..|combo|] == combo;
  }

  // ---------------------------------------------------------------------
  // What-if analysis

  /** The budget changes tried by the what-if analysis, in order. */
  const Deltas: seq<real> := [-1.0, 1.0, 2.0]

  /** The budget tried for `delta`: the shifted budget, but at least one
      hour. */
  function AdjustedBudget(budget: real, delta: real): (b: real)
    ensures b >= 1.0 && b >= budget + delta
    ensures b == 1.0 || b == budget + delta
  {
    if budget + delta > 1.0 then budget + delta else 1.0
  }

  /** A larger shift never gives a smaller adjusted budget. */
  lemma AdjustedBudgetMonotone(budget: real, d1: real, d2: real)
    requires d1 <= d2
    ensures AdjustedBudget(budget, d1) <= AdjustedBudget(budget, d2)
  {
  }

  /** The outcome of the selector for one adjusted budget. */
  datatype Scenario = Scenario(budget: real, combo: seq<Task>, value: int)

  /** Re-runs the selector once per shift, in the order of `Deltas`. */
  method WhatIf(tasks: seq<Task>, budget: real) returns (scenarios: seq<Scenario>)
    ensures |scenarios| == |Deltas|
    ensures forall i :: 0 <= i < |Deltas| ==>
      && scenarios[i].budget == AdjustedBudget(budget, Deltas[i]) >= 1.0
      && scenarios[i].combo == Chosen(tasks, scenarios[i].budget)
      && scenarios[i].value == Selection(tasks, scenarios[i].budget).value
    ensures forall i, j :: 0 <= i < j < |Deltas| ==>
      scenarios[i].budget <= scenarios[j].budget && scenarios[i].value <= scenarios[j].value
  {
    scenarios := [];
    for i := 0 to |Deltas|
      invariant |scenarios| == i
      invariant forall k :: 0 <= k < i ==>
        && scenarios[k].budget == AdjustedBudget(budget, Deltas[k])
        && scenarios[k].combo == Chosen(tasks, scenarios[k].budget)
        && scenarios[k].value == Selection(tasks, scenarios[k].budget).value
    {
      var newTime := AdjustedBudget(budget, Deltas[i]);
      var combo, val := OptimizeTasks(tasks, newTime);
      scenarios := scenarios + [Scenario(newTime, combo, val)];
    }
    forall i, j | 0 <= i < j < |Deltas|
      ensures scenarios[i].budget <= scenarios[j].budget && scenarios[i].value <= scenarios[j].value
    {
      AdjustedBudgetMonotone(budget, Deltas[i], Deltas[j]);
      SelectionMonotone(tasks, scenarios[i].budget, scenarios[j].budget);
    }
  }

  // ---------------------------------------------------------------------
  // The whole run

  /** Everything the page shows after the optimizer is run. */
  datatype Report = Report(
    chosen: seq<Task>, score: int, totalTime: real,
    postponed: seq<Task>, schedule: seq<Slot>, scenarios: seq<Scenario>)

  /** Runs the selector, then derives the total time, the postponed tasks,
      the timeline and the what-if scenarios from its result. The timeline
      ends within the budget, and every task is either chosen or
      postponed. */
  method RunOptimizer(tasks: seq<Task>, budget: real) returns (report: Report)
    ensures report.chosen == Chosen(tasks, budget) && report.score == Selection(tasks, budget).value
    ensures report.totalTime == TotalTime(report.chosen)
    ensures report.chosen != [] ==> report.totalTime <= budget
    ensures report.postponed == Postponed(tasks, report.chosen)
    ensures forall i :: 0 <= i < |tasks| ==> (tasks[i] in report.chosen <==> tasks[i] !in report.postponed)
    ensures report.schedule == Timeline(report.chosen) && |report.schedule| == |report.chosen|
    ensures report.schedule != [] ==>
      report.schedule[0].start == 0.0 && report.schedule[|report.schedule| - 1].end <= budget
    ensures |report.scenarios| == |Deltas|
    ensures forall i :: 0 <= i < |Deltas| ==>
      report.scenarios[i] == Scenario(AdjustedBudget(budget, Deltas[i]),
        Chosen(tasks, AdjustedBudget(budget, Deltas[i])), Selection(tasks, AdjustedBudget(budget, Deltas[i])).value)
  {
    var bestCombo, bestValue := OptimizeTasks(tasks, budget);
    SelectionFeasible(tasks, budget);
    var totalTime := TotalTime(bestCombo);
    var postponed := Postponed(tasks, bestCombo);
    var schedule := BuildSchedule(bestCombo);
    TimelineBackToBack(bestCombo);
    var scenarios := WhatIf(tasks, budget);
    report := Report(bestCombo, bestValue, totalTime, postponed, schedule, scenarios);
  }
}
