/** The task records the optimizer works on, and the two sums it takes over
    a group of tasks (total hours and total importance). */
module TaskModel {

  /** The five categories offered by the category selector. The category plays
      no part in the selection; it is carried along as payload. */
  datatype Category = Work | School | Personal | Health | Other

  /** One task as entered by the user: a name, the hours it needs, an
      importance from 1 to 5 and a category. Hours are exact reals here. */
  datatype Task = Task(name: string, time: real, importance: int, category: Category)

  /** The sum of the hours of `ts`, taken from left to right. */
  function TotalTime(ts: seq<Task>): real {
    if ts == [] then 0.0 else TotalTime(ts[..|ts| - 1]) + ts[|ts| - 1].time
  }

  /** The sum of the importances of `ts`, taken from left to right. */
  function TotalImportance(ts: seq<Task>): int {
    if ts == [] then 0 else TotalImportance(ts[..|ts| - 1]) + ts[|ts| - 1].importance
  }

  /** With no negative hours, a group takes at least as long as any one of
      its members. */
  lemma {:induction false} TotalTimeCoversEach(ts: seq<Task>, k: nat)
    requires forall i :: 0 <= i < |ts| ==> ts[i].time >= 0.0
    requires k < |ts|
    ensures TotalTime(ts) >= ts[k].time
  {
    var init := ts[..|ts| - 1];
    if k < |ts| - 1 {
      TotalTimeCoversEach(init, k);
    }
    TotalTimeNonNegative(init);
  }

  /** With no negative hours, no group takes negative time. */
  lemma {:induction false} TotalTimeNonNegative(ts: seq<Task>)
    requires forall i :: 0 <= i < |ts| ==> ts[i].time >= 0.0
    ensures TotalTime(ts) >= 0.0
  {
    if ts != [] {
      TotalTimeNonNegative(ts[..|ts| - 1]);
    }
  }

  /** With every importance at least 1, a group scores at least its size, so
      every non-empty group scores above 0. */
  lemma {:induction false} TotalImportanceAtLeastSize(ts: seq<Task>)
    requires forall i :: 0 <= i < |ts| ==> ts[i].importance >= 1
    ensures TotalImportance(ts) >= |ts|
  {
    if ts != [] {
      TotalImportanceAtLeastSize(ts[..|ts| - 1]);
    }
  }
}
