/** The brute-force selector: try every non-empty combination of tasks,
    smaller ones first and in lexicographic order of positions within a
    size, and keep the first one that fits the budget and scores strictly
    more than the best so far. */
module Optimizer {
  import opened TaskModel
  import opened Combinatorics

  /** A selection, by the positions of the chosen tasks, with its score. */
  datatype Choice = Choice(indices: seq<nat>, value: int)

  /** The total importance of the tasks at positions `c`. */
  function Value(tasks: seq<Task>, c: seq<nat>): int
    requires IsCombination(c, |tasks|)
  {
    TotalImportance(Pick(tasks, c))
  }

  /** The tasks at positions `c` together take no more than `budget` hours. */
  predicate Fits(tasks: seq<Task>, budget: real, c: seq<nat>)
    requires IsCombination(c, |tasks|)
  {
    TotalTime(Pick(tasks, c)) <= budget
  }

  /** One turn of the inner loop: `c` replaces the best so far only if it
      fits and scores strictly more. Only combinations of the task positions
      are ever tried (EnumerationSound); anything else is passed over. */
  function Step(tasks: seq<Task>, budget: real, best: Choice, c: seq<nat>): Choice {
    if IsCombination(c, |tasks|) && Fits(tasks, budget, c) && Value(tasks, c) > best.value
    then Choice(c, Value(tasks, c))
    else best
  }

  /** The best choice after trying the candidates `cands` in order, starting
      from nothing chosen and a score of 0. */
  function Scan(tasks: seq<Task>, budget: real, cands: seq<seq<nat>>): (b: Choice)
    ensures IsCombination(b.indices, |tasks|)
  {
    if cands == [] then Choice([], 0)
    else Step(tasks, budget, Scan(tasks, budget, cands[..|cands| - 1]), cands[|cands| - 1])
  }

  /** What the selector returns for `tasks` and `budget`, by positions. */
  function Selection(tasks: seq<Task>, budget: real): Choice {
    Scan(tasks, budget, Enumeration(|tasks|))
  }

  /** The tasks the selector returns, in their original order. */
  function Chosen(tasks: seq<Task>, budget: real): seq<Task> {
    Pick(tasks, Selection(tasks, budget).indices)
  }

  /** The selector. The outer loop runs over the sizes 1..n, the inner one
      over the combinations of that size in generator order. */
  method OptimizeTasks(tasks: seq<Task>, budget: real) returns (bestCombo: seq<Task>, bestValue: int)
    ensures bestCombo == Chosen(tasks, budget) && bestValue == Selection(tasks, budget).value
  {
    var n := |tasks|;
    bestValue := 0;
    bestCombo := [];
    ghost var best := Choice([], 0);
    ghost var seen: seq<seq<nat>> := [];
    for r := 1 to n + 1
      invariant seen == SizesUpTo(n, r - 1)
      invariant best == Scan(tasks, budget, seen)
      invariant bestValue == best.value && bestCombo == Pick(tasks, best.indices)
    {
      var combos := Combinations(n, r);
      CombinationsSound(n, r);
      for i := 0 to |combos|
        invariant seen == SizesUpTo(n, r - 1) + combos[..i]
        invariant best == Scan(tasks, budget, seen)
        invariant bestValue == best.value && bestCombo == Pick(tasks, best.indices)
      {
        var combo := Pick(tasks, combos[i]);
        var totalTime := TotalTime(combo);
        var totalValue := TotalImportance(combo);
        ScanExtend(tasks, budget, seen, combos[i]);
        if totalTime <= budget && totalValue > bestValue {
          bestValue := totalValue;
          bestCombo := combo;
          best := Choice(combos[i], totalValue);
        }
        SliceSnoc(SizesUpTo(n, r - 1), combos, i);
        seen := seen + [combos[i]];
      }
      SizesUpToNext(n, r);
    }
  }

  lemma SliceSnoc<T>(a: seq<T>, b: seq<T>, i: nat)
    requires i < |b|
    ensures (a + b[..i]) + [b[i]] == a + b[..i + 1]
  {
    assert b[..i + 1] == b[..i] + [b[i]];
  }

  lemma SizesUpToNext(n: nat, r: nat)
    requires r > 0
    ensures SizesUpTo(n, r - 1) + Combinations(n, r)[..|Combinations(n, r)|] == SizesUpTo(n, r)
  {
    assert Combinations(n, r)[..|Combinations(n, r)|] == Combinations(n, r);
  }

  /** Trying one more candidate is one more step of the scan. */
  lemma ScanExtend(tasks: seq<Task>, budget: real, seen: seq<seq<nat>>, c: seq<nat>)
    ensures Scan(tasks, budget, seen + [c]) == Step(tasks, budget, Scan(tasks, budget, seen), c)
  {
    assert (seen + [c])[..|seen|] == seen;
  }

  /** The result is a sub-sequence of the tasks in their original order; it
      fits the budget unless it is empty, and its score is its total
      importance, never negative. */
  lemma SelectionFeasible(tasks: seq<Task>, budget: real)
    ensures TotalImportance(Chosen(tasks, budget)) == Selection(tasks, budget).value >= 0
    ensures Chosen(tasks, budget) != [] ==> TotalTime(Chosen(tasks, budget)) <= budget
    ensures exists c :: IsCombination(c, |tasks|) && Chosen(tasks, budget) == Pick(tasks, c)
  {
    var s := Selection(tasks, budget);
    EnumerationSound(|tasks|);
    ScanSound(tasks, budget, Enumeration(|tasks|));
    assert IsCombination(s.indices, |tasks|) && Chosen(tasks, budget) == Pick(tasks, s.indices);
  }

  /** The result is either nothing, with score 0, or a candidate that fits
      and whose score is its total importance, above 0. */
  lemma {:induction false} ScanSound(tasks: seq<Task>, budget: real, cands: seq<seq<nat>>)
    ensures var b := Scan(tasks, budget, cands);
      && Value(tasks, b.indices) == b.value
      && (b.indices == [] ==> b.value == 0)
      && (b.indices != [] ==> b.value > 0 && b.indices in cands && Fits(tasks, budget, b.indices))
  {
    if cands != [] {
      var init := cands[..|cands| - 1];
      ScanSound(tasks, budget, init);
      var prev := Scan(tasks, budget, init);
      if prev.indices != [] {
        assert prev.indices in init;
        var j :| 0 <= j < |init| && init[j] == prev.indices;
        assert cands[j] == prev.indices;
      }
    }
  }

  /** Nothing tried scores more than the result and fits. */
  lemma {:induction false} ScanMaximal(tasks: seq<Task>, budget: real, cands: seq<seq<nat>>)
    requires AllCombinations(cands, |tasks|)
    ensures forall j :: 0 <= j < |cands| && Fits(tasks, budget, cands[j]) ==>
      Value(tasks, cands[j]) <= Scan(tasks, budget, cands).value
  {
    if cands != [] {
      ScanMaximal(tasks, budget, cands[..|cands| - 1]);
    }
  }

  /** The strict comparison keeps the first winner: everything tried before
      the chosen candidate that fits scores strictly less. */
  lemma {:induction false} ScanFirst(tasks: seq<Task>, budget: real, cands: seq<seq<nat>>)
    requires AllCombinations(cands, |tasks|)
    ensures var b := Scan(tasks, budget, cands);
      b.indices != [] ==>
        exists k :: 0 <= k < |cands| && cands[k] == b.indices &&
          (forall j :: 0 <= j < k && Fits(tasks, budget, cands[j]) ==> Value(tasks, cands[j]) < b.value)
  {
    if cands != [] {
      var init := cands[..|cands| - 1];
      var last := cands[|cands| - 1];
      var prev := Scan(tasks, budget, init);
      if Fits(tasks, budget, last) && Value(tasks, last) > prev.value {
        ScanMaximal(tasks, budget, init);
        assert forall j :: 0 <= j < |init| ==> cands[j] == init[j];
      } else if prev.indices != [] {
        ScanFirst(tasks, budget, init);
        var k :| 0 <= k < |init| && init[k] == prev.indices &&
          forall j :: 0 <= j < k && Fits(tasks, budget, init[j]) ==> Value(tasks, init[j]) < prev.value;
        assert forall j :: 0 <= j < |init| ==> cands[j] == init[j];
      }
    }
  }

  /** Optimality: no combination of the tasks that fits the budget scores
      more than the selection; the empty one scores 0. */
  lemma SelectionOptimal(tasks: seq<Task>, budget: real)
    ensures forall c :: IsCombination(c, |tasks|) && Fits(tasks, budget, c) ==>
      Value(tasks, c) <= Selection(tasks, budget).value
  {
    var cands := Enumeration(|tasks|);
    EnumerationSound(|tasks|);
    ScanSound(tasks, budget, cands);
    ScanMaximal(tasks, budget, cands);
    forall c | IsCombination(c, |tasks|) && Fits(tasks, budget, c)
      ensures Value(tasks, c) <= Selection(tasks, budget).value
    {
      if c != [] {
        EnumerationComplete(|tasks|, c);
        var j :| 0 <= j < |cands| && cands[j] == c;
      }
    }
  }

  /** Tie-break: every combination tried before the selection that fits
      scores strictly less than it. With SelectionOptimal, the selection is
      the first best combination in the order of trial, not the one that
      takes the least time. */
  lemma SelectionTieBreak(tasks: seq<Task>, budget: real)
    ensures var s := Selection(tasks, budget);
      forall c :: IsCombination(c, |tasks|) && TriedBefore(c, s.indices) && Fits(tasks, budget, c) ==>
        Value(tasks, c) < s.value
  {
    forall c | IsCombination(c, |tasks|) && TriedBefore(c, Selection(tasks, budget).indices) && Fits(tasks, budget, c)
      ensures Value(tasks, c) < Selection(tasks, budget).value
    {
      TieBreakAt(tasks, budget, c);
    }
  }

  lemma TieBreakAt(tasks: seq<Task>, budget: real, c: seq<nat>)
    requires IsCombination(c, |tasks|) && Fits(tasks, budget, c)
    requires TriedBefore(c, Selection(tasks, budget).indices)
    ensures Value(tasks, c) < Selection(tasks, budget).value
  {
    var s := Selection(tasks, budget);
    var cands := Enumeration(|tasks|);
    EnumerationSound(|tasks|);
    ScanSound(tasks, budget, cands);
    TriedBeforeAsymmetric(c, s.indices);
    if c != [] {
      ScanFirst(tasks, budget, cands);
      var k :| 0 <= k < |cands| && cands[k] == s.indices &&
        forall j :: 0 <= j < k && Fits(tasks, budget, cands[j]) ==> Value(tasks, cands[j]) < s.value;
      EnumerationComplete(|tasks|, c);
      var j :| 0 <= j < |cands| && cands[j] == c;
      if j > k {
        EnumerationOrdered(|tasks|);
        assert false;
      }
    }
  }

  /** With every importance at least 1, the result is empty (and scores 0)
      exactly when no non-empty combination fits the budget. */
  lemma SelectionEmptyIff(tasks: seq<Task>, budget: real)
    requires forall i :: 0 <= i < |tasks| ==> tasks[i].importance >= 1
    ensures Selection(tasks, budget) == Choice([], 0) <==>
      forall c :: IsCombination(c, |tasks|) && c != [] ==> !Fits(tasks, budget, c)
  {
    var s := Selection(tasks, budget);
    EnumerationSound(|tasks|);
    ScanSound(tasks, budget, Enumeration(|tasks|));
    if s == Choice([], 0) {
      SelectionOptimal(tasks, budget);
      forall c | IsCombination(c, |tasks|) && c != [] ensures !Fits(tasks, budget, c) {
        TotalImportanceAtLeastSize(Pick(tasks, c));
      }
    }
  }

  /** With no task list, or with every task longer than the budget, the
      result is the empty combination with score 0. */
  lemma SelectionNothingFits(tasks: seq<Task>, budget: real)
    requires forall i :: 0 <= i < |tasks| ==> 0.0 <= tasks[i].time && budget < tasks[i].time
    ensures Selection(tasks, budget) == Choice([], 0)
  {
    var s := Selection(tasks, budget);
    EnumerationSound(|tasks|);
    ScanSound(tasks, budget, Enumeration(|tasks|));
    if s.indices != [] {
      TotalTimeCoversEach(Pick(tasks, s.indices), 0);
      assert false;
    }
  }

  /** More hours never lower the score. */
  lemma SelectionMonotone(tasks: seq<Task>, b1: real, b2: real)
    requires b1 <= b2
    ensures Selection(tasks, b1).value <= Selection(tasks, b2).value
  {
    var s1 := Selection(tasks, b1);
    EnumerationSound(|tasks|);
    ScanSound(tasks, b1, Enumeration(|tasks|));
    ScanSound(tasks, b2, Enumeration(|tasks|));
    if s1.indices != [] {
      SelectionOptimal(tasks, b2);
      assert Fits(tasks, b2, s1.indices);
    }
  }
}
