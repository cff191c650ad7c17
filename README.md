# Daily Task Optimizer — a Dafny model of its selector

The Daily Task Optimizer is a one-page app. The user enters how many hours
they have today and a list of tasks. Each task has a name, the hours it
needs, an importance from 1 to 5 and a category. The optimizer picks the
group of tasks with the largest total importance that fits in the hours
available. It does this by brute force: it tries every non-empty
combination, smaller groups first, and within a size in the order of the
combination generator, which is lexicographic in the tasks' positions.
A combination replaces the best so far only if it fits and scores strictly
more, so among equally good groups the first one tried wins.

The page then derives three things from the result:
- the postponed tasks, that is, those not chosen;
- a timeline that lays the chosen tasks back to back from hour 0;
- a what-if analysis that runs the optimizer again with the budget shifted
  by -1, +1 and +2 hours, never below 1 hour.

The model has four modules:
- `TaskModel` (`tasks.dfy`): the task record and the two left-to-right
  sums, total hours and total importance.
- `Combinatorics` (`combinations.dfy`): the combination generator, as
  index sequences. `Combs` yields the combinations of one size in generator
  order, and `Enumeration` yields all sizes 1..n, smaller first. The module
  proves that the generator is sound, complete and ordered.
- `Optimizer` (`optimizer.dfy`): the selector as an imperative method with
  nested loops, `OptimizeTasks`. Its specification is the function
  `Scan`, a left fold of the strict "fits and scores more" update over the
  enumeration. Two functions name its result: `Selection` gives the
  positions and the score, and `Chosen` gives the tasks. The lemmas prove
  feasibility, optimality, the first-best tie-break, when the result is
  empty, and that the score does not fall when the budget grows.
- `Analysis` (`report.dfy`): the postponed list, the timeline loop
  (`BuildSchedule`, specified by `Timeline`), the what-if loop (`WhatIf`)
  and the whole run (`RunOptimizer`).

Hours and budgets are exact `real`s. Importances are unbounded `int`s.

## Model

| member | source | states |
|---|---|---|
| Optimizer.OptimizeTasks | app.py:14-27 | The nested loops over sizes 1..n and the combinations of each size return exactly the selection of the specification fold: the chosen tasks, in their original order, and their score. |
| Optimizer.Scan | app.py:18-25 | Whatever the candidates, the best choice after trying them is a strictly increasing sequence of task positions, so it picks a sub-sequence of the tasks. |
| Optimizer.ScanSound | app.py:15-25 | After any list of candidates, the best so far is either nothing with score 0, or a tried candidate that fits the budget and whose score is its total importance, above 0. |
| Optimizer.ScanMaximal | app.py:23-25 | No tried candidate that fits scores more than the best so far. |
| Optimizer.ScanFirst | app.py:23 | The strict comparison keeps the first winner: every candidate tried before it that fits scores strictly less. |
| Optimizer.SelectionFeasible | app.py:14-27 | The returned group is a sub-sequence of the tasks in their original order. Its score is its total importance and never negative. When the group is non-empty, its total hours are within the budget. |
| Optimizer.SelectionOptimal | app.py:18-25 | No combination of the tasks that fits the budget has a larger total importance than the returned score. |
| Optimizer.SelectionTieBreak | app.py:18-25 | Every combination tried before the returned one (smaller, or the same size and lexicographically earlier) that fits scores strictly less; the result is the first best group in trial order. |
| Optimizer.TieBreakAt | app.py:18-25 | The tie-break for one combination: if it fits and is tried before the result, it scores strictly less. |
| Optimizer.SelectionEmptyIff | app.py:15-27 | With importances of at least 1, the result is ([], 0) exactly when no non-empty combination fits. |
| Optimizer.SelectionNothingFits | app.py:15-27 | With no tasks, or with every task longer than the budget, the result is ([], 0). |
| Optimizer.SelectionMonotone | app.py:14-27 | A larger budget never gives a lower score. |
| Combinatorics.CombsSound | app.py:19 | The generator yields only strictly increasing position sequences of the requested size, drawn from the requested range. |
| Combinatorics.CombinationsSound | app.py:19 | Every combination of size r of n positions is a strictly increasing sequence of positions below n. |
| Combinatorics.SizesUpToSound | app.py:18-19 | The candidates of sizes 1..r are combinations whose sizes are between 1 and r. |
| Combinatorics.EnumerationSound | app.py:18-19 | Every candidate tried is a non-empty combination of the task positions. |
| Combinatorics.CombinationLength | app.py:18 | A combination of n positions has at most n elements, so sizes 1..n cover them all. |
| Combinatorics.CombsComplete | app.py:19 | Every combination of the requested size within the range is generated. |
| Combinatorics.SizesUpToContains | app.py:18-19 | A combination of size at most r is among the candidates of sizes 1..r. |
| Combinatorics.EnumerationComplete | app.py:18-19 | Every non-empty combination of the task positions is tried. |
| Combinatorics.LexLessAsymmetric | app.py:19 | Lexicographic order on positions never holds both ways. |
| Combinatorics.TriedBeforeAsymmetric | app.py:18-19 | The trial order is strict: never both ways, never reflexive. |
| Combinatorics.CombsSorted | app.py:19 | Within a size, combinations are generated in strictly increasing lexicographic order of positions. |
| Combinatorics.SizesUpToOrdered | app.py:18-19 | Sizes 1..r are tried smaller first, each in lexicographic order. |
| Combinatorics.EnumerationOrdered | app.py:18-19 | The whole trial order is strictly increasing, so no combination is tried twice. |
| TaskModel.TotalTimeCoversEach | app.py:20 | With no negative hours, a group takes at least as long as any of its members. |
| TaskModel.TotalTimeNonNegative | app.py:20 | With no negative hours, no group takes negative time. |
| TaskModel.TotalImportanceAtLeastSize | app.py:21 | With importances of at least 1, a group's score is at least its size, so every non-empty group scores above 0. |
| Analysis.Postponed | app.py:104 | A task record is postponed exactly when it is in the task list and equal to no chosen record; the list is no longer than the task list. |
| Analysis.PostponedKeepsOrder | app.py:104 | The postponed tasks are a sub-sequence of the task list, in its order. |
| Analysis.PostponedCount | app.py:104 | Every copy of an unchosen task is kept and no copy of a chosen one: each record occurs in the postponed list as often as in the task list, or not at all if it equals a chosen record. |
| Analysis.PostponedEmptyIff | app.py:104-109 | Nothing is postponed exactly when every task equals a chosen one. |
| Analysis.BuildSchedule | app.py:116-124 | The loop builds exactly the back-to-back timeline of the chosen tasks, in their order. |
| Analysis.TimelineAt | app.py:116-124 | Slot i carries task i's name, starts at the total hours of the tasks before it and ends its own hours later. |
| Analysis.TimelineBackToBack | app.py:116-124 | The timeline has no gaps and no overlaps: the first slot starts at hour 0, each slot starts where the previous one ends, and the last one ends at the total hours of the tasks. |
| Analysis.AdjustedBudget | app.py:136 | The tried budget is the larger of 1 and the shifted budget: at least both, and equal to one of them. |
| Analysis.AdjustedBudgetMonotone | app.py:135-136 | A larger shift never gives a smaller tried budget. |
| Analysis.WhatIf | app.py:135-138 | One scenario per shift, in the order -1, +1, +2. Each scenario has a budget of at least 1 hour and holds the selector's result for that budget. The budgets and scores never decrease along the list. |
| Analysis.RunOptimizer | app.py:87-138 | A full run produces the following. The chosen tasks and score are the selector's result. The reported total time is the chosen tasks' hours, within the budget whenever the choice is non-empty. The postponed list is the filter of the task list, and every task is either chosen or postponed, never both. The schedule is exactly the back-to-back timeline of the chosen tasks; when non-empty, it starts at hour 0 and ends within the budget. There is one what-if scenario per shift, in order, each holding the shifted budget (at least 1 hour) and the selector's result for it. |

## Left out

- The page itself is not modelled: the input widgets, the session state that holds the task list, the table and bar chart, and all text output. The task list and the budget are parameters.
- The input widgets accept budgets between 1 and 24 hours, task hours between 0.25 and 12 in quarter steps, and importances between 1 and 5. The selector does not rely on these ranges, so they are not preconditions. The lemmas that need them, SelectionEmptyIff and SelectionNothingFits, state only the hypothesis they use.
- Floating-point rounding in the sums of hours is not modelled: hours are exact reals. With quarter-hour steps the sums are exact in binary floating point anyway.
- Combinations are built from positions in the task list, and the tasks at those positions are then picked. The generator yields the same tuples as the original, which builds them from the task records directly.
- Optimizer.Step: only combinations of the task positions count as candidates; anything else is skipped. The enumeration yields only such combinations (Combinatorics.EnumerationSound), so this case never arises.
- Optimizer.SelectionFeasible: the budget check is stated for a non-empty result only. For a negative budget the empty result has 0 hours, which is more than the budget, and the selector still returns it.
- The names and categories of tasks are carried along as payload; nothing is proved about them beyond the timeline's names.
- The what-if loop's text output, including the number of tasks it prints, is left out; each scenario keeps the whole chosen group, from which that number is its length.
