# pyBandits in Dafny

A model of the two multi-armed bandit strategies of pyBandits and of the
Monte-Carlo simulation that drives them. Both are written in Dafny, and the
properties the code promises are proved about them.

- `bandits.dfy` (module `Bandits`) models `bandits.py`:
  - `max_index`, the first index of the largest value;
  - the classes `UCB1` and `EpsilonGreedy`. Each is a Dafny class whose fields
    `counts` and `values` the methods `Initialize` and `Update` reassign. A ghost
    field `history` holds the rewards fed to each arm since the last
    `Initialize`. The object invariant `Tracks` says that `counts[i]` is the
    number of those rewards and `values[i]` is their exact mean.
  - UCB1's choice as a pure function `UcbChoice`: the first arm never pulled,
    otherwise the first arm with the largest confidence bound. `UCB1.SelectArm`
    fills its local buffer of bounds in a loop, as the source does, and is
    proved equal to `UcbChoice`.
  - The tagged union `Algorithm`, which is either of the two strategies. The
    simulation sees the strategies through it: `Initialize`, `SelectArm` and
    `Update` dispatch to the chosen class.
- `simulation.dfy` (module `Simulation`) models `test_bandits.py`:
  - `BernoulliArm.draw`;
  - `_test_algorithm`, which plays `num_sims` runs of `horizon` pulls each and
    records a flat trace at index `(sim - 1) * horizon + t - 1`.

  The five parallel lists of that trace are one sequence of `Row`s: row `i`
  holds entry `i` of every list. Runs, steps and rows are specified by
  recursive predicates (`RunTrace`, `RunsDone`, `StepRecorded`). The loops
  `PlayRuns` (over runs), `PlayRun` (over the steps of one run) and
  `PlayStep` (one step) are proved against those predicates.

Randomness and transcendental maths are inputs:
- `bonus(total, count)` stands for `sqrt(2 * log(total) / count)`.
- `schedule(t)` stands for the annealing epsilon `1 / log(t + 1e-7)`.
- Entry `i` of `draws` holds the values that step `i` of the trace takes from
  Python's generator: the exploration draw, the exploration arm and the uniform
  sample behind the Bernoulli draw.

Floats are modelled as exact `real`s.

The docstring of `initialize(n)` says nothing about `n <= 0`. For such `n`,
`[0] * n` is `[]`, so `initialize` builds empty lists and does not fail;
`ZeroCounts` and `ZeroValues` model that.

The arm a strategy selects is also given as a pure function, `Choice`, of the
strategy's rule (`Policy`), its counts and values, and the step's random
values. Each recorded trace is specified through it: a row's arm is the
`Choice` made from the counts and mean rewards of the earlier rows of the same
run.

## Model

| member | source | states |
|---|---|---|
| `Bandits.Max` | bandits.py:46 | the result is an element of the non-empty list and no element exceeds it |
| `Bandits.IndexOf` | bandits.py:47 | the result is the first position holding the value sought |
| `Bandits.MaxIndex` | bandits.py:39-47 | the result indexes a largest element, and every earlier element is strictly smaller (the first maximum) |
| `Bandits.MaxIndexUnique` | bandits.py:39-47 | the first-maximum property determines `max_index` completely |
| `Bandits.MaxIndexOfTies` | bandits.py:46-47 | when all entries are equal, `max_index` is 0 |
| `Bandits.ZeroCounts` | bandits.py:78 | `[0] * n`: `max(n, 0)` zeros |
| `Bandits.ZeroValues` | bandits.py:79 | `[0.0] * n`: `max(n, 0)` zeros |
| `Bandits.InitialTracks` | bandits.py:71-79 | right after `initialize`, every count is 0 and every value is 0.0, the mean of no rewards |
| `Bandits.SumZeroCounts` | bandits.py:78 | the counts after `initialize` sum to 0 |
| `Bandits.MeanStep` | bandits.py:122-126 | the incremental formula `((n - 1) / n) * value + (1 / n) * reward` is exactly the mean of the old rewards plus the new one |
| `Bandits.UpdateKeepsMeans` | bandits.py:122-126 | `update` keeps the invariant: each count is the number of rewards fed to its arm and each value is their mean |
| `Bandits.SumCountAfter` | bandits.py:122 | one `update` raises the total number of pulls by exactly one |
| `Bandits.UcbScores` | bandits.py:104-110 | entry `i` is `values[i]` plus the bonus for `sum(counts)` pulls in all and `counts[i]` on arm `i` |
| `Bandits.UcbChoice` | bandits.py:98-112 | if some count is 0, the first zero-count arm; otherwise the first arm whose score is largest |
| `Bandits.UCB1.constructor` | bandits.py:66-68 | a new UCB1 has empty lists |
| `Bandits.UCB1.Initialize` | bandits.py:71-79 | the lists become `n` zeros, with no rewards seen, and the invariant holds |
| `Bandits.UCB1.SelectArm` | bandits.py:82-112 | the loop over the arms fills the bounds so that the result is `UcbChoice`; no field changes |
| `Bandits.UCB1.Update` | bandits.py:115-126 | only the chosen arm's count (one more) and value (the incremental mean) change, and the invariant is kept |
| `Bandits.PrimingStep` | bandits.py:100-102 | with arms `0..k-1` pulled once and the rest never, UCB1 picks arm `k`, and updating it primes one more arm |
| `Bandits.PrimingFrom` | bandits.py:100-102 | from `k` primed arms, the remaining rounds of select-then-update pick `k, k+1, ...` in order |
| `Bandits.UcbPrimesInOrder` | bandits.py:100-102 | after `initialize(n)`, `n` rounds of select-then-update pick arms `0, 1, ..., n-1` whatever the rewards |
| `Bandits.EpsilonGreedy.constructor` | bandits.py:158-161 | a new EpsilonGreedy keeps its epsilon (or none, for annealing) and has empty lists |
| `Bandits.EpsilonGreedy.Initialize` | bandits.py:164-172 | the lists become `n` zeros, with no rewards seen, and the invariant holds |
| `Bandits.EpsilonGreedy.SelectArm` | bandits.py:175-195 | above the epsilon (fixed, or the schedule at `sum(counts) + 1`), the first index of the largest value; otherwise the supplied random arm; no field changes |
| `Bandits.EpsilonGreedy.Update` | bandits.py:198-209 | only the chosen arm's count (one more) and value (the incremental mean) change, and the invariant is kept |
| `Bandits.Initialize` | test_bandits.py:86 | `algo.initialize(len(arms))` on either strategy: zero counts, zero values, no rewards seen, invariant holds |
| `Bandits.GreedyChoice` | bandits.py:187-195 | EpsilonGreedy's choice: above the epsilon, the first index of a largest value; at or below it, the random arm |
| `Bandits.GreedyFirstExploit` | bandits.py:164-195 | right after `initialize(n)` with `n > 0`, an exploiting EpsilonGreedy picks arm 0 |
| `Bandits.SelectArm` | test_bandits.py:94 | `algo.select_arm()` on either strategy returns an arm in range, equal to `Choice` of its rule on its counts and values: UCB1's choice, or EpsilonGreedy's exploit or explore arm |
| `Bandits.Update` | test_bandits.py:106 | `algo.update(arm, reward)` on either strategy: one more pull of `arm`, whose value becomes the mean of all its rewards; other arms unchanged |
| `Simulation.BernoulliArm.Draw` | test_bandits.py:22-29 | the reward is 0.0 or 1.0, and it is 1.0 exactly when the uniform sample is at most `p` |
| `Simulation.RunStartIsProduct` | test_bandits.py:90 | run `s + 1` starts at row `s * horizon` |
| `Simulation.FlatIndexRoundTrip` | test_bandits.py:84-92 | every `(sim, t)` in range lands in `[0, num_sims * horizon)` and decodes back to `(sim, t)` |
| `Simulation.UnflattenRoundTrip` | test_bandits.py:84-92 | every row index in range decodes to a `(sim, t)` in range that encodes back to it, so each row is written exactly once |
| `Simulation.RunStepAreDivMod` | test_bandits.py:90 | the run and step of a row index are its quotient and remainder by `horizon`, plus one |
| `Simulation.ZeroRows` | test_bandits.py:78-82 | the five buffers are preallocated as `n` zero rows |
| `Simulation.PerArmIsArmRewards` | test_bandits.py:94-106 | the history built by feeding a run's rows back holds, for each arm, exactly the rewards of the rows that chose it, in order |
| `Simulation.PerArmStep` | test_bandits.py:106 | feeding one more row back adds its reward to its own arm's history only |
| `Simulation.ReplaysNothing` | test_bandits.py:86 | a freshly initialised algorithm agrees with the empty run |
| `Simulation.RunCountsCount` | test_bandits.py:94-106 | the counts computed from a run's rows give, for each arm, the number of rows that chose it |
| `Simulation.ReplayedState` | test_bandits.py:94-106 | an algorithm in step with a run holds exactly the counts and mean rewards computed from the run's rows |
| `Simulation.ChosenStep` | test_bandits.py:94-96 | a run whose every row records the arm selected after its earlier rows stays so when a row recording the arm selected after the whole run is appended |
| `Simulation.PickedFromState` | test_bandits.py:94-96 | the arm `select_arm` returns from the algorithm's state is the arm selected from the counts and means of the run's earlier rows |
| `Simulation.StepChosen` | test_bandits.py:94-96 | writing the row with the selected arm, plus one, into the trace keeps every row of the run recording its selection |
| `Simulation.ReplaysStep` | test_bandits.py:94-106 | one select-draw-update step keeps the counts and histories in step with the run's rows, and the counts' total equal to their number |
| `Simulation.RunTraceSums` | test_bandits.py:101-104 | each cumulative entry is the sum of the rewards of its own run up to that step, never of an earlier run |
| `Simulation.FlatIndexOfRun` | test_bandits.py:90 | step `t` of run `sim` sits `t - 1` rows after the run's first row |
| `Simulation.RunsDoneRecorded` | test_bandits.py:84-106 | in the completed trace, the row of `(sim, t)` holds `sim`, `t`, a 1-based arm in range, that arm's draw and the run's total so far; the arm, minus one, is the one `select_arm` picks given the counts and mean rewards of that run's earlier rows and the step's random values |
| `Simulation.RunSelected` | test_bandits.py:94-96 | step `t` of a run whose rows record their selections holds, minus one, the arm selected after the run's first `t - 1` rows |
| `Simulation.AllRecorded` | test_bandits.py:84-106 | the same holds for every step of every run, arm selection included |
| `Simulation.RowNumbers` | test_bandits.py:90-92 | row `i` of the completed trace holds the run and step that `i` decodes to, within `1..num_sims` and `1..horizon` |
| `Simulation.SimNumsSorted` | test_bandits.py:84-91 | the `sim_nums` column never decreases |
| `Simulation.StepIndex` | test_bandits.py:90 | `(sim - 1) * horizon + t - 1` is `t - 1` rows after the start of run `sim` |
| `Simulation.ChooseRow` | test_bandits.py:90-104 | the row for step `t`: run and step numbers, the selected arm plus one (in range), its Bernoulli draw, and the reward itself at `t == 1` or else the previous row's total plus the reward; with the row written, every row of the run so far records, minus one, the arm selected from the counts and means of the rows before it and its step's random values; under UCB1 the first steps choose arms 1, 2, ... in turn |
| `Simulation.StepKeeps` | test_bandits.py:91-106 | writing that row extends the run in the trace by one step, leaves earlier rows alone, and after the update the algorithm agrees with the longer run |
| `Simulation.PlayStep` | test_bandits.py:88-106 | one pass of the inner loop writes its row, whose arm is the one selected after the run's earlier rows, keeps earlier rows, and keeps the algorithm valid and in step with the run |
| `Simulation.PlayRun` | test_bandits.py:85-106 | a run resets the algorithm and fills its `horizon` rows, each recording the arm selected after the rows before it in the run; afterwards the counts sum to `horizon` and the histories are those of this run's rows only |
| `Simulation.PlayRuns` | test_bandits.py:84-106 | the outer loop fills the rows of runs `1..num_sims` in order, each row recording the arm selected after its run's earlier rows, and afterwards the counts sum to `horizon` |
| `Simulation.TestAlgorithm` | test_bandits.py:68-108 | `_test_algorithm` returns `num_sims * horizon` rows in which every `(sim, t)` is recorded as above, its arm being the one `select_arm` picks from that run's earlier rows, and leaves the algorithm valid with counts summing to `horizon` |

## Left out

- Writing the trace to TSV files (`output_results` and the writing loop of `test_epsilongreedy`) is I/O, and the model has none.
- Python's generator (`random.random`, `random.randrange`, `random.seed`) is not modelled. The values it would produce are inputs: `draw` and `exploreArm` of `SelectArm`, and the `draws` sequence of `TestAlgorithm`. Seeded reproducibility is not modelled.
- `math.sqrt` and `math.log` are not modelled. The UCB bonus is the parameter `bonus`, and the annealing epsilon is the parameter `schedule`, applied at `t = sum(counts) + 1`.
- IEEE floating-point rounding is not modelled: values are exact reals, so the running mean is exactly the arithmetic mean.
- The statistical claims of the docstrings are not modelled. Examples are that the best arm is chosen more often over time, or that annealing explores less.
- The unittest drivers (`test_ucb1`, `test_epsilongreedy`, `test_annealing_epsilongreedy`) and `make_arms` are not modelled.
- The constructors' optional `counts` and `values` arguments are not modelled. Lists of mismatched lengths would break the invariant, so a new object starts with empty lists and the invariant is established by `Initialize`.
- `Bandits.UCB1.Update`, `Bandits.EpsilonGreedy.Update`: an arm outside `[0, len(counts))` raises in Python, so the model requires the arm to be in range. Python's negative indices, which would update an arm counted from the end, are not modelled.
- `Simulation.TestAlgorithm` requires a non-empty list of arms when at least one step is played. In Python, `select_arm` on empty lists raises (the `max` of an empty list, or `randrange(0)`).
- `Simulation.TestAlgorithm` requires every exploration arm in `draws` to lie in `[0, len(arms))`. `randrange(len(values))` always gives such an arm.
- `Simulation.TestAlgorithm` returns one sequence of rows rather than five lists. The rows are written by replacing the whole row once per step, not column by column.
- `Simulation.TestAlgorithm` does not state that the final histories are those of the last run's rows. `Simulation.PlayRun` states it for each run, and `Simulation.TestAlgorithm` keeps only the consequence that the counts sum to `horizon`.
- `Bandits.SelectArm` states EpsilonGreedy's choice through the same two cases as `Bandits.EpsilonGreedy.SelectArm`. It does not restate UCB1's scoring loop, which `Bandits.UCB1.SelectArm` proves equal to `UcbChoice`.
