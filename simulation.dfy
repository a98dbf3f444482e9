/** Model of the Monte-Carlo simulation in test_bandits.py: the Bernoulli reward
    source and `_test_algorithm`, which plays `numSims` independent runs of
    `horizon` pulls each and records a flat five-column trace.

    Python's global generator is replaced by a sequence `draws` whose entry
    `i` holds, for the step at flat index `i`, the random values that step
    would consume: the exploration draw and the exploration arm of
    EpsilonGreedy and the uniform sample behind the Bernoulli arm's draw.

    The five parallel lists of the trace are one sequence of `Row`s, row `i`
    holding entry `i` of every list. */
module Simulation {
  import opened Bandits

  /** An arm that pays 1.0 with probability `p` and 0.0 otherwise. */
  datatype BernoulliArm = BernoulliArm(p: real)
  {
    /** `draw`, given the uniform sample `u` it would take from the generator. */
    function Draw(u: real): (reward: real)
      ensures reward == 0.0 || reward == 1.0
      ensures reward == 1.0 <==> u <= p
    {
      if u > p then 0.0 else 1.0
    }
  }

  /** The random values consumed by one simulation step. */
  datatype StepDraws = StepDraws(explore: real, exploreArm: int, reward: real)

  // ---------------------------------------------------------------------
  // The flat trace index
  // ---------------------------------------------------------------------

  /** Where step `t` of run `sim` (both 1-based) is stored. */
  function FlatIndex(sim: int, t: int, horizon: int): int
  {
    (sim - 1) * horizon + t - 1
  }

  /** The flat index at which run `s + 1` starts, by repeated addition. */
  function RunStart(s: nat, horizon: nat): nat
  {
    if s == 0 then 0 else RunStart(s - 1, horizon) + horizon
  }

  /** The 1-based run that flat index `i` belongs to. */
  function RunNumber(i: int, horizon: nat): int
    requires horizon > 0
    decreases i
  {
    if i < horizon then 1 else RunNumber(i - horizon, horizon) + 1
  }

  /** The 1-based step within its run of flat index `i`. */
  function StepNumber(i: int, horizon: nat): (t: int)
    requires horizon > 0
    ensures t <= horizon
    ensures i >= 0 ==> 1 <= t <= i + 1
    decreases i
  {
    if i < horizon then i + 1 else StepNumber(i - horizon, horizon)
  }

  lemma {:induction false} RunStartIsProduct(s: nat, horizon: nat)
    ensures RunStart(s, horizon) == s * horizon
  {
    if s > 0 {
      RunStartIsProduct(s - 1, horizon);
      assert s * horizon == (s - 1) * horizon + horizon;
    }
  }

  lemma {:induction false} RunStartGrows(s: nat, numSims: nat, horizon: nat)
    requires s < numSims
    ensures RunStart(s, horizon) + horizon <= RunStart(numSims, horizon)
    decreases numSims - s
  {
    if s + 1 < numSims {
      RunStartGrows(s + 1, numSims, horizon);
    }
  }

  /** Step `tt + 1` of run `s + 1` decodes back to that run and step. */
  lemma {:induction false} DecodeRunStart(s: nat, tt: int, horizon: nat)
    requires 0 <= tt < horizon
    ensures RunNumber(RunStart(s, horizon) + tt, horizon) == s + 1
    ensures StepNumber(RunStart(s, horizon) + tt, horizon) == tt + 1
  {
    if s > 0 {
      DecodeRunStart(s - 1, tt, horizon);
    }
  }

  /** Every non-negative index is the start of its run plus its step offset. */
  lemma {:induction false} EncodeRunStep(i: int, horizon: nat)
    requires i >= 0 && horizon > 0
    ensures RunNumber(i, horizon) >= 1
    ensures RunStart(RunNumber(i, horizon) - 1, horizon) + StepNumber(i, horizon) - 1 == i
    decreases i
  {
    if i >= horizon {
      EncodeRunStep(i - horizon, horizon);
    }
  }

  /** Every (run, step) pair lands inside the trace and decodes back to itself. */
  lemma FlatIndexRoundTrip(sim: int, t: int, numSims: nat, horizon: nat)
    requires 1 <= sim <= numSims && 1 <= t <= horizon
    ensures 0 <= FlatIndex(sim, t, horizon) < numSims * horizon
    ensures RunNumber(FlatIndex(sim, t, horizon), horizon) == sim
    ensures StepNumber(FlatIndex(sim, t, horizon), horizon) == t
  {
    RunStartIsProduct(sim - 1, horizon);
    RunStartIsProduct(numSims, horizon);
    RunStartGrows(sim - 1, numSims, horizon);
    DecodeRunStart(sim - 1, t - 1, horizon);
  }

  /** Every slot of the trace belongs to a (run, step) pair in range, which
      encodes back to it: with FlatIndexRoundTrip, the flat index is a
      bijection onto `[0, numSims * horizon)`. */
  lemma UnflattenRoundTrip(i: int, numSims: nat, horizon: nat)
    requires horizon > 0
    requires 0 <= i < numSims * horizon
    ensures 1 <= RunNumber(i, horizon) <= numSims
    ensures 1 <= StepNumber(i, horizon) <= horizon
    ensures FlatIndex(RunNumber(i, horizon), StepNumber(i, horizon), horizon) == i
  {
    EncodeRunStep(i, horizon);
    var s := RunNumber(i, horizon) - 1;
    RunStartIsProduct(s, horizon);
    RunStartIsProduct(numSims, horizon);
  }

  /** The run and step of an index are its Euclidean quotient and remainder. */
  lemma RunStepAreDivMod(i: int, horizon: nat)
    requires i >= 0 && horizon > 0
    ensures RunNumber(i, horizon) == i / horizon + 1
    ensures StepNumber(i, horizon) == i % horizon + 1
  {
    EncodeRunStep(i, horizon);
    RunStartIsProduct(RunNumber(i, horizon) - 1, horizon);
    DivModUnique(RunNumber(i, horizon) - 1, horizon, StepNumber(i, horizon) - 1);
  }

  lemma DivModUnique(q: int, h: int, r: int)
    requires q >= 0 && h > 0 && 0 <= r < h
    ensures (q * h + r) / h == q && (q * h + r) % h == r
  {
    var x := q * h + r;
    var d := x / h - q;
    assert d * h == r - x % h;
    if d != 0 {
      assert false;
    }
  }

  // ---------------------------------------------------------------------
  // The trace
  // ---------------------------------------------------------------------

  /** Row `i` of the trace: entry `i` of each of the five lists
      `_test_algorithm` returns. */
  datatype Row = Row(simNum: int, time: int, chosenArm: int, reward: real, cumulativeReward: real)

  /** The lists `_test_algorithm` preallocates: `n` zero rows. */
  function ZeroRows(n: nat): (rows: seq<Row>)
    ensures |rows| == n
    ensures forall i :: 0 <= i < n ==> rows[i] == Row(0, 0, 0, 0.0, 0.0)
  {
    seq(n, _ => Row(0, 0, 0, 0.0, 0.0))
  }

  /** Writing row `index` leaves the rows before it alone and extends the
      stretch that starts at `base` by that row. */
  /** Two traces that agree up to row `n` agree on every slice before it. */
  lemma SliceWithin(a: seq<Row>, b: seq<Row>, first: int, last: int, n: int)
    requires 0 <= first <= last <= n <= |a| && n <= |b| && a[..n] == b[..n]
    ensures a[first .. last] == b[first .. last]
  {
    assert a[first .. last] == a[..n][first .. last] && b[first .. last] == b[..n][first .. last];
  }

  lemma WriteRow(rows: seq<Row>, index: int, row: Row, base: int)
    requires 0 <= base <= index < |rows|
    ensures |rows[index := row]| == |rows|
    ensures rows[index := row][..index] == rows[..index]
    ensures rows[index := row][base .. index + 1] == rows[base .. index] + [row]
  {
  }

  // ---------------------------------------------------------------------
  // What a run's rows say about the algorithm
  // ---------------------------------------------------------------------

  /** The per-arm reward history that feeding the rows of a run back to a
      freshly initialised algorithm builds, one `update` per row. */
  function PerArm(nArms: nat, run: seq<Row>): (h: seq<seq<real>>)
    ensures |h| == nArms
  {
    if run == [] then NoHistory(nArms)
    else
      var n := |run| - 1;
      var h := PerArm(nArms, run[..n]);
      var arm := run[n].chosenArm - 1;
      if 0 <= arm < nArms then h[arm := h[arm] + [run[n].reward]] else h
  }

  /** The rewards that the rows choosing the 0-based arm `a` received, in order. */
  function ArmRewards(run: seq<Row>, a: int): seq<real>
  {
    if run == [] then []
    else
      var n := |run| - 1;
      ArmRewards(run[..n], a) + (if run[n].chosenArm - 1 == a then [run[n].reward] else [])
  }

  /** The sum of the rewards in some rows. */
  function RunTotal(run: seq<Row>): real
  {
    if run == [] then 0.0 else RunTotal(run[..|run| - 1]) + run[|run| - 1].reward
  }

  /** The history built step by step holds, for every arm, exactly the
      rewards of the rows that chose it, in the order they came. */
  lemma {:induction false} PerArmIsArmRewards(nArms: nat, run: seq<Row>, a: int)
    requires 0 <= a < nArms
    ensures PerArm(nArms, run)[a] == ArmRewards(run, a)
  {
    if run != [] {
      PerArmIsArmRewards(nArms, run[..|run| - 1], a);
    }
  }

  /** One more row adds its reward to the history of its own arm only. */
  lemma PerArmStep(nArms: nat, run: seq<Row>, row: Row)
    requires 1 <= row.chosenArm <= nArms
    ensures PerArm(nArms, run + [row])
         == PerArm(nArms, run)[row.chosenArm - 1 := PerArm(nArms, run)[row.chosenArm - 1] + [row.reward]]
  {
    assert (run + [row])[..|run|] == run;
  }

  /** The counts and histories of an algorithm that has seen exactly the
      rows `run` of the current run: the counts sum to their number, the
      per-arm histories are theirs, and under UCB1 the counts are still
      those of the priming phase while the steps are no more than the arms. */
  ghost predicate Replays(counts: seq<int>, history: seq<seq<real>>, ucb: bool, nArms: nat, run: seq<Row>)
  {
    && |counts| == nArms
    && |run| == Sum(counts)
    && history == PerArm(nArms, run)
    && (ucb && |run| <= nArms ==> counts == Primed(nArms, |run|))
  }

  /** The freshly initialised algorithm has seen nothing. */
  lemma ReplaysNothing(nArms: nat, ucb: bool)
    ensures Replays(ZeroCounts(nArms), NoHistory(nArms), ucb, nArms, [])
  {
    SumZeroCounts(nArms);
    assert ZeroCounts(nArms) == Primed(nArms, 0);
  }

  /** Feeding back one more row keeps the algorithm in step with the run. */
  lemma ReplaysStep(counts: seq<int>, history: seq<seq<real>>, ucb: bool, nArms: nat, run: seq<Row>, row: Row)
    requires Replays(counts, history, ucb, nArms, run)
    requires 1 <= row.chosenArm <= nArms
    requires ucb && |run| < nArms ==> row.chosenArm == |run| + 1
    ensures Replays(CountAfter(counts, row.chosenArm - 1),
                    history[row.chosenArm - 1 := history[row.chosenArm - 1] + [row.reward]],
                    ucb, nArms, run + [row])
  {
    SumCountAfter(counts, row.chosenArm - 1);
    PerArmStep(nArms, run, row);
    if ucb && |run| < nArms {
      PrimingStep(nArms, |run|, seq(nArms, _ => 0.0), (_, _) => 0.0);
    }
  }

  /** How many of the rows `run` chose each 0-based arm. */
  function RunCounts(nArms: nat, run: seq<Row>): (c: seq<int>)
    ensures |c| == nArms
  {
    if run == [] then ZeroCounts(nArms)
    else
      var n := |run| - 1;
      var c := RunCounts(nArms, run[..n]);
      var arm := run[n].chosenArm - 1;
      if 0 <= arm < nArms then CountAfter(c, arm) else c
  }

  /** Entry `a` of the run's counts is the number of its rows that chose `a`. */
  lemma {:induction false} RunCountsCount(nArms: nat, run: seq<Row>, a: int)
    requires 0 <= a < nArms
    ensures RunCounts(nArms, run)[a] == |ArmRewards(run, a)|
  {
    if run != [] {
      RunCountsCount(nArms, run[..|run| - 1], a);
    }
  }

  /** The mean reward of the rows `run` that chose each 0-based arm. */
  function RunValues(nArms: nat, run: seq<Row>): (v: seq<real>)
    ensures |v| == nArms
  {
    seq(nArms, a => Mean(ArmRewards(run, a)))
  }

  /** An algorithm in step with the rows `run` holds, for each arm, the
      number of those rows that chose it and the mean of their rewards. */
  lemma ReplayedState(counts: seq<int>, values: seq<real>, history: seq<seq<real>>,
                      ucb: bool, nArms: nat, run: seq<Row>)
    requires Tracks(counts, values, history) && Replays(counts, history, ucb, nArms, run)
    ensures counts == RunCounts(nArms, run) && values == RunValues(nArms, run)
  {
    forall a | 0 <= a < nArms
      ensures counts[a] == RunCounts(nArms, run)[a] && values[a] == RunValues(nArms, run)[a]
    {
      PerArmIsArmRewards(nArms, run, a);
      RunCountsCount(nArms, run, a);
    }
  }

  /** Row `row` records the arm rule `p` selects after the rows `prefix`
      of its run, given the step's random values `d`. */
  ghost predicate Picked(p: Policy, nArms: nat, prefix: seq<Row>, row: Row, d: StepDraws)
  {
    && nArms > 0
    && row.chosenArm - 1 == Choice(p, RunCounts(nArms, prefix), RunValues(nArms, prefix), d.explore, d.exploreArm)
  }

  /** Every row of `run` records the arm selected after the rows before it,
      step `k` drawing the random values `ds[k]`. */
  ghost predicate Chosen(p: Policy, nArms: nat, run: seq<Row>, ds: seq<StepDraws>)
  {
    && |ds| == |run|
    && forall k {:trigger Picked(p, nArms, run[..k], run[k], ds[k])} ::
         0 <= k < |run| ==> Picked(p, nArms, run[..k], run[k], ds[k])
  }

  /** A row recording the arm selected after `run` extends a recorded run. */
  lemma ChosenStep(p: Policy, nArms: nat, run: seq<Row>, ds: seq<StepDraws>, row: Row, d: StepDraws)
    requires Chosen(p, nArms, run, ds) && Picked(p, nArms, run, row, d)
    ensures Chosen(p, nArms, run + [row], ds + [d])
  {
    var run', ds' := run + [row], ds + [d];
    forall k | 0 <= k < |run'|
      ensures Picked(p, nArms, run'[..k], run'[k], ds'[k])
    {
      if k < |run| {
        assert run'[..k] == run[..k] && run'[k] == run[k] && ds'[k] == ds[k];
        assert Picked(p, nArms, run[..k], run[k], ds[k]);
      } else {
        assert run'[..k] == run;
      }
    }
  }

  // ---------------------------------------------------------------------
  // Runs in the trace
  // ---------------------------------------------------------------------

  /** Row `i` holds step `i - base + 1` of run `sim` as `_test_algorithm`
      writes it: the run and step numbers, a 1-based arm in range, that
      arm's Bernoulli draw, and the running total of the run's rewards
      (the reward itself at the run's first row). Under UCB1 the priming
      steps choose arms 1, 2, ... in turn. */
  ghost predicate RowOk(rows: seq<Row>, arms: seq<BernoulliArm>, draws: seq<StepDraws>,
                        sim: int, base: int, i: int, ucb: bool)
  {
    && 0 <= base <= i < |rows|
    && rows[i].simNum == sim && rows[i].time == i - base + 1
    && 1 <= rows[i].chosenArm <= |arms|
    && i < |draws| && rows[i].reward == arms[rows[i].chosenArm - 1].Draw(draws[i].reward)
    && rows[i].cumulativeReward
         == (if i == base then rows[i].reward else rows[i - 1].cumulativeReward + rows[i].reward)
    && (ucb && i - base < |arms| ==> rows[i].chosenArm == i - base + 1)
  }

  /** Rows `base` up to `end` hold the first `end - base` steps of run `sim`. */
  ghost predicate RunTrace(rows: seq<Row>, arms: seq<BernoulliArm>, draws: seq<StepDraws>,
                           sim: int, base: int, end: int, ucb: bool)
    decreases end - base
  {
    if end <= base then 0 <= base == end <= |rows|
    else RunTrace(rows, arms, draws, sim, base, end - 1, ucb) && RowOk(rows, arms, draws, sim, base, end - 1, ucb)
  }

  /** A run's rows depend only on the rows up to its last one. */
  lemma {:induction false} RunTraceFrame(a: seq<Row>, b: seq<Row>, arms: seq<BernoulliArm>,
                                         draws: seq<StepDraws>, sim: int, base: int, end: int, ucb: bool)
    requires RunTrace(a, arms, draws, sim, base, end, ucb)
    requires end <= |b| && a[..end] == b[..end]
    ensures RunTrace(b, arms, draws, sim, base, end, ucb)
    decreases end - base
  {
    if end > base {
      assert a[..end - 1] == a[..end][..end - 1] && b[..end - 1] == b[..end][..end - 1];
      RunTraceFrame(a, b, arms, draws, sim, base, end - 1, ucb);
      assert a[end - 1] == a[..end][end - 1] && b[end - 1] == b[..end][end - 1];
      if end - 1 > base {
        assert a[end - 2] == a[..end][end - 2] && b[end - 2] == b[..end][end - 2];
      }
    }
  }

  lemma {:induction false} RunTraceRow(rows: seq<Row>, arms: seq<BernoulliArm>, draws: seq<StepDraws>,
                                       sim: int, base: int, end: int, i: int, ucb: bool)
    requires RunTrace(rows, arms, draws, sim, base, end, ucb) && base <= i < end
    ensures RowOk(rows, arms, draws, sim, base, i, ucb)
    decreases end - base
  {
    if i < end - 1 {
      RunTraceRow(rows, arms, draws, sim, base, end - 1, i, ucb);
    }
  }

  /** Each cumulative entry is the total of the rewards of its own run up
      to that step, and nothing from an earlier run. */
  lemma {:induction false} RunTraceSums(rows: seq<Row>, arms: seq<BernoulliArm>, draws: seq<StepDraws>,
                                        sim: int, base: int, end: int, i: int, ucb: bool)
    requires RunTrace(rows, arms, draws, sim, base, end, ucb) && base <= i < end
    ensures rows[i].cumulativeReward == RunTotal(rows[base .. i + 1])
    decreases i
  {
    RunTraceRow(rows, arms, draws, sim, base, end, i, ucb);
    var run := rows[base .. i + 1];
    if i == base {
      assert run[..0] == [];
    } else {
      RunTraceSums(rows, arms, draws, sim, base, end, i - 1, ucb);
      assert run[..i - base] == rows[base .. i];
    }
  }

  /** Runs 1 up to `s` occupy their rows of the trace, in order. */
  ghost predicate RunsDone(rows: seq<Row>, arms: seq<BernoulliArm>, draws: seq<StepDraws>,
                           horizon: nat, s: nat, ucb: bool)
  {
    if s == 0 then true
    else
      && RunsDone(rows, arms, draws, horizon, s - 1, ucb)
      && RunTrace(rows, arms, draws, s, RunStart(s - 1, horizon), RunStart(s, horizon), ucb)
  }

  lemma {:induction false} RunsDoneFrame(a: seq<Row>, b: seq<Row>, arms: seq<BernoulliArm>,
                                         draws: seq<StepDraws>, horizon: nat, s: nat, ucb: bool)
    requires RunsDone(a, arms, draws, horizon, s, ucb)
    requires RunStart(s, horizon) <= |b| && a[..RunStart(s, horizon)] == b[..RunStart(s, horizon)]
    ensures RunsDone(b, arms, draws, horizon, s, ucb)
  {
    if s > 0 {
      var n := RunStart(s, horizon);
      var m := RunStart(s - 1, horizon);
      assert a[..m] == a[..n][..m] && b[..m] == b[..n][..m];
      RunsDoneFrame(a, b, arms, draws, horizon, s - 1, ucb);
      RunTraceFrame(a, b, arms, draws, s, m, n, ucb);
    }
  }

  lemma {:induction false} RunsDoneRun(rows: seq<Row>, arms: seq<BernoulliArm>, draws: seq<StepDraws>,
                                       horizon: nat, s: nat, sim: nat, ucb: bool)
    requires RunsDone(rows, arms, draws, horizon, s, ucb) && 1 <= sim <= s
    ensures RunTrace(rows, arms, draws, sim, RunStart(sim - 1, horizon), RunStart(sim, horizon), ucb)
  {
    if sim < s {
      RunsDoneRun(rows, arms, draws, horizon, s - 1, sim, ucb);
    }
  }

  /** The rows of run `sim` record, step by step, the arms rule `p` selects. */
  ghost predicate RunChosen(rows: seq<Row>, nArms: nat, draws: seq<StepDraws>, horizon: nat, sim: nat, p: Policy)
  {
    && sim >= 1
    && RunStart(sim, horizon) <= |rows| && RunStart(sim, horizon) <= |draws|
    && Chosen(p, nArms, rows[RunStart(sim - 1, horizon) .. RunStart(sim, horizon)],
              draws[RunStart(sim - 1, horizon) .. RunStart(sim, horizon)])
  }

  lemma RunChosenFrame(a: seq<Row>, b: seq<Row>, nArms: nat, draws: seq<StepDraws>,
                       horizon: nat, sim: nat, n: nat, p: Policy)
    requires RunChosen(a, nArms, draws, horizon, sim, p)
    requires RunStart(sim, horizon) <= n <= |a| && n <= |b| && a[..n] == b[..n]
    ensures RunChosen(b, nArms, draws, horizon, sim, p)
  {
    SliceWithin(a, b, RunStart(sim - 1, horizon), RunStart(sim, horizon), n);
  }

  /** A run played into the rows after the first `s` runs, leaving those
      rows as they were, makes `s + 1` runs that record the selected arms. */
  lemma RunsChosenNext(prev: seq<Row>, rows: seq<Row>, nArms: nat, draws: seq<StepDraws>,
                       horizon: nat, s: nat, start: nat, p: Policy)
    requires start == RunStart(s, horizon) && start <= |prev| == |rows| && rows[..start] == prev[..start]
    requires start + horizon <= |rows| && start + horizon <= |draws|
    requires forall sim :: 1 <= sim <= s ==> RunChosen(prev, nArms, draws, horizon, sim, p)
    requires Chosen(p, nArms, rows[start .. start + horizon], draws[start .. start + horizon])
    ensures forall sim :: 1 <= sim <= s + 1 ==> RunChosen(rows, nArms, draws, horizon, sim, p)
  {
    forall sim | 1 <= sim <= s + 1
      ensures RunChosen(rows, nArms, draws, horizon, sim, p)
    {
      if sim <= s {
        if sim < s {
          RunStartGrows(sim, s, horizon);
        }
        RunChosenFrame(prev, rows, nArms, draws, horizon, sim, start, p);
      } else {
        assert RunStart(sim, horizon) == start + horizon;
      }
    }
  }

  /** The row of step `t` of run `sim` as the completed trace holds it: both
      numbers, an arm in range and its draw, and the total of that run's
      rewards so far; the arm is the one rule `p` selects given the counts
      and mean rewards of the run's earlier rows and the step's random
      values; under UCB1 the first steps of every run choose arms 1, 2, ...
      in turn. */
  ghost predicate StepRecorded(rows: seq<Row>, arms: seq<BernoulliArm>, draws: seq<StepDraws>,
                               horizon: nat, sim: int, t: int, p: Policy)
  {
    && StepAt(rows, arms, draws, FlatIndex(sim, 1, horizon), FlatIndex(sim, t, horizon), sim, t, p.UcbRule?)
    && Selected(rows, |arms|, draws, FlatIndex(sim, 1, horizon), FlatIndex(sim, t, horizon), p)
  }

  /** Row `i` records the arm rule `p` selects after the rows `first` up to
      `i - 1` of its run, given the random values of step `i`. */
  ghost predicate Selected(rows: seq<Row>, nArms: nat, draws: seq<StepDraws>, first: int, i: int, p: Policy)
    requires 0 <= first <= i < |rows| && i < |draws| && nArms > 0
  {
    Picked(p, nArms, rows[first .. i], rows[i], draws[i])
  }

  /** Row `i` holds step `t` of run `sim`, whose first row is `first`. */
  ghost predicate StepAt(rows: seq<Row>, arms: seq<BernoulliArm>, draws: seq<StepDraws>,
                         first: int, i: int, sim: int, t: int, ucb: bool)
  {
    && 0 <= first <= i < |rows|
    && rows[i].simNum == sim && rows[i].time == t
    && 1 <= rows[i].chosenArm <= |arms|
    && i < |draws| && rows[i].reward == arms[rows[i].chosenArm - 1].Draw(draws[i].reward)
    && rows[i].cumulativeReward == RunTotal(rows[first .. i + 1])
    && (ucb && t <= |arms| ==> rows[i].chosenArm == t)
  }

  /** Step `t` of run `sim` is stored `t - 1` rows after the run's first row. */
  lemma FlatIndexOfRun(sim: int, t: int, horizon: nat)
    requires sim >= 1
    ensures FlatIndex(sim, t, horizon) == RunStart(sim - 1, horizon) + t - 1
  {
    RunStartIsProduct(sim - 1, horizon);
  }

  /** Each row of a run in the trace is recorded. */
  lemma RunTraceStepAt(rows: seq<Row>, arms: seq<BernoulliArm>, draws: seq<StepDraws>,
                       sim: int, base: int, end: int, i: int, t: int, ucb: bool)
    requires RunTrace(rows, arms, draws, sim, base, end, ucb) && base <= i < end && i == base + t - 1
    ensures StepAt(rows, arms, draws, base, i, sim, t, ucb)
  {
    RunTraceRow(rows, arms, draws, sim, base, end, i, ucb);
    RunTraceSums(rows, arms, draws, sim, base, end, i, ucb);
  }

  lemma RunsDoneRecorded(rows: seq<Row>, arms: seq<BernoulliArm>, draws: seq<StepDraws>,
                         numSims: nat, horizon: nat, sim: int, t: int, p: Policy)
    requires RunsDone(rows, arms, draws, horizon, numSims, p.UcbRule?)
    requires forall s :: 1 <= s <= numSims ==> RunChosen(rows, |arms|, draws, horizon, s, p)
    requires 1 <= sim <= numSims && 1 <= t <= horizon
    ensures StepRecorded(rows, arms, draws, horizon, sim, t, p)
  {
    var base := RunStart(sim - 1, horizon);
    var i := FlatIndex(sim, t, horizon);
    FlatIndexOfRun(sim, 1, horizon);
    FlatIndexOfRun(sim, t, horizon);
    RunsDoneRun(rows, arms, draws, horizon, numSims, sim, p.UcbRule?);
    RunTraceStepAt(rows, arms, draws, sim, base, RunStart(sim, horizon), i, t, p.UcbRule?);
    RunSelected(rows, |arms|, draws, horizon, sim, t, p);
  }

  /** Step `t` of a run that records the selected arms holds the arm
      selected after the run's earlier rows. */
  lemma RunSelected(rows: seq<Row>, nArms: nat, draws: seq<StepDraws>, horizon: nat, sim: int, t: int, p: Policy)
    requires sim >= 1 && RunChosen(rows, nArms, draws, horizon, sim, p) && 1 <= t <= horizon
    ensures FlatIndex(sim, t, horizon) < |rows| && FlatIndex(sim, t, horizon) < |draws| && nArms > 0
    ensures Selected(rows, nArms, draws, FlatIndex(sim, 1, horizon), FlatIndex(sim, t, horizon), p)
  {
    var first, last := RunStart(sim - 1, horizon), RunStart(sim, horizon);
    FlatIndexOfRun(sim, 1, horizon);
    FlatIndexOfRun(sim, t, horizon);
    var run, ds := rows[first .. last], draws[first .. last];
    assert Picked(p, nArms, run[..t - 1], run[t - 1], ds[t - 1]);
    assert run[..t - 1] == rows[first .. first + t - 1];
  }

  /** Every step of every one of the `numSims` runs is recorded. */
  lemma AllRecorded(rows: seq<Row>, arms: seq<BernoulliArm>, draws: seq<StepDraws>,
                    numSims: nat, horizon: nat, p: Policy)
    requires RunsDone(rows, arms, draws, horizon, numSims, p.UcbRule?)
    requires forall s :: 1 <= s <= numSims ==> RunChosen(rows, |arms|, draws, horizon, s, p)
    ensures forall sim, t :: 1 <= sim <= numSims && 1 <= t <= horizon ==>
      StepRecorded(rows, arms, draws, horizon, sim, t, p)
  {
    forall sim, t | 1 <= sim <= numSims && 1 <= t <= horizon
      ensures StepRecorded(rows, arms, draws, horizon, sim, t, p)
    {
      RunsDoneRecorded(rows, arms, draws, numSims, horizon, sim, t, p);
    }
  }

  /** Read row by row, the completed trace labels row `i` with the run
      and step that the flat index `i` decodes to. */
  lemma RowNumbers(rows: seq<Row>, arms: seq<BernoulliArm>, draws: seq<StepDraws>,
                   numSims: nat, horizon: nat, p: Policy, i: int)
    requires horizon > 0 && |rows| == numSims * horizon && 0 <= i < |rows|
    requires forall sim, t :: 1 <= sim <= numSims && 1 <= t <= horizon ==>
      StepRecorded(rows, arms, draws, horizon, sim, t, p)
    ensures rows[i].simNum == RunNumber(i, horizon) && rows[i].time == StepNumber(i, horizon)
    ensures 1 <= rows[i].simNum <= numSims && 1 <= rows[i].time <= horizon
  {
    UnflattenRoundTrip(i, numSims, horizon);
    var sim, t := RunNumber(i, horizon), StepNumber(i, horizon);
    assert StepRecorded(rows, arms, draws, horizon, sim, t, p);
  }

  lemma {:induction false} RunNumberGrows(i: int, j: int, horizon: nat)
    requires horizon > 0 && 0 <= i <= j
    ensures RunNumber(i, horizon) <= RunNumber(j, horizon)
    decreases j
  {
    if i >= horizon {
      RunNumberGrows(i - horizon, j - horizon, horizon);
    } else {
      EncodeRunStep(j, horizon);
    }
  }

  /** The run numbers of the completed trace never decrease. */
  lemma SimNumsSorted(rows: seq<Row>, arms: seq<BernoulliArm>, draws: seq<StepDraws>,
                      numSims: nat, horizon: nat, p: Policy, i: int, j: int)
    requires horizon > 0 && |rows| == numSims * horizon && 0 <= i <= j < |rows|
    requires forall sim, t :: 1 <= sim <= numSims && 1 <= t <= horizon ==>
      StepRecorded(rows, arms, draws, horizon, sim, t, p)
    ensures rows[i].simNum <= rows[j].simNum
  {
    RowNumbers(rows, arms, draws, numSims, horizon, p, i);
    RowNumbers(rows, arms, draws, numSims, horizon, p, j);
    RunNumberGrows(i, j, horizon);
  }

  /** A run played into the rows after the first `s` runs, leaving those
      rows as they were, makes `s + 1` completed runs. */
  lemma RunsDoneNext(prev: seq<Row>, rows: seq<Row>, arms: seq<BernoulliArm>, draws: seq<StepDraws>,
                     horizon: nat, s: nat, start: nat, ucb: bool)
    requires start == RunStart(s, horizon) && start <= |prev| == |rows| && rows[..start] == prev[..start]
    requires RunsDone(prev, arms, draws, horizon, s, ucb)
    requires RunTrace(rows, arms, draws, s + 1, start, start + horizon, ucb)
    ensures RunsDone(rows, arms, draws, horizon, s + 1, ucb)
  {
    RunsDoneFrame(prev, rows, arms, draws, horizon, s, ucb);
  }

  // ---------------------------------------------------------------------
  // _test_algorithm
  // ---------------------------------------------------------------------

  /** The flat index of step `t` of run `sim`, as `_test_algorithm` computes it. */
  method StepIndex(sim: nat, t: int, horizon: nat, ghost base: nat) returns (index: int)
    requires sim >= 1 && base == RunStart(sim - 1, horizon)
    ensures index == base + t - 1
  {
    index := (sim - 1) * horizon + t - 1;
    RunStartIsProduct(sim - 1, horizon);
  }

  /** The first half of a pass of the inner loop of `_test_algorithm`:
      step `t` of run `sim` asks the algorithm for an arm, draws that arm
      and works out the row to store at `index`. Under UCB1 the priming
      steps choose the arms in turn. */
  method ChooseRow(algo: Algorithm, arms: seq<BernoulliArm>, sim: nat, t: nat, horizon: nat,
                   ghost base: nat, ghost end: nat, bonus: (int, int) -> real, schedule: int -> real, draws: seq<StepDraws>, rows: seq<Row>)
    returns (index: int, row: Row)
    requires sim >= 1 && base == RunStart(sim - 1, horizon) && 1 <= t <= horizon && end == base + t - 1
    requires base + horizon <= |rows|
    requires end < |draws| && 0 <= draws[end].exploreArm < |arms|
    requires algo.Valid() && |algo.Counts()| == |arms|
    requires algo.UCB? && t <= |arms| ==> algo.Counts() == Primed(|arms|, t - 1)
    requires Replays(algo.Counts(), algo.History(), algo.UCB?, |arms|, rows[base .. end])
    requires Chosen(algo.Rule(bonus, schedule), |arms|, rows[base .. end], draws[base .. end])
    ensures index == end
    ensures row.simNum == sim && row.time == t
    ensures 1 <= row.chosenArm <= |arms|
    ensures Chosen(algo.Rule(bonus, schedule), |arms|, rows[end := row][base .. end + 1], draws[base .. end + 1])
    ensures row.reward == arms[row.chosenArm - 1].Draw(draws[index].reward)
    ensures row.cumulativeReward
         == (if t == 1 then row.reward else rows[index - 1].cumulativeReward + row.reward)
    ensures algo.UCB? && t <= |arms| ==> row.chosenArm == t
  {
    index := StepIndex(sim, t, horizon, base);
    var d := draws[index];
    if algo.UCB? && t <= |arms| {
      PrimingStep(|arms|, t - 1, algo.Values(), bonus);
    }
    var chosenArm := SelectArm(algo, bonus, schedule, d.explore, d.exploreArm);
    var reward := arms[chosenArm].Draw(d.reward);
    var cumulativeReward;
    if t == 1 {
      cumulativeReward := reward;
    } else {
      cumulativeReward := rows[index - 1].cumulativeReward + reward;
    }
    // the trace numbers arms from 1
    row := Row(sim, t, chosenArm + 1, reward, cumulativeReward);
    StepChosen(algo.Rule(bonus, schedule), |arms|, algo.Counts(), algo.Values(), algo.History(), algo.UCB?,
               rows, draws, base, end, row);
  }

  /** Writing at row `end` the row that ChooseRow returns for step `t`
      extends run `sim` in the trace by that step, and feeding its reward
      back keeps the algorithm in step with the run. */
  lemma StepKeeps(rows: seq<Row>, next: seq<Row>, arms: seq<BernoulliArm>, draws: seq<StepDraws>,
                  sim: int, base: nat, end: nat, after: nat, t: nat, ucb: bool,
                  counts: seq<int>, history: seq<seq<real>>,
                  counts': seq<int>, history': seq<seq<real>>, row: Row)
    requires 1 <= t && end == base + t - 1 && end < |rows| && end < |draws|
    requires RunTrace(rows, arms, draws, sim, base, end, ucb)
    requires Replays(counts, history, ucb, |arms|, rows[base .. end])
    requires row.simNum == sim && row.time == t
    requires 1 <= row.chosenArm <= |arms|
    requires row.reward == arms[row.chosenArm - 1].Draw(draws[end].reward)
    requires row.cumulativeReward
          == (if t == 1 then row.reward else rows[end - 1].cumulativeReward + row.reward)
    requires ucb && t <= |arms| ==> row.chosenArm == t
    requires next == rows[end := row] && after == end + 1
    requires counts' == CountAfter(counts, row.chosenArm - 1)
    requires history' == history[row.chosenArm - 1 := history[row.chosenArm - 1] + [row.reward]]
    ensures |next| == |rows| && next[..base] == rows[..base]
    ensures RunTrace(next, arms, draws, sim, base, after, ucb)
    ensures Replays(counts', history', ucb, |arms|, next[base .. after])
  {
    WriteRow(rows, end, row, base);
    assert next[..base] == next[..end][..base];
    RunTraceFrame(rows, next, arms, draws, sim, base, end, ucb);
    ReplaysStep(counts, history, ucb, |arms|, rows[base .. end], row);
  }

  /** A row recording the arm selected from statistics that replay `run`
      records the arm selected after `run`. */
  lemma PickedFromState(p: Policy, nArms: nat, counts: seq<int>, values: seq<real>,
                        history: seq<seq<real>>, ucb: bool, run: seq<Row>, row: Row, d: StepDraws)
    requires Tracks(counts, values, history) && Replays(counts, history, ucb, nArms, run) && nArms > 0
    requires row.chosenArm - 1 == Choice(p, counts, values, d.explore, d.exploreArm)
    ensures Picked(p, nArms, run, row, d)
  {
    ReplayedState(counts, values, history, ucb, nArms, run);
  }

  /** Writing at row `end` a row that records the arm selected from
      statistics that replay the run's earlier rows extends a run that
      records its selections by one step. */
  lemma StepChosen(p: Policy, nArms: nat, counts: seq<int>, values: seq<real>, history: seq<seq<real>>,
                   ucb: bool, rows: seq<Row>, draws: seq<StepDraws>, base: nat, end: nat, row: Row)
    requires base <= end < |rows| && end < |draws| && nArms > 0
    requires Tracks(counts, values, history) && Replays(counts, history, ucb, nArms, rows[base .. end])
    requires Chosen(p, nArms, rows[base .. end], draws[base .. end])
    requires row.chosenArm - 1 == Choice(p, counts, values, draws[end].explore, draws[end].exploreArm)
    ensures Chosen(p, nArms, rows[end := row][base .. end + 1], draws[base .. end + 1])
  {
    PickedFromState(p, nArms, counts, values, history, ucb, rows[base .. end], row, draws[end]);
    assert draws[base .. end + 1] == draws[base .. end] + [draws[end]];
    ChosenStep(p, nArms, rows[base .. end], draws[base .. end], row, draws[end]);
    WriteRow(rows, end, row, base);
  }

  /** One pass of the inner loop of `_test_algorithm`: step `t` of run
      `sim`, whose rows start at `base`, is written at row `end` and its
      reward fed back to the algorithm. */
  method PlayStep(algo: Algorithm, arms: seq<BernoulliArm>, sim: nat, t: nat, horizon: nat,
                  ghost base: nat, ghost end: nat,
                  bonus: (int, int) -> real, schedule: int -> real, draws: seq<StepDraws>,
                  rows: seq<Row>)
    returns (next: seq<Row>, ghost after: nat)
    requires sim >= 1 && base == RunStart(sim - 1, horizon) && 1 <= t <= horizon && end == base + t - 1
    requires base + horizon <= |rows|
    requires end < |draws| && 0 <= draws[end].exploreArm < |arms|
    requires algo.Valid() && Replays(algo.Counts(), algo.History(), algo.UCB?, |arms|, rows[base .. end])
    requires RunTrace(rows, arms, draws, sim, base, end, algo.UCB?)
    requires Chosen(algo.Rule(bonus, schedule), |arms|, rows[base .. end], draws[base .. end])
    modifies algo.Obj()
    ensures |next| == |rows| && next[..base] == rows[..base]
    ensures after == end + 1
    ensures Chosen(algo.Rule(bonus, schedule), |arms|, next[base .. after], draws[base .. after])
    ensures algo.Valid() && Replays(algo.Counts(), algo.History(), algo.UCB?, |arms|, next[base .. after])
    ensures RunTrace(next, arms, draws, sim, base, after, algo.UCB?)
  {
    after := end + 1;
    var index, row := ChooseRow(algo, arms, sim, t, horizon, base, end, bonus, schedule, draws, rows);
    next := rows[index := row];
    ghost var counts, history := algo.Counts(), algo.History();
    Update(algo, row.chosenArm - 1, row.reward);
    StepKeeps(rows, next, arms, draws, sim, base, end, after, t, algo.UCB?,
              counts, history, algo.Counts(), algo.History(), row);
  }

  /** One pass of the outer loop of `_test_algorithm`: run `sim` resets the
      algorithm, then plays `horizon` pulls into the rows from `base`, the
      first row of the run. Earlier rows keep what they held. */
  method PlayRun(algo: Algorithm, arms: seq<BernoulliArm>, sim: nat, horizon: nat, ghost base: nat,
                 bonus: (int, int) -> real, schedule: int -> real, draws: seq<StepDraws>, rows: seq<Row>)
    returns (next: seq<Row>)
    requires algo.Valid()
    requires sim >= 1 && base == RunStart(sim - 1, horizon) && base + horizon <= |rows|
    requires horizon > 0 ==> |arms| > 0
    requires base + horizon <= |draws|
    requires forall i :: base <= i < base + horizon ==> 0 <= draws[i].exploreArm < |arms|
    modifies algo.Obj()
    ensures |next| == |rows| && next[..base] == rows[..base]
    ensures RunTrace(next, arms, draws, sim, base, base + horizon, algo.UCB?)
    ensures algo.Valid() && Sum(algo.Counts()) == horizon
    ensures algo.History() == PerArm(|arms|, next[base .. base + horizon])
    ensures Chosen(algo.Rule(bonus, schedule), |arms|, next[base .. base + horizon], draws[base .. base + horizon])
  {
    Initialize(algo, |arms|);
    ReplaysNothing(|arms|, algo.UCB?);
    next := rows;
    ghost var end := base;

    for tt := 0 to horizon
      invariant end == base + tt
      invariant |next| == |rows| && next[..base] == rows[..base]
      invariant algo.Valid() && Replays(algo.Counts(), algo.History(), algo.UCB?, |arms|, next[base .. end])
      invariant RunTrace(next, arms, draws, sim, base, end, algo.UCB?)
      invariant Chosen(algo.Rule(bonus, schedule), |arms|, next[base .. end], draws[base .. end])
    {
      next, end := PlayStep(algo, arms, sim, tt + 1, horizon, base, end, bonus, schedule, draws, next);
    }
  }

  /** The outer loop of `_test_algorithm`: runs 1 up to `numSims` in turn,
      each into its own `horizon` rows. */
  method PlayRuns(algo: Algorithm, arms: seq<BernoulliArm>, numSims: nat, horizon: nat,
                  bonus: (int, int) -> real, schedule: int -> real, draws: seq<StepDraws>, rows: seq<Row>)
    returns (next: seq<Row>)
    requires algo.Valid()
    requires numSims > 0 && horizon > 0 ==> |arms| > 0
    requires |rows| == |draws| == RunStart(numSims, horizon)
    requires forall i :: 0 <= i < |draws| ==> 0 <= draws[i].exploreArm < |arms|
    modifies algo.Obj()
    ensures |next| == |rows|
    ensures RunsDone(next, arms, draws, horizon, numSims, algo.UCB?)
    ensures forall sim :: 1 <= sim <= numSims ==> RunChosen(next, |arms|, draws, horizon, sim, algo.Rule(bonus, schedule))
    ensures algo.Valid()
    ensures numSims > 0 ==> Sum(algo.Counts()) == horizon
  {
    next := rows;
    ghost var start := 0;

    for s := 0 to numSims
      invariant start == RunStart(s, horizon) && |next| == |rows|
      invariant algo.Valid()
      invariant RunsDone(next, arms, draws, horizon, s, algo.UCB?)
      invariant forall sim :: 1 <= sim <= s ==> RunChosen(next, |arms|, draws, horizon, sim, algo.Rule(bonus, schedule))
      invariant s > 0 ==> Sum(algo.Counts()) == horizon
    {
      RunStartGrows(s, numSims, horizon);
      ghost var prev := next;
      next := PlayRun(algo, arms, s + 1, horizon, start, bonus, schedule, draws, next);
      RunsDoneNext(prev, next, arms, draws, horizon, s, start, algo.UCB?);
      RunsChosenNext(prev, next, |arms|, draws, horizon, s, start, algo.Rule(bonus, schedule));
      start := start + horizon;
    }
  }

  /** `_test_algorithm`: `numSims` runs of `horizon` pulls each, every run
      starting from a freshly initialised algorithm, recorded row by row in
      run-major order. */
  method TestAlgorithm(algo: Algorithm, arms: seq<BernoulliArm>, numSims: nat, horizon: nat,
                       bonus: (int, int) -> real, schedule: int -> real, draws: seq<StepDraws>)
    returns (rows: seq<Row>)
    requires algo.Valid()
    requires numSims > 0 && horizon > 0 ==> |arms| > 0
    requires |draws| == numSims * horizon
    requires forall i :: 0 <= i < |draws| ==> 0 <= draws[i].exploreArm < |arms|
    modifies algo.Obj()
    ensures |rows| == numSims * horizon
    ensures forall sim, t :: 1 <= sim <= numSims && 1 <= t <= horizon ==>
      StepRecorded(rows, arms, draws, horizon, sim, t, algo.Rule(bonus, schedule))
    ensures algo.Valid()
    ensures numSims > 0 ==> Sum(algo.Counts()) == horizon
  {
    rows := ZeroRows(numSims * horizon);
    RunStartIsProduct(numSims, horizon);
    rows := PlayRuns(algo, arms, numSims, horizon, bonus, schedule, draws, rows);
    AllRecorded(rows, arms, draws, numSims, horizon, algo.Rule(bonus, schedule));
  }
}
