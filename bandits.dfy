/** Model of bandits.py: the index-of-maximum helper, the per-arm statistics
    that both strategies keep, and the two strategies UCB1 and EpsilonGreedy.

    Rewards and running means are exact `real`s.  The transcendental parts of
    the source are parameters:
    - `bonus(total, count)` stands for `sqrt(2 * log(total) / count)`,
    - `schedule(t)` stands for the annealing epsilon `1 / log(t + 1e-7)`,
    and the pseudo-random draws are passed in as plain values. */
module Bandits {

  datatype Option<T> = None | Some(value: T)

  // ---------------------------------------------------------------------
  // max_index: `m = max(x)` followed by `x.index(m)`
  // ---------------------------------------------------------------------

  /** The largest element of a non-empty sequence (Python's `max`). */
  function Max(x: seq<real>): (m: real)
    requires |x| > 0
    ensures m in x
    ensures forall j :: 0 <= j < |x| ==> x[j] <= m
  {
    if |x| == 1 then x[0]
    else
      var rest := Max(x[1..]);
      if x[0] >= rest then x[0] else rest
  }

  /** Position of the first occurrence of `v` (Python's `list.index`). */
  function IndexOf<T(==)>(x: seq<T>, v: T): (i: nat)
    requires v in x
    ensures i < |x| && x[i] == v
    ensures forall j :: 0 <= j < i ==> x[j] != v
  {
    if x[0] == v then 0 else 1 + IndexOf(x[1..], v)
  }

  /** `max_index`: the first index that holds the maximum. */
  function MaxIndex(x: seq<real>): (i: nat)
    requires |x| > 0
    ensures i < |x|
    ensures forall j :: 0 <= j < |x| ==> x[j] <= x[i]
    ensures forall j :: 0 <= j < i ==> x[j] < x[i]
  {
    IndexOf(x, Max(x))
  }

  /** The first-maximum characterisation determines `MaxIndex` completely. */
  lemma MaxIndexUnique(x: seq<real>, i: nat)
    requires i < |x|
    requires forall j :: 0 <= j < |x| ==> x[j] <= x[i]
    requires forall j :: 0 <= j < i ==> x[j] < x[i]
    ensures MaxIndex(x) == i
  {
  }

  /** Ties are broken towards the lowest index: when every entry is equal,
      `max_index` is 0. */
  lemma MaxIndexOfTies(x: seq<real>)
    requires |x| > 0
    requires forall j :: 0 <= j < |x| ==> x[j] == x[0]
    ensures MaxIndex(x) == 0
  {
  }

  // ---------------------------------------------------------------------
  // Per-arm statistics shared by both strategies
  // ---------------------------------------------------------------------

  /** Python's `sum` over a list of counts. */
  function Sum(xs: seq<int>): int
  {
    if xs == [] then 0 else Sum(xs[..|xs| - 1]) + xs[|xs| - 1]
  }

  function SumReals(rs: seq<real>): real
  {
    if rs == [] then 0.0 else SumReals(rs[..|rs| - 1]) + rs[|rs| - 1]
  }

  /** The arithmetic mean of the rewards seen; 0.0 before any was seen. */
  function Mean(rs: seq<real>): real
  {
    if rs == [] then 0.0 else SumReals(rs) / (|rs| as real)
  }

  /** `[0] * n_arms`: a negative length gives the empty list. */
  function ZeroCounts(nArms: int): (c: seq<int>)
    ensures |c| == (if nArms > 0 then nArms else 0)
    ensures forall i :: 0 <= i < |c| ==> c[i] == 0
  {
    seq(if nArms > 0 then nArms else 0, _ => 0)
  }

  /** `[0.0] * n_arms`. */
  function ZeroValues(nArms: int): (v: seq<real>)
    ensures |v| == (if nArms > 0 then nArms else 0)
    ensures forall i :: 0 <= i < |v| ==> v[i] == 0.0
  {
    seq(if nArms > 0 then nArms else 0, _ => 0.0)
  }

  /** No rewards seen yet for any of `nArms` arms. */
  function NoHistory(nArms: int): (h: seq<seq<real>>)
    ensures |h| == (if nArms > 0 then nArms else 0)
    ensures forall i :: 0 <= i < |h| ==> h[i] == []
  {
    seq(if nArms > 0 then nArms else 0, _ => [])
  }

  /** The incremental-mean step of `update`, with `n` the post-increment
      count: `((n - 1) / n) * value + (1 / n) * reward`. */
  function UpdatedMean(value: real, n: int, reward: real): real
    requires n >= 1
  {
    ((n - 1) as real / n as real) * value + (1.0 / n as real) * reward
  }

  /** The counts after `update(arm, _)`. */
  function CountAfter(counts: seq<int>, arm: int): seq<int>
    requires 0 <= arm < |counts|
  {
    counts[arm := counts[arm] + 1]
  }

  /** The values after `update(arm, reward)`, given the counts before it. */
  function ValuesAfter(values: seq<real>, counts: seq<int>, arm: int, reward: real): seq<real>
    requires 0 <= arm < |counts| == |values|
    requires counts[arm] >= 0
  {
    values[arm := UpdatedMean(values[arm], counts[arm] + 1, reward)]
  }

  /** The object invariant of both strategies: the lists have one entry per
      arm, and arm `i` has been fed exactly the rewards `history[i]`, so that
      `counts[i]` is how many there were and `values[i]` is their mean. */
  ghost predicate Tracks(counts: seq<int>, values: seq<real>, history: seq<seq<real>>)
  {
    && |counts| == |values| == |history|
    && (forall i :: 0 <= i < |counts| ==> counts[i] == |history[i]|)
    && (forall i {:trigger values[i]} :: 0 <= i < |values| ==> values[i] == Mean(history[i]))
  }

  lemma SumAppend(rs: seq<real>, r: real)
    ensures SumReals(rs + [r]) == SumReals(rs) + r
  {
    assert (rs + [r])[..|rs|] == rs;
  }

  /** The incremental-mean update really computes the mean of one more reward. */
  lemma MeanStep(rs: seq<real>, r: real)
    ensures Mean(rs + [r]) == UpdatedMean(Mean(rs), |rs| + 1, r)
  {
    SumAppend(rs, r);
    var n := |rs| as real;
    var s := SumReals(rs);
    if rs == [] {
      assert SumReals(rs + [r]) == r;
    } else {
      calc {
        UpdatedMean(Mean(rs), |rs| + 1, r);
        (n / (n + 1.0)) * (s / n) + (1.0 / (n + 1.0)) * r;
        { assert (n / (n + 1.0)) * (s / n) == s / (n + 1.0); }
        s / (n + 1.0) + r / (n + 1.0);
        (s + r) / (n + 1.0);
        Mean(rs + [r]);
      }
    }
  }

  /** `update` keeps the object invariant: the arm's count and mean now cover
      one more reward, and no other arm is touched. */
  lemma {:induction false} UpdateKeepsMeans(counts: seq<int>, values: seq<real>,
                                            history: seq<seq<real>>, arm: int, reward: real)
    requires Tracks(counts, values, history)
    requires 0 <= arm < |counts|
    ensures Tracks(CountAfter(counts, arm), ValuesAfter(values, counts, arm, reward),
                   history[arm := history[arm] + [reward]])
  {
    MeanStep(history[arm], reward);
  }

  /** Freshly initialized lists track the empty history. */
  lemma InitialTracks(nArms: int)
    ensures Tracks(ZeroCounts(nArms), ZeroValues(nArms), NoHistory(nArms))
  {
  }

  lemma {:induction false} SumZeroCounts(nArms: int)
    ensures Sum(ZeroCounts(nArms)) == 0
  {
    if nArms > 0 {
      assert ZeroCounts(nArms)[..nArms - 1] == ZeroCounts(nArms - 1);
      SumZeroCounts(nArms - 1);
    }
  }

  /** One `update` raises the total number of pulls by exactly one. */
  lemma {:induction false} SumCountAfter(counts: seq<int>, arm: int)
    requires 0 <= arm < |counts|
    ensures Sum(CountAfter(counts, arm)) == Sum(counts) + 1
  {
    var last := |counts| - 1;
    if arm < last {
      assert CountAfter(counts, arm)[..last] == CountAfter(counts[..last], arm);
      SumCountAfter(counts[..last], arm);
    } else {
      assert CountAfter(counts, arm)[..last] == counts[..last];
    }
  }

  // ---------------------------------------------------------------------
  // UCB1
  // ---------------------------------------------------------------------

  /** The per-arm upper confidence bounds `values[i] + bonus(i)`. */
  function UcbScores(counts: seq<int>, values: seq<real>, bonus: (int, int) -> real): (scores: seq<real>)
    requires |counts| == |values|
    ensures |scores| == |counts|
    ensures forall i :: 0 <= i < |counts| ==> scores[i] == values[i] + bonus(Sum(counts), counts[i])
  {
    seq(|counts|, i requires 0 <= i < |counts| => values[i] + bonus(Sum(counts), counts[i]))
  }

  /** The arm UCB1 selects: the first never-pulled arm if there is one,
      otherwise the first arm with the largest confidence bound. */
  function UcbChoice(counts: seq<int>, values: seq<real>, bonus: (int, int) -> real): (arm: nat)
    requires |counts| == |values| > 0
    ensures arm < |counts|
    ensures 0 in counts ==> counts[arm] == 0 && forall j :: 0 <= j < arm ==> counts[j] != 0
    ensures 0 !in counts ==>
      var s := UcbScores(counts, values, bonus);
      && (forall j :: 0 <= j < |s| ==> s[j] <= s[arm])
      && (forall j :: 0 <= j < arm ==> s[j] < s[arm])
  {
    if 0 in counts then IndexOf(counts, 0) else MaxIndex(UcbScores(counts, values, bonus))
  }

  class UCB1 {
    var counts: seq<int>
    var values: seq<real>
    /** The rewards fed to each arm since the last `Initialize`. */
    ghost var history: seq<seq<real>>

    ghost predicate Valid()
      reads this
    {
      Tracks(counts, values, history)
    }

    constructor ()
      ensures Valid()
      ensures counts == [] && values == [] && history == []
    {
      counts, values, history := [], [], [];
    }

    method Initialize(nArms: int)
      modifies this
      ensures Valid()
      ensures counts == ZeroCounts(nArms) && values == ZeroValues(nArms)
      ensures history == NoHistory(nArms)
    {
      counts := ZeroCounts(nArms);
      values := ZeroValues(nArms);
      history := NoHistory(nArms);
      InitialTracks(nArms);
    }

    method SelectArm(bonus: (int, int) -> real) returns (arm: int)
      requires Valid()
      requires |counts| > 0
      ensures arm == UcbChoice(counts, values, bonus)
    {
      var nArms := |counts|;
      if 0 in counts {
        return IndexOf(counts, 0);
      }
      var ucbValues := new real[nArms](_ => 0.0);
      var totalCounts := Sum(counts);
      for a := 0 to nArms
        invariant forall k :: 0 <= k < a ==> ucbValues[k] == values[k] + bonus(totalCounts, counts[k])
      {
        ucbValues[a] := values[a] + bonus(totalCounts, counts[a]);
      }
      assert ucbValues[..] == UcbScores(counts, values, bonus);
      arm := MaxIndex(ucbValues[..]);
    }

    method Update(arm: int, reward: real)
      requires Valid()
      requires 0 <= arm < |counts|
      modifies this
      ensures Valid()
      ensures counts == CountAfter(old(counts), arm)
      ensures values == ValuesAfter(old(values), old(counts), arm, reward)
      ensures history == old(history)[arm := old(history)[arm] + [reward]]
    {
      UpdateKeepsMeans(counts, values, history, arm, reward);
      var n := counts[arm] + 1;
      counts := counts[arm := n];
      var value := values[arm];
      var newValue := ((n - 1) as real / n as real) * value + (1.0 / n as real) * reward;
      values := values[arm := newValue];
      history := history[arm := history[arm] + [reward]];
    }
  }

  /** `k` arms already pulled once each, the others never. */
  function Primed(nArms: nat, k: nat): (c: seq<int>)
    ensures |c| == nArms
  {
    seq(nArms, i => if i < k then 1 else 0)
  }

  /** The arms `lo, lo + 1, ..., hi - 1` in increasing order. */
  function Range(lo: int, hi: int): (r: seq<int>)
    ensures |r| == if lo <= hi then hi - lo else 0
    ensures forall i :: 0 <= i < |r| ==> r[i] == lo + i
    decreases hi - lo
  {
    if lo >= hi then [] else [lo] + Range(lo + 1, hi)
  }

  /** While priming, UCB1 picks the next arm in order and marks it pulled. */
  lemma PrimingStep(nArms: nat, k: nat, values: seq<real>, bonus: (int, int) -> real)
    requires k < nArms == |values|
    ensures UcbChoice(Primed(nArms, k), values, bonus) == k
    ensures CountAfter(Primed(nArms, k), k) == Primed(nArms, k + 1)
  {
    var c := Primed(nArms, k);
    assert c[k] == 0;
    assert CountAfter(c, k) == Primed(nArms, k + 1);
  }

  /** The arms chosen by `|rewards|` rounds of `select_arm` followed by
      `update(chosen, reward)`. */
  function UcbRounds(counts: seq<int>, values: seq<real>, rewards: seq<real>,
                     bonus: (int, int) -> real): (chosen: seq<int>)
    requires |counts| == |values| > 0
    requires forall i :: 0 <= i < |counts| ==> counts[i] >= 0
    decreases |rewards|
  {
    if rewards == [] then []
    else
      var arm := UcbChoice(counts, values, bonus);
      [arm] + UcbRounds(CountAfter(counts, arm), ValuesAfter(values, counts, arm, rewards[0]),
                        rewards[1..], bonus)
  }

  lemma {:induction false} PrimingFrom(nArms: nat, k: nat, values: seq<real>, rewards: seq<real>,
                                       bonus: (int, int) -> real)
    requires k <= nArms == |values| && nArms > 0
    requires |rewards| == nArms - k
    ensures UcbRounds(Primed(nArms, k), values, rewards, bonus) == Range(k, nArms)
    decreases nArms - k
  {
    if k < nArms {
      var c := Primed(nArms, k);
      PrimingStep(nArms, k, values, bonus);
      var values' := ValuesAfter(values, c, k, rewards[0]);
      PrimingFrom(nArms, k + 1, values', rewards[1..], bonus);
    }
  }

  /** After `initialize(n)`, `n` rounds of select-then-update pull the arms
      0, 1, ..., n-1 in that order, whatever the rewards. */
  lemma UcbPrimesInOrder(nArms: nat, rewards: seq<real>, bonus: (int, int) -> real)
    requires nArms > 0 && |rewards| == nArms
    ensures UcbRounds(ZeroCounts(nArms), ZeroValues(nArms), rewards, bonus) == Range(0, nArms)
  {
    assert ZeroCounts(nArms) == Primed(nArms, 0);
    PrimingFrom(nArms, 0, ZeroValues(nArms), rewards, bonus);
  }

  // ---------------------------------------------------------------------
  // EpsilonGreedy
  // ---------------------------------------------------------------------

  /** The epsilon `select_arm` compares against: the configured one, or the
      annealing schedule at `t = sum(counts) + 1`. */
  function EffectiveEpsilon(epsilon: Option<real>, counts: seq<int>, schedule: int -> real): real
  {
    match epsilon
    case Some(e) => e
    case None => schedule(Sum(counts) + 1)
  }

  class EpsilonGreedy {
    /** `None` selects the annealing mode. */
    const epsilon: Option<real>
    var counts: seq<int>
    var values: seq<real>
    /** The rewards fed to each arm since the last `Initialize`. */
    ghost var history: seq<seq<real>>

    ghost predicate Valid()
      reads this
    {
      Tracks(counts, values, history)
    }

    constructor (epsilon: Option<real>)
      ensures Valid()
      ensures this.epsilon == epsilon
      ensures counts == [] && values == [] && history == []
    {
      this.epsilon := epsilon;
      counts, values, history := [], [], [];
    }

    method Initialize(nArms: int)
      modifies this
      ensures Valid()
      ensures counts == ZeroCounts(nArms) && values == ZeroValues(nArms)
      ensures history == NoHistory(nArms)
    {
      counts := ZeroCounts(nArms);
      values := ZeroValues(nArms);
      history := NoHistory(nArms);
      InitialTracks(nArms);
    }

    /** `draw` is the uniform `random.random()` sample and `exploreArm` the
        `random.randrange(len(values))` result used when exploring. */
    method SelectArm(draw: real, exploreArm: int, schedule: int -> real) returns (arm: int)
      requires Valid()
      requires |values| > 0
      requires 0 <= exploreArm < |values|
      ensures 0 <= arm < |values|
      ensures draw > EffectiveEpsilon(epsilon, counts, schedule) ==>
        && (forall j :: 0 <= j < |values| ==> values[j] <= values[arm])
        && (forall j :: 0 <= j < arm ==> values[j] < values[arm])
      ensures draw <= EffectiveEpsilon(epsilon, counts, schedule) ==> arm == exploreArm
    {
      var eps: real;
      match epsilon {
        case Some(e) =>
          eps := e;
        case None =>
          var t := Sum(counts) + 1;
          eps := schedule(t);
      }
      if draw > eps {
        arm := MaxIndex(values);
      } else {
        arm := exploreArm;
      }
    }

    method Update(arm: int, reward: real)
      requires Valid()
      requires 0 <= arm < |counts|
      modifies this
      ensures Valid()
      ensures counts == CountAfter(old(counts), arm)
      ensures values == ValuesAfter(old(values), old(counts), arm, reward)
      ensures history == old(history)[arm := old(history)[arm] + [reward]]
    {
      UpdateKeepsMeans(counts, values, history, arm, reward);
      var n := counts[arm] + 1;
      counts := counts[arm := n];
      var value := values[arm];
      var newValue := ((n - 1) as real / n as real) * value + (1.0 / n as real) * reward;
      values := values[arm := newValue];
      history := history[arm := history[arm] + [reward]];
    }
  }

  // ---------------------------------------------------------------------
  // The choice of `select_arm` as a function of the statistics
  // ---------------------------------------------------------------------

  /** The rule by which a strategy picks an arm: UCB1 with its confidence
      bonus, or EpsilonGreedy with its epsilon (`None` for annealing) and the
      annealing schedule. */
  datatype Policy = UcbRule(bonus: (int, int) -> real)
                  | GreedyRule(epsilon: Option<real>, schedule: int -> real)

  /** The arm `select_arm` returns under rule `p` when the arms have been
      pulled `counts` times with mean rewards `values`; `draw` and
      `exploreArm` are the random values EpsilonGreedy consumes. */
  function Choice(p: Policy, counts: seq<int>, values: seq<real>, draw: real, exploreArm: int): (arm: int)
    requires |counts| == |values| > 0
  {
    match p
    case UcbRule(bonus) => UcbChoice(counts, values, bonus)
    case GreedyRule(epsilon, schedule) =>
      if draw > EffectiveEpsilon(epsilon, counts, schedule) then MaxIndex(values) else exploreArm
  }

  /** EpsilonGreedy's choice: above the effective epsilon, the first arm of
      largest mean reward; otherwise the random arm. */
  lemma GreedyChoice(epsilon: Option<real>, schedule: int -> real, counts: seq<int>, values: seq<real>,
                     draw: real, exploreArm: int)
    requires |counts| == |values| > 0
    ensures var arm := Choice(GreedyRule(epsilon, schedule), counts, values, draw, exploreArm);
      && (draw > EffectiveEpsilon(epsilon, counts, schedule) ==>
            && 0 <= arm < |values|
            && (forall j :: 0 <= j < |values| ==> values[j] <= values[arm])
            && (forall j :: 0 <= j < arm ==> values[j] < values[arm]))
      && (draw <= EffectiveEpsilon(epsilon, counts, schedule) ==> arm == exploreArm)
  {
  }

  /** Right after `initialize`, every value is 0.0, so an exploiting
      EpsilonGreedy picks arm 0. */
  lemma GreedyFirstExploit(nArms: int, epsilon: Option<real>, schedule: int -> real, draw: real, exploreArm: int)
    requires nArms > 0
    requires draw > EffectiveEpsilon(epsilon, ZeroCounts(nArms), schedule)
    ensures Choice(GreedyRule(epsilon, schedule), ZeroCounts(nArms), ZeroValues(nArms), draw, exploreArm) == 0
  {
    MaxIndexOfTies(ZeroValues(nArms));
  }

  // ---------------------------------------------------------------------
  // The capability {initialize, select_arm, update} over both strategies
  // ---------------------------------------------------------------------

  datatype Algorithm = UCB(ucb: UCB1) | Greedy(greedy: EpsilonGreedy)
  {
    function Obj(): object
    {
      if UCB? then ucb else greedy
    }

    ghost predicate Valid()
      reads Obj()
    {
      if UCB? then ucb.Valid() else greedy.Valid()
    }

    function Counts(): seq<int>
      reads Obj()
    {
      if UCB? then ucb.counts else greedy.counts
    }

    function Values(): seq<real>
      reads Obj()
    {
      if UCB? then ucb.values else greedy.values
    }

    ghost function History(): seq<seq<real>>
      reads Obj()
    {
      if UCB? then ucb.history else greedy.history
    }

    /** The rule by which this strategy picks arms, given the UCB1 bonus and
        the annealing schedule. */
    function Rule(bonus: (int, int) -> real, schedule: int -> real): (p: Policy)
      ensures p.UcbRule? <==> UCB?
    {
      if UCB? then UcbRule(bonus) else GreedyRule(greedy.epsilon, schedule)
    }
  }

  method Initialize(algo: Algorithm, nArms: int)
    modifies algo.Obj()
    ensures algo.Valid()
    ensures algo.Counts() == ZeroCounts(nArms) && algo.Values() == ZeroValues(nArms)
    ensures algo.History() == NoHistory(nArms)
  {
    match algo {
      case UCB(a) => a.Initialize(nArms);
      case Greedy(a) => a.Initialize(nArms);
    }
  }

  method SelectArm(algo: Algorithm, bonus: (int, int) -> real, schedule: int -> real,
                   draw: real, exploreArm: int) returns (arm: int)
    requires algo.Valid()
    requires |algo.Counts()| > 0
    requires 0 <= exploreArm < |algo.Counts()|
    ensures 0 <= arm < |algo.Counts()|
    ensures algo.UCB? ==> arm == UcbChoice(algo.Counts(), algo.Values(), bonus)
    ensures arm == Choice(algo.Rule(bonus, schedule), algo.Counts(), algo.Values(), draw, exploreArm)
    ensures algo.Greedy? && draw > EffectiveEpsilon(algo.greedy.epsilon, algo.Counts(), schedule) ==>
      && (forall j :: 0 <= j < |algo.Values()| ==> algo.Values()[j] <= algo.Values()[arm])
      && (forall j :: 0 <= j < arm ==> algo.Values()[j] < algo.Values()[arm])
    ensures algo.Greedy? && draw <= EffectiveEpsilon(algo.greedy.epsilon, algo.Counts(), schedule) ==>
      arm == exploreArm
  {
    match algo {
      case UCB(a) => arm := a.SelectArm(bonus);
      case Greedy(a) =>
        arm := a.SelectArm(draw, exploreArm, schedule);
        if draw > EffectiveEpsilon(a.epsilon, a.counts, schedule) {
          MaxIndexUnique(a.values, arm);
        }
    }
  }

  method Update(algo: Algorithm, arm: int, reward: real)
    requires algo.Valid()
    requires 0 <= arm < |algo.Counts()|
    modifies algo.Obj()
    ensures algo.Valid()
    ensures algo.Counts() == CountAfter(old(algo.Counts()), arm)
    ensures algo.Values() == old(algo.Values())[arm := Mean(algo.History()[arm])]
    ensures algo.History() == old(algo.History())[arm := old(algo.History())[arm] + [reward]]
  {
    match algo {
      case UCB(a) => a.Update(arm, reward);
      case Greedy(a) => a.Update(arm, reward);
    }
  }
}
