/**
 The epsilon-greedy exploration schedule: the linear decrement of epsilon
 after the warm-up, and the action decision of `get_action`. The random draw,
 the random action and the network's Q-values are parameters.
 */
module Exploration {
  import opened DqnTypes
  import opened BoundedFifo

  /** `epsilon_decay = (init_epsilon - final_epsilon) / epsilon_step_num`:
      `epsilon_step_num` decrements cover the range from `init_epsilon` to
      `final_epsilon` exactly, and the decay is a decrement (non-negative)
      exactly when `init_epsilon >= final_epsilon`. */
  function EpsilonDecay(cfg: Config): (d: real)
    requires cfg.epsilonStepNum > 0
    ensures (cfg.epsilonStepNum as real) * d == cfg.initEpsilon - cfg.finalEpsilon
    ensures d >= 0.0 <==> cfg.initEpsilon >= cfg.finalEpsilon
  {
    (cfg.initEpsilon - cfg.finalEpsilon) / (cfg.epsilonStepNum as real)
  }

  /** One step of the schedule, taken with the step counter at `globalStep`:
      epsilon drops by `EpsilonDecay` only after the warm-up and only while it
      is still above `final_epsilon`. There is no clamp. */
  function NextEpsilon(cfg: Config, epsilon: real, globalStep: nat): (e: real)
    requires cfg.epsilonStepNum > 0
    ensures globalStep <= cfg.observeStepNum ==> e == epsilon
    ensures epsilon <= cfg.finalEpsilon ==> e == epsilon
    ensures globalStep > cfg.observeStepNum && epsilon > cfg.finalEpsilon ==> e == epsilon - EpsilonDecay(cfg)
    ensures cfg.initEpsilon >= cfg.finalEpsilon ==> e <= epsilon
    ensures epsilon >= cfg.finalEpsilon - EpsilonDecay(cfg) ==> e >= cfg.finalEpsilon - EpsilonDecay(cfg)
  {
    if epsilon > cfg.finalEpsilon && globalStep > cfg.observeStepNum then
      epsilon - EpsilonDecay(cfg)
    else
      epsilon
  }

  /** Epsilon as `get_action` sees it when the step counter reads `n`: the
      result of `n` schedule steps, taken at counters `0 .. n - 1`. It never
      exceeds `init_epsilon` when the schedule decreases, and when
      `init_epsilon <= final_epsilon` the decrement never fires, so epsilon
      stays at `init_epsilon` forever. */
  function EpsilonAt(cfg: Config, n: nat): (e: real)
    requires cfg.epsilonStepNum > 0
    ensures cfg.initEpsilon >= cfg.finalEpsilon ==> e <= cfg.initEpsilon
    ensures cfg.initEpsilon <= cfg.finalEpsilon ==> e == cfg.initEpsilon
  {
    if n == 0 then cfg.initEpsilon else NextEpsilon(cfg, EpsilonAt(cfg, n - 1), n - 1)
  }

  /** How many of the steps taken at counters `0 .. n - 1` lie after the warm-up. */
  function StepsAfterWarmup(cfg: Config, n: nat): nat {
    if n <= cfg.observeStepNum + 1 then 0 else n - cfg.observeStepNum - 1
  }

  /** Epsilon is the initial value throughout the warm-up (and on the first
      step after it, whose decrement is seen only by the next step). */
  lemma {:induction false} EpsilonConstantDuringWarmup(cfg: Config, n: nat)
    requires cfg.epsilonStepNum > 0
    requires n <= cfg.observeStepNum + 1
    ensures EpsilonAt(cfg, n) == cfg.initEpsilon
  {
    if n > 0 {
      EpsilonConstantDuringWarmup(cfg, n - 1);
    }
  }

  /** Epsilon never increases when the schedule anneals downwards. */
  lemma {:induction false} EpsilonNonIncreasing(cfg: Config, m: nat, n: nat)
    requires cfg.epsilonStepNum > 0
    requires cfg.initEpsilon >= cfg.finalEpsilon
    requires m <= n
    ensures EpsilonAt(cfg, n) <= EpsilonAt(cfg, m)
  {
    if m < n {
      EpsilonNonIncreasing(cfg, m, n - 1);
    }
  }

  /** Once epsilon has reached `final_epsilon` or gone below it, it never changes again. */
  lemma {:induction false} EpsilonSettles(cfg: Config, m: nat, n: nat)
    requires cfg.epsilonStepNum > 0
    requires EpsilonAt(cfg, m) <= cfg.finalEpsilon
    requires m <= n
    ensures EpsilonAt(cfg, n) == EpsilonAt(cfg, m)
  {
    if m < n {
      EpsilonSettles(cfg, m, n - 1);
    }
  }

  /** Without a clamp, epsilon can only be guaranteed to stay above
      `final_epsilon - epsilon_decay`: the last decrement may overshoot. */
  lemma {:induction false} EpsilonLowerBound(cfg: Config, n: nat)
    requires cfg.epsilonStepNum > 0
    requires cfg.initEpsilon >= cfg.finalEpsilon
    ensures EpsilonAt(cfg, n) >= cfg.finalEpsilon - EpsilonDecay(cfg)
  {
    if n > 0 {
      EpsilonLowerBound(cfg, n - 1);
    }
  }

  /** The floor needs `init_epsilon >= final_epsilon`: with the order
      reversed the decay is negative, so the floor lies above
      `final_epsilon`, while epsilon never leaves `init_epsilon`, below it. */
  lemma FloorNeedsOrder(cfg: Config, n: nat)
    requires cfg.epsilonStepNum > 0 && cfg.initEpsilon < cfg.finalEpsilon
    ensures EpsilonAt(cfg, n) == cfg.initEpsilon < cfg.finalEpsilon - EpsilonDecay(cfg)
  {
  }

  /** A concrete instance: `init_epsilon = 0`, `final_epsilon = 1` and ten
      decay steps give a decay of -0.1 and a floor of 1.1, yet epsilon is
      still 0 at step 5. */
  lemma FloorCounterexample()
    ensures var cfg := Config(0, 10, 4, 1, 0.0, 1.0, 0.99);
      EpsilonDecay(cfg) == -0.1 && EpsilonAt(cfg, 5) == 0.0 &&
      EpsilonAt(cfg, 5) < cfg.finalEpsilon - EpsilonDecay(cfg)
  {
    var cfg := Config(0, 10, 4, 1, 0.0, 1.0, 0.99);
    FloorNeedsOrder(cfg, 5);
  }

  /** For a positive step `d`, `m` steps fall short of `k` steps exactly when `m < k`. */
  lemma ScaledLess(m: nat, k: nat, d: real)
    requires d > 0.0
    ensures (m as real) * d < (k as real) * d <==> m < k
  {
    if m < k {
      assert (k as real) * d - (m as real) * d == ((k - m) as real) * d;
    } else {
      assert (m as real) * d - (k as real) * d == ((m - k) as real) * d;
    }
  }
  /** The closed form of the schedule in exact arithmetic: one decay per
      step after the warm-up, for at most `epsilon_step_num` steps. */
  function LinearEpsilon(cfg: Config, n: nat): real
    requires cfg.epsilonStepNum > 0
  {
    cfg.initEpsilon - (Min(StepsAfterWarmup(cfg, n), cfg.epsilonStepNum) as real) * EpsilonDecay(cfg)
  }

  /** While fewer than `epsilon_step_num` decrements have happened, epsilon
      is still above `final_epsilon` and the next decrement follows the line. */
  lemma LinearEpsilonDecrements(cfg: Config, n: nat)
    requires cfg.epsilonStepNum > 0
    requires cfg.initEpsilon > cfg.finalEpsilon
    requires n > cfg.observeStepNum
    requires StepsAfterWarmup(cfg, n) < cfg.epsilonStepNum
    ensures LinearEpsilon(cfg, n) > cfg.finalEpsilon
    ensures LinearEpsilon(cfg, n + 1) == LinearEpsilon(cfg, n) - EpsilonDecay(cfg)
  {
    var d := EpsilonDecay(cfg);
    var m := StepsAfterWarmup(cfg, n);
    ScaledLess(m, cfg.epsilonStepNum, d);
    assert StepsAfterWarmup(cfg, n + 1) == m + 1;
    assert ((m + 1) as real) * d == (m as real) * d + d;
  }

  /** After `epsilon_step_num` decrements epsilon sits on `final_epsilon`. */
  lemma LinearEpsilonStops(cfg: Config, n: nat)
    requires cfg.epsilonStepNum > 0
    requires StepsAfterWarmup(cfg, n) >= cfg.epsilonStepNum
    ensures LinearEpsilon(cfg, n) == cfg.finalEpsilon
  {
    assert Min(StepsAfterWarmup(cfg, n), cfg.epsilonStepNum) == cfg.epsilonStepNum;
  }

  /** In exact arithmetic the schedule is linear and stops exactly on
      `final_epsilon`. */
  lemma {:induction false} EpsilonClosedForm(cfg: Config, n: nat)
    requires cfg.epsilonStepNum > 0
    requires cfg.initEpsilon >= cfg.finalEpsilon
    ensures EpsilonAt(cfg, n) == LinearEpsilon(cfg, n)
  {
    if n > 0 {
      var k := n - 1;
      EpsilonClosedForm(cfg, k);
      if k <= cfg.observeStepNum {
        assert StepsAfterWarmup(cfg, n) == 0 == StepsAfterWarmup(cfg, k);
      } else if cfg.initEpsilon == cfg.finalEpsilon {
        assert EpsilonDecay(cfg) == 0.0;
      } else if StepsAfterWarmup(cfg, k) < cfg.epsilonStepNum {
        LinearEpsilonDecrements(cfg, k);
      } else {
        LinearEpsilonStops(cfg, k);
        assert StepsAfterWarmup(cfg, n) == StepsAfterWarmup(cfg, k) + 1;
        LinearEpsilonStops(cfg, n);
      }
    }
  }

  /** In exact arithmetic epsilon stays within `[final_epsilon, init_epsilon]`. */
  lemma EpsilonWithinBounds(cfg: Config, n: nat)
    requires cfg.epsilonStepNum > 0
    requires cfg.initEpsilon >= cfg.finalEpsilon
    ensures cfg.finalEpsilon <= EpsilonAt(cfg, n) <= cfg.initEpsilon
  {
    var d := EpsilonDecay(cfg);
    var big := cfg.epsilonStepNum;
    var m := Min(StepsAfterWarmup(cfg, n), big);
    EpsilonClosedForm(cfg, n);
    assert EpsilonAt(cfg, n) == cfg.initEpsilon - (m as real) * d;
    assert d >= 0.0;
    assert (big as real) * d - (m as real) * d == ((big - m) as real) * d;
    assert ((big - m) as real) * d >= 0.0;
    assert (m as real) * d >= 0.0;
  }

  /** `np.argmax`: the lowest index holding the largest value. */
  function ArgMax(q: seq<real>): (k: nat)
    requires |q| > 0
    ensures k < |q|
    ensures forall j :: 0 <= j < |q| ==> q[j] <= q[k]
    ensures forall j :: 0 <= j < k ==> q[j] < q[k]
  {
    if |q| == 1 then 0
    else
      var k := ArgMax(q[..|q| - 1]);
      if q[|q| - 1] > q[k] then |q| - 1 else k
  }

  /** The random branch of `get_action` is taken when the draw is at most
      epsilon or the warm-up is still running. As `np.random.rand()` draws
      from `[0, 1)`, an epsilon of 1 or more always explores, and a negative
      one never does once the warm-up is over. */
  predicate Explores(cfg: Config, epsilon: real, step: nat, draw: real): (b: bool)
    ensures 0.0 <= draw < 1.0 && epsilon >= 1.0 ==> b
    ensures epsilon < 0.0 <= draw && step > cfg.observeStepNum ==> !b
  {
    draw <= epsilon || step <= cfg.observeStepNum
  }

  /** `get_action`: `draw` is `np.random.rand()`, `randomAction` is
      `random.randrange(ACTION_SIZE)` and `q` is the network's Q-value row for
      the current history (needed only on the greedy branch). The greedy
      branch at deep_q_learning.py:102 hands `predict` the all-ones action
      mask as its second positional argument, which Keras reads as the batch
      size rather than as the model's second input; what the network returns
      for that call is outside this model, so `q` stands for whatever row it
      yields. */
  function ChooseAction(cfg: Config, epsilon: real, step: nat, draw: real, randomAction: nat, q: seq<real>): (a: nat)
    requires randomAction < ACTION_SIZE
    requires !Explores(cfg, epsilon, step, draw) ==> |q| == ACTION_SIZE
    ensures a < ACTION_SIZE
    ensures Explores(cfg, epsilon, step, draw) ==> a == randomAction
    ensures !Explores(cfg, epsilon, step, draw) ==>
      (forall j :: 0 <= j < |q| ==> q[j] <= q[a]) && (forall j :: 0 <= j < a ==> q[j] < q[a])
  {
    if Explores(cfg, epsilon, step, draw) then randomAction else ArgMax(q)
  }

  /** `real_action = action + 1`: the code sent to the environment. */
  function EnvAction(a: nat): (code: int)
    requires a < ACTION_SIZE
    ensures 1 <= code <= ACTION_SIZE
  {
    a + 1
  }
}
