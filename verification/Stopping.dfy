/** `services/optimizer/stopping.py`: when an optimisation run stops. */
module Stopping {
  import opened Common

  datatype Reason = Continue | Plateau | BudgetExhausted | ConfidenceMet | MaxIterations | MaxEvaluations | Convergence

  /** A limit that is absent is infinite. */
  datatype Config = Config(plateauWindow: nat, plateauThreshold: real, maxBudget: Option<real>, maxIterations: int,
                           maxEvaluations: int, maxWallTime: Option<real>, confidenceThreshold: real,
                           convergenceTolerance: real, minIterations: int)

  datatype State = State(iteration: nat, evaluations: nat, budgetSpent: real, wallTime: real,
                         bestScores: seq<real>, confidenceScores: seq<real>)

  predicate Reached(value: real, limit: Option<real>) { limit.Some? && value >= limit.value }

  function MaxOf(s: seq<real>): (m: real)
    requires s != []
    ensures m in s && forall x | x in s :: x <= m
  {
    assert s == [s[0]] + s[1..];
    if |s| == 1 then s[0] else Max(s[0], MaxOf(s[1..]))
  }

  function MinOf(s: seq<real>): (m: real)
    requires s != []
    ensures m in s && forall x | x in s :: m <= x
  {
    assert s == [s[0]] + s[1..];
    if |s| == 1 then s[0] else Min(s[0], MinOf(s[1..]))
  }

  function Last(s: seq<real>, n: nat): seq<real>
    requires n <= |s|
  {
    s[|s| - n..]
  }

  /** The window the plateau rule looks at: a length of zero means the whole history. */
  function WindowOf(c: Config, best: seq<real>): seq<real>
    requires |best| >= c.plateauWindow
  {
    Last(best, if c.plateauWindow == 0 then |best| else c.plateauWindow)
  }

  /** With a window of zero and no score yet, the rule asks for the maximum of nothing, which is an error. */
  predicate CanAsk(c: Config, best: seq<real>) { c.plateauWindow >= 1 || best != [] }

  function Spread(s: seq<real>): real
    requires s != []
  {
    MaxOf(s) - MinOf(s)
  }

  /** The scores of the window differ by less than the threshold. */
  predicate IsPlateau(c: Config, best: seq<real>) {
    CanAsk(c, best) && |best| >= c.plateauWindow && Spread(WindowOf(c, best)) < c.plateauThreshold
  }

  predicate IsConverged(c: Config, best: seq<real>) {
    && |best| >= 3
    && Abs(best[|best| - 3] - best[|best| - 2]) < c.convergenceTolerance
    && Abs(best[|best| - 2] - best[|best| - 1]) < c.convergenceTolerance
  }

  /** How far the best score moved in the last two rounds. */
  function GainOfTwo(best: seq<real>): real { if |best| >= 3 then Abs(best[|best| - 1] - best[|best| - 3]) else 0.0 }

  predicate IsConfident(c: Config, confidence: seq<real>) {
    confidence != [] && confidence[|confidence| - 1] >= c.confidenceThreshold
  }

  /** `r` is a reason to stop that applies. */
  predicate Applies(c: Config, s: State, r: Reason) {
    match r
    case Continue => false
    case BudgetExhausted => Reached(s.budgetSpent, c.maxBudget) || Reached(s.wallTime, c.maxWallTime)
    case MaxIterations => s.iteration >= c.maxIterations
    case MaxEvaluations => s.evaluations >= c.maxEvaluations
    case ConfidenceMet => IsConfident(c, s.confidenceScores)
    case Plateau => IsPlateau(c, s.bestScores)
    case Convergence => IsConverged(c, s.bestScores)
  }

  /** Below all limits, with confidence below its threshold, nothing applies but the two rules about
      the best scores; any limit reached is a reason. */
  lemma LimitsSpelledOut(c: Config, s: State)
    ensures Applies(c, s, BudgetExhausted) <==>
      || (c.maxBudget.Some? && s.budgetSpent >= c.maxBudget.value)
      || (c.maxWallTime.Some? && s.wallTime >= c.maxWallTime.value)
    ensures Applies(c, s, MaxIterations) <==> s.iteration >= c.maxIterations
    ensures Applies(c, s, MaxEvaluations) <==> s.evaluations >= c.maxEvaluations
    ensures Applies(c, s, ConfidenceMet) <==>
      s.confidenceScores != [] && s.confidenceScores[|s.confidenceScores| - 1] >= c.confidenceThreshold
    ensures Applies(c, s, Convergence) <==>
      var n, best, tolerance := |s.bestScores|, s.bestScores, c.convergenceTolerance;
      n >= 3 && forall k | n - 3 <= k < n - 1 :: -tolerance < best[k] - best[k + 1] < tolerance
  {
    if |s.bestScores| >= 3 {
      var n := |s.bestScores|;
      assert s.bestScores[n - 3 + 1] == s.bestScores[n - 2];
    }
  }

  /** A plateau: no two scores of the window lie as far apart as the threshold, the window being the
      latest scores, as many as asked for, or the whole history if none are. */
  lemma PlateauSpelledOut(c: Config, s: State, earlier: seq<real>, window: seq<real>)
    requires s.bestScores == earlier + window && window != []
    requires if c.plateauWindow == 0 then earlier == [] else |window| == c.plateauWindow
    ensures Applies(c, s, Plateau) <==> forall x, y | x in window && y in window :: x - y < c.plateauThreshold
  {
    assert WindowOf(c, s.bestScores) == window;
    SpreadSpelledOut(window, c.plateauThreshold);
  }

  /** Before there are as many scores, there is none. */
  lemma NoPlateauYet(c: Config, s: State)
    requires s.bestScores == [] || |s.bestScores| < c.plateauWindow
    ensures !Applies(c, s, Plateau)
  {
  }

  lemma SpreadSpelledOut(window: seq<real>, threshold: real)
    requires window != []
    ensures Spread(window) < threshold <==> forall x, y | x in window && y in window :: x - y < threshold
  {
    assert MaxOf(window) in window && MinOf(window) in window;
  }

  /** Stops exactly if the minimum is reached and some reason applies, and then for a reason that
      does: a limit before a success, a plateau before convergence. It fails exactly if no reason
      applies and the plateau rule cannot be asked. */
  ghost predicate Answers(c: Config, s: State, failed: bool, stop: bool, why: Reason) {
    && (failed <==>
        && s.iteration >= c.minIterations && c.plateauWindow == 0 && s.bestScores == []
        && forall r :: !Applies(c, s, r))
    && (stop <==> s.iteration >= c.minIterations && exists r :: Applies(c, s, r))
    && (if stop then Applies(c, s, why) else why == Continue)
    && (stop && c.maxBudget.Some? && s.budgetSpent >= c.maxBudget.value ==> why == BudgetExhausted)
    && (why == BudgetExhausted && (c.maxBudget.None? || s.budgetSpent < c.maxBudget.value) ==>
        s.iteration < c.maxIterations && s.evaluations < c.maxEvaluations)
    && (why == MaxEvaluations ==> s.iteration < c.maxIterations)
    && (why == ConfidenceMet || why == Plateau || why == Convergence ==>
        forall r: Reason | r == MaxIterations || r == MaxEvaluations || r == BudgetExhausted :: !Applies(c, s, r))
    && (why == Plateau || why == Convergence ==> !Applies(c, s, ConfidenceMet))
    && (why == Convergence ==> !Applies(c, s, Plateau))
  }

  class StoppingRules {
    const config: Config
    var state: State
    var reason: Reason
    var shouldStop: bool

    constructor (config: Config)
      ensures this.config == config && state == State(0, 0, 0.0, 0.0, [], []) && !shouldStop && reason == Continue
    {
      this.config, state, reason, shouldStop := config, State(0, 0, 0.0, 0.0, [], []), Continue, false;
    }

    method Update(bestScore: Option<real>, confidence: Option<real>, evaluations: nat, budgetSpent: real,
        wallTime: real)
      modifies this
      ensures state.iteration == old(state.iteration) + 1 && state.evaluations == old(state.evaluations) + evaluations
      ensures state.budgetSpent == old(state.budgetSpent) + budgetSpent && state.wallTime == wallTime
      ensures state.bestScores == old(state.bestScores) + if bestScore.Some? then [bestScore.value] else []
      ensures state.confidenceScores == old(state.confidenceScores) + if confidence.Some?
        then [confidence.value] else []
      ensures reason == old(reason) && shouldStop == old(shouldStop)
    {
      state := state.(iteration := state.iteration + 1, evaluations := state.evaluations + evaluations,
                      budgetSpent := state.budgetSpent + budgetSpent, wallTime := wallTime);
      if bestScore.Some? {
        state := state.(bestScores := state.bestScores + [bestScore.value]);
      }
      if confidence.Some? {
        state := state.(confidenceScores := state.confidenceScores + [confidence.value]);
      }
    }

    /** The rules' answer, which is kept if it is to stop. */
    method Check() returns (failed: bool, stop: bool, why: Reason)
      modifies this
      ensures state == old(state)
      ensures Answers(config, state, failed, stop, why)
      ensures state.iteration >= config.minIterations && state.iteration >= config.maxIterations ==> stop
      ensures why == Convergence ==> GainOfTwo(state.bestScores) < 2.0 * config.convergenceTolerance
      ensures if stop then shouldStop && reason == why else shouldStop == old(shouldStop) && reason == old(reason)
    {
      failed, stop, why := false, false, Continue;
      if state.iteration < config.minIterations {
        return;
      }
      if Reached(state.budgetSpent, config.maxBudget) {
        why := BudgetExhausted;
      } else if state.iteration >= config.maxIterations {
        why := MaxIterations;
      } else if state.evaluations >= config.maxEvaluations {
        why := MaxEvaluations;
      } else if Reached(state.wallTime, config.maxWallTime) {
        why := BudgetExhausted;
      } else if IsConfident(config, state.confidenceScores) {
        why := ConfidenceMet;
      } else if !CanAsk(config, state.bestScores) {
        failed := true;
        return;
      } else if IsPlateau(config, state.bestScores) {
        why := Plateau;
      } else if IsConverged(config, state.bestScores) {
        why := Convergence;
      } else {
        return;
      }
      assert Applies(config, state, why);
      stop, shouldStop, reason := true, true, why;
    }
  }

  /** Scores that never get worse. */
  ghost predicate Monotone(best: seq<real>, maximize: bool) {
    forall i, j | 0 <= i <= j < |best| :: if maximize then best[i] <= best[j] else best[i] >= best[j]
  }

  lemma EndsAreExtremes(window: seq<real>, maximize: bool)
    requires window != [] && Monotone(window, maximize)
    ensures Spread(window) == Abs(window[|window| - 1] - window[0])
  {
    var first, last := window[0], window[|window| - 1];
    assert first in window && last in window;
    var i :| 0 <= i < |window| && window[i] == MaxOf(window);
    var j :| 0 <= j < |window| && window[j] == MinOf(window);
  }

  lemma WindowIsMonotone(c: Config, best: seq<real>, maximize: bool)
    requires CanAsk(c, best) && |best| >= c.plateauWindow && Monotone(best, maximize)
    ensures var window := WindowOf(c, best);
      window != [] && Monotone(window, maximize) && window[|window| - 1] == best[|best| - 1]
  {
    var window := WindowOf(c, best);
    var from := |best| - |window|;
    assert forall i | 0 <= i < |window| :: window[i] == best[from + i];
  }

  /** With scores that never get worse, the plateau test is the difference of the window's ends. */
  lemma PlateauIsTheGap(c: Config, best: seq<real>, maximize: bool)
    requires CanAsk(c, best) && Monotone(best, maximize)
    ensures IsPlateau(c, best) <==>
      |best| >= c.plateauWindow && Abs(best[|best| - 1] - WindowOf(c, best)[0]) < c.plateauThreshold
  {
    if |best| >= c.plateauWindow {
      var window := WindowOf(c, best);
      WindowIsMonotone(c, best, maximize);
      EndsAreExtremes(window, maximize);
    }
  }
}
