/** The training loop: episodes of reset, then choose / step / learn until the step
    budget is spent, with the per-episode reward recorded and exploration decayed
    between episodes. The simulator's telemetry and the agent's random draws arrive
    as an input feed, one record per episode. */
module Training {
  import opened Wrappers
  import opened QTable
  import Agent
  import Environment
  import Generator

  /** Training parameters of the script. */
  const EPISODES: nat := 100
  const MAX_STEPS: int := 1000
  const ALPHA: real := 0.1
  const GAMMA: real := 0.9
  const EPSILON: real := 0.4
  const MIN_EPSILON: real := 0.01
  const DECAY: real := 0.99

  /** The environment's action space: keep north-south green or switch to east-west. */
  const ACTIONS: nat := 2

  // ---------------------------------------------------------------------------
  // Exploration decay

  /** One end-of-episode decay: multiply while still above the floor. */
  function DecayEpsilon(eps: real, minEps: real, decay: real): real
  {
    if eps > minEps then eps * decay else eps
  }

  /** Exploration rate after k episodes. */
  function EpsilonAfter(eps0: real, minEps: real, decay: real, k: nat): real
  {
    if k == 0 then eps0 else DecayEpsilon(EpsilonAfter(eps0, minEps, decay, k - 1), minEps, decay)
  }

  /** A non-negative rate stays non-negative. */
  lemma {:induction false} EpsilonNonNegative(eps0: real, minEps: real, decay: real, k: nat)
    requires 0.0 <= eps0 && 0.0 <= decay
    ensures 0.0 <= EpsilonAfter(eps0, minEps, decay, k)
  {
    if k > 0 {
      EpsilonNonNegative(eps0, minEps, decay, k - 1);
      var e := EpsilonAfter(eps0, minEps, decay, k - 1);
      assert 0.0 <= e * decay;
    }
  }

  /** With a decay factor in [0, 1] exploration never increases from one episode to
      the next. */
  lemma EpsilonNonIncreasing(eps0: real, minEps: real, decay: real, k: nat)
    requires 0.0 <= eps0 && 0.0 <= decay <= 1.0
    ensures EpsilonAfter(eps0, minEps, decay, k + 1) <= EpsilonAfter(eps0, minEps, decay, k)
  {
    EpsilonNonNegative(eps0, minEps, decay, k);
    DecayShrinks(EpsilonAfter(eps0, minEps, decay, k), minEps, decay);
  }

  /** One decay of a non-negative rate by a factor in [0, 1] does not increase it. */
  lemma DecayShrinks(eps: real, minEps: real, decay: real)
    requires 0.0 <= eps && 0.0 <= decay <= 1.0
    ensures DecayEpsilon(eps, minEps, decay) <= eps
  {
    if eps > minEps {
      assert eps * decay <= eps * 1.0;
    }
  }

  /** Once the rate is at or below the floor it never changes again. */
  lemma {:induction false} EpsilonFrozen(eps0: real, minEps: real, decay: real, k: nat, j: nat)
    requires EpsilonAfter(eps0, minEps, decay, k) <= minEps
    ensures EpsilonAfter(eps0, minEps, decay, k + j) == EpsilonAfter(eps0, minEps, decay, k)
  {
    if j > 0 {
      EpsilonFrozen(eps0, minEps, decay, k, j - 1);
    }
  }

  /** The floor is not a clamp: the rate never drops below any bound lo that lies
      under both its start and floor * decay, the value one multiplication from just
      above the floor. */
  lemma {:induction false} EpsilonLowerBound(eps0: real, minEps: real, decay: real, k: nat, lo: real)
    requires 0.0 < decay
    requires lo <= eps0 && lo <= minEps * decay
    ensures lo <= EpsilonAfter(eps0, minEps, decay, k)
  {
    if k > 0 {
      EpsilonLowerBound(eps0, minEps, decay, k - 1, lo);
      var e := EpsilonAfter(eps0, minEps, decay, k - 1);
      assert EpsilonAfter(eps0, minEps, decay, k) == DecayEpsilon(e, minEps, decay);
      if e > minEps {
        DecayAboveFloor(e, minEps, decay);
      }
    }
  }

  /** Decaying a rate above the floor lands above floor * decay. */
  lemma DecayAboveFloor(eps: real, minEps: real, decay: real)
    requires eps > minEps && 0.0 < decay
    ensures DecayEpsilon(eps, minEps, decay) > minEps * decay
  {
    assert (eps - minEps) * decay > 0.0;
  }

  /** The undershoot the floor test allows: a rate just above 0.01 decays by 0.99 to
      below 0.01. */
  lemma EpsilonUndershoot()
    ensures DecayEpsilon(0.0101, MIN_EPSILON, DECAY) < MIN_EPSILON
    ensures EpsilonAfter(0.0101, MIN_EPSILON, DECAY, 2) == EpsilonAfter(0.0101, MIN_EPSILON, DECAY, 1)
  {
  }

  // ---------------------------------------------------------------------------
  // Feed and trace

  /** What one step consumes: the agent's uniform draw and exploring action, the phase
      in effect when the command is issued, and the telemetry and phase the
      simulator reports after its step. */
  datatype Tick = Tick(u: real, randomAction: int, phaseBefore: int,
                       halting: Environment.Telemetry, phaseAfter: int)

  /** What one episode consumes: the route-file draws, the telemetry observed on
      reset, and one tick per step. */
  datatype EpisodeFeed = EpisodeFeed(routeDraws: seq<Generator.Car>, initialHalting: Environment.Telemetry,
                                     initialPhase: int, ticks: seq<Tick>)

  /** The feed is one the simulator and the random generators could produce for an
      episode of maxSteps steps. step reads the phase again before commanding, with
      no simulation step since the last observation, so each tick's phaseBefore is
      the phase the previous observation (reset's, for the first tick) reported. */
  predicate FeedFits(f: EpisodeFeed, maxSteps: int)
  {
    && (!Generator.Raises(maxSteps, Environment.CarsPerEpisode) ==>
          Generator.DrawsFit(f.routeDraws, maxSteps, Environment.CarsPerEpisode))
    && Environment.Covers(f.initialHalting)
    && |f.ticks| >= maxSteps
    && (forall k :: 0 <= k < |f.ticks| ==> TickFits(f.ticks[k]))
    && (|f.ticks| > 0 ==> f.ticks[0].phaseBefore == f.initialPhase)
    && (forall k :: 0 < k < |f.ticks| ==> f.ticks[k].phaseBefore == f.ticks[k - 1].phaseAfter)
  }

  /** A tick holds a uniform draw, an action of the action space and a halting count,
      never negative, for every observed lane. */
  predicate TickFits(t: Tick)
  {
    && 0.0 <= t.u <= 1.0
    && 0 <= t.randomAction < ACTIONS
    && Environment.Covers(t.halting)
    && (forall l :: l in Environment.Lanes ==> t.halting[l] >= 0)
  }

  /** One (state, action, reward, next state) step of an episode, with the phase
      command step issued for it. */
  datatype Transition = Transition(state: seq<int>, action: int, command: Option<int>,
                                   reward: int, nextState: seq<int>)

  /** The table after learning from one transition. */
  ghost function LearnFrom(t: Table, tr: Transition): (t': Table)
    ensures WellFormed(t, ACTIONS) ==> WellFormed(t', ACTIONS)
  {
    if WellFormed(t, ACTIONS) && 0 <= tr.action < ACTIONS then
      Learned(t, ACTIONS, ALPHA, GAMMA, StateKey(tr.state), tr.action, tr.reward as real, StateKey(tr.nextState))
    // Unreachable totalisation: a chained trace never has a malformed table or an
    // out-of-range action here (learn would raise IndexError); not behaviour.
    else t
  }

  /** The table after learning from the transitions in order. */
  ghost function Replay(t: Table, trs: seq<Transition>): (t': Table)
    ensures WellFormed(t, ACTIONS) ==> WellFormed(t', ACTIONS)
  {
    if trs == [] then t
    else LearnFrom(Replay(t, trs[..|trs| - 1]), trs[|trs| - 1])
  }

  /** The table after the whole training trace, from an empty one. */
  ghost function TrainedTable(trace: seq<seq<Transition>>): (t: Table)
    ensures WellFormed(t, ACTIONS)
  {
    if trace == [] then map[]
    else Replay(TrainedTable(trace[..|trace| - 1]), trace[|trace| - 1])
  }

  /** The action choose_action takes in `state` on a tick: the exploring draw when
      the uniform draw is below eps, otherwise the first best action of the state's
      row, a row of zeros when the state is new. */
  function ChosenAction(state: seq<int>, tick: Tick, eps: real, table: Table): int
  {
    if tick.u < eps then tick.randomAction
    else
      var row := Lookup(table, ACTIONS, StateKey(state));
      if |row| > 0 then ArgMax(row)
      // Unreachable totalisation: rows of a well-formed table are never empty
      // (np.argmax of an empty row would raise); not behaviour.
      else 0
  }

  /** The chosen action is an action of the action space, and when exploiting it is
      the first best action of the state's row. */
  lemma ChosenActionGreedy(state: seq<int>, tick: Tick, eps: real, table: Table)
    requires WellFormed(table, ACTIONS) && 0 <= tick.randomAction < ACTIONS
    ensures var a := ChosenAction(state, tick, eps, table);
      && 0 <= a < ACTIONS
      && (tick.u < eps ==> a == tick.randomAction)
      && (!(tick.u < eps) ==>
            var row := Lookup(table, ACTIONS, StateKey(state));
            && row[a] == RowMax(row)
            && (forall j :: 0 <= j < a ==> row[j] < row[a]))
  {
  }

  /** The transition one tick makes from `state`: the chosen action, the phase
      command step issues for it, and the reward and observation of the telemetry
      reported afterwards. */
  function StepOf(state: seq<int>, tick: Tick, eps: real, table: Table): Transition
    requires Environment.Covers(tick.halting)
  {
    var a := ChosenAction(state, tick, eps, table);
    Transition(state, a, Environment.PhaseCommand(a, tick.phaseBefore),
               Environment.Reward(tick.halting), Environment.Observe(tick.halting, tick.phaseAfter))
  }

  /** The state step k of an episode starts from: the reset observation for the
      first step, the state the step before reached for the others. */
  function StateBefore(trs: seq<Transition>, f: EpisodeFeed, k: nat): seq<int>
    requires k <= |trs| && Environment.Covers(f.initialHalting)
  {
    if k == 0 then Environment.Observe(f.initialHalting, f.initialPhase) else trs[k - 1].nextState
  }

  /** The transitions of an episode follow the feed: each step is the one its tick
      makes from the state before it, at exploration rate eps and with the table
      learnt from the steps before it. Stated step by step from the end;
      ChainedStep gives the per-index reading. */
  ghost predicate Chained(trs: seq<Transition>, f: EpisodeFeed, eps: real, t0: Table)
    decreases |trs|
  {
    if trs == [] then true
    else
      var k := |trs| - 1;
      && Chained(trs[..k], f, eps, t0)
      && k < |f.ticks|
      && Environment.Covers(f.initialHalting)
      && Environment.Covers(f.ticks[k].halting)
      && trs[k] == StepOf(StateBefore(trs, f, k), f.ticks[k], eps, Replay(t0, trs[..k]))
  }

  /** Step k of a chained episode is the transition tick k makes from the state
      before it, with the table learnt from the k steps before it. */
  lemma {:induction false} ChainedStep(trs: seq<Transition>, f: EpisodeFeed, eps: real, t0: Table, k: nat)
    requires Chained(trs, f, eps, t0)
    requires k < |trs|
    ensures k < |f.ticks| && Environment.Covers(f.initialHalting) && Environment.Covers(f.ticks[k].halting)
    ensures trs[k] == StepOf(StateBefore(trs, f, k), f.ticks[k], eps, Replay(t0, trs[..k]))
  {
    var last := |trs| - 1;
    if k < last {
      var init := trs[..last];
      ChainedStep(init, f, eps, t0, k);
      assert init[k] == trs[k] && init[..k] == trs[..k];
      assert StateBefore(init, f, k) == StateBefore(trs, f, k);
    }
  }

  /** Step k of a chained episode through a feed that fits commands on the phase its
      own state shows, and earns a reward that is never positive. */
  lemma ChainedStepSeesPhase(trs: seq<Transition>, f: EpisodeFeed, eps: real, t0: Table, maxSteps: int, k: nat)
    requires FeedFits(f, maxSteps) && Chained(trs, f, eps, t0)
    requires k < |trs|
    ensures |trs[k].state| == |Environment.Lanes| + 1
    ensures trs[k].command == Environment.PhaseCommand(trs[k].action, trs[k].state[|Environment.Lanes|])
    ensures trs[k].reward <= 0
  {
    ChainedStep(trs, f, eps, t0, k);
    if k > 0 {
      ChainedStep(trs, f, eps, t0, k - 1);
    }
    assert TickFits(f.ticks[k]);
  }

  /** The total reward of an episode: its rewards added up in step order. */
  function TotalReward(trs: seq<Transition>): int
  {
    if trs == [] then 0 else TotalReward(trs[..|trs| - 1]) + trs[|trs| - 1].reward
  }

  /** Rewards are never positive when the counts are not, so neither is an episode's
      total; it is 0 only when every step's reward is. */
  lemma {:induction false} TotalRewardNonPositive(trs: seq<Transition>)
    requires forall k :: 0 <= k < |trs| ==> trs[k].reward <= 0
    ensures TotalReward(trs) <= 0
    ensures TotalReward(trs) == 0 <==> forall k :: 0 <= k < |trs| ==> trs[k].reward == 0
  {
    if trs != [] {
      var init := trs[..|trs| - 1];
      TotalRewardNonPositive(init);
      assert forall k :: 0 <= k < |init| ==> init[k] == trs[k];
    }
  }

  /** An episode chained through a feed that fits never totals a positive reward, and
      totals 0 exactly when no step saw a halting vehicle. */
  lemma ChainedTotalNonPositive(trs: seq<Transition>, f: EpisodeFeed, eps: real, t0: Table, maxSteps: int)
    requires FeedFits(f, maxSteps) && Chained(trs, f, eps, t0)
    ensures TotalReward(trs) <= 0
    ensures TotalReward(trs) == 0 <==> forall k :: 0 <= k < |trs| ==> trs[k].reward == 0
  {
    forall k | 0 <= k < |trs| ensures trs[k].reward <= 0 {
      ChainedStepSeesPhase(trs, f, eps, t0, maxSteps, k);
    }
    TotalRewardNonPositive(trs);
  }

  // ---------------------------------------------------------------------------
  // The loop

  /** The outcome of run: the episode totals and the final table and rate, or the
      error reset raised. */
  datatype RunOutcome =
    | Completed(episodeRewards: seq<int>, qTable: Table, epsilon: real)
    | Crashed

  /** One iteration of the episode loop: reset, then choose / step / learn until
      step reports done. */
  method RunEpisode(env: Environment.TrafficEnv, agent: Agent.QLearningAgent, f: EpisodeFeed)
    returns (crashed: bool, totalReward: int, ghost trs: seq<Transition>)
    requires agent.Valid() && agent.actionSpaceSize == ACTIONS && agent.alpha == ALPHA && agent.gamma == GAMMA
    requires FeedFits(f, env.maxSteps)
    modifies env, agent`qTable
    ensures agent.Valid()
    ensures env.runId == old(env.runId) + 1
    ensures crashed <==> Generator.Raises(env.maxSteps, Environment.CarsPerEpisode)
    ensures crashed ==> agent.qTable == old(agent.qTable) && env.stepCount == old(env.stepCount)
    ensures !crashed ==>
      && env.stepCount == env.maxSteps
      && |trs| == env.maxSteps
      && Chained(trs, f, agent.epsilon, old(agent.qTable))
      && agent.qTable == Replay(old(agent.qTable), trs)
      && totalReward == TotalReward(trs)
  {
    var routes, state := env.Reset(f.routeDraws, f.initialHalting, f.initialPhase);
    if routes.Aborted? {
      return true, 0, [];
    }
    crashed := false;
    totalReward, trs := PlaySteps(env, agent, f, state);
  }

  /** The step loop of an episode after reset: choose / step / learn until step
      reports done, adding up the rewards. */
  method PlaySteps(env: Environment.TrafficEnv, agent: Agent.QLearningAgent, f: EpisodeFeed, state0: seq<int>)
    returns (totalReward: int, ghost trs: seq<Transition>)
    requires agent.Valid() && agent.actionSpaceSize == ACTIONS && agent.alpha == ALPHA && agent.gamma == GAMMA
    requires FeedFits(f, env.maxSteps)
    requires env.stepCount == 0 < env.maxSteps
    requires state0 == Environment.Observe(f.initialHalting, f.initialPhase)
    modifies env`stepCount, agent`qTable
    ensures agent.Valid()
    ensures env.stepCount == env.maxSteps
    ensures |trs| == env.maxSteps
    ensures Chained(trs, f, agent.epsilon, old(agent.qTable))
    ensures agent.qTable == Replay(old(agent.qTable), trs)
    ensures totalReward == TotalReward(trs)
  {
    var state := state0;
    totalReward := 0;
    trs := [];
    ghost var t0 := agent.qTable;
    var done := false;
    while !done
      invariant agent.Valid()
      invariant 0 <= env.stepCount <= env.maxSteps && |trs| == env.stepCount
      invariant done <==> env.stepCount >= env.maxSteps
      invariant state == StateBefore(trs, f, |trs|)
      invariant Chained(trs, f, agent.epsilon, t0)
      invariant agent.qTable == Replay(t0, trs)
      invariant totalReward == TotalReward(trs)
      decreases env.maxSteps - env.stepCount
    {
      var tick := f.ticks[env.stepCount];
      var tr, d := PlayStep(env, agent, state, tick);
      trs := ExtendChain(trs, tr, f, agent.epsilon, t0);
      state := tr.nextState;
      totalReward := totalReward + tr.reward;
      done := d;
    }
  }

  /** The body of the step loop: choose an action for `state`, step the environment
      with it, learn from the outcome. The transition records what happened. */
  method PlayStep(env: Environment.TrafficEnv, agent: Agent.QLearningAgent, state: seq<int>, tick: Tick)
    returns (tr: Transition, done: bool)
    requires agent.Valid() && agent.actionSpaceSize == ACTIONS && agent.alpha == ALPHA && agent.gamma == GAMMA
    requires TickFits(tick)
    modifies env`stepCount, agent`qTable
    ensures agent.Valid()
    ensures env.stepCount == old(env.stepCount) + 1 && env.runId == old(env.runId)
    ensures done <==> env.stepCount >= env.maxSteps
    ensures tr == StepOf(state, tick, agent.epsilon, old(agent.qTable))
    ensures agent.qTable == LearnFrom(old(agent.qTable), tr)
  {
    ghost var t := agent.qTable;
    var action := agent.ChooseAction(state, tick.u, tick.randomAction);
    ghost var t1 := agent.qTable;
    var command, nextState, reward, d := env.Step(action, tick.phaseBefore, tick.halting, tick.phaseAfter);
    agent.Learn(state, action, reward as real, nextState);
    tr := Transition(state, action, command, reward, nextState);
    done := d;
    StepAgrees(t, t1, tick, agent.epsilon, tr);
  }

  /** What one pass of the step loop records -- the action chosen with the table
      the choice left behind, and what step returned for it -- is the transition
      StepOf describes, and learn on the table left by the choice is LearnFrom on
      the table before it. */
  lemma StepAgrees(t: Table, t1: Table, tick: Tick, eps: real, tr: Transition)
    requires WellFormed(t, ACTIONS) && TickFits(tick)
    requires tick.u < eps ==> tr.action == tick.randomAction && t1 == t
    requires !(tick.u < eps) ==>
      var key := StateKey(tr.state);
      t1 == GetOrInsert(t, ACTIONS, key) && tr.action == ArgMax(Lookup(t, ACTIONS, key))
    requires tr.command == Environment.PhaseCommand(tr.action, tick.phaseBefore)
    requires tr.reward == Environment.Reward(tick.halting)
    requires tr.nextState == Environment.Observe(tick.halting, tick.phaseAfter)
    ensures 0 <= tr.action < ACTIONS && WellFormed(t1, ACTIONS)
    ensures tr == StepOf(tr.state, tick, eps, t)
    ensures Learned(t1, ACTIONS, ALPHA, GAMMA, StateKey(tr.state), tr.action, tr.reward as real, StateKey(tr.nextState))
         == LearnFrom(t, tr)
  {
    if !(tick.u < eps) {
      LearnedAbsorbsInsert(t, ACTIONS, ALPHA, GAMMA, StateKey(tr.state), tr.action, tr.reward as real, StateKey(tr.nextState));
    }
  }

  /** Appending the transition the next tick makes from the last state keeps an
      episode chained. */
  lemma ExtendChain(trs: seq<Transition>, tr: Transition, f: EpisodeFeed, eps: real, t0: Table)
    returns (longer: seq<Transition>)
    requires Chained(trs, f, eps, t0)
    requires |trs| < |f.ticks| && Environment.Covers(f.initialHalting) && Environment.Covers(f.ticks[|trs|].halting)
    requires tr == StepOf(StateBefore(trs, f, |trs|), f.ticks[|trs|], eps, Replay(t0, trs))
    ensures |longer| == |trs| + 1 && longer[..|trs|] == trs && longer[|trs|] == tr
    ensures Chained(longer, f, eps, t0)
    ensures Replay(t0, longer) == LearnFrom(Replay(t0, trs), tr)
    ensures TotalReward(longer) == TotalReward(trs) + tr.reward
  {
    longer := trs + [tr];
    assert longer[..|trs|] == trs;
  }

  /** run: a fresh environment and agent, then `episodes` episodes, each followed by
      the exploration decay. Returns the per-episode totals, the learnt table and the
      final rate, or Crashed when the first reset raises; the ghost trace holds every
      episode's transitions. */
  method Train(episodes: nat, maxSteps: int, epsilon: real,
               minEpsilon: real, decay: real, feed: seq<EpisodeFeed>)
    returns (outcome: RunOutcome, ghost trace: seq<seq<Transition>>)
    requires |feed| == episodes
    requires forall e :: 0 <= e < episodes ==> FeedFits(feed[e], maxSteps)
    ensures outcome.Crashed? <==> episodes > 0 && Generator.Raises(maxSteps, Environment.CarsPerEpisode)
    ensures outcome.Completed? ==>
      && |outcome.episodeRewards| == episodes && |trace| == episodes
      && outcome.epsilon == EpsilonAfter(epsilon, minEpsilon, decay, episodes)
      && outcome.qTable == TrainedTable(trace)
      && WellFormed(outcome.qTable, ACTIONS)
      && Recorded(trace, outcome.episodeRewards, feed, maxSteps, epsilon, minEpsilon, decay)
      && (forall e :: 0 <= e < episodes ==> outcome.episodeRewards[e] <= 0)
  {
    var env := new Environment.TrafficEnv(maxSteps);
    var agent := new Agent.QLearningAgent(ACTIONS, ALPHA, GAMMA, epsilon);
    var episodeRewards := [];
    trace := [];
    for episode := 0 to episodes
      invariant agent.Valid() && agent.actionSpaceSize == ACTIONS
      invariant agent.alpha == ALPHA && agent.gamma == GAMMA
      invariant env.maxSteps == maxSteps
      invariant |episodeRewards| == episode && |trace| == episode
      invariant episode > 0 ==> !Generator.Raises(maxSteps, Environment.CarsPerEpisode)
      invariant agent.epsilon == EpsilonAfter(epsilon, minEpsilon, decay, episode)
      invariant agent.qTable == TrainedTable(trace)
      invariant Recorded(trace, episodeRewards, feed, maxSteps, epsilon, minEpsilon, decay)
    {
      var crashed, totalReward, trs := TrainEpisode(env, agent, feed, episode, epsilon, minEpsilon, decay, trace, episodeRewards);
      if crashed {
        return Crashed, trace;
      }
      episodeRewards := episodeRewards + [totalReward];
      trace := trace + [trs];
    }
    RecordedRewardsNonPositive(trace, episodeRewards, feed, maxSteps, epsilon, minEpsilon, decay);
    outcome := Completed(episodeRewards, agent.qTable, agent.epsilon);
  }

  /** One iteration of the episode loop of run: the episode itself, then the
      exploration decay. Given a record of the episodes so far and the agent in the
      state they left it, the record grows by this episode and the agent moves on
      to the next rate and the table trained by one more episode. */
  method TrainEpisode(env: Environment.TrafficEnv, agent: Agent.QLearningAgent, feed: seq<EpisodeFeed>,
                      episode: nat, epsilon: real, minEpsilon: real, decay: real,
                      ghost trace: seq<seq<Transition>>, ghost rewards: seq<int>)
    returns (crashed: bool, totalReward: int, ghost trs: seq<Transition>)
    requires agent.Valid() && agent.actionSpaceSize == ACTIONS && agent.alpha == ALPHA && agent.gamma == GAMMA
    requires episode == |trace| < |feed| && FeedFits(feed[|trace|], env.maxSteps)
    requires agent.epsilon == EpsilonAfter(epsilon, minEpsilon, decay, |trace|)
    requires agent.qTable == TrainedTable(trace)
    requires Recorded(trace, rewards, feed, env.maxSteps, epsilon, minEpsilon, decay)
    modifies env, agent`qTable, agent`epsilon
    ensures agent.Valid()
    ensures crashed <==> Generator.Raises(env.maxSteps, Environment.CarsPerEpisode)
    ensures env.runId == old(env.runId) + 1
    ensures crashed ==> env.stepCount == old(env.stepCount)
    ensures !crashed ==>
      && env.stepCount == env.maxSteps
      && agent.epsilon == EpsilonAfter(epsilon, minEpsilon, decay, |trace| + 1)
      && agent.qTable == TrainedTable(trace + [trs])
      && Recorded(trace + [trs], rewards + [totalReward], feed, env.maxSteps, epsilon, minEpsilon, decay)
  {
    crashed, totalReward, trs := RunEpisode(env, agent, feed[episode]);
    if crashed {
      return;
    }
    ExtendRecorded(trace, rewards, trs, totalReward, feed, env.maxSteps, epsilon, minEpsilon, decay);
    DecayExploration(agent, minEpsilon, decay);
  }

  /** The end-of-episode decay applied to the agent's exploration rate. */
  method DecayExploration(agent: Agent.QLearningAgent, minEpsilon: real, decay: real)
    modifies agent`epsilon
    ensures agent.epsilon == DecayEpsilon(old(agent.epsilon), minEpsilon, decay)
  {
    if agent.epsilon > minEpsilon {
      agent.epsilon := agent.epsilon * decay;
    }
  }

  /** The episodes recorded so far: one total per episode, each episode maxSteps
      transitions long, its total their rewards added up, and its transitions
      chained through its own feed at the rate after the episodes before it and from
      the table they trained. Stated from the last episode back; RecordedEpisode
      gives the per-episode reading. */
  ghost predicate Recorded(trace: seq<seq<Transition>>, rewards: seq<int>, feed: seq<EpisodeFeed>, maxSteps: int,
                           epsilon: real, minEpsilon: real, decay: real)
    decreases |trace|
  {
    && |rewards| == |trace| <= |feed|
    && (trace != [] ==>
          var e := |trace| - 1;
          && Recorded(trace[..e], rewards[..e], feed, maxSteps, epsilon, minEpsilon, decay)
          && |trace[e]| == maxSteps
          && rewards[e] == TotalReward(trace[e])
          && Chained(trace[e], feed[e], EpsilonAfter(epsilon, minEpsilon, decay, e),
                     TrainedTable(trace[..e])))
  }

  /** Episode e of a record has maxSteps transitions and its total is their rewards
      added up. */
  lemma {:induction false} RecordedEpisode(trace: seq<seq<Transition>>, rewards: seq<int>, feed: seq<EpisodeFeed>,
                                           maxSteps: int, epsilon: real, minEpsilon: real, decay: real,
                                           e: nat)
    requires Recorded(trace, rewards, feed, maxSteps, epsilon, minEpsilon, decay)
    requires e < |trace|
    ensures |rewards| == |trace| <= |feed|
    ensures |trace[e]| == maxSteps
    ensures rewards[e] == TotalReward(trace[e])
  {
    var last := |trace| - 1;
    if e < last {
      var t, r := trace[..last], rewards[..last];
      RecordedEpisode(t, r, feed, maxSteps, epsilon, minEpsilon, decay, e);
      assert t[e] == trace[e] && r[e] == rewards[e];
    }
  }

  /** Episode e of a record is chained through feed e at the rate after e decays,
      from the table the first e episodes trained. */
  lemma {:induction false} RecordedChain(trace: seq<seq<Transition>>, rewards: seq<int>, feed: seq<EpisodeFeed>,
                                         maxSteps: int, epsilon: real, minEpsilon: real, decay: real,
                                         e: nat)
    requires Recorded(trace, rewards, feed, maxSteps, epsilon, minEpsilon, decay)
    requires e < |trace|
    ensures e < |feed|
    ensures Chained(trace[e], feed[e], EpsilonAfter(epsilon, minEpsilon, decay, e),
                    TrainedTable(trace[..e]))
  {
    var last := |trace| - 1;
    if e < last {
      var t, r := trace[..last], rewards[..last];
      RecordedChain(t, r, feed, maxSteps, epsilon, minEpsilon, decay, e);
      assert t[e] == trace[e] && t[..e] == trace[..e];
    }
  }

  /** Every recorded episode's total is never positive when the feeds fit. */
  lemma RecordedRewardsNonPositive(trace: seq<seq<Transition>>, rewards: seq<int>, feed: seq<EpisodeFeed>,
                                   maxSteps: int, epsilon: real, minEpsilon: real, decay: real)
    requires Recorded(trace, rewards, feed, maxSteps, epsilon, minEpsilon, decay)
    requires forall e :: 0 <= e < |feed| ==> FeedFits(feed[e], maxSteps)
    ensures forall e :: 0 <= e < |rewards| ==> rewards[e] <= 0
  {
    forall e | 0 <= e < |rewards| ensures rewards[e] <= 0 {
      RecordedEpisode(trace, rewards, feed, maxSteps, epsilon, minEpsilon, decay, e);
      RecordedChain(trace, rewards, feed, maxSteps, epsilon, minEpsilon, decay, e);
      ChainedTotalNonPositive(trace[e], feed[e], EpsilonAfter(epsilon, minEpsilon, decay, e),
                              TrainedTable(trace[..e]), maxSteps);
    }
  }

  /** Recording one more episode that ran maxSteps steps through the next feed, at
      the current rate and from the table trained so far, extends the record; the
      trained table becomes the replay of that episode on top of it. */
  lemma ExtendRecorded(trace: seq<seq<Transition>>, rewards: seq<int>, trs: seq<Transition>, total: int,
                       feed: seq<EpisodeFeed>, maxSteps: int, epsilon: real, minEpsilon: real, decay: real)
    requires Recorded(trace, rewards, feed, maxSteps, epsilon, minEpsilon, decay)
    requires |trace| < |feed|
    requires |trs| == maxSteps && total == TotalReward(trs)
    requires Chained(trs, feed[|trace|], EpsilonAfter(epsilon, minEpsilon, decay, |trace|),
                     TrainedTable(trace))
    ensures Recorded(trace + [trs], rewards + [total], feed, maxSteps, epsilon, minEpsilon, decay)
    ensures TrainedTable(trace + [trs]) == Replay(TrainedTable(trace), trs)
    ensures EpsilonAfter(epsilon, minEpsilon, decay, |trace| + 1)
         == DecayEpsilon(EpsilonAfter(epsilon, minEpsilon, decay, |trace|), minEpsilon, decay)
  {
    var e := |trace|;
    var trace', rewards' := trace + [trs], rewards + [total];
    assert trace'[..e] == trace && trace'[e] == trs;
    assert rewards'[..e] == rewards && rewards'[e] == total;
  }

  /** run with the script's parameters: 100 episodes of 1000 steps always complete
      (1000 steps leave the first loop of the generator a non-empty range), and every
      episode is recorded; ScriptEpsilonBounds bounds the final rate. */
  method Run(feed: seq<EpisodeFeed>) returns (outcome: RunOutcome, ghost trace: seq<seq<Transition>>)
    requires |feed| == EPISODES
    requires forall e :: 0 <= e < |feed| ==> FeedFits(feed[e], MAX_STEPS)
    ensures outcome.Completed?
    ensures |outcome.episodeRewards| == EPISODES && |trace| == EPISODES
    ensures outcome.epsilon == EpsilonAfter(EPSILON, MIN_EPSILON, DECAY, |trace|)
    ensures outcome.qTable == TrainedTable(trace)
    ensures Recorded(trace, outcome.episodeRewards, feed, MAX_STEPS, EPSILON, MIN_EPSILON, DECAY)
    ensures forall e :: 0 <= e < EPISODES ==> outcome.episodeRewards[e] <= 0
  {
    // The episode count is taken from the feed so that the decay is reasoned about
    // symbolically rather than unrolled a hundred times.
    var episodes := |feed|;
    outcome, trace := Train(episodes, MAX_STEPS, EPSILON, MIN_EPSILON, DECAY, feed);
  }

  /** With the script's parameters the rate stays between 0.01 * 0.99 and 0.4
      after any number of episodes. */
  lemma ScriptEpsilonBounds(k: nat)
    ensures MIN_EPSILON * DECAY <= EpsilonAfter(EPSILON, MIN_EPSILON, DECAY, k) <= EPSILON
  {
    EpsilonLowerBound(EPSILON, MIN_EPSILON, DECAY, k, MIN_EPSILON * DECAY);
    EpsilonBelowStart(EPSILON, MIN_EPSILON, DECAY, k);
  }

  /** With a decay factor in [0, 1] the rate never exceeds its start. */
  lemma {:induction false} EpsilonBelowStart(eps0: real, minEps: real, decay: real, k: nat)
    requires 0.0 <= eps0 && 0.0 <= decay <= 1.0
    ensures EpsilonAfter(eps0, minEps, decay, k) <= eps0
  {
    if k > 0 {
      EpsilonBelowStart(eps0, minEps, decay, k - 1);
      EpsilonNonIncreasing(eps0, minEps, decay, k - 1);
    }
  }
}
