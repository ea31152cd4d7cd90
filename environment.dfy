/** The traffic environment around the simulator: the observation encoding, the
    phase-command rule, the reward and the step counter. Everything the simulator
    reports (halting counts per lane, the current phase) arrives as an input. */
module Environment {
  import opened Wrappers
  import Generator

  /** Signal phases of junction "c", as the simulator's programme numbers them. */
  const NS_GREEN: int := 0
  const NS_YELLOW: int := 1
  const EW_GREEN: int := 2
  const EW_YELLOW: int := 3

  /** The monitored incoming lanes, in the fixed order of the observation. */
  const Lanes: seq<string> := ["n_to_c_0", "n_to_c_1", "s_to_c_0", "s_to_c_1",
                               "e_to_c_0", "e_to_c_1", "w_to_c_0", "w_to_c_1"]

  /** Vehicles generated for every episode by reset. */
  const CarsPerEpisode: nat := 800

  /** Halting vehicles in the last simulation step, per lane id. */
  type Telemetry = map<string, int>

  /** The simulator reports a count for every monitored lane. */
  predicate Covers(halting: Telemetry)
  {
    forall l :: l in Lanes ==> l in halting
  }

  // ---------------------------------------------------------------------------
  // _get_state

  /** Queue discretisation: fewer than 3 halting vehicles is level 0, fewer than 8
      level 1, anything else level 2. */
  function Level(q: int): (l: int)
    ensures 0 <= l <= 2
    ensures l == 0 <==> q < 3
    ensures l == 1 <==> 3 <= q < 8
    ensures l == 2 <==> 8 <= q
  {
    if q < 3 then 0 else if q < 8 then 1 else 2
  }

  /** More halting vehicles never give a lower level. */
  lemma LevelMonotone(q1: int, q2: int)
    requires q1 <= q2
    ensures Level(q1) <= Level(q2)
  {
  }

  /** The observation: the level of each lane in lane order, then the phase. */
  function Observe(halting: Telemetry, phase: int): (s: seq<int>)
    requires Covers(halting)
    ensures |s| == |Lanes| + 1
    ensures s[|Lanes|] == phase
  {
    seq(|Lanes| + 1, i requires 0 <= i <= |Lanes| => if i < |Lanes| then Level(halting[Lanes[i]]) else phase)
  }

  /** Entry i of the observation is the level of lane i, for each of the eight
      monitored lanes. Stated apart from Observe so that proofs about whole episodes
      do not carry a quantifier for every observation they mention. */
  lemma ObserveLevels(halting: Telemetry, phase: int)
    requires Covers(halting)
    ensures forall i :: 0 <= i < |Lanes| ==> Observe(halting, phase)[i] == Level(halting[Lanes[i]])
  {
  }

  /** The example telemetry [0, 2, 3, 7, 8, 15, 1, 1] in NS green is observed as
      levels [0, 0, 1, 1, 2, 2, 0, 0] followed by phase 0. */
  lemma ObserveExample()
    ensures Observe(map["n_to_c_0" := 0, "n_to_c_1" := 2, "s_to_c_0" := 3, "s_to_c_1" := 7,
                        "e_to_c_0" := 8, "e_to_c_1" := 15, "w_to_c_0" := 1, "w_to_c_1" := 1], NS_GREEN)
            == [0, 0, 1, 1, 2, 2, 0, 0, 0]
  {
  }

  // ---------------------------------------------------------------------------
  // _get_reward

  /** The halting counts of `lanes` added up in list order; never negative when the
      counts are not. */
  function LaneSum(lanes: seq<string>, halting: Telemetry): (total: int)
    requires forall l :: l in lanes ==> l in halting
    ensures (forall l :: l in lanes ==> halting[l] >= 0) ==> total >= 0
  {
    if lanes == [] then 0
    else LaneSum(lanes[..|lanes| - 1], halting) + halting[lanes[|lanes| - 1]]
  }

  /** The reward: minus the total number of halting vehicles, so never positive
      when the counts are not negative. */
  function Reward(halting: Telemetry): (r: int)
    requires Covers(halting)
    ensures (forall l :: l in Lanes ==> halting[l] >= 0) ==> r <= 0
  {
    -LaneSum(Lanes, halting)
  }

  /** With non-negative counts the sum is non-negative, and it is 0 exactly when
      every lane's count is 0. */
  lemma {:induction false} LaneSumZeroIff(lanes: seq<string>, halting: Telemetry)
    requires forall l :: l in lanes ==> l in halting && halting[l] >= 0
    ensures LaneSum(lanes, halting) >= 0
    ensures LaneSum(lanes, halting) == 0 <==> forall l :: l in lanes ==> halting[l] == 0
  {
    if lanes != [] {
      var init := lanes[..|lanes| - 1];
      assert forall l :: l in init ==> l in lanes;
      LaneSumZeroIff(init, halting);
      assert forall l :: l in lanes ==> l in init || l == lanes[|lanes| - 1];
    }
  }

  /** The reward is never positive, and it is 0 exactly when no monitored lane has a
      halting vehicle. */
  lemma RewardZeroIff(halting: Telemetry)
    requires Covers(halting)
    requires forall l :: l in Lanes ==> halting[l] >= 0
    ensures Reward(halting) <= 0
    ensures Reward(halting) == 0 <==> forall l :: l in Lanes ==> halting[l] == 0
  {
    LaneSumZeroIff(Lanes, halting);
  }

  // ---------------------------------------------------------------------------
  // The phase-command rule of step

  /** The green phase an action asks for: 0 for north-south, 1 for east-west. */
  function WantedGreen(action: int): Option<int>
  {
    if action == 0 then Some(NS_GREEN) else if action == 1 then Some(EW_GREEN) else None
  }

  /** The yellow that follows a green in the simulator's programme. */
  function YellowAfter(green: int): int
  {
    green + 1
  }

  /** The phase step commands, if any: only when a recognised action wants a green
      other than the green in effect, and then that green's own yellow. */
  function PhaseCommand(action: int, phase: int): (cmd: Option<int>)
    ensures cmd.Some? <==>
      (phase == NS_GREEN || phase == EW_GREEN) && WantedGreen(action).Some? && WantedGreen(action).value != phase
    ensures cmd.Some? ==> cmd.value == YellowAfter(phase)
  {
    if action == 0 && phase == 2 then Some(3)
    else if action == 1 && phase == 0 then Some(1)
    else None
  }

  /** The controller never leaves a yellow phase itself, never moves off the green an
      action already has, and only ever moves a green to its own yellow. */
  lemma PhaseCommandOnlyStartsYellow(action: int, phase: int)
    ensures (phase == NS_YELLOW || phase == EW_YELLOW) ==> PhaseCommand(action, phase) == None
    ensures WantedGreen(action) == Some(phase) ==> PhaseCommand(action, phase) == None
    ensures PhaseCommand(action, phase) == Some(EW_YELLOW) <==> action == 0 && phase == EW_GREEN
    ensures PhaseCommand(action, phase) == Some(NS_YELLOW) <==> action == 1 && phase == NS_GREEN
  {
  }

  // ---------------------------------------------------------------------------
  // TrafficEnv

  class TrafficEnv {
    /** Steps per episode. */
    const maxSteps: int
    /** Steps taken since the last reset. */
    var stepCount: int
    /** Episodes started. */
    var runId: int

    constructor (maxSteps: int)
      ensures this.maxSteps == maxSteps && stepCount == 0 && runId == 0
    {
      this.maxSteps := maxSteps;
      stepCount := 0;
      runId := 0;
    }

    /** _get_state: appends each lane's level in lane order, then the phase. */
    method GetState(halting: Telemetry, phase: int) returns (state: seq<int>)
      requires Covers(halting)
      ensures |state| == |Lanes| + 1
      ensures forall i :: 0 <= i < |Lanes| ==> state[i] == Level(halting[Lanes[i]])
      ensures state[|Lanes|] == phase
      ensures state == Observe(halting, phase)
    {
      state := [];
      for i := 0 to |Lanes|
        invariant |state| == i
        invariant forall j :: 0 <= j < i ==> state[j] == Level(halting[Lanes[j]])
      {
        var qLen := halting[Lanes[i]];
        if qLen < 3 {
          state := state + [0];
        } else if qLen < 8 {
          state := state + [1];
        } else {
          state := state + [2];
        }
      }
      state := state + [phase];
    }

    /** _get_reward: accumulates the lanes' halting counts and negates the total. */
    method GetReward(halting: Telemetry) returns (reward: int)
      requires Covers(halting)
      ensures reward == Reward(halting)
    {
      var totalWaiting := 0;
      for i := 0 to |Lanes|
        invariant totalWaiting == LaneSum(Lanes[..i], halting)
      {
        assert Lanes[..i + 1][..i] == Lanes[..i];
        totalWaiting := totalWaiting + halting[Lanes[i]];
      }
      assert Lanes[..|Lanes|] == Lanes;
      reward := -totalWaiting;
    }

    /** reset: counts the episode, regenerates the route file from the given draws
        (which raises when max_steps < 50), restarts the simulation and observes. */
    method Reset(routeDraws: seq<Generator.Car>, halting: Telemetry, phase: int)
      returns (routes: Generator.RouteOutput, state: seq<int>)
      requires !Generator.Raises(maxSteps, CarsPerEpisode) ==>
        Generator.DrawsFit(routeDraws, maxSteps, CarsPerEpisode)
      requires Covers(halting)
      modifies this
      ensures runId == old(runId) + 1
      ensures routes.Aborted? <==> Generator.Raises(maxSteps, CarsPerEpisode)
      ensures routes.Complete? ==> routes.lines == Generator.RouteFile(Generator.SortCars(routeDraws))
      ensures routes.Complete? ==> stepCount == 0 && state == Observe(halting, phase)
      ensures routes.Aborted? ==> stepCount == old(stepCount)
    {
      runId := runId + 1;
      routes := Generator.GenerateRouteFile(maxSteps, CarsPerEpisode, routeDraws);
      if routes.Aborted? {
        return routes, [];
      }
      stepCount := 0;
      state := GetState(halting, phase);
    }

    /** step: counts the step, issues the phase command for `action` given the phase
        `currentPhase` in effect, then observes the telemetry after the simulation
        step. */
    method Step(action: int, currentPhase: int, halting: Telemetry, phase: int)
      returns (command: Option<int>, state: seq<int>, reward: int, done: bool)
      requires Covers(halting)
      modifies this`stepCount
      ensures stepCount == old(stepCount) + 1
      ensures command == PhaseCommand(action, currentPhase)
      ensures state == Observe(halting, phase)
      ensures reward == Reward(halting)
      ensures done <==> stepCount >= maxSteps
    {
      stepCount := stepCount + 1;
      if action == 0 && currentPhase == 2 {
        command := Some(3);
      } else if action == 1 && currentPhase == 0 {
        command := Some(1);
      } else {
        command := None;
      }
      state := GetState(halting, phase);
      reward := GetReward(halting);
      done := stepCount >= maxSteps;
    }
  }
}
