# Q-learning traffic-signal controller — Dafny model

This project models the core of a small reinforcement-learning controller for the
single junction "c". The junction has four approaches of two lanes each. A tabular
Q-learning agent chooses between two actions at every simulation step:

- action 0 keeps or sets north-south green;
- action 1 keeps or sets east-west green.

The environment wraps a traffic simulator. It does four things:

- it encodes the eight lanes' halting-vehicle counts as queue levels 0/1/2, followed by the current phase;
- it rewards the agent with minus the total number of halting vehicles;
- it switches a green to its yellow when the action asks for the other green;
- it regenerates a random route file of 800 vehicles on every reset.

The training script runs 100 episodes of 1000 steps each. Each step is choose, then step, then learn. After each episode the exploration rate decays.

The Dafny modules follow the source files:

| module | file | models |
|---|---|---|
| `QTable` | `qtable.dfy` | The agent's sparse value table as a value: key encoding, zero rows, lookup, `np.max`/`np.argmax` of a row, the row-materialising insert and the one-step update. |
| `Agent` | `agent.dfy` | `QLearningAgent` as a class. Its table and exploration rate are fields that `ChooseAction`, `Learn`, `LoadModel` and the training loop update in place. |
| `Environment` | `environment.dfy` | Queue levels, the observation, the reward and the phase-command rule as functions. `TrafficEnv` is a class whose `Reset`/`Step` update the step counter and run id, and whose `GetState`/`GetReward` are the source's loops. |
| `Generator` | `generator.dfy` | `generate_route_file`: Python's tuple order on (departure, route), the sort, `str()` of integers, the vehicle line, and the whole file. Each vehicle line is proved to read back as the vehicle it was written for. |
| `Training` | `training.dfy` | `run`, as the episode loop and the step loop, with the exploration decay and its bounds. Each episode is recorded as a ghost trace of transitions, and the learnt table is characterised as the replay of that trace. |

Every call into the simulator becomes an input, and so does every random draw. The
inputs are:

- the halting counts per lane;
- the phase read before the command is issued;
- the phase after the simulation step;
- the uniform draw and the exploring action of `choose_action`;
- the generator's (departure, route) draws.

For training, the inputs come as one `EpisodeFeed` per episode. `FeedFits` constrains a feed to what the simulator and the random generators can produce:

- draws in their ranges;
- a count, never negative, for every monitored lane;
- the phase `step` reads before commanding equals the phase of the previous observation, because no simulation step happens between the two reads.

`Training.StepOf` defines, as a function, what one step does. The step loop is proved to follow it step by step (`Chained`). The table the agent ends with is the replay of the recorded transitions (`Replay`, `TrainedTable`).

`MIN_EPSILON` reads as a floor, but the decay rule at `src/train.py:48-49` is not a
clamp. It multiplies by 0.99 whenever the rate is still above 0.01, so it can undershoot
once. For example, 0.0101 becomes 0.009999, and after that it stays frozen. The model
follows the code:

- `Training.EpsilonUndershoot` exhibits the undershoot;
- `Training.EpsilonLowerBound` and `Training.ScriptEpsilonBounds` prove the bound that does hold, `floor * decay`.

## Model

| member | source | states |
|---|---|---|
| QTable.StateKey | src/agent.py:12-14 | The key is the state tuple itself: the same length and the same elements in order. |
| QTable.Zeros | src/agent.py:25 | The row materialised for a new state has one entry per action, all 0.0. |
| QTable.Lookup | src/agent.py:24-25 | A state reads as its stored row when present and as a zero row otherwise. In a well-formed table every row has one entry per action. |
| QTable.RowMax | src/agent.py:39 | `np.max` of a non-empty row is at least every entry and equals some entry. |
| QTable.ArgMax | src/agent.py:27 | `np.argmax` returns an index whose entry is the row maximum. Every earlier entry is strictly smaller, so ties go to the first maximum. |
| QTable.GetOrInsert | src/agent.py:24-25 | Materialising a row adds only that key. Existing rows are untouched, the new row is the zero row, and the table stays well-formed. |
| QTable.Learned | src/agent.py:29-42 | `learn` materialises both rows. It sets cell [s][a] to (1-alpha)·old + alpha·(r + gamma·max of row s'), where the old value and the maximum are read from the table before the update. Every other cell and row keeps what it stood for. The table gains only s and s'. |
| QTable.LearnedAbsorbsInsert | src/agent.py:24-25 | Learning after `choose_action` materialised the state's row gives the same table as learning without it. |
| QTable.MaterialiseInvisible | src/agent.py:24-25 | Inserting a zero row does not change what any state reads as. |
| QTable.ArgMaxOfZeros | src/agent.py:24-27 | A state seen for the first time is exploited as action 0. |
| QTable.ArgMaxUnique | src/agent.py:27 | Any index that is a maximum and strictly beats all earlier entries is the one `np.argmax` returns. |
| QTable.Blend | src/agent.py:41 | The update formula (1-alpha)·old + alpha·(reward + gamma·next max). Learning rate 0 keeps the old estimate and rate 1 replaces it by the target. |
| QTable.BlendBetween | src/agent.py:41 | For alpha in [0, 1] the new estimate moves alpha of the way from the old estimate to the target, and lies between them. |
| QTable.ZeroTargetContracts | src/agent.py:41 | With zero reward and zero discount the update scales the estimate by 1 - alpha. It never crosses 0. |
| QTable.LearnedTowardZero | src/agent.py:38-42 | With zero reward and zero discount one update of a cell moves it toward 0 from either side. |
| Agent.QLearningAgent.constructor | src/agent.py:5-10 | A new agent holds the given rates and action count and an empty table. |
| Agent.QLearningAgent.ChooseAction | src/agent.py:16-27 | When the draw is below epsilon: the exploring action, and the table unchanged. Otherwise: the state's row is materialised (zeros if new, other rows untouched), and the action is the first index of the row maximum. A new state gives action 0. |
| Agent.QLearningAgent.Learn | src/agent.py:29-42 | The new table is `Learned` of the old table, with the agent's rates and the transition's keys. |
| Agent.QLearningAgent.LoadModel | src/agent.py:49-52 | The table is replaced by the loaded one. |
| Environment.Level | src/environment.py:83-85 | The queue level is 0 exactly below 3 halting vehicles, 1 exactly from 3 to 7, and 2 exactly from 8 up. |
| Environment.LevelMonotone | src/environment.py:83-85 | More halting vehicles never give a lower level. |
| Environment.Observe | src/environment.py:78-89 | The observation has nine entries, and its last entry is the phase. `ObserveLevels` states the first eight. |
| Environment.ObserveLevels | src/environment.py:80-85 | Entry i of the observation is the queue level of lane i, in lane order, for each of the eight lanes. |
| Environment.ObserveExample | src/environment.py:78-89 | Sample telemetry encodes to the expected level vector and phase. |
| Environment.LaneSum | src/environment.py:92-94 | The halting counts of the lanes added up in list order. The sum is never negative when the counts are not. |
| Environment.Reward | src/environment.py:91-95 | The reward is minus the total of the eight lanes' halting counts. It is never positive when the counts are not negative. |
| Environment.LaneSumZeroIff | src/environment.py:91-95 | The summed counts are non-negative, and 0 exactly when every lane's count is 0. |
| Environment.RewardZeroIff | src/environment.py:91-95 | The reward is never positive, and it is 0 exactly when no monitored lane has a halting vehicle. |
| Environment.PhaseCommand | src/environment.py:65-68 | A command is issued exactly when the action is 0 or 1, the phase is a green, and the action wants the other green. The command is always that green's own yellow. |
| Environment.PhaseCommandOnlyStartsYellow | src/environment.py:65-68 | No command in a yellow phase or on the green already wanted. Yellow 3 is commanded exactly for action 0 in EW green, and yellow 1 exactly for action 1 in NS green. |
| Environment.TrafficEnv.constructor | src/environment.py:8-35 | A new environment has the given step budget, step count 0 and run id 0. |
| Environment.TrafficEnv.GetState | src/environment.py:78-89 | The loop appends each lane's level in lane order, then the phase. The result is `Observe`. |
| Environment.TrafficEnv.GetReward | src/environment.py:91-95 | The loop's accumulated total, negated, is `Reward`. |
| Environment.TrafficEnv.Reset | src/environment.py:37-49 | The run id goes up by one. Reset fails exactly when route generation raises. Otherwise the route file is the sorted draws' file, the step count is 0 and the state is the observation. |
| Environment.TrafficEnv.Step | src/environment.py:51-76 | The step count goes up by one and the phase command is `PhaseCommand`. The state and reward are the observation and reward of the new telemetry. Done holds exactly when the count has reached the budget. |
| Generator.StrLe | src/generator.py:37 | Python's comparison of two strings: lexicographic by code point, with a prefix before its extensions. |
| Generator.CarLe | src/generator.py:37 | Python's comparison of (departure, route) tuples: by departure, with ties broken by route. |
| Generator.StrLeTotal | src/generator.py:37 | Python's string order is total. |
| Generator.StrLeAntisymmetric | src/generator.py:37 | Python's string order is antisymmetric. |
| Generator.StrLeTransitive | src/generator.py:37 | Python's string order is transitive. |
| Generator.CarLeTotal | src/generator.py:37 | The (departure, route) tuple order is total. |
| Generator.CarLeAntisymmetric | src/generator.py:37 | The (departure, route) tuple order is antisymmetric. |
| Generator.CarLeTransitive | src/generator.py:37 | The (departure, route) tuple order is transitive. |
| Generator.Insert | src/generator.py:37 | Inserting into a sorted list gives a sorted list with exactly one more element. |
| Generator.Raises | src/generator.py:19-22 | The first loop's `randint(0, max_steps - 50)` raises ValueError exactly when at least one car is requested and max_steps < 50, since its range is then empty. |
| Generator.DrawsFit | src/generator.py:32-35 | The second loop's draws: n_cars (departure, route) pairs, each departure from `randint(0, max_steps)` in [0, max_steps] and each route one of the four ids offered to `random.choice`. |
| Generator.SortCars | src/generator.py:37 | The sort yields an ordered permutation of the cars. |
| Generator.SortedPermutationUnique | src/generator.py:37 | Two sorted permutations of the same cars are equal, so `list.sort` yields `SortCars` whatever its algorithm. |
| Generator.SortedCarsFit | src/generator.py:31-37 | After sorting there are still n_cars cars, each departing in [0, max_steps] on one of the four routes. |
| Generator.Dec | src/generator.py:40 | `str()` of a non-negative int is a non-empty string of decimal digits. It starts with '0' only for 0, so it has no leading zeros. |
| Generator.Str | src/generator.py:40 | `str()` of an int: a minus sign before the decimal digits of a negative number, otherwise those digits alone. |
| Generator.DecRoundTrip | src/generator.py:40 | Reading the printed digits back gives the number. |
| Generator.VehicleLines | src/generator.py:39-40 | There is one line per car, and line i is vehicle i's line. |
| Generator.VehicleLine | src/generator.py:40 | The f-string line of vehicle i: its pieces joined by double quotes. `VehicleLineRoundTrip` gives its meaning. |
| Generator.SplitJoin | src/generator.py:40 | Splitting quote-free pieces joined by quotes gives the pieces back. |
| Generator.FieldsRoundTrip | src/generator.py:40 | The pieces of a vehicle line parse back as its number and car. |
| Generator.FieldsUnquoted | src/generator.py:40 | No piece of a vehicle line contains a quote. |
| Generator.VehicleLineRoundTrip | src/generator.py:40 | The line written for vehicle i reads back as i and its car. |
| Generator.RouteFile | src/generator.py:10-42 | The file has 7 lines more than there are cars: six header lines, one line per car and the closing tag. |
| Generator.RouteFileFrame | src/generator.py:10-17 | The file opens with the vType and four route lines and closes with `</routes>`. |
| Generator.RouteFileReadsBack | src/generator.py:39-40 | Line 6 + i of the file reads back as vehicle i and car i. |
| Generator.RouteUnquoted | src/generator.py:33 | No route id contains a quote. |
| Generator.GeneratedVehicles | src/generator.py:31-42 | For any possible draws the file holds exactly n_cars vehicle lines. The i-th reads back as veh{i}, departing in [0, max_steps] on one of the four routes, and the vehicles are in sorted order. |
| Generator.WriteVehicles | src/generator.py:39-40 | The enumerate loop writes exactly `VehicleLines`. |
| Generator.GenerateRouteFile | src/generator.py:3-42 | When max_steps < 50 and cars are requested, the first loop raises after only the header was written. Otherwise the output is the header, the sorted cars' lines and the footer. |
| Training.DecayEpsilon | src/train.py:48-49 | One end-of-episode decay: multiply by the decay only while the rate is above the floor. |
| Training.EpsilonAfter | src/train.py:31-49 | The rate after k episodes: the start rate decayed k times. |
| Training.EpsilonNonNegative | src/train.py:47-49 | A non-negative rate stays non-negative under decay. |
| Training.EpsilonNonIncreasing | src/train.py:47-49 | The rate never increases from one episode to the next. |
| Training.DecayShrinks | src/train.py:47-49 | One decay never increases the rate. |
| Training.EpsilonFrozen | src/train.py:47-49 | Once at or below the floor, the rate never changes again. |
| Training.EpsilonLowerBound | src/train.py:47-49 | The rate never falls below any bound under both its start and floor·decay. |
| Training.DecayAboveFloor | src/train.py:47-49 | Decaying a rate above the floor lands strictly above floor·decay. |
| Training.EpsilonUndershoot | src/train.py:19-20 | With the script's constants, 0.0101 decays below 0.01 and then stays put. |
| Training.EpsilonBelowStart | src/train.py:47-49 | The rate never exceeds its start. |
| Training.ScriptEpsilonBounds | src/train.py:18-20 | With the script's constants the rate stays within [0.01·0.99, 0.4] after any number of episodes. |
| Training.LearnFrom | src/train.py:40 | Learning from one transition keeps the table well-formed. |
| Training.Replay | src/train.py:36-43 | Learning from a sequence of transitions keeps the table well-formed. |
| Training.TrainedTable | src/train.py:31-49 | The table trained by any trace is well-formed. |
| Training.ChosenAction | src/agent.py:16-27 | The action `choose_action` takes on a tick: the exploring draw below epsilon, otherwise the argmax of the state's row, read as zeros when the state is new. |
| Training.ChosenActionGreedy | src/agent.py:16-27 | The chosen action is in the action space. It is the exploring draw below epsilon. Otherwise it is the first best action of the state's row. |
| Training.StepOf | src/train.py:37-40 | The transition one tick makes from a state: the chosen action, the phase command `step` issues for it, and the reward and observation of the telemetry reported after the simulation step. |
| Training.Chained | src/train.py:32-43 | The transitions of an episode follow its feed. Step k starts from the reset observation (k = 0) or from the previous step's next state. It is the transition tick k makes at the episode's exploration rate, with the table learnt from the steps before it. |
| Training.StateBefore | src/train.py:32-42 | The state step k starts from: the observation `env.reset()` returned for the first step, and the previous step's next state after that (`state = next_state`). |
| Training.ChainedStep | src/train.py:36-43 | In a chained episode, step k is the transition tick k makes from the state before it. It uses the table learnt from the k earlier steps. |
| Training.ChainedStepSeesPhase | src/environment.py:51-89 | For a feed that fits, each step commands on the phase its own observed state shows, and its reward is never positive. |
| Training.TotalReward | src/train.py:33-43 | The episode total: the rewards of its steps added up in step order. |
| Training.ChainedTotalNonPositive | src/train.py:33-43 | For a feed that fits, an episode's total is never positive. It is 0 exactly when every step's reward is 0. |
| Training.TotalRewardNonPositive | src/train.py:43 | An episode's total is never positive, and it is 0 exactly when every step's reward is 0. |
| Training.RunEpisode | src/train.py:32-45 | The run id goes up by one. The episode crashes exactly when route generation raises, and then the table and the step count are unchanged. Otherwise it runs max_steps chained transitions and leaves the step count at max_steps. The table becomes the replay of those transitions and the total is their reward sum. |
| Training.PlaySteps | src/train.py:36-43 | The step loop runs exactly max_steps steps, each the transition its tick makes, and ends with the step count at max_steps. The agent's table is the replay of those steps and the total is their reward sum. |
| Training.PlayStep | src/train.py:37-43 | choose / step / learn records the transition `StepOf` gives. The table becomes `LearnFrom` of the old table and the step counter goes up by one. |
| Training.StepAgrees | src/train.py:37-40 | What `choose_action`, `step` and `learn` return together is `StepOf`. Learning on the table the choice left equals `LearnFrom` on the table before it. |
| Training.ExtendChain | src/train.py:36-43 | Appending the next tick's transition keeps an episode chained, replays one more update and adds its reward. |
| Training.Train | src/train.py:22-49 | The run crashes exactly when there are episodes and route generation raises. Otherwise there is one total per episode, the final rate is the decayed start, and the table is the replay of the whole trace. Every episode is recorded and chained through its own feed, and no episode total is positive. |
| Training.TrainEpisode | src/train.py:31-49 | The run id goes up by one. Crashing leaves the step count unchanged. Otherwise the step count ends at max_steps, the record grows by this episode, the rate advances by one decay, and the table is trained by one more episode. |
| Training.DecayExploration | src/train.py:47-49 | The rate is multiplied by the decay only while it is above the floor. |
| Training.Recorded | src/train.py:29-49 | The `episode_rewards` record: one total per episode, each episode max_steps transitions long, and each total their rewards added up. Episode e is chained through its own feed, at the rate after e decays and from the table the earlier episodes trained. |
| Training.RecordedEpisode | src/train.py:31-45 | Every recorded episode has max_steps transitions and its total is their reward sum. |
| Training.RecordedChain | src/train.py:31-45 | Recorded episode e is chained through feed e, at the rate after e decays, from the table the first e episodes trained. |
| Training.RecordedRewardsNonPositive | src/train.py:31-45 | When every feed fits, no recorded episode total is positive. |
| Training.ExtendRecorded | src/train.py:31-49 | Recording one more chained episode of max_steps steps extends the record. |
| Training.Run | src/train.py:22-49 | With the script's constants all 100 episodes complete and are recorded. The final table and rate are those of the trace, and no episode total is positive. |

## Left out

- The traffic simulator (traci), its process start and close, and `TrafficEnv.close` are not modelled. The simulator's halting counts and phases are inputs, and so is the phase it advances to on its own after a command.
- The gym action and observation space objects are left out. The action space's size of 2 is the constant `Training.ACTIONS`.
- `random.uniform`, `random.randint` and `random.choice` are not modelled. Their results are inputs, constrained to the ranges they can return.
- The first draw loop of `generate_route_file` (lines 19-27) is modelled only through the ValueError its `randint(0, max_steps - 50)` raises. Its draws are discarded by the source and do not reach the file.
- File I/O is not modelled: writing the route file, `save_model`, and the pickle read of `load_model`. The route file is the list of lines it would contain.
- `evaluate.py`, plotting, and the per-episode `print` are outside the model.
- IEEE-754 doubles and numpy float arrays are modelled as exact reals. Rounding, NaN and infinities are not captured.
- Convergence of the learnt values is not proved. The learnt table is characterised exactly, as the replay of the recorded transitions.
- Agent.QLearningAgent.constructor: requires at least one action. With zero actions every `choose_action` and `learn` would raise.
- Agent.QLearningAgent.Learn: requires the action to be in range. numpy would raise for a larger index and wrap around for a negative one, but the training loop only passes actions in range.
- Agent.QLearningAgent.LoadModel: requires the loaded table to have one entry per action in every row, whereas pickle could return any object.
- Training.Train: fixes the agent's learning rate and discount to the script's ALPHA and GAMMA, which keeps the replayed update linear arithmetic for the prover. `Agent.QLearningAgent.Learn` and `QTable.Learned` are stated for any rates.
- Training.Run: the episode count is taken from the feed, which is required to hold exactly 100 episodes.
