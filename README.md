# Deep Q-Learning training-loop bookkeeping, in Dafny

This project models the bookkeeping of the Deep Q-Learning Breakout agent in
`deep_q_learning.py`:

- the replay memory, a `deque(maxlen=replay_memory)` of transitions that
  `store_memory` appends to;
- the epsilon-greedy exploration schedule and the action decision of
  `get_action`;
- one step of the inner loop of `train()`: choose an action, anneal epsilon,
  slide the new frame into the 4-frame history, detect a lost life, clip the
  reward, store the transition, train once the warm-up is over, freeze the
  history for one step after a death, advance the step counter;
- the one-step Q-learning targets and the masked labels that
  `train_memory_batch` builds from a sampled minibatch.

The network, the gym environment and the random generator are outside the
model. Each step receives the random draws, the Q-values, the next frame, the
reward, the done flag and the reported lives as a `StepInput`. The replay
memory's `random.sample` receives the chosen positions.

Modules:

- `DqnTypes` (`types.dfy`): frames, histories, transitions and the configuration
  that stands in for the command-line flags.
- `BoundedFifo` (`bounded_fifo.dfy`): the value semantics of
  `deque(maxlen=cap).append`, and the reference definition "the `cap` newest
  items".
- `ReplayBuffer` (`replay_memory.dfy`): the replay memory as a class. It is a
  ring buffer over a preallocated array, with the deque's contents as a ghost
  sequence.
- `Exploration` (`exploration.dfy`): the epsilon schedule, its closed form in
  exact arithmetic, and the action decision.
- `TrainBatch` (`train_batch.dfy`): targets, `get_one_hot`, labels, and
  `train_memory_batch` as a method over the replay memory.
- `Training` (`training.dfy`): the step as a pure specification (`StepSpec`),
  the invariant it keeps, the episode as a fold of steps, and the `Trainer`
  class whose `Step` and `RunEpisode` methods are proved against them.

Where the code cannot run as written, the model follows the evident intent:

- Line 172 unpacks three values into two names. The model starts every
  episode with `start_life = 5`, as the comment at line 171 says.
- Line 218 calls `train_memory_batch()` with no arguments. The model calls it
  on the replay memory (and the network's answer).
- Lines 102 and 131 pass malformed masks to `predict`. The network's Q-values
  are parameters, so the mask does not matter to the model.
- `episode_number` is never incremented, so the episode loop at line 167 never
  ends. The model covers single episodes and any sequence of steps.

The history's channel order follows the code: `np.append(next_state,
history[:, :, :, :3], axis=3)` puts the newest frame in channel 0 and the
oldest in channel 3.

The epsilon update has no clamp. All epsilon arithmetic is exact (reals,
not floats). The model proves two things about the schedule:

- when `init_epsilon >= final_epsilon`, epsilon never goes below
  `final_epsilon - epsilon_decay`: the last decrement may overshoot
  `final_epsilon` by less than one decay;
- when `init_epsilon >= final_epsilon`, the closed form: the schedule lands
  on `final_epsilon` exactly and stays in `[final_epsilon, init_epsilon]`.

With `init_epsilon < final_epsilon` the decrement never fires and epsilon
stays at `init_epsilon`, which lies below that floor.

A `batch_size` of 0 does not stop `random.sample`, but `get_one_hot` then
indexes `np.eye` with an empty float array, which numpy refuses. The model
reports this as the `NonIntegerIndex` error at the first training step.

## Model

| member | source | states |
|---|---|---|
| BoundedFifo.BoundedAppend | deep_q_learning.py:158-160 | appending to a bounded deque never exceeds the bound; below the bound the old contents are kept as a prefix and the new item is last; at the bound the oldest item is dropped first; with bound 0 nothing is kept |
| BoundedFifo.AppendKeepsNewest | deep_q_learning.py:158-160 | appending to the `cap` newest items of a history gives the `cap` newest items of the extended history |
| BoundedFifo.FillIsNewest | deep_q_learning.py:158-160 | after any sequence of appends to an empty deque it holds exactly the `cap` most recently appended items, in insertion order |
| ReplayBuffer.ReplayMemory.constructor | deep_q_learning.py:160 | `deque(maxlen=capacity)` is empty and its ring has `capacity` slots |
| ReplayBuffer.ReplayMemory.Append | deep_q_learning.py:107-108 | `store_memory` changes the contents to the bounded append of the transition and keeps the ring invariant |
| ReplayBuffer.RingAppend | deep_q_learning.py:107-108 | writing to the next ring slot (the oldest one when full) and moving the start is a bounded append of the ring's contents |
| ReplayBuffer.Sampled | deep_q_learning.py:116 | `random.sample` with the drawn positions gives one transition per draw, each a member of the population |
| ReplayBuffer.ReplayMemory.Get | deep_q_learning.py:116 | `memory[i]` is the i-th oldest stored transition |
| ReplayBuffer.ReplayMemory.Sample | deep_q_learning.py:116 | `random.sample(memory, k)` fails exactly when `k` exceeds the stored count; otherwise it returns `k` stored transitions, the ones at the drawn positions |
| Exploration.EpsilonDecay | deep_q_learning.py:164 | `epsilon_step_num` decays cover `init_epsilon - final_epsilon` exactly; the decay is non-negative exactly when `init_epsilon >= final_epsilon` |
| Exploration.NextEpsilon | deep_q_learning.py:195-197 | epsilon drops by `epsilon_decay` exactly when it is above `final_epsilon` and the warm-up is over; otherwise unchanged |
| Exploration.EpsilonAt | deep_q_learning.py:196-197 | epsilon after `n` schedule steps never exceeds `init_epsilon` when `init_epsilon >= final_epsilon`, and stays at `init_epsilon` forever when `init_epsilon <= final_epsilon` |
| Exploration.EpsilonConstantDuringWarmup | deep_q_learning.py:163-164 | epsilon keeps its initial value while `global_step <= observe_step_num` (and on the step after) |
| Exploration.EpsilonNonIncreasing | deep_q_learning.py:196-197 | with `init_epsilon >= final_epsilon` epsilon never increases |
| Exploration.EpsilonSettles | deep_q_learning.py:196-197 | once epsilon is at or below `final_epsilon` it never changes again |
| Exploration.EpsilonLowerBound | deep_q_learning.py:163-164 | with `init_epsilon >= final_epsilon` and no clamp, epsilon never goes below `final_epsilon - epsilon_decay` |
| Exploration.FloorNeedsOrder | deep_q_learning.py:163-164 | with `init_epsilon < final_epsilon` the floor fails: epsilon stays at `init_epsilon`, below `final_epsilon - epsilon_decay` |
| Exploration.FloorCounterexample | deep_q_learning.py:163-164 | `init_epsilon = 0`, `final_epsilon = 1`, ten decay steps: decay -0.1, floor 1.1, epsilon 0 at step 5 |
| Exploration.LinearEpsilonDecrements | deep_q_learning.py:164 | before `epsilon_step_num` decrements the closed form is still above `final_epsilon` and drops by exactly one decay per step |
| Exploration.LinearEpsilonStops | deep_q_learning.py:164 | after `epsilon_step_num` decrements the closed form equals `final_epsilon` |
| Exploration.EpsilonClosedForm | deep_q_learning.py:163-164 | with `init_epsilon >= final_epsilon`, in exact arithmetic epsilon after `n` steps is `init_epsilon - min(steps after warm-up, epsilon_step_num) * epsilon_decay` |
| Exploration.EpsilonWithinBounds | deep_q_learning.py:163-164 | with `init_epsilon >= final_epsilon`, in exact arithmetic epsilon stays within `[final_epsilon, init_epsilon]` |
| Exploration.ArgMax | deep_q_learning.py:103 | `np.argmax` returns an index holding the largest value, and no earlier index holds it |
| Exploration.Explores | deep_q_learning.py:99 | as the draw lies in `[0, 1)`, an epsilon of at least 1 always explores, and a negative epsilon never does after the warm-up |
| Exploration.ChooseAction | deep_q_learning.py:97-103 | the action is in `[0, ACTION_SIZE)`; it is the random action when the draw is at most epsilon or the warm-up is running, otherwise the first arg-max of the Q-values |
| Exploration.EnvAction | deep_q_learning.py:193 | the environment action `action + 1` lies in `[1, ACTION_SIZE]` |
| TrainBatch.Max | deep_q_learning.py:139 | `np.amax` is an upper bound of the row and is attained |
| TrainBatch.Target | deep_q_learning.py:135-139 | the target is the reward after a lost life; otherwise the reward plus gamma times a largest next Q-value (one no other entry exceeds), and with `gamma >= 0` not less than any other candidate |
| TrainBatch.Eye | deep_q_learning.py:112 | `np.eye(n)` has `n` rows of width `n`, with a 1 exactly on the diagonal |
| TrainBatch.GetOneHot | deep_q_learning.py:111-112 | for a non-empty list of targets (numpy refuses the empty one), one row of width `n` per target, with 1 in the target's slot |
| TrainBatch.OneHotRow | deep_q_learning.py:111-112 | row i of `get_one_hot` has 1 at `targets[i]` and 0 elsewhere |
| TrainBatch.MaskedLabels | deep_q_learning.py:144 | `one_hot * target[:, None]` keeps each row's shape; a slot the mask clears is 0, a slot it sets holds that row's target |
| TrainBatch.LabelRow | deep_q_learning.py:141-144 | label row i holds `target[i]` at the taken action and 0 in every other slot |
| TrainBatch.BatchUpdate | deep_q_learning.py:124-146 | what `fit` receives has one history, mask row and label row per sampled transition, the histories in sample order |
| TrainBatch.BatchUpdateRow | deep_q_learning.py:124-144 | in the update for transition i: the stored history, the one-hot mask of its action, and a label with its target at that action and 0 elsewhere |
| TrainBatch.TerminalLabelIgnoresNextQ | deep_q_learning.py:136-137 | after a lost life the label row does not depend on the next-state Q-values and carries the reward at the action |
| TrainBatch.TargetExample | deep_q_learning.py:139-144 | reward 1, gamma 0.99, next Q [0.2, 0.5, 0.1] give target 1.495 and label row [0, 1.495, 0] for action 1 |
| TrainBatch.ComputeTargets | deep_q_learning.py:135-139 | the loop fills the target array with the one-step target of every transition |
| TrainBatch.TrainMemoryBatch | deep_q_learning.py:115-146 | fails with `SampleLargerThanPopulation` exactly when the memory holds fewer than `batch_size` transitions, and with `NonIntegerIndex` when `batch_size` is 0; otherwise returns the histories, one-hot mask and labels of the sampled batch |
| Training.InitialHistory | deep_q_learning.py:181-183 | the starting history is the first frame in all four channels |
| Training.Advance | deep_q_learning.py:201-203 | the new frame enters channel 0 and channels 0..2 move to 1..3 |
| Training.AdvanceAllWindow | deep_q_learning.py:201-203 | after several advances channel c holds the c-th newest frame, or an old channel when fewer frames arrived |
| Training.HistoryExample | deep_q_learning.py:181-183 | starting from F1 and advancing by F2..F5 gives [F5, F4, F3, F2] |
| Training.Clip | deep_q_learning.py:211 | the clipped reward lies in [-1, 1], equals the reward when already inside, and is the nearer bound otherwise |
| Training.BatchOutcome | deep_q_learning.py:115-146 | the training call fails exactly when the memory holds fewer than `batch_size` transitions (the sample) or `batch_size` is 0 (the one-hot index); otherwise it trains on the histories of the drawn transitions |
| Training.StepSpec | deep_q_learning.py:190-228 | one step keeps the memory bounded with valid actions and advances the step counter by one |
| Training.EpisodeStart | deep_q_learning.py:169-183 | an episode starts with `dead` clear, 5 lives and the first frame in every channel; counter, epsilon and memory carry over |
| Training.InitialState | deep_q_learning.py:160-165 | before the first episode the memory is empty, `dead` is clear, 5 lives, and epsilon is the schedule's value at the counter |
| Training.InitialStateInvariant | deep_q_learning.py:160-165 | the state before the first step satisfies the loop invariant |
| Training.EpisodeStartInvariant | deep_q_learning.py:169-183 | starting an episode keeps the loop invariant |
| Training.StepInvariant | deep_q_learning.py:190-228 | every step keeps the invariant: memory size `min(global_step, replay_memory)`, `dead` clear, epsilon on schedule, stored rewards in [-1, 1] |
| Training.TrainingSampleSucceeds | deep_q_learning.py:214-218 | right after the store the memory holds `min(global_step + 1, replay_memory)` transitions; training runs exactly after the warm-up, and its sample succeeds when `0 < batch_size <= min(observe_step_num + 2, replay_memory)` |
| Training.LifeLossStep | deep_q_learning.py:205-226 | the stored transition is terminal exactly when lives fall below `start_life`, which takes the new value; then the history is frozen; `dead` is clear after every step |
| Training.StoredTransition | deep_q_learning.py:211-214 | the stored transition holds the current history, an action in range, exactly `Clip` of the reward (so within [-1, 1]), exactly the history advanced by the new frame, and is the newest memory entry |
| Training.EpisodeFrom | deep_q_learning.py:185-228 | the `while not done` loop as a fold of steps, ending after the first `done` or raising step: it stores one transition per step taken (at least one, at most one per input) and ends ready for the next step |
| Training.StepsUntilDone | deep_q_learning.py:185 | an episode runs at least one step and at most as many as there are inputs |
| Training.RaisesIff | deep_q_learning.py:214-218 | a step's training call raises exactly when the warm-up is over and either the memory, after the store, holds fewer than `batch_size` transitions or `batch_size` is 0 |
| Training.EpisodeSteps | deep_q_learning.py:185-228 | an episode stores one transition per step up to and including the first `done` (all of them when no sample raises; a raising step still stores its transition first), with input k's clipped reward and frame, advances the counter by the number stored and keeps the invariant |
| Training.EpisodeNeverRaises | deep_q_learning.py:185-218 | when `0 < batch_size <= min(observe_step_num + 2, replay_memory)` no training call of an episode raises |
| Training.ShortMemoryRaises | deep_q_learning.py:185-218 | after the warm-up, with fewer than `batch_size` transitions once the next one is stored, the episode raises on its first step, having stored that one transition |
| Training.EmptyBatchRaises | deep_q_learning.py:111-146 | after the warm-up, with `batch_size` 0, the episode raises `NonIntegerIndex` on its first step, having stored that one transition |
| Training.NoLifeLostEpisode | deep_q_learning.py:205-208 | when the lives never fall below the starting count no stored transition is terminal and `start_life` is unchanged |
| Training.EpisodeHistoryNoDeath | deep_q_learning.py:201-226 | in an episode without a lost life the final history is the starting history advanced by the frame of every step taken |
| Training.EpisodeHistoryExample | deep_q_learning.py:181-226 | an episode started on F1 that takes four steps with frames F2..F5 and no lost life ends with the history [F5, F4, F3, F2] |
| Training.StepKeepsNewest | deep_q_learning.py:214 | one step leaves the memory holding the newest `replay_memory` transitions of the record extended by its stored transition |
| Training.EpisodeMemoryIsNewest | deep_q_learning.py:160 | across an episode the memory keeps holding the newest `replay_memory` transitions ever stored, oldest first |
| Training.StubEnvironmentEpisode | deep_q_learning.py:185-228 | with a positive batch size the memory can always supply, a three-step episode with reward 1 and no life lost does not raise and stores three non-terminal transitions with reward 1 |
| Training.Trainer.constructor | deep_q_learning.py:160-165 | the loop starts with an empty memory of capacity `replay_memory`, `init_epsilon`, step 0 and 5 lives |
| Training.Trainer.StartEpisode | deep_q_learning.py:169-183 | the fields become the episode start state |
| Training.Trainer.Step | deep_q_learning.py:190-228 | the step's action code, stored transition, training outcome and new loop state are exactly those of `StepSpec` |
| Training.Trainer.Train | deep_q_learning.py:218 | `train_memory_batch` on the trainer's memory returns exactly `BatchOutcome` of its contents: the sample or one-hot error, or the update for the drawn transitions |
| Training.Trainer.RunEpisode | deep_q_learning.py:185-228 | the `while not done` loop ends after the first `done` or after the first step whose training sample raises, in the state, with the stored transitions and with the raised flag of `EpisodeFrom` |

## Left out

- `pre_processing` (grayscale, resize, `np.uint8`): a foreign image library on floating-point pixels. Frames are opaque values.
- `atari_model`, `predict` and `fit`: the network is external. Its Q-values are step inputs, and the update handed to `fit` is returned as a value.
- The gym environment (`make`, `reset`, `step`, `render`, `time.sleep`): I/O. Observation, reward, done flag and lives are step inputs.
- The random no-op steps at the start of an episode: they only change the first frame, which `StartEpisode` receives.
- Randomness (`np.random.rand`, `random.randrange`, `random.sample`): the draws and sampled positions are parameters, with range and distinctness preconditions.
- Flag parsing and `main`: the flags are the `Config` datatype.
- `score` accumulation and the outer episode loop: `score` is never read, and the episode counter is never advanced.
- The `/ 255` normalisation before the network and the `next_history` array of `train_memory_batch`: they only feed the network.
- Floating-point arithmetic: epsilon, rewards, gamma and Q-values are exact reals. Rounding of the epsilon decrement (which can leave epsilon slightly below `final_epsilon`) and NaN rewards are not modelled.
- Training.Trainer.constructor: requires `epsilon_step_num > 0`, where the code raises `ZeroDivisionError` at line 164.
- DqnTypes.Config: the integer flags `observe_step_num`, `epsilon_step_num`, `replay_memory` and `batch_size` are taken as non-negative (and `epsilon_step_num` as positive), though the flag parser accepts any integer. A `batch_size` of 0 is modelled, as the `NonIntegerIndex` error. With a negative `epsilon_step_num` the decay is negative and epsilon grows by it every step after the warm-up, without bound. A negative `observe_step_num` switches the warm-up off, so training runs from step 0. A negative `replay_memory` makes `deque` raise `ValueError` at line 160, and a negative `batch_size` makes `random.sample` raise `ValueError` at line 116.
- Training.Trainer.RunEpisode: also stops when the supplied inputs run out before a `done`; the code waits for the environment forever.
- Training.Trainer.RunEpisode: the per-step updates handed to `fit` are returned by `Step` (and fixed by `StepSpec`) but not collected at episode level; a raised sample is reported as a flag, and the exception's propagation out of `train()` is not modelled beyond ending the episode.
