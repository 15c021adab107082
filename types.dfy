/**
 The values the Deep Q-Learning training loop passes around: frames, the
 stacked 4-frame history, replay transitions and the immutable configuration
 that replaces the process-wide command-line flags.
 */
module DqnTypes {

  /** One pixel of a preprocessed frame, as stored by `np.uint8`. */
  newtype Byte = x: int | 0 <= x < 256

  /** A preprocessed 84x84 single-channel frame. The model never looks inside
      a frame: preprocessing is external, frames are opaque values. */
  type Frame = seq<Byte>

  /** The network input: four frames along the channel axis. Channel 0 holds
      the newest frame, channel 3 the oldest. */
  type History = h: seq<Frame> | |h| == 4 witness [[], [], [], []]

  /** Number of discrete actions the network scores. */
  const ACTION_SIZE: nat := 3

  /** Lives at the start of an episode ("1 episode = 5 lives"). */
  const START_LIVES: int := 5

  /** A replay transition `(history, action, reward, next_history, dead)`. */
  datatype Transition = Transition(
    history: History,
    action: nat,
    reward: real,
    nextHistory: History,
    dead: bool)

  /** The flags the training loop reads. Floating-point flags are exact reals. */
  datatype Config = Config(
    observeStepNum: nat,
    epsilonStepNum: nat,
    replayMemory: nat,
    batchSize: nat,
    initEpsilon: real,
    finalEpsilon: real,
    gamma: real)

  datatype Option<T> = None | Some(value: T)

  datatype Result<T, E> = Ok(value: T) | Err(error: E)

  /** Why `train_memory_batch` raises: `random.sample` was asked for more
      items than the population holds (`ValueError`), or the batch was empty,
      so `get_one_hot` indexed `np.eye` with the float-typed empty array
      `np.array([])`, which numpy refuses (`IndexError`). */
  datatype BatchError = SampleLargerThanPopulation | NonIntegerIndex
}
