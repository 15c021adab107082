/**
 The step body of `train()`: choose an action, anneal epsilon, slide the new
 frame into the 4-frame history, detect a lost life, clip the reward, store
 the transition, train once the warm-up is over, freeze the history for one
 step after a death and advance the step counter.

 The environment, the network and the random generator are outside the
 model: each step receives the draws, the Q-values, the next frame, the
 reward, the done flag and the lives count as a `StepInput`.
 */
module Training {
  import opened DqnTypes
  import opened BoundedFifo
  import opened ReplayBuffer
  import opened Exploration
  import opened TrainBatch

  /** The history at the start of an episode: the first frame in all four channels. */
  function InitialHistory(f: Frame): (h: History)
    ensures forall c :: 0 <= c < 4 ==> h[c] == f
  {
    [f, f, f, f]
  }

  /** `np.append(next_state, history[:, :, :, :3], axis=3)`: the new frame
      enters channel 0, channels 0..2 move to 1..3, channel 3 is dropped. */
  function Advance(h: History, f: Frame): (h': History)
    ensures h'[0] == f
    ensures forall c :: 1 <= c < 4 ==> h'[c] == h[c - 1]
  {
    [f] + h[..3]
  }

  /** The history after advancing by every frame of `frames`, in order. */
  function AdvanceAll(h: History, frames: seq<Frame>): History
  {
    if frames == [] then h else Advance(AdvanceAll(h, frames[..|frames| - 1]), frames[|frames| - 1])
  }

  /** Advancing by `f` and then by `fs` is advancing by `[f] + fs`. */
  lemma {:induction false} AdvanceAllCons(h: History, f: Frame, fs: seq<Frame>)
    ensures AdvanceAll(h, [f] + fs) == AdvanceAll(Advance(h, f), fs)
    decreases |fs|
  {
    var xs := [f] + fs;
    if fs == [] {
      assert xs[..|xs| - 1] == [];
    } else {
      assert xs[..|xs| - 1] == [f] + fs[..|fs| - 1];
      assert xs[|xs| - 1] == fs[|fs| - 1];
      AdvanceAllCons(h, f, fs[..|fs| - 1]);
    }
  }

  /** The window holds the newest frames first; channels not yet reached by
      new frames still hold the oldest channels of the starting history. */
  lemma {:induction false} AdvanceAllWindow(h: History, frames: seq<Frame>, c: nat)
    requires c < 4
    ensures AdvanceAll(h, frames)[c] ==
      if c < |frames| then frames[|frames| - 1 - c] else h[c - |frames|]
  {
    if frames != [] {
      var init := frames[..|frames| - 1];
      assert AdvanceAll(h, frames) == Advance(AdvanceAll(h, init), frames[|frames| - 1]);
      if c > 0 {
        AdvanceAllWindow(h, init, c - 1);
        if c - 1 < |init| {
          assert init[|init| - 1 - (c - 1)] == frames[|frames| - 1 - c];
        }
      }
    }
  }

  /** Starting from the first frame F1 and advancing by F2..F5, the history
      is [F5, F4, F3, F2]. */
  lemma HistoryExample(f1: Frame, f2: Frame, f3: Frame, f4: Frame, f5: Frame)
    ensures AdvanceAll(InitialHistory(f1), [f2, f3, f4, f5]) == [f5, f4, f3, f2]
  {
    var h := AdvanceAll(InitialHistory(f1), [f2, f3, f4, f5]);
    AdvanceAllWindow(InitialHistory(f1), [f2, f3, f4, f5], 0);
    AdvanceAllWindow(InitialHistory(f1), [f2, f3, f4, f5], 1);
    AdvanceAllWindow(InitialHistory(f1), [f2, f3, f4, f5], 2);
    AdvanceAllWindow(InitialHistory(f1), [f2, f3, f4, f5], 3);
  }

  /** `np.clip(reward, -1., 1.)`. */
  function Clip(r: real): (c: real)
    ensures -1.0 <= c <= 1.0
    ensures -1.0 <= r <= 1.0 ==> c == r
    ensures r > 1.0 ==> c == 1.0
    ensures r < -1.0 ==> c == -1.0
  {
    if r < -1.0 then -1.0 else if r > 1.0 then 1.0 else r
  }

  /** The loop variables of `train()` that persist between steps; `memory` is
      the replay memory's contents, oldest first. */
  datatype LoopState = LoopState(
    epsilon: real,
    globalStep: nat,
    history: History,
    dead: bool,
    startLife: int,
    memory: seq<Transition>)

  /** What the outside world supplies for one step: `np.random.rand()`,
      `random.randrange(ACTION_SIZE)`, the Q-values of the current history,
      the preprocessed next frame, the raw reward, the done flag, the lives
      reported in `info['ale.lives']`, the positions `random.sample` draws and
      the Q-values of the sampled next histories. */
  datatype StepInput = StepInput(
    draw: real,
    randomAction: nat,
    q: seq<real>,
    frame: Frame,
    reward: real,
    done: bool,
    lives: int,
    picks: seq<nat>,
    nextQ: seq<seq<real>>)

  /** What one step produces besides the new state: the environment action
      code, the stored transition and, after the warm-up, the outcome of
      `train_memory_batch`. */
  datatype StepOutcome = StepOutcome(
    next: LoopState,
    envAction: int,
    stored: Transition,
    update: Option<Result<Update, BatchError>>)

  /** What a step needs of the state: a usable configuration and a memory
      that respects its bound and holds only valid actions. */
  predicate StepReady(cfg: Config, s: LoopState) {
    cfg.epsilonStepNum > 0 &&
    |s.memory| <= cfg.replayMemory &&
    ValidActions(s.memory)
  }

  /** How many transitions the memory holds right after this step's store. */
  function StoredCount(cfg: Config, s: LoopState): nat {
    Min(|s.memory| + 1, cfg.replayMemory)
  }

  /** What the random generator and the network promise: a random action in
      range, a Q-value row when the greedy branch asks for one, and, when a
      sample can be drawn, distinct positions and one Q-value row per sample. */
  predicate InputOk(cfg: Config, s: LoopState, inp: StepInput) {
    inp.randomAction < ACTION_SIZE &&
    (!Explores(cfg, s.epsilon, s.globalStep, inp.draw) ==> |inp.q| == ACTION_SIZE) &&
    (s.globalStep > cfg.observeStepNum && cfg.batchSize <= StoredCount(cfg, s) ==>
      |inp.picks| == cfg.batchSize &&
      DistinctPicks(inp.picks, StoredCount(cfg, s)) &&
      QRows(inp.nextQ, cfg.batchSize))
  }

  lemma AppendKeepsActions(mem: seq<Transition>, cap: nat, t: Transition)
    requires |mem| <= cap && ValidActions(mem) && t.action < ACTION_SIZE
    ensures ValidActions(BoundedAppend(mem, cap, t))
  {
    var r := BoundedAppend(mem, cap, t);
    if 0 < cap <= |mem| {
      assert forall i :: 0 <= i < |r| - 1 ==> r[i] == mem[|mem| + 1 - cap + i];
    }
  }

  /** The outcome of `train_memory_batch` on the memory right after the
      store: `random.sample` fails exactly when the memory holds fewer than
      `batch_size` transitions, and `get_one_hot` fails on an empty batch;
      otherwise the update trains on the histories of the drawn transitions. */
  function BatchOutcome(cfg: Config, memory: seq<Transition>, inp: StepInput): (u: Result<Update, BatchError>)
    requires ValidActions(memory)
    requires cfg.batchSize <= |memory| ==>
      |inp.picks| == cfg.batchSize && DistinctPicks(inp.picks, |memory|) && QRows(inp.nextQ, cfg.batchSize)
    ensures u.Err? <==> cfg.batchSize > |memory| || cfg.batchSize == 0
    ensures u.Err? ==> u.error == if cfg.batchSize > |memory| then SampleLargerThanPopulation else NonIntegerIndex
    ensures u.Ok? ==> |u.value.histories| == cfg.batchSize
    ensures u.Ok? ==> forall i :: 0 <= i < cfg.batchSize ==> u.value.histories[i] == memory[inp.picks[i]].history
  {
    if cfg.batchSize > |memory| then
      Err(SampleLargerThanPopulation)
    else if cfg.batchSize == 0 then
      Err(NonIntegerIndex)
    else
      var batch := Sampled(memory, inp.picks);
      assert ValidActions(batch) by {
        forall j | 0 <= j < |batch| ensures batch[j].action < ACTION_SIZE {
          assert batch[j] == memory[inp.picks[j]];
        }
      }
      Ok(BatchUpdate(batch, inp.nextQ, cfg.gamma))
  }

  /** `StepSpec` taken apart field by field. */
  lemma StepSpecParts(cfg: Config, s: LoopState, inp: StepInput)
    requires StepReady(cfg, s) && InputOk(cfg, s, inp)
    ensures var o := StepSpec(cfg, s, inp);
      var action := ChooseAction(cfg, s.epsilon, s.globalStep, inp.draw, inp.randomAction, inp.q);
      var lost := s.startLife > inp.lives;
      o.stored == Transition(s.history, action, Clip(inp.reward), Advance(s.history, inp.frame), lost || s.dead) &&
      o.next == LoopState(NextEpsilon(cfg, s.epsilon, s.globalStep), s.globalStep + 1,
        if lost || s.dead then s.history else Advance(s.history, inp.frame),
        false, if lost then inp.lives else s.startLife, BoundedAppend(s.memory, cfg.replayMemory, o.stored)) &&
      o.envAction == EnvAction(action) &&
      o.update == if s.globalStep > cfg.observeStepNum then Some(BatchOutcome(cfg, o.next.memory, inp)) else None
  {
  }

  /** What `TrainMemoryBatch` promises pins down the batch outcome. */
  lemma BatchOutcomeOf(cfg: Config, memory: seq<Transition>, inp: StepInput, u: Result<Update, BatchError>)
    requires ValidActions(memory)
    requires cfg.batchSize <= |memory| ==>
      |inp.picks| == cfg.batchSize && DistinctPicks(inp.picks, |memory|) && QRows(inp.nextQ, cfg.batchSize)
    requires u.Err? <==> cfg.batchSize > |memory| || cfg.batchSize == 0
    requires u.Err? ==> u.error == if cfg.batchSize > |memory| then SampleLargerThanPopulation else NonIntegerIndex
    requires u.Ok? ==> u.value == BatchUpdate(Sampled(memory, inp.picks), inp.nextQ, cfg.gamma)
    ensures u == BatchOutcome(cfg, memory, inp)
  {
  }

  /** One iteration of the `while not done` loop of `train()`, lines 190-228. */
  function StepSpec(cfg: Config, s: LoopState, inp: StepInput): (o: StepOutcome)
    requires StepReady(cfg, s) && InputOk(cfg, s, inp)
    ensures StepReady(cfg, o.next)
    ensures o.next.globalStep == s.globalStep + 1
  {
    var action := ChooseAction(cfg, s.epsilon, s.globalStep, inp.draw, inp.randomAction, inp.q);
    var lost := s.startLife > inp.lives;
    var dead := if lost then true else s.dead;
    var t := Transition(s.history, action, Clip(inp.reward), Advance(s.history, inp.frame), dead);
    AppendKeepsActions(s.memory, cfg.replayMemory, t);
    var memory := BoundedAppend(s.memory, cfg.replayMemory, t);
    var update := if s.globalStep > cfg.observeStepNum then Some(BatchOutcome(cfg, memory, inp)) else None;
    var next := LoopState(
      NextEpsilon(cfg, s.epsilon, s.globalStep),
      s.globalStep + 1,
      if dead then s.history else t.nextHistory,
      false,
      if lost then inp.lives else s.startLife,
      memory);
    StepOutcome(next, EnvAction(action), t, update)
  }

  /** The start of an episode (lines 169-183 with the intended
      `start_life = 5`): the history is the first frame four times, `dead` is
      cleared and the life counter reset. The step counter, epsilon and the
      memory carry over from the previous episode. */
  function EpisodeStart(s: LoopState, first: Frame): (r: LoopState)
    ensures r.epsilon == s.epsilon && r.globalStep == s.globalStep && r.memory == s.memory
    ensures !r.dead && r.startLife == START_LIVES
    ensures forall c :: 0 <= c < 4 ==> r.history[c] == first
  {
    LoopState(s.epsilon, s.globalStep, InitialHistory(first), false, START_LIVES, s.memory)
  }

  /** The state `train()` sets up before its first episode. The history is
      not yet meaningful; the first episode start overwrites it. The memory
      is empty and epsilon is the schedule's value at the counter. */
  function InitialState(cfg: Config): (s: LoopState)
    ensures cfg.epsilonStepNum > 0 ==> StepReady(cfg, s) && s.epsilon == EpsilonAt(cfg, s.globalStep)
    ensures |s.memory| == 0 && s.startLife == START_LIVES && !s.dead
  {
    LoopState(cfg.initEpsilon, 0, InitialHistory([]), false, START_LIVES, [])
  }

  /** What holds between any two steps of a run of `train()`. */
  predicate Invariant(cfg: Config, s: LoopState) {
    StepReady(cfg, s) &&
    |s.memory| == Min(s.globalStep, cfg.replayMemory) &&
    !s.dead &&
    s.epsilon == EpsilonAt(cfg, s.globalStep) &&
    (forall i :: 0 <= i < |s.memory| ==> -1.0 <= s.memory[i].reward <= 1.0)
  }

  lemma InitialStateInvariant(cfg: Config)
    requires cfg.epsilonStepNum > 0
    ensures Invariant(cfg, InitialState(cfg))
  {
  }

  lemma EpisodeStartInvariant(cfg: Config, s: LoopState, first: Frame)
    requires Invariant(cfg, s)
    ensures Invariant(cfg, EpisodeStart(s, first))
  {
  }

  /** Every step keeps the invariant: the memory holds one transition per
      step taken, up to its bound; `dead` is clear; epsilon follows the
      schedule; every stored reward lies in [-1, 1]. */
  lemma {:induction false} StepInvariant(cfg: Config, s: LoopState, inp: StepInput)
    requires Invariant(cfg, s) && InputOk(cfg, s, inp)
    ensures Invariant(cfg, StepSpec(cfg, s, inp).next)
  {
    var o := StepSpec(cfg, s, inp);
    var mem := o.next.memory;
    assert mem == BoundedAppend(s.memory, cfg.replayMemory, o.stored);
    forall i | 0 <= i < |mem| ensures -1.0 <= mem[i].reward <= 1.0 {
      if 0 < cfg.replayMemory <= |s.memory| {
        if i < |mem| - 1 {
          assert mem[i] == s.memory[|s.memory| + 1 - cfg.replayMemory + i];
        }
      }
    }
  }

  /** Right after the store, the memory holds `min(global_step + 1,
      replay_memory)` transitions, so a training step never asks for more
      than the memory holds when `0 < batch_size <= min(observe_step_num + 2,
      replay_memory)`: once training is on, the sample always succeeds. */
  lemma {:induction false} TrainingSampleSucceeds(cfg: Config, s: LoopState, inp: StepInput)
    requires Invariant(cfg, s) && InputOk(cfg, s, inp)
    requires 0 < cfg.batchSize <= Min(cfg.observeStepNum + 2, cfg.replayMemory)
    ensures |StepSpec(cfg, s, inp).next.memory| == Min(s.globalStep + 1, cfg.replayMemory)
    ensures StepSpec(cfg, s, inp).update.Some? <==> s.globalStep > cfg.observeStepNum
    ensures StepSpec(cfg, s, inp).update.Some? ==> StepSpec(cfg, s, inp).update.value.Ok?
  {
  }

  /** The life-loss bookkeeping: the stored transition is terminal exactly
      when the reported lives fall below `start_life`, which then takes the
      new value; on that step the history is not advanced; in either case
      `dead` is cleared, so only the transition of the death step is terminal. */
  lemma {:induction false} LifeLossStep(cfg: Config, s: LoopState, inp: StepInput)
    requires Invariant(cfg, s) && InputOk(cfg, s, inp)
    ensures var o := StepSpec(cfg, s, inp);
      (o.stored.dead <==> s.startLife > inp.lives) &&
      (o.stored.dead ==> o.next.history == s.history && o.next.startLife == inp.lives) &&
      (!o.stored.dead ==> o.next.history == Advance(s.history, inp.frame) && o.next.startLife == s.startLife) &&
      !o.next.dead
  {
  }

  /** The stored transition: the current history, the chosen action, the
      clipped reward, the advanced history; it becomes the newest entry. */
  lemma {:induction false} StoredTransition(cfg: Config, s: LoopState, inp: StepInput)
    requires StepReady(cfg, s) && InputOk(cfg, s, inp)
    ensures var o := StepSpec(cfg, s, inp);
      o.stored.history == s.history &&
      o.stored.nextHistory == Advance(s.history, inp.frame) &&
      o.stored.nextHistory[0] == inp.frame &&
      (forall c :: 1 <= c < 4 ==> o.stored.nextHistory[c] == s.history[c - 1]) &&
      o.stored.reward == Clip(inp.reward) && -1.0 <= o.stored.reward <= 1.0 &&
      o.stored.action < ACTION_SIZE && 1 <= o.envAction <= ACTION_SIZE &&
      (cfg.replayMemory > 0 ==> o.next.memory[|o.next.memory| - 1] == o.stored)
  {
  }

  /** `train_memory_batch` raised: `random.sample` was asked for more
      transitions than the memory holds, or the batch was empty. The
      exception ends `train()`. */
  predicate Raises(o: StepOutcome) {
    o.update.Some? && o.update.value.Err?
  }

  /** The condition under which the step taken from `s` raises: training is
      on and either the memory, right after the store, holds fewer than
      `batch_size` transitions or `batch_size` is 0. */
  predicate BatchFails(cfg: Config, s: LoopState) {
    s.globalStep > cfg.observeStepNum && (cfg.batchSize > StoredCount(cfg, s) || cfg.batchSize == 0)
  }

  /** A step raises exactly when `BatchFails` holds of the state it starts from. */
  lemma RaisesIff(cfg: Config, s: LoopState, inp: StepInput)
    requires StepReady(cfg, s) && InputOk(cfg, s, inp)
    ensures Raises(StepSpec(cfg, s, inp)) <==> BatchFails(cfg, s)
  {
    StepSpecParts(cfg, s, inp);
  }

  /** The steps of one episode, stopping after the first step whose
      environment reports `done` or whose training sample raises (or when
      the supplied inputs run out). */
  predicate EpisodeInputsOk(cfg: Config, s: LoopState, inputs: seq<StepInput>)
    requires StepReady(cfg, s)
    decreases |inputs|
  {
    inputs == [] ||
    (InputOk(cfg, s, inputs[0]) &&
     (var o := StepSpec(cfg, s, inputs[0]);
      !inputs[0].done && !BatchFails(cfg, s) ==> EpisodeInputsOk(cfg, o.next, inputs[1..])))
  }

  /** How an episode ends: the last state, the transitions stored, in order,
      and whether it ended because `train_memory_batch` raised. */
  datatype EpisodeResult = EpisodeResult(last: LoopState, stored: seq<Transition>, raised: bool)

  /** The episode `inputs` drive from state `s`. A step whose sample raises
      still stores its transition (line 214 runs before line 218) and ends
      the run; what the loop would have done after it is never observed. */
  function EpisodeFrom(cfg: Config, s: LoopState, inputs: seq<StepInput>): (r: EpisodeResult)
    requires StepReady(cfg, s) && EpisodeInputsOk(cfg, s, inputs)
    ensures StepReady(cfg, r.last)
    ensures |r.stored| <= |inputs| && (inputs != [] <==> r.stored != [])
    decreases |inputs|
  {
    if inputs == [] then EpisodeResult(s, [], false)
    else
      var o := StepSpec(cfg, s, inputs[0]);
      if BatchFails(cfg, s) then EpisodeResult(o.next, [o.stored], true)
      else if inputs[0].done then EpisodeResult(o.next, [o.stored], false)
      else
        var rest := EpisodeFrom(cfg, o.next, inputs[1..]);
        EpisodeResult(rest.last, [o.stored] + rest.stored, rest.raised)
  }

  /** The number of steps an episode runs when nothing raises: up to and
      including the first `done`. */
  function StepsUntilDone(inputs: seq<StepInput>): (n: nat)
    ensures n <= |inputs|
    ensures inputs != [] ==> n > 0
  {
    if inputs == [] then 0 else if inputs[0].done then 1 else 1 + StepsUntilDone(inputs[1..])
  }

  /** One step of an episode, unfolded. */
  lemma EpisodeFromFirst(cfg: Config, s: LoopState, inputs: seq<StepInput>)
    requires StepReady(cfg, s) && EpisodeInputsOk(cfg, s, inputs) && inputs != []
    ensures InputOk(cfg, s, inputs[0])
    ensures var o := StepSpec(cfg, s, inputs[0]);
      (BatchFails(cfg, s) ==> EpisodeFrom(cfg, s, inputs) == EpisodeResult(o.next, [o.stored], true)) &&
      (!BatchFails(cfg, s) && inputs[0].done ==> EpisodeFrom(cfg, s, inputs) == EpisodeResult(o.next, [o.stored], false)) &&
      (!BatchFails(cfg, s) && !inputs[0].done ==>
        EpisodeInputsOk(cfg, o.next, inputs[1..]) &&
        EpisodeFrom(cfg, s, inputs) ==
          var rest := EpisodeFrom(cfg, o.next, inputs[1..]);
          EpisodeResult(rest.last, [o.stored] + rest.stored, rest.raised))
  {
  }

  /** Transition `k` of `stored` was made from input `k`: it holds that
      input's clipped reward and has that input's frame in front of its next
      history. */
  predicate RecordsInputs(stored: seq<Transition>, inputs: seq<StepInput>) {
    |stored| <= |inputs| &&
    forall k :: 0 <= k < |stored| ==>
      stored[k].reward == Clip(inputs[k].reward) && stored[k].nextHistory[0] == inputs[k].frame
  }

  lemma RecordsCons(t: Transition, stored: seq<Transition>, inputs: seq<StepInput>)
    requires inputs != [] && RecordsInputs(stored, inputs[1..])
    requires t.reward == Clip(inputs[0].reward) && t.nextHistory[0] == inputs[0].frame
    ensures RecordsInputs([t] + stored, inputs)
  {
    var r := [t] + stored;
    forall k | 0 <= k < |r| ensures r[k].reward == Clip(inputs[k].reward) && r[k].nextHistory[0] == inputs[k].frame {
      if k > 0 {
        assert r[k] == stored[k - 1] && inputs[k] == inputs[1..][k - 1];
      }
    }
  }

  /** An episode stores one transition per step, with the clipped reward and
      the new frame in front of its next history, advances the counter once
      per stored transition and keeps the invariant. Unless a sample raises,
      it runs up to and including its first `done` step; a raise cuts it
      short. */
  lemma {:induction false} EpisodeSteps(cfg: Config, s: LoopState, inputs: seq<StepInput>)
    requires Invariant(cfg, s) && EpisodeInputsOk(cfg, s, inputs)
    ensures var r := EpisodeFrom(cfg, s, inputs);
      |r.stored| <= StepsUntilDone(inputs) &&
      (!r.raised ==> |r.stored| == StepsUntilDone(inputs)) &&
      (r.raised ==> r.stored != []) &&
      RecordsInputs(r.stored, inputs) &&
      r.last.globalStep == s.globalStep + |r.stored| &&
      Invariant(cfg, r.last)
    decreases |inputs|
  {
    if inputs != [] {
      EpisodeFromFirst(cfg, s, inputs);
      var o := StepSpec(cfg, s, inputs[0]);
      StoredTransition(cfg, s, inputs[0]);
      StepInvariant(cfg, s, inputs[0]);
      if BatchFails(cfg, s) || inputs[0].done {
        RecordsCons(o.stored, [], inputs);
        assert [o.stored] + [] == [o.stored];
      } else {
        EpisodeSteps(cfg, o.next, inputs[1..]);
        RecordsCons(o.stored, EpisodeFrom(cfg, o.next, inputs[1..]).stored, inputs);
      }
    }
  }

  /** With `batch_size <= min(observe_step_num + 2, replay_memory)` no
      sample of an episode ever raises. */
  lemma {:induction false} EpisodeNeverRaises(cfg: Config, s: LoopState, inputs: seq<StepInput>)
    requires Invariant(cfg, s) && EpisodeInputsOk(cfg, s, inputs)
    requires 0 < cfg.batchSize <= Min(cfg.observeStepNum + 2, cfg.replayMemory)
    ensures !EpisodeFrom(cfg, s, inputs).raised
    decreases |inputs|
  {
    if inputs != [] {
      EpisodeFromFirst(cfg, s, inputs);
      var o := StepSpec(cfg, s, inputs[0]);
      TrainingSampleSucceeds(cfg, s, inputs[0]);
      if !inputs[0].done {
        StepInvariant(cfg, s, inputs[0]);
        EpisodeNeverRaises(cfg, o.next, inputs[1..]);
      }
    }
  }

  /** Once training is on, a step that finds fewer than `batch_size`
      transitions in the memory right after its store raises and ends the
      run, with that step's transition stored. */
  lemma {:induction false} ShortMemoryRaises(cfg: Config, s: LoopState, inputs: seq<StepInput>)
    requires StepReady(cfg, s) && EpisodeInputsOk(cfg, s, inputs) && inputs != []
    requires s.globalStep > cfg.observeStepNum && cfg.batchSize > StoredCount(cfg, s)
    ensures var r := EpisodeFrom(cfg, s, inputs);
      r.raised && r.stored == [StepSpec(cfg, s, inputs[0]).stored]
  {
    EpisodeFromFirst(cfg, s, inputs);
  }

  /** With `batch_size` 0 the sample succeeds but `get_one_hot` receives
      no actions and raises, so the first training step ends the run, with
      that step's transition stored. */
  lemma {:induction false} EmptyBatchRaises(cfg: Config, s: LoopState, inputs: seq<StepInput>)
    requires StepReady(cfg, s) && EpisodeInputsOk(cfg, s, inputs) && inputs != []
    requires s.globalStep > cfg.observeStepNum && cfg.batchSize == 0
    ensures var r := EpisodeFrom(cfg, s, inputs);
      r.raised && r.stored == [StepSpec(cfg, s, inputs[0]).stored] &&
      StepSpec(cfg, s, inputs[0]).update == Some(Err(NonIntegerIndex))
  {
    EpisodeFromFirst(cfg, s, inputs);
    StepSpecParts(cfg, s, inputs[0]);
  }

  /** An episode in which the lives never fall below the starting count
      stores no terminal transition, so the history is never frozen. */
  lemma {:induction false} NoLifeLostEpisode(cfg: Config, s: LoopState, inputs: seq<StepInput>)
    requires Invariant(cfg, s) && EpisodeInputsOk(cfg, s, inputs)
    requires forall k :: 0 <= k < |inputs| ==> inputs[k].lives >= s.startLife
    ensures var r := EpisodeFrom(cfg, s, inputs);
      (forall k :: 0 <= k < |r.stored| ==> !r.stored[k].dead) &&
      r.last.startLife == s.startLife
    decreases |inputs|
  {
    if inputs != [] {
      EpisodeFromFirst(cfg, s, inputs);
      var o := StepSpec(cfg, s, inputs[0]);
      LifeLossStep(cfg, s, inputs[0]);
      StepInvariant(cfg, s, inputs[0]);
      if !BatchFails(cfg, s) && !inputs[0].done {
        NoLifeLostEpisode(cfg, o.next, inputs[1..]);
      }
    }
  }

  /** The frames a run of inputs delivers, in order. */
  function Frames(inputs: seq<StepInput>): (fs: seq<Frame>)
    ensures |fs| == |inputs|
  {
    seq(|inputs|, k requires 0 <= k < |inputs| => inputs[k].frame)
  }

  /** Advancing by the first input's frame and then by the next `m` frames
      is advancing by the first `m + 1` frames. */
  lemma AdvanceAllFrames(h: History, inputs: seq<StepInput>, m: nat)
    requires m < |inputs|
    ensures AdvanceAll(Advance(h, inputs[0].frame), Frames(inputs[1..][..m])) == AdvanceAll(h, Frames(inputs[..m + 1]))
  {
    assert Frames(inputs[..m + 1]) == [inputs[0].frame] + Frames(inputs[1..][..m]);
    AdvanceAllCons(h, inputs[0].frame, Frames(inputs[1..][..m]));
  }

  /** A step without a lost life advances the history by its frame and
      leaves `start_life` alone. */
  lemma NoDeathStep(cfg: Config, s: LoopState, inp: StepInput)
    requires Invariant(cfg, s) && InputOk(cfg, s, inp) && inp.lives >= s.startLife
    ensures var o := StepSpec(cfg, s, inp);
      o.next.history == Advance(s.history, inp.frame) && o.next.startLife == s.startLife && Invariant(cfg, o.next)
  {
    LifeLossStep(cfg, s, inp);
    StepInvariant(cfg, s, inp);
  }

  /** In an episode without a lost life the maintained history is the
      starting history advanced by the frame of every step taken, so it
      slides over the newest four frames. */
  lemma {:induction false} EpisodeHistoryNoDeath(cfg: Config, s: LoopState, inputs: seq<StepInput>)
    requires Invariant(cfg, s) && EpisodeInputsOk(cfg, s, inputs)
    requires forall k :: 0 <= k < |inputs| ==> inputs[k].lives >= s.startLife
    ensures var r := EpisodeFrom(cfg, s, inputs);
      r.last.history == AdvanceAll(s.history, Frames(inputs[..|r.stored|]))
    decreases |inputs|
  {
    var r := EpisodeFrom(cfg, s, inputs);
    if inputs == [] {
      assert Frames(inputs[..0]) == [];
    } else {
      EpisodeFromFirst(cfg, s, inputs);
      var o := StepSpec(cfg, s, inputs[0]);
      NoDeathStep(cfg, s, inputs[0]);
      if BatchFails(cfg, s) || inputs[0].done {
        assert r.last == o.next && |r.stored| == 1;
        AdvanceAllFrames(s.history, inputs, 0);
      } else {
        var rest := EpisodeFrom(cfg, o.next, inputs[1..]);
        assert r.last == rest.last && |r.stored| == |rest.stored| + 1;
        EpisodeHistoryNoDeath(cfg, o.next, inputs[1..]);
        AdvanceAllFrames(s.history, inputs, |rest.stored|);
      }
    }
  }

  /** The sliding window through the loop: an episode started on frame F1
      that takes four steps with frames F2..F5 and no lost life ends with
      the history [F5, F4, F3, F2]. */
  lemma EpisodeHistoryExample(cfg: Config, s: LoopState, first: Frame, inputs: seq<StepInput>)
    requires Invariant(cfg, s)
    requires 0 < cfg.batchSize <= Min(cfg.observeStepNum + 2, cfg.replayMemory)
    requires |inputs| == 4 && !inputs[0].done && !inputs[1].done && !inputs[2].done
    requires forall k :: 0 <= k < 4 ==> inputs[k].lives >= START_LIVES
    requires EpisodeInputsOk(cfg, EpisodeStart(s, first), inputs)
    ensures EpisodeFrom(cfg, EpisodeStart(s, first), inputs).last.history ==
      [inputs[3].frame, inputs[2].frame, inputs[1].frame, inputs[0].frame]
  {
    var s0 := EpisodeStart(s, first);
    EpisodeStartInvariant(cfg, s, first);
    assert StepsUntilDone(inputs[3..]) == 1;
    assert StepsUntilDone(inputs[2..]) == 2 by { assert inputs[2..][1..] == inputs[3..]; }
    assert StepsUntilDone(inputs[1..]) == 3 by { assert inputs[1..][1..] == inputs[2..]; }
    assert StepsUntilDone(inputs) == 4;
    EpisodeNeverRaises(cfg, s0, inputs);
    EpisodeSteps(cfg, s0, inputs);
    EpisodeHistoryNoDeath(cfg, s0, inputs);
    assert inputs[..4] == inputs;
    assert Frames(inputs) == [inputs[0].frame, inputs[1].frame, inputs[2].frame, inputs[3].frame];
    assert s0.history == InitialHistory(first);
    HistoryExample(first, inputs[0].frame, inputs[1].frame, inputs[2].frame, inputs[3].frame);
  }

  /** One step appends its stored transition to the record of everything stored. */
  lemma StepKeepsNewest(cfg: Config, s: LoopState, inp: StepInput, past: seq<Transition>)
    requires StepReady(cfg, s) && InputOk(cfg, s, inp)
    requires s.memory == Newest(past, cfg.replayMemory)
    ensures StepSpec(cfg, s, inp).next.memory == Newest(past + [StepSpec(cfg, s, inp).stored], cfg.replayMemory)
  {
    AppendKeepsNewest(past, cfg.replayMemory, StepSpec(cfg, s, inp).stored);
  }

  /** Proof helper: regroups a concatenation so that the episode lemmas
      below can match a fold step against its unfolded form. */
  lemma AppendAssoc<T>(a: seq<T>, b: seq<T>, c: seq<T>)
    ensures a + b + c == a + (b + c)
  {
  }

  /** Across an episode the memory keeps holding the newest `replay_memory`
      transitions ever stored, oldest first. */
  lemma {:induction false} EpisodeMemoryIsNewest(cfg: Config, s: LoopState, inputs: seq<StepInput>, past: seq<Transition>)
    requires StepReady(cfg, s) && EpisodeInputsOk(cfg, s, inputs)
    requires s.memory == Newest(past, cfg.replayMemory)
    ensures EpisodeFrom(cfg, s, inputs).last.memory == Newest(past + EpisodeFrom(cfg, s, inputs).stored, cfg.replayMemory)
    decreases |inputs|
  {
    if inputs == [] {
      assert past + [] == past;
    } else {
      EpisodeFromFirst(cfg, s, inputs);
      var o := StepSpec(cfg, s, inputs[0]);
      StepKeepsNewest(cfg, s, inputs[0], past);
      if !BatchFails(cfg, s) && !inputs[0].done {
        var rest := EpisodeFrom(cfg, o.next, inputs[1..]);
        EpisodeMemoryIsNewest(cfg, o.next, inputs[1..], past + [o.stored]);
        AppendAssoc(past, [o.stored], rest.stored);
      }
    }
  }

  /** `rest` prefixed by the transitions already stored. */
  function After(stored: seq<Transition>, rest: EpisodeResult): EpisodeResult {
    EpisodeResult(rest.last, stored + rest.stored, rest.raised)
  }

  /** The loop of an episode starts with nothing stored and every input ahead. */
  lemma EpisodeRemaining(cfg: Config, s: LoopState, inputs: seq<StepInput>)
    requires StepReady(cfg, s) && EpisodeInputsOk(cfg, s, inputs)
    ensures inputs[0..] == inputs
    ensures EpisodeFrom(cfg, s, inputs) == After([], EpisodeFrom(cfg, s, inputs[0..]))
  {
    assert inputs[0..] == inputs;
    assert [] + EpisodeFrom(cfg, s, inputs).stored == EpisodeFrom(cfg, s, inputs).stored;
  }

  /** The loop may take its next step. */
  lemma EpisodeNextInputOk(cfg: Config, s: LoopState, rest: seq<StepInput>)
    requires StepReady(cfg, s) && EpisodeInputsOk(cfg, s, rest) && rest != []
    ensures InputOk(cfg, s, rest[0])
  {
  }

  /** One step of the loop, from `s` to `next` storing `t`: the goal is
      reached when the step raises or reports `done`, otherwise it is what
      the rest of the inputs make from the new state. */
  lemma EpisodeLoopStep(cfg: Config, s: LoopState, rest: seq<StepInput>, stored: seq<Transition>, goal: EpisodeResult,
                        next: LoopState, envAction: int, t: Transition, update: Option<Result<Update, BatchError>>)
    requires StepReady(cfg, s) && EpisodeInputsOk(cfg, s, rest) && rest != []
    requires goal == After(stored, EpisodeFrom(cfg, s, rest))
    requires InputOk(cfg, s, rest[0]) && StepSpec(cfg, s, rest[0]) == StepOutcome(next, envAction, t, update)
    ensures var raised := update.Some? && update.value.Err?;
      (rest[0].done || raised ==> EpisodeResult(next, stored + [t], raised) == goal) &&
      (!rest[0].done && !raised ==>
        StepReady(cfg, next) && EpisodeInputsOk(cfg, next, rest[1..]) &&
        goal == After(stored + [t], EpisodeFrom(cfg, next, rest[1..])))
  {
    EpisodeFromFirst(cfg, s, rest);
    RaisesIff(cfg, s, rest[0]);
    if !rest[0].done && !(update.Some? && update.value.Err?) {
      AppendAssoc(stored, [t], EpisodeFrom(cfg, next, rest[1..]).stored);
    }
  }

  /** When the inputs run out before a `done`, the goal is the current state. */
  lemma EpisodeRemainingEmpty(cfg: Config, s: LoopState, rest: seq<StepInput>, stored: seq<Transition>, goal: EpisodeResult)
    requires StepReady(cfg, s) && rest == [] && EpisodeInputsOk(cfg, s, rest)
    requires goal == After(stored, EpisodeFrom(cfg, s, rest))
    ensures goal == EpisodeResult(s, stored, false)
  {
    assert stored + [] == stored;
  }

  /** A stub environment that always shows the same frame, pays reward 1,
      never takes a life and ends after three steps: with a batch size the
      memory can always serve, the episode stores exactly three transitions,
      none terminal, each with reward 1. */
  lemma StubEnvironmentEpisode(cfg: Config, s: LoopState, inputs: seq<StepInput>)
    requires Invariant(cfg, s) && s.startLife == START_LIVES
    requires 0 < cfg.batchSize <= Min(cfg.observeStepNum + 2, cfg.replayMemory)
    requires |inputs| == 3 && !inputs[0].done && !inputs[1].done && inputs[2].done
    requires forall k :: 0 <= k < 3 ==> inputs[k].reward == 1.0 && inputs[k].lives == START_LIVES
    requires EpisodeInputsOk(cfg, s, inputs)
    ensures var r := EpisodeFrom(cfg, s, inputs);
      !r.raised && |r.stored| == 3 && (forall k :: 0 <= k < 3 ==> !r.stored[k].dead && r.stored[k].reward == 1.0)
  {
    assert StepsUntilDone(inputs[2..]) == 1;
    assert StepsUntilDone(inputs[1..]) == 2 by { assert inputs[1..][1..] == inputs[2..]; }
    assert StepsUntilDone(inputs) == 3;
    EpisodeNeverRaises(cfg, s, inputs);
    EpisodeSteps(cfg, s, inputs);
    NoLifeLostEpisode(cfg, s, inputs);
  }

  /** The replay memory of `train()`, together with the loop variables. */
  class Trainer {
    const cfg: Config
    const memory: ReplayMemory
    var epsilon: real
    var globalStep: nat
    var history: History
    var dead: bool
    var startLife: int

    ghost predicate Valid()
      reads this, memory, memory.data
    {
      cfg.epsilonStepNum > 0 &&
      memory.Valid() &&
      memory.data.Length == cfg.replayMemory &&
      ValidActions(memory.Contents)
    }

    /** The loop variables as a value. */
    ghost function View(): LoopState
      reads this, memory
    {
      LoopState(epsilon, globalStep, history, dead, startLife, memory.Contents)
    }

    /** Lines 160-165. `epsilon_step_num` must be positive: line 164 divides by it. */
    constructor (config: Config)
      requires config.epsilonStepNum > 0
      ensures Valid() && fresh(memory) && fresh(memory.data)
      ensures cfg == config && View() == InitialState(config)
    {
      cfg := config;
      memory := new ReplayMemory(config.replayMemory);
      epsilon := config.initEpsilon;
      globalStep := 0;
      history := InitialHistory([]);
      dead := false;
      startLife := START_LIVES;
    }

    /** The start of an episode, from the first frame after the no-op steps. */
    method StartEpisode(first: Frame)
      requires Valid()
      modifies this
      ensures Valid() && View() == EpisodeStart(old(View()), first)
    {
      dead := false;
      startLife := START_LIVES;
      history := [first, first, first, first];
    }

    /** One iteration of the inner loop of `train()`. The call at line 218 is
        meant as `train_memory_batch(memory, model)`; its result is returned
        for the network to fit. */
    method Step(inp: StepInput) returns (envAction: int, stored: Transition, update: Option<Result<Update, BatchError>>)
      requires Valid() && InputOk(cfg, View(), inp)
      modifies this, memory, memory.data
      ensures Valid()
      ensures StepSpec(cfg, old(View()), inp) == StepOutcome(View(), envAction, stored, update)
    {
      ghost var s := View();
      ghost var spec := StepSpec(cfg, s, inp);
      StepSpecParts(cfg, s, inp);
      var action := ChooseAction(cfg, epsilon, globalStep, inp.draw, inp.randomAction, inp.q);
      var nextEpsilon := epsilon;
      if epsilon > cfg.finalEpsilon && globalStep > cfg.observeStepNum {
        nextEpsilon := epsilon - EpsilonDecay(cfg);
      }
      var nextHistory := Advance(history, inp.frame);
      var lost := startLife > inp.lives;
      var isDead := lost || dead;
      var t := Transition(history, action, Clip(inp.reward), nextHistory, isDead);
      ghost var next := LoopState(nextEpsilon, globalStep + 1, if isDead then history else nextHistory,
                                  false, if lost then inp.lives else startLife, BoundedAppend(s.memory, cfg.replayMemory, t));
      assert next == spec.next && t == spec.stored;
      memory.Append(t);
      assert |memory.Contents| == StoredCount(cfg, s);
      assert ValidActions(memory.Contents);
      update := None;
      if globalStep > cfg.observeStepNum {
        assert cfg.batchSize <= |memory.Contents| ==>
          |inp.picks| == cfg.batchSize && DistinctPicks(inp.picks, |memory.Contents|) && QRows(inp.nextQ, cfg.batchSize);
        var u := Train(inp);
        update := Some(u);
      }
      epsilon, globalStep := nextEpsilon, globalStep + 1;
      history := if isDead then history else nextHistory;
      dead := false;
      startLife := if lost then inp.lives else startLife;
      envAction, stored := EnvAction(action), t;
      assert View() == next;
    }

    /** The call `train_memory_batch(memory, model)` of line 218, on the
        memory as it is after the store. */
    method Train(inp: StepInput) returns (u: Result<Update, BatchError>)
      requires Valid()
      requires cfg.batchSize <= |memory.Contents| ==>
        |inp.picks| == cfg.batchSize && DistinctPicks(inp.picks, |memory.Contents|) && QRows(inp.nextQ, cfg.batchSize)
      ensures u == BatchOutcome(cfg, memory.Contents, inp)
    {
      u := TrainMemoryBatch(memory, cfg.batchSize, cfg.gamma, inp.picks, inp.nextQ);
      BatchOutcomeOf(cfg, memory.Contents, inp, u);
    }

    /** The `while not done` loop of one episode. Returns the transitions it
        stored, in order, and whether a training sample raised, which ends
        `train()` altogether. The outer loop over episodes is not modelled:
        `episode_number` starts at 0 (deep_q_learning.py:161) and is never
        advanced, so the test at line 167 never ends it; each episode is the
        same `StartEpisode` followed by this loop. */
    method RunEpisode(first: Frame, inputs: seq<StepInput>) returns (stored: seq<Transition>, raised: bool)
      requires Valid()
      requires EpisodeInputsOk(cfg, EpisodeStart(View(), first), inputs)
      modifies this, memory, memory.data
      ensures Valid()
      ensures EpisodeResult(View(), stored, raised) == EpisodeFrom(cfg, EpisodeStart(old(View()), first), inputs)
    {
      StartEpisode(first);
      ghost var goal := EpisodeFrom(cfg, View(), inputs);
      EpisodeRemaining(cfg, View(), inputs);
      ghost var rest := inputs;
      var done := false;
      var i := 0;
      stored, raised := [], false;
      while !done && !raised && i < |inputs|
        invariant Valid()
        invariant 0 <= i <= |inputs| && rest == inputs[i..]
        invariant done || raised ==> EpisodeResult(View(), stored, raised) == goal
        invariant !done && !raised ==> EpisodeInputsOk(cfg, View(), rest)
        invariant !done && !raised ==> goal == After(stored, EpisodeFrom(cfg, View(), rest))
        decreases |inputs| - i
      {
        ghost var pre := View();
        EpisodeNextInputOk(cfg, pre, rest);
        var envAction, t, update := Step(inputs[i]);
        EpisodeLoopStep(cfg, pre, rest, stored, goal, View(), envAction, t, update);
        stored := stored + [t];
        raised := update.Some? && update.value.Err?;
        done := inputs[i].done;
        rest := rest[1..];
        i := i + 1;
      }
      if !done && !raised {
        EpisodeRemainingEmpty(cfg, View(), rest, stored, goal);
      }
    }
  }
}
