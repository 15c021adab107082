/**
 `train_memory_batch`: sample a minibatch from the replay memory, compute the
 one-step Q-learning targets and build the masked labels the network is fitted
 on. The network's Q-values for the sampled next histories and the sampled
 positions are parameters; the fit itself is left to the caller.
 */
module TrainBatch {
  import opened DqnTypes
  import opened ReplayBuffer

  /** `np.amax`: the largest value of a non-empty row. */
  function Max(s: seq<real>): (m: real)
    requires |s| > 0
    ensures forall j :: 0 <= j < |s| ==> s[j] <= m
    ensures exists j :: 0 <= j < |s| && s[j] == m
  {
    if |s| == 1 then s[0]
    else
      var m := Max(s[..|s| - 1]);
      assert forall j :: 0 <= j < |s| - 1 ==> s[..|s| - 1][j] == s[j];
      if s[|s| - 1] > m then s[|s| - 1] else m
  }

  /** The one-step Q-learning target of one transition: the reward alone
      after a lost life, otherwise the reward plus the discounted best
      next-state value. */
  function Target(reward: real, dead: bool, gamma: real, nextQ: seq<real>): (t: real)
    requires |nextQ| > 0
    ensures dead ==> t == reward
    ensures !dead ==> exists j :: 0 <= j < |nextQ| && (forall k :: 0 <= k < |nextQ| ==> nextQ[k] <= nextQ[j])
                                 && t == reward + gamma * nextQ[j]
    ensures !dead && gamma >= 0.0 ==> forall j :: 0 <= j < |nextQ| ==> reward + gamma * nextQ[j] <= t
  {
    if dead then reward
    else
      var j :| 0 <= j < |nextQ| && nextQ[j] == Max(nextQ);
      assert gamma >= 0.0 ==> forall k :: 0 <= k < |nextQ| ==> gamma * nextQ[k] <= gamma * nextQ[j];
      reward + gamma * nextQ[j]
  }

  /** `np.eye(n)`: the n-by-n identity matrix, row by row. */
  function Eye(n: nat): (rows: seq<seq<real>>)
    ensures |rows| == n
    ensures forall i :: 0 <= i < n ==> |rows[i]| == n
    ensures forall i, j :: 0 <= i < n && 0 <= j < n ==> (rows[i][j] == 1.0 <==> i == j)
  {
    seq(n, i => seq(n, j => if i == j then 1.0 else 0.0))
  }

  /** `get_one_hot(targets, n)`: row `i` of `np.eye(n)` for every `targets[i]`,
      so one row of width `n` per target, with a 1 in the target's slot. An
      empty `targets` becomes a float-typed index array, which numpy refuses;
      `TrainMemoryBatch` reports that case as `NonIntegerIndex`. */
  function GetOneHot(targets: seq<nat>, n: nat): (rows: seq<seq<real>>)
    requires |targets| > 0
    requires forall i :: 0 <= i < |targets| ==> targets[i] < n
    ensures |rows| == |targets|
    ensures forall i :: 0 <= i < |rows| ==> |rows[i]| == n && rows[i][targets[i]] == 1.0
  {
    var eye := Eye(n);
    var rows := seq(|targets|, i requires 0 <= i < |targets| => eye[targets[i]]);
    assert forall i :: 0 <= i < |rows| ==> rows[i] == eye[targets[i]] && eye[targets[i]][targets[i]] == 1.0;
    rows
  }

  /** `one_hot * target[:, None]`: each row scaled by its own target, so a
      slot the mask clears stays 0 and a slot it sets carries the row's target. */
  function MaskedLabels(oneHot: seq<seq<real>>, target: seq<real>): (labels: seq<seq<real>>)
    requires |oneHot| == |target|
    ensures |labels| == |oneHot|
    ensures forall i :: 0 <= i < |labels| ==> |labels[i]| == |oneHot[i]|
    ensures forall i, j :: 0 <= i < |labels| && 0 <= j < |oneHot[i]| && oneHot[i][j] == 0.0 ==> labels[i][j] == 0.0
    ensures forall i, j :: 0 <= i < |labels| && 0 <= j < |oneHot[i]| && oneHot[i][j] == 1.0 ==> labels[i][j] == target[i]
  {
    seq(|oneHot|, i requires 0 <= i < |oneHot| =>
      seq(|oneHot[i]|, j requires 0 <= j < |oneHot[i]| => oneHot[i][j] * target[i]))
  }

  /** What `model.fit` receives: the histories, the action mask and the labels. */
  datatype Update = Update(histories: seq<History>, mask: seq<seq<real>>, labels: seq<seq<real>>)

  /** The network's answer for a batch: one row of `ACTION_SIZE` values per transition. */
  predicate QRows(nextQ: seq<seq<real>>, size: nat) {
    |nextQ| == size && forall i :: 0 <= i < |nextQ| ==> |nextQ[i]| == ACTION_SIZE
  }

  predicate ValidActions(batch: seq<Transition>) {
    forall i :: 0 <= i < |batch| ==> batch[i].action < ACTION_SIZE
  }

  /** The targets of a sampled batch, one per transition. */
  function BatchTargets(batch: seq<Transition>, nextQ: seq<seq<real>>, gamma: real): (t: seq<real>)
    requires QRows(nextQ, |batch|)
    ensures |t| == |batch|
  {
    seq(|batch|, i requires 0 <= i < |batch| =>
      Target(batch[i].reward, batch[i].dead, gamma, nextQ[i]))
  }

  /** The update `train_memory_batch` hands to the network for a sampled
      batch: one history, mask row and label row per transition, the
      histories in batch order. */
  function BatchUpdate(batch: seq<Transition>, nextQ: seq<seq<real>>, gamma: real): (u: Update)
    requires |batch| > 0 && QRows(nextQ, |batch|) && ValidActions(batch)
    ensures |u.histories| == |u.mask| == |u.labels| == |batch|
    ensures forall i :: 0 <= i < |batch| ==> u.histories[i] == batch[i].history
  {
    var actions := seq(|batch|, i requires 0 <= i < |batch| => batch[i].action);
    var oneHot := GetOneHot(actions, ACTION_SIZE);
    Update(
      seq(|batch|, i requires 0 <= i < |batch| => batch[i].history),
      oneHot,
      MaskedLabels(oneHot, BatchTargets(batch, nextQ, gamma)))
  }

  /** Row `i` of `get_one_hot` has a 1 at `targets[i]` and 0 everywhere else. */
  lemma OneHotRow(targets: seq<nat>, n: nat, i: nat)
    requires forall k :: 0 <= k < |targets| ==> targets[k] < n
    requires i < |targets|
    ensures |GetOneHot(targets, n)[i]| == n
    ensures forall j :: 0 <= j < n ==> GetOneHot(targets, n)[i][j] == if j == targets[i] then 1.0 else 0.0
  {
    assert GetOneHot(targets, n)[i] == Eye(n)[targets[i]];
    assert Eye(n)[targets[i]] == seq(n, j => if targets[i] == j then 1.0 else 0.0);
  }

  /** A label row carries the target in the slot of the taken action and 0 in
      every other slot. */
  lemma LabelRow(targets: seq<nat>, n: nat, target: seq<real>, i: nat)
    requires forall k :: 0 <= k < |targets| ==> targets[k] < n
    requires |target| == |targets| && i < |targets|
    ensures |MaskedLabels(GetOneHot(targets, n), target)[i]| == n
    ensures forall j :: 0 <= j < n ==>
      MaskedLabels(GetOneHot(targets, n), target)[i][j] == if j == targets[i] then target[i] else 0.0
  {
    OneHotRow(targets, n, i);
  }

  /** In the update, the label of transition `i` is zero except at its
      action, where it is the transition's target; the mask is that action's
      one-hot row and the history is the stored one. */
  lemma {:induction false} BatchUpdateRow(batch: seq<Transition>, nextQ: seq<seq<real>>, gamma: real, i: nat)
    requires QRows(nextQ, |batch|) && ValidActions(batch)
    requires i < |batch|
    ensures var u := BatchUpdate(batch, nextQ, gamma);
      |u.histories| == |u.mask| == |u.labels| == |batch| &&
      u.histories[i] == batch[i].history &&
      |u.mask[i]| == ACTION_SIZE && |u.labels[i]| == ACTION_SIZE &&
      (forall j :: 0 <= j < ACTION_SIZE ==> u.mask[i][j] == if j == batch[i].action then 1.0 else 0.0) &&
      (forall j :: 0 <= j < ACTION_SIZE ==>
        u.labels[i][j] == (if j == batch[i].action then Target(batch[i].reward, batch[i].dead, gamma, nextQ[i]) else 0.0))
  {
    var actions := seq(|batch|, k requires 0 <= k < |batch| => batch[k].action);
    OneHotRow(actions, ACTION_SIZE, i);
    LabelRow(actions, ACTION_SIZE, BatchTargets(batch, nextQ, gamma), i);
  }

  /** After a lost life the label does not depend on the next-state Q-values:
      two answers of the network give the same label row. */
  lemma {:induction false} TerminalLabelIgnoresNextQ(batch: seq<Transition>, q1: seq<seq<real>>, q2: seq<seq<real>>, gamma: real, i: nat)
    requires QRows(q1, |batch|) && QRows(q2, |batch|) && ValidActions(batch)
    requires i < |batch| && batch[i].dead
    ensures BatchUpdate(batch, q1, gamma).labels[i] == BatchUpdate(batch, q2, gamma).labels[i]
    ensures |BatchUpdate(batch, q1, gamma).labels[i]| == ACTION_SIZE
    ensures BatchUpdate(batch, q1, gamma).labels[i][batch[i].action] == batch[i].reward
  {
    BatchUpdateRow(batch, q1, gamma, i);
    BatchUpdateRow(batch, q2, gamma, i);
  }

  /** The worked example: reward 1.0, discount 0.99 and next values
      [0.2, 0.5, 0.1] give the target 1.495; action 1 of 3 gives the label
      row [0, T, 0]. */
  lemma TargetExample()
    ensures Target(1.0, false, 0.99, [0.2, 0.5, 0.1]) == 1.495
    ensures MaskedLabels(GetOneHot([1], 3), [1.495]) == [[0.0, 1.495, 0.0]]
  {
    assert Max([0.2, 0.5, 0.1]) == 0.5 by {
      assert [0.2, 0.5, 0.1][..2] == [0.2, 0.5];
      assert [0.2, 0.5][..1] == [0.2];
    }
    LabelRow([1], 3, [1.495], 0);
    var row := MaskedLabels(GetOneHot([1], 3), [1.495])[0];
    assert row == [0.0, 1.495, 0.0] by {
      assert row[0] == 0.0 && row[1] == 1.495 && row[2] == 0.0;
    }
  }

  /** The `for i in range(batch_size)` loop of `train_memory_batch`: fill the
      preallocated `target` array row by row. */
  method ComputeTargets(rewards: seq<real>, dead: seq<bool>, nextQ: seq<seq<real>>, gamma: real)
    returns (target: array<real>)
    requires |dead| == |rewards| && |nextQ| == |rewards|
    requires forall i :: 0 <= i < |nextQ| ==> |nextQ[i]| > 0
    ensures target.Length == |rewards|
    ensures forall i :: 0 <= i < |rewards| ==> target[i] == Target(rewards[i], dead[i], gamma, nextQ[i])
  {
    target := new real[|rewards|](_ => 0.0);
    for i := 0 to |rewards|
      invariant forall k :: 0 <= k < i ==> target[k] == Target(rewards[k], dead[k], gamma, nextQ[k])
    {
      if dead[i] {
        target[i] := rewards[i];
      } else {
        target[i] := rewards[i] + gamma * Max(nextQ[i]);
      }
    }
  }

  /** `train_memory_batch(memory, model)`. `picks` are the positions
      `random.sample` draws and `nextQ` is the network's answer for the
      sampled next histories (the source's call at line 131 passes a
      malformed mask; the intended all-ones mask is assumed). Fails exactly
      when the memory holds fewer than `batchSize` transitions
      (`SampleLargerThanPopulation`) or when `batchSize` is 0, where
      `get_one_hot` receives no actions (`NonIntegerIndex`). */
  method TrainMemoryBatch(memory: ReplayMemory, batchSize: nat, gamma: real, picks: seq<nat>, nextQ: seq<seq<real>>)
    returns (r: Result<Update, BatchError>)
    requires memory.Valid()
    requires ValidActions(memory.Contents)
    requires batchSize <= |memory.Contents| ==>
      |picks| == batchSize && DistinctPicks(picks, |memory.Contents|) && QRows(nextQ, batchSize)
    ensures r.Err? <==> batchSize > |memory.Contents| || batchSize == 0
    ensures r.Err? ==> r.error == if batchSize > |memory.Contents| then SampleLargerThanPopulation else NonIntegerIndex
    ensures r.Ok? ==> r.value == BatchUpdate(Sampled(memory.Contents, picks), nextQ, gamma)
  {
    var sample := memory.Sample(batchSize, picks);
    if sample.Err? {
      return Err(sample.error);
    }
    var batch := sample.value;
    var histories: seq<History> := [];
    var actions: seq<nat> := [];
    var rewards: seq<real> := [];
    var dead: seq<bool> := [];
    for idx := 0 to batchSize
      invariant |histories| == |actions| == |rewards| == |dead| == idx
      invariant forall k :: 0 <= k < idx ==>
        histories[k] == batch[k].history && actions[k] == batch[k].action &&
        rewards[k] == batch[k].reward && dead[k] == batch[k].dead
    {
      var t := batch[idx];
      histories := histories + [t.history];
      actions := actions + [t.action];
      rewards := rewards + [t.reward];
      dead := dead + [t.dead];
    }
    var target := ComputeTargets(rewards, dead, nextQ, gamma);
    assert forall k :: 0 <= k < batchSize ==> batch[k] in memory.Contents;
    if batchSize == 0 {
      return Err(NonIntegerIndex);
    }
    var oneHot := GetOneHot(actions, ACTION_SIZE);
    r := Ok(Update(histories, oneHot, MaskedLabels(oneHot, target[..])));
    assert actions == seq(|batch|, i requires 0 <= i < |batch| => batch[i].action);
    assert target[..] == BatchTargets(batch, nextQ, gamma);
  }
}
