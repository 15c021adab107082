/**
 The replay memory of the training loop: a `deque(maxlen=replay_memory)` of
 transitions, implemented here as a ring buffer over a preallocated array.
 `Contents` is the deque as a sequence, oldest transition first.
 */
module ReplayBuffer {
  import opened DqnTypes
  import opened BoundedFifo

  /** Array position of the `i`-th oldest item of a ring that starts at `start`. */
  function Slot(start: nat, i: nat, n: nat): (k: nat)
    requires start < n && i < n
    ensures k < n
  {
    if start + i < n then start + i else start + i - n
  }

  /** Distinct logical positions occupy distinct array positions. */
  lemma SlotInjective(start: nat, i: nat, j: nat, n: nat)
    requires start < n && i < n && j < n && i != j
    ensures Slot(start, i, n) != Slot(start, j, n)
  {
  }

  /** `random.sample(population, k)` with the generator's choices supplied as
      positions `picks` into the population: the sample, in drawing order,
      one member of the population per draw. */
  function Sampled(population: seq<Transition>, picks: seq<nat>): (r: seq<Transition>)
    requires forall j :: 0 <= j < |picks| ==> picks[j] < |population|
    ensures |r| == |picks|
    ensures forall j :: 0 <= j < |r| ==> r[j] in population
  {
    seq(|picks|, j requires 0 <= j < |picks| => population[picks[j]])
  }

  /** The positions drawn are pairwise distinct and all inside the population. */
  predicate DistinctPicks(picks: seq<nat>, size: nat) {
    (forall j :: 0 <= j < |picks| ==> picks[j] < size) &&
    (forall j, k :: 0 <= j < k < |picks| ==> picks[j] != picks[k])
  }

  /** The ring `data`, read from `start` for `len` items, spells `contents`. */
  ghost predicate RingHolds(data: seq<Transition>, start: nat, len: nat, contents: seq<Transition>) {
    len <= |data| &&
    (|data| == 0 ==> start == 0) &&
    (|data| > 0 ==> start < |data|) &&
    |contents| == len &&
    forall i :: 0 <= i < len ==> contents[i] == data[Slot(start, i, |data|)]
  }

  /** Writing into the first free slot of a ring that is not full appends. */
  lemma RingPush(data: seq<Transition>, start: nat, len: nat, contents: seq<Transition>, t: Transition)
    requires RingHolds(data, start, len, contents) && len < |data|
    ensures RingHolds(data[Slot(start, len, |data|) := t], start, len + 1, BoundedAppend(contents, |data|, t))
  {
    var n := |data|;
    assert BoundedAppend(contents, n, t) == contents + [t];
    var k := Slot(start, len, n);
    forall i | 0 <= i < len ensures Slot(start, i, n) != k {
      SlotInjective(start, i, len, n);
    }
  }

  /** Overwriting the oldest slot of a full ring and moving the start past it
      drops the oldest item and appends the new one. */
  lemma RingOverwrite(data: seq<Transition>, start: nat, contents: seq<Transition>, t: Transition)
    requires |data| > 0 && RingHolds(data, start, |data|, contents)
    ensures RingHolds(data[start := t], if start + 1 == |data| then 0 else start + 1, |data|, BoundedAppend(contents, |data|, t))
  {
    var n := |data|;
    var start' := if start + 1 == n then 0 else start + 1;
    var c' := contents[1..] + [t];
    assert BoundedAppend(contents, n, t) == c';
    forall i | 0 <= i < n
      ensures c'[i] == data[start := t][Slot(start', i, n)]
    {
      if i < n - 1 {
        assert Slot(start', i, n) == Slot(start, i + 1, n);
        SlotInjective(start, i + 1, 0, n);
      } else {
        assert Slot(start', i, n) == start;
      }
    }
  }

  /** Overwrite one array slot; every other slot keeps its transition. */
  method WriteAt(a: array<Transition>, k: nat, t: Transition)
    requires k < a.Length
    modifies a
    ensures a[..] == old(a[..])[k := t]
  {
    a[k] := t;
  }

  /** Where `append` writes: the first free slot, or the oldest slot when the ring is full. */
  function WriteSlot(start: nat, len: nat, n: nat): (k: nat)
    requires start < n && len <= n
    ensures k < n
  {
    if len < n then Slot(start, len, n) else start
  }

  /** The ring's start after an append: it moves past the overwritten oldest slot when full. */
  function NextStart(start: nat, len: nat, n: nat): (s: nat)
    requires start < n && len <= n
    ensures s < n
  {
    if len < n then start else if start + 1 == n then 0 else start + 1
  }

  /** One append to a non-empty ring, whether it is full or not. */
  lemma RingAppend(data: seq<Transition>, start: nat, len: nat, contents: seq<Transition>, t: Transition)
    requires |data| > 0 && RingHolds(data, start, len, contents)
    ensures RingHolds(data[WriteSlot(start, len, |data|) := t], NextStart(start, len, |data|),
                      Min(len + 1, |data|), BoundedAppend(contents, |data|, t))
  {
    if len < |data| {
      RingPush(data, start, len, contents, t);
    } else {
      RingOverwrite(data, start, contents, t);
    }
  }

  class ReplayMemory {
    /** The preallocated ring; its length is `maxlen`. */
    const data: array<Transition>
    var start: nat
    var len: nat
    /** The deque, oldest first. */
    ghost var Contents: seq<Transition>

    ghost predicate Valid()
      reads this, data
    {
      RingHolds(data[..], start, len, Contents)
    }

    /** `deque(maxlen=capacity)`: an empty memory. */
    constructor (capacity: nat)
      ensures Valid() && fresh(data)
      ensures data.Length == capacity && Contents == []
    {
      data := new Transition[capacity];
      start, len := 0, 0;
      Contents := [];
    }

    /** `store_memory`: `memory.append(transition)`. Below the bound the
        transition is added at the end; at the bound the oldest is dropped
        first; with `maxlen = 0` nothing is kept. */
    method Append(t: Transition)
      requires Valid()
      modifies this, data
      ensures Valid()
      ensures Contents == BoundedAppend(old(Contents), data.Length, t)
    {
      var n := data.Length;
      if n == 0 {
        return;
      }
      ghost var ring := data[..];
      ghost var c := Contents;
      RingAppend(ring, start, len, c, t);
      WriteAt(data, WriteSlot(start, len, n), t);
      start, len, Contents := NextStart(start, len, n), Min(len + 1, n), BoundedAppend(c, n, t);
    }

    /** `memory[i]`, counted from the oldest transition. */
    method Get(i: nat) returns (t: Transition)
      requires Valid() && i < |Contents|
      ensures t == Contents[i]
    {
      t := data[Slot(start, i, data.Length)];
    }

    /** `random.sample(memory, k)`. When `k` exceeds the number of stored
        transitions the sample fails; otherwise `picks` are the `k` distinct
        positions the generator chose and the sample lists those transitions. */
    method Sample(k: nat, picks: seq<nat>) returns (r: Result<seq<Transition>, BatchError>)
      requires Valid()
      requires k <= |Contents| ==> |picks| == k && DistinctPicks(picks, |Contents|)
      ensures r.Err? <==> k > |Contents|
      ensures r.Err? ==> r.error == SampleLargerThanPopulation
      ensures r.Ok? ==> r.value == Sampled(Contents, picks)
      ensures r.Ok? ==> |r.value| == k
      ensures r.Ok? ==> forall j :: 0 <= j < |r.value| ==> r.value[j] in Contents
    {
      if k > len {
        return Err(SampleLargerThanPopulation);
      }
      var out: seq<Transition> := [];
      var j := 0;
      while j < k
        invariant 0 <= j <= k
        invariant out == Sampled(Contents, picks[..j])
      {
        var t := Get(picks[j]);
        out := out + [t];
        j := j + 1;
      }
      assert picks[..k] == picks;
      r := Ok(out);
    }
  }
}
