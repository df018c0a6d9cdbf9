/**
 * `useTransitionState`: a value that moves from `from` to `to` as a
 * progress in [0, 1] advances by `delta / duration` on every animation
 * step, through a caller-supplied mapping. Numbers are idealised as reals.
 */
module TransitionState {

  function Min(a: real, b: real): real {
    if a <= b then a else b
  }

  function Max(a: real, b: real): real {
    if a >= b then a else b
  }

  /** The progress after one unfinished step: advanced by `delta / duration`
      and capped at 1. */
  function NextProgress(progress: real, delta: real, duration: real): (p: real)
    requires duration >= 1.0
    ensures p <= 1.0
    ensures delta >= 0.0 ==> p >= progress || p == 1.0
    ensures progress <= 1.0 && delta >= 0.0 ==> progress <= p
    ensures p == 1.0 <==> progress + delta / duration >= 1.0
  {
    Min(1.0, progress + delta / duration)
  }

  /** The progress after a run of steps: a step at progress 1 or more
      changes nothing. */
  function ProgressAfter(progress: real, deltas: seq<real>, duration: real): real
    requires duration >= 1.0
    decreases |deltas|
  {
    if deltas == [] then progress
    else if progress >= 1.0 then ProgressAfter(progress, deltas[1..], duration)
    else ProgressAfter(NextProgress(progress, deltas[0], duration), deltas[1..], duration)
  }

  function Sum(xs: seq<real>): real {
    if xs == [] then 0.0 else xs[0] + Sum(xs[1..])
  }

  /** Division by a positive duration distributes over a sum and keeps signs. */
  lemma DivFacts(x: real, y: real, duration: real)
    requires duration >= 1.0
    ensures (x + y) / duration == x / duration + y / duration
    ensures x >= 0.0 ==> x / duration >= 0.0
  {
  }

  /** With non-negative deltas the progress after several steps is the total
      elapsed time over the duration, capped at 1: a transition completes
      once `duration` milliseconds have elapsed in total. */
  lemma {:induction false} ProgressAfterIsCappedSum(progress: real, deltas: seq<real>, duration: real)
    requires duration >= 1.0 && progress <= 1.0
    requires forall k :: 0 <= k < |deltas| ==> deltas[k] >= 0.0
    ensures ProgressAfter(progress, deltas, duration) == Min(1.0, progress + Sum(deltas) / duration)
    decreases |deltas|
  {
    if deltas != [] {
      var rest := deltas[1..];
      SumNonNegative(rest);
      DivFacts(deltas[0], Sum(rest), duration);
      DivFacts(Sum(rest), 0.0, duration);
      var a := deltas[0] / duration;
      var b := Sum(rest) / duration;
      assert Sum(deltas) / duration == a + b;
      if progress >= 1.0 {
        ProgressAfterIsCappedSum(progress, rest, duration);
      } else {
        var p := NextProgress(progress, deltas[0], duration);
        ProgressAfterIsCappedSum(p, rest, duration);
      }
    }
  }

  lemma {:induction false} SumNonNegative(xs: seq<real>)
    requires forall k :: 0 <= k < |xs| ==> xs[k] >= 0.0
    ensures Sum(xs) >= 0.0
  {
    if xs != [] {
      SumNonNegative(xs[1..]);
    }
  }

  class Transition<T(!new)> {
    /** `valueRef.current`. */
    var value: T
    /** `transitionRef.current`. */
    var from: T
    var to: T
    var progress: real
    var duration: real
    const mapping: (T, T, real) -> T

    ghost predicate Valid()
      reads this
    {
      duration >= 1.0 && progress <= 1.0
    }

    /** The initial snapshot: settled at `initial`, duration at least 1 ms. */
    constructor (initial: T, mapping: (T, T, real) -> T, durationMs: real)
      ensures Valid()
      ensures value == initial && from == initial && to == initial && progress == 1.0
      ensures duration == Max(1.0, durationMs) && this.mapping == mapping
    {
      value := initial;
      from := initial;
      to := initial;
      progress := 1.0;
      duration := Max(1.0, durationMs);
      this.mapping := mapping;
    }

    /** `jumpTo`: settles at `next` at once; the duration stays. */
    method JumpTo(next: T)
      requires Valid()
      modifies this
      ensures Valid()
      ensures value == next && from == next && to == next && progress == 1.0
      ensures duration == old(duration)
    {
      value := next;
      from := next;
      to := next;
      progress := 1.0;
    }

    /** `startTransition`: in immediate mode a jump; otherwise a new
        transition from the current value to `next` at progress 0. */
    method StartTransition(next: T, immediate: bool)
      requires Valid()
      modifies this
      ensures Valid()
      ensures immediate ==> value == next && from == next && to == next && progress == 1.0
      ensures !immediate ==> from == old(value) && to == next && progress == 0.0 && value == old(value)
      ensures duration == old(duration)
    {
      if immediate {
        JumpTo(next);
        return;
      }
      from := value;
      to := next;
      progress := 0.0;
    }

    /** `step`: a settled transition yields `to`; otherwise the progress
        advances (capped at 1) and the value is the mapping at the new
        progress. */
    method Step(delta: real) returns (v: T)
      requires Valid()
      modifies this
      ensures Valid()
      ensures v == value && from == old(from) && to == old(to) && duration == old(duration)
      ensures old(progress) >= 1.0 ==> v == to && progress == old(progress)
      ensures old(progress) < 1.0 ==>
        progress == NextProgress(old(progress), delta, duration) && v == mapping(from, to, progress)
      ensures delta >= 0.0 ==> progress >= old(progress)
    {
      if progress >= 1.0 {
        value := to;
        return value;
      }
      progress := NextProgress(progress, delta, duration);
      value := mapping(from, to, progress);
      return value;
    }

    /** `getProgress`. */
    method GetProgress() returns (p: real)
      requires Valid()
      ensures p == progress && p <= 1.0
    {
      p := progress;
    }

    /** `getValue`. */
    method GetValue() returns (v: T)
      ensures v == value
    {
      v := value;
    }
  }
}
