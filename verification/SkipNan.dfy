/**
 The cross-rank NaN counter of `SkipNaNStep`: all ranks agree, through one all-reduce per optimizer
 step, on how many steps in a row every rank has seen NaN or Inf, and abort together.
 */
module SkipNan {
  import opened Wrappers

  datatype LossValue = Finite(x: real) | NaN | Inf

  ghost predicate IsBad(loss: seq<LossValue>) {
    exists i :: 0 <= i < |loss| && !loss[i].Finite?
  }

  /** The callback of one rank; `raised` once it has raised the RuntimeError. */
  datatype Rank = Rank(nanDetected: bool, count: nat, raised: bool)

  /** `on_before_optimizer_step` after the all-reduce has summed the flags to `nanRankCount`. */
  function AfterReduce(r: Rank, nanRankCount: nat, world: nat, maxConsecutive: int): Rank {
    if nanRankCount != world then Rank(false, 0, false)
    else if 0 < maxConsecutive <= r.count + 1 then Rank(r.nanDetected, r.count + 1, true)
    else Rank(false, r.count + 1, false)
  }

  class SkipNaNStep {
    const maxConsecutiveNan: int
    var nanDetected: bool
    var consecutiveNanCount: nat
    ghost var raised: bool

    ghost function State(): Rank
      reads this
    {
      Rank(nanDetected, consecutiveNanCount, raised)
    }

    constructor (maxConsecutiveNan: int)
      ensures this.maxConsecutiveNan == maxConsecutiveNan && State() == Rank(false, 0, false)
    {
      this.maxConsecutiveNan := maxConsecutiveNan;
      nanDetected, consecutiveNanCount, raised := false, 0, false;
    }

    method OnBeforeBackward(loss: seq<LossValue>)
      modifies this
      ensures State() == old(State()).(nanDetected := old(nanDetected) || IsBad(loss))
    {
      var i := 0;
      while i < |loss|
        invariant i <= |loss| && unchanged(this)
        invariant forall j | 0 <= j < i :: loss[j].Finite?
      {
        if !loss[i].Finite? {
          nanDetected := true;
          return;
        }
        i := i + 1;
      }
    }

    /** The gradients are zeroed in place exactly when every rank has flagged the step. */
    method OnBeforeOptimizerStep(nanRankCount: nat, worldSize: nat, grads: array<Option<real>>)
      requires nanRankCount <= worldSize && worldSize > 0
      modifies this, grads
      ensures State() == AfterReduce(old(State()), nanRankCount, worldSize, maxConsecutiveNan)
      ensures forall i | 0 <= i < grads.Length ::
        grads[i] == if nanRankCount == worldSize && old(grads[i]).Some? then Some(0.0) else old(grads[i])
    {
      raised := false;
      if 0 < nanRankCount < worldSize {
        consecutiveNanCount := 0;
      } else if nanRankCount == worldSize {
        for i := 0 to grads.Length
          invariant State() == old(State()).(raised := false)
          invariant forall j | 0 <= j < grads.Length ::
            grads[j] == if j < i && old(grads[j]).Some? then Some(0.0) else old(grads[j])
        {
          if grads[i].Some? {
            grads[i] := Some(0.0);
          }
        }
        consecutiveNanCount := consecutiveNanCount + 1;
        if maxConsecutiveNan > 0 && consecutiveNanCount >= maxConsecutiveNan {
          raised := true;
          return;
        }
      } else {
        consecutiveNanCount := 0;
      }
      nanDetected := false;
    }
  }

  // ---------------------------------------------------------------------------------------------
  // All ranks, over whole runs
  // ---------------------------------------------------------------------------------------------

  /** Between two optimizer steps: the losses of every rank's micro-batches. */
  type OptimizerStep = seq<seq<seq<LossValue>>>

  ghost predicate AnyBad(losses: seq<seq<LossValue>>) {
    exists i :: 0 <= i < |losses| && IsBad(losses[i])
  }

  /** `on_before_backward` for each micro-batch in turn. */
  ghost function AfterBackward(r: Rank, losses: seq<seq<LossValue>>): Rank {
    if losses == [] then r
    else
      var before := AfterBackward(r, losses[..|losses| - 1]);
      before.(nanDetected := before.nanDetected || IsBad(losses[|losses| - 1]))
  }

  /** The SUM all-reduce of the flags. */
  function NanRankCount(ranks: seq<Rank>): nat {
    if ranks == [] then 0
    else NanRankCount(ranks[..|ranks| - 1]) + (if ranks[|ranks| - 1].nanDetected then 1 else 0)
  }

  ghost function WorldStep(ranks: seq<Rank>, step: OptimizerStep, maxConsecutive: int): seq<Rank>
    requires |step| == |ranks|
  {
    var flagged := seq(|ranks|, r requires 0 <= r < |ranks| => AfterBackward(ranks[r], step[r]));
    seq(|ranks|, r requires 0 <= r < |ranks| => AfterReduce(flagged[r], NanRankCount(flagged), |ranks|, maxConsecutive))
  }

  /** Training ends as soon as some rank raises. */
  ghost function Run(world: nat, steps: seq<OptimizerStep>, maxConsecutive: int): (ranks: seq<Rank>)
    requires forall i | 0 <= i < |steps| :: |steps[i]| == world
    ensures |ranks| == world
  {
    if steps == [] then seq(world, _ => Rank(false, 0, false))
    else
      var before := Run(world, steps[..|steps| - 1], maxConsecutive);
      if exists r :: 0 <= r < world && before[r].raised then before
      else WorldStep(before, steps[|steps| - 1], maxConsecutive)
  }

  /** Every rank has seen NaN or Inf since the previous optimizer step. */
  ghost predicate AllNan(step: OptimizerStep) {
    forall r | 0 <= r < |step| :: AnyBad(step[r])
  }

  /** How many of the last steps in a row were all-NaN. */
  ghost function Trailing(steps: seq<OptimizerStep>): nat {
    if steps == [] || !AllNan(steps[|steps| - 1]) then 0 else Trailing(steps[..|steps| - 1]) + 1
  }

  /** Some prefix of the run ends in `maxConsecutive` all-NaN steps. */
  ghost predicate MustAbort(steps: seq<OptimizerStep>, maxConsecutive: int) {
    maxConsecutive > 0 && exists n: nat :: n <= |steps| && Trailing(steps[..n]) >= maxConsecutive
  }

  lemma {:induction false} BackwardFlags(r: Rank, losses: seq<seq<LossValue>>)
    ensures AfterBackward(r, losses) == r.(nanDetected := r.nanDetected || AnyBad(losses))
  {
    if losses != [] {
      var n := |losses| - 1;
      BackwardFlags(r, losses[..n]);
      assert forall i | 0 <= i < n :: losses[..n][i] == losses[i];
      assert IsBad(losses[n]) ==> AnyBad(losses);
    }
  }

  lemma {:induction false} CountBounds(ranks: seq<Rank>)
    ensures NanRankCount(ranks) <= |ranks|
    ensures NanRankCount(ranks) == |ranks| <==> forall r | 0 <= r < |ranks| :: ranks[r].nanDetected
  {
    if ranks != [] {
      CountBounds(ranks[..|ranks| - 1]);
    }
  }

  /** From equal counters to equal counters, by one step. */
  lemma StepAgrees(ranks: seq<Rank>, step: OptimizerStep, maxConsecutive: int, count: nat)
    requires |step| == |ranks| && forall r | 0 <= r < |ranks| :: ranks[r] == Rank(false, count, false)
    ensures
      var next := if !AllNan(step) then Rank(false, 0, false)
                  else if 0 < maxConsecutive <= count + 1 then Rank(true, count + 1, true)
                  else Rank(false, count + 1, false);
      forall r | 0 <= r < |ranks| :: WorldStep(ranks, step, maxConsecutive)[r] == next
  {
    var flagged := seq(|ranks|, r requires 0 <= r < |ranks| => AfterBackward(ranks[r], step[r]));
    forall r | 0 <= r < |ranks| ensures flagged[r] == Rank(AnyBad(step[r]), count, false) {
      BackwardFlags(ranks[r], step[r]);
    }
    CountBounds(flagged);
  }

  lemma {:induction false} AbortGrows(steps: seq<OptimizerStep>, maxConsecutive: int)
    requires steps != []
    ensures MustAbort(steps, maxConsecutive) <==>
      MustAbort(steps[..|steps| - 1], maxConsecutive) || 0 < maxConsecutive <= Trailing(steps)
  {
    var init := steps[..|steps| - 1];
    assert steps[..|steps|] == steps;
    assert forall n: nat | n < |steps| :: init[..n] == steps[..n];
  }

  /**
   Main result: at every point of every run all ranks are in the same state. The counter is the number
   of trailing all-NaN steps, and the ranks raise together, exactly when it first reaches the limit.
   */
  lemma {:induction false} NanSkipAgreement(world: nat, steps: seq<OptimizerStep>, maxConsecutive: int)
    requires world > 0 && forall i | 0 <= i < |steps| :: |steps[i]| == world
    ensures
      var state := if MustAbort(steps, maxConsecutive) then Rank(true, maxConsecutive, true)
                   else Rank(false, Trailing(steps), false);
      forall r | 0 <= r < world :: Run(world, steps, maxConsecutive)[r] == state
  {
    if steps != [] {
      var init := steps[..|steps| - 1];
      NanSkipAgreement(world, init, maxConsecutive);
      AbortGrows(steps, maxConsecutive);
      if MustAbort(init, maxConsecutive) {
        assert Run(world, init, maxConsecutive)[0].raised;
      } else {
        assert maxConsecutive > 0 ==> Trailing(init) < maxConsecutive by {
          assert init[..|init|] == init;
        }
        StepAgrees(Run(world, init, maxConsecutive), steps[|steps| - 1], maxConsecutive, Trailing(init));
      }
    }
  }
}
