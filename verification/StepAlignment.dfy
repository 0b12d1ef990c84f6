/**
 Aligning `num_steps` over dp_shard groups (`OmniInference.generate_batch`). Every denoising step
 issues collectives over a dp_shard group and over the cp/cfgp groups inside a replica, so ranks
 sharing either must run the same number of steps.
 */
module StepAlignment {
  import opened Wrappers
  import opened Blocks

  /** Ranks are cut into contiguous blocks: dp_shard groups of size `d`, replicas of size `cp * cfgp`. */
  function Block(rank: nat, size: nat): nat
    requires size > 0
  {
    rank / size
  }

  /** `num_steps` is chosen per replica: the ranks of one replica hold the same samples. */
  type Steps = nat -> int

  datatype Layout = Layout(world: nat, dpShard: nat, replicaSize: nat) {
    ghost predicate Valid() {
      world > 0 && dpShard > 0 && replicaSize > 0 && world % replicaSize == 0 && world % dpShard == 0
    }

    predicate Nests()
      requires dpShard > 0 && replicaSize > 0
    {
      dpShard % replicaSize == 0 || replicaSize % dpShard == 0
    }

    function Local(steps: Steps, rank: nat): int
      requires replicaSize > 0
    {
      steps(Block(rank, replicaSize))
    }
  }

  datatype AlignError = NotNested

  /** MAX over the ranks below `hi` that lie in dp_shard group `group`, starting from `acc`. */
  function GroupMax(l: Layout, steps: Steps, group: nat, hi: nat, acc: int): int
    requires l.Valid()
  {
    if hi == 0 then acc
    else if Block(hi - 1, l.dpShard) == group && l.Local(steps, hi - 1) > acc
    then GroupMax(l, steps, group, hi - 1, l.Local(steps, hi - 1))
    else GroupMax(l, steps, group, hi - 1, acc)
  }

  /** The all_reduce(MAX) over `rank`'s dp_shard group. */
  function AllReduceMax(l: Layout, steps: Steps, rank: nat): int
    requires l.Valid() && rank < l.world
  {
    GroupMax(l, steps, Block(rank, l.dpShard), l.world, l.Local(steps, rank))
  }

  /** The alignment block of `generate_batch`: no reduction for a trivial mesh, an error for layouts that do not nest. */
  function AlignNumSteps(l: Layout, steps: Steps, rank: nat): Result<int, AlignError>
    requires l.Valid() && rank < l.world
  {
    if l.dpShard > 1 then
      if l.replicaSize > 1 && l.dpShard % l.replicaSize != 0 && l.replicaSize % l.dpShard != 0 then Err(NotNested)
      else Ok(AllReduceMax(l, steps, rank))
    else Ok(l.Local(steps, rank))
  }

  /** Two ranks exchange collectives at every step. */
  ghost predicate Peers(l: Layout, a: nat, b: nat)
    requires l.Valid()
  {
    Block(a, l.dpShard) == Block(b, l.dpShard) || Block(a, l.replicaSize) == Block(b, l.replicaSize)
  }

  lemma {:induction false} GroupMaxBounds(l: Layout, steps: Steps, group: nat, hi: nat, acc: int)
    requires l.Valid()
    ensures var m := GroupMax(l, steps, group, hi, acc);
      && m >= acc
      && (forall r: nat | r < hi && Block(r, l.dpShard) == group :: m >= l.Local(steps, r))
      && (m == acc || exists r: nat :: r < hi && Block(r, l.dpShard) == group && m == l.Local(steps, r))
  {
    if hi > 0 {
      var v := l.Local(steps, hi - 1);
      if Block(hi - 1, l.dpShard) == group && v > acc {
        GroupMaxBounds(l, steps, group, hi - 1, v);
      } else {
        GroupMaxBounds(l, steps, group, hi - 1, acc);
      }
    }
  }

  /** The reduction returns the largest `num_steps` of the group: attained, and an upper bound. */
  lemma AllReduceMaxIsMax(l: Layout, steps: Steps, rank: nat)
    requires l.Valid() && rank < l.world
    ensures var m := AllReduceMax(l, steps, rank);
      && (forall r: nat | r < l.world && Block(r, l.dpShard) == Block(rank, l.dpShard) :: m >= l.Local(steps, r))
      && (exists r: nat :: r < l.world && Block(r, l.dpShard) == Block(rank, l.dpShard) && m == l.Local(steps, r))
  {
    GroupMaxBounds(l, steps, Block(rank, l.dpShard), l.world, l.Local(steps, rank));
  }

  lemma MaxAgrees(l: Layout, steps: Steps, a: nat, b: nat)
    requires l.Valid() && a < l.world && b < l.world && Block(a, l.dpShard) == Block(b, l.dpShard)
    ensures AllReduceMax(l, steps, a) == AllReduceMax(l, steps, b)
  {
    AllReduceMaxIsMax(l, steps, a);
    AllReduceMaxIsMax(l, steps, b);
  }

  lemma BlockOfBlock(a: nat, small: nat, k: nat)
    requires small > 0 && k > 0 && k * small > 0
    ensures Block(a, k * small) == Block(Block(a, small), k)
  {
    var q := Block(a, small);
    var t := Block(q, k);
    QuotientIs(a, small, q);
    QuotientIs(q, k, t);
    MulLe(t * k, q, small);
    MulLe(q + 1, (t + 1) * k, small);
    assert t * k * small == t * (k * small);
    assert (t + 1) * k * small == (t + 1) * (k * small);
    QuotientIs(a, k * small, t);
  }

  /** If blocks of size `small` tile blocks of size `big`, sharing a small block means sharing the big one. */
  lemma BlocksNest(a: nat, b: nat, small: nat, big: nat)
    requires small > 0 && big > 0 && big % small == 0 && Block(a, small) == Block(b, small)
    ensures Block(a, big) == Block(b, big)
  {
    var k := big / small;
    assert big == k * small && k > 0;
    BlockOfBlock(a, small, k);
    BlockOfBlock(b, small, k);
  }

  ghost predicate Aligned(l: Layout, steps: Steps)
    requires l.Valid()
  {
    forall a: nat, b: nat | a < l.world && b < l.world && Peers(l, a, b) ::
      AllReduceMax(l, steps, a) == AllReduceMax(l, steps, b)
  }

  lemma NestingAligns(l: Layout, steps: Steps, a: nat, b: nat)
    requires l.Valid() && l.Nests() && a < l.world && b < l.world && Peers(l, a, b)
    ensures AllReduceMax(l, steps, a) == AllReduceMax(l, steps, b)
  {
    if Block(a, l.dpShard) == Block(b, l.dpShard) {
      MaxAgrees(l, steps, a, b);
    } else if l.dpShard % l.replicaSize == 0 {
      BlocksNest(a, b, l.replicaSize, l.dpShard);
    } else {
      GroupInsideReplica(l, steps, a);
      GroupInsideReplica(l, steps, b);
    }
  }

  /** A dp_shard group inside one replica reduces equal values. */
  lemma GroupInsideReplica(l: Layout, steps: Steps, a: nat)
    requires l.Valid() && l.replicaSize % l.dpShard == 0 && a < l.world
    ensures AllReduceMax(l, steps, a) == l.Local(steps, a)
  {
    AllReduceMaxIsMax(l, steps, a);
    var r: nat :| r < l.world && Block(r, l.dpShard) == Block(a, l.dpShard) && AllReduceMax(l, steps, a) == l.Local(steps, r);
    BlocksNest(r, a, l.dpShard, l.replicaSize);
  }

  /** Main result: whenever the guard lets a layout through, peers agree on a step count none of them exceeds. */
  lemma StepsAreAligned(l: Layout, steps: Steps, a: nat, b: nat)
    requires l.Valid() && a < l.world && b < l.world && Peers(l, a, b)
    requires AlignNumSteps(l, steps, a).Ok?
    ensures AlignNumSteps(l, steps, b) == AlignNumSteps(l, steps, a)
    ensures AlignNumSteps(l, steps, a).value >= l.Local(steps, a)
    ensures exists r: nat :: r < l.world && Block(r, l.dpShard) == Block(a, l.dpShard) &&
              AlignNumSteps(l, steps, a).value == l.Local(steps, r)
  {
    AllReduceMaxIsMax(l, steps, a);
    if l.dpShard == 1 {
      GroupInsideReplica(l, steps, a);
      GroupInsideReplica(l, steps, b);
    }
    NestingAligns(l, steps, a, b);
  }

  /** The alignment refuses exactly the layouts that do not nest; otherwise it returns the largest count of the group. */
  lemma AlignNumStepsIs(l: Layout, steps: Steps, rank: nat)
    requires l.Valid() && rank < l.world
    ensures AlignNumSteps(l, steps, rank).Ok? <==> l.dpShard % l.replicaSize == 0 || l.replicaSize % l.dpShard == 0
    ensures AlignNumSteps(l, steps, rank).Ok? ==>
      var m := AlignNumSteps(l, steps, rank).value;
      && (forall r: nat | r < l.world && Block(r, l.dpShard) == Block(rank, l.dpShard) :: m >= l.Local(steps, r))
      && (exists r: nat :: r < l.world && Block(r, l.dpShard) == Block(rank, l.dpShard) && m == l.Local(steps, r))
  {
    AllReduceMaxIsMax(l, steps, rank);
    if l.dpShard == 1 {
      GroupInsideReplica(l, steps, rank);
    }
  }

  // ---------------------------------------------------------------------------------------------
  // Calls that leave before the reduction
  // ---------------------------------------------------------------------------------------------

  /** Which replicas' batches reach the alignment; transfer and reasoner batches return before it. */
  type Reaches = nat -> bool

  /** How the alignment of one call ends on a rank; `Stuck` waits for a rank of its group that never joins. */
  datatype CallEnd = LeftEarly | Refused | Stuck | Runs(steps: int)

  ghost predicate GroupMisses(l: Layout, reaches: Reaches, rank: nat)
    requires l.Valid()
  {
    exists r: nat :: r < l.world && Block(r, l.dpShard) == Block(rank, l.dpShard) && !reaches(Block(r, l.replicaSize))
  }

  ghost function CallEndOf(l: Layout, steps: Steps, reaches: Reaches, rank: nat): CallEnd
    requires l.Valid() && rank < l.world
  {
    var aligned := AlignNumSteps(l, steps, rank);
    if !reaches(Block(rank, l.replicaSize)) then LeftEarly
    else if aligned.Err? then Refused
    else if l.dpShard > 1 && GroupMisses(l, reaches, rank) then Stuck
    else Runs(aligned.value)
  }

  /** The ranks of a dp_shard group all reach the reduction, or none does. */
  ghost predicate Homogeneous(l: Layout, reaches: Reaches)
    requires l.Valid()
  {
    forall a: nat, b: nat | a < l.world && b < l.world && Block(a, l.dpShard) == Block(b, l.dpShard) ::
      reaches(Block(a, l.replicaSize)) == reaches(Block(b, l.replicaSize))
  }

  /** Nobody waits forever, and peers end the call alike. */
  ghost predicate EndsTogether(l: Layout, steps: Steps, reaches: Reaches)
    requires l.Valid()
  {
    && (forall a: nat | a < l.world :: CallEndOf(l, steps, reaches, a) != Stuck)
    && forall a: nat, b: nat | a < l.world && b < l.world && Peers(l, a, b) ::
        CallEndOf(l, steps, reaches, a) == CallEndOf(l, steps, reaches, b)
  }

  lemma PeersEndAlike(l: Layout, steps: Steps, reaches: Reaches, a: nat, b: nat)
    requires l.Valid() && a < l.world && b < l.world && Peers(l, a, b)
    requires Homogeneous(l, reaches) && AlignNumSteps(l, steps, a).Ok?
    ensures CallEndOf(l, steps, reaches, a) == CallEndOf(l, steps, reaches, b) != Stuck
  {
    StepsAreAligned(l, steps, a, b);
  }

  /** Where the guard passes, a call ends together on all peers exactly if no dp_shard group mixes kinds of batches. */
  lemma EndsTogetherIff(l: Layout, steps: Steps, reaches: Reaches)
    requires l.Valid() && l.Nests()
    ensures EndsTogether(l, steps, reaches) <==> Homogeneous(l, reaches)
  {
    forall a: nat | a < l.world ensures AlignNumSteps(l, steps, a).Ok? {
      AlignNumStepsIs(l, steps, a);
    }
    if Homogeneous(l, reaches) {
      forall a: nat, b: nat | a < l.world && b < l.world && Peers(l, a, b)
        ensures CallEndOf(l, steps, reaches, a) == CallEndOf(l, steps, reaches, b) != Stuck
      {
        PeersEndAlike(l, steps, reaches, a, b);
      }
      forall a: nat | a < l.world ensures CallEndOf(l, steps, reaches, a) != Stuck {
        PeersEndAlike(l, steps, reaches, a, a);
      }
    } else {
      var a: nat, b: nat :| a < l.world && b < l.world && Block(a, l.dpShard) == Block(b, l.dpShard)
        && reaches(Block(a, l.replicaSize)) != reaches(Block(b, l.replicaSize));
      assert Peers(l, a, b);
    }
  }

  // ---------------------------------------------------------------------------------------------
  // The guard is exact
  // ---------------------------------------------------------------------------------------------

  /** Two ranks of one replica, in different dp_shard groups, one of which meets a replica the other does not. */
  lemma StraddlingBreaks(l: Layout, a: nat, b: nat, loud: nat)
    requires l.Valid() && a < l.world && b < l.world && loud < l.world
    requires Block(a, l.replicaSize) == Block(b, l.replicaSize)
    requires Block(loud, l.dpShard) == Block(a, l.dpShard)
    requires forall r: nat | r < l.world && Block(r, l.dpShard) == Block(b, l.dpShard) ::
      Block(r, l.replicaSize) != Block(loud, l.replicaSize)
    ensures exists steps: Steps :: !Aligned(l, steps)
  {
    var noisy := Block(loud, l.replicaSize);
    var steps: Steps := id => if id == noisy then 2 else 1;
    AllReduceMaxIsMax(l, steps, a);
    AllReduceMaxIsMax(l, steps, b);
    assert Peers(l, a, b);
    assert !Aligned(l, steps);
  }

  /** `x == q * size + rest` with `0 < rest < size` when `size` does not divide `x`. */
  lemma Straddle(x: nat, size: nat) returns (q: nat, edge: nat)
    requires 0 < size < x && x % size != 0
    ensures q >= 1 && edge == q * size && edge < x
    ensures Block(edge, size) == q && Block(x, size) == q && Block(0, size) == 0 && Block(edge, x) == 0
    ensures Block(0, x) == 0 && Block(x, x) == 1
  {
    q := x / size;
    edge := q * size;
    assert x == edge + x % size;
    QuotientIs(x, size, q);
    assert q >= 1;
    QuotientIs(edge, size, q);
    QuotientIs(edge, x, 0);
    QuotientIs(x, x, 1);
  }

  /** Replicas smaller than groups: the replica straddling the first group boundary never meets replica 0's second group. */
  lemma SmallReplicaBreaks(l: Layout)
    requires l.Valid() && !l.Nests() && l.replicaSize < l.dpShard < l.world
    ensures exists steps: Steps :: !Aligned(l, steps)
  {
    var d, rs := l.dpShard, l.replicaSize;
    var q, start := Straddle(d, rs);
    forall r: nat | r < l.world && Block(r, d) == Block(d, d) ensures Block(r, rs) != Block(0, rs) {
      QuotientIs(r, d, 1);
      QuotientIs(r, rs, 0);
    }
    StraddlingBreaks(l, start, d, 0);
  }

  /** Groups smaller than replicas: the group straddling the end of replica 0 meets replica 1, group 0 does not. */
  lemma SmallGroupBreaks(l: Layout)
    requires l.Valid() && !l.Nests() && l.dpShard < l.replicaSize < l.world
    ensures exists steps: Steps :: !Aligned(l, steps)
  {
    var d, rs := l.dpShard, l.replicaSize;
    var q, edge := Straddle(rs, d);
    forall r: nat | r < l.world && Block(r, d) == Block(0, d) ensures Block(r, rs) != Block(rs, rs) {
      QuotientIs(r, d, 0);
      QuotientIs(r, rs, 0);
    }
    StraddlingBreaks(l, edge, 0, rs);
  }

  lemma DivisorFits(world: nat, size: nat)
    requires world > 0 && size > 0 && world % size == 0
    ensures size <= world
  {
  }

  /** The group-wide maximum aligns every assignment of step counts if and only if one of the two sizes divides the other. */
  lemma GuardIsExact(l: Layout)
    requires l.Valid()
    ensures (forall steps: Steps :: Aligned(l, steps)) <==> l.Nests()
  {
    if l.Nests() {
      forall steps: Steps, a: nat, b: nat | a < l.world && b < l.world && Peers(l, a, b)
        ensures AllReduceMax(l, steps, a) == AllReduceMax(l, steps, b)
      {
        NestingAligns(l, steps, a, b);
      }
    } else {
      DivisorFits(l.world, l.dpShard);
      DivisorFits(l.world, l.replicaSize);
      if l.replicaSize < l.dpShard {
        SmallReplicaBreaks(l);
      } else {
        SmallGroupBreaks(l);
      }
    }
  }
}
