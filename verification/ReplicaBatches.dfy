/**
 Spreading samples over replicas (`OmniInference.create_batches`): seed expansion, mod-sharding of
 the sample indices, greedy packing per replica, and padding every replica to the global batch count.
 */
module ReplicaBatches {
  import opened Wrappers
  import opened Packing
  import opened Blocks
  import StepAlignment

  datatype Path = Dir(name: string) | Child(parent: Path, index: int)

  datatype Sample = Sample(name: string, seed: Option<int>, numOutputs: int, outputDir: Option<Path>,
                           numSteps: int, guidance: real)

  datatype BatchError = MissingOutputDir | NoSamples | Packer(error: PackError)

  /** What `generate_batch` is called with: sample indices of the expanded list, or the padding sample. */
  datatype Batch = Real(indices: seq<nat>) | Padding(dummy: Sample)

  // ---------------------------------------------------------------------------------------------
  // Seed expansion
  // ---------------------------------------------------------------------------------------------

  function Output(s: Sample, i: int): Sample
    requires s.outputDir.Some?
  {
    s.(seed := if s.seed.Some? then Some(s.seed.value + i) else None,
       numOutputs := 1,
       outputDir := Some(Child(s.outputDir.value, i)))
  }

  ghost predicate Expandable(s: Sample) { s.numOutputs == 1 || s.outputDir.Some? }

  ghost predicate AllExpandable(samples: seq<Sample>) {
    forall k | 0 <= k < |samples| :: Expandable(samples[k])
  }

  ghost function Outputs(s: Sample, count: int): seq<Sample>
    requires s.outputDir.Some?
  {
    seq(if count < 0 then 0 else count, i => Output(s, i))
  }

  ghost function Expansion(s: Sample): seq<Sample>
    requires Expandable(s)
  {
    if s.numOutputs == 1 then [s] else Outputs(s, s.numOutputs)
  }

  ghost function Expanded(samples: seq<Sample>): seq<Sample>
    requires AllExpandable(samples)
  {
    if samples == [] then []
    else Expanded(samples[..|samples| - 1]) + Expansion(samples[|samples| - 1])
  }

  /** The copies of one multi-output sample, each with its own seed and directory. */
  method AppendOutputs(finalized: seq<Sample>, s: Sample) returns (longer: seq<Sample>)
    requires s.outputDir.Some?
    ensures longer == finalized + Outputs(s, s.numOutputs)
  {
    longer := finalized;
    var i := 0;
    while i < s.numOutputs
      invariant 0 <= i && (i <= s.numOutputs || i == 0)
      invariant longer == finalized + Outputs(s, i)
    {
      assert Outputs(s, i + 1) == Outputs(s, i) + [Output(s, i)];
      longer := longer + [Output(s, i)];
      i := i + 1;
    }
    assert Outputs(s, i) == Outputs(s, s.numOutputs);
  }

  /** Where sample `n`'s outputs begin in the expanded list. */
  ghost function Offset(samples: seq<Sample>, n: nat): nat
    requires n <= |samples|
  {
    if n == 0 then 0 else Offset(samples, n - 1) + OutputCount(samples[n - 1])
  }

  ghost function OutputCount(s: Sample): nat {
    if s.numOutputs < 0 then 0 else s.numOutputs
  }

  /** Output `i` of a sample: the sample itself if it has one output, else a copy with its own seed and directory. */
  ghost predicate IsOutput(out: Sample, s: Sample, i: nat) {
    if s.numOutputs == 1 then out == s
    else
      && out.name == s.name && out.numSteps == s.numSteps && out.guidance == s.guidance && out.numOutputs == 1
      && s.outputDir.Some? && out.outputDir == Some(Child(s.outputDir.value, i))
      && (s.seed.None? ==> out.seed.None?)
      && (s.seed.Some? ==> out.seed == Some(s.seed.value + i))
  }

  /** The expanded list holds every output of every sample, in order, and nothing else. */
  ghost predicate HoldsOutputs(expanded: seq<Sample>, samples: seq<Sample>) {
    && |expanded| == Offset(samples, |samples|)
    && forall n: nat, i: nat | n < |samples| && i < OutputCount(samples[n]) :: HoldsOutput(expanded, samples, n, i)
  }

  ghost predicate HoldsOutput(expanded: seq<Sample>, samples: seq<Sample>, n: nat, i: nat)
    requires n < |samples|
  {
    Offset(samples, n) + i < |expanded| && IsOutput(expanded[Offset(samples, n) + i], samples[n], i)
  }

  lemma {:induction false} OffsetOfPrefix(samples: seq<Sample>, m: nat, n: nat)
    requires n <= m <= |samples|
    ensures Offset(samples[..m], n) == Offset(samples, n)
  {
    if n > 0 {
      OffsetOfPrefix(samples, m, n - 1);
    }
  }

  lemma {:induction false} OffsetGrows(samples: seq<Sample>, n: nat, m: nat)
    requires n <= m <= |samples|
    ensures Offset(samples, n) <= Offset(samples, m)
  {
    if n < m {
      OffsetGrows(samples, n, m - 1);
    }
  }

  /** An output that is there stays where it is when more are appended. */
  lemma OutputStays(before: seq<Sample>, more: seq<Sample>, samples: seq<Sample>, m: nat, n: nat, i: nat)
    requires n < m <= |samples| && HoldsOutput(before, samples[..m], n, i)
    ensures HoldsOutput(before + more, samples, n, i)
  {
    OffsetOfPrefix(samples, m, n);
  }

  lemma ExpansionHolds(before: seq<Sample>, samples: seq<Sample>, n: nat, i: nat)
    requires n < |samples| && Expandable(samples[n]) && i < OutputCount(samples[n]) && |before| == Offset(samples, n)
    ensures HoldsOutput(before + Expansion(samples[n]), samples, n, i)
  {
  }

  lemma {:induction false} ExpandedHoldsOutputs(samples: seq<Sample>)
    requires AllExpandable(samples)
    ensures HoldsOutputs(Expanded(samples), samples)
  {
    if samples != [] {
      var m := |samples| - 1;
      var init, before := samples[..m], Expanded(samples[..m]);
      ExpandedHoldsOutputs(init);
      OffsetOfPrefix(samples, m, m);
      ExpansionSize(samples[m]);
      forall n: nat, i: nat | n < |samples| && i < OutputCount(samples[n]) ensures HoldsOutput(Expanded(samples), samples, n, i) {
        if n < m {
          assert init[n] == samples[n] && HoldsOutput(before, init, n, i);
          OutputStays(before, Expansion(samples[m]), samples, m, n, i);
        } else {
          ExpansionHolds(before, samples, m, i);
        }
      }
    }
  }

  lemma ExpansionSize(s: Sample)
    requires Expandable(s)
    ensures |Expansion(s)| == OutputCount(s)
  {
  }

  lemma ExpandNext(samples: seq<Sample>, n: nat)
    requires n < |samples| && AllExpandable(samples[..n]) && Expandable(samples[n])
    ensures AllExpandable(samples[..n + 1])
    ensures Expanded(samples[..n + 1]) == Expanded(samples[..n]) + Expansion(samples[n])
  {
    assert samples[..n + 1][..n] == samples[..n];
  }

  /** `_finalize_sample_args_list`. */
  method FinalizeSampleArgsList(samples: seq<Sample>) returns (r: Result<seq<Sample>, BatchError>)
    ensures r.Err? <==> !AllExpandable(samples)
    ensures r.Err? ==> r.error == MissingOutputDir
    ensures r.Ok? ==> r.value == Expanded(samples) && HoldsOutputs(r.value, samples)
  {
    var finalized: seq<Sample> := [];
    for n := 0 to |samples|
      invariant AllExpandable(samples[..n]) && finalized == Expanded(samples[..n])
    {
      var s := samples[n];
      if s.numOutputs != 1 && s.outputDir.None? {
        return Err(MissingOutputDir);
      }
      ExpandNext(samples, n);
      if s.numOutputs == 1 {
        finalized := finalized + [s];
      } else {
        finalized := AppendOutputs(finalized, s);
      }
    }
    assert samples[..|samples|] == samples;
    ExpandedHoldsOutputs(samples);
    return Ok(finalized);
  }

  /** Expansion leaves single-output samples only, so the packer's per-item check cannot fail. */
  lemma {:induction false} ExpandedAreSingle(samples: seq<Sample>)
    requires AllExpandable(samples)
    ensures forall k | 0 <= k < |Expanded(samples)| :: Expanded(samples)[k].numOutputs == 1
  {
    if samples != [] {
      ExpandedAreSingle(samples[..|samples| - 1]);
    }
  }

  /** If every sample can be written somewhere, so can every expanded one. */
  lemma {:induction false} ExpandedHaveDirs(samples: seq<Sample>)
    requires forall k | 0 <= k < |samples| :: samples[k].outputDir.Some?
    ensures forall k | 0 <= k < |Expanded(samples)| :: Expanded(samples)[k].outputDir.Some?
  {
    if samples != [] {
      ExpandedHaveDirs(samples[..|samples| - 1]);
    }
  }

  // ---------------------------------------------------------------------------------------------
  // One rank's batches
  // ---------------------------------------------------------------------------------------------

  /** `range(replica, n, numReplicas)`. */
  function ShardIndices(n: nat, replica: nat, numReplicas: nat): (indices: seq<nat>)
    requires replica < numReplicas
    ensures forall k | 0 <= k < |indices| :: indices[k] == replica + k * numReplicas
  {
    if replica < n
    then seq((n - 1 - replica) / numReplicas + 1, k requires k >= 0 => replica + k * numReplicas)
    else []
  }

  /** The world: `replicaSize` consecutive ranks form a replica. */
  datatype World = World(size: nat, replicaSize: nat) {
    ghost predicate Valid() { size > 0 && replicaSize > 0 && size % replicaSize == 0 }
    function NumReplicas(): nat requires replicaSize > 0 { size / replicaSize }
    function ReplicaId(rank: nat): nat requires replicaSize > 0 { rank / replicaSize }
    function IndexInReplica(rank: nat): nat requires replicaSize > 0 { rank % replicaSize }
    predicate ShouldProcess(rank: nat, s: Sample)
      requires replicaSize > 0
    {
      s.outputDir.Some? && IndexInReplica(rank) == 0
    }
  }

  /** The packing parameters of a run: a token count per sample and one of the two budgets. */
  datatype Policy = Policy(numTokens: Sample -> nat, maxModelLen: Option<int>, maxNumSeqs: Option<int>) {
    predicate Valid() { maxModelLen.Some? != maxNumSeqs.Some? }

    function Budget(): int requires Valid() {
      if maxModelLen.Some? then maxModelLen.value else maxNumSeqs.value
    }
  }

  function Tokens(samples: seq<Sample>, numTokens: Sample -> nat): nat -> nat {
    (i: nat) => if i < |samples| then numTokens(samples[i]) else 0
  }

  /** The weight of a sample index under the budget in force. */
  function Weight(samples: seq<Sample>, policy: Policy): nat -> nat {
    BudgetWeight(policy.maxModelLen, Tokens(samples, policy.numTokens))
  }

  /** The batches of one replica's shard: the greedy packing of its sample indices. */
  ghost function LocalPack(samples: seq<Sample>, policy: Policy, replica: nat, numReplicas: nat): seq<seq<nat>>
    requires replica < numReplicas && policy.Valid()
  {
    GreedyPack(ShardIndices(|samples|, replica, numReplicas), Weight(samples, policy), policy.Budget())
  }

  /** The samples of each batch of indices. */
  ghost function SamplesOf(samples: seq<Sample>, local: seq<seq<nat>>): seq<seq<Sample>>
    requires AllBelow(local, |samples|)
  {
    seq(|local|, k requires 0 <= k < |local| => Chosen(samples, local[k]))
  }

  ghost function Chosen(samples: seq<Sample>, indices: seq<nat>): seq<Sample>
    requires forall t | 0 <= t < |indices| :: indices[t] < |samples|
  {
    seq(|indices|, t requires 0 <= t < |indices| => samples[indices[t]])
  }

  ghost predicate AllBelow(local: seq<seq<nat>>, n: nat) {
    forall k | 0 <= k < |local| :: forall t | 0 <= t < |local[k]| :: local[k][t] < n
  }

  lemma FlatBelow(local: seq<seq<nat>>, n: nat)
    requires var flat: seq<nat> := Flatten(local); forall p | 0 <= p < |flat| :: flat[p] < n
    ensures AllBelow(local, n)
  {
    forall k: nat, t: nat | k < |local| && t < |local[k]| ensures local[k][t] < n {
      FlattenAt(local, k, t);
      var flat: seq<nat> := Flatten(local);
      assert flat[Position(local, k, t)] < n;
    }
  }

  lemma {:induction false} LoadOfIndices(samples: seq<Sample>, indices: seq<nat>, w: nat -> nat, numTokens: Sample -> nat)
    requires forall t | 0 <= t < |indices| :: indices[t] < |samples|
    requires forall i: nat | i < |samples| :: w(i) == numTokens(samples[i])
    ensures Load(indices, w) == Load(Chosen(samples, indices), numTokens)
  {
    if indices != [] {
      assert Chosen(samples, indices)[1..] == Chosen(samples, indices[1..]);
      LoadOfIndices(samples, indices[1..], w, numTokens);
    }
  }

  /** The budget in force, counted in the samples of each batch. */
  lemma BudgetOfSamples(samples: seq<Sample>, local: seq<seq<nat>>, w: nat -> nat, numTokens: Sample -> nat,
                        maxModelLen: Option<int>, maxNumSeqs: Option<int>)
    requires AllBelow(local, |samples|) && forall i: nat | i < |samples| :: w(i) == numTokens(samples[i])
    requires UsesBudget(local, w, maxModelLen, maxNumSeqs)
    ensures UsesBudget(SamplesOf(samples, local), numTokens, maxModelLen, maxNumSeqs)
  {
    var chosen := SamplesOf(samples, local);
    if maxModelLen.Some? {
      forall k | 0 <= k < |chosen| && |chosen[k]| > 1 ensures Load(chosen[k], numTokens) <= maxModelLen.value {
        LoadOfIndices(samples, local[k], w, numTokens);
      }
      forall k | 0 < k < |chosen| ensures NextExceeds(chosen, k, numTokens, maxModelLen.value) {
        assert NextExceeds(local, k, w, maxModelLen.value);
        LoadOfIndices(samples, local[k - 1], w, numTokens);
      }
    }
  }

  /** Local batches as they should be: the shard in order, cut by the budget in force. */
  ghost predicate IsLocalPacking(samples: seq<Sample>, policy: Policy, replica: nat, numReplicas: nat, local: seq<seq<nat>>)
    requires replica < numReplicas
  {
    && Flatten(local) == ShardIndices(|samples|, replica, numReplicas) && AllBelow(local, |samples|)
    && UsesBudget(SamplesOf(samples, local), policy.numTokens, policy.maxModelLen, policy.maxNumSeqs)
  }

  lemma LocalPackIsRight(samples: seq<Sample>, policy: Policy, replica: nat, numReplicas: nat)
    requires replica < numReplicas && policy.Valid()
    ensures IsLocalPacking(samples, policy, replica, numReplicas, LocalPack(samples, policy, replica, numReplicas))
  {
    var items, tokens := ShardIndices(|samples|, replica, numReplicas), Tokens(samples, policy.numTokens);
    var local := LocalPack(samples, policy, replica, numReplicas);
    IndicesInRange(|samples|, replica, numReplicas);
    GreedyPackIs(items, Weight(samples, policy), policy.Budget());
    FlatBelow(local, |samples|);
    if policy.maxModelLen.Some? {
      GreedyFillsTokens(local, items, tokens, policy.maxModelLen.value);
    } else {
      GreedyFillsItems(local, items, Weight(samples, policy), policy.maxNumSeqs.value);
    }
    BudgetOfSamples(samples, local, tokens, policy.numTokens, policy.maxModelLen, policy.maxNumSeqs);
  }

  /** The padding sample: nothing is written for it and it asks for one step. */
  function Dummy(samples: seq<Sample>): (s: Sample)
    requires samples != []
    ensures s.outputDir.None? && s.name == "padding" && s.numSteps == 1 && s.guidance == 1.0
    ensures s.seed == samples[0].seed && s.numOutputs == samples[0].numOutputs
  {
    samples[0].(outputDir := None, name := "padding", numSteps := 1, guidance := 1.0)
  }

  /** What a rank yields: its local batches, then padding up to `total` calls. */
  ghost function RankBatches(samples: seq<Sample>, policy: Policy, replica: nat, numReplicas: nat, total: nat): seq<Batch>
    requires replica < numReplicas && policy.Valid() && samples != []
  {
    Assemble(LocalPack(samples, policy, replica, numReplicas), Dummy(samples), total)
  }

  ghost function Assemble(local: seq<seq<nat>>, dummy: Sample, total: nat): (batches: seq<Batch>)
    ensures |batches| == if |local| <= total then total else |local|
  {
    seq(if |local| <= total then total else |local|, k requires 0 <= k => if k < |local| then Real(local[k]) else Padding(dummy))
  }

  /** Phase 1 of `create_batches`: the batch boundaries of one replica. */
  method LocalPositions(samples: seq<Sample>, policy: Policy, replica: nat, numReplicas: nat)
    returns (r: Result<seq<seq<nat>>, BatchError>)
    requires replica < numReplicas && forall k | 0 <= k < |samples| :: samples[k].numOutputs == 1
    ensures r.Err? <==> !policy.Valid()
    ensures r.Err? ==> r.error == Packer(BadBudget)
    ensures r.Ok? ==> r.value == LocalPack(samples, policy, replica, numReplicas)
    ensures r.Ok? ==> IsLocalPacking(samples, policy, replica, numReplicas, r.value)
  {
    var samplerIndices := ShardIndices(|samples|, replica, numReplicas);
    var outputs := (i: nat) => if i < |samples| then samples[i].numOutputs else 1;
    IndicesInRange(|samples|, replica, numReplicas);
    var packed := IterPackedBatches(samplerIndices, Tokens(samples, policy.numTokens), outputs, policy.maxModelLen, policy.maxNumSeqs);
    assert AllSingle(samplerIndices, outputs);
    if packed.Err? {
      return Err(Packer(packed.error));
    }
    LocalPackIsRight(samples, policy, replica, numReplicas);
    return Ok(packed.value);
  }

  /** Phases 3 and 4: the local batches, then padding. */
  method YieldBatches(samples: seq<Sample>, local: seq<seq<nat>>, globalMaxBatches: nat) returns (batches: seq<Batch>)
    requires samples != [] && |local| <= globalMaxBatches
    ensures batches == Assemble(local, Dummy(samples), globalMaxBatches)
  {
    batches := [];
    while |batches| < |local|
      invariant |batches| <= |local|
      invariant forall k | 0 <= k < |batches| :: batches[k] == Real(local[k])
    {
      batches := batches + [Real(local[|batches|])];
    }
    var dummy := Dummy(samples);
    while |batches| < globalMaxBatches
      invariant |local| <= |batches| <= globalMaxBatches
      invariant batches == Assemble(local, dummy, |batches|)
    {
      batches := batches + [Padding(dummy)];
    }
  }

  /**
   `create_batches` on one rank, after seed expansion. `reduce` is the MAX all-reduce: it maps the
   rank's own count to the maximum, which is at least that count.
   */
  method CreateBatches(samples: seq<Sample>, policy: Policy, replica: nat, numReplicas: nat, reduce: nat -> nat)
    returns (r: Result<seq<Batch>, BatchError>)
    requires replica < numReplicas && forall k | 0 <= k < |samples| :: samples[k].numOutputs == 1
    requires policy.Valid() ==>
      var count := |LocalPack(samples, policy, replica, numReplicas)|; numReplicas > 1 ==> reduce(count) >= count
    ensures r == Err(Packer(BadBudget)) <==> !policy.Valid()
    ensures r == Err(NoSamples) <==> policy.Valid() && samples == []
    ensures r.Ok? <==> policy.Valid() && samples != []
    ensures r.Ok? ==>
      var count := |LocalPack(samples, policy, replica, numReplicas)|;
      && r.value == RankBatches(samples, policy, replica, numReplicas, if numReplicas > 1 then reduce(count) else count)
      && IsLocalPacking(samples, policy, replica, numReplicas, LocalPack(samples, policy, replica, numReplicas))
  {
    var local := LocalPositions(samples, policy, replica, numReplicas);
    if local.Err? {
      return Err(local.error);
    }
    var numLocalBatches := |local.value|;
    var globalMaxBatches := if numReplicas > 1 then reduce(numLocalBatches) else numLocalBatches;
    if samples == [] {
      return Err(NoSamples);
    }
    var batches := YieldBatches(samples, local.value, globalMaxBatches);
    return Ok(batches);
  }

  lemma IndicesInRange(n: nat, replica: nat, numReplicas: nat)
    requires replica < numReplicas
    ensures forall k | 0 <= k < |ShardIndices(n, replica, numReplicas)| :: ShardIndices(n, replica, numReplicas)[k] < n
  {
    var indices := ShardIndices(n, replica, numReplicas);
    forall k | 0 <= k < |indices| ensures indices[k] < n {
      var q := (n - 1 - replica) / numReplicas;
      assert k * numReplicas <= q * numReplicas <= n - 1 - replica;
    }
  }

  // ---------------------------------------------------------------------------------------------
  // All ranks together
  // ---------------------------------------------------------------------------------------------

  lemma ShardReaches(n: nat, m: nat, i: nat)
    requires m > 0 && i < n
    ensures i / m < |ShardIndices(n, i % m, m)|
  {
    assert i == (i / m) * m + i % m;
    QuotientAtLeast(n - 1 - i % m, m, i / m);
  }

  /** Index `i` is in the shard of replica `i % numReplicas`, at one position, and in no other shard. */
  lemma ShardOfIndex(n: nat, numReplicas: nat, i: nat)
    requires numReplicas > 0 && i < n
    ensures i / numReplicas < |ShardIndices(n, i % numReplicas, numReplicas)|
    ensures forall replica: nat, k: nat | replica < numReplicas && k < |ShardIndices(n, replica, numReplicas)| ::
      ShardIndices(n, replica, numReplicas)[k] == i <==> replica == i % numReplicas && k == i / numReplicas
  {
    ShardReaches(n, numReplicas, i);
    assert i == i % numReplicas + (i / numReplicas) * numReplicas;
    forall replica: nat, k: nat | replica < numReplicas && k < |ShardIndices(n, replica, numReplicas)|
      ensures ShardIndices(n, replica, numReplicas)[k] == i <==> replica == i % numReplicas && k == i / numReplicas
    {
      if ShardIndices(n, replica, numReplicas)[k] == i {
        Decomposition(i, numReplicas, k, replica);
      }
    }
  }

  /** Position of slot `t` of batch `k` in the concatenation of the batches. */
  ghost function Position<T>(batches: seq<seq<T>>, k: nat, t: nat): nat
    requires k <= |batches|
  {
    |Flatten(batches[..k])| + t
  }

  lemma FlattenAt<T>(batches: seq<seq<T>>, k: nat, t: nat)
    requires k < |batches| && t < |batches[k]|
    ensures Position(batches, k, t) < |Flatten(batches)|
    ensures Flatten(batches)[Position(batches, k, t)] == batches[k][t]
  {
    assert batches == batches[..k] + batches[k..];
    FlattenAppend(batches[..k], batches[k..]);
    assert Flatten(batches[k..]) == batches[k] + Flatten(batches[k + 1..]) by {
      assert batches[k..][1..] == batches[k + 1..];
    }
  }

  lemma PositionInjective<T>(batches: seq<seq<T>>, k: nat, t: nat, k': nat, t': nat)
    requires k < |batches| && t < |batches[k]| && k' < |batches| && t' < |batches[k']|
    requires Position(batches, k, t) == Position(batches, k', t')
    ensures k == k' && t == t'
  {
    if k < k' {
      LaterBatch(batches, k, t, k', t');
    } else if k' < k {
      LaterBatch(batches, k', t', k, t);
    }
  }

  lemma LaterBatch<T>(batches: seq<seq<T>>, k: nat, t: nat, k': nat, t': nat)
    requires k < k' < |batches| && t < |batches[k]|
    ensures Position(batches, k, t) < Position(batches, k', t')
  {
    var head := batches[..k'];
    assert head[..k] == batches[..k] && head[k] == batches[k];
    FlattenAt(head, k, t);
  }

  lemma {:induction false} Locate<T>(batches: seq<seq<T>>, p: nat) returns (k: nat, t: nat)
    requires p < |Flatten(batches)|
    ensures k < |batches| && t < |batches[k]| && Position(batches, k, t) == p
  {
    if p < |batches[0]| {
      k, t := 0, p;
      assert batches[..0] == [];
    } else {
      var k', t' := Locate(batches[1..], p - |batches[0]|);
      k, t := k' + 1, t';
      assert batches[..k][1..] == batches[1..][..k'];
    }
  }

  /** Each replica below `NumReplicas` has exactly one rank with index 0, and it is in the world. */
  lemma FirstRank(world: World, replica: nat)
    requires world.Valid() && replica < world.NumReplicas()
    ensures var rank := replica * world.replicaSize;
      && rank < world.size
      && forall r: nat :: world.ReplicaId(r) == replica && world.IndexInReplica(r) == 0 <==> r == rank
  {
    var rs := world.replicaSize;
    assert world.size == world.NumReplicas() * rs;
    MulLe(replica + 1, world.NumReplicas(), rs);
    Decomposition(replica * rs, rs, replica, 0);
    forall r: nat ensures r == (r / rs) * rs + r % rs {
    }
  }

  // ---------------------------------------------------------------------------------------------
  // The collective over all ranks
  // ---------------------------------------------------------------------------------------------

  lemma ReplicaInRange(world: World, rank: nat)
    requires world.Valid() && rank < world.size
    ensures world.NumReplicas() > 0 && world.ReplicaId(rank) < world.NumReplicas()
  {
    var rs := world.replicaSize;
    assert world.size == world.NumReplicas() * rs;
    assert rank == (rank / rs) * rs + rank % rs;
    Cancel(rank / rs, world.NumReplicas(), rs);
  }

  /** The local batch count of a rank. */
  ghost function LocalCount(world: World, samples: seq<Sample>, policy: Policy, rank: nat): nat
    requires world.Valid() && policy.Valid() && rank < world.size
  {
    ReplicaInRange(world, rank);
    |LocalPack(samples, policy, world.ReplicaId(rank), world.NumReplicas())|
  }

  /** The MAX all-reduce of the local counts of the ranks below `hi`. */
  ghost function MaxCount(world: World, samples: seq<Sample>, policy: Policy, hi: nat): nat
    requires world.Valid() && policy.Valid() && hi <= world.size
  {
    if hi == 0 then 0
    else
      var rest, own := MaxCount(world, samples, policy, hi - 1), LocalCount(world, samples, policy, hi - 1);
      if rest < own then own else rest
  }

  lemma {:induction false} MaxCountIsMax(world: World, samples: seq<Sample>, policy: Policy, hi: nat) returns (best: nat)
    requires world.Valid() && policy.Valid() && hi <= world.size
    ensures forall rank: nat | rank < hi :: LocalCount(world, samples, policy, rank) <= MaxCount(world, samples, policy, hi)
    ensures hi > 0 ==> best < hi && LocalCount(world, samples, policy, best) == MaxCount(world, samples, policy, hi)
  {
    best := 0;
    if hi > 0 {
      best := MaxCountIsMax(world, samples, policy, hi - 1);
      if hi == 1 || MaxCount(world, samples, policy, hi - 1) < LocalCount(world, samples, policy, hi - 1) {
        best := hi - 1;
      }
    }
  }

  /** What every rank yields when the reduction returns the maximum of all local counts. */
  ghost predicate IsWorldRun(world: World, samples: seq<Sample>, policy: Policy, batches: seq<seq<Batch>>) {
    && world.Valid() && policy.Valid() && samples != [] && |batches| == world.size
    && forall rank: nat | rank < world.size :: IsRankRun(world, samples, policy, batches[rank], rank)
  }

  ghost predicate IsRankRun(world: World, samples: seq<Sample>, policy: Policy, batches: seq<Batch>, rank: nat)
    requires world.Valid() && policy.Valid() && samples != [] && rank < world.size
  {
    && world.ReplicaId(rank) < world.NumReplicas()
    && batches == RankBatches(samples, policy, world.ReplicaId(rank), world.NumReplicas(), MaxCount(world, samples, policy, world.size))
  }

  /** With a single replica every rank has the same local batches, so nothing needs to be reduced. */
  lemma SingleReplica(world: World, samples: seq<Sample>, policy: Policy, rank: nat)
    requires world.Valid() && policy.Valid() && rank < world.size && world.NumReplicas() == 1
    ensures MaxCount(world, samples, policy, world.size) == LocalCount(world, samples, policy, rank)
  {
    var best := MaxCountIsMax(world, samples, policy, world.size);
    forall other: nat | other < world.size ensures world.ReplicaId(other) == 0 {
      ReplicaInRange(world, other);
    }
  }

  /** Every rank's first phase and the MAX all-reduce of the counts. */
  method GlobalMaxBatches(world: World, samples: seq<Sample>, policy: Policy) returns (r: Result<nat, BatchError>)
    requires world.Valid() && forall k | 0 <= k < |samples| :: samples[k].numOutputs == 1
    ensures r.Err? <==> !policy.Valid()
    ensures r.Err? ==> r.error == Packer(BadBudget)
    ensures r.Ok? ==> r.value == MaxCount(world, samples, policy, world.size)
  {
    var globalMax: nat := 0;
    for rank := 0 to world.size
      invariant rank > 0 ==> policy.Valid()
      invariant policy.Valid() ==> globalMax == MaxCount(world, samples, policy, rank)
    {
      ReplicaInRange(world, rank);
      var local := LocalPositions(samples, policy, world.ReplicaId(rank), world.NumReplicas());
      if local.Err? {
        return Err(local.error);
      }
      assert |local.value| == LocalCount(world, samples, policy, rank);
      if globalMax < |local.value| {
        globalMax := |local.value|;
      }
    }
    return Ok(globalMax);
  }

  /** The reduction returns the maximum to every rank that takes part in it. */
  lemma ReducedTotal(world: World, samples: seq<Sample>, policy: Policy, rank: nat, globalMax: nat)
    requires world.Valid() && policy.Valid() && rank < world.size && globalMax == MaxCount(world, samples, policy, world.size)
    ensures world.ReplicaId(rank) < world.NumReplicas() && LocalCount(world, samples, policy, rank) <= globalMax
    ensures world.NumReplicas() == 1 ==> LocalCount(world, samples, policy, rank) == globalMax
  {
    ReplicaInRange(world, rank);
    var best := MaxCountIsMax(world, samples, policy, world.size);
    if world.NumReplicas() == 1 {
      SingleReplica(world, samples, policy, rank);
    }
  }

  /** `create_batches` on all ranks: expansion, local packing, the MAX all-reduce, real batches and padding. */
  method CreateBatchesOnAllRanks(world: World, sampleArgs: seq<Sample>, policy: Policy)
    returns (r: Result<seq<seq<Batch>>, BatchError>)
    requires world.Valid()
    ensures r == Err(MissingOutputDir) <==> !AllExpandable(sampleArgs)
    ensures r == Err(Packer(BadBudget)) <==> AllExpandable(sampleArgs) && !policy.Valid()
    ensures r == Err(NoSamples) <==> AllExpandable(sampleArgs) && policy.Valid() && Expanded(sampleArgs) == []
    ensures r.Ok? <==> AllExpandable(sampleArgs) && policy.Valid() && Expanded(sampleArgs) != []
    ensures r.Ok? ==> IsWorldRun(world, Expanded(sampleArgs), policy, r.value)
  {
    var finalized := FinalizeSampleArgsList(sampleArgs);
    if finalized.Err? {
      return Err(finalized.error);
    }
    var samples := finalized.value;
    ExpandedAreSingle(sampleArgs);
    var globalMax := GlobalMaxBatches(world, samples, policy);
    if globalMax.Err? {
      return Err(globalMax.error);
    }
    if samples == [] {
      return Err(NoSamples);
    }
    var batches := YieldOnAllRanks(world, samples, policy, globalMax.value);
    return Ok(batches);
  }

  method YieldOnAllRanks(world: World, samples: seq<Sample>, policy: Policy, globalMax: nat) returns (batches: seq<seq<Batch>>)
    requires world.Valid() && policy.Valid() && samples != []
    requires forall k | 0 <= k < |samples| :: samples[k].numOutputs == 1
    requires globalMax == MaxCount(world, samples, policy, world.size)
    ensures IsWorldRun(world, samples, policy, batches)
  {
    batches := [];
    for rank := 0 to world.size
      invariant |batches| == rank
      invariant forall q: nat | q < rank :: IsRankRun(world, samples, policy, batches[q], q)
    {
      ReducedTotal(world, samples, policy, rank, globalMax);
      var mine := CreateBatches(samples, policy, world.ReplicaId(rank), world.NumReplicas(), _ => globalMax);
      assert IsRankRun(world, samples, policy, mine.value, rank);
      batches := batches + [mine.value];
    }
  }

  /** Sample `i` is slot `t` of the rank's `k`-th call. */
  ghost predicate Holds(batches: seq<Batch>, k: nat, t: nat, i: nat) {
    k < |batches| && batches[k].Real? && t < |batches[k].indices| && batches[k].indices[t] == i
  }

  /** Rank `rank` processes sample `i` as slot `t` of its `k`-th call. */
  ghost predicate Processes(world: World, samples: seq<Sample>, batches: seq<seq<Batch>>, rank: nat, k: nat, t: nat, i: nat)
    requires world.replicaSize > 0 && i < |samples|
  {
    && rank < |batches| && Holds(batches[rank], k, t, i)
    && world.ShouldProcess(rank, samples[i])
  }

  /** The slot that holds index `i` belongs to replica `i % numReplicas` and comes at position `i / numReplicas`. */
  lemma SlotAt(local: seq<seq<nat>>, n: nat, replica: nat, numReplicas: nat, i: nat, k: nat, t: nat)
    requires replica < numReplicas && i < n && Flatten(local) == ShardIndices(n, replica, numReplicas)
    requires k < |local| && t < |local[k]| && local[k][t] == i
    ensures replica == i % numReplicas && Position(local, k, t) == i / numReplicas
  {
    FlattenAt(local, k, t);
    ShardOfIndex(n, numReplicas, i);
  }

  lemma LocateIndex(local: seq<seq<nat>>, n: nat, numReplicas: nat, i: nat) returns (k: nat, t: nat)
    requires numReplicas > 0 && i < n && Flatten(local) == ShardIndices(n, i % numReplicas, numReplicas)
    ensures k < |local| && t < |local[k]| && local[k][t] == i
  {
    ShardOfIndex(n, numReplicas, i);
    k, t := Locate(local, i / numReplicas);
    FlattenAt(local, k, t);
  }

  lemma SameSlot(local: seq<seq<nat>>, n: nat, replica: nat, numReplicas: nat, i: nat, k: nat, t: nat, k': nat, t': nat)
    requires replica < numReplicas && i < n && Flatten(local) == ShardIndices(n, replica, numReplicas)
    requires k < |local| && t < |local[k]| && local[k][t] == i
    requires k' < |local| && t' < |local[k']| && local[k'][t'] == i
    ensures k' == k && t' == t
  {
    SlotAt(local, n, replica, numReplicas, i, k, t);
    SlotAt(local, n, replica, numReplicas, i, k', t');
    PositionInjective(local, k, t, k', t');
  }

  /** The shard is what a rank's local batches hold, in order. */
  lemma LocalIsShard(samples: seq<Sample>, policy: Policy, replica: nat, numReplicas: nat)
    requires replica < numReplicas && policy.Valid()
    ensures Flatten(LocalPack(samples, policy, replica, numReplicas)) == ShardIndices(|samples|, replica, numReplicas)
  {
    GreedyPackIs(ShardIndices(|samples|, replica, numReplicas), Weight(samples, policy), policy.Budget());
  }

  lemma HoldsLocally(local: seq<seq<nat>>, dummy: Sample, total: nat, k: nat, t: nat, i: nat)
    ensures Holds(Assemble(local, dummy, total), k, t, i) <==> k < |local| && t < |local[k]| && local[k][t] == i
  {
  }

  /** Within its replica's ranks an index sits in exactly one slot. */
  lemma SlotIsUnique(samples: seq<Sample>, policy: Policy, numReplicas: nat, total: nat, i: nat) returns (k: nat, t: nat)
    requires numReplicas > 0 && policy.Valid() && i < |samples|
    ensures var batches := RankBatches(samples, policy, i % numReplicas, numReplicas, total);
      && Holds(batches, k, t, i)
      && forall k': nat, t': nat | Holds(batches, k', t', i) :: k' == k && t' == t
  {
    var replica := i % numReplicas;
    var local, batches := LocalPack(samples, policy, replica, numReplicas), RankBatches(samples, policy, replica, numReplicas, total);
    LocalIsShard(samples, policy, replica, numReplicas);
    k, t := LocateIndex(local, |samples|, numReplicas, i);
    HoldsLocally(local, Dummy(samples), total, k, t, i);
    forall k': nat, t': nat | Holds(batches, k', t', i) ensures k' == k && t' == t {
      HoldsLocally(local, Dummy(samples), total, k', t', i);
      SameSlot(local, |samples|, replica, numReplicas, i, k, t, k', t');
    }
  }

  lemma OtherReplicasMiss(samples: seq<Sample>, policy: Policy, replica: nat, numReplicas: nat, total: nat, i: nat, k: nat, t: nat)
    requires replica < numReplicas && policy.Valid() && i < |samples|
    requires Holds(RankBatches(samples, policy, replica, numReplicas, total), k, t, i)
    ensures replica == i % numReplicas
  {
    LocalIsShard(samples, policy, replica, numReplicas);
    HoldsLocally(LocalPack(samples, policy, replica, numReplicas), Dummy(samples), total, k, t, i);
    SlotAt(LocalPack(samples, policy, replica, numReplicas), |samples|, replica, numReplicas, i, k, t);
  }

  lemma CallCount(world: World, samples: seq<Sample>, policy: Policy, batches: seq<seq<Batch>>, rank: nat)
    requires IsWorldRun(world, samples, policy, batches) && rank < world.size
    ensures |batches[rank]| == MaxCount(world, samples, policy, world.size)
  {
    var best := MaxCountIsMax(world, samples, policy, world.size);
    assert IsRankRun(world, samples, policy, batches[rank], rank);
    assert LocalCount(world, samples, policy, rank) <= MaxCount(world, samples, policy, world.size);
  }

  lemma SameReplicaSameCalls(world: World, samples: seq<Sample>, policy: Policy, batches: seq<seq<Batch>>, a: nat, b: nat)
    requires IsWorldRun(world, samples, policy, batches) && a < world.size && b < world.size
    requires world.ReplicaId(a) == world.ReplicaId(b)
    ensures batches[a] == batches[b]
  {
    assert IsRankRun(world, samples, policy, batches[a], a) && IsRankRun(world, samples, policy, batches[b], b);
  }

  /** Call `k` of a rank is real up to the rank's own count and the padding sample from there on. */
  lemma PaddingBehindLocal(world: World, samples: seq<Sample>, policy: Policy, batches: seq<seq<Batch>>, rank: nat, k: nat)
    requires IsWorldRun(world, samples, policy, batches) && rank < world.size && k < |batches[rank]|
    ensures batches[rank][k].Padding? <==> k >= LocalCount(world, samples, policy, rank)
    ensures batches[rank][k].Padding? ==> batches[rank][k].dummy == Dummy(samples)
  {
    assert IsRankRun(world, samples, policy, batches[rank], rank);
  }

  /**
   Main result on the calls: all ranks make equally many, as many as some rank needs; ranks of one
   replica make the same calls one by one; and a call is padding exactly beyond the rank's own batches.
   */
  lemma CallsAgree(world: World, samples: seq<Sample>, policy: Policy, batches: seq<seq<Batch>>)
    requires IsWorldRun(world, samples, policy, batches)
    ensures var total := MaxCount(world, samples, policy, world.size);
      && (forall rank: nat | rank < world.size :: |batches[rank]| == total && LocalCount(world, samples, policy, rank) <= total)
      && (exists rank: nat :: rank < world.size && LocalCount(world, samples, policy, rank) == total)
    ensures forall a: nat, b: nat | a < world.size && b < world.size && world.ReplicaId(a) == world.ReplicaId(b) ::
      batches[a] == batches[b]
    ensures forall rank: nat, k: nat | rank < world.size && k < |batches[rank]| ::
      batches[rank][k].Padding? <==> k >= LocalCount(world, samples, policy, rank)
  {
    var best := MaxCountIsMax(world, samples, policy, world.size);
    forall rank: nat | rank < world.size ensures |batches[rank]| == MaxCount(world, samples, policy, world.size) {
      CallCount(world, samples, policy, batches, rank);
    }
    forall a: nat, b: nat | a < world.size && b < world.size && world.ReplicaId(a) == world.ReplicaId(b)
      ensures batches[a] == batches[b]
    {
      SameReplicaSameCalls(world, samples, policy, batches, a, b);
    }
    forall rank: nat, k: nat | rank < world.size && k < |batches[rank]|
      ensures batches[rank][k].Padding? <==> k >= LocalCount(world, samples, policy, rank)
    {
      PaddingBehindLocal(world, samples, policy, batches, rank, k);
    }
  }

  /**
   Main result on coverage: every sample that can be written is processed exactly once, by one rank, in
   one batch, in one slot, and no padding call is processed on any rank.
   */
  lemma ReplicaCoverage(world: World, samples: seq<Sample>, policy: Policy, batches: seq<seq<Batch>>, i: nat)
    returns (rank: nat, k: nat, t: nat)
    requires IsWorldRun(world, samples, policy, batches) && i < |samples| && samples[i].outputDir.Some?
    ensures Processes(world, samples, batches, rank, k, t, i)
    ensures forall rank': nat, k': nat, t': nat | Processes(world, samples, batches, rank', k', t', i) ::
      rank' == rank && k' == k && t' == t
    ensures forall r: nat, c: nat | r < world.size && c < |batches[r]| && batches[r][c].Padding? ::
      !world.ShouldProcess(r, batches[r][c].dummy)
  {
    ReplicaInRange(world, 0);
    var m, total := world.NumReplicas(), MaxCount(world, samples, policy, world.size);
    FirstRank(world, i % m);
    rank := (i % m) * world.replicaSize;
    assert IsRankRun(world, samples, policy, batches[rank], rank);
    k, t := SlotIsUnique(samples, policy, m, total, i);
    forall rank': nat, k': nat, t': nat | Processes(world, samples, batches, rank', k', t', i)
      ensures rank' == rank && k' == k && t' == t
    {
      ProcessedByOwner(world, samples, policy, batches, rank', k', t', i);
    }
    forall r: nat, c: nat | r < world.size && c < |batches[r]| && batches[r][c].Padding?
      ensures !world.ShouldProcess(r, batches[r][c].dummy)
    {
      PaddingBehindLocal(world, samples, policy, batches, r, c);
    }
  }

  lemma ProcessedByOwner(world: World, samples: seq<Sample>, policy: Policy, batches: seq<seq<Batch>>, rank: nat, k: nat, t: nat, i: nat)
    requires IsWorldRun(world, samples, policy, batches) && i < |samples| && Processes(world, samples, batches, rank, k, t, i)
    ensures world.NumReplicas() > 0 && world.ReplicaId(rank) == i % world.NumReplicas() && world.IndexInReplica(rank) == 0
  {
    assert IsRankRun(world, samples, policy, batches[rank], rank);
    OtherReplicasMiss(samples, policy, world.ReplicaId(rank), world.NumReplicas(), MaxCount(world, samples, policy, world.size), i, k, t);
  }

  /** A step count computed from a call's batch is a function of the replica. */
  lemma StepsOfCall(world: World, samples: seq<Sample>, policy: Policy, batches: seq<seq<Batch>>, numSteps: Batch -> int, k: nat)
    returns (steps: StepAlignment.Steps)
    requires IsWorldRun(world, samples, policy, batches) && k < MaxCount(world, samples, policy, world.size)
    ensures forall rank: nat | rank < world.size ::
      k < |batches[rank]| && steps(world.ReplicaId(rank)) == numSteps(batches[rank][k])
  {
    var rs := world.replicaSize;
    steps := (replica: nat) =>
      if replica * rs < |batches| && k < |batches[replica * rs]| then numSteps(batches[replica * rs][k]) else 0;
    forall rank: nat | rank < world.size
      ensures k < |batches[rank]| && steps(world.ReplicaId(rank)) == numSteps(batches[rank][k])
    {
      ReplicaInRange(world, rank);
      var first := world.ReplicaId(rank) * rs;
      FirstRank(world, world.ReplicaId(rank));
      CallCount(world, samples, policy, batches, rank);
      SameReplicaSameCalls(world, samples, policy, batches, rank, first);
    }
  }

  /** Whether a call's batch reaches the alignment is a function of the replica. */
  lemma KindOfCall(world: World, samples: seq<Sample>, policy: Policy, batches: seq<seq<Batch>>, reaching: Batch -> bool, k: nat)
    returns (reaches: StepAlignment.Reaches)
    requires IsWorldRun(world, samples, policy, batches) && k < MaxCount(world, samples, policy, world.size)
    ensures forall rank: nat | rank < world.size ::
      k < |batches[rank]| && reaches(world.ReplicaId(rank)) == reaching(batches[rank][k])
  {
    var steps := StepsOfCall(world, samples, policy, batches, b => if reaching(b) then 1 else 0, k);
    reaches := (replica: nat) => steps(replica) == 1;
  }

  /** Two ranks of a dp_shard group make calls of different kinds. */
  ghost predicate MixesKinds(batches: seq<seq<Batch>>, dpShard: nat, reaching: Batch -> bool, k: nat)
    requires dpShard > 0 && forall rank | 0 <= rank < |batches| :: k < |batches[rank]|
  {
    exists a: nat, b: nat :: a < |batches| && b < |batches|
      && StepAlignment.Block(a, dpShard) == StepAlignment.Block(b, dpShard)
      && reaching(batches[a][k]) != reaching(batches[b][k])
  }

  lemma MixedIff(l: StepAlignment.Layout, batches: seq<seq<Batch>>, reaching: Batch -> bool, k: nat, reaches: StepAlignment.Reaches)
    requires l.Valid() && |batches| == l.world
    requires forall rank: nat | rank < l.world ::
      k < |batches[rank]| && reaches(StepAlignment.Block(rank, l.replicaSize)) == reaching(batches[rank][k])
    ensures StepAlignment.Homogeneous(l, reaches) <==> !MixesKinds(batches, l.dpShard, reaching, k)
  {
  }

  /**
   The step counts of every call are aligned: whatever a call's step count is computed from its batch, and whichever
   kinds of batches return before the reduction, both depend on the replica only. So wherever the guard passes, the
   `k`-th call ends on all ranks, and alike on ranks that share a dp_shard group or a replica, exactly if no dp_shard
   group mixes calls that reach the reduction with calls that do not.
   */
  lemma CallsAreAligned(world: World, samples: seq<Sample>, policy: Policy, batches: seq<seq<Batch>>, dpShard: nat,
                        numSteps: Batch -> int, reaching: Batch -> bool, k: nat)
    returns (steps: StepAlignment.Steps, reaches: StepAlignment.Reaches)
    requires IsWorldRun(world, samples, policy, batches) && k < MaxCount(world, samples, policy, world.size)
    requires dpShard > 0 && world.size % dpShard == 0
    ensures |batches| == world.size && forall rank: nat | rank < world.size ::
      && k < |batches[rank]| && steps(world.ReplicaId(rank)) == numSteps(batches[rank][k])
      && reaches(world.ReplicaId(rank)) == reaching(batches[rank][k])
    ensures var l := StepAlignment.Layout(world.size, dpShard, world.replicaSize);
      && l.Valid()
      && (dpShard % world.replicaSize == 0 || world.replicaSize % dpShard == 0 ==>
            (StepAlignment.EndsTogether(l, steps, reaches) <==> !MixesKinds(batches, dpShard, reaching, k)))
  {
    steps := StepsOfCall(world, samples, policy, batches, numSteps, k);
    reaches := KindOfCall(world, samples, policy, batches, reaching, k);
    var l := StepAlignment.Layout(world.size, dpShard, world.replicaSize);
    if l.Nests() {
      StepAlignment.EndsTogetherIff(l, steps, reaches);
      MixedIff(l, batches, reaching, k, reaches);
    }
  }
}
