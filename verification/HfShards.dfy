/**
 The safetensors sharder (`HFExportCallback._gather_weights`): parameters are cut into files of at
 most `_MAX_SHARD_BYTES`, and a manifest names the file of every tensor.
 */
module HfShards {
  import opened Packing

  datatype Param = Param(name: string, bytes: nat)

  function Bytes(p: Param): nat { p.bytes }

  /** The shards flushed so far and the one being filled. */
  datatype Shards = Shards(flushed: seq<seq<Param>>, current: seq<Param>) {
    function All(): seq<seq<Param>> { flushed + [current] }
  }

  ghost predicate MustFlush(current: seq<Param>, p: Param, limit: nat) {
    Load(current, Bytes) + p.bytes > limit && Load(current, Bytes) > 0
  }

  ghost function Split(params: seq<Param>, limit: nat): Shards {
    if params == [] then Shards([], [])
    else
      var last := params[|params| - 1];
      var s := Split(params[..|params| - 1], limit);
      if MustFlush(s.current, last, limit) then Shards(s.flushed + [s.current], [last])
      else Shards(s.flushed, s.current + [last])
  }

  /** The file index the manifest records for parameter `i`. */
  ghost function ShardOf(params: seq<Param>, i: nat, limit: nat): nat
    requires i < |params|
  {
    |Split(params[..i + 1], limit).flushed|
  }

  /** The files written: the last shard is appended only when it holds some bytes. */
  ghost function Files(params: seq<Param>, limit: nat): seq<seq<Param>> {
    var s := Split(params, limit);
    if Load(s.current, Bytes) > 0 then s.All() else s.flushed
  }

  /** A Python dict filled in order: a repeated name keeps the last value. */
  ghost function AsDict(params: seq<Param>): map<string, nat> {
    if params == [] then map[]
    else AsDict(params[..|params| - 1])[params[|params| - 1].name := params[|params| - 1].bytes]
  }

  ghost function AsDicts(files: seq<seq<Param>>): seq<map<string, nat>> {
    seq(|files|, i requires 0 <= i < |files| => AsDict(files[i]))
  }

  ghost function Manifest(params: seq<Param>, limit: nat): map<string, nat> {
    if params == [] then map[]
    else
      var n := |params| - 1;
      Manifest(params[..n], limit)[params[n].name := ShardOf(params, n, limit)]
  }

  /**
   `_gather_weights` with the tensors reduced to their byte counts. Every rank runs the loop and
   tracks the shard boundaries; only rank 0 fills the chunks, the manifest and the total.
   */
  method GatherWeights(params: seq<Param>, limit: nat, isRank0: bool)
    returns (cpuChunks: seq<map<string, nat>>, manifest: map<string, nat>, totalSize: nat, fileIdx: nat)
    ensures fileIdx == |Split(params, limit).flushed|
    ensures isRank0 ==>
      && cpuChunks == AsDicts(Files(params, limit))
      && manifest == Manifest(params, limit)
      && totalSize == Load(params, Bytes)
    ensures !isRank0 ==> cpuChunks == [] && manifest == map[] && totalSize == 0
  {
    cpuChunks, manifest, totalSize, fileIdx := [], map[], 0, 0;
    var currentChunk: map<string, nat> := map[];
    var currentChunkBytes := 0;
    for i := 0 to |params|
      invariant fileIdx == |Split(params[..i], limit).flushed|
      invariant currentChunkBytes == Load(Split(params[..i], limit).current, Bytes)
      invariant if isRank0 then Gathered(params[..i], limit, cpuChunks, currentChunk, manifest, totalSize)
                else cpuChunks == [] && manifest == map[] && totalSize == 0 && currentChunk == map[]
    {
      var p := params[i];
      StepFacts(params, i, limit);
      if isRank0 {
        NextGathered(params, i, limit, cpuChunks, currentChunk, manifest, totalSize);
      }
      if currentChunkBytes + p.bytes > limit && currentChunkBytes > 0 {
        if isRank0 {
          cpuChunks := cpuChunks + [currentChunk];
          currentChunk := map[];
        }
        fileIdx := fileIdx + 1;
        currentChunkBytes := 0;
      }
      if isRank0 {
        currentChunk := currentChunk[p.name := p.bytes];
        manifest := manifest[p.name := fileIdx];
        totalSize := totalSize + p.bytes;
      }
      currentChunkBytes := currentChunkBytes + p.bytes;
    }
    assert params[..|params|] == params;
    LastFile(params, limit);
    if currentChunkBytes > 0 && isRank0 && currentChunk != map[] {
      cpuChunks := cpuChunks + [currentChunk];
    }
  }

  /** Rank 0's variables after the loop has seen `params`. */
  ghost predicate Gathered(params: seq<Param>, limit: nat, chunks: seq<map<string, nat>>, chunk: map<string, nat>,
                           manifest: map<string, nat>, totalSize: nat) {
    var s := Split(params, limit);
    chunks == AsDicts(s.flushed) && chunk == AsDict(s.current) && manifest == Manifest(params, limit) && totalSize == Load(params, Bytes)
  }

  lemma NextGathered(params: seq<Param>, i: nat, limit: nat, chunks: seq<map<string, nat>>, chunk: map<string, nat>,
                     manifest: map<string, nat>, totalSize: nat)
    requires i < |params| && Gathered(params[..i], limit, chunks, chunk, manifest, totalSize)
    ensures var s, p := Split(params[..i], limit), params[i];
      var flush := MustFlush(s.current, p, limit);
      Gathered(params[..i + 1], limit,
               if flush then chunks + [chunk] else chunks,
               (if flush then map[] else chunk)[p.name := p.bytes],
               manifest[p.name := if flush then |s.flushed| + 1 else |s.flushed|],
               totalSize + p.bytes)
  {
    StepFacts(params, i, limit);
    var s := Split(params[..i], limit);
    MoreDicts(s.flushed, s.current);
  }

  lemma MoreDicts(files: seq<seq<Param>>, last: seq<Param>)
    ensures AsDicts(files + [last]) == AsDicts(files) + [AsDict(last)]
  {
  }

  /** A last shard with bytes has entries, so testing the bytes and the dictionary is testing the bytes. */
  lemma LastFile(params: seq<Param>, limit: nat)
    ensures var s := Split(params, limit);
      && (Load(s.current, Bytes) > 0 ==> AsDict(s.current) != map[])
      && AsDicts(Files(params, limit)) ==
         if Load(s.current, Bytes) > 0 then AsDicts(s.flushed) + [AsDict(s.current)] else AsDicts(s.flushed)
  {
    var s := Split(params, limit);
    MoreDicts(s.flushed, s.current);
    if s.current != [] {
      assert s.current[|s.current| - 1].name in AsDict(s.current);
    }
  }

  lemma StepFacts(params: seq<Param>, i: nat, limit: nat)
    requires i < |params|
    ensures var s, t := Split(params[..i], limit), Split(params[..i + 1], limit);
      && (if MustFlush(s.current, params[i], limit)
          then t == Shards(s.flushed + [s.current], [params[i]]) && AsDict(t.current) == map[params[i].name := params[i].bytes]
               && Load(t.current, Bytes) == params[i].bytes
          else t == Shards(s.flushed, s.current + [params[i]])
               && AsDict(t.current) == AsDict(s.current)[params[i].name := params[i].bytes]
               && Load(t.current, Bytes) == Load(s.current, Bytes) + params[i].bytes)
      && Manifest(params[..i + 1], limit) == Manifest(params[..i], limit)[params[i].name := |t.flushed|]
    ensures Load(params[..i + 1], Bytes) == Load(params[..i], Bytes) + params[i].bytes
  {
    var before, after := params[..i], params[..i + 1];
    assert after == before + [params[i]] && after[..i] == before && after[..i + 1] == after;
    LoadAppend(before, [params[i]], Bytes);
    assert [params[i]][1..] == [];
    var s := Split(before, limit);
    LoadAppend(s.current, [params[i]], Bytes);
    assert (s.current + [params[i]])[..|s.current|] == s.current;
    assert [params[i]][..0] == [];
    assert AsDict([params[i]]) == AsDict([params[i]][..0])[params[i].name := params[i].bytes];
  }

  // ---------------------------------------------------------------------------------------------
  // Positive sizes: the shards are the greedy packing
  // ---------------------------------------------------------------------------------------------

  ghost predicate AllPositive(params: seq<Param>) {
    forall i | 0 <= i < |params| :: params[i].bytes > 0
  }

  lemma CurrentHasBytes(flushed: seq<seq<Param>>, current: seq<Param>, params: seq<Param>)
    requires AllPositive(params) && Flatten(flushed) + current == params
    ensures current != [] ==> Load(current, Bytes) > 0
  {
    if current != [] {
      assert params[|Flatten(flushed)|] == current[0];
    }
  }

  /** For positive sizes the sharder is the packer of `Packing`, with bytes for tokens. */
  lemma {:induction false} SplitIsPackFold(params: seq<Param>, limit: nat)
    requires AllPositive(params)
    ensures var s := Split(params, limit); PackFold(params, Bytes, limit) == (s.flushed, s.current)
  {
    if params != [] {
      var init := params[..|params| - 1];
      SplitIsPackFold(init, limit);
      FoldIsPacked(init, Bytes, limit);
      CurrentHasBytes(Split(init, limit).flushed, Split(init, limit).current, init);
    }
  }

  /** No export of these parameters in this order fits into fewer files. */
  lemma ShardsAreMinimal(params: seq<Param>, limit: nat, other: seq<seq<Param>>)
    requires AllPositive(params)
    requires Partitions(other, params, Bytes, limit)
    ensures IsGreedyPacking(Files(params, limit), params, Bytes, limit)
    ensures |Files(params, limit)| <= |other|
  {
    SplitIsPackFold(params, limit);
    FoldIsPacked(params, Bytes, limit);
    var s := Split(params, limit);
    CurrentHasBytes(s.flushed, s.current, params);
    PackEnd(s.flushed, s.current, params, Bytes, limit);
    GreedyIsOptimal(Files(params, limit), other, params, Bytes, limit);
  }

  // ---------------------------------------------------------------------------------------------
  // Any sizes: when manifest and files agree
  // ---------------------------------------------------------------------------------------------

  ghost predicate DistinctNames(params: seq<Param>) {
    forall i, j | 0 <= i < j < |params| :: params[i].name != params[j].name
  }

  /** Name `n` is a key of exactly the file with index `k`. */
  ghost predicate OnlyIn(n: string, files: seq<map<string, nat>>, k: nat) {
    k < |files| && n in files[k] && forall j | 0 <= j < |files| && n in files[j] :: j == k
  }

  /** Every tensor is found in the file its manifest entry names, and nowhere else. */
  ghost predicate ManifestAgrees(params: seq<Param>, limit: nat) {
    var files, manifest := AsDicts(Files(params, limit)), Manifest(params, limit);
    forall i | 0 <= i < |params| ::
      params[i].name in manifest && OnlyIn(params[i].name, files, manifest[params[i].name])
  }

  /** Size of the last tensor that has any bytes, or 0. */
  function LastPositive(params: seq<Param>): nat {
    if params == [] then 0
    else if params[|params| - 1].bytes > 0 then params[|params| - 1].bytes
    else LastPositive(params[..|params| - 1])
  }

  /** The last tensors are empty, and no file is open for them: nothing came before, or an oversized tensor did. */
  predicate TailDropped(params: seq<Param>, limit: nat) {
    params != [] && params[|params| - 1].bytes == 0
    && (LastPositive(params) == 0 || LastPositive(params) > limit)
  }

  /** The unwritten last shard, characterised by the sizes alone. */
  lemma {:induction false} EmptyTailCondition(params: seq<Param>, limit: nat)
    requires params != []
    ensures var s := Split(params, limit);
      && s.current != []
      && (Load(s.current, Bytes) > limit <==> params[|params| - 1].bytes > limit)
      && (Load(s.current, Bytes) == 0 <==> TailDropped(params, limit))
  {
    var n := |params| - 1;
    assert params[..n + 1] == params;
    StepFacts(params, n, limit);
    var init := params[..n];
    if n > 0 {
      EmptyTailCondition(init, limit);
      assert init[n - 1].bytes > 0 ==> LastPositive(init) == init[n - 1].bytes;
    } else {
      assert LastPositive(init) == 0;
    }
    assert params[n].bytes == 0 ==> LastPositive(params) == LastPositive(init);
  }

  lemma {:induction false} SplitKeepsEverything(params: seq<Param>, limit: nat)
    ensures Flatten(Split(params, limit).All()) == params
  {
    if params == [] {
      assert Split(params, limit).All()[1..] == [];
    } else {
      var n := |params| - 1;
      SplitKeepsEverything(params[..n], limit);
      var s := Split(params[..n], limit);
      assert params == params[..n] + [params[n]];
      if MustFlush(s.current, params[n], limit) {
        assert Split(params, limit).All() == s.All() + [[params[n]]];
        FlattenAppend(s.All(), [[params[n]]]);
        SingleFlatten([params[n]]);
      } else {
        FlattenAppend(s.flushed, [s.current]);
        FlattenAppend(s.flushed, [s.current + [params[n]]]);
        SingleFlatten(s.current);
        SingleFlatten(s.current + [params[n]]);
      }
    }
  }

  lemma SingleFlatten<T>(batch: seq<T>)
    ensures Flatten([batch]) == batch
  {
    assert [batch][1..] == [];
  }

  /** `p` is one of the parameters the manifest sends to shard `j`. */
  ghost predicate SentTo(params: seq<Param>, p: Param, j: nat, limit: nat) {
    exists i :: 0 <= i < |params| && params[i] == p && ShardOf(params, i, limit) == j
  }

  lemma SentToGrows(params: seq<Param>, n: nat, p: Param, j: nat, limit: nat)
    requires n <= |params| && SentTo(params[..n], p, j, limit)
    ensures SentTo(params, p, j, limit)
  {
    var i :| 0 <= i < n && params[..n][i] == p && ShardOf(params[..n], i, limit) == j;
    assert params[..n][..i + 1] == params[..i + 1];
    assert params[i] == p;
  }

  /** The shards hold exactly the parameters, each in the shard its index names. */
  lemma {:induction false} ShardMembership(params: seq<Param>, limit: nat, j: nat, p: Param)
    ensures var all := Split(params, limit).All();
      (j < |all| && p in all[j]) <==> SentTo(params, p, j, limit)
  {
    if params != [] {
      var n := |params| - 1;
      var init := params[..n];
      ShardMembership(init, limit, j, p);
      var before, after := Split(init, limit), Split(params, limit);
      assert params[..n + 1] == params;
      forall i | 0 <= i < n ensures ShardOf(init, i, limit) == ShardOf(params, i, limit) {
        assert init[..i + 1] == params[..i + 1];
      }
      assert ShardOf(params, n, limit) == |after.flushed|;
      if SentTo(init, p, j, limit) {
        SentToGrows(params, n, p, j, limit);
      }
    }
  }

  lemma {:induction false} DictHolds(params: seq<Param>, n: string)
    ensures n in AsDict(params) <==> exists p :: p in params && p.name == n
  {
    if params != [] {
      var init := params[..|params| - 1];
      DictHolds(init, n);
      assert params == init + [params[|params| - 1]];
    }
  }

  lemma {:induction false} ManifestEntry(params: seq<Param>, limit: nat, i: nat)
    requires DistinctNames(params) && i < |params|
    ensures params[i].name in Manifest(params, limit)
    ensures Manifest(params, limit)[params[i].name] == ShardOf(params, i, limit)
  {
    var n := |params| - 1;
    if i < n {
      var init := params[..n];
      ManifestEntry(init, limit, i);
      assert init[..i + 1] == params[..i + 1];
    }
  }

  lemma FilesHoldExactly(params: seq<Param>, limit: nat, i: nat)
    requires DistinctNames(params) && i < |params|
    requires ShardOf(params, i, limit) < |Files(params, limit)|
    ensures OnlyIn(params[i].name, AsDicts(Files(params, limit)), ShardOf(params, i, limit))
  {
    var all, files := Split(params, limit).All(), Files(params, limit);
    assert forall j | 0 <= j < |files| :: files[j] == all[j];
    var k := ShardOf(params, i, limit);
    ShardMembership(params, limit, k, params[i]);
    DictHolds(files[k], params[i].name);
    forall j | 0 <= j < |files| && params[i].name in AsDicts(files)[j] ensures j == k {
      DictHolds(files[j], params[i].name);
      var p: Param :| p in files[j] && p.name == params[i].name;
      ShardMembership(params, limit, j, p);
      var i' :| 0 <= i' < |params| && params[i'] == p && ShardOf(params, i', limit) == j;
      assert i' == i;
    }
  }

  /** Main result: for distinct names the manifest and the files agree unless the last shard was dropped. */
  lemma ManifestAgreement(params: seq<Param>, limit: nat)
    requires DistinctNames(params)
    ensures ManifestAgrees(params, limit) <==> !TailDropped(params, limit)
  {
    if params != [] {
      var n := |params| - 1;
      EmptyTailCondition(params, limit);
      ManifestEntry(params, limit, n);
      assert params[..n + 1] == params;
      if TailDropped(params, limit) {
        assert !OnlyIn(params[n].name, AsDicts(Files(params, limit)), ShardOf(params, n, limit));
      } else {
        forall i | 0 <= i < |params|
          ensures params[i].name in Manifest(params, limit)
          ensures OnlyIn(params[i].name, AsDicts(Files(params, limit)), Manifest(params, limit)[params[i].name])
        {
          ManifestEntry(params, limit, i);
          assert SentTo(params, params[i], ShardOf(params, i, limit), limit);
          ShardMembership(params, limit, ShardOf(params, i, limit), params[i]);
          FilesHoldExactly(params, limit, i);
        }
      }
    }
  }

  /** An input on which the manifest names a file that is never written: an oversized tensor, then an empty one. */
  lemma ManifestCanDisagree(limit: nat)
    ensures var params := [Param("big", limit + 1), Param("empty", 0)];
      DistinctNames(params) && !ManifestAgrees(params, limit)
  {
    var params := [Param("big", limit + 1), Param("empty", 0)];
    assert params[0].name[0] == 'b' && params[1].name[0] == 'e';
    assert params[..1] == [params[0]];
    assert LastPositive(params) == LastPositive([params[0]]) == limit + 1;
    ManifestAgreement(params, limit);
  }

  /** A shard over the limit holds one oversized tensor, preceded by empty ones at most. */
  ghost predicate WithinLimit(shard: seq<Param>, limit: nat) {
    Load(shard, Bytes) <= limit || (shard != [] && Load(shard[..|shard| - 1], Bytes) == 0)
  }

  lemma {:induction false} ShardWithinLimit(params: seq<Param>, limit: nat, k: nat)
    requires k < |Split(params, limit).All()|
    ensures WithinLimit(Split(params, limit).All()[k], limit)
  {
    if params != [] {
      var n := |params| - 1;
      var s, t := Split(params[..n], limit), Split(params, limit);
      assert params[..n + 1] == params;
      StepFacts(params, n, limit);
      if k < |t.flushed| {
        assert t.All()[k] == t.flushed[k] == s.All()[k];
        ShardWithinLimit(params[..n], limit, k);
      } else if MustFlush(s.current, params[n], limit) {
        assert t.current[..0] == [];
      } else {
        assert t.current[..|s.current|] == s.current;
      }
    }
  }

  lemma ShardsWithinLimit(params: seq<Param>, limit: nat)
    ensures var all := Split(params, limit).All(); forall k | 0 <= k < |all| :: WithinLimit(all[k], limit)
  {
    forall k | 0 <= k < |Split(params, limit).All()| ensures WithinLimit(Split(params, limit).All()[k], limit) {
      ShardWithinLimit(params, limit, k);
    }
  }
}
