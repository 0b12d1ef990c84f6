/**
 Expert co-activation counts of a mixture-of-experts layer: every pair of top-K slots of a token adds
 one to a flat N x N matrix, in the upper triangle. The callback derives each expert's token count
 from row and column sums of the matrix alone.
 */
module MoeCoactivation {
  import opened Blocks
  import opened Packing

  /** The experts a token is routed to, by slot. */
  type Token = seq<nat>

  /** `topK` distinct experts below `n`, as `torch.topk` returns them. */
  predicate IsRouted(t: Token, n: nat, topK: nat) {
    && |t| == topK
    && (forall a | 0 <= a < |t| :: t[a] < n)
    && forall a, b | 0 <= a < b < |t| :: t[a] != t[b]
  }

  /** Any choice of distinct experts is a routing. */
  lemma SomeRouted(n: nat, topK: nat) returns (t: Token)
    requires topK <= n
    ensures IsRouted(t, n, topK) && forall a | 0 <= a < topK :: t[a] == a
  {
    t := seq(topK, a requires 0 <= a < topK => a);
  }

  ghost predicate AllRouted(tokens: seq<Token>, n: nat, topK: nat) {
    forall k | 0 <= k < |tokens| :: IsRouted(tokens[k], n, topK)
  }

  // ---------------------------------------------------------------------------------------------
  // What the matrix means
  // ---------------------------------------------------------------------------------------------

  /** Tokens routed to expert `i`. */
  ghost function Routed(tokens: seq<Token>, i: nat): nat {
    if tokens == [] then 0
    else Routed(tokens[..|tokens| - 1], i) + (if i in tokens[|tokens| - 1] then 1 else 0)
  }

  /** Tokens routed to both experts. */
  ghost function Both(tokens: seq<Token>, i: nat, j: nat): nat {
    if tokens == [] then 0
    else Both(tokens[..|tokens| - 1], i, j) + (if i in tokens[|tokens| - 1] && j in tokens[|tokens| - 1] then 1 else 0)
  }

  /** The entry of the upper-triangular matrix. */
  ghost function Entry(tokens: seq<Token>, i: nat, j: nat): nat {
    if i < j then Both(tokens, i, j) else 0
  }

  ghost function Sum(f: nat -> int, n: nat): int {
    if n == 0 then 0 else Sum(f, n - 1) + f(n - 1)
  }

  lemma {:induction false} BothAppend(a: seq<Token>, b: seq<Token>, i: nat, j: nat)
    ensures Both(a + b, i, j) == Both(a, i, j) + Both(b, i, j)
  {
    if b == [] {
      assert a + b == a;
    } else {
      assert (a + b)[..|a + b| - 1] == a + b[..|b| - 1];
      BothAppend(a, b[..|b| - 1], i, j);
    }
  }

  // ---------------------------------------------------------------------------------------------
  // Double counting
  // ---------------------------------------------------------------------------------------------

  lemma {:induction false} SumAdds(f: nat -> int, g: nat -> int, h: nat -> int, n: nat)
    requires forall j: nat | j < n :: h(j) == f(j) + g(j)
    ensures Sum(h, n) == Sum(f, n) + Sum(g, n)
  {
    if n > 0 {
      SumAdds(f, g, h, n - 1);
    }
  }

  lemma {:induction false} SumOfSame(f: nat -> int, g: nat -> int, n: nat)
    requires forall j: nat | j < n :: f(j) == g(j)
    ensures Sum(f, n) == Sum(g, n)
  {
    if n > 0 {
      SumOfSame(f, g, n - 1);
    }
  }

  /** The other experts of a token that has expert `i`. */
  ghost function Others(t: Token, i: nat): nat -> int {
    (j: nat) => if j != i && i in t && j in t then 1 else 0
  }

  ghost function Members(s: set<nat>): nat -> int {
    (j: nat) => if j in s then 1 else 0
  }

  lemma {:induction false} SumMembers(s: set<nat>, n: nat)
    requires forall e | e in s :: e < n
    ensures Sum(Members(s), n) == |s|
  {
    if n == 0 {
      assert s == {};
    } else {
      var rest := s - {n - 1};
      SumMembers(rest, n - 1);
      SumOfSame(Members(rest), Members(s), n - 1);
      assert |s| == |rest| + (if n - 1 in s then 1 else 0) by {
        assert n - 1 in s ==> s == rest + {n - 1};
        assert n - 1 !in s ==> s == rest;
      }
    }
  }

  function Experts(t: Token): set<nat> {
    set a | 0 <= a < |t| :: t[a]
  }

  lemma {:induction false} DistinctExperts(t: Token)
    requires forall a, b | 0 <= a < b < |t| :: t[a] != t[b]
    ensures |Experts(t)| == |t|
  {
    if t != [] {
      var n := |t| - 1;
      DistinctExperts(t[..n]);
      assert Experts(t) == Experts(t[..n]) + {t[n]};
      assert t[n] !in Experts(t[..n]);
    } else {
      assert Experts(t) == {};
    }
  }

  /** A token that has expert `i` has `topK - 1` others. */
  lemma SumOthers(t: Token, i: nat, n: nat, topK: nat)
    requires IsRouted(t, n, topK)
    ensures Sum(Others(t, i), n) == if i in t then topK - 1 else 0
  {
    var s := if i in t then Experts(t) - {i} else {};
    DistinctExperts(t);
    SumMembers(s, n);
    SumOfSame(Others(t, i), Members(s), n);
    assert i in t ==> Experts(t) == s + {i};
  }

  /** Row `i` plus column `i`. */
  ghost function RowAndColumn(tokens: seq<Token>, i: nat): nat -> int {
    (j: nat) => Entry(tokens, i, j) + Entry(tokens, j, i)
  }

  lemma {:induction false} PairsWithExpert(tokens: seq<Token>, i: nat, n: nat, topK: nat)
    requires AllRouted(tokens, n, topK) && topK >= 1
    ensures Sum(RowAndColumn(tokens, i), n) == (topK - 1) * Routed(tokens, i)
  {
    if tokens == [] {
      SumZero(RowAndColumn(tokens, i), n);
    } else {
      var init, t := tokens[..|tokens| - 1], tokens[|tokens| - 1];
      PairsWithExpert(init, i, n, topK);
      SumOthers(t, i, n, topK);
      SumAdds(RowAndColumn(init, i), Others(t, i), RowAndColumn(tokens, i), n);
      assert (topK - 1) * (Routed(init, i) + 1) == (topK - 1) * Routed(init, i) + (topK - 1);
    }
  }

  lemma {:induction false} SumZero(f: nat -> int, n: nat)
    requires forall j: nat | j < n :: f(j) == 0
    ensures Sum(f, n) == 0
  {
    if n > 0 {
      SumZero(f, n - 1);
    }
  }

  // ---------------------------------------------------------------------------------------------
  // Counting by slot pairs
  // ---------------------------------------------------------------------------------------------

  type SlotPair = (nat, nat)

  /** Every pair of slots, the smaller first, listed once. */
  ghost predicate IsPairList(pairs: seq<SlotPair>, topK: nat) {
    && (forall p | 0 <= p < |pairs| :: pairs[p].0 < pairs[p].1 < topK)
    && (forall p, q | 0 <= p < q < |pairs| :: pairs[p] != pairs[q])
    && forall a: nat, b: nat | a < b < topK :: (a, b) in pairs
  }

  /** `_make_coactivation_pairs`. */
  method MakeCoactivationPairs(topK: nat) returns (pairs: seq<SlotPair>)
    ensures IsPairList(pairs, topK)
  {
    pairs := [];
    for i := 0 to topK
      invariant forall p | 0 <= p < |pairs| :: pairs[p].0 < pairs[p].1 < topK && pairs[p].0 < i
      invariant forall p, q | 0 <= p < q < |pairs| :: pairs[p] != pairs[q]
      invariant forall a: nat, b: nat | a < i && a < b < topK :: (a, b) in pairs
    {
      for j := i + 1 to topK
        invariant forall p | 0 <= p < |pairs| :: pairs[p].0 < pairs[p].1 < topK && (pairs[p].0 == i ==> pairs[p].1 < j)
        invariant forall p | 0 <= p < |pairs| :: pairs[p].0 <= i
        invariant forall p, q | 0 <= p < q < |pairs| :: pairs[p] != pairs[q]
        invariant forall a: nat, b: nat | a < b < topK && (a < i || (a == i && b < j)) :: (a, b) in pairs
      {
        var wider := pairs + [(i, j)];
        assert wider[|pairs|] == (i, j);
        assert forall pair: SlotPair | pair in pairs :: pair in wider;
        pairs := wider;
      }
    }
  }

  function Expert(t: Token, slot: nat): nat {
    if slot < |t| then t[slot] else 0
  }

  /** The flat index a slot pair of a token counts for. */
  function FlatIndex(t: Token, pair: SlotPair, n: nat): nat {
    Min(Expert(t, pair.0), Expert(t, pair.1)) * n + Max(Expert(t, pair.0), Expert(t, pair.1))
  }

  ghost function TokenIndices(t: Token, pairs: seq<SlotPair>, n: nat): seq<nat> {
    seq(|pairs|, p requires 0 <= p < |pairs| => FlatIndex(t, pairs[p], n))
  }

  ghost function FlatIndices(tokens: seq<Token>, pairs: seq<SlotPair>, n: nat): seq<nat> {
    if tokens == [] then []
    else FlatIndices(tokens[..|tokens| - 1], pairs, n) + TokenIndices(tokens[|tokens| - 1], pairs, n)
  }

  lemma CountOnce<T>(s: seq<T>, x: T, p: nat)
    requires p < |s| && s[p] == x && forall q | 0 <= q < |s| && q != p :: s[q] != x
    ensures multiset(s)[x] == 1
  {
    assert s == s[..p] + [x] + s[p + 1..];
    assert x !in s[..p] && x !in s[p + 1..];
  }

  /** Slot pair `pair` of the token holds the experts `i < j`, in either order. */
  ghost predicate Hits(t: Token, pair: SlotPair, i: nat, j: nat)
    requires pair.0 < |t| && pair.1 < |t|
  {
    i < j && ((t[pair.0] == i && t[pair.1] == j) || (t[pair.0] == j && t[pair.1] == i))
  }

  lemma CountedAt(t: Token, pair: SlotPair, n: nat, topK: nat, i: nat, j: nat)
    requires IsRouted(t, n, topK) && pair.0 < pair.1 < topK && i < n && j < n
    ensures FlatIndex(t, pair, n) == i * n + j <==> Hits(t, pair, i, j)
  {
    var lo, hi := Min(t[pair.0], t[pair.1]), Max(t[pair.0], t[pair.1]);
    Decomposition(lo * n + hi, n, lo, hi);
    Decomposition(i * n + j, n, i, j);
  }

  lemma IndexHits(t: Token, pairs: seq<SlotPair>, n: nat, topK: nat, i: nat, j: nat)
    requires IsRouted(t, n, topK) && IsPairList(pairs, topK) && i < n && j < n
    ensures forall p: nat | p < |pairs| :: TokenIndices(t, pairs, n)[p] == i * n + j <==> Hits(t, pairs[p], i, j)
  {
    forall p: nat | p < |pairs| ensures TokenIndices(t, pairs, n)[p] == i * n + j <==> Hits(t, pairs[p], i, j) {
      CountedAt(t, pairs[p], n, topK, i, j);
    }
  }

  /** Two experts of a token sit in exactly one listed pair of slots. */
  lemma HitOnce(t: Token, pairs: seq<SlotPair>, n: nat, topK: nat, i: nat, j: nat) returns (p: nat)
    requires IsRouted(t, n, topK) && IsPairList(pairs, topK) && i < j && i in t && j in t
    ensures p < |pairs| && Hits(t, pairs[p], i, j)
    ensures forall q: nat | q < |pairs| && q != p :: !Hits(t, pairs[q], i, j)
  {
    var a: nat :| a < |t| && t[a] == i;
    var b: nat :| b < |t| && t[b] == j;
    var pair := (Min(a, b), Max(a, b));
    assert pair in pairs;
    p :| p < |pairs| && pairs[p] == pair;
    forall q: nat | q < |pairs| && Hits(t, pairs[q], i, j) ensures pairs[q] == pair {
    }
  }

  /** One token adds one to the entry of each pair of its experts, and nothing else. */
  lemma TokenCount(t: Token, pairs: seq<SlotPair>, n: nat, topK: nat, i: nat, j: nat)
    requires IsRouted(t, n, topK) && IsPairList(pairs, topK) && i < n && j < n
    ensures multiset(TokenIndices(t, pairs, n))[i * n + j] == Entry([t], i, j)
  {
    var s, x := TokenIndices(t, pairs, n), i * n + j;
    IndexHits(t, pairs, n, topK, i, j);
    SingleToken(t, i, j);
    if i < j && i in t && j in t {
      var p := HitOnce(t, pairs, n, topK, i, j);
      CountOnce(s, x, p);
    } else {
      forall p: nat | p < |pairs| ensures s[p] != x {
        assert !Hits(t, pairs[p], i, j);
      }
    }
  }

  lemma SingleToken(t: Token, i: nat, j: nat)
    ensures Both([t], i, j) == if i in t && j in t then 1 else 0
  {
    assert [t][..0] == [];
  }

  /** `tokens` routed like this add, at `x`, what each of them adds. */
  lemma {:induction false} BatchCountAt(tokens: seq<Token>, pairs: seq<SlotPair>, n: nat, i: nat, j: nat, x: nat)
    requires forall k | 0 <= k < |tokens| :: multiset(TokenIndices(tokens[k], pairs, n))[x] == Entry([tokens[k]], i, j)
    ensures multiset(FlatIndices(tokens, pairs, n))[x] == Entry(tokens, i, j)
  {
    if tokens != [] {
      var init, t := tokens[..|tokens| - 1], tokens[|tokens| - 1];
      BatchCountAt(init, pairs, n, i, j, x);
      AddCounts(FlatIndices(init, pairs, n), TokenIndices(t, pairs, n), x, init, t, i, j);
      assert tokens == init + [t];
    }
  }

  lemma BatchCount(tokens: seq<Token>, pairs: seq<SlotPair>, n: nat, topK: nat, i: nat, j: nat)
    requires IsPairList(pairs, topK) && AllRouted(tokens, n, topK) && i < n && j < n
    ensures multiset(FlatIndices(tokens, pairs, n))[i * n + j] == Entry(tokens, i, j)
  {
    forall k | 0 <= k < |tokens|
      ensures multiset(TokenIndices(tokens[k], pairs, n))[i * n + j] == Entry([tokens[k]], i, j)
    {
      TokenCount(tokens[k], pairs, n, topK, i, j);
    }
    BatchCountAt(tokens, pairs, n, i, j, i * n + j);
  }

  lemma AddCounts(a: seq<nat>, b: seq<nat>, x: nat, tokens: seq<Token>, t: Token, i: nat, j: nat)
    requires multiset(a)[x] == Entry(tokens, i, j) && multiset(b)[x] == Entry([t], i, j)
    ensures multiset(a + b)[x] == Entry(tokens + [t], i, j)
  {
    CountAppend(a, b, x);
    EntryAppend(tokens, t, i, j);
  }

  lemma CountAppend<T>(a: seq<T>, b: seq<T>, x: T)
    ensures multiset(a + b)[x] == multiset(a)[x] + multiset(b)[x]
  {
  }

  lemma EntryAppend(tokens: seq<Token>, t: Token, i: nat, j: nat)
    ensures Entry(tokens + [t], i, j) == Entry(tokens, i, j) + Entry([t], i, j)
  {
    BothAppend(tokens, [t], i, j);
  }

  /** A flat matrix holds the entries of `tokens`. */
  ghost predicate Holds(counts: seq<nat>, n: nat, tokens: seq<Token>) {
    && |counts| == n * n
    && forall i: nat, j: nat | i < n && j < n :: EntryHolds(counts, n, tokens, i, j)
  }

  ghost predicate EntryHolds(counts: seq<nat>, n: nat, tokens: seq<Token>, i: nat, j: nat) {
    i * n + j < |counts| && counts[i * n + j] == Entry(tokens, i, j)
  }

  lemma IndexInRange(i: nat, j: nat, n: nat)
    requires i < n && j < n
    ensures i * n + j < n * n
  {
    MulLe(i + 1, n, n);
    assert (i + 1) * n == i * n + n;
  }

  /** `after` is `before` with one more at every listed index, counted with multiplicity. */
  ghost predicate Adds(before: seq<nat>, after: seq<nat>, indices: seq<nat>) {
    && |after| == |before|
    && forall x: nat | x < |before| :: after[x] == before[x] + multiset(indices)[x]
  }

  /** Adding the counts of a batch gives the matrix of all tokens. */
  lemma AddBatch(before: seq<nat>, after: seq<nat>, n: nat, topK: nat, tokens: seq<Token>, batch: seq<Token>,
                 pairs: seq<SlotPair>)
    requires Holds(before, n, tokens) && AllRouted(batch, n, topK) && IsPairList(pairs, topK)
    requires Adds(before, after, FlatIndices(batch, pairs, n))
    ensures Holds(after, n, tokens + batch)
  {
    forall i: nat, j: nat | i < n && j < n ensures EntryHolds(after, n, tokens + batch, i, j) {
      BatchCount(batch, pairs, n, topK, i, j);
      AddEntry(before, after, n, tokens, batch, FlatIndices(batch, pairs, n), i, j);
    }
  }

  lemma AddEntry(before: seq<nat>, after: seq<nat>, n: nat, tokens: seq<Token>, batch: seq<Token>, indices: seq<nat>,
                 i: nat, j: nat)
    requires Holds(before, n, tokens) && i < n && j < n && Adds(before, after, indices)
    requires multiset(indices)[i * n + j] == Entry(batch, i, j)
    ensures EntryHolds(after, n, tokens + batch, i, j)
  {
    assert EntryHolds(before, n, tokens, i, j);
    BothAppend(tokens, batch, i, j);
  }

  /** `scatter_add_` of ones into zeros. */
  method ScatterOnes(size: nat, indices: seq<nat>) returns (counts: array<nat>)
    requires forall k | 0 <= k < |indices| :: indices[k] < size
    ensures fresh(counts) && counts.Length == size
    ensures forall x: nat | x < size :: counts[x] == multiset(indices)[x]
  {
    counts := new nat[size](_ => 0);
    for k := 0 to |indices|
      invariant forall x: nat | x < size :: counts[x] == multiset(indices[..k])[x]
    {
      assert indices[..k + 1] == indices[..k] + [indices[k]];
      counts[indices[k]] := counts[indices[k]] + 1;
    }
    assert indices[..|indices|] == indices;
  }

  /** `add_`, in place. */
  method AddInPlace(buffer: array<nat>, counts: array<nat>)
    requires buffer != counts && buffer.Length == counts.Length
    modifies buffer
    ensures forall x: nat | x < buffer.Length :: buffer[x] == old(buffer[x]) + counts[x]
  {
    for x := 0 to buffer.Length
      invariant forall y: nat | y < buffer.Length :: buffer[y] == old(buffer[y]) + (if y < x then counts[y] else 0)
    {
      buffer[x] := buffer[x] + counts[x];
    }
  }

  /** `Qwen3VLMoeTextSparseMoeBlock`, as far as its co-activation buffer goes; `tokens` were counted since the last reset. */
  class SparseMoeBlock {
    const numExperts: nat
    const topK: nat
    const coactPairs: seq<SlotPair>
    const coactivationCounts: array<nat>
    ghost var tokens: seq<Token>

    ghost predicate Valid()
      reads this, coactivationCounts
    {
      && IsPairList(coactPairs, topK)
      && AllRouted(tokens, numExperts, topK)
      && Holds(coactivationCounts[..], numExperts, tokens)
    }

    constructor (numExperts: nat, topK: nat)
      ensures Valid() && tokens == [] && fresh(coactivationCounts)
      ensures this.numExperts == numExperts && this.topK == topK
    {
      this.numExperts, this.topK := numExperts, topK;
      var pairs := MakeCoactivationPairs(topK);
      coactPairs := pairs;
      coactivationCounts := new nat[numExperts * numExperts](_ => 0);
      tokens := [];
      new;
      ZeroHolds(coactivationCounts[..], numExperts);
    }

    /** The counting part of `forward`. */
    method RecordCoactivations(batch: seq<Token>)
      requires Valid() && AllRouted(batch, numExperts, topK)
      modifies this, coactivationCounts
      ensures Valid() && tokens == old(tokens) + batch
    {
      var n := numExperts;
      var flatIndices := FlattenIndices(batch, coactPairs, n);
      ghost var before := coactivationCounts[..];
      IndicesInRange(batch, coactPairs, n, topK);
      var flatCounts := ScatterOnes(n * n, flatIndices);
      AddInPlace(coactivationCounts, flatCounts);
      assert Adds(before, coactivationCounts[..], flatIndices);
      AddBatch(before, coactivationCounts[..], n, topK, tokens, batch, coactPairs);
      tokens := tokens + batch;
    }

    /** `get_coactivation_counts`. */
    method GetCoactivationCounts(reset: bool) returns (counts: seq<nat>)
      requires Valid()
      modifies this, coactivationCounts
      ensures Valid() && Holds(counts, numExperts, old(tokens))
      ensures tokens == if reset then [] else old(tokens)
      ensures !reset ==> coactivationCounts[..] == old(coactivationCounts[..])
    {
      counts := coactivationCounts[..];
      if reset {
        for x := 0 to coactivationCounts.Length
          invariant forall y: nat | y < x :: coactivationCounts[y] == 0
        {
          coactivationCounts[x] := 0;
        }
        tokens := [];
        ZeroHolds(coactivationCounts[..], numExperts);
      }
    }
  }

  lemma ZeroHolds(counts: seq<nat>, n: nat)
    requires |counts| == n * n && forall x | 0 <= x < |counts| :: counts[x] == 0
    ensures Holds(counts, n, [])
  {
    forall i: nat, j: nat | i < n && j < n ensures EntryHolds(counts, n, [], i, j) {
      IndexInRange(i, j, n);
    }
  }

  lemma {:induction false} IndicesInRange(tokens: seq<Token>, pairs: seq<SlotPair>, n: nat, topK: nat)
    requires IsPairList(pairs, topK) && AllRouted(tokens, n, topK)
    ensures forall k | 0 <= k < |FlatIndices(tokens, pairs, n)| :: FlatIndices(tokens, pairs, n)[k] < n * n
  {
    if tokens != [] {
      var t := tokens[|tokens| - 1];
      IndicesInRange(tokens[..|tokens| - 1], pairs, n, topK);
      forall p | 0 <= p < |pairs| ensures FlatIndex(t, pairs[p], n) < n * n {
        IndexInRange(Min(t[pairs[p].0], t[pairs[p].1]), Max(t[pairs[p].0], t[pairs[p].1]), n);
      }
    }
  }

  /** `flat_idx` of a batch. */
  method FlattenIndices(batch: seq<Token>, pairs: seq<SlotPair>, n: nat) returns (flat: seq<nat>)
    ensures flat == FlatIndices(batch, pairs, n)
  {
    flat := [];
    for k := 0 to |batch|
      invariant flat == FlatIndices(batch[..k], pairs, n)
    {
      ghost var before := flat;
      for p := 0 to |pairs|
        invariant flat == before + TokenIndices(batch[k], pairs, n)[..p]
      {
        flat := flat + [FlatIndex(batch[k], pairs[p], n)];
      }
      assert TokenIndices(batch[k], pairs, n)[..|pairs|] == TokenIndices(batch[k], pairs, n);
      assert batch[..k + 1][..k] == batch[..k];
    }
    assert batch[..|batch|] == batch;
  }

  // ---------------------------------------------------------------------------------------------
  // The callback's metrics
  // ---------------------------------------------------------------------------------------------

  function At(counts: seq<nat>, x: nat): nat {
    if x < |counts| then counts[x] else 0
  }

  function SumAt(matrices: seq<seq<nat>>, x: nat): nat {
    if matrices == [] then 0 else At(matrices[0], x) + SumAt(matrices[1..], x)
  }

  /** The SUM all-reduce of every rank's matrix. */
  function AllReduce(matrices: seq<seq<nat>>, n: nat): seq<nat> {
    seq(n * n, x requires 0 <= x => SumAt(matrices, x))
  }

  lemma {:induction false} SumOverRanks(matrices: seq<seq<nat>>, world: seq<seq<Token>>, n: nat, i: nat, j: nat)
    requires |matrices| == |world| && i < n && j < n && i * n + j < n * n
    requires forall r | 0 <= r < |world| :: Holds(matrices[r], n, world[r])
    ensures SumAt(matrices, i * n + j) == Entry(Flatten(world), i, j)
  {
    if world != [] {
      assert EntryHolds(matrices[0], n, world[0], i, j);
      SumOverRanks(matrices[1..], world[1..], n, i, j);
      BothAppend(world[0], Flatten(world[1..]), i, j);
    }
  }

  /** The reduced matrix is the matrix of all ranks' tokens together. */
  lemma ReduceHolds(matrices: seq<seq<nat>>, world: seq<seq<Token>>, n: nat)
    requires |matrices| == |world| && forall r | 0 <= r < |world| :: Holds(matrices[r], n, world[r])
    ensures Holds(AllReduce(matrices, n), n, Flatten(world))
  {
    forall i: nat, j: nat | i < n && j < n ensures EntryHolds(AllReduce(matrices, n), n, Flatten(world), i, j) {
      IndexInRange(i, j, n);
      SumOverRanks(matrices, world, n, i, j);
      ReducedAt(matrices, n, i * n + j);
    }
  }

  lemma ReducedAt(matrices: seq<seq<nat>>, n: nat, x: nat)
    requires x < n * n
    ensures x < |AllReduce(matrices, n)| && AllReduce(matrices, n)[x] == SumAt(matrices, x)
  {
  }

  function RowSum(counts: seq<nat>, n: nat, i: nat, j: nat): nat {
    if j == 0 then 0 else RowSum(counts, n, i, j - 1) + At(counts, i * n + (j - 1))
  }

  function ColumnSum(counts: seq<nat>, n: nat, i: nat, j: nat): nat {
    if j == 0 then 0 else ColumnSum(counts, n, i, j - 1) + At(counts, (j - 1) * n + i)
  }

  /** `tokens_per_expert[i]`. */
  function TokensPerExpert(counts: seq<nat>, n: nat, topK: nat, i: nat): real
    requires topK >= 2
  {
    (RowSum(counts, n, i, n) + ColumnSum(counts, n, i, n)) as real / (topK - 1) as real
  }

  /** `coact_rates` at `(i, j)`. */
  function CoactivationRate(counts: seq<nat>, n: nat, topK: nat, i: nat, j: nat): real
    requires topK >= 2
  {
    var tokens := TokensPerExpert(counts, n, topK, i);
    At(counts, i * n + j) as real / (if tokens < 1.0 then 1.0 else tokens)
  }

  lemma {:induction false} SumsAreEntries(counts: seq<nat>, n: nat, tokens: seq<Token>, i: nat, j: nat)
    requires Holds(counts, n, tokens) && i < n && j <= n
    ensures RowSum(counts, n, i, j) + ColumnSum(counts, n, i, j) == Sum(RowAndColumn(tokens, i), j)
  {
    if j > 0 {
      SumsAreEntries(counts, n, tokens, i, j - 1);
      assert EntryHolds(counts, n, tokens, i, j - 1) && EntryHolds(counts, n, tokens, j - 1, i);
    }
  }

  lemma {:induction false} BothAtMostRouted(tokens: seq<Token>, i: nat, j: nat)
    ensures Both(tokens, i, j) <= Routed(tokens, i)
  {
    if tokens != [] {
      BothAtMostRouted(tokens[..|tokens| - 1], i, j);
    }
  }

  lemma DivideBack(k: nat, count: nat, total: nat)
    requires k >= 1 && total == k * count
    ensures total as real / k as real == count as real
  {
    var a, b, q := k as real, count as real, total as real / k as real;
    assert total as real == a * b;
    assert q * a == b * a;
    CancelReal(q, b, a);
  }

  lemma CancelReal(x: real, y: real, a: real)
    requires a > 0.0 && x * a == y * a
    ensures x == y
  {
    assert (x - y) * a == 0.0;
  }

  lemma RateBound(num: nat, den: nat, tokens: real)
    requires num <= den && tokens == den as real
    ensures 0.0 <= num as real / (if tokens < 1.0 then 1.0 else tokens) <= 1.0
  {
    var d := if tokens < 1.0 then 1.0 else tokens;
    var q := num as real / d;
    assert q * d == num as real;
    if q < 0.0 {
      ScaleReal(q, 0.0, d);
    } else if q > 1.0 {
      ScaleReal(1.0, q, d);
    }
  }

  lemma ScaleReal(x: real, y: real, a: real)
    requires a > 0.0 && x < y
    ensures x * a < y * a
  {
    assert (y - x) * a > 0.0;
  }

  /** The derived counts of one matrix. */
  lemma TokensAreExact(counts: seq<nat>, tokens: seq<Token>, n: nat, topK: nat, i: nat)
    requires topK >= 2 && i < n && Holds(counts, n, tokens) && AllRouted(tokens, n, topK)
    ensures TokensPerExpert(counts, n, topK, i) == Routed(tokens, i) as real
  {
    SumsAreEntries(counts, n, tokens, i, n);
    PairsWithExpert(tokens, i, n, topK);
    var total := RowSum(counts, n, i, n) + ColumnSum(counts, n, i, n);
    assert TokensPerExpert(counts, n, topK, i) == total as real / (topK - 1) as real;
    DivideBack(topK - 1, Routed(tokens, i), total);
  }

  lemma RateIsBounded(counts: seq<nat>, tokens: seq<Token>, n: nat, topK: nat, i: nat, j: nat)
    requires topK >= 2 && i < n && j < n && Holds(counts, n, tokens) && AllRouted(tokens, n, topK)
    ensures 0.0 <= CoactivationRate(counts, n, topK, i, j) <= 1.0
  {
    TokensAreExact(counts, tokens, n, topK, i);
    assert EntryHolds(counts, n, tokens, i, j);
    BothAtMostRouted(tokens, i, j);
    RateBound(At(counts, i * n + j), Routed(tokens, i), TokensPerExpert(counts, n, topK, i));
  }

  /**
   Main result: from any ranks' buffers, the derived count is each expert's true token count over all
   ranks, the entry of a pair is the number of tokens routed to both, and no rate exceeds 1.
   */
  lemma CoactivationIsExact(matrices: seq<seq<nat>>, world: seq<seq<Token>>, n: nat, topK: nat, i: nat, j: nat)
    requires topK >= 2 && i < n && j < n && |matrices| == |world|
    requires forall r | 0 <= r < |world| :: Holds(matrices[r], n, world[r]) && AllRouted(world[r], n, topK)
    ensures var counts, tokens := AllReduce(matrices, n), Flatten(world);
      && TokensPerExpert(counts, n, topK, i) == Routed(tokens, i) as real
      && (i < j ==> At(counts, i * n + j) == Both(tokens, i, j))
      && (i < j ==> CoactivationRate(counts, n, topK, i, j)
                    == Both(tokens, i, j) as real / (if Routed(tokens, i) == 0 then 1 else Routed(tokens, i)) as real)
      && 0.0 <= CoactivationRate(counts, n, topK, i, j) <= 1.0
  {
    var counts, tokens := AllReduce(matrices, n), Flatten(world);
    ReduceHolds(matrices, world, n);
    FlattenRouted(world, n, topK);
    TokensAreExact(counts, tokens, n, topK, i);
    RateIsBounded(counts, tokens, n, topK, i, j);
    assert EntryHolds(counts, n, tokens, i, j);
    AtLeastOne(Routed(tokens, i));
  }

  lemma AtLeastOne(count: nat)
    ensures (if count as real < 1.0 then 1.0 else count as real) == (if count == 0 then 1 else count) as real
  {
  }

  lemma {:induction false} FlattenRouted(world: seq<seq<Token>>, n: nat, topK: nat)
    requires forall r | 0 <= r < |world| :: AllRouted(world[r], n, topK)
    ensures AllRouted(Flatten(world), n, topK)
  {
    if world != [] {
      FlattenRouted(world[1..], n, topK);
      var head: seq<Token> := world[0];
      var rest: seq<Token> := Flatten(world[1..]);
      assert AllRouted(head, n, topK);
      assert forall k: nat | k < |head + rest| :: (head + rest)[k] == if k < |head| then head[k] else rest[k - |head|];
    }
  }
}
