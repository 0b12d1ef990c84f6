/**
 The three batchers that cut a worker's stream into groups: one keeps the order, one picks from a pool, one
 packs in order with a bounded look ahead and discards what never fits. Every group of each takes the first
 item of the stream that is neither handed out nor discarded yet.
 */
module Batchers {
  import opened Blocks
  import opened Collections
  import opened DataloaderCursor
  import opened Packing
  import opened WorkerStream
  import opened Wrappers

  /** The groups hand out the stream in order. */
  ghost predicate Sequential(groups: seq<seq<nat>>, from: nat) {
    Flatten(groups) == Range(from, |Flatten(groups)|)
  }

  /** `SimpleBatcher.batches` over the stream from position `from` on, up to its `count`-th group. */
  method SimpleGroups(from: nat, batchSize: int, count: nat) returns (r: Result<seq<seq<nat>>, BatchError>)
    ensures r.Err? <==> batchSize < 1
    ensures r.Err? ==> r.error == ValueError
    ensures r.Ok? ==> |r.value| == count && Sequential(r.value, from)
    ensures r.Ok? ==> forall k | 0 <= k < count :: |r.value[k]| == batchSize
  {
    if batchSize < 1 {
      return Err(ValueError);
    }
    var groups: seq<seq<nat>>, buf: seq<nat>, next := [], [], from;
    while |groups| < count
      invariant |groups| <= count && |buf| < batchSize && forall k | 0 <= k < |groups| :: |groups[k]| == batchSize
      invariant from <= next && Flatten(groups) + buf == Range(from, next - from)
      invariant |groups| == count ==> buf == []
      decreases count - |groups|, batchSize - |buf|
    {
      assert Range(from, next + 1 - from) == Range(from, next - from) + [next];
      buf, next := buf + [next], next + 1;
      if |buf| == batchSize {
        Closed(groups, buf);
        groups, buf := groups + [buf], [];
      }
    }
    return Ok(groups);
  }

  lemma Closed(groups: seq<seq<nat>>, buf: seq<nat>)
    ensures Flatten(groups + [buf]) == Flatten(groups) + buf
  {
    FlattenAppend(groups, [buf]);
    assert Flatten([buf]) == buf + Flatten([buf][1..]) == buf;
  }

  lemma RangeIs(from: nat, n: nat, p: nat)
    ensures p in Range(from, n) <==> from <= p < from + n
  {
    if from <= p < from + n {
      assert Range(from, n)[p - from] == p;
    }
  }

  /** Handing out the stream in order takes the first open item every time. */
  lemma SequentialIsInOrder(groups: seq<seq<nat>>, from: nat, k: nat)
    requires Sequential(groups, from) && k < |groups| && groups[k] != []
    ensures Cut(groups, from, k) && InOrder(groups, from, k)
  {
    var done, group, rest := Flatten(groups[..k]), groups[k], Flatten(groups[k + 1..]);
    assert groups == groups[..k + 1] + groups[k + 1..];
    FlattenAppend(groups[..k + 1], groups[k + 1..]);
    FlattenSplit(groups, k);
    PiecesOfRange(done, group, rest, from);
    forall p: nat ensures p in done <==> from <= p < from + |done| {
      RangeIs(from, |done|, p);
    }
    forall p: nat | p in group ensures p >= from + |done| {
      RangeIs(from + |done|, |group|, p);
    }
    assert group[0] == from + |done| && FirstOpen(group[0], done, from);
  }

  lemma PiecesOfRange(a: seq<nat>, b: seq<nat>, c: seq<nat>, from: nat)
    requires a + b + c == Range(from, |a + b + c|)
    ensures a == Range(from, |a|) && b == Range(from + |a|, |b|)
  {
    assert a == (a + b + c)[..|a|] && b == (a + b + c)[|a|..|a| + |b|];
  }

  // ---------------------------------------------------------------------------------------------
  // Pool packing
  // ---------------------------------------------------------------------------------------------

  ghost predicate Rising(s: seq<nat>) {
    forall i, j | 0 <= i < j < |s| :: s[i] < s[j]
  }

  lemma WithoutRises(s: seq<nat>, k: nat)
    requires Rising(s) && k < |s|
    ensures Rising(Without(s, k))
  {
  }

  /** The choice of the next candidate from the pool, by its place there; size, modality and strategy are its business. */
  type Picker = (seq<nat>, seq<nat>) -> Option<nat>

  ghost predicate Picks(pick: Picker) {
    forall pool: seq<nat>, chosen: seq<nat> :: pick(pool, chosen).Some? ==> pick(pool, chosen).value < |pool|
  }

  /** Every item behind the first is the candidate picked from what the pool held then, which leaves it. */
  ghost predicate PickedInTurn(pool: seq<nat>, chosen: seq<nat>, rests: seq<seq<nat>>, pick: Picker) {
    && pool != [] && |rests| == |chosen| > 0 && chosen[0] == pool[0] && rests[0] == pool[1..]
    && forall i | 0 < i < |chosen| :: PickedAt(chosen, rests, pick, i)
  }

  ghost predicate PickedAt(chosen: seq<nat>, rests: seq<seq<nat>>, pick: Picker, i: nat)
    requires 0 < i < |chosen| == |rests|
  {
    var best := pick(rests[i - 1], chosen[..i]);
    && best.Some? && best.value < |rests[i - 1]| && chosen[i] == rests[i - 1][best.value]
    && rests[i] == rests[i - 1][..best.value] + rests[i - 1][best.value + 1..]
  }

  /** The group of a pool: a long item alone, else picked until nothing is, the size is reached or the pool is empty. */
  ghost predicate IsBestFit(pool: seq<nat>, long: nat -> bool, maxBatchSize: nat, pick: Picker, chosen: seq<nat>, rests: seq<seq<nat>>) {
    && PickedInTurn(pool, chosen, rests, pick) && (long(pool[0]) ==> |chosen| == 1)
    && var rest := rests[|rests| - 1];
       rest == [] || long(pool[0]) || (maxBatchSize > 0 && |chosen| == maxBatchSize) || pick(rest, chosen).None?
  }

  lemma OneMorePicked(pool: seq<nat>, chosen: seq<nat>, rests: seq<seq<nat>>, pick: Picker, k: nat)
    requires PickedInTurn(pool, chosen, rests, pick) && k < |rests[|rests| - 1]|
    requires pick(rests[|rests| - 1], chosen) == Some(k)
    ensures var rest := rests[|rests| - 1]; PickedInTurn(pool, chosen + [rest[k]], rests + [Without(rest, k)], pick)
  {
    var rest, n := rests[|rests| - 1], |chosen|;
    var chosen', rests' := chosen + [rest[k]], rests + [Without(rest, k)];
    forall i | 0 < i < |chosen'| ensures PickedAt(chosen', rests', pick, i) {
      if i < n {
        assert PickedAt(chosen, rests, pick, i) && chosen'[..i] == chosen[..i];
      } else {
        assert chosen'[..n] == chosen;
      }
    }
  }

  /** `_best_fit_batch`: the oldest item of the pool, alone if it is long, and the candidates picked to join it. */
  method BestFitBatch(pool: seq<nat>, long: nat -> bool, maxBatchSize: nat, pick: Picker)
    returns (chosen: seq<nat>, rest: seq<nat>, ghost rests: seq<seq<nat>>)
    requires pool != [] && Picks(pick)
    ensures IsSplit(pool, chosen, rest)
    ensures maxBatchSize > 0 ==> |chosen| <= maxBatchSize
    ensures IsBestFit(pool, long, maxBatchSize, pick, chosen, rests) && rest == rests[|rests| - 1]
  {
    FirstPick(pool);
    chosen, rest := [pool[0]], Without(pool, 0);
    rests := [rest];
    if long(pool[0]) {
      return;
    }
    while rest != []
      invariant IsSplit(pool, chosen, rest)
      invariant maxBatchSize > 0 ==> |chosen| <= maxBatchSize
      invariant PickedInTurn(pool, chosen, rests, pick) && rest == rests[|rests| - 1] && !long(pool[0])
      decreases |rest|
    {
      if maxBatchSize > 0 && |chosen| >= maxBatchSize {
        return;
      }
      var best := pick(rest, chosen);
      if best.None? {
        return;
      }
      NextPick(pool, chosen, rest, best.value);
      OneMorePicked(pool, chosen, rests, pick, best.value);
      rests := rests + [Without(rest, best.value)];
      chosen, rest := chosen + [rest[best.value]], Without(rest, best.value);
    }
  }

  /** The pool is divided into a group that starts with its oldest item, and what stays, in its order. */
  ghost predicate IsSplit(pool: seq<nat>, chosen: seq<nat>, rest: seq<nat>) {
    && pool != [] && chosen != [] && chosen[0] == pool[0]
    && multiset(chosen) + multiset(rest) == multiset(pool)
    && (Rising(pool) ==> Rising(rest))
  }

  lemma FirstPick(pool: seq<nat>)
    requires pool != []
    ensures IsSplit(pool, [pool[0]], Without(pool, 0))
  {
    WithoutLeaves(pool, 0);
    if Rising(pool) {
      WithoutRises(pool, 0);
    }
  }

  lemma NextPick(pool: seq<nat>, chosen: seq<nat>, rest: seq<nat>, k: nat)
    requires IsSplit(pool, chosen, rest) && k < |rest|
    ensures IsSplit(pool, chosen + [rest[k]], Without(rest, k))
  {
    WithoutLeaves(rest, k);
    if Rising(rest) {
      WithoutRises(rest, k);
    }
  }

  /** Everything below `next` is handed out or in the pool, and nothing twice. */
  ghost predicate PoolInv(done: seq<nat>, pool: seq<nat>, from: nat, next: nat) {
    && Rising(pool)
    && (forall p: nat | p in pool :: from <= p < next && p !in done)
    && (forall p: nat | p in done :: p < next)
    && forall p: nat | from <= p < next :: p in pool || p in done
  }

  lemma OldestIsOpen(done: seq<nat>, pool: seq<nat>, from: nat, next: nat)
    requires PoolInv(done, pool, from, next) && pool != []
    ensures FirstOpen(pool[0], done, from)
  {
    assert pool[0] in pool;
    assert forall k | 0 <= k < |pool| :: pool[0] <= pool[k];
    forall q: nat | from <= q < pool[0] ensures q in done {
      assert q !in pool;
    }
  }

  lemma PoolGrows(done: seq<nat>, pool: seq<nat>, from: nat, next: nat)
    requires PoolInv(done, pool, from, next) && from <= next
    ensures PoolInv(done, pool + [next], from, next + 1)
  {
    forall i, j | 0 <= i < j < |pool + [next]| ensures (pool + [next])[i] < (pool + [next])[j] {
      assert pool[i] in pool;
    }
    forall p: nat | from <= p < next + 1 ensures p in pool + [next] || p in done {
      assert p == next ==> (pool + [next])[|pool|] == p;
    }
  }

  /** A group leaves the pool. */
  lemma PoolShrinks(done: seq<nat>, pool: seq<nat>, chosen: seq<nat>, rest: seq<nat>, from: nat, next: nat)
    requires PoolInv(done, pool, from, next) && IsSplit(pool, chosen, rest)
    ensures Undelivered(chosen, done, from) && TakesFirst(chosen, done, from)
    ensures PoolInv(done + chosen, rest, from, next)
  {
    OldestIsOpen(done, pool, from, next);
    forall p: nat ensures p in pool <==> p in chosen || p in rest {
      PartOf(pool, chosen, rest, p);
    }
    forall p: nat | p in rest ensures p !in chosen {
      OncePerPool(pool, chosen, rest, p);
    }
  }

  lemma PartOf(pool: seq<nat>, chosen: seq<nat>, rest: seq<nat>, p: nat)
    requires multiset(chosen) + multiset(rest) == multiset(pool)
    ensures p in pool <==> p in chosen || p in rest
  {
    assert p in pool <==> p in multiset(pool);
    assert p in chosen <==> p in multiset(chosen);
    assert p in rest <==> p in multiset(rest);
  }

  lemma {:induction false} RisingOnce(s: seq<nat>, p: nat)
    requires Rising(s)
    ensures multiset(s)[p] <= 1
  {
    if s != [] {
      var init, last := s[..|s| - 1], s[|s| - 1];
      RisingOnce(init, p);
      assert s == init + [last];
      assert p == last ==> p !in init;
    }
  }

  lemma OncePerPool(pool: seq<nat>, chosen: seq<nat>, rest: seq<nat>, p: nat)
    requires Rising(pool) && multiset(chosen) + multiset(rest) == multiset(pool) && p in rest
    ensures p !in chosen
  {
    RisingOnce(pool, p);
    assert multiset(pool)[p] == multiset(chosen)[p] + multiset(rest)[p];
    assert p in multiset(rest);
    assert p in chosen ==> p in multiset(chosen);
  }

  /** `PoolPackingBatcher.batches`, up to its `count`-th group; an empty pool yields nothing. */
  method PoolGroups(from: nat, poolSize: nat, long: nat -> bool, maxBatchSize: nat, pick: Picker, count: nat)
    returns (groups: seq<seq<nat>>, ghost pools: seq<seq<nat>>, ghost rests: seq<seq<seq<nat>>>)
    requires Picks(pick)
    ensures |groups| == |pools| == |rests| == if poolSize == 0 then 0 else count
    ensures forall k | 0 <= k < |groups| :: IsBestFit(pools[k], long, maxBatchSize, pick, groups[k], rests[k])
    ensures forall k | 0 <= k < |groups| :: IsPool(groups, pools[k], from, poolSize, k)
    ensures forall k | 0 <= k < |groups| :: Cut(groups, from, k) && InOrder(groups, from, k)
    ensures maxBatchSize > 0 ==> forall k | 0 <= k < |groups| :: |groups[k]| <= maxBatchSize
  {
    groups, pools, rests := [], [], [];
    var pool: seq<nat>, next := [], from;
    while |groups| < count
      invariant |groups| <= count && |pool| <= poolSize && from <= next && PoolInv(Flatten(groups), pool, from, next)
      invariant |pools| == |rests| == |groups| && next == from + |Flatten(groups)| + |pool|
      invariant AllPooled(groups, pools, rests, from, poolSize, long, maxBatchSize, pick)
      invariant AllTaken(groups, from) && (poolSize == 0 ==> groups == [])
      invariant maxBatchSize > 0 ==> forall k | 0 <= k < |groups| :: |groups[k]| <= maxBatchSize
    {
      while |pool| < poolSize
        invariant |pool| <= poolSize && from <= next && PoolInv(Flatten(groups), pool, from, next)
        invariant next == from + |Flatten(groups)| + |pool|
      {
        PoolGrows(Flatten(groups), pool, from, next);
        pool, next := pool + [next], next + 1;
      }
      if pool == [] {
        return;
      }
      var chosen, rest, left := BestFitBatch(pool, long, maxBatchSize, pick);
      assert |chosen| + |rest| == |pool| by {
        assert |chosen| + |rest| == |multiset(chosen) + multiset(rest)| == |multiset(pool)|;
      }
      OnePooled(groups, pools, rests, from, poolSize, long, maxBatchSize, pick, pool, chosen, left);
      pools, rests := pools + [pool], rests + [left];
      PoolShrinks(Flatten(groups), pool, chosen, rest, from, next);
      Closed(groups, chosen);
      OneTaken(groups, chosen, from);
      groups, pool := groups + [chosen], rest;
    }
  }

  /** The pool in front of group `k`: in order, the open ones among as many positions as were handed out and fit into it. */
  ghost predicate IsPool(groups: seq<seq<nat>>, pool: seq<nat>, from: nat, poolSize: nat, k: nat)
    requires k <= |groups|
  {
    |pool| == poolSize && PoolInv(Flatten(groups[..k]), pool, from, from + |Flatten(groups[..k])| + poolSize)
  }

  ghost predicate AllPooled(groups: seq<seq<nat>>, pools: seq<seq<nat>>, rests: seq<seq<seq<nat>>>, from: nat, poolSize: nat,
                            long: nat -> bool, maxBatchSize: nat, pick: Picker)
    requires |groups| == |pools| == |rests|
  {
    forall k | 0 <= k < |groups| ::
      IsBestFit(pools[k], long, maxBatchSize, pick, groups[k], rests[k]) && IsPool(groups, pools[k], from, poolSize, k)
  }

  lemma OnePooled(groups: seq<seq<nat>>, pools: seq<seq<nat>>, rests: seq<seq<seq<nat>>>, from: nat, poolSize: nat,
                  long: nat -> bool, maxBatchSize: nat, pick: Picker, pool: seq<nat>, chosen: seq<nat>, left: seq<seq<nat>>)
    requires |groups| == |pools| == |rests| && AllPooled(groups, pools, rests, from, poolSize, long, maxBatchSize, pick)
    requires IsBestFit(pool, long, maxBatchSize, pick, chosen, left)
    requires |pool| == poolSize && PoolInv(Flatten(groups), pool, from, from + |Flatten(groups)| + poolSize)
    ensures AllPooled(groups + [chosen], pools + [pool], rests + [left], from, poolSize, long, maxBatchSize, pick)
  {
    var g, p, r := groups + [chosen], pools + [pool], rests + [left];
    forall k | 0 <= k < |g| ensures IsBestFit(p[k], long, maxBatchSize, pick, g[k], r[k]) && IsPool(g, p[k], from, poolSize, k) {
      if k < |groups| {
        assert g[..k] == groups[..k] && IsPool(groups, pools[k], from, poolSize, k);
      } else {
        assert g[..k] == groups;
      }
    }
  }

  ghost predicate AllTaken(groups: seq<seq<nat>>, from: nat) {
    forall k | 0 <= k < |groups| :: Cut(groups, from, k) && InOrder(groups, from, k)
  }

  lemma OneTaken(groups: seq<seq<nat>>, group: seq<nat>, from: nat)
    requires AllTaken(groups, from) && Undelivered(group, Flatten(groups), from) && TakesFirst(group, Flatten(groups), from)
    ensures AllTaken(groups + [group], from)
  {
    var all := groups + [group];
    forall k | 0 <= k < |all| ensures Cut(all, from, k) && InOrder(all, from, k) {
      if k < |groups| {
        assert all[..k] == groups[..k] && Cut(groups, from, k) && InOrder(groups, from, k);
      } else {
        assert all[..k] == groups;
      }
    }
  }

  // ---------------------------------------------------------------------------------------------
  // Packing in order
  // ---------------------------------------------------------------------------------------------

  /** The limits of a `SequentialPackingBatcher`, exactly one of the first two, and the size of a sample. */
  datatype Limits = Limits(maxLength: Option<nat>, maxSamples: Option<nat>, lookahead: nat, size: nat -> nat) {
    ghost predicate Valid() {
      maxLength.Some? != maxSamples.Some? && (maxSamples.Some? ==> maxSamples.value > 0)
    }

    predicate TooLong(length: nat) {
      maxLength.Some? && length >= maxLength.value
    }

    /** None of the items fits even alone. */
    predicate NoneFits(items: seq<nat>) {
      forall k | 0 <= k < |items| :: TooLong(size(items[k]))
    }
  }

  /** Item `k` of `singles` is the first open one once the earlier ones are settled. */
  ghost predicate SingleInOrder(singles: seq<nat>, done: seq<nat>, from: nat, k: nat)
    requires k < |singles|
  {
    FirstOpen(singles[k], done + singles[..k], from)
  }

  ghost predicate AllSinglesInOrder(singles: seq<nat>, done: seq<nat>, from: nat) {
    forall k {:trigger SingleInOrder(singles, done, from, k)} | 0 <= k < |singles| :: SingleInOrder(singles, done, from, k)
  }

  /** While a group is gathered: what was discarded and taken is gone from the pool of passed-over and carried items. */
  ghost predicate Gathering(done: seq<nat>, discarded: seq<nat>, group: seq<nat>, passed: seq<nat>, carry: seq<nat>,
                            from: nat, next: nat)
  {
    && PoolInv(done + discarded + group, passed + carry, from, next)
    && AllSinglesInOrder(discarded, done, from)
    && (group == [] ==> passed == [])
    && (group != [] ==> FirstOpen(group[0], done + discarded, from))
    && Untouched(group, done + discarded, from)
  }

  /** What one turn of the outer loop settles, item by item and then the group, is open and comes first. */
  ghost predicate TurnInOrder(done: seq<nat>, discarded: seq<nat>, group: seq<nat>, from: nat) {
    && AllSinglesInOrder(discarded, done, from)
    && (group != [] ==> Undelivered(group, done + discarded, from) && TakesFirst(group, done + discarded, from))
  }

  ghost predicate Untouched(group: seq<nat>, done: seq<nat>, from: nat) {
    forall p: nat | p in group :: p >= from && p !in done
  }

  /** An item leaves the pool for good. */
  lemma PoolSettles(done: seq<nat>, pool: seq<nat>, k: nat, from: nat, next: nat)
    requires PoolInv(done, pool, from, next) && k < |pool|
    ensures PoolInv(done + [pool[k]], Without(pool, k), from, next)
    ensures pool[k] >= from && pool[k] !in done
  {
    var rest := Without(pool, k);
    WithoutRises(pool, k);
    assert pool[k] in pool;
    forall p: nat | p in rest ensures from <= p < next && p !in done + [pool[k]] {
      var j := IndexIn(rest, p);
      assert p == pool[if j < k then j else j + 1] && p in pool;
    }
    forall p: nat | from <= p < next ensures p in rest || p in done + [pool[k]] {
      if p in pool && p != pool[k] {
        var j := IndexIn(pool, p);
        assert rest[if j < k then j else j - 1] == p;
      }
    }
  }

  lemma Discard(done: seq<nat>, discarded: seq<nat>, p: nat, carry: seq<nat>, from: nat, next: nat)
    requires Gathering(done, discarded, [], [], [p] + carry, from, next)
    ensures Gathering(done, discarded + [p], [], [], carry, from, next)
  {
    var all := discarded + [p];
    assert done + discarded + [] == done + discarded && [] + ([p] + carry) == [p] + carry;
    OldestIsOpen(done + discarded, [p] + carry, from, next);
    PoolSettles(done + discarded, [p] + carry, 0, from, next);
    assert Without([p] + carry, 0) == [] + carry;
    assert done + discarded + [p] == done + all + [];
    forall k | 0 <= k < |all| ensures SingleInOrder(all, done, from, k) {
      if k < |discarded| {
        assert all[..k] == discarded[..k] && SingleInOrder(discarded, done, from, k);
      } else {
        assert all[..k] == discarded;
      }
    }
  }

  lemma PassOver(done: seq<nat>, discarded: seq<nat>, group: seq<nat>, passed: seq<nat>, p: nat, carry: seq<nat>,
                 from: nat, next: nat)
    requires Gathering(done, discarded, group, passed, [p] + carry, from, next) && group != []
    ensures Gathering(done, discarded, group, passed + [p], carry, from, next)
  {
    assert passed + ([p] + carry) == (passed + [p]) + carry;
  }

  lemma TakeItem(done: seq<nat>, discarded: seq<nat>, group: seq<nat>, passed: seq<nat>, p: nat, carry: seq<nat>,
                 from: nat, next: nat)
    requires Gathering(done, discarded, group, passed, [p] + carry, from, next)
    ensures Gathering(done, discarded, group + [p], passed, carry, from, next)
  {
    var settled, pool := done + discarded + group, passed + ([p] + carry);
    assert pool[|passed|] == p && Without(pool, |passed|) == passed + carry;
    PoolSettles(settled, pool, |passed|, from, next);
    assert settled + [p] == done + discarded + (group + [p]);
    if group == [] {
      assert settled == done + discarded && pool[0] == p;
      OldestIsOpen(settled, pool, from, next);
    }
    forall q: nat | q in group + [p] ensures q >= from && q !in done + discarded {
      if q == p {
        assert p !in settled;
      }
    }
  }

  lemma PullNext(done: seq<nat>, discarded: seq<nat>, group: seq<nat>, passed: seq<nat>, from: nat, next: nat)
    requires Gathering(done, discarded, group, passed, [], from, next) && from <= next
    ensures Gathering(done, discarded, group, passed, [next], from, next + 1)
  {
    assert passed + [] == passed;
    PoolGrows(done + discarded + group, passed, from, next);
  }

  lemma TurnStarts(done: seq<nat>, carry: seq<nat>, from: nat, next: nat)
    requires PoolInv(done, carry, from, next)
    ensures Gathering(done, [], [], [], carry, from, next)
  {
    assert done + [] + [] == done && [] + carry == carry;
  }

  lemma TurnEnds(done: seq<nat>, discarded: seq<nat>, group: seq<nat>, passed: seq<nat>, carry: seq<nat>, from: nat, next: nat)
    requires Gathering(done, discarded, group, passed, carry, from, next)
    ensures TurnInOrder(done, discarded, group, from) && PoolInv(done + discarded + group, passed + carry, from, next)
  {
    if group != [] {
      assert group[0] in group;
    }
  }

  /** The three things that can happen to the next item. */
  lemma OneItem(done: seq<nat>, discarded: seq<nat>, group: seq<nat>, passed: seq<nat>, held: seq<nat>, from: nat, next: nat)
    requires Gathering(done, discarded, group, passed, held, from, next) && held != []
    ensures group == [] ==> Gathering(done, discarded + [held[0]], group, passed, held[1..], from, next)
    ensures group != [] ==> Gathering(done, discarded, group, passed + [held[0]], held[1..], from, next)
    ensures Gathering(done, discarded, group + [held[0]], passed, held[1..], from, next)
  {
    var p, carry := held[0], held[1..];
    assert held == [p] + carry;
    if group == [] {
      Discard(done, discarded, p, carry, from, next);
    } else {
      PassOver(done, discarded, group, passed, p, carry, from, next);
    }
    TakeItem(done, discarded, group, passed, p, carry, from, next);
  }

  /** When `p` came, the group held its items before `p`, and `p` would have reached the limit on top of them. */
  ghost predicate NoRoom(l: Limits, group: seq<nat>, p: nat) {
    l.maxLength.Some? && exists t: nat :: Splits(group, t, p) && Load(group[..t], l.size) + l.size(p) >= l.maxLength.value
  }

  ghost predicate Splits(group: seq<nat>, t: nat, p: nat) {
    t <= |group| && (forall i | 0 <= i < t :: group[i] < p) && forall i | t <= i < |group| :: p < group[i]
  }

  ghost predicate NoneHadRoom(l: Limits, group: seq<nat>, passed: seq<nat>) {
    forall k {:trigger NoRoom(l, group, passed[k])} | 0 <= k < |passed| :: NoRoom(l, group, passed[k])
  }

  /** The group and the items passed over are the open ones from the group's first to the horizon, each once, in order. */
  ghost predicate Considered(done: seq<nat>, group: seq<nat>, passed: seq<nat>, horizon: nat)
    requires group != []
  {
    && Rising(group) && Rising(passed)
    && (forall p: nat | p in passed :: p !in group)
    && forall p: nat :: p in group || p in passed <==> group[0] <= p < horizon && p !in done
  }

  /** The group is within the limits, what was passed over had no room, and nothing else was left that could be tried. */
  ghost predicate FilledRight(l: Limits, done: seq<nat>, group: seq<nat>, passed: seq<nat>, horizon: nat, end: nat) {
    && group != [] && Considered(done, group, passed, horizon) && NoneHadRoom(l, group, passed) && |passed| <= l.lookahead
    && (l.maxLength.Some? ==> Load(group, l.size) < l.maxLength.value) && (l.maxSamples.Some? ==> |group| <= l.maxSamples.value)
    && ((l.maxSamples.Some? && |group| == l.maxSamples.value) || |passed| == l.lookahead || horizon == end)
  }

  /** While a group is filled: its items came before those held back and still to come, and its length is known. */
  ghost predicate Filling(l: Limits, group: seq<nat>, passed: seq<nat>, held: seq<nat>, next: nat, length: nat) {
    && length == Load(group, l.size) && (group != [] ==> !l.TooLong(length))
    && Rising(group) && AllBefore(group, held, next) && |passed| <= l.lookahead && NoneHadRoom(l, group, passed)
  }

  ghost predicate AllBefore(group: seq<nat>, held: seq<nat>, next: nat) {
    forall i | 0 <= i < |group| :: group[i] < next && forall j | 0 <= j < |held| :: group[i] < held[j]
  }

  lemma FillStarts(l: Limits, held: seq<nat>, next: nat)
    ensures Filling(l, [], [], held, next, 0)
  {
  }

  lemma FillPulls(l: Limits, group: seq<nat>, passed: seq<nat>, next: nat, length: nat)
    requires Filling(l, group, passed, [], next, length)
    ensures Filling(l, group, passed, [next], next + 1, length)
  {
  }

  lemma FillDrops(l: Limits, group: seq<nat>, passed: seq<nat>, held: seq<nat>, next: nat, length: nat)
    requires Filling(l, group, passed, held, next, length) && held != []
    ensures Filling(l, group, passed, held[1..], next, length)
  {
  }

  lemma FillPasses(l: Limits, group: seq<nat>, passed: seq<nat>, held: seq<nat>, next: nat, length: nat)
    requires Filling(l, group, passed, held, next, length) && held != [] && |passed| < l.lookahead
    requires l.TooLong(length + l.size(held[0]))
    ensures Filling(l, group, passed + [held[0]], held[1..], next, length)
  {
    assert group[..|group|] == group && Splits(group, |group|, held[0]);
    forall k | 0 <= k < |passed + [held[0]]| ensures NoRoom(l, group, (passed + [held[0]])[k]) {
      assert k < |passed| ==> NoRoom(l, group, passed[k]);
    }
  }

  lemma StillNoRoom(l: Limits, group: seq<nat>, q: nat, p: nat)
    requires NoRoom(l, group, p) && p < q
    ensures NoRoom(l, group + [q], p)
  {
    var t: nat :| Splits(group, t, p) && Load(group[..t], l.size) + l.size(p) >= l.maxLength.value;
    assert (group + [q])[..t] == group[..t] && Splits(group + [q], t, p);
  }

  lemma FillTakes(l: Limits, group: seq<nat>, passed: seq<nat>, held: seq<nat>, next: nat, length: nat)
    requires Filling(l, group, passed, held, next, length) && held != [] && Rising(passed + held) && held[0] < next
    requires !l.TooLong(length + l.size(held[0])) && Rising(held)
    ensures Filling(l, group + [held[0]], passed, held[1..], next, length + l.size(held[0]))
  {
    LoadAppend(group, [held[0]], l.size);
    assert Load([held[0]], l.size) == l.size(held[0]) + Load([held[0]][1..], l.size);
    forall k | 0 <= k < |passed| ensures NoRoom(l, group + [held[0]], passed[k]) {
      assert (passed + held)[k] == passed[k] && (passed + held)[|passed|] == held[0];
      assert NoRoom(l, group, passed[k]);
      StillNoRoom(l, group, held[0], passed[k]);
    }
  }

  /** What the next item does to the filling. */
  lemma FillOne(l: Limits, done: seq<nat>, discarded: seq<nat>, group: seq<nat>, passed: seq<nat>, held: seq<nat>, from: nat, next: nat,
                length: nat)
    requires Gathering(done, discarded, group, passed, held, from, next) && held != []
    requires Filling(l, group, passed, held, next, length) && (group != [] ==> |passed| < l.lookahead)
    ensures if l.TooLong(length + l.size(held[0]))
            then Filling(l, group, if group == [] then passed else passed + [held[0]], held[1..], next, length)
            else Filling(l, group + [held[0]], passed, held[1..], next, length + l.size(held[0]))
  {
    var pool := passed + held;
    assert pool[|passed|] == held[0] && held[0] in pool;
    assert Rising(held) by {
      assert forall j | 0 <= j < |held| :: pool[|passed| + j] == held[j];
    }
    if !l.TooLong(length + l.size(held[0])) {
      FillTakes(l, group, passed, held, next, length);
    } else if group == [] {
      FillDrops(l, group, passed, held, next, length);
    } else {
      FillPasses(l, group, passed, held, next, length);
    }
  }

  /** The first item that was not considered. */
  ghost function Horizon(held: seq<nat>, next: nat): nat {
    if held == [] then next else held[0]
  }

  lemma {:induction false} HeldBehind(done: seq<nat>, passed: seq<nat>, held: seq<nat>, from: nat, next: nat, p: nat)
    requires PoolInv(done, passed + held, from, next)
    ensures p in passed ==> from <= p < Horizon(held, next) && p !in done
    ensures from <= p < Horizon(held, next) && p !in done ==> p in passed
  {
    var pool := passed + held;
    assert p in pool <==> p in passed || p in held;
    if held != [] {
      assert pool[|passed|] == held[0] && held[0] in pool;
    }
    if p in passed {
      var i := IndexIn(passed, p);
      assert pool[i] == p;
    }
    if p in held {
      var j := IndexIn(held, p);
      assert pool[|passed| + j] == p;
    }
  }

  lemma ConsideredAt(done: seq<nat>, group: seq<nat>, passed: seq<nat>, held: seq<nat>, from: nat, next: nat, p: nat)
    requires PoolInv(done + group, passed + held, from, next) && group != []
    requires FirstOpen(group[0], done, from) && Untouched(group, done, from)
    requires Rising(group) && AllBefore(group, held, next)
    ensures p in group || p in passed <==> group[0] <= p < Horizon(held, next) && p !in done
    ensures p in passed ==> p !in group
  {
    HeldBehind(done + group, passed, held, from, next, p);
    assert p in done + group <==> p in done || p in group;
    if p in group {
      var i := IndexIn(group, p);
      assert group[0] <= group[i];
    }
    assert from <= p < group[0] ==> p in done;
  }

  lemma PassedRises(passed: seq<nat>, held: seq<nat>)
    requires Rising(passed + held)
    ensures Rising(passed)
  {
    assert forall i | 0 <= i < |passed| :: (passed + held)[i] == passed[i];
  }

  /** How a group that was filled ends. */
  lemma GroupEnds(l: Limits, done: seq<nat>, discarded: seq<nat>, group: seq<nat>, passed: seq<nat>, held: seq<nat>, from: nat, next: nat,
                  length: nat, end: nat)
    requires Gathering(done, discarded, group, passed, held, from, next) && Filling(l, group, passed, held, next, length)
    requires group != [] && (l.maxSamples.Some? ==> |group| <= l.maxSamples.value)
    requires (l.maxSamples.Some? && |group| == l.maxSamples.value) || |passed| == l.lookahead || (held == [] && next == end)
    ensures FilledRight(l, done + discarded, group, passed, Horizon(held, next), end)
  {
    forall p: nat
      ensures p in group || p in passed <==> group[0] <= p < Horizon(held, next) && p !in done + discarded
      ensures p in passed ==> p !in group
    {
      ConsideredAt(done + discarded, group, passed, held, from, next, p);
    }
    PassedRises(passed, held);
  }

  /** The state of a turn of the outer loop; `done` was settled before. */
  ghost predicate TurnInv(l: Limits, done: seq<nat>, discarded: seq<nat>, group: seq<nat>, passed: seq<nat>, carry: seq<nat>,
                          from: nat, next: nat, length: nat)
  {
    && Gathering(done, discarded, group, passed, carry, from, next)
    && Filling(l, group, passed, carry, next, length)
    && l.NoneFits(discarded) && (l.maxSamples.Some? ==> |group| <= l.maxSamples.value)
  }

  /** Takes the next item, passes it over, or discards it. */
  method Consider(l: Limits, discarded: seq<nat>, group: seq<nat>, passed: seq<nat>, carry: seq<nat>, length: nat,
                  ghost done: seq<nat>, ghost from: nat, ghost next: nat)
    returns (discarded': seq<nat>, group': seq<nat>, passed': seq<nat>, length': nat)
    requires carry != [] && TurnInv(l, done, discarded, group, passed, carry, from, next, length)
    requires (l.maxSamples.Some? ==> |group| < l.maxSamples.value) && (group != [] ==> |passed| < l.lookahead)
    ensures TurnInv(l, done, discarded', group', passed', carry[1..], from, next, length')
    ensures |discarded'| + |group'| + |passed'| == |discarded| + |group| + |passed| + 1
  {
    OneItem(done, discarded, group, passed, carry, from, next);
    FillOne(l, done, discarded, group, passed, carry, from, next, length);
    var p := carry[0];
    discarded', group', passed', length' := discarded, group, passed, length;
    if l.TooLong(length + l.size(p)) {
      if group == [] {
        discarded' := discarded + [p];
      } else {
        passed' := passed + [p];
      }
    } else {
      length', group' := length + l.size(p), group + [p];
    }
  }

  lemma TurnPulls(l: Limits, done: seq<nat>, discarded: seq<nat>, group: seq<nat>, passed: seq<nat>, from: nat, next: nat, length: nat)
    requires TurnInv(l, done, discarded, group, passed, [], from, next, length) && from <= next
    ensures TurnInv(l, done, discarded, group, passed, [next], from, next + 1, length)
  {
    PullNext(done, discarded, group, passed, from, next);
    FillPulls(l, group, passed, next, length);
  }

  lemma TurnBegins(l: Limits, done: seq<nat>, carried: seq<nat>, from: nat, start: nat)
    requires l.Valid() && PoolInv(done, carried, from, start)
    ensures TurnInv(l, done, [], [], [], carried, from, start, 0)
  {
    TurnStarts(done, carried, from, start);
    FillStarts(l, carried, start);
  }

  /** One turn of the outer loop: what it discards, the group, what it carries over, and where the source is then. */
  method GatherGroup(l: Limits, carried: seq<nat>, start: nat, end: nat, ghost done: seq<nat>, ghost from: nat)
    returns (discarded: seq<nat>, group: seq<nat>, carry: seq<nat>, next: nat, exhausted: bool,
             ghost passedOver: seq<nat>, ghost horizon: nat)
    requires l.Valid() && from <= start <= end && PoolInv(done, carried, from, start)
    ensures start <= next <= end && (exhausted ==> next == end) && (group == [] ==> exhausted && carry == [])
    ensures l.NoneFits(discarded)
    ensures TurnInOrder(done, discarded, group, from) && PoolInv(done + discarded + group, carry, from, next)
    ensures |carry| + (end - next) + |discarded| + |group| == |carried| + (end - start)
    ensures group != [] ==> FilledRight(l, done + discarded, group, passedOver, horizon, end)
  {
    discarded, group, carry, next, exhausted := [], [], carried, start, false;
    var passed: seq<nat>, length: nat := [], 0;
    TurnBegins(l, done, carried, from, start);
    while true
      invariant from <= start <= next <= end && !exhausted
      invariant TurnInv(l, done, discarded, group, passed, carry, from, next, length)
      invariant |passed| + |carry| + (end - next) + |discarded| + |group| == |carried| + (end - start)
      decreases |carry| + (end - next)
    {
      if (l.maxSamples.Some? && |group| >= l.maxSamples.value) || (group != [] && |passed| >= l.lookahead) {
        break;
      }
      if carry == [] {
        if next == end {
          exhausted := true;
          break;
        }
        TurnPulls(l, done, discarded, group, passed, from, next, length);
        carry, next := [next], next + 1;
      }
      discarded, group, passed, length := Consider(l, discarded, group, passed, carry, length, done, from, next);
      carry := carry[1..];
    }
    TurnEnds(done, discarded, group, passed, carry, from, next);
    if group != [] {
      GroupEnds(l, done, discarded, group, passed, carry, from, next, length, end);
    }
    passedOver, horizon := passed, Horizon(carry, next);
    carry := passed + carry;
  }

  function Singles(items: seq<nat>): seq<seq<nat>> {
    seq(|items|, k requires 0 <= k < |items| => [items[k]])
  }

  /** The discarded items, each on its own, continue what was settled in order. */
  lemma {:induction false} SinglesTaken(settled: seq<seq<nat>>, discarded: seq<nat>, from: nat)
    requires AllTaken(settled, from)
    requires AllSinglesInOrder(discarded, Flatten(settled), from)
    ensures AllTaken(settled + Singles(discarded), from)
    ensures Flatten(settled + Singles(discarded)) == Flatten(settled) + discarded
  {
    if discarded == [] {
      assert settled + Singles(discarded) == settled;
    } else {
      var n := |discarded| - 1;
      var init, last := discarded[..n], discarded[n];
      forall k | 0 <= k < n ensures SingleInOrder(init, Flatten(settled), from, k) {
        assert init[..k] == discarded[..k] && SingleInOrder(discarded, Flatten(settled), from, k);
      }
      SinglesTaken(settled, init, from);
      var before := settled + Singles(init);
      assert settled + Singles(discarded) == before + [[last]];
      assert SingleInOrder(discarded, Flatten(settled), from, n);
      OneTaken(before, [last], from);
      Closed(before, [last]);
      assert discarded == init + [last];
    }
  }

  /** One turn's items and group continue what was settled in order. */
  lemma TurnTaken(settled: seq<seq<nat>>, discarded: seq<nat>, group: seq<nat>, from: nat)
    requires AllTaken(settled, from) && TurnInOrder(Flatten(settled), discarded, group, from)
    ensures var after := settled + Singles(discarded) + (if group == [] then [] else [group]);
      AllTaken(after, from) && Flatten(after) == Flatten(settled) + discarded + group
  {
    SinglesTaken(settled, discarded, from);
    var before := settled + Singles(discarded);
    if group == [] {
      assert before + [] == before;
    } else {
      OneTaken(before, group, from);
      Closed(before, group);
    }
  }

  /** A single item that reaches the limit on its own. */
  ghost predicate IsDiscarded(l: Limits, group: seq<nat>) {
    |group| == 1 && l.maxLength.Some? && l.size(group[0]) >= l.maxLength.value
  }

  ghost predicate AllFilled(l: Limits, settled: seq<seq<nat>>, yielded: seq<bool>, passed: seq<seq<nat>>, horizons: seq<nat>, end: nat) {
    && |yielded| == |passed| == |horizons| == |settled|
    && forall k {:trigger FilledAt(l, settled, passed, horizons, end, k)} | 0 <= k < |settled| && yielded[k] ::
        FilledAt(l, settled, passed, horizons, end, k)
  }

  ghost predicate FilledAt(l: Limits, settled: seq<seq<nat>>, passed: seq<seq<nat>>, horizons: seq<nat>, end: nat, k: nat)
    requires k < |settled| == |passed| == |horizons|
  {
    FilledRight(l, Flatten(settled[..k]), settled[k], passed[k], horizons[k], end)
  }

  /** One turn's group is filled right behind what was settled before it. */
  lemma TurnFilled(l: Limits, settled: seq<seq<nat>>, yielded: seq<bool>, passed: seq<seq<nat>>, horizons: seq<nat>,
                   discarded: seq<nat>, group: seq<nat>, over: seq<nat>, horizon: nat, end: nat, from: nat)
    requires AllFilled(l, settled, yielded, passed, horizons, end)
    requires AllTaken(settled, from) && AllSinglesInOrder(discarded, Flatten(settled), from)
    requires group != [] ==> FilledRight(l, Flatten(settled) + discarded, group, over, horizon, end)
    ensures AllFilled(l, settled + Singles(discarded) + (if group == [] then [] else [group]),
                      yielded + seq(|discarded|, _ => false) + (if group == [] then [] else [true]),
                      passed + seq(|discarded|, _ => []) + (if group == [] then [] else [over]),
                      horizons + seq(|discarded|, _ => 0) + (if group == [] then [] else [horizon]), end)
  {
    var s := settled + Singles(discarded) + (if group == [] then [] else [group]);
    var y := yielded + seq(|discarded|, _ => false) + (if group == [] then [] else [true]);
    var p := passed + seq(|discarded|, _ => []) + (if group == [] then [] else [over]);
    var h := horizons + seq(|discarded|, _ => 0) + (if group == [] then [] else [horizon]);
    SinglesTaken(settled, discarded, from);
    forall k | 0 <= k < |s| && y[k] ensures FilledAt(l, s, p, h, end, k) {
      if k < |settled| {
        assert s[..k] == settled[..k] && FilledAt(l, settled, passed, horizons, end, k);
      } else {
        assert s[..k] == settled + Singles(discarded);
      }
    }
  }

  /**
   `SequentialPackingBatcher.batches` over the items from position `from` to `end`: the groups it yields and, each on
   its own, the items it discards, which are those too long by themselves.
   */
  method PackInOrder(l: Limits, from: nat, end: nat)
    returns (settled: seq<seq<nat>>, yielded: seq<bool>, ghost passed: seq<seq<nat>>, ghost horizons: seq<nat>)
    requires l.Valid() && from <= end
    ensures |settled| == |yielded| && forall k | 0 <= k < |settled| :: Cut(settled, from, k) && InOrder(settled, from, k)
    ensures forall k | 0 <= k < |settled| && !yielded[k] :: IsDiscarded(l, settled[k])
    ensures |Flatten(settled)| == end - from
    ensures AllFilled(l, settled, yielded, passed, horizons, end)
  {
    settled, yielded, passed, horizons := [], [], [], [];
    var carry: seq<nat>, next, exhausted := [], from, false;
    while true
      invariant from <= next <= end && (exhausted ==> next == end) && |settled| == |yielded|
      invariant AllTaken(settled, from) && PoolInv(Flatten(settled), carry, from, next)
      invariant forall k | 0 <= k < |settled| && !yielded[k] :: IsDiscarded(l, settled[k])
      invariant |Flatten(settled)| + |carry| + (end - next) == end - from
      invariant AllFilled(l, settled, yielded, passed, horizons, end)
      decreases |carry| + (end - next), if exhausted then 0 else 1
    {
      var discarded, group, rest, after, ended, over, horizon := GatherGroup(l, carry, next, end, Flatten(settled), from);
      TurnTaken(settled, discarded, group, from);
      TurnFilled(l, settled, yielded, passed, horizons, discarded, group, over, horizon, end, from);
      passed := passed + seq(|discarded|, _ => []) + if group == [] then [] else [over];
      horizons := horizons + seq(|discarded|, _ => 0) + if group == [] then [] else [horizon];
      settled := settled + Singles(discarded) + if group == [] then [] else [group];
      yielded := yielded + seq(|discarded|, _ => false) + if group == [] then [] else [true];
      carry, next, exhausted := rest, after, exhausted || ended;
      if exhausted && carry == [] {
        break;
      }
    }
  }

  /** A group of several that passes over an open item is refused by the loader. */
  lemma PassingOverIsRefused(group: seq<nat>, skipped: nat, length: nat)
    requires length > 0 && |group| > 1 && skipped !in group
    requires (exists p: nat :: p in group && p < skipped) && exists p: nat :: p in group && p > skipped
    ensures !Passes(group, length)
  {
    if Passes(group, length) {
      var first := Least(group);
      PassingGroup(group, first, length);
      assert false;
    }
  }

  lemma {:induction false} Least(group: seq<nat>) returns (first: nat)
    requires group != []
    ensures first in group && forall p: nat | p in group :: p >= first
  {
    if |group| == 1 {
      first := group[0];
    } else {
      first := Least(group[..|group| - 1]);
      assert group == group[..|group| - 1] + [group[|group| - 1]];
      if group[|group| - 1] < first {
        first := group[|group| - 1];
      }
    }
  }
}
