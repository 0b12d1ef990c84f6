/**
 Order-preserving greedy packing under one budget (`_iter_packed_batches`), proved optimal:
 no other order-preserving split into admissible batches uses fewer of them.
 */
module Packing {
  import opened Blocks
  import opened Wrappers

  function Load<T>(batch: seq<T>, w: T -> nat): nat {
    if batch == [] then 0 else w(batch[0]) + Load(batch[1..], w)
  }

  function Flatten<T>(batches: seq<seq<T>>): seq<T> {
    if batches == [] then [] else batches[0] + Flatten(batches[1..])
  }

  /** A batch the packer may emit: never empty, within budget unless it is a single item. */
  ghost predicate Admissible<T>(batch: seq<T>, w: T -> nat, budget: int) {
    batch != [] && (|batch| == 1 || Load(batch, w) <= budget)
  }

  ghost predicate Partitions<T>(batches: seq<seq<T>>, items: seq<T>, w: T -> nat, budget: int) {
    && Flatten(batches) == items
    && forall k | 0 <= k < |batches| :: Admissible(batches[k], w, budget)
  }

  /** Every batch is full: the first item of the next batch no longer fits into it. */
  ghost predicate Full<T>(batches: seq<seq<T>>, w: T -> nat, budget: int) {
    forall k {:trigger batches[k]} | 0 < k < |batches| :: Overflows(batches[k - 1], batches[k], w, budget)
  }

  ghost predicate Overflows<T>(batch: seq<T>, next: seq<T>, w: T -> nat, budget: int) {
    next != [] && Load(batch, w) + w(next[0]) > budget
  }

  ghost predicate IsGreedyPacking<T>(batches: seq<seq<T>>, items: seq<T>, w: T -> nat, budget: int) {
    Partitions(batches, items, w, budget) && Full(batches, w, budget)
  }

  lemma {:induction false} LoadAppend<T>(a: seq<T>, b: seq<T>, w: T -> nat)
    ensures Load(a + b, w) == Load(a, w) + Load(b, w)
  {
    if a == [] {
      assert a + b == b;
    } else {
      assert (a + b)[1..] == a[1..] + b;
      LoadAppend(a[1..], b, w);
    }
  }

  lemma {:induction false} FlattenAppend<T>(a: seq<seq<T>>, b: seq<seq<T>>)
    ensures Flatten(a + b) == Flatten(a) + Flatten(b)
  {
    if a == [] {
      assert a + b == b;
    } else {
      assert (a + b)[1..] == a[1..] + b;
      FlattenAppend(a[1..], b);
    }
  }

  /** Drops the first `k` items of a partition, together with the batches that become empty. */
  ghost function Trim<T>(batches: seq<seq<T>>, k: nat): seq<seq<T>>
    requires k <= |Flatten(batches)|
  {
    if k == 0 then batches
    else if |batches[0]| <= k then Trim(batches[1..], k - |batches[0]|)
    else [batches[0][k..]] + batches[1..]
  }

  /** Dropping a prefix of the items never needs more batches. */
  lemma {:induction false} TrimPartitions<T>(batches: seq<seq<T>>, items: seq<T>, k: nat, w: T -> nat, budget: int)
    requires Partitions(batches, items, w, budget) && k <= |items|
    ensures Partitions(Trim(batches, k), items[k..], w, budget)
    ensures |Trim(batches, k)| <= |batches|
  {
    if k > 0 {
      var head, rest := batches[0], batches[1..];
      if |head| <= k {
        TrimPartitions(rest, Flatten(rest), k - |head|, w, budget);
        assert items[k..] == Flatten(rest)[k - |head|..];
      } else {
        LoadAppend(head[..k], head[k..], w);
        assert head == head[..k] + head[k..];
        var trimmed := [head[k..]] + rest;
        assert trimmed[1..] == rest;
        assert items[k..] == head[k..] + Flatten(rest);
      }
    }
  }

  /** A full batch cannot be extended by the item that overflowed it. */
  lemma FullBatchCannotGrow<T>(batch: seq<T>, next: seq<T>, longer: seq<T>, w: T -> nat, budget: int)
    requires batch != [] && Overflows(batch, next, w, budget)
    requires |batch| < |longer| && longer[..|batch|] == batch && longer[|batch|] == next[0]
    ensures !Admissible(longer, w, budget)
  {
    var rest := longer[|batch| + 1..];
    assert longer == batch + ([next[0]] + rest);
    LoadAppend(batch, [next[0]] + rest, w);
    assert ([next[0]] + rest)[1..] == rest;
  }

  /** Greedy's first batch is at least as long as the first batch of any admissible partition. */
  lemma GreedyTakesMost<T>(greedy: seq<seq<T>>, other: seq<seq<T>>, items: seq<T>, w: T -> nat, budget: int)
    requires IsGreedyPacking(greedy, items, w, budget) && Partitions(other, items, w, budget)
    requires greedy != [] && other != []
    ensures |other[0]| <= |greedy[0]|
  {
    var a := |greedy[0]|;
    assert items == greedy[0] + Flatten(greedy[1..]) == other[0] + Flatten(other[1..]);
    if a < |other[0]| && |greedy| > 1 {
      var next := greedy[1];
      assert Flatten(greedy[1..]) == next + Flatten(greedy[1..][1..]);
      assert other[0][..a] == items[..a] == greedy[0];
      assert Overflows(greedy[1 - 1], greedy[1], w, budget);
      assert items[a] == next[0];
      FullBatchCannotGrow(greedy[0], next, other[0], w, budget);
    }
  }

  lemma TailIsGreedy<T>(greedy: seq<seq<T>>, items: seq<T>, w: T -> nat, budget: int)
    requires IsGreedyPacking(greedy, items, w, budget) && greedy != []
    ensures |greedy[0]| <= |items| && IsGreedyPacking(greedy[1..], items[|greedy[0]|..], w, budget)
  {
  }

  /** Main result: greedy packing uses the fewest batches of all admissible partitions. */
  lemma {:induction false} GreedyIsOptimal<T>(greedy: seq<seq<T>>, other: seq<seq<T>>, items: seq<T>, w: T -> nat, budget: int)
    requires IsGreedyPacking(greedy, items, w, budget) && Partitions(other, items, w, budget)
    ensures |greedy| <= |other|
    decreases |greedy|
  {
    if greedy != [] {
      assert Admissible(greedy[0], w, budget);
      if other == [] {
        assert false;
      }
      GreedyTakesMost(greedy, other, items, w, budget);
      TailIsGreedy(greedy, items, w, budget);
      var a, b := |greedy[0]|, |other[0]|;
      var rest := other[1..];
      assert items == other[0] + Flatten(rest);
      TrimPartitions(rest, Flatten(rest), a - b, w, budget);
      assert Flatten(rest)[a - b..] == items[a..];
      GreedyIsOptimal(greedy[1..], Trim(rest, a - b), items[a..], w, budget);
    }
  }

  lemma GreedyIsMinimal<T>(greedy: seq<seq<T>>, items: seq<T>, w: T -> nat, budget: int)
    requires IsGreedyPacking(greedy, items, w, budget)
    ensures forall other | Partitions(other, items, w, budget) :: |greedy| <= |other|
  {
    forall other | Partitions(other, items, w, budget) ensures |greedy| <= |other| {
      GreedyIsOptimal(greedy, other, items, w, budget);
    }
  }

  /** The packing is determined by the items: ranks holding the same samples form the same batches. */
  lemma {:induction false} GreedyIsUnique<T>(x: seq<seq<T>>, y: seq<seq<T>>, items: seq<T>, w: T -> nat, budget: int)
    requires IsGreedyPacking(x, items, w, budget) && IsGreedyPacking(y, items, w, budget)
    ensures x == y
    decreases |x|
  {
    GreedyIsOptimal(x, y, items, w, budget);
    GreedyIsOptimal(y, x, items, w, budget);
    if x != [] {
      GreedyTakesMost(x, y, items, w, budget);
      GreedyTakesMost(y, x, items, w, budget);
      assert items == x[0] + Flatten(x[1..]) == y[0] + Flatten(y[1..]);
      assert x[0] == items[..|x[0]|] == y[0];
      TailIsGreedy(x, items, w, budget);
      TailIsGreedy(y, items, w, budget);
      GreedyIsUnique(x[1..], y[1..], items[|x[0]|..], w, budget);
      assert x == [x[0]] + x[1..] && y == [y[0]] + y[1..];
    }
  }

  // ---------------------------------------------------------------------------------------------
  // The packer itself
  // ---------------------------------------------------------------------------------------------

  datatype PackError = BadBudget | MultipleOutputs

  /** The packer's invariant: closed batches are full with respect to the open one. */
  ghost predicate Packed<T>(closed: seq<seq<T>>, cur: seq<T>, done: seq<T>, w: T -> nat, budget: int) {
    && IsGreedyPacking(closed, Flatten(closed), w, budget)
    && Flatten(closed) + cur == done
    && (cur != [] ==> Admissible(cur, w, budget))
    && (cur == [] ==> closed == [])
    && (closed != [] ==> Overflows(closed[|closed| - 1], cur, w, budget))
  }

  lemma CloseBatch<T>(closed: seq<seq<T>>, cur: seq<T>, done: seq<T>, w: T -> nat, budget: int)
    requires Packed(closed, cur, done, w, budget) && cur != []
    ensures IsGreedyPacking(closed + [cur], done, w, budget)
  {
    FlattenAppend(closed, [cur]);
    assert [cur][1..] == [];
    assert Flatten([cur]) == cur;
  }

  lemma AddItem<T>(closed: seq<seq<T>>, cur: seq<T>, done: seq<T>, item: T, w: T -> nat, budget: int)
    requires Packed(closed, cur, done, w, budget)
    ensures cur != [] && Load(cur, w) + w(item) > budget ==>
      Packed(closed + [cur], [item], done + [item], w, budget)
    ensures !(cur != [] && Load(cur, w) + w(item) > budget) ==>
      Packed(closed, cur + [item], done + [item], w, budget)
    ensures Load(cur + [item], w) == Load(cur, w) + w(item)
    ensures Load([item], w) == w(item)
  {
    assert [item][1..] == [];
    LoadAppend(cur, [item], w);
    if cur != [] {
      CloseBatch(closed, cur, done, w, budget);
    }
    assert Flatten(closed) + (cur + [item]) == (Flatten(closed) + cur) + [item];
  }

  lemma PackEnd<T>(closed: seq<seq<T>>, cur: seq<T>, items: seq<T>, w: T -> nat, budget: int)
    requires Packed(closed, cur, items, w, budget)
    ensures IsGreedyPacking(if cur != [] then closed + [cur] else closed, items, w, budget)
  {
    if cur != [] {
      CloseBatch(closed, cur, items, w, budget);
    } else {
      assert Flatten(closed) + cur == Flatten(closed);
    }
  }

  /** The closed batches and the open one after packing `items` one by one. */
  ghost function PackFold<T>(items: seq<T>, w: T -> nat, budget: int): (seq<seq<T>>, seq<T>) {
    if items == [] then ([], [])
    else
      var before, item := PackFold(items[..|items| - 1], w, budget), items[|items| - 1];
      if before.1 != [] && Load(before.1, w) + w(item) > budget then (before.0 + [before.1], [item])
      else (before.0, before.1 + [item])
  }

  /** The greedy packing of `items`. */
  ghost function GreedyPack<T>(items: seq<T>, w: T -> nat, budget: int): seq<seq<T>> {
    var r := PackFold(items, w, budget);
    if r.1 != [] then r.0 + [r.1] else r.0
  }

  lemma {:induction false} FoldIsPacked<T>(items: seq<T>, w: T -> nat, budget: int)
    ensures var r := PackFold(items, w, budget); Packed(r.0, r.1, items, w, budget)
  {
    if items != [] {
      var n := |items| - 1;
      FoldIsPacked(items[..n], w, budget);
      var before := PackFold(items[..n], w, budget);
      AddItem(before.0, before.1, items[..n], items[n], w, budget);
      assert items[..n] + [items[n]] == items;
    }
  }

  /** `GreedyPack` is greedy, and every greedy packing is `GreedyPack`. */
  lemma GreedyPackIs<T>(items: seq<T>, w: T -> nat, budget: int)
    ensures IsGreedyPacking(GreedyPack(items, w, budget), items, w, budget)
    ensures forall batches | IsGreedyPacking(batches, items, w, budget) :: batches == GreedyPack(items, w, budget)
  {
    FoldIsPacked(items, w, budget);
    var r := PackFold(items, w, budget);
    PackEnd(r.0, r.1, items, w, budget);
    forall batches | IsGreedyPacking(batches, items, w, budget) ensures batches == GreedyPack(items, w, budget) {
      GreedyIsUnique(batches, GreedyPack(items, w, budget), items, w, budget);
    }
  }

  /** The weight one item takes from the budget: its tokens, or one slot. */
  function BudgetWeight<T>(maxModelLen: Option<int>, numTokens: T -> nat): T -> nat {
    if maxModelLen.Some? then numTokens else _ => 1
  }

  /** Token budget: batches of several items keep it, and the next batch's first item would have exceeded it. */
  ghost predicate FilledWithTokens<T>(batches: seq<seq<T>>, numTokens: T -> nat, maxModelLen: int) {
    && (forall k | 0 <= k < |batches| && |batches[k]| > 1 :: Load(batches[k], numTokens) <= maxModelLen)
    && forall k {:trigger batches[k]} | 0 < k < |batches| :: NextExceeds(batches, k, numTokens, maxModelLen)
  }

  ghost predicate NextExceeds<T>(batches: seq<seq<T>>, k: nat, numTokens: T -> nat, maxModelLen: int)
    requires 0 < k < |batches|
  {
    batches[k] != [] && Load(batches[k - 1], numTokens) + numTokens(batches[k][0]) > maxModelLen
  }

  /** Sequence budget: every batch but the last has as many items as allowed, at least one. */
  ghost predicate FilledWithItems<T>(batches: seq<seq<T>>, maxNumSeqs: int) {
    forall k | 0 <= k < |batches| ::
      if k + 1 < |batches| then |batches[k]| == Max(1, maxNumSeqs) else 0 < |batches[k]| <= Max(1, maxNumSeqs)
  }

  /** What the budget in force says of the batches. */
  ghost predicate UsesBudget<T>(batches: seq<seq<T>>, numTokens: T -> nat, maxModelLen: Option<int>, maxNumSeqs: Option<int>) {
    && (maxModelLen.Some? ==> FilledWithTokens(batches, numTokens, maxModelLen.value))
    && (maxNumSeqs.Some? ==> FilledWithItems(batches, maxNumSeqs.value))
  }

  lemma {:induction false} UnitLoad<T>(batch: seq<T>, w: T -> nat)
    requires forall x: T :: w(x) == 1
    ensures Load(batch, w) == |batch|
  {
    if batch != [] {
      UnitLoad(batch[1..], w);
    }
  }

  lemma GreedyFillsTokens<T>(batches: seq<seq<T>>, items: seq<T>, numTokens: T -> nat, maxModelLen: int)
    requires IsGreedyPacking(batches, items, numTokens, maxModelLen)
    ensures FilledWithTokens(batches, numTokens, maxModelLen)
  {
    forall k | 0 < k < |batches| ensures NextExceeds(batches, k, numTokens, maxModelLen) {
      assert Overflows(batches[k - 1], batches[k], numTokens, maxModelLen);
    }
    forall k | 0 <= k < |batches| && |batches[k]| > 1 ensures Load(batches[k], numTokens) <= maxModelLen {
      assert Admissible(batches[k], numTokens, maxModelLen);
    }
  }

  lemma GreedyFillsItems<T>(batches: seq<seq<T>>, items: seq<T>, w: T -> nat, maxNumSeqs: int)
    requires IsGreedyPacking(batches, items, w, maxNumSeqs) && forall x: T :: w(x) == 1
    ensures FilledWithItems(batches, maxNumSeqs)
  {
    forall k | 0 <= k < |batches|
      ensures if k + 1 < |batches| then |batches[k]| == Max(1, maxNumSeqs) else 0 < |batches[k]| <= Max(1, maxNumSeqs)
    {
      assert Admissible(batches[k], w, maxNumSeqs);
      UnitLoad(batches[k], w);
      if k + 1 < |batches| {
        assert Overflows(batches[k + 1 - 1], batches[k + 1], w, maxNumSeqs);
      }
    }
  }

  ghost predicate AllSingle<T>(items: seq<T>, numOutputs: T -> int) {
    forall k | 0 <= k < |items| :: numOutputs(items[k]) == 1
  }

  /** What the loop knows: the packing of the items done, and the weight of the open batch. */
  ghost predicate PackState<T>(closed: seq<seq<T>>, cur: seq<T>, running: nat, done: seq<T>, numOutputs: T -> int,
                               w: T -> nat, budget: int) {
    AllSingle(done, numOutputs) && Packed(closed, cur, done, w, budget) && running == Load(cur, w)
  }

  lemma PackItem<T>(closed: seq<seq<T>>, cur: seq<T>, running: nat, done: seq<T>, item: T, numOutputs: T -> int,
                    w: T -> nat, budget: int)
    requires PackState(closed, cur, running, done, numOutputs, w, budget) && numOutputs(item) == 1
    ensures cur != [] && running + w(item) > budget ==>
      PackState(closed + [cur], [item], w(item), done + [item], numOutputs, w, budget)
    ensures !(cur != [] && running + w(item) > budget) ==>
      PackState(closed, cur + [item], running + w(item), done + [item], numOutputs, w, budget)
  {
    AddItem(closed, cur, done, item, w, budget);
    assert AllSingle(done + [item], numOutputs);
  }

  lemma NotAllSingle<T>(items: seq<T>, numOutputs: T -> int, i: nat)
    requires i < |items| && numOutputs(items[i]) != 1
    ensures !AllSingle(items, numOutputs)
  {
  }

  /** The packing loop: `running` is the token or slot count of the open batch. */
  method PackLoop<T>(items: seq<T>, numOutputs: T -> int, w: T -> nat, budget: int) returns (r: Result<seq<seq<T>>, PackError>)
    ensures r.Err? <==> !AllSingle(items, numOutputs)
    ensures r.Err? ==> r.error == MultipleOutputs
    ensures r.Ok? ==> IsGreedyPacking(r.value, items, w, budget)
  {
    var batches: seq<seq<T>>, cur: seq<T> := [], [];
    var running: nat := 0;
    for i := 0 to |items|
      invariant PackState(batches, cur, running, items[..i], numOutputs, w, budget)
    {
      var item := items[i];
      if numOutputs(item) != 1 {
        NotAllSingle(items, numOutputs, i);
        return Err(MultipleOutputs);
      }
      PackItem(batches, cur, running, items[..i], item, numOutputs, w, budget);
      assert items[..i + 1] == items[..i] + [item];
      if cur != [] && running + w(item) > budget {
        batches, cur, running := batches + [cur], [item], w(item);
      } else {
        cur, running := cur + [item], running + w(item);
      }
    }
    assert items[..|items|] == items;
    PackEnd(batches, cur, items, w, budget);
    if cur != [] {
      batches := batches + [cur];
    }
    return Ok(batches);
  }

  /**
   `_iter_packed_batches`: exactly one of the two budgets must be given, and every item must
   already be expanded to a single output. The batches are the greedy packing, hence minimal.
   */
  method IterPackedBatches<T>(items: seq<T>, numTokens: T -> nat, numOutputs: T -> int,
                              maxModelLen: Option<int>, maxNumSeqs: Option<int>)
    returns (r: Result<seq<seq<T>>, PackError>)
    ensures r.Err? <==> maxModelLen.Some? == maxNumSeqs.Some? || !AllSingle(items, numOutputs)
    ensures r.Err? ==> r.error == if maxModelLen.Some? == maxNumSeqs.Some? then BadBudget else MultipleOutputs
    ensures r.Ok? ==>
      var w := BudgetWeight(maxModelLen, numTokens);
      var budget := if maxModelLen.Some? then maxModelLen.value else maxNumSeqs.value;
      && r.value == GreedyPack(items, w, budget)
      && IsGreedyPacking(r.value, items, w, budget)
      && forall other | Partitions(other, items, w, budget) :: |r.value| <= |other|
    ensures r.Ok? ==> Flatten(r.value) == items && UsesBudget(r.value, numTokens, maxModelLen, maxNumSeqs)
  {
    if maxModelLen.Some? == maxNumSeqs.Some? {
      return Err(BadBudget);
    }
    var w := BudgetWeight(maxModelLen, numTokens);
    var budget := if maxModelLen.Some? then maxModelLen.value else maxNumSeqs.value;
    r := PackLoop(items, numOutputs, w, budget);
    if r.Ok? {
      GreedyPackIs(items, w, budget);
      GreedyIsMinimal(r.value, items, w, budget);
      if maxModelLen.Some? {
        GreedyFillsTokens(r.value, items, numTokens, maxModelLen.value);
      } else {
        GreedyFillsItems(r.value, items, w, maxNumSeqs.value);
      }
    }
  }
}
