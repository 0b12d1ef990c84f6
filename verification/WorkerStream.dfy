/**
 One worker's stream: the distributor restarts it behind a saved position, a batcher cuts it into groups,
 and the loader stamps each group with the position to save. When is nothing skipped and nothing repeated?
 */
module WorkerStream {
  import opened Blocks
  import opened Collections
  import opened DataloaderCursor
  import opened Packing
  import ReplicaBatches
  import opened Wrappers

  // ---------------------------------------------------------------------------------------------
  // The stream behind the cursor
  // ---------------------------------------------------------------------------------------------

  /** One item of a worker's stream: its cursor and the dataset index it is read from. */
  datatype Item = Item(cursor: Cursor, sample: nat)

  /** One worker's share of a dataset: stream `streamId` of `totalStreams`, shuffled per epoch. */
  datatype Stream = Stream(n: nat, streamId: nat, totalStreams: nat, perm: nat -> seq<nat>) {
    ghost predicate Valid() {
      streamId < totalStreams && forall e: nat :: |perm(e)| == n
    }

    /** Whether there is anything for this worker. */
    predicate Active() { streamId < n }

    /** Items per epoch, at least one. */
    function Length(): (l: nat)
      requires streamId < totalStreams && Active()
      ensures l > 0
    {
      |ReplicaBatches.ShardIndices(n, streamId, totalStreams)|
    }

    /** `perm[streamId::totalStreams]`. */
    function Slice(epoch: nat): (slice: seq<nat>)
      requires Valid() && Active()
      ensures |slice| == Length()
    {
      var indices := ReplicaBatches.ShardIndices(n, streamId, totalStreams);
      ReplicaBatches.IndicesInRange(n, streamId, totalStreams);
      seq(|indices|, k requires 0 <= k < |indices| => perm(epoch)[indices[k]])
    }

    /** The `p`-th item of the uninterrupted stream. */
    function ItemAt(p: nat): Item
      requires Valid() && Active()
    {
      Item(CursorAt(p, Length()), Slice(p / Length())[p % Length()])
    }

    /** The stream as a function of the position. */
    ghost function Items(): nat -> Item
      requires Valid() && Active()
    {
      (p: nat) => ItemAt(p)
    }
  }

  /** What a stream has at some positions. */
  ghost function ItemsAt(items: nat -> Item, positions: seq<nat>): seq<Item> {
    if positions == [] then []
    else
      var n := |positions| - 1;
      ItemsAt(items, positions[..n]) + [items(positions[n])]
  }

  function CursorAt(p: nat, length: nat): Cursor
    requires length > 0
  {
    Cursor(p / length, p % length)
  }

  /** `count` positions from `lo` on. */
  function Range(lo: nat, count: nat): seq<nat> {
    seq(count, i requires 0 <= i < count => lo + i)
  }

  /** Where a stream restarts behind a saved position; `(0, -1)` when nothing was saved. */
  function Restart(epoch: nat, index: int, length: nat): nat
    requires index >= -1
  {
    epoch * length + Min(index + 1, length)
  }

  function Get(vars: map<EnvKey, int>, key: EnvKey, default: int): int {
    if key in vars then vars[key] else default
  }

  /** The item is the dataset index `perm[streamId + index * totalStreams]` of its epoch. */
  ghost predicate Reads(s: Stream, item: Item)
    requires s.Valid()
  {
    var c := item.cursor;
    && c.epoch >= 0 && c.index >= 0 && s.streamId + c.index * s.totalStreams < s.n
    && item.sample == s.perm(c.epoch)[s.streamId + c.index * s.totalStreams]
  }

  /** `b` is the place after `a`: the next in the epoch if there is one, else the first of the next epoch. */
  ghost predicate ComesNext(s: Stream, a: Cursor, b: Cursor) {
    b == if s.streamId + (a.index + 1) * s.totalStreams < s.n then Cursor(a.epoch, a.index + 1) else Cursor(a.epoch + 1, 0)
  }

  /** The items are those behind `start`, one after the other. */
  ghost predicate ReadsOn(s: Stream, start: Cursor, items: seq<Item>)
    requires s.Valid()
  {
    forall j {:trigger ReadsAt(s, start, items, j)} | 0 <= j < |items| :: ReadsAt(s, start, items, j)
  }

  ghost predicate ReadsAt(s: Stream, start: Cursor, items: seq<Item>, j: nat)
    requires s.Valid() && j < |items|
  {
    Reads(s, items[j]) && ComesNext(s, if j == 0 then start else items[j - 1].cursor, items[j].cursor)
  }

  lemma {:induction false} ItemsAre(items: nat -> Item, positions: seq<nat>)
    ensures |ItemsAt(items, positions)| == |positions|
    ensures forall j | 0 <= j < |positions| :: ItemsAt(items, positions)[j] == items(positions[j])
  {
    if positions != [] {
      ItemsAre(items, positions[..|positions| - 1]);
    }
  }

  /** Place `k` of the slice exists exactly if its index is below the size of the dataset. */
  lemma InSlice(s: Stream, k: nat)
    requires s.Valid() && s.Active()
    ensures k < s.Length() <==> s.streamId + k * s.totalStreams < s.n
    ensures k < s.Length() ==> forall e: nat :: s.Slice(e)[k] == s.perm(e)[s.streamId + k * s.totalStreams]
  {
    ReplicaBatches.IndicesInRange(s.n, s.streamId, s.totalStreams);
    if s.streamId + k * s.totalStreams < s.n {
      QuotientAtLeast(s.n - 1 - s.streamId, s.totalStreams, k);
    }
  }

  lemma ItemReads(s: Stream, p: nat)
    requires s.Valid() && s.Active()
    ensures Reads(s, s.ItemAt(p))
  {
    InSlice(s, p % s.Length());
  }

  lemma CursorComesNext(s: Stream, p: nat)
    requires s.Valid() && s.Active()
    ensures ComesNext(s, CursorAt(p, s.Length()), CursorAt(p + 1, s.Length()))
  {
    var l, e, k := s.Length(), p / s.Length(), p % s.Length();
    InSlice(s, k + 1);
    assert p == e * l + k;
    if k + 1 < l {
      Decomposition(p + 1, l, e, k + 1);
    } else {
      NextEpoch(e, l);
      Decomposition(p + 1, l, e + 1, 0);
    }
  }

  lemma RestartComesNext(s: Stream, epoch: nat, index: int)
    requires s.Valid() && s.Active() && index >= -1
    ensures ComesNext(s, Cursor(epoch, index), CursorAt(Restart(epoch, index, s.Length()), s.Length()))
  {
    var l := s.Length();
    InSlice(s, index + 1);
    if index + 1 < l {
      Decomposition(Restart(epoch, index, l), l, epoch, index + 1);
    } else {
      NextEpoch(epoch, l);
      Decomposition(Restart(epoch, index, l), l, epoch + 1, 0);
    }
  }

  /** The stream reads at every position, and its positions come one after the other. */
  ghost predicate Flows(s: Stream, stream: nat -> Item, p: nat)
    requires s.Valid()
  {
    Reads(s, stream(p)) && ComesNext(s, stream(p).cursor, stream(p + 1).cursor)
  }

  ghost predicate AllFlows(s: Stream, stream: nat -> Item)
    requires s.Valid()
  {
    forall p: nat {:trigger Flows(s, stream, p)} :: Flows(s, stream, p)
  }

  lemma StreamFlows(s: Stream, p: nat)
    requires s.Valid() && s.Active()
    ensures Flows(s, s.Items(), p)
  {
    ItemReads(s, p);
    CursorComesNext(s, p);
  }

  lemma FlowsOn(s: Stream, start: Cursor, stream: nat -> Item, from: nat, items: seq<Item>, j: nat)
    requires s.Valid() && j < |items| && ComesNext(s, start, stream(from).cursor)
    requires items[j] == stream(from + j) && (j > 0 ==> items[j - 1] == stream(from + j - 1))
    requires Flows(s, stream, from + j) && (j > 0 ==> Flows(s, stream, from + j - 1))
    ensures ReadsAt(s, start, items, j)
  {
  }

  /** The stream from a restart on reads on behind the saved cursor. */
  lemma StreamReadsOn(s: Stream, epoch: nat, index: int, from: nat, count: nat)
    requires s.Valid() && s.Active() && index >= -1 && from == Restart(epoch, index, s.Length())
    ensures ReadsOn(s, Cursor(epoch, index), ItemsAt(s.Items(), Range(from, count)))
  {
    RestartComesNext(s, epoch, index);
    assert ComesNext(s, Cursor(epoch, index), s.Items()(from).cursor);
    forall p: nat ensures Flows(s, s.Items(), p) {
      StreamFlows(s, p);
    }
    RangeReadsOn(s, Cursor(epoch, index), s.Items(), from, count);
  }

  lemma RangeReadsOn(s: Stream, start: Cursor, stream: nat -> Item, from: nat, count: nat)
    requires s.Valid() && AllFlows(s, stream) && ComesNext(s, start, stream(from).cursor)
    ensures ReadsOn(s, start, ItemsAt(stream, Range(from, count)))
  {
    var items := ItemsAt(stream, Range(from, count));
    ItemsAre(stream, Range(from, count));
    forall j: nat | j < |items| ensures ReadsAt(s, start, items, j) {
      assert Flows(s, stream, from + j) && (j > 0 ==> Flows(s, stream, from + j - 1));
      FlowsOn(s, start, stream, from, items, j);
    }
  }

  /** Stream `id` hands out dataset index `x` at place `k` of epoch `e`. */
  ghost predicate HandsOut(s: Stream, e: nat, k: nat, x: nat)
    requires s.Valid()
  {
    s.Active() && exists p: nat :: s.ItemAt(p) == Item(Cursor(e, k), x)
  }

  lemma HandedOutReads(s: Stream, e: nat, k: nat, x: nat, p: nat)
    requires s.Valid() && s.Active() && s.ItemAt(p) == Item(Cursor(e, k), x)
    ensures Reads(s, Item(Cursor(e, k), x))
  {
    ItemReads(s, p);
  }

  lemma PlaceIsHandedOut(s: Stream, e: nat, k: nat, place: nat)
    requires s.Valid() && s.Active() && place == s.streamId + k * s.totalStreams && place < s.n
    ensures HandsOut(s, e, k, s.perm(e)[place])
  {
    InSlice(s, k);
    var p := e * s.Length() + k;
    ItemIs(s, e, k, p);
    assert s.ItemAt(p) == Item(Cursor(e, k), s.perm(e)[place]);
  }

  lemma HandedOutAt(s: Stream, e: nat, k: nat, x: nat, place: nat)
    requires s.Valid() && s.Active() && place == s.streamId + k * s.totalStreams
    ensures HandsOut(s, e, k, x) <==> place < s.n && s.perm(e)[place] == x
  {
    if p: nat :| s.ItemAt(p) == Item(Cursor(e, k), x) {
      HandedOutReads(s, e, k, x, p);
    }
    if place < s.n {
      PlaceIsHandedOut(s, e, k, place);
    }
  }

  lemma PlaceOf(i: nat, totalStreams: nat, id: nat, k: nat)
    requires id < totalStreams
    ensures id + k * totalStreams == i <==> id == i % totalStreams && k == i / totalStreams
  {
    assert i == i % totalStreams + (i / totalStreams) * totalStreams;
    if id + k * totalStreams == i {
      Decomposition(i, totalStreams, k, id);
    }
  }

  lemma PlaceIsFound(row: seq<nat>, i: nat, place: nat)
    requires i < |row| && forall j | 0 <= j < |row| && j != i :: row[j] != row[i]
    ensures place < |row| && row[place] == row[i] <==> place == i
  {
  }

  /** In every epoch, every dataset index is handed out by exactly one stream, at exactly one place. */
  lemma EpochIsPartitioned(n: nat, totalStreams: nat, perm: nat -> seq<nat>, e: nat, i: nat, id: nat, k: nat)
    requires forall e: nat :: |perm(e)| == n
    requires i < n && id < totalStreams && forall j | 0 <= j < n && j != i :: perm(e)[j] != perm(e)[i]
    ensures HandsOut(Stream(n, id, totalStreams, perm), e, k, perm(e)[i]) <==> id == i % totalStreams && k == i / totalStreams
  {
    var place := id + k * totalStreams;
    PlaceOf(i, totalStreams, id, k);
    PlaceIsFound(perm(e), i, place);
    if id < n {
      HandedOutAt(Stream(n, id, totalStreams, perm), e, k, perm(e)[i], place);
    }
  }

  /** The first `count` items of `MapDistributor.stream`, after popping the saved position; a surplus worker has none. */
  method FirstItems(s: Stream, environ: Environ, name: string, worker: int, count: nat) returns (items: seq<Item>)
    requires s.Valid()
    requires s.Active() ==> Get(environ.vars, Epoch(name, worker), 0) >= 0 && Get(environ.vars, Index(name, worker), -1) >= -1
    modifies environ
    ensures !s.Active() ==> items == [] && environ.vars == old(environ.vars)
    ensures s.Active() ==> environ.vars == old(environ.vars) - {Epoch(name, worker), Index(name, worker)}
    ensures s.Active() ==>
      var vars := old(environ.vars);
      var from := Restart(Get(vars, Epoch(name, worker), 0), Get(vars, Index(name, worker), -1), s.Length());
      items == ItemsAt(s.Items(), Range(from, count))
    ensures s.Active() ==>
      var vars := old(environ.vars);
      && |items| == count
      && ReadsOn(s, Cursor(Get(vars, Epoch(name, worker), 0), Get(vars, Index(name, worker), -1)), items)
  {
    if s.streamId >= s.n {
      return [];
    }
    var resumeEpoch: nat := Get(environ.vars, Epoch(name, worker), 0);
    var resumePos := Get(environ.vars, Index(name, worker), -1);
    environ.vars := environ.vars - {Epoch(name, worker), Index(name, worker)};
    items := EpochAfterEpoch(s, resumeEpoch, resumePos, count);
    StreamReadsOn(s, resumeEpoch, resumePos, Restart(resumeEpoch, resumePos, s.Length()), count);
    ItemsAre(s.Items(), Range(Restart(resumeEpoch, resumePos, s.Length()), count));
  }

  /** The generator's loop over epochs and positions. */
  method EpochAfterEpoch(s: Stream, resumeEpoch: nat, resumePos: int, count: nat) returns (items: seq<Item>)
    requires s.Valid() && s.Active() && resumePos >= -1
    ensures items == ItemsAt(s.Items(), Range(Restart(resumeEpoch, resumePos, s.Length()), count))
  {
    var epoch := resumeEpoch;
    ghost var from := Restart(resumeEpoch, resumePos, s.Length());
    items := [];
    while |items| < count
      invariant resumeEpoch <= epoch && |items| <= count && Produced(s, from, items)
      invariant |items| < count ==> from + |items| == if epoch == resumeEpoch then from else epoch * s.Length()
      decreases count - |items|, if epoch == resumeEpoch then 1 else 0
    {
      var start := if epoch == resumeEpoch then Min(resumePos + 1, |s.Slice(epoch)|) else 0;
      items := RestOfEpoch(s, epoch, start, count, items, from);
      NextEpoch(epoch, s.Length());
      epoch := epoch + 1;
    }
  }

  /** The items are the stream's from position `from` on. */
  ghost predicate Produced(s: Stream, from: nat, items: seq<Item>)
    requires s.Valid() && s.Active()
  {
    items == ItemsAt(s.Items(), Range(from, |items|))
  }

  /** The inner loop: the rest of one epoch's slice, while items are asked for. */
  method RestOfEpoch(s: Stream, epoch: nat, start: nat, count: nat, before: seq<Item>, ghost from: nat) returns (items: seq<Item>)
    requires s.Valid() && s.Active() && start <= s.Length() && |before| <= count
    requires Produced(s, from, before) && from + |before| == epoch * s.Length() + start
    ensures Produced(s, from, items) && |items| == Min(|before| + s.Length() - start, count)
  {
    var slice := s.Slice(epoch);
    var pos := start;
    items := before;
    while pos < |slice| && |items| < count
      invariant pos <= |slice| && |items| <= count && |items| - pos == |before| - start
      invariant from + |items| == epoch * s.Length() + pos && Produced(s, from, items)
    {
      var item := Item(Cursor(epoch, pos), slice[pos]);
      NextItem(s, epoch, pos, from, items, item);
      items := items + [item];
      pos := pos + 1;
    }
  }

  lemma {:induction false} NextItem(s: Stream, epoch: nat, pos: nat, from: nat, items: seq<Item>, item: Item)
    requires s.Valid() && s.Active() && pos < s.Length() && from + |items| == epoch * s.Length() + pos
    requires Produced(s, from, items) && item == Item(Cursor(epoch, pos), s.Slice(epoch)[pos])
    ensures Produced(s, from, items + [item])
  {
    var n := |items|;
    assert Range(from, n + 1)[..n] == Range(from, n);
    ItemIs(s, epoch, pos, from + n);
  }

  lemma ItemIs(s: Stream, epoch: nat, pos: nat, p: nat)
    requires s.Valid() && s.Active() && pos < s.Length() && p == epoch * s.Length() + pos
    ensures s.ItemAt(p) == Item(Cursor(epoch, pos), s.Slice(epoch)[pos])
  {
    Decomposition(p, s.Length(), epoch, pos);
  }

  lemma NextEpoch(epoch: nat, length: nat)
    ensures epoch * length + length == (epoch + 1) * length
  {
  }

  lemma CursorLess(p: nat, q: nat, length: nat)
    requires length > 0 && p < q
    ensures Later(CursorAt(q, length), CursorAt(p, length)) && !Later(CursorAt(p, length), CursorAt(q, length))
  {
    assert p == (p / length) * length + p % length;
    assert q == (q / length) * length + q % length;
    QuotientAtLeast(q, length, p / length);
  }

  /** Later in the stream means a later cursor. */
  lemma CursorOrder(p: nat, q: nat, length: nat)
    requires length > 0
    ensures Later(CursorAt(p, length), CursorAt(q, length)) <==> p > q
  {
    if p < q {
      CursorLess(p, q, length);
    } else if p > q {
      CursorLess(q, p, length);
    }
  }

  // ---------------------------------------------------------------------------------------------
  // Stamping
  // ---------------------------------------------------------------------------------------------

  function MaxOf(xs: seq<int>): (m: int)
    requires xs != []
    ensures m in xs && forall x | x in xs :: x <= m
  {
    if |xs| == 1 then xs[0]
    else
      assert xs == xs[..|xs| - 1] + [xs[|xs| - 1]];
      Max(MaxOf(xs[..|xs| - 1]), xs[|xs| - 1])
  }

  function MinOf(xs: seq<int>): (m: int)
    requires xs != []
    ensures m in xs && forall x | x in xs :: m <= x
  {
    if |xs| == 1 then xs[0]
    else
      assert xs == xs[..|xs| - 1] + [xs[|xs| - 1]];
      Min(MinOf(xs[..|xs| - 1]), xs[|xs| - 1])
  }

  function Epochs(group: seq<Cursor>): (xs: seq<int>)
    ensures |xs| == |group|
  {
    seq(|group|, k requires 0 <= k < |group| => group[k].epoch)
  }

  function Indices(group: seq<Cursor>): (xs: seq<int>)
    ensures |xs| == |group|
  {
    seq(|group|, k requires 0 <= k < |group| => group[k].index)
  }

  function IntRange(lo: int, hi: int): seq<int>
    requires lo <= hi
  {
    seq(hi - lo, i requires 0 <= i < hi - lo => lo + i)
  }

  /** One epoch, and the sorted indices are the range from the least to the greatest. */
  predicate Contiguous(group: seq<Cursor>)
    requires group != []
  {
    var indices := Indices(group);
    && MinOf(Epochs(group)) == MaxOf(Epochs(group))
    && multiset(indices) == multiset(IntRange(MinOf(indices), MaxOf(indices) + 1))
  }

  function StampOf(group: seq<Cursor>): Cursor
    requires group != []
  {
    Cursor(MaxOf(Epochs(group)), MaxOf(Indices(group)))
  }

  function Columns(worker: int, rows: nat, stamp: Cursor): Batch {
    Batch(Some(seq(rows, _ => worker)), Some(seq(rows, _ => stamp.epoch)), Some(seq(rows, _ => stamp.index)))
  }

  /** The columns the loader gives a group: its greatest position on every row; a group of several must be contiguous. */
  function Stamped(worker: int, group: seq<Cursor>): Result<Batch, BatchError>
    requires group != []
  {
    if |group| > 1 && !Contiguous(group) then Err(ValueError) else Ok(Columns(worker, |group|, StampOf(group)))
  }

  lemma ColumnRows(worker: int, rows: nat, stamp: Cursor)
    ensures Complete(Columns(worker, rows, stamp)) && UpdateError(Columns(worker, rows, stamp)) == None
    ensures Rows(Columns(worker, rows, stamp)) == seq(rows, _ => Row(worker, stamp))
  {
  }

  function Cursors(group: seq<nat>, length: nat): (cs: seq<Cursor>)
    requires length > 0
    ensures |cs| == |group|
  {
    seq(|group|, k requires 0 <= k < |group| => CursorAt(group[k], length))
  }

  /** The loader lets the group of these positions through. */
  predicate Passes(group: seq<nat>, length: nat)
    requires length > 0
  {
    group != [] && Stamped(0, Cursors(group, length)).Ok?
  }

  function StampAt(group: seq<nat>, length: nat): Cursor
    requires length > 0 && group != []
  {
    StampOf(Cursors(group, length))
  }

  lemma StampedIs(worker: int, group: seq<nat>, length: nat)
    requires length > 0 && group != []
    ensures var r := Stamped(worker, Cursors(group, length));
      && (r.Ok? <==> Passes(group, length))
      && (r.Ok? ==> r.value == Columns(worker, |group|, StampAt(group, length)))
      && (r.Err? ==> r.error == ValueError)
  {
  }

  /** What the loader makes of a group it lets through. */
  ghost predicate StampedRight(batch: Batch, worker: int, group: seq<nat>, length: nat)
    requires length > 0
  {
    Passes(group, length) && batch == Columns(worker, |group|, StampAt(group, length))
  }

  /** The loader's loop over the batcher's groups, until a group is refused. */
  method StampGroups(groups: seq<seq<nat>>, worker: int, length: nat) returns (batches: seq<Batch>, error: Option<BatchError>)
    requires length > 0 && forall k | 0 <= k < |groups| :: groups[k] != []
    ensures |batches| <= |groups| && forall k | 0 <= k < |batches| :: StampedRight(batches[k], worker, groups[k], length)
    ensures error.None? ==> |batches| == |groups|
    ensures error.Some? ==> error == Some(ValueError) && |batches| < |groups| && !Passes(groups[|batches|], length)
  {
    batches := [];
    for k := 0 to |groups|
      invariant |batches| == k && forall j | 0 <= j < k :: StampedRight(batches[j], worker, groups[j], length)
    {
      var batch := Stamped(worker, Cursors(groups[k], length));
      StampedIs(worker, groups[k], length);
      if batch.Err? {
        return batches, Some(batch.error);
      }
      assert StampedRight(batch.value, worker, groups[k], length);
      batches := batches + [batch.value];
    }
    return batches, None;
  }

  // ---------------------------------------------------------------------------------------------
  // Runs of positions
  // ---------------------------------------------------------------------------------------------

  /** The positions are `lo, lo + 1, ...`, in some order; as there are as many as values, each is there once. */
  ghost predicate IsRun(positions: seq<nat>, lo: nat) {
    forall p: nat :: p in positions <==> lo <= p < lo + |positions|
  }

  /** As many positions as values, and every value is there: then each is there once. */
  lemma {:induction false} Pigeonhole(positions: seq<nat>, lo: nat)
    requires forall p: nat | lo <= p < lo + |positions| :: p in positions
    ensures multiset(positions) == multiset(Range(lo, |positions|))
    decreases |positions|
  {
    if positions == [] {
      assert Range(lo, 0) == [];
    } else {
      var last: nat := lo + |positions| - 1;
      var k := IndexIn(positions, last);
      var rest := Without(positions, k);
      forall p: nat | lo <= p < lo + |rest| ensures p in rest {
        var j := IndexIn(positions, p);
        assert rest[if j < k then j else j - 1] == p;
      }
      Pigeonhole(rest, lo);
      WithoutLeaves(positions, k);
      assert Range(lo, |positions|) == Range(lo, |rest|) + [last];
    }
  }

  lemma RunsJoin(a: seq<nat>, b: seq<nat>, lo: nat)
    requires IsRun(a, lo) && IsRun(b, lo + |a|)
    ensures IsRun(a + b, lo)
  {
    forall p: nat ensures p in a + b <==> lo <= p < lo + |a + b| {
      assert p in a + b <==> p in a || p in b;
    }
  }

  // ---------------------------------------------------------------------------------------------
  // Which groups leave no gap
  // ---------------------------------------------------------------------------------------------

  /** `p` is the first position from `from` on that was not handed out. */
  ghost predicate FirstOpen(p: nat, done: seq<nat>, from: nat) {
    p >= from && p !in done && forall q: nat | from <= q < p :: q in done
  }

  /** The group takes positions of the stream that were not handed out before. */
  ghost predicate Undelivered(group: seq<nat>, done: seq<nat>, from: nat) {
    group != [] && forall p: nat | p in group :: p >= from && p !in done
  }

  /** The group contains the first position not handed out. */
  ghost predicate TakesFirst(group: seq<nat>, done: seq<nat>, from: nat) {
    exists p: nat :: p in group && FirstOpen(p, done, from)
  }

  /** Group `k` of a batcher over the stream from `from` on. */
  ghost predicate Cut(groups: seq<seq<nat>>, from: nat, k: nat)
    requires k < |groups|
  {
    Undelivered(groups[k], Flatten(groups[..k]), from)
  }

  ghost predicate InOrder(groups: seq<seq<nat>>, from: nat, k: nat)
    requires k < |groups|
  {
    TakesFirst(groups[k], Flatten(groups[..k]), from)
  }

  /** What has been handed out is exactly the stream up to some position. */
  ghost predicate NoGap(groups: seq<seq<nat>>, from: nat) {
    IsRun(Flatten(groups), from)
  }

  lemma OpenIsNext(p: nat, done: seq<nat>, from: nat)
    requires IsRun(done, from)
    ensures FirstOpen(p, done, from) <==> p == from + |done|
  {
    var next := from + |done|;
    assert next !in done;
    assert p in done <==> from <= p < next;
  }

  lemma Extremes(xs: seq<int>) returns (i: nat, j: nat)
    requires xs != []
    ensures i < |xs| && xs[i] == MinOf(xs) && j < |xs| && xs[j] == MaxOf(xs)
    ensures forall k | 0 <= k < |xs| :: xs[i] <= xs[k] <= xs[j]
  {
    i := IndexIn(xs, MinOf(xs));
    j := IndexIn(xs, MaxOf(xs));
    forall k | 0 <= k < |xs| ensures xs[i] <= xs[k] <= xs[j] {
      assert xs[k] in xs;
    }
  }

  lemma RangeSize(indices: seq<int>, lo: int, hi: int)
    requires lo <= hi && multiset(indices) == multiset(IntRange(lo, hi + 1))
    ensures |indices| == hi + 1 - lo
  {
    assert |indices| == |multiset(indices)| == |multiset(IntRange(lo, hi + 1))|;
  }

  lemma InIntRange(lo: int, hi: int, i: int)
    requires lo <= i < hi
    ensures i in multiset(IntRange(lo, hi))
  {
    assert IntRange(lo, hi)[i - lo] == i;
  }

  /** The cursors of a contiguous group share an epoch, and their indices are `lo` to `hi`. */
  lemma ContiguousFacts(group: seq<Cursor>) returns (e: int, lo: int, hi: int)
    requires group != [] && Contiguous(group)
    ensures StampOf(group) == Cursor(e, hi) && |group| == hi + 1 - lo
    ensures forall k | 0 <= k < |group| :: group[k].epoch == e && lo <= group[k].index <= hi
    ensures forall i | lo <= i <= hi :: Cursor(e, i) in group
  {
    var epochs, indices := Epochs(group), Indices(group);
    var i, j := Extremes(epochs);
    var l, h := Extremes(indices);
    e, lo, hi := epochs[j], indices[l], indices[h];
    RangeSize(indices, lo, hi);
    forall k | 0 <= k < |group| ensures group[k].epoch == e && lo <= group[k].index <= hi {
      assert epochs[i] <= epochs[k] <= epochs[j] && indices[l] <= indices[k] <= indices[h];
    }
    forall i | lo <= i <= hi ensures Cursor(e, i) in group {
      HasIndex(group, e, lo, hi, i);
    }
  }

  lemma HasIndex(group: seq<Cursor>, e: int, lo: int, hi: int, i: int)
    requires lo <= i <= hi && multiset(Indices(group)) == multiset(IntRange(lo, hi + 1))
    requires forall k | 0 <= k < |group| :: group[k].epoch == e
    ensures Cursor(e, i) in group
  {
    InIntRange(lo, hi + 1, i);
    assert i in multiset(Indices(group));
    var k := IndexIn(Indices(group), i);
    assert group[k] == Cursor(e, i);
  }

  lemma CursorOf(p: nat, length: nat)
    requires length > 0
    ensures var c := CursorAt(p, length); p == c.epoch * length + c.index && 0 <= c.index < length && c.epoch >= 0
  {
  }

  /** The position of a cursor of the group is in the group. */
  lemma FromCursor(group: seq<nat>, length: nat, c: Cursor) returns (p: nat)
    requires length > 0 && c in Cursors(group, length)
    ensures p in group && CursorAt(p, length) == c && p == c.epoch * length + c.index
  {
    var k := IndexIn(Cursors(group, length), c);
    p := group[k];
    CursorOf(p, length);
  }

  lemma ToCursor(group: seq<nat>, length: nat, p: nat) returns (k: nat)
    requires length > 0 && p in group
    ensures k < |group| && Cursors(group, length)[k] == CursorAt(p, length)
  {
    k := IndexIn(group, p);
  }

  /** A group the loader lets through is the run of positions from its least one on, stamped with the last. */
  lemma PassingGroup(group: seq<nat>, first: nat, length: nat)
    requires length > 0 && Passes(group, length) && first in group && forall p: nat | p in group :: p >= first
    ensures IsRun(group, first) && StampAt(group, length) == CursorAt(first + |group| - 1, length)
  {
    if |group| == 1 {
      assert group == [first] == Range(first, 1);
      assert Cursors(group, length) == [CursorAt(first, length)];
    } else {
      SeveralPass(group, first, length);
    }
  }

  lemma {:induction false} SeveralPass(group: seq<nat>, first: nat, length: nat)
    requires length > 0 && |group| > 1 && Contiguous(Cursors(group, length))
    requires first in group && forall p: nat | p in group :: p >= first
    ensures IsRun(group, first)
    ensures StampAt(group, length) == CursorAt(first + |group| - 1, length)
  {
    var e, lo, hi := ContiguousFacts(Cursors(group, length));
    var k := ToCursor(group, length, first);
    CursorOf(first, length);
    var least := FromCursor(group, length, Cursor(e, lo));
    var last := FromCursor(group, length, Cursor(e, hi));
    forall p: nat | p in group ensures first <= p < first + |group| {
      var j := ToCursor(group, length, p);
      CursorOf(p, length);
    }
    forall p: nat | first <= p < first + |group| ensures p in group {
      var q := FromCursor(group, length, Cursor(e, p - e * length));
    }
  }

  /** Several positions pass exactly if they are a run within one epoch; a single one always does. */
  lemma PassesIff(group: seq<nat>, first: nat, length: nat)
    requires length > 0 && first in group && forall p: nat | p in group :: p >= first
    ensures Passes(group, length) <==>
      |group| == 1 || (IsRun(group, first) && first / length == (first + |group| - 1) / length)
  {
    if |group| == 1 {
      SinglePasses(group, length);
    } else if Passes(group, length) {
      PassingGroup(group, first, length);
      OneEpoch(group, first, length);
    } else if IsRun(group, first) && first / length == (first + |group| - 1) / length {
      RunPasses(group, first, length);
    }
  }

  /** The first and the last position of a group that passes are of one epoch. */
  lemma OneEpoch(group: seq<nat>, first: nat, length: nat)
    requires length > 0 && |group| > 1 && Contiguous(Cursors(group, length)) && IsRun(group, first)
    ensures first / length == (first + |group| - 1) / length
  {
    var e, lo, hi := ContiguousFacts(Cursors(group, length));
    var last := first + |group| - 1;
    assert first in group && last in group;
    var i := ToCursor(group, length, first);
    var j := ToCursor(group, length, last);
  }

  lemma EpochOf(p: nat, lo: nat, hi: nat, length: nat)
    requires length > 0 && lo <= p <= hi && lo / length == hi / length
    ensures CursorAt(p, length) == Cursor(lo / length, p - (lo / length) * length)
  {
    var e := lo / length;
    QuotientIs(lo, length, e);
    QuotientIs(hi, length, e);
    Decomposition(p, length, e, p - e * length);
  }

  lemma ExtremesOfRange(xs: seq<int>, lo: int, hi: int)
    requires lo < hi && xs != [] && multiset(xs) == multiset(IntRange(lo, hi))
    ensures MinOf(xs) == lo && MaxOf(xs) == hi - 1
  {
    InXs(xs, lo, hi, lo);
    InXs(xs, lo, hi, hi - 1);
    InXs(xs, lo, hi, MinOf(xs));
    InXs(xs, lo, hi, MaxOf(xs));
  }

  lemma InXs(xs: seq<int>, lo: int, hi: int, x: int)
    requires lo <= hi && multiset(xs) == multiset(IntRange(lo, hi))
    ensures x in xs <==> lo <= x < hi
  {
    assert x in xs <==> x in multiset(xs);
    assert x in multiset(IntRange(lo, hi)) <==> x in IntRange(lo, hi);
    if lo <= x < hi {
      InIntRange(lo, hi, x);
    }
  }

  lemma SameEpochContiguous(group: seq<Cursor>, e: int, lo: int, hi: int)
    requires lo < hi && group != [] && forall k | 0 <= k < |group| :: group[k].epoch == e
    requires multiset(Indices(group)) == multiset(IntRange(lo, hi))
    ensures Contiguous(group)
  {
    ExtremesOfRange(Indices(group), lo, hi);
    var i, j := Extremes(Epochs(group));
  }

  /** A run within one epoch is contiguous. */
  lemma RunPasses(group: seq<nat>, first: nat, length: nat)
    requires length > 0 && |group| > 1 && IsRun(group, first) && first / length == (first + |group| - 1) / length
    ensures Passes(group, length)
  {
    var cs, e := Cursors(group, length), first / length;
    forall k | 0 <= k < |cs| ensures cs[k] == Cursor(e, group[k] - e * length) {
      assert group[k] in group;
      EpochOf(group[k], first, first + |group| - 1, length);
    }
    var begin := e * length;
    CursorOf(first, length);
    RunIndices(group, first, cs, begin, first - begin);
    SameEpochContiguous(cs, e, first - begin, first - begin + |group|);
  }

  /** The indices of a run of one epoch are, up to order, consecutive. */
  lemma RunIndices(group: seq<nat>, first: nat, cs: seq<Cursor>, begin: nat, base: nat)
    requires IsRun(group, first) && |cs| == |group| && first == begin + base
    requires forall k | 0 <= k < |cs| :: cs[k].index == group[k] - begin
    ensures multiset(Indices(cs)) == multiset(IntRange(base, base + |group|))
  {
    forall k | 0 <= k < |group| ensures group[k] >= begin {
      assert group[k] in group;
    }
    var indices: seq<nat> := seq(|group|, k requires 0 <= k < |group| => group[k] - begin);
    forall p: nat | base <= p < base + |indices| ensures p in indices {
      var q: nat := p + begin;
      assert q in group;
      var k := IndexIn(group, q);
      assert indices[k] == p;
    }
    Pigeonhole(indices, base);
    assert Indices(cs) == indices && IntRange(base, base + |group|) == Range(base, |group|);
  }

  lemma FlattenSplit(groups: seq<seq<nat>>, k: nat)
    requires k < |groups|
    ensures Flatten(groups[..k + 1]) == Flatten(groups[..k]) + groups[k]
  {
    assert groups[..k + 1] == groups[..k] + [groups[k]];
    FlattenAppend(groups[..k], [groups[k]]);
    assert Flatten([groups[k]]) == groups[k] + Flatten([groups[k]][1..]) == groups[k];
  }

  /** One more group: it leaves no gap exactly if it takes the first open position. */
  lemma NextGroup(groups: seq<seq<nat>>, k: nat, from: nat, length: nat)
    requires length > 0 && k < |groups| && NoGap(groups[..k], from) && Cut(groups, from, k) && Passes(groups[k], length)
    ensures InOrder(groups, from, k) <==> NoGap(groups[..k + 1], from)
    ensures |Flatten(groups[..k + 1])| > 0
    ensures InOrder(groups, from, k) ==>
      StampAt(groups[k], length) == CursorAt(from + |Flatten(groups[..k + 1])| - 1, length)
  {
    FlattenSplit(groups, k);
    JoinGroup(Flatten(groups[..k]), groups[k], from, length);
  }

  lemma {:induction false} JoinGroup(done: seq<nat>, group: seq<nat>, from: nat, length: nat)
    requires length > 0 && IsRun(done, from) && Undelivered(group, done, from) && Passes(group, length)
    ensures TakesFirst(group, done, from) <==> IsRun(done + group, from)
    ensures TakesFirst(group, done, from) ==> StampAt(group, length) == CursorAt(from + |done + group| - 1, length)
  {
    var next := from + |done|;
    TakesNext(group, done, from);
    if next in group {
      PassingGroup(group, next, length);
      RunsJoin(done, group, from);
    } else {
      NotNext(done, group, from);
    }
  }

  lemma TakesNext(group: seq<nat>, done: seq<nat>, from: nat)
    requires IsRun(done, from)
    ensures TakesFirst(group, done, from) <==> from + |done| in group
  {
    OpenIsNext(from + |done|, done, from);
    if p: nat :| p in group && FirstOpen(p, done, from) {
      OpenIsNext(p, done, from);
    }
  }

  lemma NotNext(done: seq<nat>, group: seq<nat>, from: nat)
    requires IsRun(done, from) && group != [] && from + |done| !in group
    ensures !IsRun(done + group, from)
  {
    var next := from + |done|;
    assert next !in done && next !in done + group;
  }

  ghost predicate Accepted(groups: seq<seq<nat>>, from: nat, length: nat)
    requires length > 0
  {
    forall k {:trigger Cut(groups, from, k)} | 0 <= k < |groups| :: Cut(groups, from, k) && Passes(groups[k], length)
  }

  ghost predicate AllInOrder(groups: seq<seq<nat>>, from: nat) {
    forall k {:trigger InOrder(groups, from, k)} | 0 <= k < |groups| :: InOrder(groups, from, k)
  }

  lemma {:induction false} InOrderLeavesNoGap(groups: seq<seq<nat>>, from: nat, length: nat, k: nat)
    requires length > 0 && Accepted(groups, from, length) && AllInOrder(groups, from) && k <= |groups|
    ensures NoGap(groups[..k], from)
    ensures k > 0 ==> |Flatten(groups[..k])| > 0
    ensures k > 0 ==>
      Cut(groups, from, k - 1) && StampAt(groups[k - 1], length) == CursorAt(from + |Flatten(groups[..k])| - 1, length)
  {
    if k == 0 {
      assert Flatten(groups[..0]) == [] == Range(from, 0);
    } else {
      InOrderLeavesNoGap(groups, from, length, k - 1);
      NextGroup(groups, k - 1, from, length);
      FlattenSplit(groups, k - 1);
    }
  }

  lemma GroupStamp(groups: seq<seq<nat>>, from: nat, length: nat, g: nat) returns (p: nat)
    requires length > 0 && Accepted(groups, from, length) && AllInOrder(groups, from) && g < |groups|
    ensures groups[g] != [] && StampAt(groups[g], length) == CursorAt(p, length)
    ensures p + 1 == from + |Flatten(groups[..g + 1])|
  {
    InOrderLeavesNoGap(groups, from, length, g);
    NextGroup(groups, g, from, length);
    p := from + |Flatten(groups[..g + 1])| - 1;
  }

  /**
   Main result on batchers: with the loader's guard alone, what has been handed out is gap-free after every group
   if and only if every group takes the first position not handed out.
   */
  lemma GapFreeIff(groups: seq<seq<nat>>, from: nat, length: nat)
    requires length > 0 && Accepted(groups, from, length)
    ensures AllInOrder(groups, from) <==> forall k: nat | k <= |groups| :: NoGap(groups[..k], from)
  {
    if AllInOrder(groups, from) {
      forall k: nat | k <= |groups| ensures NoGap(groups[..k], from) {
        InOrderLeavesNoGap(groups, from, length, k);
      }
    }
    if forall k: nat | k <= |groups| :: NoGap(groups[..k], from) {
      forall k | 0 <= k < |groups| ensures InOrder(groups, from, k) {
        assert NoGap(groups[..k], from) && NoGap(groups[..k + 1], from);
        NextGroup(groups, k, from, length);
      }
    }
  }

  /** An input the guard does not catch: groups of one, out of order. After the first the cursor is past item 0. */
  lemma ReorderedSinglesSkip(groups: seq<seq<nat>>, length: nat)
    requires length > 1 && groups == [[1], [0]]
    ensures Accepted(groups, 0, length) && !AllInOrder(groups, 0) && !NoGap(groups[..1], 0)
    ensures StampAt(groups[0], length) == Cursor(0, 1)
  {
    FlattenSplit(groups, 0);
    assert Flatten(groups[..0]) == [] == Range(0, 0);
    SinglePasses(groups[0], length);
    SinglePasses(groups[1], length);
    SinglesCut(groups);
    assert groups[0][0] == 1;
    var handedOut, one: nat := Flatten(groups[..1]), 1;
    assert handedOut[0] == one && one in handedOut;
    NextGroup(groups, 0, 0, length);
    QuotientIs(1, length, 0);
  }

  lemma SinglesCut(groups: seq<seq<nat>>)
    requires groups == [[1], [0]]
    ensures Cut(groups, 0, 0) && Cut(groups, 0, 1)
  {
    FlattenSplit(groups, 0);
    assert Flatten(groups[..0]) == [];
  }

  lemma SinglePasses(group: seq<nat>, length: nat)
    requires length > 0 && |group| == 1
    ensures Passes(group, length) && StampAt(group, length) == CursorAt(group[0], length)
  {
    assert Cursors(group, length) == [CursorAt(group[0], length)];
  }
}
