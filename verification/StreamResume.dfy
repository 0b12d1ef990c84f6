/**
 Resuming the streams: a run hands out groups of many streams, a checkpoint saves the cursors, and every
 stream restarts behind the cursor saved under its worker id. Where is that, and what comes then?
 */
module StreamResume {
  import opened Batchers
  import opened Blocks
  import opened Collections
  import opened DataloaderCursor
  import opened Packing
  import opened WorkerStream
  import opened Wrappers

  // ---------------------------------------------------------------------------------------------
  // One cursor
  // ---------------------------------------------------------------------------------------------

  ghost predicate IsPosition(c: Cursor) {
    c.epoch >= 0 && c.index >= 0
  }

  /** The position of a cursor in a stream of `length` items per epoch; a longer stream's surplus counts as the last. */
  function PositionOf(c: Cursor, length: nat): int {
    c.epoch * length + Min(c.index, length - 1)
  }

  /** The state restarts the worker's stream at position `c`. */
  ghost predicate Tracks(state: WorkerStates, worker: int, c: nat, length: nat) {
    if worker in state then IsPosition(state[worker]) && PositionOf(state[worker], length) + 1 == c else c == 0
  }

  /** Cursor `c` is ahead of the first `consumed` items of a stream. */
  ghost predicate Ahead(c: Cursor, consumed: nat, length: nat) {
    PositionOf(c, length) >= consumed
  }

  lemma PositionIs(p: nat, length: nat)
    requires length > 0
    ensures IsPosition(CursorAt(p, length)) && PositionOf(CursorAt(p, length), length) == p
  {
    assert p == (p / length) * length + p % length;
  }

  /** A later cursor has no lower position. */
  lemma PositionMonotone(a: Cursor, b: Cursor, length: nat)
    requires IsPosition(a) && IsPosition(b) && !Later(a, b)
    ensures PositionOf(a, length) <= PositionOf(b, length)
  {
    if a.epoch < b.epoch {
      MulLe(a.epoch + 1, b.epoch, length);
      NextEpoch(a.epoch, length);
    }
  }

  /** Being ahead is a comparison of cursors: of this one, cut to the stream's length, with the last one consumed. */
  lemma AheadIsLater(c: Cursor, consumed: nat, length: nat)
    requires length > 0 && IsPosition(c) && consumed > 0
    ensures Ahead(c, consumed, length) <==> Later(Cursor(c.epoch, Min(c.index, length - 1)), CursorAt(consumed - 1, length))
  {
    var p := PositionOf(c, length);
    Decomposition(p, length, c.epoch, Min(c.index, length - 1));
    CursorOrder(p, consumed - 1, length);
  }

  // ---------------------------------------------------------------------------------------------
  // One worker id
  // ---------------------------------------------------------------------------------------------

  /** Every row of the worker carries a position. */
  ghost predicate AllPositions(seen: seq<Row>, worker: int) {
    forall k | 0 <= k < |seen| && seen[k].worker == worker :: IsPosition(seen[k].cursor)
  }

  ghost predicate SomeAhead(seen: seq<Row>, worker: int, consumed: nat, length: nat) {
    exists k :: 0 <= k < |seen| && seen[k].worker == worker && Ahead(seen[k].cursor, consumed, length)
  }

  /** A row of the worker carries the last position consumed. */
  ghost predicate HasLast(seen: seq<Row>, worker: int, consumed: nat, length: nat) {
    exists k :: 0 <= k < |seen| && seen[k].worker == worker && PositionOf(seen[k].cursor, length) + 1 == consumed
  }

  /** No row is further than the state. */
  lemma RowBelow(start: WorkerStates, end: WorkerStates, seen: seq<Row>, worker: int, length: nat, k: nat)
    requires Continues(start, end, seen) && k < |seen| && seen[k].worker == worker
    requires IsPosition(seen[k].cursor) && worker in end && IsPosition(end[worker])
    ensures PositionOf(seen[k].cursor, length) <= PositionOf(end[worker], length)
  {
    PositionMonotone(seen[k].cursor, end[worker], length);
  }

  lemma EndIsPosition(start: WorkerStates, end: WorkerStates, seen: seq<Row>, worker: int)
    requires Continues(start, end, seen) && AllPositions(seen, worker)
    requires worker in start ==> IsPosition(start[worker])
    ensures worker in end ==> IsPosition(end[worker])
  {
    if worker in end && Row(worker, end[worker]) in seen {
      var k := IndexIn(seen, Row(worker, end[worker]));
    }
  }

  /**
   A session that starts at position `from` of the worker's stream and hands out its items up to `consumed` ends with
   a cursor that restarts it there, exactly if no row under the worker's id is ahead of them.
   */
  lemma SessionTracks(start: WorkerStates, end: WorkerStates, seen: seq<Row>, worker: int, from: nat, consumed: nat, length: nat)
    requires Continues(start, end, seen) && AllPositions(seen, worker)
    requires Tracks(start, worker, from, length) && from <= consumed
    requires from < consumed ==> HasLast(seen, worker, consumed, length)
    requires length > 0
    ensures Tracks(end, worker, consumed, length) <==> !SomeAhead(seen, worker, consumed, length)
    ensures worker in end ==> IsPosition(end[worker])
  {
    EndIsPosition(start, end, seen, worker);
    AtLeastConsumed(start, end, seen, worker, from, consumed, length);
    if SomeAhead(seen, worker, consumed, length) {
      var k :| 0 <= k < |seen| && seen[k].worker == worker && Ahead(seen[k].cursor, consumed, length);
      RowBelow(start, end, seen, worker, length, k);
    } else if worker in end {
      AtMostConsumed(start, end, seen, worker, from, consumed, length);
    }
  }

  lemma AtLeastConsumed(start: WorkerStates, end: WorkerStates, seen: seq<Row>, worker: int, from: nat, consumed: nat, length: nat)
    requires Continues(start, end, seen) && AllPositions(seen, worker)
    requires Tracks(start, worker, from, length) && from <= consumed
    requires from < consumed ==> HasLast(seen, worker, consumed, length)
    requires worker in end ==> IsPosition(end[worker])
    requires length > 0
    ensures if worker in end then PositionOf(end[worker], length) + 1 >= consumed else consumed == 0
  {
    if from < consumed {
      var k :| 0 <= k < |seen| && seen[k].worker == worker && PositionOf(seen[k].cursor, length) + 1 == consumed;
      RowBelow(start, end, seen, worker, length, k);
    } else if worker in start {
      PositionMonotone(start[worker], end[worker], length);
    } else if worker in end {
      NotNegative(end[worker], length);
    }
  }

  lemma NotNegative(c: Cursor, length: nat)
    requires IsPosition(c) && length > 0
    ensures PositionOf(c, length) >= 0
  {
  }

  lemma AtMostConsumed(start: WorkerStates, end: WorkerStates, seen: seq<Row>, worker: int, from: nat, consumed: nat, length: nat)
    requires Continues(start, end, seen) && worker in end
    requires Tracks(start, worker, from, length) && from <= consumed && !SomeAhead(seen, worker, consumed, length)
    ensures PositionOf(end[worker], length) + 1 <= consumed
  {
    if Row(worker, end[worker]) in seen {
      var k := IndexIn(seen, Row(worker, end[worker]));
      assert !Ahead(seen[k].cursor, consumed, length);
    }
  }

  // ---------------------------------------------------------------------------------------------
  // A session of the run
  // ---------------------------------------------------------------------------------------------

  /** One batch of the run: the rank that fetched it, its dataset and worker, and the positions in that worker's stream. */
  datatype Delivery = Delivery(owner: nat, dataset: string, worker: nat, group: seq<nat>)

  /** Items per epoch of the stream of a rank's worker on a dataset. */
  type Lengths = (nat, string, nat) -> nat

  ghost predicate Deliverable(d: Delivery, lengths: Lengths) {
    d.group != [] && lengths(d.owner, d.dataset, d.worker) > 0
  }

  ghost predicate AllDeliverable(ds: seq<Delivery>, lengths: Lengths) {
    forall k | 0 <= k < |ds| :: Deliverable(ds[k], lengths)
  }

  ghost function StampIn(d: Delivery, lengths: Lengths): Cursor
    requires Deliverable(d, lengths)
  {
    StampAt(d.group, lengths(d.owner, d.dataset, d.worker))
  }

  /** What the ranks see of a delivery: the batch, with the stamp on each of its rows. */
  datatype Tag = Tag(owner: nat, dataset: string, worker: nat, rows: nat, stamp: Cursor)

  ghost function TagOf(d: Delivery, lengths: Lengths): Tag
    requires Deliverable(d, lengths)
  {
    Tag(d.owner, d.dataset, d.worker, |d.group|, StampIn(d, lengths))
  }

  ghost function TagsOf(ds: seq<Delivery>, lengths: Lengths): seq<Tag>
    requires AllDeliverable(ds, lengths)
  {
    seq(|ds|, k requires 0 <= k < |ds| => TagOf(ds[k], lengths))
  }

  ghost function Batches(tags: seq<Tag>): seq<NamedBatch> {
    seq(|tags|, k requires 0 <= k < |tags| =>
      NamedBatch(tags[k].owner, Some(tags[k].dataset), Columns(tags[k].worker, tags[k].rows, tags[k].stamp)))
  }

  ghost function BatchesOf(ds: seq<Delivery>, lengths: Lengths): seq<NamedBatch>
    requires AllDeliverable(ds, lengths)
  {
    Batches(TagsOf(ds, lengths))
  }

  /** The rows of a dataset are the stamps of its batches. */
  lemma TagRow(tags: seq<Tag>, name: string, k: nat)
    requires k < |tags| && tags[k].dataset == name && tags[k].rows > 0
    ensures Row(tags[k].worker, tags[k].stamp) in RowsOf(name, Batches(tags))
  {
    var t, row := tags[k], Row(tags[k].worker, tags[k].stamp);
    ColumnRows(t.worker, t.rows, t.stamp);
    assert RowsFor(name, Batches(tags)[k])[0] == row;
    RowsComeFromBatches(name, Batches(tags), row);
  }

  lemma RowOfTag(tags: seq<Tag>, name: string, row: Row) returns (k: nat)
    requires row in RowsOf(name, Batches(tags))
    ensures k < |tags| && tags[k].dataset == name && row == Row(tags[k].worker, tags[k].stamp)
  {
    RowsComeFromBatches(name, Batches(tags), row);
    k :| 0 <= k < |tags| && row in RowsFor(name, Batches(tags)[k]);
    ColumnRows(tags[k].worker, tags[k].rows, tags[k].stamp);
  }

  predicate IsOf(d: Delivery, name: string, worker: nat) {
    d.dataset == name && d.worker == worker
  }

  /** The groups rank `r`'s own worker handed out. */
  ghost function OwnGroups(ds: seq<Delivery>, r: nat, name: string, worker: nat): seq<seq<nat>> {
    if ds == [] then []
    else
      var n := |ds| - 1;
      OwnGroups(ds[..n], r, name, worker) + if ds[n].owner == r && IsOf(ds[n], name, worker) then [ds[n].group] else []
  }

  lemma {:induction false} OwnGroupIsDelivered(ds: seq<Delivery>, r: nat, name: string, worker: nat, g: nat) returns (k: nat)
    requires g < |OwnGroups(ds, r, name, worker)|
    ensures k < |ds| && ds[k].owner == r && IsOf(ds[k], name, worker) && ds[k].group == OwnGroups(ds, r, name, worker)[g]
  {
    var n := |ds| - 1;
    if g < |OwnGroups(ds[..n], r, name, worker)| {
      k := OwnGroupIsDelivered(ds[..n], r, name, worker, g);
    } else {
      k := n;
    }
  }

  lemma {:induction false} DeliveredIsOwnGroup(ds: seq<Delivery>, r: nat, name: string, worker: nat, k: nat) returns (g: nat)
    requires k < |ds| && ds[k].owner == r && IsOf(ds[k], name, worker)
    ensures g < |OwnGroups(ds, r, name, worker)| && OwnGroups(ds, r, name, worker)[g] == ds[k].group
  {
    var n := |ds| - 1;
    if k < n {
      g := DeliveredIsOwnGroup(ds[..n], r, name, worker, k);
    } else {
      g := |OwnGroups(ds[..n], r, name, worker)|;
    }
  }

  lemma StampIsPosition(group: seq<nat>, length: nat)
    requires length > 0 && group != []
    ensures IsPosition(StampAt(group, length))
  {
    var cs := Cursors(group, length);
    var i, j := Extremes(Epochs(cs));
    var l, h := Extremes(Indices(cs));
    CursorOf(group[j], length);
    CursorOf(group[h], length);
  }

  /** A peer of the context-parallel group handed out, under the same worker id, a position that is ahead. */
  ghost predicate PeerTagAhead(tags: seq<Tag>, r: nat, name: string, worker: nat, consumed: nat, length: nat) {
    exists k :: 0 <= k < |tags| && tags[k].owner != r && TagIs(tags[k], name, worker) && Ahead(tags[k].stamp, consumed, length)
  }

  ghost predicate TagIs(t: Tag, name: string, worker: nat) {
    t.dataset == name && t.worker == worker && t.rows > 0
  }

  ghost predicate PeerAhead(ds: seq<Delivery>, lengths: Lengths, r: nat, name: string, worker: nat, consumed: nat)
    requires AllDeliverable(ds, lengths)
  {
    PeerTagAhead(TagsOf(ds, lengths), r, name, worker, consumed, lengths(r, name, worker))
  }

  /**
   What a worker's batcher has settled from position `from` on: the groups handed out, and among them single items
   discarded, up to the last group; each lets the first open position go.
   */
  ghost predicate Settles(settled: seq<seq<nat>>, own: seq<seq<nat>>, from: nat, length: nat)
    requires length > 0
  {
    && Accepted(settled, from, length) && AllInOrder(settled, from)
    && (forall g {:trigger SettledAt(settled, own, g)} | 0 <= g < |own| :: SettledAt(settled, own, g))
    && (forall i {:trigger HandedOutOrSingle(settled, own, i)} | 0 <= i < |settled| :: HandedOutOrSingle(settled, own, i))
    && (settled != [] ==> own != [] && own[|own| - 1] == settled[|settled| - 1])
  }

  ghost predicate SettledAt(settled: seq<seq<nat>>, own: seq<seq<nat>>, g: nat)
    requires g < |own|
  {
    own[g] in settled
  }

  ghost predicate HandedOutOrSingle(settled: seq<seq<nat>>, own: seq<seq<nat>>, i: nat)
    requires i < |settled|
  {
    settled[i] in own || |settled[i]| == 1
  }

  /** Rank `r`'s own worker has settled its stream from position `from` on in this way. */
  ghost predicate OwnStream(ds: seq<Delivery>, lengths: Lengths, r: nat, name: string, worker: nat, from: nat,
                            settled: seq<seq<nat>>)
    requires lengths(r, name, worker) > 0
  {
    Settles(settled, OwnGroups(ds, r, name, worker), from, lengths(r, name, worker))
  }

  /** Without discarded items, what is settled is what was handed out. */
  lemma NothingDiscarded(own: seq<seq<nat>>, from: nat, length: nat)
    requires length > 0 && Accepted(own, from, length) && AllInOrder(own, from)
    ensures Settles(own, own, from, length)
  {
  }

  /** The groups a batcher handed out, among everything it has settled. */
  function Yielded(settled: seq<seq<nat>>, yielded: seq<bool>): seq<seq<nat>>
    requires |settled| == |yielded|
  {
    if settled == [] then []
    else
      var n := |settled| - 1;
      Yielded(settled[..n], yielded[..n]) + if yielded[n] then [settled[n]] else []
  }

  lemma {:induction false} YieldedAreSettled(settled: seq<seq<nat>>, yielded: seq<bool>)
    requires |settled| == |yielded|
    ensures forall group | group in Yielded(settled, yielded) :: group in settled
    ensures forall k | 0 <= k < |settled| && yielded[k] :: settled[k] in Yielded(settled, yielded)
  {
    if settled != [] {
      var n := |settled| - 1;
      YieldedAreSettled(settled[..n], yielded[..n]);
      assert settled == settled[..n] + [settled[n]];
      forall k | 0 <= k < |settled| && yielded[k] ensures settled[k] in Yielded(settled, yielded) {
        if k < n {
          assert settled[..n][k] in Yielded(settled[..n], yielded[..n]);
        }
      }
    }
  }

  /** The batcher's first `n` decisions, the last of them a group, settle the stream if the loader lets the groups through. */
  lemma BatcherSettles(settled: seq<seq<nat>>, yielded: seq<bool>, n: nat, from: nat, length: nat)
    requires length > 0 && n <= |settled| == |yielded| && AllTaken(settled, from)
    requires forall k | 0 <= k < n :: if yielded[k] then Passes(settled[k], length) else |settled[k]| == 1
    requires n > 0 ==> yielded[n - 1]
    ensures Settles(settled[..n], Yielded(settled[..n], yielded[..n]), from, length)
  {
    var first, own := settled[..n], Yielded(settled[..n], yielded[..n]);
    YieldedAreSettled(first, yielded[..n]);
    forall k | 0 <= k < n ensures Cut(first, from, k) && Passes(first[k], length) && InOrder(first, from, k) {
      assert first[..k] == settled[..k] && Cut(settled, from, k) && InOrder(settled, from, k);
      if !yielded[k] {
        SinglePasses(settled[k], length);
      }
    }
    forall g | 0 <= g < |own| ensures SettledAt(first, own, g) {
      assert own[g] in own;
    }
    forall i | 0 <= i < n ensures HandedOutOrSingle(first, own, i) {
      assert first[i] == settled[i] && (yielded[..n][i] ==> first[i] in own);
    }
  }

  /** All of the rank's own tags are behind, and the last of them, if there is one, carries the last position. */
  ghost predicate OwnTags(tags: seq<Tag>, r: nat, name: string, worker: nat, from: nat, consumed: nat, length: nat) {
    && (forall k | 0 <= k < |tags| :: tags[k].rows > 0 && IsPosition(tags[k].stamp))
    && (forall k | 0 <= k < |tags| && tags[k].owner == r && TagIs(tags[k], name, worker) :: !Ahead(tags[k].stamp, consumed, length))
    && (from < consumed ==>
          exists k :: 0 <= k < |tags| && TagIs(tags[k], name, worker) && PositionOf(tags[k].stamp, length) + 1 == consumed)
  }

  lemma PrefixIsShorter(groups: seq<seq<nat>>, k: nat)
    requires k <= |groups|
    ensures |Flatten(groups[..k])| <= |Flatten(groups)|
  {
    assert groups == groups[..k] + groups[k..];
    FlattenAppend(groups[..k], groups[k..]);
  }

  /** A group is stamped with a position that has been consumed; the last one with the last position. */
  lemma OwnStamp(groups: seq<seq<nat>>, from: nat, length: nat, g: nat)
    requires length > 0 && Accepted(groups, from, length) && AllInOrder(groups, from) && g < |groups|
    ensures groups[g] != [] && IsPosition(StampAt(groups[g], length))
    ensures PositionOf(StampAt(groups[g], length), length) < from + |Flatten(groups)|
    ensures g == |groups| - 1 ==> PositionOf(StampAt(groups[g], length), length) + 1 == from + |Flatten(groups)|
  {
    var p := GroupStamp(groups, from, length, g);
    PrefixIsShorter(groups, g + 1);
    assert groups[..|groups|] == groups;
    PositionIs(p, length);
  }

  /** The group is stamped with a position below `consumed`. */
  ghost predicate GroupBehind(group: seq<nat>, consumed: nat, length: nat)
    requires length > 0
  {
    group != [] && IsPosition(StampAt(group, length)) && PositionOf(StampAt(group, length), length) < consumed
  }

  /** All groups are stamped with positions below `consumed`, and the last one with the last of them. */
  ghost predicate AllBehind(own: seq<seq<nat>>, from: nat, consumed: nat, length: nat)
    requires length > 0
  {
    && (forall g | 0 <= g < |own| :: GroupBehind(own[g], consumed, length))
    && (from < consumed ==> own != [] && own[|own| - 1] != [] && PositionOf(StampAt(own[|own| - 1], length), length) + 1 == consumed)
  }

  lemma SettledBehind(settled: seq<seq<nat>>, own: seq<seq<nat>>, from: nat, length: nat, g: nat)
    requires length > 0 && Settles(settled, own, from, length) && g < |own|
    ensures GroupBehind(own[g], from + |Flatten(settled)|, length)
  {
    assert SettledAt(settled, own, g);
    var i := IndexIn(settled, own[g]);
    OwnStamp(settled, from, length, i);
  }

  /** What is settled is the stream without a gap, and the stamps of the groups handed out tell how far it is. */
  lemma SettledFacts(settled: seq<seq<nat>>, own: seq<seq<nat>>, from: nat, length: nat)
    requires length > 0 && Settles(settled, own, from, length)
    ensures NoGap(settled, from) && AllBehind(own, from, from + |Flatten(settled)|, length)
  {
    InOrderLeavesNoGap(settled, from, length, |settled|);
    assert settled[..|settled|] == settled;
    forall g | 0 <= g < |own| ensures GroupBehind(own[g], from + |Flatten(settled)|, length) {
      SettledBehind(settled, own, from, length, g);
    }
    if settled != [] {
      OwnStamp(settled, from, length, |settled| - 1);
    }
  }

  lemma OwnTagsAre(ds: seq<Delivery>, lengths: Lengths, r: nat, name: string, worker: nat, from: nat, consumed: nat)
    requires AllDeliverable(ds, lengths) && lengths(r, name, worker) > 0
    requires AllBehind(OwnGroups(ds, r, name, worker), from, consumed, lengths(r, name, worker))
    ensures OwnTags(TagsOf(ds, lengths), r, name, worker, from, consumed, lengths(r, name, worker))
  {
    var tags, own, length := TagsOf(ds, lengths), OwnGroups(ds, r, name, worker), lengths(r, name, worker);
    forall k | 0 <= k < |tags| ensures tags[k].rows > 0 && IsPosition(tags[k].stamp) {
      assert Deliverable(ds[k], lengths);
      StampIsPosition(ds[k].group, lengths(ds[k].owner, ds[k].dataset, ds[k].worker));
    }
    forall k | 0 <= k < |tags| && tags[k].owner == r && TagIs(tags[k], name, worker)
      ensures !Ahead(tags[k].stamp, consumed, length)
    {
      var g := DeliveredIsOwnGroup(ds, r, name, worker, k);
      assert GroupBehind(own[g], consumed, length);
    }
    if from < consumed {
      var k := OwnGroupIsDelivered(ds, r, name, worker, |own| - 1);
      assert TagIs(tags[k], name, worker);
    }
  }

  /** The rank's own rows are never ahead, so a row ahead is a peer's. */
  lemma AheadIsPeers(tags: seq<Tag>, r: nat, name: string, worker: nat, from: nat, consumed: nat, length: nat)
    requires OwnTags(tags, r, name, worker, from, consumed, length)
    ensures SomeAhead(RowsOf(name, Batches(tags)), worker, consumed, length)
            <==> PeerTagAhead(tags, r, name, worker, consumed, length)
    ensures AllPositions(RowsOf(name, Batches(tags)), worker)
    ensures from < consumed ==> HasLast(RowsOf(name, Batches(tags)), worker, consumed, length)
  {
    var rows := RowsOf(name, Batches(tags));
    if j :| 0 <= j < |rows| && rows[j].worker == worker && Ahead(rows[j].cursor, consumed, length) {
      var k := RowOfTag(tags, name, rows[j]);
    }
    if k :| 0 <= k < |tags| && tags[k].owner != r && TagIs(tags[k], name, worker) && Ahead(tags[k].stamp, consumed, length) {
      TagRow(tags, name, k);
      var j := IndexIn(rows, Row(worker, tags[k].stamp));
    }
    forall j | 0 <= j < |rows| && rows[j].worker == worker ensures IsPosition(rows[j].cursor) {
      var k := RowOfTag(tags, name, rows[j]);
    }
    if from < consumed {
      var k :| 0 <= k < |tags| && TagIs(tags[k], name, worker) && PositionOf(tags[k].stamp, length) + 1 == consumed;
      TagRow(tags, name, k);
      var j := IndexIn(rows, Row(worker, tags[k].stamp));
    }
  }

  /** A session over tagged batches. */
  lemma TagsTrack(r: nat, start: Joint, tags: seq<Tag>, name: string, worker: nat, from: nat, consumed: nat, length: nat)
    requires start.globalId.GlobalId? && name in start.inner && length > 0 && from <= consumed
    requires Tracks(start.inner[name], worker, from, length) && OwnTags(tags, r, name, worker, from, consumed, length)
    ensures var end := AfterBatches(r, start, Batches(tags));
      && name in end.inner && (worker in end.inner[name] ==> IsPosition(end.inner[name][worker]))
      && (Tracks(end.inner[name], worker, consumed, length) <==> !PeerTagAhead(tags, r, name, worker, consumed, length))
  {
    var end := AfterBatches(r, start, Batches(tags));
    RunTracksDatasets(r, start, Batches(tags), name);
    AheadIsPeers(tags, r, name, worker, from, consumed, length);
    SessionTracks(start.inner[name], end.inner[name], RowsOf(name, Batches(tags)), worker, from, consumed, length);
  }

  /** At the end of a session the state restarts the worker's stream at `consumed`, exactly if no peer is ahead. */
  ghost predicate RestartsUnlessAhead(end: Joint, ds: seq<Delivery>, lengths: Lengths, r: nat, name: string, worker: nat,
                                      consumed: nat, length: nat)
    requires AllDeliverable(ds, lengths)
  {
    && name in end.inner && (worker in end.inner[name] ==> IsPosition(end.inner[name][worker]))
    && (Tracks(end.inner[name], worker, consumed, length) <==> !PeerAhead(ds, lengths, r, name, worker, consumed))
  }

  lemma SessionBehind(r: nat, start: Joint, ds: seq<Delivery>, lengths: Lengths, name: string, worker: nat, from: nat,
                      consumed: nat, length: nat)
    requires start.globalId.GlobalId? && name in start.inner && AllDeliverable(ds, lengths)
    requires length == lengths(r, name, worker) && length > 0 && from <= consumed
    requires Tracks(start.inner[name], worker, from, length)
    requires AllBehind(OwnGroups(ds, r, name, worker), from, consumed, length)
    ensures RestartsUnlessAhead(AfterBatches(r, start, BatchesOf(ds, lengths)), ds, lengths, r, name, worker, consumed, length)
  {
    OwnTagsAre(ds, lengths, r, name, worker, from, consumed);
    TagsTrack(r, start, TagsOf(ds, lengths), name, worker, from, consumed, length);
  }

  /**
   Main result on streams, for one session of rank `r`, started with any state that restarts the worker's stream at
   `from`: what the worker handed out or discarded is the stream from there on without a gap, and the state at the end restarts
   it at the first item after those, exactly if no peer's cursor under the same worker id is ahead.
   */
  lemma SessionResumes(r: nat, start: Joint, ds: seq<Delivery>, lengths: Lengths, name: string, worker: nat, from: nat,
                       settled: seq<seq<nat>>)
    requires start.globalId.GlobalId? && name in start.inner && AllDeliverable(ds, lengths) && lengths(r, name, worker) > 0
    requires Tracks(start.inner[name], worker, from, lengths(r, name, worker))
    requires OwnStream(ds, lengths, r, name, worker, from, settled)
    ensures NoGap(settled, from)
    ensures RestartsUnlessAhead(AfterBatches(r, start, BatchesOf(ds, lengths)), ds, lengths, r, name, worker,
                                from + |Flatten(settled)|, lengths(r, name, worker))
  {
    SettledFacts(settled, OwnGroups(ds, r, name, worker), from, lengths(r, name, worker));
    SessionBehind(r, start, ds, lengths, name, worker, from, from + |Flatten(settled)|, lengths(r, name, worker));
  }

  // ---------------------------------------------------------------------------------------------
  // From the run to the stream that continues it
  // ---------------------------------------------------------------------------------------------

  /** The environment restarts the worker's stream at position `c`. */
  ghost predicate Resumes(vars: map<EnvKey, int>, name: string, worker: int, c: nat, length: nat) {
    var epoch, index := Get(vars, Epoch(name, worker), 0), Get(vars, Index(name, worker), -1);
    epoch >= 0 && index >= -1 && Restart(epoch, index, length) == c
  }

  /** The environment holds the worker's cursor, and nothing for a worker without one. */
  ghost predicate Holds(state: WorkerStates, worker: int, name: string, vars: map<EnvKey, int>) {
    && Get(vars, Epoch(name, worker), 0) == (if worker in state then state[worker].epoch else 0)
    && Get(vars, Index(name, worker), -1) == (if worker in state then state[worker].index else -1)
  }

  lemma ExportedCursor(names: set<string>, saved: Joint, name: string, worker: int,
                       start: map<EnvKey, int>, vars: map<EnvKey, int>)
    requires name in names && name in saved.inner && JointExported(vars, start, names, JointStateDict(saved))
    requires Epoch(name, worker) !in start && Index(name, worker) !in start
    ensures Holds(saved.inner[name], worker, name, vars)
  {
    var d := JointStateDict(saved);
    assert d[name] == Inner(saved.inner[name]);
    assert Exports(names, d, Epoch(name, worker)) == (worker in saved.inner[name]);
    assert Exports(names, d, Index(name, worker)) == (worker in saved.inner[name]);
  }

  lemma HeldResumes(state: WorkerStates, worker: int, name: string, vars: map<EnvKey, int>, c: nat, length: nat)
    requires Holds(state, worker, name, vars) && (worker in state ==> IsPosition(state[worker])) && length > 0
    ensures Resumes(vars, name, worker, c, length) <==> Tracks(state, worker, c, length)
  {
  }

  /**
   Main result: after a run from scratch over any deliveries, a joint checkpoint and its load, the environment restarts
   rank `r`'s worker at the first item it has neither handed out nor discarded, exactly if no peer's cursor under its id is ahead.
   */
  lemma JointResumeContinuesStreams(r: nat, names: set<string>, ds: seq<Delivery>, lengths: Lengths, name: string, worker: nat,
                                    settled: seq<seq<nat>>, start: map<EnvKey, int>, vars: map<EnvKey, int>)
    requires name in names && AllDeliverable(ds, lengths) && lengths(r, name, worker) > 0
    requires OwnStream(ds, lengths, r, name, worker, 0, settled)
    requires Epoch(name, worker) !in start && Index(name, worker) !in start
    requires JointExported(vars, start, names, JointStateDict(AfterBatches(r, FreshJoint(names), BatchesOf(ds, lengths))))
    ensures var consumed := |Flatten(settled)|;
      && NoGap(settled, 0)
      && (Resumes(vars, name, worker, consumed, lengths(r, name, worker)) <==> !PeerAhead(ds, lengths, r, name, worker, consumed))
  {
    var saved := AfterBatches(r, FreshJoint(names), BatchesOf(ds, lengths));
    SessionResumes(r, FreshJoint(names), ds, lengths, name, worker, 0, settled);
    ExportedCursor(names, saved, name, worker, start, vars);
    HeldResumes(saved.inner[name], worker, name, vars, |Flatten(settled)|, lengths(r, name, worker));
  }

  /** Without context parallelism there are no peers, and every worker restarts where it stopped. */
  lemma AloneNoPeers(r: nat, ds: seq<Delivery>, lengths: Lengths, name: string, worker: nat, consumed: nat)
    requires AllDeliverable(ds, lengths) && lengths(r, name, worker) > 0
    requires forall k | 0 <= k < |ds| :: ds[k].owner == r
    ensures !PeerAhead(ds, lengths, r, name, worker, consumed)
  {
  }

  /** The items at permuted positions are permuted. */
  lemma {:induction false} SamePermuted(items: nat -> Item, a: seq<nat>, b: seq<nat>)
    requires multiset(a) == multiset(b)
    ensures multiset(ItemsAt(items, a)) == multiset(ItemsAt(items, b))
    decreases |a|
  {
    if a == [] {
      assert |b| == |multiset(b)| == 0;
    } else {
      var k := FindElement(b, a[0], a);
      WithoutLeaves(a, 0);
      WithoutLeaves(b, k);
      SamePermuted(items, Without(a, 0), Without(b, k));
      ItemsWithout(items, a, 0);
      ItemsWithout(items, b, k);
    }
  }

  lemma {:induction false} ItemsWithout(items: nat -> Item, positions: seq<nat>, k: nat)
    requires k < |positions|
    ensures multiset(ItemsAt(items, positions)) == multiset(ItemsAt(items, Without(positions, k))) + multiset{items(positions[k])}
  {
    var head, tail := positions[..k], positions[k + 1..];
    assert positions == (head + [positions[k]]) + tail;
    ItemsMiddle(items, head, positions[k], tail);
    ItemsAppend(items, head, tail);
    TakeOut(ItemsAt(items, head), items(positions[k]), ItemsAt(items, tail));
  }

  lemma {:induction false} ItemsMiddle(items: nat -> Item, head: seq<nat>, p: nat, tail: seq<nat>)
    ensures ItemsAt(items, head + [p] + tail) == ItemsAt(items, head) + [items(p)] + ItemsAt(items, tail)
  {
    ItemsAppend(items, head + [p], tail);
    assert (head + [p])[..|head|] == head;
  }

  lemma TakeOut<T>(a: seq<T>, x: T, b: seq<T>)
    ensures multiset(a + [x] + b) == multiset(a + b) + multiset{x}
  {
  }

  lemma {:induction false} ItemsAppend(items: nat -> Item, a: seq<nat>, b: seq<nat>)
    ensures ItemsAt(items, a + b) == ItemsAt(items, a) + ItemsAt(items, b)
  {
    if b == [] {
      assert a + b == a;
    } else {
      var n := |b| - 1;
      ItemsAppend(items, a, b[..n]);
      assert (a + b)[..|a + b| - 1] == a + b[..n];
    }
  }

  lemma {:induction false} ItemsJoin(items: nat -> Item, from: nat, m: nat, count: nat)
    ensures ItemsAt(items, Range(from, m)) + ItemsAt(items, Range(from + m, count)) == ItemsAt(items, Range(from, m + count))
  {
    assert Range(from, m) + Range(from + m, count) == Range(from, m + count);
    ItemsAppend(items, Range(from, m), Range(from + m, count));
  }

  lemma ItemsBehind(items: nat -> Item, from: nat, before: seq<nat>, count: nat)
    ensures ItemsAt(items, Range(from, |before|)) + ItemsAt(items, Range(from + |before|, count))
            == ItemsAt(items, Range(from, |before| + count))
  {
    ItemsJoin(items, from, |before|, count);
  }

  /**
   Main result on items: the positions handed out before the checkpoint, which leave no gap, and the items after the
   restart behind them are together exactly the uninterrupted stream, each item once.
   */
  lemma {:induction false} NothingSkippedNothingTwice(items: nat -> Item, before: seq<nat>, from: nat, count: nat)
    requires IsRun(before, from)
    ensures multiset(ItemsAt(items, before) + ItemsAt(items, Range(from + |before|, count)))
            == multiset(ItemsAt(items, Range(from, |before| + count)))
  {
    RunItems(items, before, from);
    ItemsBehind(items, from, before, count);
    Replaced(ItemsAt(items, before), ItemsAt(items, Range(from, |before|)), ItemsAt(items, Range(from + |before|, count)),
             ItemsAt(items, Range(from, |before| + count)));
  }

  /** If the batcher kept the order, they are the uninterrupted stream item by item. */
  lemma {:induction false} OrderIsKept(items: nat -> Item, groups: seq<seq<nat>>, from: nat, count: nat)
    requires Sequential(groups, from)
    ensures ItemsAt(items, Flatten(groups)) + ItemsAt(items, Range(from + |Flatten(groups)|, count))
            == ItemsAt(items, Range(from, |Flatten(groups)| + count))
  {
    ItemsBehind(items, from, Flatten(groups), count);
  }

  lemma {:induction false} RunItems(items: nat -> Item, positions: seq<nat>, lo: nat)
    requires IsRun(positions, lo)
    ensures multiset(ItemsAt(items, positions)) == multiset(ItemsAt(items, Range(lo, |positions|)))
  {
    Pigeonhole(positions, lo);
    SamePermuted(items, positions, Range(lo, |positions|));
  }

  lemma Replaced(a: seq<Item>, b: seq<Item>, c: seq<Item>, whole: seq<Item>)
    requires multiset(a) == multiset(b) && b + c == whole
    ensures multiset(a + c) == multiset(whole)
  {
  }

  /** `before` and `items` are together the stream from `from` on, each item once, and in order if `before` is. */
  ghost predicate Completes(stream: nat -> Item, before: seq<nat>, items: seq<Item>, from: nat, count: nat) {
    var whole := ItemsAt(stream, Range(from, |before| + count));
    && multiset(ItemsAt(stream, before) + items) == multiset(whole)
    && (before == Range(from, |before|) ==> ItemsAt(stream, before) + items == whole)
  }

  lemma ItemsComplete(stream: nat -> Item, before: seq<nat>, items: seq<Item>, from: nat, count: nat)
    requires IsRun(before, from) && items == ItemsAt(stream, Range(from + |before|, count))
    ensures Completes(stream, before, items, from, count)
  {
    NothingSkippedNothingTwice(stream, before, from, count);
    if before == Range(from, |before|) {
      ItemsBehind(stream, from, before, count);
    }
  }

  /** The worker's stream after the load: it completes what was handed out before, from wherever that began. */
  method ContinueStream(s: Stream, environ: Environ, name: string, worker: int, count: nat, ghost before: seq<nat>, ghost from: nat)
    returns (items: seq<Item>)
    requires s.Valid() && s.Active() && IsRun(before, from)
    requires Resumes(environ.vars, name, worker, from + |before|, s.Length())
    modifies environ
    ensures Completes(s.Items(), before, items, from, count)
  {
    items := FirstItems(s, environ, name, worker, count);
    ItemsComplete(s.Items(), before, items, from, count);
  }

  // ---------------------------------------------------------------------------------------------
  // Context parallelism skips items
  // ---------------------------------------------------------------------------------------------

  /** Two ranks, one worker each, batches of one: rank 0 fetches twice, rank 1 once in between. */
  function AlternatingRun(name: string): seq<Delivery> {
    [Delivery(0, name, 0, [0]), Delivery(1, name, 0, [0]), Delivery(0, name, 0, [1])]
  }

  /** An input: rank 1 has handed out item 0 only, and restarts at item 2. */
  lemma ContextParallelSkips(name: string, lengths: Lengths)
    requires lengths(0, name, 0) > 1 && lengths(1, name, 0) > 1
    ensures var ds := AlternatingRun(name);
      && AllDeliverable(ds, lengths) && OwnGroups(ds, 1, name, 0) == [[0]] && OwnStream(ds, lengths, 1, name, 0, 0, [[0]])
      && PeerAhead(ds, lengths, 1, name, 0, 1)
      && var saved := AfterBatches(1, FreshJoint({name}), BatchesOf(ds, lengths));
         name in saved.inner && Tracks(saved.inner[name], 0, 2, lengths(1, name, 0))
  {
    var ds, length := AlternatingRun(name), lengths(1, name, 0);
    AlternatingStamps(name, lengths);
    AlternatingOwn(name, lengths);
    var tags := TagsOf(ds, lengths);
    assert tags[2].owner != 1 && TagIs(tags[2], name, 0) && Ahead(tags[2].stamp, 1, length);
    SeenFromRankTwo(name, tags, length);
  }

  /** To a rank that fetched none of them the three batches leave position 1 as the last. */
  lemma SeenFromRankTwo(name: string, tags: seq<Tag>, length: nat)
    requires length > 1 && |tags| == 3 && forall k | 0 <= k < 3 :: TagIs(tags[k], name, 0)
    requires tags[0].stamp == tags[1].stamp == Cursor(0, 0) && tags[2].stamp == Cursor(0, 1)
    ensures var saved := AfterBatches(1, FreshJoint({name}), Batches(tags));
      name in saved.inner && Tracks(saved.inner[name], 0, 2, length)
  {
    var fresh' := FreshJoint({name});
    assert OwnTags(tags, 1, name, 0, 0, 2, length) by {
      assert PositionOf(tags[2].stamp, length) + 1 == 2;
    }
    TagsTrack(1, fresh', tags, name, 0, 0, 2, length);
  }

  lemma AlternatingStamps(name: string, lengths: Lengths)
    requires lengths(0, name, 0) > 1 && lengths(1, name, 0) > 1
    ensures var ds := AlternatingRun(name);
      AllDeliverable(ds, lengths) && StampIn(ds[0], lengths) == StampIn(ds[1], lengths) == Cursor(0, 0)
      && StampIn(ds[2], lengths) == Cursor(0, 1)
  {
    var ds := AlternatingRun(name);
    SinglePasses(ds[0].group, lengths(0, name, 0));
    SinglePasses(ds[1].group, lengths(1, name, 0));
    SinglePasses(ds[2].group, lengths(0, name, 0));
    QuotientIs(1, lengths(0, name, 0), 0);
    QuotientIs(0, lengths(0, name, 0), 0);
    QuotientIs(0, lengths(1, name, 0), 0);
  }

  lemma AlternatingOwn(name: string, lengths: Lengths)
    requires lengths(1, name, 0) > 1
    ensures OwnGroups(AlternatingRun(name), 1, name, 0) == [[0]]
    ensures OwnStream(AlternatingRun(name), lengths, 1, name, 0, 0, [[0]])
  {
    var ds := AlternatingRun(name);
    assert ds[..2][..1] == ds[..1] && ds[..1][..0] == [];
    assert OwnGroups(ds[..1], 1, name, 0) == OwnGroups(ds[..1][..0], 1, name, 0) == [];
    assert OwnGroups(ds[..2], 1, name, 0) == OwnGroups(ds[..2][..1], 1, name, 0) + [ds[1].group];
    assert OwnGroups(ds, 1, name, 0) == OwnGroups(ds[..2], 1, name, 0);
    var own := OwnGroups(ds, 1, name, 0);
    SinglePasses(own[0], lengths(1, name, 0));
    assert Flatten(own[..0]) == [] && own[0][0] == 0;
    assert FirstOpen(0, Flatten(own[..0]), 0);
  }
}
