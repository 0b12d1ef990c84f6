/**
 Checkpointing the data stream: the callbacks keep, per worker, the lexicographically largest
 `(epoch, index)` seen. Under context parallelism the ranks of a group take turns fetching, and every
 one of them sees every batch.
 */
module DataloaderCursor {
  import opened Blocks
  import opened Collections
  import opened Wrappers

  datatype Cursor = Cursor(epoch: int, index: int)

  /** One row of a batch's position metadata. */
  datatype Row = Row(worker: int, cursor: Cursor)

  /** The position columns of a batch; a column may be missing. */
  datatype Batch = Batch(workerIds: Option<seq<int>>, epochs: Option<seq<int>>, indices: Option<seq<int>>)

  datatype BatchError = KeyError | ValueError | TypeError

  predicate Later(a: Cursor, b: Cursor) {
    a.epoch > b.epoch || (a.epoch == b.epoch && a.index > b.index)
  }

  /** The rows a `zip` over the columns yields before it stops or, being strict, raises. */
  function Rows(batch: Batch): (rows: seq<Row>)
    requires batch.workerIds.Some? && batch.epochs.Some? && batch.indices.Some?
  {
    var n := Min(|batch.workerIds.value|, Min(|batch.epochs.value|, |batch.indices.value|));
    seq(n, k requires 0 <= k < n => Row(batch.workerIds.value[k], Cursor(batch.epochs.value[k], batch.indices.value[k])))
  }

  predicate Complete(batch: Batch) {
    batch.workerIds.Some? && batch.epochs.Some? && batch.indices.Some?
  }

  predicate Aligned(batch: Batch)
    requires Complete(batch)
  {
    |batch.workerIds.value| == |batch.epochs.value| == |batch.indices.value|
  }

  /** How the newer callback ends: quietly without worker ids, else with the error of a missing or short column. */
  function UpdateError(batch: Batch): Option<BatchError> {
    if batch.workerIds.None? then None
    else if !Complete(batch) then Some(KeyError)
    else if Aligned(batch) then None
    else Some(ValueError)
  }

  type WorkerStates = map<int, Cursor>

  // ---------------------------------------------------------------------------------------------
  // The state as a maximum
  // ---------------------------------------------------------------------------------------------

  /** `state` keeps, per worker, the latest of its cursor in `start` and those in `seen`; no other worker has one. */
  ghost predicate Continues(start: WorkerStates, state: WorkerStates, seen: seq<Row>) {
    && (forall w | w in start :: w in state && !Later(start[w], state[w]))
    && (forall k | 0 <= k < |seen| :: seen[k].worker in state && !Later(seen[k].cursor, state[seen[k].worker]))
    && forall w | w in state :: Row(w, state[w]) in seen || (w in start && start[w] == state[w])
  }

  /** From `start` on, `state` holds per worker the latest of its old cursor and those in the first `n` rows of the columns. */
  ghost predicate HoldsLatest(start: WorkerStates, state: WorkerStates, ids: seq<int>, epochs: seq<int>, indices: seq<int>, n: nat)
    requires n <= |ids| && n <= |epochs| && n <= |indices|
  {
    && (forall w | w in start :: w in state && !Later(start[w], state[w]))
    && (forall k | 0 <= k < n :: ids[k] in state && !Later(Cursor(epochs[k], indices[k]), state[ids[k]]))
    && forall w | w in state ::
        || (w in start && start[w] == state[w])
        || exists k :: 0 <= k < n && ids[k] == w && state[w] == Cursor(epochs[k], indices[k])
  }

  lemma ColumnsLatest(start: WorkerStates, state: WorkerStates, batch: Batch)
    requires Complete(batch) && Aligned(batch) && Continues(start, state, Rows(batch))
    ensures HoldsLatest(start, state, batch.workerIds.value, batch.epochs.value, batch.indices.value, |batch.workerIds.value|)
  {
    var ids, epochs, indices, rows := batch.workerIds.value, batch.epochs.value, batch.indices.value, Rows(batch);
    forall k | 0 <= k < |ids| ensures ids[k] in state && !Later(Cursor(epochs[k], indices[k]), state[ids[k]]) {
      assert rows[k] == Row(ids[k], Cursor(epochs[k], indices[k]));
    }
    forall w | w in state && !(w in start && start[w] == state[w])
      ensures exists k :: 0 <= k < |ids| && ids[k] == w && state[w] == Cursor(epochs[k], indices[k])
    {
      var k := IndexIn(rows, Row(w, state[w]));
      assert ids[k] == w && state[w] == Cursor(epochs[k], indices[k]);
    }
  }

  /** `state` after one more row. */
  function After(state: WorkerStates, row: Row): WorkerStates {
    if row.worker !in state || Later(row.cursor, state[row.worker]) then state[row.worker := row.cursor] else state
  }

  /** `state` after all of `rows`, one by one. */
  function Latest(start: WorkerStates, rows: seq<Row>): WorkerStates {
    if rows == [] then start else After(Latest(start, rows[..|rows| - 1]), rows[|rows| - 1])
  }

  lemma {:induction false} LatestContinues(start: WorkerStates, rows: seq<Row>)
    ensures Continues(start, Latest(start, rows), rows)
  {
    if rows != [] {
      var n := |rows| - 1;
      LatestContinues(start, rows[..n]);
      NextRow(start, Latest(start, rows[..n]), rows[..n], rows[n]);
      assert rows[..n] + [rows[n]] == rows;
    }
  }

  lemma NextRow(start: WorkerStates, state: WorkerStates, seen: seq<Row>, row: Row)
    requires Continues(start, state, seen)
    ensures Continues(start, After(state, row), seen + [row])
  {
  }

  /** The lexicographic maximum, per worker, of everything seen. */
  ghost predicate IsLatest(state: WorkerStates, seen: seq<Row>) {
    Continues(map[], state, seen)
  }

  /** The state is determined by which rows were seen: batches may come in any order and twice, and both callbacks agree. */
  lemma StateIsUnique(start: WorkerStates, a: WorkerStates, b: WorkerStates, seenA: seq<Row>, seenB: seq<Row>)
    requires forall row :: row in seenA <==> row in seenB
    requires Continues(start, a, seenA) && Continues(start, b, seenB)
    ensures a == b
  {
    forall w: int ensures (w in a <==> w in b) && (w in a ==> a[w] == b[w]) {
      AtMostAt(start, a, b, seenA, seenB, w);
      AtMostAt(start, b, a, seenB, seenA, w);
    }
    SameStates(a, b);
  }

  lemma AtMostAt(start: WorkerStates, a: WorkerStates, b: WorkerStates, seenA: seq<Row>, seenB: seq<Row>, w: int)
    requires forall row :: row in seenA <==> row in seenB
    requires Continues(start, a, seenA) && Continues(start, b, seenB)
    ensures w in a ==> w in b && !Later(a[w], b[w])
  {
    if w in a && !(w in start && start[w] == a[w]) {
      assert Row(w, a[w]) in seenB;
      var k :| 0 <= k < |seenB| && seenB[k] == Row(w, a[w]);
    }
  }

  /** One batch after another is like one long batch. */
  lemma ContinuesComposes(start: WorkerStates, middle: WorkerStates, end: WorkerStates, a: seq<Row>, b: seq<Row>)
    requires Continues(start, middle, a) && Continues(middle, end, b)
    ensures Continues(start, end, a + b)
  {
  }

  /** What `load_state_dict` leaves in a callback. */
  function Loaded(current: WorkerStates, d: WorkerStates): WorkerStates {
    if d == map[] then current else d
  }

  /** Saving, loading into a fresh callback and continuing is the uninterrupted run. */
  lemma ResumeIsUninterrupted(saved: WorkerStates, resumed: WorkerStates, before: seq<Row>, after: seq<Row>)
    requires IsLatest(saved, before) && Continues(Loaded(map[], saved), resumed, after)
    ensures IsLatest(resumed, before + after)
    ensures forall whole :: IsLatest(whole, before + after) ==> whole == resumed
  {
    ContinuesComposes(map[], saved, resumed, before, after);
    forall whole | IsLatest(whole, before + after) ensures whole == resumed {
      StateIsUnique(map[], whole, resumed, before + after, before + after);
    }
  }

  // ---------------------------------------------------------------------------------------------
  // The two callbacks
  // ---------------------------------------------------------------------------------------------

  /** An environment variable `COSMOS_DL_STATE_[name_]WORKER_{id}_EPOCH` or `..._INDEX`. */
  datatype EnvKey = Epoch(name: string, worker: int) | Index(name: string, worker: int)

  class Environ {
    var vars: map<EnvKey, int>
  }

  /** The variables hold the cursors of `d`, and are otherwise `before`. */
  ghost predicate Exported(vars: map<EnvKey, int>, before: map<EnvKey, int>, name: string, d: WorkerStates) {
    && (forall w | w in d :: ExportedWorker(vars, name, w, d[w]))
    && forall key: EnvKey | key.name != name || key.worker !in d ::
        (key in vars <==> key in before) && (key in vars ==> vars[key] == before[key])
  }

  ghost predicate ExportedWorker(vars: map<EnvKey, int>, name: string, w: int, c: Cursor) {
    && Epoch(name, w) in vars && vars[Epoch(name, w)] == c.epoch
    && Index(name, w) in vars && vars[Index(name, w)] == c.index
  }

  lemma SameStates(a: WorkerStates, b: WorkerStates)
    requires a.Keys == b.Keys && forall w | w in a :: a[w] == b[w]
    ensures a == b
  {
    forall w: int ensures w in a <==> w in b {
    }
    forall w: int | w in a ensures a[w] == b[w] {
    }
  }

  class CosmosDataLoaderStateCallback {
    const name: string
    var state: WorkerStates

    constructor (name: string)
      ensures state == map[] && this.name == name
    {
      this.name, state := name, map[];
    }

    /** `_update_state_from_batch`: without worker ids there is nothing to do. */
    method UpdateStateFromBatch(batch: Batch) returns (error: Option<BatchError>)
      modifies this
      ensures error == UpdateError(batch)
      ensures if Complete(batch) then Continues(old(state), state, Rows(batch)) else state == old(state)
      ensures batch.workerIds.None? ==> error.None? && state == old(state)
      ensures batch.workerIds.Some? && (batch.epochs.None? || batch.indices.None?) ==> error == Some(KeyError)
      ensures batch.workerIds.Some? && batch.epochs.Some? && batch.indices.Some? ==>
        error == if |batch.workerIds.value| == |batch.epochs.value| == |batch.indices.value| then None else Some(ValueError)
      ensures batch.workerIds.Some? && error.None? ==>
        HoldsLatest(old(state), state, batch.workerIds.value, batch.epochs.value, batch.indices.value, |batch.workerIds.value|)
    {
      if batch.workerIds.None? {
        return None;
      }
      if !Complete(batch) {
        return Some(KeyError);
      }
      var rows := Rows(batch);
      for k := 0 to |rows|
        invariant Continues(old(state), state, rows[..k])
      {
        var row := rows[k];
        ghost var before := state;
        if row.worker !in state {
          state := state[row.worker := row.cursor];
        } else if row.cursor.epoch > state[row.worker].epoch
          || (row.cursor.epoch == state[row.worker].epoch && row.cursor.index > state[row.worker].index) {
          state := state[row.worker := row.cursor];
        }
        NextRow(old(state), before, rows[..k], row);
        assert rows[..k + 1] == rows[..k] + [row];
      }
      assert rows[..|rows|] == rows;
      if Aligned(batch) {
        ColumnsLatest(old(state), state, batch);
      }
      error := if Aligned(batch) then None else Some(ValueError);
    }

    method StateDict() returns (d: WorkerStates)
      ensures d == state
    {
      d := map[];
      var rest := state.Keys;
      while rest != {}
        invariant rest <= state.Keys && d.Keys == state.Keys - rest
        invariant forall w | w in d :: d[w] == state[w]
        decreases rest
      {
        var w := Pick(rest);
        d, rest := d[w := state[w]], rest - {w};
      }
      SameStates(d, state);
    }

    /** `load_state_dict`: an empty dictionary changes nothing, a non-empty one replaces the state. */
    method LoadStateDict(d: WorkerStates, environ: Environ)
      modifies this, environ
      ensures state == Loaded(old(state), d)
      ensures Exported(environ.vars, old(environ.vars), name, d)
    {
      if d == map[] {
        return;
      }
      state := map[];
      var rest := d.Keys;
      while rest != {}
        invariant rest <= d.Keys && state.Keys == d.Keys - rest
        invariant forall w | w in state :: state[w] == d[w]
        invariant Exported(environ.vars, old(environ.vars), name, state)
        decreases rest
      {
        var w := Pick(rest);
        state, rest := state[w := d[w]], rest - {w};
        environ.vars := environ.vars[Epoch(name, w) := d[w].epoch][Index(name, w) := d[w].index];
      }
      SameStates(state, d);
    }
  }

  /** The older callback, active for the distributor type "no_replace" only. */
  class DataLoaderStateCallback {
    const distributorType: Option<string>
    var state: WorkerStates

    constructor (distributorType: Option<string>)
      ensures state == map[] && this.distributorType == distributorType
    {
      this.distributorType, state := distributorType, map[];
    }

    /** Unlike the newer callback, this one raises when the worker ids are missing. */
    method UpdateStateFromBatch(batch: Batch) returns (error: Option<BatchError>)
      modifies this
      ensures !Complete(batch) ==> error == Some(KeyError) && state == old(state)
      ensures Complete(batch) ==>
        && Continues(old(state), state, Rows(batch))
        && error == (if Aligned(batch) then None else Some(ValueError))
      ensures error.None? ==>
        HoldsLatest(old(state), state, batch.workerIds.value, batch.epochs.value, batch.indices.value, |batch.workerIds.value|)
    {
      if !Complete(batch) {
        return Some(KeyError);
      }
      var rows := Rows(batch);
      for k := 0 to |rows|
        invariant Continues(old(state), state, rows[..k])
      {
        var row := rows[k];
        ghost var before := state;
        if row.worker !in state {
          state := state[row.worker := row.cursor];
        } else if state[row.worker].epoch < row.cursor.epoch
          || (state[row.worker].index < row.cursor.index && state[row.worker].epoch == row.cursor.epoch) {
          state := state[row.worker := row.cursor];
        }
        NextRow(old(state), before, rows[..k], row);
        assert rows[..k + 1] == rows[..k] + [row];
      }
      assert rows[..|rows|] == rows;
      if Aligned(batch) {
        ColumnsLatest(old(state), state, batch);
      }
      error := if Aligned(batch) then None else Some(ValueError);
    }

    method OnTrainingStepBatchEnd(batch: Batch) returns (error: Option<BatchError>)
      modifies this
      ensures distributorType != Some("no_replace") ==> error == None && state == old(state)
      ensures distributorType == Some("no_replace") ==>
        if !Complete(batch) then error == Some(KeyError) && state == old(state)
        else Continues(old(state), state, Rows(batch)) && error == (if Aligned(batch) then None else Some(ValueError))
    {
      error := None;
      if distributorType == Some("no_replace") {
        error := UpdateStateFromBatch(batch);
      }
    }
  }

  // ---------------------------------------------------------------------------------------------
  // The joint callback
  // ---------------------------------------------------------------------------------------------

  /** An entry of the joint state dictionary. */
  datatype Entry = GlobalId(id: nat) | Inner(states: WorkerStates)

  /** The outer cursor and the inner callbacks' states, by dataset name. */
  datatype Joint = Joint(globalId: Entry, inner: map<string, WorkerStates>)

  const GLOBAL_ID := "global_id"

  /** The dataset entries are added after `global_id` and win on equal names. */
  function JointStateDict(s: Joint): map<string, Entry> {
    map[GLOBAL_ID := s.globalId] + map name | name in s.inner :: Inner(s.inner[name])
  }

  /** What `load_state_dict` of the inner callback does with the entry under `name`, if there is one. */
  function LoadedInner(current: WorkerStates, name: string, d: map<string, Entry>): WorkerStates {
    if name in d && d[name].Inner? then Loaded(current, d[name].states) else current
  }

  function JointLoaded(current: Joint, d: map<string, Entry>): Joint {
    Joint(if GLOBAL_ID in d then d[GLOBAL_ID] else GlobalId(0),
          map name | name in current.inner :: LoadedInner(current.inner[name], name, d))
  }

  function FreshJoint(names: set<string>): Joint {
    Joint(GlobalId(0), map name | name in names :: map[])
  }

  /** A batch of the run: the context-parallel rank that fetched it, the dataset it was drawn from, its position columns. */
  datatype NamedBatch = NamedBatch(owner: nat, dataset: Option<string>, columns: Batch)

  predicate Counts(b: NamedBatch, name: string) {
    b.dataset == Some(name) && Complete(b.columns)
  }

  function RowsFor(name: string, b: NamedBatch): seq<Row> {
    if Counts(b, name) then Rows(b.columns) else []
  }

  /** All rows of the batches drawn from dataset `name`. */
  function RowsOf(name: string, batches: seq<NamedBatch>): seq<Row> {
    if batches == [] then []
    else RowsOf(name, batches[..|batches| - 1]) + RowsFor(name, batches[|batches| - 1])
  }

  /** Only the dataset the batch names moves. */
  function Moved(inner: map<string, WorkerStates>, b: NamedBatch): map<string, WorkerStates> {
    if b.dataset.Some? && b.dataset.value in inner && Complete(b.columns)
    then inner[b.dataset.value := Latest(inner[b.dataset.value], Rows(b.columns))]
    else inner
  }

  /**
   Rank `r` after one more batch: its callback sees the batch, whoever fetched it, and its own loader counts it if
   `r` did. A loader whose id is a dictionary yields nothing.
   */
  function AfterBatch(r: nat, s: Joint, b: NamedBatch): Joint {
    if b.owner != r then Joint(s.globalId, Moved(s.inner, b))
    else if s.globalId.Inner? then s
    else Joint(GlobalId(s.globalId.id + 1), Moved(s.inner, b))
  }

  function AfterBatches(r: nat, s: Joint, batches: seq<NamedBatch>): Joint {
    if batches == [] then s else AfterBatch(r, AfterBatches(r, s, batches[..|batches| - 1]), batches[|batches| - 1])
  }

  /** How many of the batches rank `r` fetched itself. */
  function Fetched(r: nat, batches: seq<NamedBatch>): nat {
    if batches == [] then 0
    else Fetched(r, batches[..|batches| - 1]) + if batches[|batches| - 1].owner == r then 1 else 0
  }

  /** The outer id counts the rank's own fetches; each dataset's state is the latest of all rows drawn from it. */
  lemma {:induction false} RunTracksDatasets(r: nat, s: Joint, batches: seq<NamedBatch>, name: string)
    requires s.globalId.GlobalId?
    ensures var end := AfterBatches(r, s, batches);
      && end.globalId == GlobalId(s.globalId.id + Fetched(r, batches))
      && (name in end.inner <==> name in s.inner)
      && (name in s.inner ==> Continues(s.inner[name], end.inner[name], RowsOf(name, batches)))
  {
    if batches != [] {
      var n := |batches| - 1;
      RunTracksDatasets(r, s, batches[..n], name);
      var middle, b := AfterBatches(r, s, batches[..n]), batches[n];
      if name in s.inner {
        LatestContinues(middle.inner[name], RowsFor(name, b));
        ContinuesComposes(s.inner[name], middle.inner[name], Latest(middle.inner[name], RowsFor(name, b)),
                          RowsOf(name, batches[..n]), RowsFor(name, b));
      }
    }
  }

  lemma {:induction false} RunIsContinued(r: nat, s: Joint, a: seq<NamedBatch>, b: seq<NamedBatch>)
    ensures AfterBatches(r, s, a + b) == AfterBatches(r, AfterBatches(r, s, a), b)
  {
    if b == [] {
      assert a + b == a;
    } else {
      var n := |b| - 1;
      RunIsContinued(r, s, a, b[..n]);
      assert (a + b)[..|a + b| - 1] == a + b[..n];
    }
  }

  lemma {:induction false} IdStays(r: nat, s: Joint, batches: seq<NamedBatch>)
    requires s.globalId.Inner?
    ensures AfterBatches(r, s, batches).globalId == s.globalId
  {
    if batches != [] {
      IdStays(r, s, batches[..|batches| - 1]);
    }
  }

  lemma {:induction false} FetchedAppend(r: nat, a: seq<NamedBatch>, b: seq<NamedBatch>)
    ensures Fetched(r, a + b) == Fetched(r, a) + Fetched(r, b)
  {
    if b == [] {
      assert a + b == a;
    } else {
      FetchedAppend(r, a, b[..|b| - 1]);
      assert (a + b)[..|a + b| - 1] == a + b[..|b| - 1];
    }
  }

  lemma FetchedWithout(r: nat, batches: seq<NamedBatch>, k: nat)
    requires k < |batches|
    ensures Fetched(r, batches) == Fetched(r, Without(batches, k)) + if batches[k].owner == r then 1 else 0
  {
    var head, tail := batches[..k], batches[k + 1..];
    assert batches == head + [batches[k]] + tail;
    FetchedAppend(r, head + [batches[k]], tail);
    FetchedAppend(r, head, tail);
    assert (head + [batches[k]])[..k] == head;
  }

  /** The count does not depend on the order. */
  lemma {:induction false} FetchedIgnoresOrder(r: nat, a: seq<NamedBatch>, b: seq<NamedBatch>)
    requires multiset(a) == multiset(b)
    ensures Fetched(r, a) == Fetched(r, b)
    decreases |a|
  {
    if a == [] {
      assert |b| == |multiset(b)| == 0;
    } else {
      var k := FindElement(b, a[0], a);
      WithoutLeaves(a, 0);
      WithoutLeaves(b, k);
      FetchedIgnoresOrder(r, Without(a, 0), Without(b, k));
      FetchedWithout(r, a, 0);
      FetchedWithout(r, b, k);
    }
  }

  /** A rank has fetched everything exactly if it owns everything. */
  lemma {:induction false} FetchedAll(r: nat, batches: seq<NamedBatch>)
    ensures Fetched(r, batches) <= |batches|
    ensures Fetched(r, batches) == |batches| <==> forall b | 0 <= b < |batches| :: batches[b].owner == r
  {
    if batches != [] {
      var n := |batches| - 1;
      FetchedAll(r, batches[..n]);
      assert forall b | 0 <= b < n :: batches[..n][b] == batches[b];
    }
  }

  ghost predicate FromSome(name: string, batches: seq<NamedBatch>, row: Row) {
    exists k :: 0 <= k < |batches| && row in RowsFor(name, batches[k])
  }

  lemma SomeOfMore(name: string, batches: seq<NamedBatch>, n: nat, row: Row)
    requires n + 1 == |batches|
    ensures FromSome(name, batches, row) <==> FromSome(name, batches[..n], row) || row in RowsFor(name, batches[n])
  {
    if k :| 0 <= k < |batches| && row in RowsFor(name, batches[k]) {
      assert k < n ==> batches[..n][k] == batches[k];
    }
    if k :| 0 <= k < n && row in RowsFor(name, batches[..n][k]) {
      assert batches[..n][k] == batches[k];
    }
  }

  lemma {:induction false} RowsComeFromBatches(name: string, batches: seq<NamedBatch>, row: Row)
    ensures row in RowsOf(name, batches) <==> FromSome(name, batches, row)
  {
    if batches != [] {
      var n := |batches| - 1;
      RowsComeFromBatches(name, batches[..n], row);
      SomeOfMore(name, batches, n, row);
    }
  }

  lemma RowsIgnoreOrder(name: string, a: seq<NamedBatch>, b: seq<NamedBatch>, row: Row)
    requires multiset(a) == multiset(b) && row in RowsOf(name, a)
    ensures row in RowsOf(name, b)
  {
    RowsComeFromBatches(name, a, row);
    RowsComeFromBatches(name, b, row);
    var k :| 0 <= k < |a| && row in RowsFor(name, a[k]);
    assert a[k] in multiset(a);
    assert a[k] in b;
  }

  /** Batches may arrive in any order: workers race, and the joint state is the same. */
  lemma JointStateIgnoresOrder(r: nat, s: Joint, a: seq<NamedBatch>, b: seq<NamedBatch>)
    requires s.globalId.GlobalId? && multiset(a) == multiset(b)
    ensures AfterBatches(r, s, a) == AfterBatches(r, s, b)
  {
    var x, y := AfterBatches(r, s, a), AfterBatches(r, s, b);
    forall name: string ensures name in x.inner <==> name in y.inner {
      RunTracksDatasets(r, s, a, name);
      RunTracksDatasets(r, s, b, name);
    }
    forall name: string | name in x.inner ensures x.inner[name] == y.inner[name] {
      RunTracksDatasets(r, s, a, name);
      RunTracksDatasets(r, s, b, name);
      forall row ensures row in RowsOf(name, a) <==> row in RowsOf(name, b) {
        if row in RowsOf(name, a) {
          RowsIgnoreOrder(name, a, b, row);
        } else if row in RowsOf(name, b) {
          RowsIgnoreOrder(name, b, a, row);
        }
      }
      StateIsUnique(s.inner[name], x.inner[name], y.inner[name], RowsOf(name, a), RowsOf(name, b));
    }
    SameMap(x.inner, y.inner);
    RunTracksDatasets(r, s, a, "");
    RunTracksDatasets(r, s, b, "");
    FetchedIgnoresOrder(r, a, b);
  }

  /** A joint checkpoint restores both cursors exactly if no dataset is named `global_id`. */
  lemma JointRoundTrip(s: Joint)
    requires s.globalId.GlobalId?
    ensures JointLoaded(FreshJoint(s.inner.Keys), JointStateDict(s)) == s <==> "global_id" !in s.inner
    ensures JointLoaded(FreshJoint(s.inner.Keys), JointStateDict(s)).inner == s.inner
  {
    var loaded := JointLoaded(FreshJoint(s.inner.Keys), JointStateDict(s));
    forall name: string | name in s.inner ensures loaded.inner[name] == s.inner[name] {
    }
    SameMap(loaded.inner, s.inner);
  }

  lemma FreshKeys(r: nat, names: set<string>, batches: seq<NamedBatch>)
    ensures AfterBatches(r, FreshJoint(names), batches).inner.Keys == names
    ensures AfterBatches(r, FreshJoint(names), batches).globalId == GlobalId(Fetched(r, batches))
  {
    var s := FreshJoint(names);
    var end := AfterBatches(r, s, batches);
    RunTracksDatasets(r, s, batches, "");
    forall name: string ensures name in end.inner.Keys <==> name in names {
      RunTracksDatasets(r, s, batches, name);
    }
  }

  /**
   Main result: saving, loading into a fresh joint callback and continuing is the uninterrupted run, for every
   dataset and the selection sequence, exactly if no dataset bears the name the loader's constructor refuses.
   */
  lemma JointResume(r: nat, names: set<string>, before: seq<NamedBatch>, after: seq<NamedBatch>)
    ensures var saved := AfterBatches(r, FreshJoint(names), before);
      var resumed := JointLoaded(FreshJoint(names), JointStateDict(saved));
      AfterBatches(r, resumed, after) == AfterBatches(r, FreshJoint(names), before + after) <==> "global_id" !in names
  {
    var saved := AfterBatches(r, FreshJoint(names), before);
    var resumed := JointLoaded(FreshJoint(names), JointStateDict(saved));
    FreshKeys(r, names, before);
    JointRoundTrip(saved);
    RunIsContinued(r, FreshJoint(names), before, after);
    if GLOBAL_ID in names {
      FreshKeys(r, names, before + after);
      IdStays(r, resumed, after);
    }
  }

  // ---------------------------------------------------------------------------------------------
  // The trainer's own setting of the id
  // ---------------------------------------------------------------------------------------------

  /** What the trainer resumes with: after the load it sets the id itself, to iteration times gradient accumulation. */
  function TrainerResumed(names: set<string>, saved: Joint, iteration: nat, gradAccum: nat): Joint {
    JointLoaded(FreshJoint(names), JointStateDict(saved)).(globalId := GlobalId(iteration * gradAccum))
  }

  /**
   Whatever id was saved (the last checkpoint is written after one more batch was fetched and discarded), the resumed
   run is the uninterrupted one exactly if the rank's own fetches among the batches trained on number that product.
   */
  lemma TrainerResume(r: nat, names: set<string>, saved: Joint, before: seq<NamedBatch>, after: seq<NamedBatch>,
                      iteration: nat, gradAccum: nat)
    requires saved.globalId.GlobalId? && saved.inner == AfterBatches(r, FreshJoint(names), before).inner
    ensures AfterBatches(r, TrainerResumed(names, saved, iteration, gradAccum), after)
            == AfterBatches(r, FreshJoint(names), before + after)
            <==> Fetched(r, before) == iteration * gradAccum
  {
    var resumed := TrainerResumed(names, saved, iteration, gradAccum);
    FreshKeys(r, names, before);
    JointRoundTrip(saved);
    RunIsContinued(r, FreshJoint(names), before, after);
    FreshKeys(r, names, before + after);
    FetchedAppend(r, before, after);
    RunTracksDatasets(r, resumed, after, "");
  }

  /** Who fetches batch `b` of a run that starts at iteration `first`: the ranks take turns, iteration by iteration. */
  function OwnerOf(first: nat, b: nat, cp: nat, gradAccum: nat): nat
    requires cp > 0 && gradAccum > 0
  {
    (first + b / gradAccum) % cp
  }

  ghost predicate Scheduled(batches: seq<NamedBatch>, first: nat, cp: nat, gradAccum: nat)
    requires cp > 0 && gradAccum > 0
  {
    forall b | 0 <= b < |batches| :: batches[b].owner == OwnerOf(first, b, cp, gradAccum)
  }

  /**
   Main result: under the trainer's schedule its setting of the id resumes the uninterrupted run on rank `r` exactly
   without context parallelism, or after no iteration, or after one that `r` itself fetched.
   */
  lemma TrainerResumeUnderSchedule(r: nat, names: set<string>, saved: Joint, before: seq<NamedBatch>, after: seq<NamedBatch>,
                                   cp: nat, iteration: nat, gradAccum: nat)
    requires saved.globalId.GlobalId? && saved.inner == AfterBatches(r, FreshJoint(names), before).inner
    requires r < cp && gradAccum > 0 && |before| == iteration * gradAccum && Scheduled(before, 0, cp, gradAccum)
    ensures AfterBatches(r, TrainerResumed(names, saved, iteration, gradAccum), after)
            == AfterBatches(r, FreshJoint(names), before + after)
            <==> cp == 1 || iteration == 0 || (iteration == 1 && r == 0)
  {
    TrainerResume(r, names, saved, before, after, iteration, gradAccum);
    FetchedAll(r, before);
    OneOwner(r, before, cp, iteration, gradAccum);
  }

  lemma OneOwner(r: nat, batches: seq<NamedBatch>, cp: nat, iteration: nat, gradAccum: nat)
    requires r < cp && gradAccum > 0 && |batches| == iteration * gradAccum && Scheduled(batches, 0, cp, gradAccum)
    ensures (forall b | 0 <= b < |batches| :: batches[b].owner == r)
            <==> cp == 1 || iteration == 0 || (iteration == 1 && r == 0)
  {
    if cp == 1 {
      forall b | 0 <= b < |batches| ensures batches[b].owner == 0 {
        assert batches[b].owner == OwnerOf(0, b, cp, gradAccum);
      }
    } else if iteration > 1 {
      MulLe(2, iteration, gradAccum);
      FirstOwners(batches, cp, gradAccum);
    } else if iteration == 1 {
      forall b | 0 <= b < |batches| ensures batches[b].owner == 0 {
        QuotientIs(b, gradAccum, 0);
        assert batches[b].owner == OwnerOf(0, b, cp, gradAccum);
      }
      assert batches[0].owner == 0;
    }
  }

  /** The first two iterations have different owners. */
  lemma FirstOwners(batches: seq<NamedBatch>, cp: nat, gradAccum: nat)
    requires cp > 1 && gradAccum > 0 && Scheduled(batches, 0, cp, gradAccum) && |batches| > gradAccum
    ensures batches[0].owner == 0 && batches[gradAccum].owner == 1
  {
    QuotientIs(0, gradAccum, 0);
    QuotientIs(gradAccum, gradAccum, 1);
    assert OwnerOf(0, gradAccum, cp, gradAccum) == 1 % cp;
  }

  /** An input: two ranks, two iterations. The checkpoint restores the right id, and the trainer overwrites it. */
  lemma TrainerOverwritesId(names: set<string>, first: NamedBatch, second: NamedBatch)
    requires GLOBAL_ID !in names && first.owner == 0 && second.owner == 1
    ensures var saved := AfterBatches(0, FreshJoint(names), [first, second]);
      && JointLoaded(FreshJoint(names), JointStateDict(saved)) == saved
      && saved.globalId == GlobalId(1) && TrainerResumed(names, saved, 2, 1).globalId == GlobalId(2)
  {
    var before := [first, second];
    assert before[..1] == [first] && [first][..0] == [];
    assert Fetched(0, [first]) == Fetched(0, []) + 1;
    assert Fetched(0, before) == Fetched(0, [first]);
    FreshKeys(0, names, before);
    JointRoundTrip(AfterBatches(0, FreshJoint(names), before));
  }

  /** The environment after `load_state_dict`: every inner state the dictionary holds, and nothing else, was exported. */
  ghost predicate JointExported(vars: map<EnvKey, int>, before: map<EnvKey, int>, names: set<string>, d: map<string, Entry>) {
    forall key: EnvKey ::
      && (key in vars <==> Exports(names, d, key) || key in before)
      && (key in vars ==> vars[key] == if Exports(names, d, key) then ExportedValue(d, key) else before[key])
  }

  predicate Exports(names: set<string>, d: map<string, Entry>, key: EnvKey) {
    key.name in names && key.name in d && d[key.name].Inner? && key.worker in d[key.name].states
  }

  function ExportedValue(d: map<string, Entry>, key: EnvKey): int
    requires key.name in d && d[key.name].Inner? && key.worker in d[key.name].states
  {
    var c := d[key.name].states[key.worker];
    if key.Epoch? then c.epoch else c.index
  }

  /** How the callback ends on a batch. */
  function BatchOutcome(names: seq<string>, b: NamedBatch): Option<BatchError> {
    if b.dataset.Some? && b.dataset.value in names then UpdateError(b.columns) else None
  }

  /** The trainer's counters after `seen` batches. */
  ghost predicate AtTurn(seen: nat, first: nat, iteration: nat, gradAccumIter: nat, gradAccum: nat) {
    first <= iteration && gradAccumIter < gradAccum && seen == (iteration - first) * gradAccum + gradAccumIter
  }

  lemma TurnOwner(batches: seq<NamedBatch>, seen: nat, first: nat, iteration: nat, gradAccumIter: nat, cp: nat, gradAccum: nat)
    requires cp > 0 && gradAccum > 0 && Scheduled(batches, first, cp, gradAccum) && seen < |batches|
    requires AtTurn(seen, first, iteration, gradAccumIter, gradAccum)
    ensures batches[seen].owner == iteration % cp
    ensures if gradAccumIter + 1 == gradAccum then AtTurn(seen + 1, first, iteration + 1, 0, gradAccum)
            else AtTurn(seen + 1, first, iteration, gradAccumIter + 1, gradAccum)
  {
    Decomposition(seen, gradAccum, iteration - first, gradAccumIter);
    assert (iteration + 1 - first) * gradAccum == (iteration - first) * gradAccum + gradAccum;
    assert batches[seen].owner == OwnerOf(first, seen, cp, gradAccum);
  }

  /** How a turn of the trainer's loop ends on rank `r`: a fetch with a dictionary for an id raises first. */
  function TurnOutcome(r: nat, names: seq<string>, id: Entry, b: NamedBatch): Option<BatchError> {
    if b.owner == r && id.Inner? then Some(TypeError) else BatchOutcome(names, b)
  }

  ghost predicate NoneRaises(names: seq<string>, batches: seq<NamedBatch>) {
    forall k | 0 <= k < |batches| :: BatchOutcome(names, batches[k]).None?
  }

  lemma NextBatch(r: nat, s: Joint, batches: seq<NamedBatch>, k: nat, names: seq<string>)
    requires k < |batches|
    ensures AfterBatches(r, s, batches[..k + 1]) == AfterBatch(r, AfterBatches(r, s, batches[..k]), batches[k])
    ensures Fetched(r, batches[..k + 1]) == Fetched(r, batches[..k]) + if batches[k].owner == r then 1 else 0
    ensures NoneRaises(names, batches[..k]) && BatchOutcome(names, batches[k]).None? ==> NoneRaises(names, batches[..k + 1])
  {
    assert batches[..k + 1][..k] == batches[..k];
  }

  lemma OneDatasetMoved(before: map<string, WorkerStates>, after: map<string, WorkerStates>, b: NamedBatch)
    requires forall name: string :: name in after <==> name in before
    requires forall name: string | name in after && name in before :: after[name] == Latest(before[name], RowsFor(name, b))
    ensures after == Moved(before, b)
  {
    SameMap(after, Moved(before, b));
  }

  lemma NextExport(start: map<EnvKey, int>, before: map<EnvKey, int>, after: map<EnvKey, int>, names: set<string>,
                   name: string, d: map<string, Entry>)
    requires JointExported(before, start, names, d) && name !in names
    requires name in d && d[name].Inner? ==> Exported(after, before, name, d[name].states)
    requires !(name in d && d[name].Inner?) ==> after == before
    ensures JointExported(after, start, names + {name}, d)
  {
    forall key: EnvKey
      ensures key in after <==> Exports(names + {name}, d, key) || key in start
      ensures key in after ==>
        after[key] == if Exports(names + {name}, d, key) then ExportedValue(d, key) else start[key]
    {
      if key.name == name && Exports(names + {name}, d, key) {
        assert ExportedWorker(after, name, key.worker, d[name].states[key.worker]);
      }
    }
  }

  class OuterLoader {
    const names: seq<string>
    var globalId: Entry

    constructor (names: seq<string>)
      ensures this.names == names && globalId == GlobalId(0)
    {
      this.names, globalId := names, GlobalId(0);
    }

    method SetStartIteration(id: Entry)
      modifies this
      ensures globalId == id
    {
      globalId := id;
    }

    /** What yielding one batch does to the id; seeding the choice of the dataset with a dictionary raises. */
    method Yield() returns (error: Option<BatchError>)
      modifies this
      ensures old(globalId).Inner? ==> error == Some(TypeError) && globalId == old(globalId)
      ensures old(globalId).GlobalId? ==> error == None && globalId == GlobalId(old(globalId).id + 1)
    {
      if globalId.Inner? {
        return Some(TypeError);
      }
      globalId := GlobalId(globalId.id + 1);
      return None;
    }
  }

  /** One inner callback per dataset, and the outer loader they share. */
  class JointCosmosDataLoaderStateCallback {
    const outer: OuterLoader
    const inner: map<string, CosmosDataLoaderStateCallback>

    ghost predicate Valid() {
      && (forall name: string :: name in inner <==> name in outer.names)
      && (forall name | name in inner :: inner[name].name == name)
      && forall a, b | a in inner && b in inner && a != b :: inner[a] != inner[b]
    }

    ghost function State(): Joint
      reads outer, inner.Values
    {
      Joint(outer.globalId, map name | name in inner :: inner[name].state)
    }

    constructor (outer: OuterLoader)
      ensures Valid() && this.outer == outer && fresh(inner.Values)
      ensures State() == FreshJoint(set name | name in outer.names).(globalId := outer.globalId)
    {
      var inners: map<string, CosmosDataLoaderStateCallback> := map[];
      for k := 0 to |outer.names|
        invariant forall name: string :: name in inners <==> name in outer.names[..k]
        invariant forall name | name in inners :: inners[name].name == name && inners[name].state == map[]
        invariant forall a, b | a in inners && b in inners && a != b :: inners[a] != inners[b]
        invariant forall name | name in inners :: fresh(inners[name])
      {
        var callback := new CosmosDataLoaderStateCallback(outer.names[k]);
        inners := inners[outer.names[k] := callback];
      }
      this.outer, this.inner := outer, inners;
      new;
      assert outer.names[..|outer.names|] == outer.names;
      SameMap(State().inner, FreshJoint(set name | name in outer.names).inner);
    }

    /** A batch only moves the cursor of the dataset it names; other names are ignored. */
    method UpdateStateFromBatch(batch: NamedBatch) returns (error: Option<BatchError>)
      requires Valid()
      modifies inner.Values
      ensures error == BatchOutcome(outer.names, batch)
      ensures State().globalId == old(State()).globalId && State().inner == Moved(old(State()).inner, batch)
    {
      error := None;
      if batch.dataset.Some? && batch.dataset.value in inner {
        var cb := inner[batch.dataset.value];
        ghost var before := cb.state;
        error := cb.UpdateStateFromBatch(batch.columns);
        if Complete(batch.columns) {
          ghost var rows := Rows(batch.columns);
          LatestContinues(before, rows);
          StateIsUnique(before, cb.state, Latest(before, rows), rows, rows);
        }
      }
      OneDatasetMoved(old(State()).inner, State().inner, batch);
    }

    /**
     One turn of the trainer's loop on rank `r`: the owner's loader yields `batch`, the others receive it, and the
     callback sees it.
     */
    method TrainOn(r: nat, batch: NamedBatch) returns (error: Option<BatchError>)
      requires Valid()
      modifies outer, inner.Values
      ensures State() == AfterBatch(r, old(State()), batch)
      ensures error == TurnOutcome(r, outer.names, old(outer.globalId), batch)
    {
      if batch.owner == r {
        error := outer.Yield();
        assert State().inner == old(State()).inner;
        if error.Some? {
          return;
        }
      }
      error := UpdateStateFromBatch(batch);
    }

    /** The trainer's loop on rank `r`, until a turn raises after `seen` good ones; rank `iteration % cp` fetches. */
    method Train(r: nat, batches: seq<NamedBatch>, first: nat, cp: nat, gradAccum: nat)
      returns (seen: nat, error: Option<BatchError>)
      requires Valid() && cp > 0 && gradAccum > 0 && Scheduled(batches, first, cp, gradAccum)
      modifies outer, inner.Values
      ensures seen <= |batches| && NoneRaises(outer.names, batches[..seen])
      ensures error.None? ==> seen == |batches| && State() == AfterBatches(r, old(State()), batches)
      ensures error.Some? ==>
        && seen < |batches|
        && State() == AfterBatches(r, old(State()), batches[..seen + 1])
        && error == TurnOutcome(r, outer.names, AfterBatches(r, old(State()), batches[..seen]).globalId, batches[seen])
    {
      var iteration: nat, gradAccumIter: nat := first, 0;
      seen, error := 0, None;
      while seen < |batches|
        invariant seen <= |batches| && State() == AfterBatches(r, old(State()), batches[..seen])
        invariant NoneRaises(outer.names, batches[..seen]) && error.None?
        invariant AtTurn(seen, first, iteration, gradAccumIter, gradAccum)
      {
        var owner := iteration % cp;
        TurnOwner(batches, seen, first, iteration, gradAccumIter, cp, gradAccum);
        NextBatch(r, old(State()), batches, seen, outer.names);
        error := TrainOn(r, batches[seen].(owner := owner));
        if error.Some? {
          return;
        }
        seen, gradAccumIter := seen + 1, gradAccumIter + 1;
        if gradAccumIter == gradAccum {
          iteration, gradAccumIter := iteration + 1, 0;
        }
      }
      assert batches[..seen] == batches;
    }

    method StateDict() returns (d: map<string, Entry>)
      requires Valid()
      ensures d == JointStateDict(State())
    {
      var inners: map<string, Entry> := map[];
      var rest := inner.Keys;
      while rest != {}
        invariant rest <= inner.Keys && inners.Keys == inner.Keys - rest
        invariant forall name | name in inners :: inners[name] == Inner(inner[name].state)
        decreases rest
      {
        var name := Pick(rest);
        var states := inner[name].StateDict();
        inners, rest := inners[name := Inner(states)], rest - {name};
      }
      SameInners(inners, State());
      d := map[GLOBAL_ID := outer.globalId] + inners;
    }

    method LoadStateDict(d: map<string, Entry>, environ: Environ)
      requires Valid() && forall name | name in inner && name in d :: d[name].Inner?
      modifies outer, inner.Values, environ
      ensures State() == JointLoaded(old(State()), d)
      ensures JointExported(environ.vars, old(environ.vars), inner.Keys, d)
    {
      var globalId := if GLOBAL_ID in d then d[GLOBAL_ID] else GlobalId(0);
      outer.SetStartIteration(globalId);
      var rest := inner.Keys;
      while rest != {}
        invariant rest <= inner.Keys && outer.globalId == globalId
        invariant forall name | name in inner ::
          inner[name].state == if name in rest then old(inner[name].state) else LoadedInner(old(inner[name].state), name, d)
        invariant JointExported(environ.vars, old(environ.vars), inner.Keys - rest, d)
        decreases rest
      {
        var name := Pick(rest);
        ghost var before := environ.vars;
        if name in d {
          inner[name].LoadStateDict(d[name].states, environ);
        }
        NextExport(old(environ.vars), before, environ.vars, inner.Keys - rest, name, d);
        rest := rest - {name};
      }
      SameMap(State().inner, JointLoaded(old(State()), d).inner);
    }
  }

  lemma SameInners(inners: map<string, Entry>, s: Joint)
    requires inners.Keys == s.inner.Keys && forall name | name in inners :: inners[name] == Inner(s.inner[name])
    ensures map[GLOBAL_ID := s.globalId] + inners == JointStateDict(s)
  {
    SameMap(inners, map name | name in s.inner :: Inner(s.inner[name]));
  }
}
