/**
 The export thread of `HFExportCallback` on rank 0: the trainer starts one worker thread per exported
 checkpoint, and a worker leaves its exception behind for the trainer to raise. A run is any
 interleaving of trainer and worker steps.
 */
module ExportThread {
  import opened Wrappers

  /** `Stored`: the worker has put its exception where the trainer looks, but the thread is still alive. */
  datatype Phase = Working | Stored | Dead

  datatype Worker = Worker(iteration: nat, phase: Phase)

  /** The exception of worker number `worker`. */
  datatype Failure = Failure(worker: nat, exc: string)

  /** Where rank 0's trainer is inside `on_save_checkpoint` or `on_train_end`. */
  datatype Trainer = Idle | Saving(iteration: nat, joined: bool) | Ending(joined: bool)

  /** `pending` is `_worker_exception`; `stored` and `raised` are histories. `_export_thread` is the last worker. */
  datatype State = State(trainer: Trainer, workers: seq<Worker>, pending: Option<Failure>,
                         stored: seq<Failure>, raised: seq<Failure>)
  {
    predicate Alive(w: nat) { w < |workers| && workers[w].phase != Dead }
    predicate LastAlive() { workers != [] && Alive(|workers| - 1) }
  }

  datatype Step =
    | BeginSave(iteration: nat) | BeginTrainEnd | Join | Check
    | Store(w: nat, exc: string) // `except Exception` in `_save_and_upload`
    | Exit(w: nat) // the thread ends: after success, after storing, or on an exception that is not an `Exception`

  const INITIAL := State(Idle, [], None, [], [])

  function Apply(s: State, step: Step): Option<State> {
    match step
    case BeginSave(iteration) => if s.trainer.Idle? then Some(s.(trainer := Saving(iteration, false))) else None
    case BeginTrainEnd => if s.trainer.Idle? then Some(s.(trainer := Ending(false))) else None
    case Join => // `join` on a thread that is alive returns when it is dead
      if s.trainer.Idle? || s.trainer.joined || s.LastAlive() then None
      else Some(s.(trainer := s.trainer.(joined := true)))
    case Check =>
      if s.trainer.Idle? || !s.trainer.joined then None
      else if s.pending.Some? then Some(s.(trainer := Idle, pending := None, raised := s.raised + [s.pending.value]))
      else if s.trainer.Saving? then Some(s.(trainer := Idle, workers := s.workers + [Worker(s.trainer.iteration, Working)]))
      else Some(s.(trainer := Idle))
    case Store(w, exc) =>
      if w < |s.workers| && s.workers[w].phase == Working
      then Some(s.(workers := s.workers[w := s.workers[w].(phase := Stored)],
                   pending := Some(Failure(w, exc)), stored := s.stored + [Failure(w, exc)]))
      else None
    case Exit(w) => if s.Alive(w) then Some(s.(workers := s.workers[w := s.workers[w].(phase := Dead)])) else None
  }

  function Run(s: State, steps: seq<Step>): Option<State>
    decreases |steps|
  {
    if steps == [] then Some(s)
    else
      var next := Apply(s, steps[0]);
      if next.None? then None else Run(next.value, steps[1..])
  }

  function Pending(s: State): seq<Failure> {
    if s.pending.Some? then [s.pending.value] else []
  }

  /** Only the last worker can be alive, and once joined not even that one. */
  ghost predicate OneThread(s: State) {
    && (forall w: nat | w + 1 < |s.workers| :: !s.Alive(w))
    && (!s.trainer.Idle? && s.trainer.joined ==> !s.LastAlive())
  }

  /** Failures come from distinct workers in order, and none from one that is still working. */
  ghost predicate StoredOnce(s: State) {
    && (forall i: nat, j: nat | i < j < |s.stored| :: s.stored[i].worker < s.stored[j].worker)
    && (forall i: nat | i < |s.stored| :: s.stored[i].worker < |s.workers| && s.workers[s.stored[i].worker].phase != Working)
  }

  ghost predicate Inv(s: State) {
    && OneThread(s)
    && StoredOnce(s)
    && s.stored == s.raised + Pending(s)
    && (s.pending.Some? ==> s.pending.value.worker == |s.workers| - 1)
  }

  lemma StepKeepsInv(s: State, step: Step)
    requires Inv(s) && Apply(s, step).Some?
    ensures Inv(Apply(s, step).value)
  {
    match step
    case Store(w, exc) => StoreKeepsInv(s, w, exc);
    case Check => CheckKeepsInv(s);
    case Exit(w) => ExitKeepsInv(s, w);
    case _ =>
      assert forall w: nat :: Apply(s, step).value.Alive(w) == s.Alive(w);
  }

  lemma ExitKeepsInv(s: State, w: nat)
    requires Inv(s) && s.Alive(w)
    ensures Inv(Apply(s, Exit(w)).value)
  {
    var s' := Apply(s, Exit(w)).value;
    assert forall v: nat | v < |s.workers| && v != w :: s'.workers[v] == s.workers[v];
    assert forall v: nat :: s'.Alive(v) ==> s.Alive(v);
  }

  lemma CheckKeepsInv(s: State)
    requires Inv(s) && Apply(s, Check).Some?
    ensures Inv(Apply(s, Check).value)
  {
    var s' := Apply(s, Check).value;
    assert s'.stored == s'.raised + Pending(s');
    assert forall w: nat | w < |s.workers| :: s'.workers[w] == s.workers[w] && !s.Alive(w);
  }

  lemma PendingIsLast(s: State)
    requires Inv(s) && s.pending.Some?
    ensures s.workers != [] && s.workers[|s.workers| - 1].phase != Working
  {
    assert s.stored[|s.raised|] == s.pending.value;
  }

  /** The only place an exception could be overwritten: nothing is pending when a worker stores one. */
  lemma StoreKeepsInv(s: State, w: nat, exc: string)
    requires Inv(s) && Apply(s, Store(w, exc)).Some?
    ensures s.pending == None && Inv(Apply(s, Store(w, exc)).value)
  {
    assert s.Alive(w);
    assert w == |s.workers| - 1;
    if s.pending.Some? {
      PendingIsLast(s);
    }
    var s' := Apply(s, Store(w, exc)).value;
    assert s'.stored == s'.raised + Pending(s');
    assert forall v: nat | v < w :: s'.workers[v] == s.workers[v] && !s.Alive(v);
  }

  lemma {:induction false} RunKeepsInv(s: State, steps: seq<Step>)
    requires Inv(s) && Run(s, steps).Some?
    ensures Inv(Run(s, steps).value)
    decreases |steps|
  {
    if steps != [] {
      StepKeepsInv(s, steps[0]);
      RunKeepsInv(Apply(s, steps[0]).value, steps[1..]);
    }
  }

  /**
   Main result, for every interleaving: at most one export thread is alive; the failures raised are the
   failures stored, in order, each once, except for at most one still pending; a worker never stores
   over a pending one; and when a new export starts, or train end is over, none is left.
   */
  lemma NoFailureIsLost(steps: seq<Step>, step: Step)
    requires Run(INITIAL, steps).Some?
    ensures var s := Run(INITIAL, steps).value;
      && (forall v: nat, w: nat | s.Alive(v) && s.Alive(w) :: v == w)
      && s.stored == s.raised + Pending(s)
      && (forall i: nat, j: nat | i < j < |s.stored| :: s.stored[i].worker < s.stored[j].worker)
      && (step.Store? && Apply(s, step).Some? ==> s.pending == None)
      && (step == Check && Apply(s, step).Some? ==>
            var s' := Apply(s, step).value;
            && s'.raised == s'.stored == s.stored
            && (forall w: nat :: !s.Alive(w))
            && (|s'.workers| > |s.workers| ==> s.raised == s.stored))
  {
    RunKeepsInv(INITIAL, steps);
    var s := Run(INITIAL, steps).value;
    if step.Store? && Apply(s, step).Some? {
      StoreKeepsInv(s, step.w, step.exc);
    }
    forall v: nat, w: nat | s.Alive(v) && s.Alive(w) ensures v == w {
      assert v + 1 >= |s.workers| && w + 1 >= |s.workers|;
    }
  }

  // ---------------------------------------------------------------------------------------------
  // The callback as code
  // ---------------------------------------------------------------------------------------------

  /** What the last worker does until it is dead: it may store an exception before it ends. */
  function WorkerEnds(s: State, exc: Option<string>): seq<Step> {
    var last := |s.workers| - 1;
    if !s.LastAlive() then []
    else (if exc.Some? then [Store(last, exc.value)] else []) + [Exit(last)]
  }

  /** An exception can only come from a worker that has not stored one yet. */
  predicate CanEnd(s: State, exc: Option<string>) {
    exc.Some? ==> s.LastAlive() && s.workers[|s.workers| - 1].phase == Working
  }

  class HFExportCallback {
    var exportThread: Option<Worker>
    var workerException: Option<string>
    ghost var state: State

    ghost predicate Valid()
      reads this
    {
      && Inv(state) && state.trainer == Idle
      && workerException == (if state.pending.Some? then Some(state.pending.value.exc) else None)
      && exportThread == if state.workers == [] then None else Some(state.workers[|state.workers| - 1])
    }

    constructor ()
      ensures Valid() && state == INITIAL
    {
      exportThread, workerException, state := None, None, INITIAL;
    }

    /** `join` of a live thread; `exc` is what the worker stores meanwhile, if anything. */
    method JoinThread(exc: Option<string>)
      requires Valid() && CanEnd(state, exc) && state.LastAlive()
      modifies this
      ensures Valid() && !state.LastAlive() && |state.workers| == |old(state.workers)| && state.raised == old(state.raised)
      ensures Run(old(state), WorkerEnds(old(state), exc)) == Some(state)
    {
      ghost var s := state;
      RunWorkerEnds(s, exc);
      RunKeepsInv(s, WorkerEnds(s, exc));
      if exc.Some? {
        workerException := exc;
      }
      exportThread := Some(exportThread.value.(phase := Dead));
      state := Run(s, WorkerEnds(s, exc)).value;
    }

    /** The part of `on_save_checkpoint` after the weights are gathered, and all of `on_train_end`. */
    method OnSaveCheckpoint(iteration: nat, exc: Option<string>) returns (raised: Option<string>)
      requires Valid() && CanEnd(state, exc)
      modifies this
      ensures Valid()
      ensures Run(old(state), WorkerEnds(old(state), exc) + [BeginSave(iteration), Join, Check]) == Some(state)
      ensures raised.Some? ==> old(state.workers) != []
      ensures state.raised ==
        old(state.raised) + (if raised.Some? then [Failure(|old(state.workers)| - 1, raised.value)] else [])
      ensures raised == None <==> |state.workers| == |old(state.workers)| + 1
    {
      ghost var before, ends := state, WorkerEnds(state, exc);
      if exportThread.Some? && exportThread.value.phase != Dead {
        JoinThread(exc);
      }
      assert Run(before, ends) == Some(state);
      ghost var joined := state;
      CheckSteps(joined, BeginSave(iteration));
      RunAppend(before, ends, [BeginSave(iteration), Join, Check]);
      RunKeepsInv(joined, [BeginSave(iteration), Join, Check]);
      state := Run(joined, [BeginSave(iteration), Join, Check]).value;
      assert joined.pending.Some? ==> joined.pending.value == Failure(|joined.workers| - 1, joined.pending.value.exc);
      if workerException.Some? {
        raised, workerException := workerException, None;
        return;
      }
      exportThread := Some(Worker(iteration, Working));
      raised := None;
    }

    method OnTrainEnd(exc: Option<string>) returns (raised: Option<string>)
      requires Valid() && CanEnd(state, exc)
      modifies this
      ensures Valid() && !state.LastAlive() && state.raised == state.stored
      ensures Run(old(state), WorkerEnds(old(state), exc) + [BeginTrainEnd, Join, Check]) == Some(state)
      ensures raised.Some? ==> old(state.workers) != []
      ensures state.raised ==
        old(state.raised) + (if raised.Some? then [Failure(|old(state.workers)| - 1, raised.value)] else [])
    {
      ghost var before, ends := state, WorkerEnds(state, exc);
      if exportThread.Some? && exportThread.value.phase != Dead {
        JoinThread(exc);
      }
      assert Run(before, ends) == Some(state);
      ghost var joined := state;
      CheckSteps(joined, BeginTrainEnd);
      RunAppend(before, ends, [BeginTrainEnd, Join, Check]);
      RunKeepsInv(joined, [BeginTrainEnd, Join, Check]);
      state := Run(joined, [BeginTrainEnd, Join, Check]).value;
      assert joined.pending.Some? ==> joined.pending.value == Failure(|joined.workers| - 1, joined.pending.value.exc);
      raised, workerException := workerException, None;
    }
  }

  lemma RunWorkerEnds(s: State, exc: Option<string>)
    requires CanEnd(s, exc) && s.LastAlive()
    ensures var last := |s.workers| - 1;
      var s' := s.(workers := s.workers[last := s.workers[last].(phase := Dead)]);
      Run(s, WorkerEnds(s, exc)) == Some(
        if exc.None? then s'
        else s'.(pending := Some(Failure(last, exc.value)), stored := s.stored + [Failure(last, exc.value)]))
  {
    var last := |s.workers| - 1;
    RunOne(s, Exit(last));
    if exc.Some? {
      var store := Store(last, exc.value);
      var s1 := Apply(s, store).value;
      RunOne(s, store);
      RunOne(s1, Exit(last));
      RunAppend(s, [store], [Exit(last)]);
      assert s1.workers[last := s1.workers[last].(phase := Dead)] == s.workers[last := s.workers[last].(phase := Dead)];
    } else {
      assert [] + [Exit(last)] == [Exit(last)];
    }
  }

  /** Begin, join and check in a row, when no thread is alive. */
  lemma CheckSteps(s: State, begin: Step)
    requires s.trainer == Idle && !s.LastAlive() && (begin.BeginSave? || begin == BeginTrainEnd)
    ensures Run(s, [begin, Join, Check]) == Some(
      if s.pending.Some? then s.(pending := None, raised := s.raised + [s.pending.value])
      else if begin.BeginSave? then s.(workers := s.workers + [Worker(begin.iteration, Working)])
      else s)
  {
    var s1 := Apply(s, begin).value;
    var s2 := Apply(s1, Join).value;
    RunOne(s, begin);
    RunOne(s1, Join);
    RunOne(s2, Check);
    RunAppend(s, [begin], [Join]);
    RunAppend(s, [begin] + [Join], [Check]);
    assert [begin, Join, Check] == [begin] + [Join] + [Check];
  }

  lemma RunOne(s: State, step: Step)
    ensures Run(s, [step]) == Apply(s, step)
  {
    assert [step][1..] == [];
  }

  lemma {:induction false} RunAppend(s: State, a: seq<Step>, b: seq<Step>)
    requires Run(s, a).Some?
    ensures Run(s, a + b) == Run(Run(s, a).value, b)
    decreases |a|
  {
    if a == [] {
      assert a + b == b;
    } else {
      assert (a + b)[1..] == a[1..] + b;
      RunAppend(Apply(s, a[0]).value, a[1..], b);
    }
  }
}
