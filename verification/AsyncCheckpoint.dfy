/**
 The asynchronous checkpoint protocol of `DistributedCheckpointer`: on every rank a trainer and a
 background saver share a staging buffer, two queues and an in-progress flag, and rank 0's saver
 publishes the latest-checkpoint file. A run is any interleaving of the steps below; a crashed process is
 one that takes no further steps, so every reachable state is also a state after a crash.
 */
module AsyncCheckpoint {
  import opened Wrappers
  import opened Blocks

  /**
   `schedule[j]` is the iteration of the j-th save, the same on every rank. `keys` entries (model,
   optim, scheduler, trainer) are saved collectively. The base class pickles the dataloader state
   before it queues the job; the distillation class leaves the pickle to the background worker.
   */
  datatype Config = Config(ranks: nat, keys: nat, schedule: seq<nat>, pickleInJob: bool) {
    ghost predicate Valid() { ranks > 0 && keys > 0 }
  }

  /** A queued job names the target directory; the data travels in the shared staging buffer. */
  datatype Message = Job(target: nat) | Terminate

  datatype SaveDone = SaveDone(iteration: nat, succeeded: bool)

  /** Where the trainer is. `Raised` is the RuntimeError that ends training, `Finished` follows Terminate. */
  datatype Trainer = Idle | Waited | Pickled | Staged | Raised | Finished

  /**
   `Writing`: `iteration` was read from the buffer, `key` collectives have returned, and `entered`
   says that this rank's shard of the next key is written while the collective is still running.
   */
  datatype Saver =
    | Waiting
    | Writing(target: nat, iteration: nat, key: nat, entered: bool, pickled: bool, published: bool)
    | Exited

  /** One rank's shard of entry `key`, stored under iteration `target` with the data of iteration `data`. */
  datatype Shard = Shard(target: nat, key: nat, data: nat)

  datatype Rank = Rank(
    trainer: Trainer,
    submitted: nat, // saves queued so far
    inProgress: bool,
    buffer: Option<nat>, // iteration whose state is staged
    sendQueue: seq<Message>,
    recvQueue: seq<SaveDone>,
    callbacks: seq<nat>, // iterations passed to on_save_checkpoint_success
    callbackRaised: bool,
    saver: Saver,
    shards: seq<Shard>, // written so far, in order
    returned: nat, // collectives that have returned
    pickles: set<nat>) // iterations whose dataloader pickle is written

  datatype State = State(ranks: seq<Rank>, latest: Option<nat>, published: nat)

  datatype Step =
    | BeginSave | WritePickle | Stage | Submit | Finalize
    | Receive | ReceiveTimesOut | ReceiveCallbackRaises
    | Take | WriteShard | Return | Fail | WorkerPickle | Publish | Acknowledge

  const InitialRank := Rank(Idle, 0, false, None, [], [], [], false, Waiting, [], 0, {})

  function Initial(cfg: Config): State {
    State(seq(cfg.ranks, _ => InitialRank), None, 0)
  }

  /** The steps of `save`, `_wait_for_previous_async_checkpoint` and `finalize`. */
  function TrainerStep(cfg: Config, r: Rank, step: Step): Option<Rank> {
    match step
    case BeginSave => // nothing in progress: the wait at the start of save() returns at once
      if r.trainer == Idle && !r.inProgress && r.submitted < |cfg.schedule| then Some(r.(trainer := Waited)) else None
    case WritePickle =>
      if r.trainer == Waited && r.submitted < |cfg.schedule| then
        Some(r.(trainer := Pickled, pickles := if cfg.pickleInJob then r.pickles else r.pickles + {cfg.schedule[r.submitted]}))
      else None
    case Stage =>
      if r.trainer == Pickled && r.submitted < |cfg.schedule| then
        Some(r.(trainer := Staged, buffer := Some(cfg.schedule[r.submitted])))
      else None
    case Submit =>
      if r.trainer == Staged && r.submitted < |cfg.schedule| then
        Some(r.(trainer := Idle, inProgress := true, submitted := r.submitted + 1,
                sendQueue := r.sendQueue + [Job(cfg.schedule[r.submitted])]))
      else None
    case Receive =>
      if r.trainer == Idle && r.inProgress && r.recvQueue != [] then
        var done := r.recvQueue[0];
        var r' := r.(recvQueue := r.recvQueue[1..], inProgress := false);
        Some(if done.succeeded then r'.(callbacks := r.callbacks + [done.iteration]) else r'.(trainer := Raised))
      else None
    case ReceiveTimesOut =>
      if r.trainer == Idle && r.inProgress then Some(r.(trainer := Raised)) else None
    case ReceiveCallbackRaises => // the flag is reset only after the callback returned
      if r.trainer == Idle && r.inProgress && r.recvQueue != [] && r.recvQueue[0].succeeded then
        Some(r.(recvQueue := r.recvQueue[1..], callbacks := r.callbacks + [r.recvQueue[0].iteration],
                callbackRaised := true, trainer := Raised))
      else None
    case Finalize =>
      if r.trainer == Idle && !r.inProgress then Some(r.(trainer := Finished, sendQueue := r.sendQueue + [Terminate])) else None
    case _ => None
  }

  /** The steps of `save_checkpoint_in_background` and `save_state_dict_worker`. */
  function SaverStep(cfg: Config, id: nat, r: Rank, step: Step, collectiveDone: bool): Option<Rank> {
    match step
    case Take =>
      if r.saver.Waiting? && r.sendQueue != [] then
        match r.sendQueue[0]
        case Terminate => Some(r.(sendQueue := r.sendQueue[1..], saver := Exited))
        case Job(target) =>
          if r.buffer.None? then None
          else Some(r.(sendQueue := r.sendQueue[1..], saver := Writing(target, r.buffer.value, 0, false, false, false)))
      else None
    case WriteShard =>
      if r.saver.Writing? && r.saver.key < cfg.keys && !r.saver.entered && r.buffer.Some? then
        Some(r.(saver := r.saver.(entered := true), shards := r.shards + [Shard(r.saver.target, r.saver.key, r.buffer.value)]))
      else None
    case Return =>
      if r.saver.Writing? && r.saver.entered && collectiveDone then
        Some(r.(saver := r.saver.(key := r.saver.key + 1, entered := false), returned := r.returned + 1))
      else None
    case WorkerPickle => // the dataloader entry is the last one of the distillation job
      if cfg.pickleInJob && r.saver.Writing? && r.saver.key == cfg.keys && !r.saver.pickled then
        Some(r.(saver := r.saver.(pickled := true), pickles := r.pickles + {r.saver.target}))
      else None
    case Publish =>
      if id == 0 && Written(cfg, r.saver) && !r.saver.published then Some(r.(saver := r.saver.(published := true))) else None
    case Acknowledge =>
      if Written(cfg, r.saver) && (id == 0 ==> r.saver.published) then
        Some(r.(saver := Waiting, recvQueue := r.recvQueue + [SaveDone(r.saver.iteration, true)]))
      else None
    case Fail => // any exception in the worker: report it and wait for the next job
      if r.saver.Writing? then
        Some(r.(saver := Waiting, recvQueue := r.recvQueue + [SaveDone(r.saver.iteration, false)]))
      else None
    case _ => None
  }

  predicate Written(cfg: Config, saver: Saver) {
    saver.Writing? && saver.key == cfg.keys && (cfg.pickleInJob ==> saver.pickled)
  }

  function RankStep(cfg: Config, id: nat, r: Rank, step: Step, collectiveDone: bool): Option<Rank> {
    var t := TrainerStep(cfg, r, step);
    if t.Some? then t else SaverStep(cfg, id, r, step, collectiveDone)
  }

  /** Every rank has arrived at the collective rank `id` is in; collectives match by their order. */
  ghost predicate CollectiveDone(s: State, id: nat)
    requires id < |s.ranks|
  {
    forall q: nat | q < |s.ranks| :: |s.ranks[q].shards| >= |s.ranks[id].shards|
  }

  ghost function Apply(cfg: Config, s: State, id: nat, step: Step): Option<State> {
    if id >= |s.ranks| then None
    else
      var r := RankStep(cfg, id, s.ranks[id], step, CollectiveDone(s, id));
      if r.None? then None
      else
        var ranks := s.ranks[id := r.value];
        if step == Publish && r.value.saver.Writing? then Some(State(ranks, Some(r.value.saver.target), r.value.submitted))
        else Some(s.(ranks := ranks))
  }

  datatype Event = Event(rank: nat, step: Step)

  /** The state after a run, or None if some event was not enabled. */
  ghost function Run(cfg: Config, events: seq<Event>): Option<State> {
    if events == [] then Some(Initial(cfg))
    else
      var e, before := events[|events| - 1], Run(cfg, events[..|events| - 1]);
      if before.None? then None else Apply(cfg, before.value, e.rank, e.step)
  }

  // ---------------------------------------------------------------------------------------------
  // The invariant of one rank
  // ---------------------------------------------------------------------------------------------

  function Jobs(queue: seq<Message>): nat {
    if queue == [] then 0 else (if queue[0].Job? then 1 else 0) + Jobs(queue[1..])
  }

  function One(b: bool): nat { if b then 1 else 0 }

  /** Queued jobs + job being written + unconsumed SaveDone, plus a SaveDone lost to a raising callback. */
  function Outstanding(r: Rank): nat {
    Jobs(r.sendQueue) + One(r.saver.Writing?) + |r.recvQueue| + One(r.callbackRaised)
  }

  /** At most one message is queued, and Terminate only after the trainer has finished. */
  predicate QueueShape(r: Rank) {
    || r.sendQueue == []
    || (|r.sendQueue| == 1 && r.sendQueue[0].Job? && r.saver.Waiting?)
    || (r.sendQueue == [Terminate] && r.saver.Waiting? && r.trainer == Finished)
  }

  /** The iteration of the last submitted save. */
  ghost predicate IsCurrent(cfg: Config, r: Rank, iteration: nat) {
    0 < r.submitted <= |cfg.schedule| && cfg.schedule[r.submitted - 1] == iteration
  }

  /** The job in flight, wherever it is, carries the current iteration, and the buffer still holds its data. */
  ghost predicate InFlight(cfg: Config, r: Rank) {
    && (r.sendQueue != [] && r.sendQueue[0].Job? ==>
          IsCurrent(cfg, r, r.sendQueue[0].target) && r.buffer == Some(r.sendQueue[0].target))
    && (r.saver.Writing? ==>
          IsCurrent(cfg, r, r.saver.target) && r.buffer == Some(r.saver.target) && r.saver.iteration == r.saver.target)
    && (r.recvQueue != [] ==> IsCurrent(cfg, r, r.recvQueue[0].iteration))
  }

  /** The last save was not (yet) acknowledged to the callbacks. */
  predicate Unacknowledged(r: Rank) {
    if r.inProgress then !r.callbackRaised else r.trainer == Raised
  }

  /** Success callbacks have fired for the submitted saves in order, all but an unacknowledged last one. */
  ghost predicate CallbackOrder(cfg: Config, r: Rank) {
    && r.submitted <= |cfg.schedule|
    && One(Unacknowledged(r)) <= r.submitted
    && r.callbacks == cfg.schedule[..r.submitted - One(Unacknowledged(r))]
  }

  /** The last save cannot complete: its worker failed. */
  predicate Failed(r: Rank) {
    (r.recvQueue != [] && !r.recvQueue[0].succeeded) || (r.trainer == Raised && !r.inProgress)
  }

  /** Saves whose entries are all written and whose collectives have all returned. */
  ghost function Completed(r: Rank): nat
    requires r.submitted > 0 || (Jobs(r.sendQueue) == 0 && !r.saver.Writing? && !Failed(r))
  {
    if Jobs(r.sendQueue) > 0 || r.saver.Writing? || Failed(r) then r.submitted - 1 else r.submitted
  }

  /** How many shards are written and how many collectives have returned. */
  ghost predicate Progress(cfg: Config, r: Rank) {
    && (Jobs(r.sendQueue) > 0 || r.saver.Writing? || Failed(r) ==> r.submitted > 0)
    && Completed(r) * cfg.keys <= r.returned <= |r.shards| <= r.submitted * cfg.keys
    && (r.saver.Writing? ==>
          && r.saver.key <= cfg.keys && (r.saver.entered ==> r.saver.key < cfg.keys)
          && r.returned == (r.submitted - 1) * cfg.keys + r.saver.key
          && |r.shards| == r.returned + One(r.saver.entered))
    && (Jobs(r.sendQueue) > 0 ==> |r.shards| == (r.submitted - 1) * cfg.keys)
  }

  /** Shard number `m` belongs to save `m / keys`, is its entry `m % keys`, and holds that save's own data. */
  ghost predicate ShardsInOrder(cfg: Config, r: Rank)
    requires cfg.Valid()
  {
    forall m: nat | m < |r.shards| :: ShardIs(cfg, r.shards[m], m)
  }

  ghost predicate ShardIs(cfg: Config, shard: Shard, m: nat)
    requires cfg.Valid()
  {
    m / cfg.keys < |cfg.schedule| &&
    shard == Shard(cfg.schedule[m / cfg.keys], m % cfg.keys, cfg.schedule[m / cfg.keys])
  }

  /** In the base class every queued save has its pickle written. */
  ghost predicate PicklesFirst(cfg: Config, r: Rank) {
    !cfg.pickleInJob ==>
      && (forall j: nat | j < r.submitted && j < |cfg.schedule| :: cfg.schedule[j] in r.pickles)
      && ((r.trainer == Pickled || r.trainer == Staged) && r.submitted < |cfg.schedule| ==>
            cfg.schedule[r.submitted] in r.pickles)
  }

  /** A worker that has done its own pickle has written it. */
  ghost predicate OwnPickle(r: Rank) {
    r.saver.Writing? && r.saver.pickled ==> r.saver.target in r.pickles
  }

  predicate Preparing(t: Trainer) { t == Waited || t == Pickled || t == Staged }

  ghost predicate RankInv(cfg: Config, r: Rank)
    requires cfg.Valid()
  {
    && Outstanding(r) == One(r.inProgress)
    && QueueShape(r)
    && (r.saver.Exited? ==> r.trainer == Finished)
    && (r.trainer == Finished || Preparing(r.trainer) ==> !r.inProgress)
    && (Preparing(r.trainer) ==> r.submitted < |cfg.schedule|)
    && (r.trainer == Finished ==> r.saver.Exited? || r.sendQueue == [Terminate])
    && (r.trainer == Staged && r.submitted < |cfg.schedule| ==> r.buffer == Some(cfg.schedule[r.submitted]))
    && (r.callbackRaised ==> r.trainer == Raised && r.submitted > 0)
    && InFlight(cfg, r)
    && CallbackOrder(cfg, r)
    && Progress(cfg, r)
    && ShardsInOrder(cfg, r)
    && PicklesFirst(cfg, r)
    && OwnPickle(r)
  }

  lemma PrepareKeepsInv(cfg: Config, r: Rank, step: Step)
    requires cfg.Valid() && RankInv(cfg, r) && TrainerStep(cfg, r, step).Some?
    requires step == BeginSave || step == WritePickle || step == Stage
    ensures RankInv(cfg, TrainerStep(cfg, r, step).value)
  {
    var r' := TrainerStep(cfg, r, step).value;
    assert r'.sendQueue == r.sendQueue == [] && r'.recvQueue == r.recvQueue == [];
  }

  lemma SubmitKeepsInv(cfg: Config, r: Rank)
    requires cfg.Valid() && RankInv(cfg, r) && TrainerStep(cfg, r, Submit).Some?
    ensures RankInv(cfg, TrainerStep(cfg, r, Submit).value)
  {
    var r' := TrainerStep(cfg, r, Submit).value;
    assert r.sendQueue == [] && r.recvQueue == [];
    assert r'.sendQueue == [Job(cfg.schedule[r.submitted])];
    assert r'.sendQueue[1..] == [];
    SubmitKeepsProgress(cfg, r);
  }

  lemma SubmitKeepsProgress(cfg: Config, r: Rank)
    requires Progress(cfg, r) && r.sendQueue == [] && !r.saver.Writing? && !Failed(r)
    requires r.trainer == Staged && r.submitted < |cfg.schedule|
    ensures Progress(cfg, TrainerStep(cfg, r, Submit).value)
  {
    var r' := TrainerStep(cfg, r, Submit).value;
    assert r'.sendQueue == [Job(cfg.schedule[r.submitted])];
    assert r'.sendQueue[1..] == [];
    MulLe(r.submitted, r.submitted + 1, cfg.keys);
  }

  lemma FinalizeKeepsInv(cfg: Config, r: Rank)
    requires cfg.Valid() && RankInv(cfg, r) && TrainerStep(cfg, r, Finalize).Some?
    ensures RankInv(cfg, TrainerStep(cfg, r, Finalize).value)
  {
    var r' := TrainerStep(cfg, r, Finalize).value;
    assert r.sendQueue == [] && r.recvQueue == [];
    assert r'.sendQueue == [Terminate];
    assert r'.sendQueue[1..] == [];
  }

  lemma ReceiveKeepsInv(cfg: Config, r: Rank, step: Step)
    requires cfg.Valid() && RankInv(cfg, r) && TrainerStep(cfg, r, step).Some?
    requires step == Receive || step == ReceiveCallbackRaises
    ensures RankInv(cfg, TrainerStep(cfg, r, step).value)
  {
    var r' := TrainerStep(cfg, r, step).value;
    assert |r.recvQueue| == 1 && r.sendQueue == [] && r'.recvQueue == [];
    var n := r.submitted - 1;
    assert cfg.schedule[..n + 1] == cfg.schedule[..n] + [cfg.schedule[n]];
  }

  lemma TrainerKeepsInv(cfg: Config, r: Rank, step: Step)
    requires cfg.Valid() && RankInv(cfg, r) && TrainerStep(cfg, r, step).Some?
    ensures RankInv(cfg, TrainerStep(cfg, r, step).value)
  {
    match step
    case BeginSave | WritePickle | Stage => PrepareKeepsInv(cfg, r, step);
    case Submit => SubmitKeepsInv(cfg, r);
    case Finalize => FinalizeKeepsInv(cfg, r);
    case Receive | ReceiveCallbackRaises => ReceiveKeepsInv(cfg, r, step);
    case ReceiveTimesOut => assert TrainerStep(cfg, r, step).value == r.(trainer := Raised);
    case _ =>
  }

  lemma SaverKeepsInv(cfg: Config, id: nat, r: Rank, step: Step, done: bool)
    requires cfg.Valid() && RankInv(cfg, r) && SaverStep(cfg, id, r, step, done).Some?
    ensures RankInv(cfg, SaverStep(cfg, id, r, step, done).value)
  {
    match step
    case Take => TakeKeepsInv(cfg, id, r, done);
    case WriteShard => WriteShardKeepsInv(cfg, id, r, done);
    case Acknowledge | Fail => DoneKeepsInv(cfg, id, r, step, done);
    case _ =>
  }

  lemma TakeKeepsInv(cfg: Config, id: nat, r: Rank, done: bool)
    requires cfg.Valid() && RankInv(cfg, r) && SaverStep(cfg, id, r, Take, done).Some?
    ensures RankInv(cfg, SaverStep(cfg, id, r, Take, done).value)
  {
    assert r.sendQueue[1..] == [];
    assert SaverStep(cfg, id, r, Take, done).value.shards == r.shards;
  }

  lemma WriteShardKeepsInv(cfg: Config, id: nat, r: Rank, done: bool)
    requires cfg.Valid() && RankInv(cfg, r) && SaverStep(cfg, id, r, WriteShard, done).Some?
    ensures RankInv(cfg, SaverStep(cfg, id, r, WriteShard, done).value)
  {
    var r' := SaverStep(cfg, id, r, WriteShard, done).value;
    var m, j := |r.shards|, r.submitted - 1;
    Decomposition(m, cfg.keys, j, r.saver.key);
    assert ShardIs(cfg, r'.shards[m], m);
  }

  lemma DoneKeepsInv(cfg: Config, id: nat, r: Rank, step: Step, done: bool)
    requires cfg.Valid() && RankInv(cfg, r) && SaverStep(cfg, id, r, step, done).Some?
    requires step == Acknowledge || step == Fail
    ensures RankInv(cfg, SaverStep(cfg, id, r, step, done).value)
  {
    var r' := SaverStep(cfg, id, r, step, done).value;
    assert r.recvQueue == [] && |r'.recvQueue| == 1 && r'.recvQueue[0].iteration == r.saver.iteration;
    assert r'.shards == r.shards && r.sendQueue == [];
  }

  // ---------------------------------------------------------------------------------------------
  // The invariant of all ranks, over every run
  // ---------------------------------------------------------------------------------------------

  ghost predicate StateInv(cfg: Config, s: State)
    requires cfg.Valid()
  {
    RanksInv(cfg, s.ranks) && PublishedInv(cfg, s)
  }

  ghost predicate RanksInv(cfg: Config, ranks: seq<Rank>)
    requires cfg.Valid()
  {
    && |ranks| == cfg.ranks
    && (forall r: nat | r < cfg.ranks :: RankInv(cfg, ranks[r]))
    && (forall r: nat, q: nat | r < cfg.ranks && q < cfg.ranks :: ranks[r].returned <= |ranks[q].shards|)
  }

  /** What the latest-checkpoint file names was written and acknowledged on rank 0. */
  ghost predicate PublishedInv(cfg: Config, s: State)
    requires cfg.Valid() && |s.ranks| == cfg.ranks
  {
    && (s.published == 0 <==> s.latest.None?)
    && (s.published > 0 ==>
          && s.published <= |cfg.schedule|
          && s.latest == Some(cfg.schedule[s.published - 1])
          && s.published * cfg.keys <= s.ranks[0].returned
          && cfg.schedule[s.published - 1] in s.ranks[0].pickles)
  }

  lemma InitialInv(cfg: Config)
    requires cfg.Valid()
    ensures StateInv(cfg, Initial(cfg))
  {
    assert RankInv(cfg, InitialRank);
  }

  /** A step never loses shards, and only `Return` advances `returned`, by one. */
  lemma StepMonotone(cfg: Config, id: nat, r: Rank, step: Step, done: bool)
    requires RankStep(cfg, id, r, step, done).Some?
    ensures var r' := RankStep(cfg, id, r, step, done).value;
      && |r.shards| <= |r'.shards| && r.pickles <= r'.pickles && r'.returned == r.returned + One(step == Return)
      && (step == Return ==> r.saver.Writing? && r.saver.entered && done)
  {
  }

  lemma RankKeepsInv(cfg: Config, id: nat, r: Rank, step: Step, done: bool)
    requires cfg.Valid() && RankInv(cfg, r) && RankStep(cfg, id, r, step, done).Some?
    ensures RankInv(cfg, RankStep(cfg, id, r, step, done).value)
  {
    if TrainerStep(cfg, r, step).Some? {
      TrainerKeepsInv(cfg, r, step);
    } else {
      SaverKeepsInv(cfg, id, r, step, done);
    }
  }

  /** Rank 0 publishes the save it has just completed. */
  lemma PublishedIsCurrent(cfg: Config, id: nat, r: Rank, done: bool)
    requires cfg.Valid() && RankInv(cfg, r) && RankStep(cfg, id, r, Publish, done).Some?
    ensures var r' := RankStep(cfg, id, r, Publish, done).value;
      && id == 0 && r'.saver.Writing? && 0 < r'.submitted == r.submitted <= |cfg.schedule|
      && r'.saver.target == cfg.schedule[r.submitted - 1]
      && r'.returned == r.submitted * cfg.keys
      && r'.saver.target in r'.pickles
  {
    assert (r.submitted - 1) * cfg.keys + cfg.keys == r.submitted * cfg.keys;
  }

  /** One rank moves on: it keeps its shards, and what it returned from is written everywhere. */
  lemma ReplaceRank(cfg: Config, s: State, id: nat, r': Rank)
    requires cfg.Valid() && StateInv(cfg, s) && id < |s.ranks|
    requires RankInv(cfg, r') && |r'.shards| >= |s.ranks[id].shards| && r'.returned >= s.ranks[id].returned
    requires s.ranks[id].pickles <= r'.pickles
    requires r'.returned > s.ranks[id].returned ==> forall q: nat | q < cfg.ranks :: r'.returned <= |s.ranks[q].shards|
    ensures StateInv(cfg, s.(ranks := s.ranks[id := r']))
  {
    var s' := s.(ranks := s.ranks[id := r']);
    assert r'.returned <= |r'.shards|;
    forall r: nat, q: nat | r < cfg.ranks && q < cfg.ranks ensures s'.ranks[r].returned <= |s'.ranks[q].shards| {
      assert s.ranks[r].returned <= |s.ranks[q].shards|;
    }
  }

  lemma ApplyKeepsInv(cfg: Config, s: State, id: nat, step: Step)
    requires cfg.Valid() && StateInv(cfg, s) && Apply(cfg, s, id, step).Some?
    ensures StateInv(cfg, Apply(cfg, s, id, step).value)
  {
    var done := CollectiveDone(s, id);
    RankKeepsInv(cfg, id, s.ranks[id], step, done);
    StepMonotone(cfg, id, s.ranks[id], step, done);
    var r' := RankStep(cfg, id, s.ranks[id], step, done).value;
    if step == Return {
      ReturnedBehind(cfg, s, id);
    }
    ReplaceRank(cfg, s, id, r');
    if step == Publish {
      PublishKeepsInv(cfg, s, id);
    }
  }

  lemma PublishKeepsInv(cfg: Config, s: State, id: nat)
    requires cfg.Valid() && StateInv(cfg, s) && Apply(cfg, s, id, Publish).Some?
    requires RanksInv(cfg, Apply(cfg, s, id, Publish).value.ranks)
    ensures StateInv(cfg, Apply(cfg, s, id, Publish).value)
  {
    PublishedIsCurrent(cfg, id, s.ranks[id], CollectiveDone(s, id));
  }

  /** A collective that may return has every rank's shard written. */
  lemma ReturnedBehind(cfg: Config, s: State, id: nat)
    requires cfg.Valid() && StateInv(cfg, s) && id < |s.ranks|
    requires s.ranks[id].saver.Writing? && s.ranks[id].saver.entered && CollectiveDone(s, id)
    ensures forall q: nat | q < cfg.ranks :: s.ranks[id].returned + 1 <= |s.ranks[q].shards|
  {
  }

  lemma {:induction false} RunInv(cfg: Config, events: seq<Event>)
    requires cfg.Valid() && Run(cfg, events).Some?
    ensures StateInv(cfg, Run(cfg, events).value)
  {
    if events == [] {
      InitialInv(cfg);
    } else {
      var e, init := events[|events| - 1], events[..|events| - 1];
      RunInv(cfg, init);
      ApplyKeepsInv(cfg, Run(cfg, init).value, e.rank, e.step);
    }
  }

  // ---------------------------------------------------------------------------------------------
  // Main results
  // ---------------------------------------------------------------------------------------------

  /**
   In every reachable state, queued jobs + job being written + unconsumed SaveDone is 1 if a
   checkpoint is in progress and 0 otherwise, unless a success callback raised, which loses the one
   SaveDone and ends training. Hence the staging buffer is only rewritten when the saver does not
   hold it, and it keeps the data of the job in flight until the job is done.
   */
  lemma StagingIsExclusive(cfg: Config, events: seq<Event>, id: nat)
    requires cfg.Valid() && Run(cfg, events).Some? && id < cfg.ranks
    ensures var s := Run(cfg, events).value;
      && id < |s.ranks|
      && var r := s.ranks[id];
      && Jobs(r.sendQueue) + One(r.saver.Writing?) + |r.recvQueue| == (if r.callbackRaised then 0 else One(r.inProgress))
      && (r.callbackRaised ==> r.inProgress && r.trainer == Raised)
      && (TrainerStep(cfg, r, Stage).Some? ==> Jobs(r.sendQueue) == 0 && !r.saver.Writing?)
      && (r.saver.Writing? ==> r.buffer == Some(r.saver.target) && r.saver.iteration == r.saver.target)
  {
    RunInv(cfg, events);
  }

  /**
   Success callbacks fire in submission order, once per save, only for saves whose entries are all
   written on every rank; and Terminate is sent only after the last save was acknowledged.
   */
  lemma CallbacksInOrder(cfg: Config, events: seq<Event>, id: nat)
    requires cfg.Valid() && Run(cfg, events).Some? && id < cfg.ranks
    ensures var s := Run(cfg, events).value;
      && id < |s.ranks|
      && var r := s.ranks[id];
      && |r.callbacks| <= r.submitted <= |cfg.schedule| && r.callbacks == cfg.schedule[..|r.callbacks|]
      && (forall j: nat, q: nat, k: nat | j < |r.callbacks| && q < cfg.ranks && k < cfg.keys ::
            q < |s.ranks| && Shard(r.callbacks[j], k, r.callbacks[j]) in s.ranks[q].shards)
      && (r.trainer == Finished || TrainerStep(cfg, r, Finalize).Some? ==> |r.callbacks| == r.submitted)
  {
    RunInv(cfg, events);
    var s := Run(cfg, events).value;
    CallbacksArePrefix(cfg, s.ranks[id]);
    forall j: nat, q: nat, k: nat | j < |s.ranks[id].callbacks| && q < cfg.ranks && k < cfg.keys
      ensures Shard(s.ranks[id].callbacks[j], k, s.ranks[id].callbacks[j]) in s.ranks[q].shards
    {
      CallbackEntry(cfg, s, id, j, q, k);
    }
  }

  lemma CallbacksArePrefix(cfg: Config, r: Rank)
    requires cfg.Valid() && RankInv(cfg, r)
    ensures |r.callbacks| <= r.submitted <= |cfg.schedule| && r.callbacks == cfg.schedule[..|r.callbacks|]
    ensures r.trainer == Finished || TrainerStep(cfg, r, Finalize).Some? ==> |r.callbacks| == r.submitted
  {
  }

  /** Entry `k` of an acknowledged save is written on rank `q`. */
  lemma CallbackEntry(cfg: Config, s: State, id: nat, j: nat, q: nat, k: nat)
    requires cfg.Valid() && StateInv(cfg, s) && id < cfg.ranks && q < cfg.ranks && k < cfg.keys && j < |s.ranks[id].callbacks|
    ensures Shard(s.ranks[id].callbacks[j], k, s.ranks[id].callbacks[j]) in s.ranks[q].shards
  {
    var r := s.ranks[id];
    CallbacksArePrefix(cfg, r);
    CallbacksCompleted(cfg, r);
    MulLe(j + 1, |r.callbacks|, cfg.keys);
    assert r.returned <= |s.ranks[q].shards|;
    EntryWritten(cfg, s.ranks[q], j, k);
  }

  lemma CallbacksCompleted(cfg: Config, r: Rank)
    requires cfg.Valid() && RankInv(cfg, r)
    ensures |r.callbacks| * cfg.keys <= r.returned
  {
    MulLe(|r.callbacks|, Completed(r), cfg.keys);
  }

  /** If `j + 1` whole saves are written, entry `k` of save `j` is. */
  lemma EntryWritten(cfg: Config, r: Rank, j: nat, k: nat)
    requires cfg.Valid() && ShardsInOrder(cfg, r) && (j + 1) * cfg.keys <= |r.shards| && k < cfg.keys
    ensures j < |cfg.schedule| && Shard(cfg.schedule[j], k, cfg.schedule[j]) in r.shards
  {
    var m := j * cfg.keys + k;
    assert (j + 1) * cfg.keys == j * cfg.keys + cfg.keys;
    Decomposition(m, cfg.keys, j, k);
    assert ShardIs(cfg, r.shards[m], m);
  }

  /** If `j + 1` whole saves are written, save `j` was submitted, after its pickle in the base class. */
  lemma PickleWritten(cfg: Config, r: Rank, j: nat)
    requires cfg.Valid() && RankInv(cfg, r) && (j + 1) * cfg.keys <= |r.shards| && j < |cfg.schedule|
    ensures !cfg.pickleInJob ==> cfg.schedule[j] in r.pickles
  {
    assert (j + 1) * cfg.keys == j * cfg.keys + cfg.keys;
    Cancel(j, r.submitted, cfg.keys);
  }

  /**
   Whenever the latest-checkpoint file names iteration N, every rank's entries of N are fully written, with
   N's own data, and in the base class so is every rank's dataloader pickle.
   */
  lemma PublishIsSafe(cfg: Config, events: seq<Event>, iteration: nat)
    requires cfg.Valid() && Run(cfg, events).Some? && Run(cfg, events).value.latest == Some(iteration)
    ensures var s := Run(cfg, events).value;
      && iteration in cfg.schedule
      && (forall q: nat, k: nat | q < cfg.ranks && k < cfg.keys ::
            q < |s.ranks| && Shard(iteration, k, iteration) in s.ranks[q].shards)
      && (!cfg.pickleInJob ==> forall q: nat | q < cfg.ranks :: q < |s.ranks| && iteration in s.ranks[q].pickles)
  {
    RunInv(cfg, events);
    var s := Run(cfg, events).value;
    var j := s.published - 1;
    forall q: nat, k: nat | q < cfg.ranks && k < cfg.keys ensures Shard(iteration, k, iteration) in s.ranks[q].shards {
      EntryWritten(cfg, s.ranks[q], j, k);
    }
    forall q: nat | q < cfg.ranks ensures !cfg.pickleInJob ==> iteration in s.ranks[q].pickles {
      PickleWritten(cfg, s.ranks[q], j);
    }
  }

  // ---------------------------------------------------------------------------------------------
  // Runs that reach the states the promises exclude
  // ---------------------------------------------------------------------------------------------

  /** The run `events` leads to `s`. */
  ghost predicate Leads(cfg: Config, events: seq<Event>, s: State) {
    Run(cfg, events) == Some(s)
  }

  lemma Extend(cfg: Config, events: seq<Event>, s: State, id: nat, step: Step) returns (events': seq<Event>, s': State)
    requires Leads(cfg, events, s) && Apply(cfg, s, id, step).Some?
    ensures Leads(cfg, events', s') && Some(s') == Apply(cfg, s, id, step)
  {
    events' := events + [Event(id, step)];
    assert events'[..|events|] == events;
    s' := Apply(cfg, s, id, step).value;
  }

  /** Replaces rank `id` by the result of one local step. */
  lemma ExtendLocal(cfg: Config, events: seq<Event>, s: State, id: nat, step: Step, r': Rank)
    returns (events': seq<Event>, s': State)
    requires Leads(cfg, events, s) && id < |s.ranks| && step != Publish
    requires RankStep(cfg, id, s.ranks[id], step, CollectiveDone(s, id)) == Some(r')
    ensures Leads(cfg, events', s') && s' == s.(ranks := s.ranks[id := r'])
  {
    events', s' := Extend(cfg, events, s, id, step);
  }

  /** The ranks below `n` are at `a`, the others at `b`. */
  ghost predicate SplitAt(cfg: Config, s: State, n: nat, a: Rank, b: Rank) {
    |s.ranks| == cfg.ranks && forall q: nat | q < cfg.ranks :: s.ranks[q] == if q < n then a else b
  }

  /** All ranks take the same step, one after the other; a collective is complete while they do. */
  lemma AllStep(cfg: Config, events: seq<Event>, s: State, step: Step, b: Rank, a: Rank)
    returns (events': seq<Event>, s': State)
    requires Leads(cfg, events, s) && SplitAt(cfg, s, 0, a, b) && step != Publish && |a.shards| >= |b.shards|
    requires forall id: nat :: RankStep(cfg, id, b, step, true) == Some(a)
    ensures Leads(cfg, events', s') && SplitAt(cfg, s', cfg.ranks, a, b)
  {
    events', s' := events, s;
    for q := 0 to cfg.ranks
      invariant Leads(cfg, events', s') && SplitAt(cfg, s', q, a, b)
    {
      assert CollectiveDone(s', q);
      events', s' := ExtendLocal(cfg, events', s', q, step, a);
    }
  }

  /** The pickles the trainer has written before it submits the first save. */
  ghost function EarlyPickles(cfg: Config): set<nat>
    requires cfg.schedule != []
  {
    if cfg.pickleInJob then {} else {cfg.schedule[0]}
  }

  /** A rank that has submitted the first save. */
  ghost function Submitted(cfg: Config): Rank
    requires cfg.schedule != []
  {
    Rank(Idle, 1, true, Some(cfg.schedule[0]), [], [], [], false, Waiting, [], 0, EarlyPickles(cfg))
  }

  ghost function FirstShards(iteration: nat, m: nat): seq<Shard> {
    if m == 0 then [] else FirstShards(iteration, m - 1) + [Shard(iteration, m - 1, iteration)]
  }

  /** Its saver after `key` collectives of that save, possibly inside the next one. */
  ghost function Saving(cfg: Config, key: nat, entered: bool): Rank
    requires cfg.schedule != []
  {
    var n := cfg.schedule[0];
    Submitted(cfg).(saver := Writing(n, n, key, entered, false, false), shards := FirstShards(n, key + One(entered)), returned := key)
  }

  /** A rank after `n` of the steps `BeginSave, WritePickle, Stage, Submit, Take` of its first save. */
  ghost function Early(cfg: Config, n: nat): Rank
    requires cfg.schedule != []
  {
    var first := Some(cfg.schedule[0]);
    if n == 0 then InitialRank
    else if n == 1 then InitialRank.(trainer := Waited)
    else if n == 2 then InitialRank.(trainer := Pickled, pickles := EarlyPickles(cfg))
    else if n == 3 then InitialRank.(trainer := Staged, pickles := EarlyPickles(cfg), buffer := first)
    else if n == 4 then Submitted(cfg).(sendQueue := [Job(cfg.schedule[0])])
    else Saving(cfg, 0, false)
  }

  ghost function EarlyStep(n: nat): Step {
    if n == 0 then BeginSave else if n == 1 then WritePickle else if n == 2 then Stage else if n == 3 then Submit else Take
  }

  lemma EarlySteps(cfg: Config, n: nat, id: nat)
    requires cfg.Valid() && cfg.schedule != [] && n < 5
    ensures RankStep(cfg, id, Early(cfg, n), EarlyStep(n), true) == Some(Early(cfg, n + 1))
  {
    var first := cfg.schedule[0];
    assert [] + [Job(first)] == [Job(first)] && [Job(first)][1..] == [];
    assert {} + {first} == {first};
  }

  lemma SaverSteps(cfg: Config, key: nat, id: nat)
    requires cfg.Valid() && cfg.schedule != [] && key < cfg.keys
    ensures RankStep(cfg, id, Saving(cfg, key, false), WriteShard, true) == Some(Saving(cfg, key, true))
    ensures RankStep(cfg, id, Saving(cfg, key, true), Return, true) == Some(Saving(cfg, key + 1, false))
  {
  }

  /** Every rank's saver holds the first save. */
  lemma FirstSaveTaken(cfg: Config) returns (events: seq<Event>, s: State)
    requires cfg.Valid() && cfg.schedule != []
    ensures Leads(cfg, events, s) && SplitAt(cfg, s, 0, Saving(cfg, 0, false), Saving(cfg, 0, false))
  {
    events, s := [], Initial(cfg);
    for n := 0 to 5
      invariant Leads(cfg, events, s) && SplitAt(cfg, s, 0, Early(cfg, n), Early(cfg, n))
    {
      forall id: nat ensures RankStep(cfg, id, Early(cfg, n), EarlyStep(n), true) == Some(Early(cfg, n + 1)) {
        EarlySteps(cfg, n, id);
      }
      events, s := AllStep(cfg, events, s, EarlyStep(n), Early(cfg, n), Early(cfg, n + 1));
    }
  }

  /** One collective: all ranks write, then all return. */
  lemma OneCollective(cfg: Config, events: seq<Event>, s: State, key: nat) returns (events': seq<Event>, s': State)
    requires cfg.Valid() && cfg.schedule != [] && key < cfg.keys
    requires Leads(cfg, events, s) && SplitAt(cfg, s, 0, Saving(cfg, key, false), Saving(cfg, key, false))
    ensures Leads(cfg, events', s') && SplitAt(cfg, s', 0, Saving(cfg, key + 1, false), Saving(cfg, key + 1, false))
  {
    var a, b, c := Saving(cfg, key, false), Saving(cfg, key, true), Saving(cfg, key + 1, false);
    forall id: nat
      ensures RankStep(cfg, id, a, WriteShard, true) == Some(b) && RankStep(cfg, id, b, Return, true) == Some(c)
    {
      SaverSteps(cfg, key, id);
    }
    events', s' := AllStep(cfg, events, s, WriteShard, a, b);
    events', s' := AllStep(cfg, events', s', Return, b, c);
  }

  /** Every rank has written the entries of the first save, and every collective has returned. */
  lemma FirstSaveWritten(cfg: Config) returns (events: seq<Event>, s: State)
    requires cfg.Valid() && cfg.schedule != []
    ensures Leads(cfg, events, s) && SplitAt(cfg, s, cfg.ranks, Saving(cfg, cfg.keys, false), InitialRank)
  {
    events, s := FirstSaveTaken(cfg);
    for key := 0 to cfg.keys
      invariant Leads(cfg, events, s) && SplitAt(cfg, s, 0, Saving(cfg, key, false), Saving(cfg, key, false))
    {
      events, s := OneCollective(cfg, events, s, key);
    }
  }

  /** Rank 0 after its own pickle, which only the distillation job writes here. */
  ghost function ReadyToPublish(cfg: Config): Rank
    requires cfg.schedule != []
  {
    var n := cfg.schedule[0];
    Saving(cfg, cfg.keys, false).(saver := Writing(n, n, cfg.keys, false, cfg.pickleInJob, false), pickles := {n})
  }

  lemma PickleStep(cfg: Config, done: bool)
    requires cfg.Valid() && cfg.schedule != []
    ensures cfg.pickleInJob ==> RankStep(cfg, 0, Saving(cfg, cfg.keys, false), WorkerPickle, done) == Some(ReadyToPublish(cfg))
    ensures !cfg.pickleInJob ==> Saving(cfg, cfg.keys, false) == ReadyToPublish(cfg)
    ensures RankStep(cfg, 0, ReadyToPublish(cfg), Publish, done)
            == Some(ReadyToPublish(cfg).(saver := ReadyToPublish(cfg).saver.(published := true)))
  {
    assert {} + {cfg.schedule[0]} == {cfg.schedule[0]};
  }

  /** Rank 0 publishes the first save; the other ranks have not moved since their last collective. */
  lemma FirstSavePublished(cfg: Config) returns (events: seq<Event>, s: State)
    requires cfg.Valid() && cfg.schedule != []
    ensures Leads(cfg, events, s) && s.latest == Some(cfg.schedule[0]) && |s.ranks| == cfg.ranks
    ensures s.ranks[0] == ReadyToPublish(cfg).(saver := ReadyToPublish(cfg).saver.(published := true))
    ensures forall q: nat | 0 < q < cfg.ranks :: s.ranks[q] == Saving(cfg, cfg.keys, false)
  {
    events, s := FirstSaveWritten(cfg);
    PickleStep(cfg, CollectiveDone(s, 0));
    if cfg.pickleInJob {
      events, s := ExtendLocal(cfg, events, s, 0, WorkerPickle, ReadyToPublish(cfg));
    }
    PickleStep(cfg, CollectiveDone(s, 0));
    events, s := Extend(cfg, events, s, 0, Publish);
  }

  /** In `s` every rank has its pickle of the iteration the latest-checkpoint file names. */
  ghost predicate PicklesCovered(s: State) {
    s.latest.Some? ==> forall q: nat | q < |s.ranks| :: s.latest.value in s.ranks[q].pickles
  }

  ghost predicate AlwaysCovered(cfg: Config) {
    forall events: seq<Event> | Run(cfg, events).Some? :: PicklesCovered(Run(cfg, events).value)
  }

  /** Rank 0's own pickle is always written before it publishes, in either class. */
  lemma LeaderPickleIsWritten(cfg: Config, events: seq<Event>, iteration: nat)
    requires cfg.Valid() && Run(cfg, events).Some? && Run(cfg, events).value.latest == Some(iteration)
    ensures |Run(cfg, events).value.ranks| > 0 && iteration in Run(cfg, events).value.ranks[0].pickles
  {
    RunInv(cfg, events);
  }

  /**
   The exact condition: over all runs, every rank's pickle of the published iteration is written, if and
   only if pickles are written before the job is queued, or there is one rank, or nothing is ever saved.
   */
  lemma PicklesCoveredIff(cfg: Config)
    requires cfg.Valid()
    ensures AlwaysCovered(cfg) <==> !cfg.pickleInJob || cfg.ranks == 1 || cfg.schedule == []
  {
    if cfg.pickleInJob && cfg.ranks > 1 && cfg.schedule != [] {
      var events, s := FirstSavePublished(cfg);
      assert s.ranks[1].pickles == {};
      assert !PicklesCovered(Run(cfg, events).value);
    } else {
      forall events: seq<Event> | Run(cfg, events).Some? ensures PicklesCovered(Run(cfg, events).value) {
        CoveredRun(cfg, events);
      }
    }
  }

  lemma CoveredRun(cfg: Config, events: seq<Event>)
    requires cfg.Valid() && Run(cfg, events).Some? && (!cfg.pickleInJob || cfg.ranks == 1 || cfg.schedule == [])
    ensures PicklesCovered(Run(cfg, events).value)
  {
    RunInv(cfg, events);
    var s := Run(cfg, events).value;
    if s.latest.Some? {
      PublishIsSafe(cfg, events, s.latest.value);
      LeaderPickleIsWritten(cfg, events, s.latest.value);
    }
  }

  // ---------------------------------------------------------------------------------------------
  // A success callback that raises
  // ---------------------------------------------------------------------------------------------

  /** The completion message is consumed, the flag is still set, and training has ended. */
  ghost predicate MessageLost(r: Rank) {
    && r.callbackRaised && r.inProgress && r.trainer == Raised
    && Jobs(r.sendQueue) + One(r.saver.Writing?) + |r.recvQueue| == 0
  }

  ghost predicate CanLoseMessage(cfg: Config) {
    exists events: seq<Event>, id: nat :: LosesMessage(cfg, events, id)
  }

  ghost predicate LosesMessage(cfg: Config, events: seq<Event>, id: nat) {
    Run(cfg, events).Some? && id < |Run(cfg, events).value.ranks| && MessageLost(Run(cfg, events).value.ranks[id])
  }

  /** Rank 0 acknowledges its save, and the trainer's callback raises on the message. */
  lemma CallbackSteps(cfg: Config, done: bool)
    requires cfg.Valid() && cfg.schedule != []
    ensures var n := cfg.schedule[0];
      var published := ReadyToPublish(cfg).(saver := ReadyToPublish(cfg).saver.(published := true));
      var acknowledged := published.(saver := Waiting, recvQueue := [SaveDone(n, true)]);
      var lost := acknowledged.(recvQueue := [], callbacks := [n], callbackRaised := true, trainer := Raised);
      && RankStep(cfg, 0, published, Acknowledge, done) == Some(acknowledged)
      && RankStep(cfg, 0, acknowledged, ReceiveCallbackRaises, done) == Some(lost)
      && MessageLost(lost)
  {
    var done := SaveDone(cfg.schedule[0], true);
    assert [] + [done] == [done] && [done][1..] == [] && [] + [cfg.schedule[0]] == [cfg.schedule[0]];
  }

  /** The state is reached in every configuration that saves anything, and in no other. */
  lemma MessageCanBeLostIff(cfg: Config)
    requires cfg.Valid()
    ensures CanLoseMessage(cfg) <==> cfg.schedule != []
  {
    if cfg.schedule != [] {
      var n := cfg.schedule[0];
      var events, s := FirstSavePublished(cfg);
      var acknowledged := s.ranks[0].(saver := Waiting, recvQueue := [SaveDone(n, true)]);
      CallbackSteps(cfg, CollectiveDone(s, 0));
      events, s := ExtendLocal(cfg, events, s, 0, Acknowledge, acknowledged);
      CallbackSteps(cfg, CollectiveDone(s, 0));
      events, s := ExtendLocal(cfg, events, s, 0, ReceiveCallbackRaises,
        acknowledged.(recvQueue := [], callbacks := [n], callbackRaised := true, trainer := Raised));
      assert LosesMessage(cfg, events, 0);
    } else if CanLoseMessage(cfg) {
      var events: seq<Event>, id: nat :| LosesMessage(cfg, events, id);
      RunInv(cfg, events);
      NothingSubmitted(cfg, Run(cfg, events).value.ranks[id]);
    }
  }

  lemma NothingSubmitted(cfg: Config, r: Rank)
    requires cfg.Valid() && RankInv(cfg, r) && cfg.schedule == []
    ensures !r.callbackRaised
  {
  }

  // ---------------------------------------------------------------------------------------------
  // The trainer side as code
  // ---------------------------------------------------------------------------------------------

  /** The trainer steps of `steps`, one after the other. */
  ghost function TrainerRun(cfg: Config, r: Rank, steps: seq<Step>): Option<Rank>
    decreases |steps|
  {
    if steps == [] then Some(r)
    else
      var next := TrainerStep(cfg, r, steps[0]);
      if next.None? then None else TrainerRun(cfg, next.value, steps[1..])
  }

  /** How the wait for a previous checkpoint ends. */
  function WaitStep(timesOut: bool, callbackRaises: bool, succeeded: bool): Step {
    if timesOut then ReceiveTimesOut else if callbackRaises && succeeded then ReceiveCallbackRaises else Receive
  }

  /** The asynchronous fields of a `DistributedCheckpointer` on one rank; `rank` is its place in the protocol. */
  class DistributedCheckpointer {
    ghost const cfg: Config
    var checkpointInProgress: bool
    var cpuOffloadStateDict: Option<nat>
    var mpQueueSend: seq<Message>
    var mpQueueRecv: seq<SaveDone>
    var successCallbacks: seq<nat>
    var pickleFiles: set<nat>
    ghost var rank: Rank

    ghost predicate Valid()
      reads this
    {
      && rank.inProgress == checkpointInProgress
      && rank.buffer == cpuOffloadStateDict
      && rank.sendQueue == mpQueueSend && rank.recvQueue == mpQueueRecv
      && rank.callbacks == successCallbacks && rank.pickles == pickleFiles
    }

    constructor (ghost cfg: Config)
      ensures Valid() && rank == InitialRank && this.cfg == cfg
    {
      this.cfg := cfg;
      checkpointInProgress, cpuOffloadStateDict := false, None;
      mpQueueSend, mpQueueRecv := [], [];
      successCallbacks, pickleFiles := [], {};
      rank := InitialRank;
    }

    /** `_wait_for_previous_async_checkpoint`; the queue's `get` returns only once there is a message, or times out. */
    method WaitForPreviousAsyncCheckpoint(timesOut: bool, callbackRaises: bool) returns (raised: bool)
      requires Valid() && rank.trainer == Idle
      requires checkpointInProgress && !timesOut ==> mpQueueRecv != []
      modifies this
      ensures Valid()
      ensures !old(checkpointInProgress) ==> !raised && rank == old(rank)
      ensures old(checkpointInProgress) ==>
        var succeeded := old(mpQueueRecv) != [] && old(mpQueueRecv)[0].succeeded;
        && TrainerStep(cfg, old(rank), WaitStep(timesOut, callbackRaises, succeeded)) == Some(rank)
        && raised == (rank.trainer == Raised)
      ensures raised <==> old(checkpointInProgress) && (timesOut || callbackRaises || !old(mpQueueRecv)[0].succeeded)
      ensures checkpointInProgress <==> old(checkpointInProgress) && (timesOut || (callbackRaises && old(mpQueueRecv)[0].succeeded))
      ensures mpQueueRecv == if old(checkpointInProgress) && !timesOut then old(mpQueueRecv)[1..] else old(mpQueueRecv)
      ensures successCallbacks == if old(checkpointInProgress) && !timesOut && old(mpQueueRecv)[0].succeeded
                                  then old(successCallbacks) + [old(mpQueueRecv)[0].iteration] else old(successCallbacks)
      ensures mpQueueSend == old(mpQueueSend) && cpuOffloadStateDict == old(cpuOffloadStateDict) && pickleFiles == old(pickleFiles)
    {
      if !checkpointInProgress {
        return false;
      }
      var success := false;
      if timesOut {
        rank := rank.(trainer := Raised);
        return true;
      }
      var saveDone := mpQueueRecv[0];
      mpQueueRecv := mpQueueRecv[1..];
      rank := TrainerStep(cfg, rank, WaitStep(false, callbackRaises, saveDone.succeeded)).value;
      if saveDone.succeeded {
        successCallbacks := successCallbacks + [saveDone.iteration];
      }
      if !(saveDone.succeeded && callbackRaises) {
        checkpointInProgress := false;
        success := saveDone.succeeded;
      }
      raised := !success;
    }

    /** `save` in the asynchronous mode, from the wait to the queued job. */
    method Save(iteration: nat, timesOut: bool, callbackRaises: bool) returns (raised: bool)
      requires Valid() && rank.trainer == Idle && !cfg.pickleInJob
      requires rank.submitted < |cfg.schedule| && cfg.schedule[rank.submitted] == iteration
      requires checkpointInProgress && !timesOut ==> mpQueueRecv != []
      modifies this
      ensures Valid()
      ensures var wait := if !old(checkpointInProgress) then []
                          else [WaitStep(timesOut, callbackRaises, old(mpQueueRecv) != [] && old(mpQueueRecv)[0].succeeded)];
        var waited := TrainerRun(cfg, old(rank), wait);
        && waited.Some?
        && raised == (waited.value.trainer == Raised)
        && Some(rank) == if raised then waited else TrainerRun(cfg, waited.value, [BeginSave, WritePickle, Stage, Submit])
      ensures raised <==> old(checkpointInProgress) && (timesOut || callbackRaises || !old(mpQueueRecv)[0].succeeded)
      ensures if raised then pickleFiles == old(pickleFiles) && mpQueueSend == old(mpQueueSend)
              else pickleFiles == old(pickleFiles) + {iteration} && mpQueueSend == old(mpQueueSend) + [Job(iteration)]
      ensures !raised ==> checkpointInProgress && cpuOffloadStateDict == Some(iteration)
    {
      ghost var before := rank;
      ghost var wait := WaitStep(timesOut, callbackRaises, mpQueueRecv != [] && mpQueueRecv[0].succeeded);
      ghost var waiting := checkpointInProgress;
      raised := WaitForPreviousAsyncCheckpoint(timesOut, callbackRaises);
      assert waiting ==> [wait][1..] == [] && TrainerRun(cfg, before, [wait]) == Some(rank);
      if raised {
        return;
      }
      ghost var waited := rank;
      pickleFiles := pickleFiles + {iteration};
      cpuOffloadStateDict := Some(iteration);
      mpQueueSend := mpQueueSend + [Job(iteration)];
      checkpointInProgress := true;
      rank := SavedRank(cfg, waited);
      SaveSteps(cfg, waited);
    }

    /** `finalize`: the last checkpoint is awaited before Terminate is sent; without a live process there is nothing to do. */
    method Finalize(alive: bool, timesOut: bool, callbackRaises: bool) returns (raised: bool)
      requires Valid() && rank.trainer == Idle
      requires alive && checkpointInProgress && !timesOut ==> mpQueueRecv != []
      modifies this
      ensures Valid()
      ensures !alive ==> !raised && rank == old(rank)
      ensures alive ==>
        var wait := if !old(checkpointInProgress) then []
                    else [WaitStep(timesOut, callbackRaises, old(mpQueueRecv) != [] && old(mpQueueRecv)[0].succeeded)];
        var waited := TrainerRun(cfg, old(rank), wait);
        && waited.Some?
        && raised == (waited.value.trainer == Raised)
        && Some(rank) == if raised then waited else TrainerStep(cfg, waited.value, Step.Finalize)
      ensures raised <==> alive && old(checkpointInProgress) && (timesOut || callbackRaises || !old(mpQueueRecv)[0].succeeded)
      ensures mpQueueSend == if alive && !raised then old(mpQueueSend) + [Terminate] else old(mpQueueSend)
      ensures alive && !raised ==> !checkpointInProgress
    {
      if !alive {
        return false;
      }
      ghost var before := rank;
      ghost var wait := WaitStep(timesOut, callbackRaises, mpQueueRecv != [] && mpQueueRecv[0].succeeded);
      ghost var waiting := checkpointInProgress;
      raised := WaitForPreviousAsyncCheckpoint(timesOut, callbackRaises);
      assert waiting ==> [wait][1..] == [] && TrainerRun(cfg, before, [wait]) == Some(rank);
      if !raised {
        mpQueueSend := mpQueueSend + [Terminate];
        rank := TrainerStep(cfg, rank, Step.Finalize).value;
      }
    }
  }

  /** The rank after a whole `save` that did not wait. */
  ghost function SavedRank(cfg: Config, r: Rank): Rank
    requires r.submitted < |cfg.schedule|
  {
    var iteration := cfg.schedule[r.submitted];
    r.(inProgress := true, submitted := r.submitted + 1, buffer := Some(iteration), sendQueue := r.sendQueue + [Job(iteration)],
       pickles := r.pickles + {iteration})
  }

  lemma SaveSteps(cfg: Config, r: Rank)
    requires !cfg.pickleInJob && r.trainer == Idle && !r.inProgress && r.submitted < |cfg.schedule|
    ensures TrainerRun(cfg, r, [BeginSave, WritePickle, Stage, Submit]) == Some(SavedRank(cfg, r))
  {
  }
}
