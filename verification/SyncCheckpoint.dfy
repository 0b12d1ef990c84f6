/**
 Checkpointing without a background process, where `save` itself writes, and what the asynchronous protocol has to do
 with it: seen through what is stored and published, the two reach the same states. So the background process, its
 queues and the shared buffer change nothing but when the trainer continues.
 */
module SyncCheckpoint {
  import opened AsyncCheckpoint
  import opened Wrappers

  /** One rank; `saver` says how far the save is that the trainer is in. */
  datatype SyncRank = SyncRank(
    begun: nat, // saves begun so far
    saver: Saver,
    raised: bool, // a save has raised, which ends training
    shards: seq<Shard>,
    returned: nat,
    callbacks: seq<nat>, // iterations passed to on_save_checkpoint_success
    pickles: set<nat>)

  datatype SyncState = SyncState(ranks: seq<SyncRank>, latest: Option<nat>)

  datatype SyncStep = StartSave | WriteEntry | LeaveCollective | PickleState | PublishLatest | Succeed | RaiseInSave

  datatype SyncEvent = SyncEvent(rank: nat, step: SyncStep)

  const FreshRank := SyncRank(0, Waiting, false, [], 0, [], {})

  function SyncInitial(cfg: Config): SyncState {
    SyncState(seq(cfg.ranks, _ => FreshRank), None)
  }

  predicate AllWritten(cfg: Config, saver: Saver) {
    saver.Writing? && saver.key == cfg.keys && saver.pickled
  }

  /**
   The steps of a synchronous `save`. In both classes the dataloader entry is the last one; the distillation class
   calls the success callback in a `finally` block, so also when the save raises.
   */
  function SyncRankStep(cfg: Config, distill: bool, id: nat, r: SyncRank, step: SyncStep, collectiveDone: bool): Option<SyncRank> {
    if r.raised then None
    else
      match step
      case StartSave =>
        if r.saver.Waiting? && r.begun < |cfg.schedule| then
          var n := cfg.schedule[r.begun];
          Some(r.(begun := r.begun + 1, saver := Writing(n, n, 0, false, false, false)))
        else None
      case WriteEntry =>
        if r.saver.Writing? && r.saver.key < cfg.keys && !r.saver.entered then
          Some(r.(saver := r.saver.(entered := true), shards := r.shards + [Shard(r.saver.target, r.saver.key, r.saver.iteration)]))
        else None
      case LeaveCollective =>
        if r.saver.Writing? && r.saver.entered && collectiveDone then
          Some(r.(saver := r.saver.(key := r.saver.key + 1, entered := false), returned := r.returned + 1))
        else None
      case PickleState =>
        if r.saver.Writing? && r.saver.key == cfg.keys && !r.saver.pickled then
          Some(r.(saver := r.saver.(pickled := true), pickles := r.pickles + {r.saver.target}))
        else None
      case PublishLatest =>
        if id == 0 && AllWritten(cfg, r.saver) && !r.saver.published then Some(r.(saver := r.saver.(published := true))) else None
      case Succeed =>
        if AllWritten(cfg, r.saver) && (id == 0 ==> r.saver.published) then
          Some(r.(saver := Waiting, callbacks := r.callbacks + [r.saver.iteration]))
        else None
      case RaiseInSave =>
        if r.saver.Writing? then
          Some(r.(saver := Waiting, raised := true,
                  callbacks := if distill then r.callbacks + [r.saver.iteration] else r.callbacks))
        else None
  }

  ghost predicate SyncDone(t: SyncState, id: nat)
    requires id < |t.ranks|
  {
    forall q: nat | q < |t.ranks| :: |t.ranks[q].shards| >= |t.ranks[id].shards|
  }

  ghost function SyncApply(cfg: Config, distill: bool, t: SyncState, id: nat, step: SyncStep): Option<SyncState> {
    if id >= |t.ranks| then None
    else
      var r := SyncRankStep(cfg, distill, id, t.ranks[id], step, SyncDone(t, id));
      if r.None? then None
      else if step == PublishLatest && r.value.saver.Writing? then
        Some(SyncState(t.ranks[id := r.value], Some(r.value.saver.target)))
      else Some(t.(ranks := t.ranks[id := r.value]))
  }

  /** The state after a run, or None if some event was not enabled. */
  ghost function SyncRun(cfg: Config, distill: bool, events: seq<SyncEvent>): Option<SyncState> {
    if events == [] then Some(SyncInitial(cfg))
    else
      var e, before := events[|events| - 1], SyncRun(cfg, distill, events[..|events| - 1]);
      if before.None? then None else SyncApply(cfg, distill, before.value, e.rank, e.step)
  }

  ghost predicate SyncLeads(cfg: Config, distill: bool, events: seq<SyncEvent>, t: SyncState) {
    SyncRun(cfg, distill, events) == Some(t)
  }

  lemma SyncExtend(cfg: Config, distill: bool, events: seq<SyncEvent>, t: SyncState, id: nat, step: SyncStep)
    returns (events': seq<SyncEvent>, t': SyncState)
    requires SyncLeads(cfg, distill, events, t) && SyncApply(cfg, distill, t, id, step).Some?
    ensures SyncLeads(cfg, distill, events', t') && Some(t') == SyncApply(cfg, distill, t, id, step)
  {
    events' := events + [SyncEvent(id, step)];
    assert events'[..|events|] == events;
    t' := SyncApply(cfg, distill, t, id, step).value;
  }

  // ---------------------------------------------------------------------------------------------
  // Every asynchronous run is a synchronous one
  // ---------------------------------------------------------------------------------------------

  /** The save a rank is in; without a pickle in the job, it is counted as written when the save is published. */
  predicate SameSave(cfg: Config, a: Saver, r: Saver) {
    if a.Writing? then r == a.(pickled := if cfg.pickleInJob then a.pickled else a.published) else r.Waiting?
  }

  /** `r` has stored what `a` has, and is as far. */
  ghost predicate Matches(cfg: Config, id: nat, a: Rank, r: SyncRank) {
    && (a.saver.Writing? && id > 0 ==> !a.saver.published)
    && SameSave(cfg, a.saver, r.saver)
    && r.shards == a.shards && r.returned == a.returned
    && (cfg.pickleInJob ==> r.pickles == a.pickles) && r.pickles <= a.pickles
    && r.raised == Failed(a)
    && r.begun + Jobs(a.sendQueue) == a.submitted
  }

  /** The steps of a synchronous save that an asynchronous step performs. */
  function SyncSteps(cfg: Config, id: nat, a: Rank, step: Step): seq<SyncStep> {
    match step
    case Take => if a.sendQueue != [] && a.sendQueue[0].Job? then [StartSave] else []
    case WriteShard => [WriteEntry]
    case Return => [LeaveCollective]
    case WorkerPickle => [PickleState]
    case Publish => if cfg.pickleInJob then [PublishLatest] else [PickleState, PublishLatest]
    case Acknowledge => if cfg.pickleInJob || id == 0 then [Succeed] else [PickleState, Succeed]
    case Fail => [RaiseInSave]
    case BeginSave => []
    case WritePickle => []
    case Stage => []
    case Submit => []
    case Finalize => []
    case Receive => []
    case ReceiveTimesOut => []
    case ReceiveCallbackRaises => []
  }

  ghost function SyncMany(cfg: Config, distill: bool, id: nat, r: SyncRank, steps: seq<SyncStep>, done: bool): Option<SyncRank>
    decreases |steps|
  {
    if steps == [] then Some(r)
    else
      var next := SyncRankStep(cfg, distill, id, r, steps[0], done);
      if next.None? then None else SyncMany(cfg, distill, id, next.value, steps[1..], done)
  }

  lemma OneStep(cfg: Config, distill: bool, id: nat, r: SyncRank, x: SyncStep, done: bool)
    ensures SyncMany(cfg, distill, id, r, [x], done) == SyncRankStep(cfg, distill, id, r, x, done)
  {
    assert [x][1..] == [];
  }

  lemma TwoSteps(cfg: Config, distill: bool, id: nat, r: SyncRank, x: SyncStep, y: SyncStep, done: bool)
    ensures SyncMany(cfg, distill, id, r, [x, y], done)
            == var next := SyncRankStep(cfg, distill, id, r, x, done);
               if next.None? then None else SyncRankStep(cfg, distill, id, next.value, y, done)
  {
    assert [x, y][1..] == [y];
    var next := SyncRankStep(cfg, distill, id, r, x, done);
    if next.Some? {
      OneStep(cfg, distill, id, next.value, y, done);
    }
  }

  /** What the trainer does around a save stores nothing. */
  lemma TrainerStoresNothing(cfg: Config, id: nat, a: Rank, r: SyncRank, step: Step)
    requires cfg.Valid() && RankInv(cfg, a) && Matches(cfg, id, a, r) && TrainerStep(cfg, a, step).Some?
    ensures Matches(cfg, id, TrainerStep(cfg, a, step).value, r)
  {
    var a' := TrainerStep(cfg, a, step).value;
    match step
    case Submit =>
      assert a.sendQueue == [] && a'.sendQueue[1..] == [];
    case Finalize =>
      assert a.sendQueue == [] && a'.sendQueue[1..] == [];
    case WritePickle =>
    case BeginSave =>
    case Stage =>
    case Receive =>
      assert a'.recvQueue == [];
    case ReceiveCallbackRaises =>
      assert a'.recvQueue == [];
    case ReceiveTimesOut =>
  }

  lemma TakeMatches(cfg: Config, distill: bool, id: nat, a: Rank, r: SyncRank, done: bool)
    requires cfg.Valid() && RankInv(cfg, a) && Matches(cfg, id, a, r) && SaverStep(cfg, id, a, Take, done).Some?
    ensures var r' := SyncMany(cfg, distill, id, r, SyncSteps(cfg, id, a, Take), done);
      r'.Some? && Matches(cfg, id, SaverStep(cfg, id, a, Take, done).value, r'.value)
  {
    var a' := SaverStep(cfg, id, a, Take, done).value;
    assert a'.sendQueue == [];
    if a.sendQueue[0].Job? {
      assert IsCurrent(cfg, a, a.sendQueue[0].target);
      OneStep(cfg, distill, id, r, StartSave, done);
    }
  }

  /** A saver step is the steps of a synchronous save that `SyncSteps` names. */
  lemma SaverMatches(cfg: Config, distill: bool, id: nat, a: Rank, r: SyncRank, step: Step, done: bool)
    requires cfg.Valid() && RankInv(cfg, a) && Matches(cfg, id, a, r) && SaverStep(cfg, id, a, step, done).Some?
    ensures var r' := SyncMany(cfg, distill, id, r, SyncSteps(cfg, id, a, step), done);
      r'.Some? && Matches(cfg, id, SaverStep(cfg, id, a, step, done).value, r'.value)
  {
    if step == Take {
      TakeMatches(cfg, distill, id, a, r, done);
    } else {
      assert a.buffer == Some(a.saver.target) && a.recvQueue == [] && !r.raised;
      var steps := SyncSteps(cfg, id, a, step);
      if |steps| == 1 {
        OneStep(cfg, distill, id, r, steps[0], done);
      } else {
        CurrentPickled(cfg, a);
        TwoSteps(cfg, distill, id, r, steps[0], steps[1], done);
      }
    }
  }

  /** Without a pickle in the job, the save being written has its pickle. */
  lemma CurrentPickled(cfg: Config, a: Rank)
    requires cfg.Valid() && RankInv(cfg, a) && a.saver.Writing? && !cfg.pickleInJob
    ensures a.saver.target in a.pickles
  {
    var j: nat := a.submitted - 1;
    assert cfg.schedule[j] in a.pickles;
  }

  ghost predicate AllMatch(cfg: Config, s: State, t: SyncState) {
    && |s.ranks| == |t.ranks| == cfg.ranks && s.latest == t.latest
    && forall id: nat | id < cfg.ranks :: Matches(cfg, id, s.ranks[id], t.ranks[id])
  }

  lemma SameCollectives(cfg: Config, s: State, t: SyncState, id: nat)
    requires AllMatch(cfg, s, t) && id < cfg.ranks
    ensures CollectiveDone(s, id) <==> SyncDone(t, id)
  {
    assert forall q: nat | q < cfg.ranks :: s.ranks[q].shards == t.ranks[q].shards;
  }

  /** Performs one step, or a pickle and one more. */
  lemma Perform(cfg: Config, distill: bool, events: seq<SyncEvent>, t: SyncState, id: nat, steps: seq<SyncStep>, r': SyncRank)
    returns (events': seq<SyncEvent>, t': SyncState)
    requires SyncLeads(cfg, distill, events, t) && id < |t.ranks|
    requires |steps| <= 2 && (|steps| == 2 ==> steps[0] == PickleState)
    requires SyncMany(cfg, distill, id, t.ranks[id], steps, SyncDone(t, id)) == Some(r')
    ensures SyncLeads(cfg, distill, events', t') && t'.ranks == t.ranks[id := r']
    ensures t'.latest == if steps != [] && steps[|steps| - 1] == PublishLatest && r'.saver.Writing?
                         then Some(r'.saver.target) else t.latest
  {
    var r, done := t.ranks[id], SyncDone(t, id);
    if steps == [] {
      events', t' := events, t;
    } else if |steps| == 1 {
      OneStep(cfg, distill, id, r, steps[0], done);
      assert steps == [steps[0]];
      events', t' := SyncExtend(cfg, distill, events, t, id, steps[0]);
    } else {
      TwoSteps(cfg, distill, id, r, steps[0], steps[1], done);
      assert steps == [steps[0], steps[1]];
      events', t' := SyncExtend(cfg, distill, events, t, id, steps[0]);
      PickleMovesNobody(t, t', id);
      events', t' := SyncExtend(cfg, distill, events', t', id, steps[1]);
    }
  }

  lemma PickleMovesNobody(t: SyncState, t': SyncState, id: nat)
    requires id < |t.ranks| == |t'.ranks| && t'.ranks == t.ranks[id := t'.ranks[id]] && t'.ranks[id].shards == t.ranks[id].shards
    ensures SyncDone(t', id) == SyncDone(t, id)
  {
    assert forall q: nat | q < |t.ranks| :: t'.ranks[q].shards == t.ranks[q].shards;
  }

  /** One rank of each moves, and they still match. */
  lemma OneMatches(cfg: Config, s: State, t: SyncState, s': State, t': SyncState, id: nat)
    requires AllMatch(cfg, s, t) && id < cfg.ranks && |s'.ranks| == |t'.ranks| == cfg.ranks && s'.latest == t'.latest
    requires s'.ranks == s.ranks[id := s'.ranks[id]] && t'.ranks == t.ranks[id := t'.ranks[id]]
    requires Matches(cfg, id, s'.ranks[id], t'.ranks[id])
    ensures AllMatch(cfg, s', t')
  {
    forall q: nat | q < cfg.ranks ensures Matches(cfg, q, s'.ranks[q], t'.ranks[q]) {
      assert q != id ==> s'.ranks[q] == s.ranks[q] && t'.ranks[q] == t.ranks[q];
    }
  }

  lemma ApplyIs(cfg: Config, s: State, id: nat, step: Step, a': Rank)
    requires id < |s.ranks| && RankStep(cfg, id, s.ranks[id], step, CollectiveDone(s, id)) == Some(a')
    ensures Apply(cfg, s, id, step).Some?
    ensures var s' := Apply(cfg, s, id, step).value;
      && s'.ranks == s.ranks[id := a']
      && s'.latest == if step == Publish && a'.saver.Writing? then Some(a'.saver.target) else s.latest
  {
  }

  lemma SaverStepIsSync(cfg: Config, distill: bool, id: nat, a: Rank, step: Step, done: bool, a': Rank,
                        events: seq<SyncEvent>, t: SyncState)
    returns (events': seq<SyncEvent>, t': SyncState)
    requires cfg.Valid() && RankInv(cfg, a) && SaverStep(cfg, id, a, step, done) == Some(a')
    requires SyncLeads(cfg, distill, events, t) && id < |t.ranks| && Matches(cfg, id, a, t.ranks[id]) && SyncDone(t, id) == done
    ensures SyncLeads(cfg, distill, events', t') && |t'.ranks| == |t.ranks| && t'.ranks == t.ranks[id := t'.ranks[id]]
    ensures Matches(cfg, id, a', t'.ranks[id])
    ensures t'.latest == if step == Publish && a'.saver.Writing? then Some(a'.saver.target) else t.latest
  {
    SaverMatches(cfg, distill, id, a, t.ranks[id], step, done);
    var steps := SyncSteps(cfg, id, a, step);
    events', t' := Perform(cfg, distill, events, t, id, steps, SyncMany(cfg, distill, id, t.ranks[id], steps, done).value);
  }

  lemma StepIsSync(cfg: Config, distill: bool, s: State, id: nat, step: Step, events: seq<SyncEvent>, t: SyncState)
    returns (events': seq<SyncEvent>, t': SyncState)
    requires cfg.Valid() && StateInv(cfg, s) && Apply(cfg, s, id, step).Some?
    requires SyncLeads(cfg, distill, events, t) && AllMatch(cfg, s, t)
    ensures SyncLeads(cfg, distill, events', t') && AllMatch(cfg, Apply(cfg, s, id, step).value, t')
  {
    var a := s.ranks[id];
    var a' := RankStep(cfg, id, a, step, CollectiveDone(s, id)).value;
    assert Matches(cfg, id, a, t.ranks[id]) && RankInv(cfg, a);
    ApplyIs(cfg, s, id, step, a');
    if TrainerStep(cfg, a, step).Some? {
      TrainerStoresNothing(cfg, id, a, t.ranks[id], step);
      events', t' := events, t;
      assert t.ranks == t.ranks[id := t.ranks[id]];
    } else {
      SameCollectives(cfg, s, t, id);
      events', t' := SaverStepIsSync(cfg, distill, id, a, step, CollectiveDone(s, id), a', events, t);
    }
    OneMatches(cfg, s, t, Apply(cfg, s, id, step).value, t', id);
  }

  /**
   Main result: whatever the background processes have stored and published in any run, crashed, failed and timed out
   ones included, synchronous checkpointing stores and publishes in some run too; pickles written before the job is
   queued are only earlier.
   */
  lemma {:induction false} AsyncRefinesSync(cfg: Config, distill: bool, events: seq<Event>)
    returns (syncEvents: seq<SyncEvent>, t: SyncState)
    requires cfg.Valid() && Run(cfg, events).Some?
    ensures SyncLeads(cfg, distill, syncEvents, t) && AllMatch(cfg, Run(cfg, events).value, t)
    decreases |events|
  {
    if events == [] {
      syncEvents, t := [], SyncInitial(cfg);
    } else {
      var before, e := events[..|events| - 1], events[|events| - 1];
      syncEvents, t := AsyncRefinesSync(cfg, distill, before);
      RunInv(cfg, before);
      syncEvents, t := StepIsSync(cfg, distill, Run(cfg, before).value, e.rank, e.step, syncEvents, t);
    }
  }

  // ---------------------------------------------------------------------------------------------
  // Every synchronous run is an asynchronous one
  // ---------------------------------------------------------------------------------------------

  ghost predicate SyncInv(cfg: Config, distill: bool, r: SyncRank) {
    && |r.callbacks| <= r.begun <= |cfg.schedule| && !r.saver.Exited?
    && (r.saver.Writing? ==> |r.callbacks| < r.begun && !r.raised && r.saver.target == r.saver.iteration == cfg.schedule[r.begun - 1])
    && (r.raised && distill ==> r.callbacks != [])
  }

  /** The callbacks of saves that succeeded. */
  ghost function Succeeded(distill: bool, r: SyncRank): seq<nat> {
    if r.raised && distill && r.callbacks != [] then r.callbacks[..|r.callbacks| - 1] else r.callbacks
  }

  ghost function Elements(s: seq<nat>): set<nat> {
    set n | n in s
  }

  /** The asynchronous rank that has done the same and whose trainer waited for each save. */
  ghost function Image(cfg: Config, distill: bool, r: SyncRank): Rank
    requires r.begun <= |cfg.schedule|
  {
    Rank(if r.raised then Raised else Idle, r.begun, r.saver.Writing?,
         if r.begun == 0 then None else Some(cfg.schedule[r.begun - 1]), [], [], Succeeded(distill, r), false,
         if r.saver.Writing? && !cfg.pickleInJob then r.saver.(pickled := false) else r.saver,
         r.shards, r.returned,
         if cfg.pickleInJob then r.pickles else Elements(cfg.schedule[..r.begun]))
  }

  function AsyncSteps(cfg: Config, step: SyncStep): seq<Step> {
    match step
    case StartSave => [BeginSave, WritePickle, Stage, Submit, Take]
    case WriteEntry => [WriteShard]
    case LeaveCollective => [Return]
    case PickleState => if cfg.pickleInJob then [WorkerPickle] else []
    case PublishLatest => [Publish]
    case Succeed => [Acknowledge, Receive]
    case RaiseInSave => [Fail, Receive]
  }

  ghost function Many(cfg: Config, id: nat, a: Rank, steps: seq<Step>, done: bool): Option<Rank>
    decreases |steps|
  {
    if steps == [] then Some(a)
    else
      var next := RankStep(cfg, id, a, steps[0], done);
      if next.None? then None else Many(cfg, id, next.value, steps[1..], done)
  }

  /** `ranks` are the states of a rank before and after each of the steps. */
  lemma {:induction false} Chain(cfg: Config, id: nat, ranks: seq<Rank>, steps: seq<Step>, done: bool)
    requires |ranks| == |steps| + 1
    requires forall i | 0 <= i < |steps| :: StepsTo(cfg, id, ranks, steps, done, i)
    ensures Many(cfg, id, ranks[0], steps, done) == Some(ranks[|steps|])
    decreases |steps|
  {
    if steps != [] {
      assert StepsTo(cfg, id, ranks, steps, done, 0);
      forall i | 0 <= i < |steps| - 1 ensures StepsTo(cfg, id, ranks[1..], steps[1..], done, i) {
        assert StepsTo(cfg, id, ranks, steps, done, i + 1);
      }
      Chain(cfg, id, ranks[1..], steps[1..], done);
    }
  }

  ghost predicate StepsTo(cfg: Config, id: nat, ranks: seq<Rank>, steps: seq<Step>, done: bool, i: nat)
    requires i < |steps| && |ranks| == |steps| + 1
  {
    RankStep(cfg, id, ranks[i], steps[i], done) == Some(ranks[i + 1])
  }

  lemma SyncKeepsInv(cfg: Config, distill: bool, id: nat, r: SyncRank, step: SyncStep, done: bool)
    requires SyncInv(cfg, distill, r) && SyncRankStep(cfg, distill, id, r, step, done).Some?
    ensures SyncInv(cfg, distill, SyncRankStep(cfg, distill, id, r, step, done).value)
  {
  }

  lemma EarlyPickle(schedule: seq<nat>, k: nat)
    requires k < |schedule|
    ensures Elements(schedule[..k + 1]) == Elements(schedule[..k]) + {schedule[k]}
  {
    assert schedule[..k + 1] == schedule[..k] + [schedule[k]];
  }

  /** A rank before and after the five steps from the start of `save` to the worker's first write. */
  ghost function Starting(cfg: Config, a: Rank, n: nat): seq<Rank> {
    var pickled := a.(trainer := Pickled, pickles := if cfg.pickleInJob then a.pickles else a.pickles + {n});
    var submitted := pickled.(trainer := Idle, buffer := Some(n), inProgress := true, submitted := a.submitted + 1,
                              sendQueue := [Job(n)]);
    [a, a.(trainer := Waited), pickled, pickled.(trainer := Staged, buffer := Some(n)), submitted,
     submitted.(sendQueue := [], saver := Writing(n, n, 0, false, false, false))]
  }

  lemma StartingSteps(cfg: Config, id: nat, a: Rank, n: nat, done: bool, i: nat)
    requires a.trainer == Idle && !a.inProgress && a.saver.Waiting? && a.sendQueue == []
    requires a.submitted < |cfg.schedule| && cfg.schedule[a.submitted] == n && i < 5
    ensures StepsTo(cfg, id, Starting(cfg, a, n), AsyncSteps(cfg, StartSave), done, i)
  {
    assert [] + [Job(n)] == [Job(n)] && [Job(n)][1..] == [];
  }

  lemma StartIsSubmitAndTake(cfg: Config, distill: bool, id: nat, r: SyncRank, done: bool)
    requires SyncInv(cfg, distill, r) && SyncRankStep(cfg, distill, id, r, StartSave, done).Some?
    ensures Many(cfg, id, Image(cfg, distill, r), AsyncSteps(cfg, StartSave), done)
            == Some(Image(cfg, distill, SyncRankStep(cfg, distill, id, r, StartSave, done).value))
  {
    var a, n := Image(cfg, distill, r), cfg.schedule[r.begun];
    forall i | 0 <= i < 5 ensures StepsTo(cfg, id, Starting(cfg, a, n), AsyncSteps(cfg, StartSave), done, i) {
      StartingSteps(cfg, id, a, n, done, i);
    }
    Chain(cfg, id, Starting(cfg, a, n), AsyncSteps(cfg, StartSave), done);
    EarlyPickle(cfg.schedule, r.begun);
  }

  /** A rank before and after the end of a save and the receipt of the worker's message. */
  ghost function Ending(a: Rank, message: SaveDone, received: Rank): seq<Rank> {
    [a, a.(saver := Waiting, recvQueue := [message]), received]
  }

  lemma MessageIsReceived(cfg: Config, id: nat, a: Rank, message: SaveDone, done: bool)
    requires a.trainer == Idle && a.inProgress && a.recvQueue == [message]
    ensures RankStep(cfg, id, a, Receive, done)
            == Some(if message.succeeded then a.(recvQueue := [], inProgress := false, callbacks := a.callbacks + [message.iteration])
                    else a.(recvQueue := [], inProgress := false, trainer := Raised))
  {
    assert [message][1..] == [];
  }

  lemma SaveEnds(cfg: Config, distill: bool, id: nat, r: SyncRank, step: SyncStep, done: bool)
    requires SyncInv(cfg, distill, r) && SyncRankStep(cfg, distill, id, r, step, done).Some?
    requires step == Succeed || step == RaiseInSave
    ensures var a, message := Image(cfg, distill, r), SaveDone(r.saver.iteration, step == Succeed);
      RankStep(cfg, id, a, AsyncSteps(cfg, step)[0], done) == Some(a.(saver := Waiting, recvQueue := [message]))
  {
    var message := SaveDone(r.saver.iteration, step == Succeed);
    assert [] + [message] == [message];
  }

  lemma EndImage(cfg: Config, distill: bool, id: nat, r: SyncRank, step: SyncStep, done: bool)
    requires SyncInv(cfg, distill, r) && SyncRankStep(cfg, distill, id, r, step, done).Some?
    requires step == Succeed || step == RaiseInSave
    ensures var a, n, r' := Image(cfg, distill, r), r.saver.iteration, SyncRankStep(cfg, distill, id, r, step, done).value;
      Image(cfg, distill, r')
      == if step == Succeed then a.(saver := Waiting, inProgress := false, callbacks := a.callbacks + [n])
         else a.(saver := Waiting, inProgress := false, trainer := Raised)
  {
    assert distill ==> (r.callbacks + [r.saver.iteration])[..|r.callbacks|] == r.callbacks;
  }

  /** A save that ends: the worker's message is received at once. */
  lemma EndIsReceived(cfg: Config, distill: bool, id: nat, r: SyncRank, step: SyncStep, done: bool)
    requires SyncInv(cfg, distill, r) && SyncRankStep(cfg, distill, id, r, step, done).Some?
    requires step == Succeed || step == RaiseInSave
    ensures Many(cfg, id, Image(cfg, distill, r), AsyncSteps(cfg, step), done)
            == Some(Image(cfg, distill, SyncRankStep(cfg, distill, id, r, step, done).value))
  {
    var a, r' := Image(cfg, distill, r), SyncRankStep(cfg, distill, id, r, step, done).value;
    var message := SaveDone(r.saver.iteration, step == Succeed);
    var ranks := Ending(a, message, Image(cfg, distill, r'));
    SaveEnds(cfg, distill, id, r, step, done);
    MessageIsReceived(cfg, id, ranks[1], message, done);
    EndImage(cfg, distill, id, r, step, done);
    assert StepsTo(cfg, id, ranks, AsyncSteps(cfg, step), done, 0) && StepsTo(cfg, id, ranks, AsyncSteps(cfg, step), done, 1);
    Chain(cfg, id, ranks, AsyncSteps(cfg, step), done);
  }

  /** Each synchronous step is a list of asynchronous ones. */
  lemma ImageSteps(cfg: Config, distill: bool, id: nat, r: SyncRank, step: SyncStep, done: bool)
    requires SyncInv(cfg, distill, r) && SyncRankStep(cfg, distill, id, r, step, done).Some?
    ensures SyncInv(cfg, distill, SyncRankStep(cfg, distill, id, r, step, done).value)
    ensures Many(cfg, id, Image(cfg, distill, r), AsyncSteps(cfg, step), done)
            == Some(Image(cfg, distill, SyncRankStep(cfg, distill, id, r, step, done).value))
  {
    SyncKeepsInv(cfg, distill, id, r, step, done);
    var a, a' := Image(cfg, distill, r), Image(cfg, distill, SyncRankStep(cfg, distill, id, r, step, done).value);
    match step
    case StartSave => StartIsSubmitAndTake(cfg, distill, id, r, done);
    case Succeed => EndIsReceived(cfg, distill, id, r, step, done);
    case RaiseInSave => EndIsReceived(cfg, distill, id, r, step, done);
    case WriteEntry => SingleStep(cfg, id, a, WriteShard, done, a');
    case LeaveCollective => SingleStep(cfg, id, a, Return, done, a');
    case PublishLatest => SingleStep(cfg, id, a, Publish, done, a');
    case PickleState =>
      if cfg.pickleInJob {
        SingleStep(cfg, id, a, WorkerPickle, done, a');
      }
  }

  lemma SingleStep(cfg: Config, id: nat, a: Rank, x: Step, done: bool, a': Rank)
    requires RankStep(cfg, id, a, x, done) == Some(a')
    ensures Many(cfg, id, a, [x], done) == Some(a')
  {
    assert [x][1..] == [];
  }

  /** `s` is what `t` looks like in the asynchronous protocol. */
  ghost predicate AllImages(cfg: Config, distill: bool, t: SyncState, s: State) {
    && |t.ranks| == |s.ranks| == cfg.ranks && s.latest == t.latest
    && forall id: nat | id < cfg.ranks :: SyncInv(cfg, distill, t.ranks[id]) && s.ranks[id] == Image(cfg, distill, t.ranks[id])
  }

  lemma SameCollectivesBack(cfg: Config, distill: bool, t: SyncState, s: State, id: nat)
    requires AllImages(cfg, distill, t, s) && id < cfg.ranks
    ensures CollectiveDone(s, id) <==> SyncDone(t, id)
  {
    assert forall q: nat | q < cfg.ranks :: s.ranks[q].shards == t.ranks[q].shards;
  }

  /** Steps of one rank that neither wait for a collective nor publish. */
  lemma {:induction false} PerformLocal(cfg: Config, events: seq<Event>, s: State, id: nat, steps: seq<Step>, done: bool, a': Rank)
    returns (events': seq<Event>, s': State)
    requires Leads(cfg, events, s) && id < |s.ranks| && Return !in steps && Publish !in steps
    requires Many(cfg, id, s.ranks[id], steps, done) == Some(a')
    ensures Leads(cfg, events', s') && s'.ranks == s.ranks[id := a'] && s'.latest == s.latest
    decreases |steps|
  {
    if steps == [] {
      events', s' := events, s;
    } else {
      assert steps[0] in steps;
      var next := RankStep(cfg, id, s.ranks[id], steps[0], done).value;
      events', s' := ExtendLocal(cfg, events, s, id, steps[0], next);
      events', s' := PerformLocal(cfg, events', s', id, steps[1..], done, a');
    }
  }

  lemma OneImage(cfg: Config, distill: bool, t: SyncState, s: State, t': SyncState, s': State, id: nat)
    requires AllImages(cfg, distill, t, s) && id < cfg.ranks && |s'.ranks| == |t'.ranks| == cfg.ranks && s'.latest == t'.latest
    requires s'.ranks == s.ranks[id := s'.ranks[id]] && t'.ranks == t.ranks[id := t'.ranks[id]]
    requires SyncInv(cfg, distill, t'.ranks[id]) && s'.ranks[id] == Image(cfg, distill, t'.ranks[id])
    ensures AllImages(cfg, distill, t', s')
  {
    forall q: nat | q < cfg.ranks ensures SyncInv(cfg, distill, t'.ranks[q]) && s'.ranks[q] == Image(cfg, distill, t'.ranks[q]) {
      assert q != id ==> s'.ranks[q] == s.ranks[q] && t'.ranks[q] == t.ranks[q];
    }
  }

  lemma RankStepIsAsync(cfg: Config, distill: bool, id: nat, r: SyncRank, step: SyncStep, done: bool, r': SyncRank,
                        events: seq<Event>, s: State)
    returns (events': seq<Event>, s': State)
    requires SyncInv(cfg, distill, r) && SyncRankStep(cfg, distill, id, r, step, done) == Some(r')
    requires Leads(cfg, events, s) && id < |s.ranks| && s.ranks[id] == Image(cfg, distill, r) && CollectiveDone(s, id) == done
    ensures SyncInv(cfg, distill, r') && Leads(cfg, events', s') && s'.ranks == s.ranks[id := Image(cfg, distill, r')]
    ensures s'.latest == if step == PublishLatest && r'.saver.Writing? then Some(r'.saver.target) else s.latest
  {
    ImageSteps(cfg, distill, id, r, step, done);
    var a', steps := Image(cfg, distill, r'), AsyncSteps(cfg, step);
    if step == LeaveCollective || step == PublishLatest {
      assert steps == [steps[0]] && steps[1..] == [];
      assert RankStep(cfg, id, s.ranks[id], steps[0], done) == Some(a');
      ApplyIs(cfg, s, id, steps[0], a');
      events', s' := Extend(cfg, events, s, id, steps[0]);
    } else {
      events', s' := PerformLocal(cfg, events, s, id, steps, done, a');
    }
  }

  lemma StepIsAsync(cfg: Config, distill: bool, t: SyncState, id: nat, step: SyncStep, events: seq<Event>, s: State)
    returns (events': seq<Event>, s': State)
    requires Leads(cfg, events, s) && AllImages(cfg, distill, t, s) && SyncApply(cfg, distill, t, id, step).Some?
    ensures Leads(cfg, events', s') && AllImages(cfg, distill, SyncApply(cfg, distill, t, id, step).value, s')
  {
    var r, done, t' := t.ranks[id], SyncDone(t, id), SyncApply(cfg, distill, t, id, step).value;
    SameCollectivesBack(cfg, distill, t, s, id);
    assert SyncInv(cfg, distill, r) && s.ranks[id] == Image(cfg, distill, r);
    events', s' := RankStepIsAsync(cfg, distill, id, r, step, done, t'.ranks[id], events, s);
    OneImage(cfg, distill, t, s, t', s', id);
  }

  /** The converse: synchronous checkpointing stores and publishes nothing that some asynchronous run does not. */
  lemma {:induction false} SyncRefinesAsync(cfg: Config, distill: bool, events: seq<SyncEvent>)
    returns (asyncEvents: seq<Event>, s: State)
    requires SyncRun(cfg, distill, events).Some?
    ensures Leads(cfg, asyncEvents, s) && AllImages(cfg, distill, SyncRun(cfg, distill, events).value, s)
    decreases |events|
  {
    if events == [] {
      asyncEvents, s := [], Initial(cfg);
    } else {
      var before, e := events[..|events| - 1], events[|events| - 1];
      asyncEvents, s := SyncRefinesAsync(cfg, distill, before);
      asyncEvents, s := StepIsAsync(cfg, distill, SyncRun(cfg, distill, before).value, e.rank, e.step, asyncEvents, s);
    }
  }

  /** What a rank has stored; pickles count only where both forms write them at the same point. */
  datatype Stored = Stored(shards: seq<Shard>, pickles: set<nat>)

  datatype Outcome = Outcome(ranks: seq<Stored>, latest: Option<nat>)

  ghost function StoredBy(cfg: Config, shards: seq<Shard>, pickles: set<nat>): Stored {
    Stored(shards, if cfg.pickleInJob then pickles else {})
  }

  ghost function Seen(cfg: Config, s: State): Outcome {
    Outcome(seq(|s.ranks|, q requires 0 <= q < |s.ranks| => StoredBy(cfg, s.ranks[q].shards, s.ranks[q].pickles)), s.latest)
  }

  ghost function SeenSync(cfg: Config, t: SyncState): Outcome {
    Outcome(seq(|t.ranks|, q requires 0 <= q < |t.ranks| => StoredBy(cfg, t.ranks[q].shards, t.ranks[q].pickles)), t.latest)
  }

  ghost predicate Reaches(cfg: Config, o: Outcome) {
    exists events: seq<Event> :: Run(cfg, events).Some? && Seen(cfg, Run(cfg, events).value) == o
  }

  ghost predicate ReachesSync(cfg: Config, distill: bool, o: Outcome) {
    exists events: seq<SyncEvent> :: SyncRun(cfg, distill, events).Some? && SeenSync(cfg, SyncRun(cfg, distill, events).value) == o
  }

  /** The asynchronous and the synchronous form can leave exactly the same things on storage. */
  lemma SameOutcomes(cfg: Config, distill: bool, o: Outcome)
    requires cfg.Valid()
    ensures Reaches(cfg, o) <==> ReachesSync(cfg, distill, o)
  {
    if Reaches(cfg, o) {
      var events: seq<Event> :| Run(cfg, events).Some? && Seen(cfg, Run(cfg, events).value) == o;
      var syncEvents, t := AsyncRefinesSync(cfg, distill, events);
      assert SeenSync(cfg, SyncRun(cfg, distill, syncEvents).value) == o;
    }
    if ReachesSync(cfg, distill, o) {
      var events: seq<SyncEvent> :| SyncRun(cfg, distill, events).Some? && SeenSync(cfg, SyncRun(cfg, distill, events).value) == o;
      var asyncEvents, s := SyncRefinesAsync(cfg, distill, events);
      assert Seen(cfg, Run(cfg, asyncEvents).value) == o;
    }
  }

  // ---------------------------------------------------------------------------------------------
  // What the synchronous form promises
  // ---------------------------------------------------------------------------------------------

  lemma StepIgnoresPickleOrder(cfg: Config, other: Config, distill: bool, id: nat, r: SyncRank, step: SyncStep, done: bool)
    requires other == cfg.(pickleInJob := other.pickleInJob)
    ensures SyncRankStep(other, distill, id, r, step, done) == SyncRankStep(cfg, distill, id, r, step, done)
  {
  }

  lemma ApplyIgnoresPickleOrder(cfg: Config, other: Config, distill: bool, t: SyncState, id: nat, step: SyncStep)
    requires other == cfg.(pickleInJob := other.pickleInJob)
    ensures SyncApply(other, distill, t, id, step) == SyncApply(cfg, distill, t, id, step)
  {
    if id < |t.ranks| {
      StepIgnoresPickleOrder(cfg, other, distill, id, t.ranks[id], step, SyncDone(t, id));
    }
  }

  /** Where the asynchronous class would write its pickles plays no role. */
  lemma {:induction false} PickleOrderIsIgnored(cfg: Config, other: Config, distill: bool, events: seq<SyncEvent>)
    requires other == cfg.(pickleInJob := other.pickleInJob)
    ensures SyncRun(other, distill, events) == SyncRun(cfg, distill, events)
    decreases |events|
  {
    if events != [] {
      var init, e := events[..|events| - 1], events[|events| - 1];
      PickleOrderIsIgnored(cfg, other, distill, init);
      if SyncRun(cfg, distill, init).Some? {
        ApplyIgnoresPickleOrder(cfg, other, distill, SyncRun(cfg, distill, init).value, e.rank, e.step);
      }
    }
  }

  /** In the synchronous form too, a published iteration has all entries of all ranks, and rank 0's pickle. */
  lemma SyncPublishIsSafe(cfg: Config, distill: bool, events: seq<SyncEvent>, iteration: nat)
    requires cfg.Valid() && SyncRun(cfg, distill, events).Some? && SyncRun(cfg, distill, events).value.latest == Some(iteration)
    ensures var t := SyncRun(cfg, distill, events).value;
      && iteration in cfg.schedule && |t.ranks| == cfg.ranks && iteration in t.ranks[0].pickles
      && forall q: nat, k: nat | q < cfg.ranks && k < cfg.keys :: Shard(iteration, k, iteration) in t.ranks[q].shards
  {
    var deferred := cfg.(pickleInJob := true);
    PickleOrderIsIgnored(cfg, deferred, distill, events);
    var asyncEvents, s := SyncRefinesAsync(deferred, distill, events);
    PublishIsSafe(deferred, asyncEvents, iteration);
    LeaderPickleIsWritten(deferred, asyncEvents, iteration);
  }

  ghost predicate SyncCovered(t: SyncState) {
    t.latest.Some? ==> forall q: nat | q < |t.ranks| :: t.latest.value in t.ranks[q].pickles
  }

  ghost predicate AlwaysSyncCovered(cfg: Config, distill: bool) {
    forall events: seq<SyncEvent> | SyncRun(cfg, distill, events).Some? :: SyncCovered(SyncRun(cfg, distill, events).value)
  }

  /** Both classes pickle after the last collective here, so the pickles are covered only for one rank or no save. */
  lemma SyncPicklesCoveredIff(cfg: Config, distill: bool)
    requires cfg.Valid()
    ensures AlwaysSyncCovered(cfg, distill) <==> cfg.ranks == 1 || cfg.schedule == []
  {
    var deferred := cfg.(pickleInJob := true);
    if cfg.ranks > 1 && cfg.schedule != [] {
      var events, s := FirstSavePublished(deferred);
      var syncEvents, t := AsyncRefinesSync(deferred, distill, events);
      PickleOrderIsIgnored(cfg, deferred, distill, syncEvents);
      assert Matches(deferred, 1, s.ranks[1], t.ranks[1]);
      assert !SyncCovered(SyncRun(cfg, distill, syncEvents).value);
    } else {
      forall events: seq<SyncEvent> | SyncRun(cfg, distill, events).Some?
        ensures SyncCovered(SyncRun(cfg, distill, events).value)
      {
        PickleOrderIsIgnored(cfg, deferred, distill, events);
        var asyncEvents, s := SyncRefinesAsync(deferred, distill, events);
        CoveredRun(deferred, asyncEvents);
      }
    }
  }

  /** Every success callback of rank `id` is for a save all of whose entries are stored on every rank. */
  ghost predicate Truthful(cfg: Config, t: SyncState, id: nat)
    requires id < |t.ranks|
  {
    forall j: nat, q: nat, k: nat | j < |t.ranks[id].callbacks| && q < cfg.ranks && k < cfg.keys ::
      q < |t.ranks| && Shard(t.ranks[id].callbacks[j], k, t.ranks[id].callbacks[j]) in t.ranks[q].shards
  }

  ghost predicate AlwaysTruthful(cfg: Config, distill: bool) {
    forall events: seq<SyncEvent>, id: nat
      | SyncRun(cfg, distill, events).Some? && id < |SyncRun(cfg, distill, events).value.ranks| ::
      Truthful(cfg, SyncRun(cfg, distill, events).value, id)
  }

  /** A success callback means a stored save in the base class; in the distillation class only if nothing is ever saved. */
  lemma SyncCallbacksTruthfulIff(cfg: Config, distill: bool)
    requires cfg.Valid()
    ensures AlwaysTruthful(cfg, distill) <==> !distill || cfg.schedule == []
  {
    if distill && cfg.schedule != [] {
      var events, t := FailedFirstSave(cfg);
      assert SyncRun(cfg, distill, events).Some? && !Truthful(cfg, SyncRun(cfg, distill, events).value, 0);
    } else {
      forall events: seq<SyncEvent>, id: nat
        | SyncRun(cfg, distill, events).Some? && id < |SyncRun(cfg, distill, events).value.ranks|
        ensures Truthful(cfg, SyncRun(cfg, distill, events).value, id)
      {
        TruthfulRun(cfg, distill, events, id);
      }
    }
  }

  lemma TruthfulRun(cfg: Config, distill: bool, events: seq<SyncEvent>, id: nat)
    requires cfg.Valid() && (!distill || cfg.schedule == [])
    requires SyncRun(cfg, distill, events).Some? && id < |SyncRun(cfg, distill, events).value.ranks|
    ensures Truthful(cfg, SyncRun(cfg, distill, events).value, id)
  {
    var asyncEvents, s := SyncRefinesAsync(cfg, distill, events);
    var r := SyncRun(cfg, distill, events).value.ranks[id];
    assert SyncInv(cfg, distill, r) && s.ranks[id] == Image(cfg, distill, r);
    if r.callbacks != [] {
      CallbacksInOrder(cfg, asyncEvents, id);
    }
  }

  /** Rank 0 begins its first save and the first write raises: nothing is stored, and the callback has fired. */
  lemma FailedFirstSave(cfg: Config) returns (events: seq<SyncEvent>, t: SyncState)
    requires cfg.Valid() && cfg.schedule != []
    ensures SyncLeads(cfg, true, events, t) && |t.ranks| == cfg.ranks
    ensures t.ranks[0].callbacks == [cfg.schedule[0]] && t.ranks[0].shards == [] && !Truthful(cfg, t, 0)
  {
    events, t := SyncExtend(cfg, true, [], SyncInitial(cfg), 0, StartSave);
    events, t := SyncExtend(cfg, true, events, t, 0, RaiseInSave);
    assert t.ranks[0].callbacks[0] == cfg.schedule[0];
    assert Shard(cfg.schedule[0], 0, cfg.schedule[0]) !in t.ranks[0].shards;
  }

  // ---------------------------------------------------------------------------------------------
  // The synchronous save as code
  // ---------------------------------------------------------------------------------------------

  function EntrySteps(keys: nat): (steps: seq<SyncStep>)
    ensures |steps| == 2 * keys
  {
    if keys == 0 then [] else EntrySteps(keys - 1) + [WriteEntry, LeaveCollective]
  }

  /** The steps of one whole save on rank `id`, up to its end. */
  function WholeSave(keys: nat, id: nat): seq<SyncStep> {
    [StartSave] + EntrySteps(keys) + [PickleState] + if id == 0 then [PublishLatest] else []
  }

  lemma {:induction false} EntriesPrefix(key: nat, keys: nat)
    requires key <= keys
    ensures EntrySteps(key) <= EntrySteps(keys)
    ensures key < keys ==> EntrySteps(key) + [WriteEntry] <= EntrySteps(keys)
  {
    if key + 1 < keys {
      EntriesPrefix(key, keys - 1);
    }
  }

  /** How far the steps `steps` of a save have come. */
  ghost predicate SaveAt(steps: seq<SyncStep>, keys: nat, id: nat) {
    steps <= WholeSave(keys, id)
  }

  /** The start of a save and its first `key` entries. */
  function Upto(key: nat): (steps: seq<SyncStep>)
    ensures |steps| == 2 * key + 1
  {
    [StartSave] + EntrySteps(key)
  }

  lemma NextEntry(key: nat)
    ensures Upto(key) + [WriteEntry] + [LeaveCollective] == Upto(key + 1)
  {
  }

  lemma EntryIsNext(key: nat, keys: nat, id: nat)
    requires key <= keys
    ensures SaveAt(Upto(key), keys, id)
    ensures key < keys ==> SaveAt(Upto(key) + [WriteEntry], keys, id)
  {
    EntriesPrefix(key, keys);
  }

  lemma WholeLength(keys: nat, id: nat)
    ensures |WholeSave(keys, id)| == 2 * keys + if id == 0 then 3 else 2
  {
  }

  lemma EndOfSave(keys: nat, id: nat)
    ensures SaveAt(Upto(keys) + [PickleState], keys, id)
    ensures Upto(keys) + [PickleState] + (if id == 0 then [PublishLatest] else []) == WholeSave(keys, id)
  {
  }

  /** The states of a rank before and after each of `steps`, none of which waits. */
  ghost predicate Path(cfg: Config, distill: bool, id: nat, ranks: seq<SyncRank>, steps: seq<SyncStep>) {
    |ranks| == |steps| + 1
    && forall i | 0 <= i < |steps| :: SyncRankStep(cfg, distill, id, ranks[i], steps[i], true) == Some(ranks[i + 1])
  }

  /** `r` has come from `start` by `steps`. */
  ghost predicate Did(cfg: Config, distill: bool, id: nat, start: SyncRank, steps: seq<SyncStep>, r: SyncRank) {
    exists ranks: seq<SyncRank> :: Path(cfg, distill, id, ranks, steps) && ranks[0] == start && ranks[|steps|] == r
  }

  lemma PathTail(cfg: Config, distill: bool, id: nat, ranks: seq<SyncRank>, steps: seq<SyncStep>)
    requires Path(cfg, distill, id, ranks, steps) && steps != []
    ensures SyncRankStep(cfg, distill, id, ranks[0], steps[0], true) == Some(ranks[1])
    ensures Path(cfg, distill, id, ranks[1..], steps[1..])
  {
  }

  lemma PathHead(cfg: Config, distill: bool, id: nat, start: SyncRank, ranks: seq<SyncRank>, steps: seq<SyncStep>)
    requires steps != [] && Path(cfg, distill, id, ranks, steps[1..])
    requires SyncRankStep(cfg, distill, id, start, steps[0], true) == Some(ranks[0])
    ensures Path(cfg, distill, id, [start] + ranks, steps)
  {
  }

  /** The path of a run of `SyncMany`. */
  lemma {:induction false} ManyHasPath(cfg: Config, distill: bool, id: nat, start: SyncRank, steps: seq<SyncStep>, r: SyncRank)
    returns (ranks: seq<SyncRank>)
    requires SyncMany(cfg, distill, id, start, steps, true) == Some(r)
    ensures Path(cfg, distill, id, ranks, steps) && ranks[0] == start && ranks[|steps|] == r
    decreases |steps|
  {
    if steps == [] {
      ranks := [start];
    } else {
      var tail := ManyHasPath(cfg, distill, id, SyncRankStep(cfg, distill, id, start, steps[0], true).value, steps[1..], r);
      PathHead(cfg, distill, id, start, tail, steps);
      ranks := [start] + tail;
    }
  }

  lemma {:induction false} PathIsMany(cfg: Config, distill: bool, id: nat, ranks: seq<SyncRank>, steps: seq<SyncStep>)
    requires Path(cfg, distill, id, ranks, steps)
    ensures SyncMany(cfg, distill, id, ranks[0], steps, true) == Some(ranks[|steps|])
    decreases |steps|
  {
    if steps != [] {
      PathTail(cfg, distill, id, ranks, steps);
      PathIsMany(cfg, distill, id, ranks[1..], steps[1..]);
    }
  }

  /** Such a path is the run of `SyncMany`. */
  lemma DidIsMany(cfg: Config, distill: bool, id: nat, start: SyncRank, steps: seq<SyncStep>, r: SyncRank)
    ensures Did(cfg, distill, id, start, steps, r) <==> SyncMany(cfg, distill, id, start, steps, true) == Some(r)
  {
    if ranks: seq<SyncRank> :| Path(cfg, distill, id, ranks, steps) && ranks[0] == start && ranks[|steps|] == r {
      PathIsMany(cfg, distill, id, ranks, steps);
    }
    if SyncMany(cfg, distill, id, start, steps, true) == Some(r) {
      var ranks := ManyHasPath(cfg, distill, id, start, steps, r);
    }
  }

  lemma DidNothing(cfg: Config, distill: bool, id: nat, start: SyncRank)
    ensures Did(cfg, distill, id, start, [], start)
  {
    assert Path(cfg, distill, id, [start], []);
  }

  lemma DidMore(cfg: Config, distill: bool, id: nat, start: SyncRank, steps: seq<SyncStep>, r: SyncRank, x: SyncStep)
    requires Did(cfg, distill, id, start, steps, r) && SyncRankStep(cfg, distill, id, r, x, true).Some?
    ensures Did(cfg, distill, id, start, steps + [x], SyncRankStep(cfg, distill, id, r, x, true).value)
  {
    var ranks: seq<SyncRank> :| Path(cfg, distill, id, ranks, steps) && ranks[0] == start && ranks[|steps|] == r;
    assert Path(cfg, distill, id, ranks + [SyncRankStep(cfg, distill, id, r, x, true).value], steps + [x]);
  }

  /** The fields of a synchronous checkpointer on rank `id`; a blocking `dcp.save` returns once its collective is done. */
  class SyncCheckpointer {
    ghost const cfg: Config
    const keys: nat
    const distill: bool
    const id: nat
    var shardFiles: seq<Shard>
    var pickleFiles: set<nat>
    var latestFile: Option<nat>
    var successCallbacks: seq<nat>
    ghost var rank: SyncRank

    ghost predicate Valid()
      reads this
    {
      && keys == cfg.keys && rank.shards == shardFiles && rank.pickles == pickleFiles && rank.callbacks == successCallbacks
    }

    constructor (ghost cfg: Config, keys: nat, distill: bool, id: nat)
      requires keys == cfg.keys
      ensures Valid() && rank == FreshRank && this.cfg == cfg && this.distill == distill && this.id == id
    {
      this.cfg, this.keys, this.distill, this.id := cfg, keys, distill, id;
      shardFiles, pickleFiles, latestFile, successCallbacks := [], {}, None, [];
      rank := FreshRank;
    }

    /** One step of the protocol, of which the code's part is done beside it. */
    ghost method Step(start: SyncRank, steps: seq<SyncStep>, x: SyncStep) returns (more: seq<SyncStep>)
      requires Did(cfg, distill, id, start, steps, rank) && SyncRankStep(cfg, distill, id, rank, x, true).Some?
      modifies this`rank
      ensures more == steps + [x] && Some(rank) == SyncRankStep(cfg, distill, id, old(rank), x, true)
      ensures Did(cfg, distill, id, start, more, rank)
    {
      DidMore(cfg, distill, id, start, steps, rank, x);
      rank, more := SyncRankStep(cfg, distill, id, rank, x, true).value, steps + [x];
    }

    /** The loop's turn for entry `key`, whose `dcp.save` may raise before or after this rank's shard is stored. */
    method SaveEntry(iteration: nat, key: nat, fails: Option<nat>, ghost start: SyncRank, ghost steps: seq<SyncStep>)
      returns (raised: bool, ghost more: seq<SyncStep>)
      requires Valid() && key < keys && rank.saver == Writing(iteration, iteration, key, false, false, false) && !rank.raised
      requires Did(cfg, distill, id, start, steps, rank) && steps == Upto(key)
      modifies this`shardFiles, this`rank
      ensures Valid() && Did(cfg, distill, id, start, more, rank) && !rank.raised
      ensures raised <==> fails == Some(2 * key) || fails == Some(2 * key + 1)
      ensures if raised then SaveAt(more, keys, id) && |more| == fails.value + 1 else more == Upto(key + 1)
      ensures rank.saver.Writing? && rank.saver.iteration == iteration
      ensures !raised ==> rank.saver == Writing(iteration, iteration, key + 1, false, false, false)
    {
      EntryIsNext(key, keys, id);
      NextEntry(key);
      if fails == Some(2 * key) {
        return true, steps;
      }
      shardFiles := shardFiles + [Shard(iteration, key, iteration)];
      more := Step(start, steps, WriteEntry);
      if fails == Some(2 * key + 1) {
        return true, more;
      }
      more := Step(start, more, LeaveCollective);
      return false, more;
    }

    /** What follows the last collective: this rank's pickle and, on rank 0, the latest-checkpoint file. */
    method PickleAndPublish(iteration: nat, fails: Option<nat>, ghost start: SyncRank, ghost steps: seq<SyncStep>)
      returns (raised: bool, ghost more: seq<SyncStep>)
      requires Valid() && rank.saver == Writing(iteration, iteration, keys, false, false, false) && !rank.raised
      requires Did(cfg, distill, id, start, steps, rank) && steps == Upto(keys)
      modifies this`pickleFiles, this`latestFile, this`rank
      ensures Valid() && Did(cfg, distill, id, start, more, rank) && !rank.raised
      ensures raised <==> fails == Some(2 * keys) || (fails == Some(2 * keys + 1) && id == 0)
      ensures SaveAt(more, keys, id) && |more| == if raised then fails.value + 1 else |WholeSave(keys, id)|
      ensures rank.saver.Writing? && rank.saver.iteration == iteration
      ensures !raised ==> AllWritten(cfg, rank.saver) && (id == 0 ==> rank.saver.published)
      ensures latestFile == if !raised && id == 0 then Some(iteration) else old(latestFile)
    {
      EntryIsNext(keys, keys, id);
      EndOfSave(keys, id);
      if fails == Some(2 * keys) {
        return true, steps;
      }
      pickleFiles := pickleFiles + {iteration};
      more := Step(start, steps, PickleState);
      if id == 0 {
        if fails == Some(2 * keys + 1) {
          return true, more;
        }
        latestFile := Some(iteration);
        more := Step(start, more, PublishLatest);
      }
      raised := false;
    }

    /** `save_state_dict_worker`: it raises, if at all, when it has done `fails` of its operations. */
    method SaveStateDictWorker(iteration: nat, fails: Option<nat>, ghost start: SyncRank)
      returns (raised: bool, ghost steps: seq<SyncStep>)
      requires Valid() && rank.saver == Writing(iteration, iteration, 0, false, false, false) && !rank.raised
      requires Did(cfg, distill, id, start, [StartSave], rank)
      modifies this`shardFiles, this`pickleFiles, this`latestFile, this`rank
      ensures Valid() && Did(cfg, distill, id, start, steps, rank) && SaveAt(steps, keys, id)
      ensures rank.saver.Writing? && rank.saver.iteration == iteration && !rank.raised
      ensures raised <==> fails.Some? && fails.value + 1 < |WholeSave(keys, id)|
      ensures |steps| == if raised then fails.value + 1 else |WholeSave(keys, id)|
      ensures !raised ==> AllWritten(cfg, rank.saver) && (id == 0 ==> rank.saver.published)
      ensures latestFile == if !raised && id == 0 then Some(iteration) else old(latestFile)
    {
      steps := [StartSave];
      WholeLength(keys, id);
      assert steps == Upto(0);
      for key := 0 to keys
        invariant Valid() && Did(cfg, distill, id, start, steps, rank) && steps == Upto(key)
        invariant rank.saver == Writing(iteration, iteration, key, false, false, false) && !rank.raised
        invariant (fails.Some? ==> fails.value >= 2 * key) && latestFile == old(latestFile)
      {
        raised, steps := SaveEntry(iteration, key, fails, start, steps);
        if raised {
          return;
        }
      }
      raised, steps := PickleAndPublish(iteration, fails, start, steps);
    }

    /** `save` without a background process: the distillation class calls the success callback even if it raises. */
    method Save(iteration: nat, fails: Option<nat>) returns (raised: bool, ghost steps: seq<SyncStep>)
      requires Valid() && rank.saver.Waiting? && !rank.raised
      requires rank.begun < |cfg.schedule| && cfg.schedule[rank.begun] == iteration
      modifies this
      ensures Valid() && SaveAt(steps, keys, id)
      ensures raised <==> fails.Some? && fails.value + 1 < |WholeSave(keys, id)|
      ensures |steps| == if raised then fails.value + 1 else |WholeSave(keys, id)|
      ensures Did(cfg, distill, id, old(rank), steps + [if raised then RaiseInSave else Succeed], rank)
      ensures latestFile == if !raised && id == 0 then Some(iteration) else old(latestFile)
    {
      ghost var start := rank;
      DidNothing(cfg, distill, id, start);
      steps := Step(start, [], StartSave);
      assert steps == [StartSave];
      raised, steps := SaveStateDictWorker(iteration, fails, start);
      if distill || !raised {
        successCallbacks := successCallbacks + [iteration];
      }
      ghost var ended := Step(start, steps, if raised then RaiseInSave else Succeed);
    }
  }
}
