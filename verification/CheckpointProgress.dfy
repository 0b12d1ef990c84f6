/**
 The checkpoint protocol does not get stuck: while nothing has failed, some rank can take a step, until every
 trainer has finished and every saver has exited.
 */
module CheckpointProgress {
  import opened AsyncCheckpoint
  import opened Blocks
  import opened Wrappers

  /** No worker failed, no wait timed out, no callback raised, and the trainer did not stop before its schedule. */
  ghost predicate Healthy(cfg: Config, r: Rank) {
    && r.trainer != Raised
    && (r.recvQueue != [] ==> r.recvQueue[0].succeeded)
    && (r.trainer == Finished ==> r.submitted == |cfg.schedule|)
  }

  predicate Done(r: Rank) {
    r.trainer == Finished && r.saver.Exited?
  }

  /** A step that is no failure, no timeout and no raising callback. */
  predicate IsGood(step: Step) {
    step != Fail && step != ReceiveTimesOut && step != ReceiveCallbackRaises
  }

  /** The step a rank takes next, if it is not waiting for the others in a collective. */
  function NextStep(cfg: Config, id: nat, r: Rank): Step {
    match r.trainer
    case Waited => WritePickle
    case Pickled => Stage
    case Staged => Submit
    case _ =>
      if r.saver.Writing? then SaverNext(cfg, id, r.saver)
      else if r.sendQueue != [] then Take
      else if r.recvQueue != [] then Receive
      else if r.submitted < |cfg.schedule| then BeginSave
      else Finalize
  }

  function SaverNext(cfg: Config, id: nat, saver: Saver): Step
    requires saver.Writing?
  {
    if saver.entered then Return
    else if saver.key < cfg.keys then WriteShard
    else if cfg.pickleInJob && !saver.pickled then WorkerPickle
    else if id == 0 && !saver.published then Publish
    else Acknowledge
  }

  /** A rank that is not done can take its next step, unless it waits in a collective. */
  lemma RankCanStep(cfg: Config, id: nat, r: Rank, collectiveDone: bool)
    requires cfg.Valid() && RankInv(cfg, r) && Healthy(cfg, r) && !Done(r)
    requires r.saver.Writing? && r.saver.entered ==> collectiveDone
    ensures RankStep(cfg, id, r, NextStep(cfg, id, r), collectiveDone).Some?
  {
    if r.saver.Writing? {
      assert r.buffer == Some(r.saver.target);
    } else if r.sendQueue != [] {
      assert r.sendQueue[1..] == [];
    }
  }

  /** The rank's next step can be taken. */
  ghost predicate CanStep(cfg: Config, s: State, id: nat) {
    id < |s.ranks| && IsGood(NextStep(cfg, id, s.ranks[id])) && Apply(cfg, s, id, NextStep(cfg, id, s.ranks[id])).Some?
  }

  lemma CanStepAt(cfg: Config, s: State, id: nat)
    requires cfg.Valid() && StateInv(cfg, s) && id < cfg.ranks && Healthy(cfg, s.ranks[id]) && !Done(s.ranks[id])
    requires s.ranks[id].saver.Writing? && s.ranks[id].saver.entered ==> CollectiveDone(s, id)
    ensures CanStep(cfg, s, id)
  {
    RankCanStep(cfg, id, s.ranks[id], CollectiveDone(s, id));
  }

  /** The rank that has written least. */
  lemma {:induction false} Slowest(ranks: seq<Rank>) returns (id: nat)
    requires ranks != []
    ensures id < |ranks| && forall q: nat | q < |ranks| :: |ranks[id].shards| <= |ranks[q].shards|
  {
    var n := |ranks| - 1;
    if n == 0 {
      id := 0;
    } else {
      id := Slowest(ranks[..n]);
      if |ranks[n].shards| < |ranks[id].shards| {
        id := n;
      }
    }
  }

  lemma ShardBounds(cfg: Config, r: Rank)
    requires cfg.Valid() && RankInv(cfg, r) && Healthy(cfg, r)
    ensures |r.shards| <= |cfg.schedule| * cfg.keys
    ensures Done(r) ==> |r.shards| == |cfg.schedule| * cfg.keys
  {
    MulLe(r.submitted, |cfg.schedule|, cfg.keys);
  }

  /** A rank that has written everything waits for nobody who is done, and the slowest rank waits for nobody. */
  lemma SomeoneCanStep(cfg: Config, s: State, busy: nat) returns (id: nat)
    requires cfg.Valid() && StateInv(cfg, s) && AllHealthy(cfg, s) && busy < cfg.ranks && !Done(s.ranks[busy])
    ensures CanStep(cfg, s, id) && !Done(s.ranks[id])
  {
    id := Slowest(s.ranks);
    if Done(s.ranks[id]) {
      ShardBounds(cfg, s.ranks[id]);
      ShardBounds(cfg, s.ranks[busy]);
      id := busy;
    }
    CanStepAt(cfg, s, id);
  }

  ghost predicate AllHealthy(cfg: Config, s: State) {
    forall q: nat | q < |s.ranks| :: Healthy(cfg, s.ranks[q])
  }

  ghost predicate AllDone(s: State) {
    forall q: nat | q < |s.ranks| :: s.ranks[q].trainer == Finished && s.ranks[q].saver == Exited
  }

  /** Main result: in every reachable state without a failure some rank can step, unless all are done. */
  lemma NoDeadlock(cfg: Config, events: seq<Event>)
    requires cfg.Valid() && Run(cfg, events).Some? && AllHealthy(cfg, Run(cfg, events).value)
    ensures AllDone(Run(cfg, events).value) || exists id: nat :: CanStep(cfg, Run(cfg, events).value, id)
  {
    RunInv(cfg, events);
    var s := Run(cfg, events).value;
    if busy: nat :| busy < |s.ranks| && !Done(s.ranks[busy]) {
      var id := SomeoneCanStep(cfg, s, busy);
    }
  }

  // ---------------------------------------------------------------------------------------------
  // How long it can go on
  // ---------------------------------------------------------------------------------------------

  /** Bounds the steps a rank has left in the save it is at, and in finishing. */
  function LeftNow(cfg: Config, r: Rank): nat {
    match r.trainer
    case Waited => 5
    case Pickled => 4
    case Staged => 3
    case Idle => LeftInFlight(cfg, r, 6)
    case Raised => LeftInFlight(cfg, r, 0)
    case Finished => LeftInFlight(cfg, r, One(!r.saver.Exited?))
  }

  function LeftInFlight(cfg: Config, r: Rank, otherwise: nat): nat {
    if r.saver.Writing? then
      8 + 2 * (if r.saver.key < cfg.keys then cfg.keys - r.saver.key else 0) + One(!r.saver.entered) + One(!r.saver.pickled)
        + One(!r.saver.published)
    else if r.sendQueue != [] && r.sendQueue[0].Job? then 12 + 2 * cfg.keys
    else if r.recvQueue != [] then 7
    else otherwise
  }

  /** With a save worth more than its steps, this bounds all of a rank's steps. */
  function Left(cfg: Config, r: Rank): nat {
    (if r.submitted < |cfg.schedule| then |cfg.schedule| - r.submitted else 0) * (2 * cfg.keys + 13) + LeftNow(cfg, r)
  }

  /** Every good step of a rank uses up some of its bound. */
  lemma StepUses(cfg: Config, id: nat, r: Rank, step: Step, collectiveDone: bool)
    requires cfg.Valid() && RankInv(cfg, r) && Healthy(cfg, r) && IsGood(step)
    requires RankStep(cfg, id, r, step, collectiveDone).Some?
    ensures Left(cfg, RankStep(cfg, id, r, step, collectiveDone).value) < Left(cfg, r)
  {
    if TrainerStep(cfg, r, step).Some? {
      if step == Submit {
        SubmitUses(cfg, r);
      } else {
        TrainerUses(cfg, r, step);
      }
    } else {
      SaverUses(cfg, id, r, step, collectiveDone);
    }
  }

  lemma SubmitUses(cfg: Config, r: Rank)
    requires cfg.Valid() && RankInv(cfg, r) && TrainerStep(cfg, r, Submit).Some?
    ensures Left(cfg, TrainerStep(cfg, r, Submit).value) < Left(cfg, r)
  {
    var n := |cfg.schedule| - r.submitted;
    assert TrainerStep(cfg, r, Submit).value.sendQueue == [Job(cfg.schedule[r.submitted])];
    assert n * (2 * cfg.keys + 13) == (n - 1) * (2 * cfg.keys + 13) + (2 * cfg.keys + 13);
  }

  lemma TrainerUses(cfg: Config, r: Rank, step: Step)
    requires cfg.Valid() && RankInv(cfg, r) && IsGood(step) && step != Submit && TrainerStep(cfg, r, step).Some?
    requires Healthy(cfg, r)
    ensures Left(cfg, TrainerStep(cfg, r, step).value) < Left(cfg, r)
  {
    assert TrainerStep(cfg, r, step).value.submitted == r.submitted;
    assert LeftNow(cfg, TrainerStep(cfg, r, step).value) < LeftNow(cfg, r);
  }

  lemma SaverUses(cfg: Config, id: nat, r: Rank, step: Step, collectiveDone: bool)
    requires cfg.Valid() && RankInv(cfg, r) && IsGood(step) && SaverStep(cfg, id, r, step, collectiveDone).Some?
    ensures Left(cfg, SaverStep(cfg, id, r, step, collectiveDone).value) < Left(cfg, r)
  {
    var r' := SaverStep(cfg, id, r, step, collectiveDone).value;
    assert r'.submitted == r.submitted && r'.trainer == r.trainer;
    assert LeftNow(cfg, r') < LeftNow(cfg, r);
  }

  function LeftOfAll(cfg: Config, ranks: seq<Rank>): nat {
    if ranks == [] then 0 else LeftOfAll(cfg, ranks[..|ranks| - 1]) + Left(cfg, ranks[|ranks| - 1])
  }

  lemma {:induction false} OneRankUses(cfg: Config, ranks: seq<Rank>, id: nat, r: Rank)
    requires id < |ranks| && Left(cfg, r) < Left(cfg, ranks[id])
    ensures LeftOfAll(cfg, ranks[id := r]) < LeftOfAll(cfg, ranks)
  {
    var n := |ranks| - 1;
    if id < n {
      OneRankUses(cfg, ranks[..n], id, r);
      assert ranks[id := r][..n] == ranks[..n][id := r];
    } else {
      assert ranks[id := r][..n] == ranks[..n];
    }
  }

  lemma NextKeepsHealthy(cfg: Config, id: nat, r: Rank, collectiveDone: bool)
    requires cfg.Valid() && RankInv(cfg, r) && Healthy(cfg, r) && !Done(r)
    requires RankStep(cfg, id, r, NextStep(cfg, id, r), collectiveDone).Some?
    ensures Healthy(cfg, RankStep(cfg, id, r, NextStep(cfg, id, r), collectiveDone).value)
  {
  }

  /** One more step of a rank that is not done. */
  lemma OneMore(cfg: Config, s: State, id: nat) returns (s': State)
    requires cfg.Valid() && StateInv(cfg, s) && AllHealthy(cfg, s) && CanStep(cfg, s, id) && !Done(s.ranks[id])
    ensures Apply(cfg, s, id, NextStep(cfg, id, s.ranks[id])) == Some(s')
    ensures AllHealthy(cfg, s') && LeftOfAll(cfg, s'.ranks) < LeftOfAll(cfg, s.ranks)
  {
    var r, step := s.ranks[id], NextStep(cfg, id, s.ranks[id]);
    s' := Apply(cfg, s, id, step).value;
    NextKeepsHealthy(cfg, id, r, CollectiveDone(s, id));
    StepUses(cfg, id, r, step, CollectiveDone(s, id));
    OneRankUses(cfg, s.ranks, id, s'.ranks[id]);
  }

  /** Main result: every run without a failure can be completed, so that all trainers finish and all savers exit. */
  lemma {:induction false} CanBeCompleted(cfg: Config, events: seq<Event>, s: State) returns (whole: seq<Event>, end: State)
    requires cfg.Valid() && Run(cfg, events) == Some(s) && AllHealthy(cfg, s)
    ensures events <= whole && Run(cfg, whole) == Some(end) && AllDone(end)
    ensures |whole| <= |events| + LeftOfAll(cfg, s.ranks)
    decreases LeftOfAll(cfg, s.ranks)
  {
    if AllDone(s) {
      whole, end := events, s;
    } else {
      var e, s' := OneMoreEvent(cfg, events, s);
      whole, end := CanBeCompleted(cfg, events + [e], s');
    }
  }

  lemma OneMoreEvent(cfg: Config, events: seq<Event>, s: State) returns (e: Event, s': State)
    requires cfg.Valid() && Run(cfg, events) == Some(s) && AllHealthy(cfg, s) && !AllDone(s)
    ensures Run(cfg, events + [e]) == Some(s') && AllHealthy(cfg, s') && LeftOfAll(cfg, s'.ranks) < LeftOfAll(cfg, s.ranks)
  {
    RunInv(cfg, events);
    var busy: nat :| busy < |s.ranks| && !Done(s.ranks[busy]);
    var id := SomeoneCanStep(cfg, s, busy);
    s' := OneMore(cfg, s, id);
    e := Event(id, NextStep(cfg, id, s.ranks[id]));
    assert (events + [e])[..|events|] == events;
  }
}
