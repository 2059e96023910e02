// The status cache behind the database: when a finished payment is still
// cached as PROCESSING, how that begins and ends, and why it never lasts when
// no call fails.
module PipelineStaleness {
  import opened Common
  import opened Backoff
  import opened Headers
  import opened Pipeline
  import opened PipelineRuns
  import opened PipelineSafety
  import opened PipelineTheorems
  import opened PipelineTurns
  import opened PipelineExactlyOnce

  predicate RowFinished(s: State, tx: TxId) {
    tx < |s.rows| && |s.rows[tx].versions| > 0 && s.rows[tx].versions[|s.rows[tx].versions| - 1].status != Processing
  }

  predicate CachedProcessing(s: State, tx: TxId) { tx in s.cache && s.cache[tx].status == Processing }

  // The cache is behind: the row is finished, the entry is not.
  predicate Stale(s: State, tx: TxId) { RowFinished(s, tx) && CachedProcessing(s, tx) }

  /******* Steps *******/

  predicate HandlesAt(s: State, w: nat, tx: TxId) {
    w < |s.workers| && s.workers[w].msg.body.Job? && s.workers[w].msg.body.tx == tx
  }

  // A handler, or a failed publish's intake, stands before its cache write.
  predicate HandlerToCache(s: State, w: nat, tx: TxId) { HandlesAt(s, w, tx) && s.workers[w].pc.CacheResult? }

  predicate IntakeToCache(s: State, i: nat, tx: TxId) {
    i < |s.intakes| && s.intakes[i].pc.CompensateCache? && s.intakes[i].pc.tx == tx
  }

  // The step finishes the row.
  predicate Finishes(s: State, step: Step, tx: TxId) {
    || (step.WorkerStep? && step.ok && HandlesAt(s, step.w, tx) && s.workers[step.w].pc.UpdateRow?)
    || (step.IntakeStep? && step.reply == Okay && step.i < |s.intakes| && s.intakes[step.i].pc == CompensateRow(tx))
  }

  // The step is such a cache write, and succeeds.
  predicate CachesFinish(s: State, step: Step, tx: TxId) {
    || (step.WorkerStep? && step.ok && HandlerToCache(s, step.w, tx))
    || (step.IntakeStep? && step.reply == Okay && IntakeToCache(s, step.i, tx))
  }

  // The step is such a cache write, and fails.
  predicate CacheFails(s: State, step: Step, tx: TxId) {
    || (step.WorkerStep? && !step.ok && HandlerToCache(s, step.w, tx))
    || (step.IntakeStep? && step.reply == Broken && IntakeToCache(s, step.i, tx))
  }

  // A reader's unfinished fill is written over a finished row.
  predicate FillsLate(s: State, step: Step, tx: TxId) {
    step.FillCache? && step.ok && step.entry.tx == tx && step.entry.status == Processing && RowFinished(s, tx)
  }

  // A reader's finished fill is written.
  predicate FillsFinished(step: Step, tx: TxId) {
    step.FillCache? && step.ok && step.entry.tx == tx && step.entry.status != Processing
  }

  /******* What an effect does to both *******/

  lemma EffectFinishes(s: State, e: Effect, tx: TxId)
    requires EffectFits(s, e) && (tx < |s.rows| ==> |s.rows[tx].versions| > 0)
    requires e.InsertRow? ==> |e.row.versions| == 1 && e.row.versions[0].status == Processing
    ensures RowFinished(Perform(s, e), tx) <==> if e.SetStatus? && e.tx == tx then e.status != Processing else RowFinished(s, tx)
  {
  }

  lemma EffectCaches(s: State, e: Effect, tx: TxId)
    requires EffectFits(s, e)
    ensures CachedProcessing(Perform(s, e), tx) <==>
            if e.SetCache? && e.entry.tx == tx then e.entry.status == Processing else CachedProcessing(s, tx)
  {
  }

  lemma HandlerEffect(cfg: Config, s: State, w: nat, ok: bool, tx: TxId)
    requires Inv(cfg, s) && WorkerEnabled(s, w, ok)
    ensures
      var e, step := WorkerEffect(cfg, s, w, ok), WorkerStep(w, ok);
      && EffectFits(s, e) && !e.InsertRow?
      && (e.SetStatus? && e.tx == tx <==> Finishes(s, step, tx)) && (e.SetStatus? ==> e.status != Processing)
      && (e.SetCache? && e.entry.tx == tx <==> CachesFinish(s, step, tx)) && (e.SetCache? ==> e.entry.status != Processing)
  {
    assert WorkerOk(cfg, s, w);
  }

  lemma IntakeEffectHere(cfg: Config, s: State, i: nat, reply: Reply, tx: TxId)
    requires Inv(cfg, s) && IntakeEnabled(s, i, reply)
    ensures
      var e, step := IntakeEffect(s, i, reply), IntakeStep(i, reply);
      && EffectFits(s, e) && (e.InsertRow? ==> |e.row.versions| == 1 && e.row.versions[0].status == Processing)
      && (e.SetStatus? && e.tx == tx <==> Finishes(s, step, tx)) && (e.SetStatus? ==> e.status != Processing)
      && (e.SetCache? && e.entry.tx == tx && e.entry.status != Processing <==> CachesFinish(s, step, tx))
      && (e.SetCache? && e.entry.tx == tx && e.entry.status == Processing ==> !RowFinished(s, tx))
  {
    assert IntakeOk(s, i);
    var pc := s.intakes[i].pc;
    if Owning(pc) {
      assert RowOk(s, pc.tx);
    }
  }

  /******* How staleness begins and ends *******/

  // The cache falls behind exactly when a row that is cached as PROCESSING is
  // finished, or a late fill is written; and it catches up exactly when the
  // finish is cached, a finished fill is written, or the entry expires.
  ghost predicate TurnsExactly(cfg: Config, s: State, step: Step, tx: TxId)
    requires Enabled(cfg, s, step)
  {
    var s' := Apply(cfg, s, step);
    && (!Stale(s, tx) ==>
          (Stale(s', tx) <==> FillsLate(s, step, tx) || (Finishes(s, step, tx) && CachedProcessing(s, tx))))
    && (Stale(s, tx) ==>
          (!Stale(s', tx) <==> CachesFinish(s, step, tx) || FillsFinished(step, tx) || step == Evict(tx)))
  }

  lemma HandlerTurns(cfg: Config, s: State, w: nat, ok: bool, tx: TxId)
    requires Inv(cfg, s) && WorkerEnabled(s, w, ok)
    ensures TurnsExactly(cfg, s, WorkerStep(w, ok), tx)
  {
    var e := WorkerEffect(cfg, s, w, ok);
    if tx < |s.rows| {
      assert RowOk(s, tx);
    }
    HandlerEffect(cfg, s, w, ok, tx);
    EffectFinishes(s, e, tx);
    EffectCaches(s, e, tx);
    SameLines(Perform(s, e), WorkerNext(cfg, s, w, ok), tx);
  }

  lemma IntakeTurns(cfg: Config, s: State, i: nat, reply: Reply, tx: TxId)
    requires Inv(cfg, s) && IntakeEnabled(s, i, reply)
    ensures TurnsExactly(cfg, s, IntakeStep(i, reply), tx)
  {
    var e := IntakeEffect(s, i, reply);
    if tx < |s.rows| {
      assert RowOk(s, tx);
    }
    IntakeEffectHere(cfg, s, i, reply, tx);
    EffectFinishes(s, e, tx);
    EffectCaches(s, e, tx);
    SameLines(Perform(s, e), IntakeNext(s, i, reply), tx);
  }

  lemma SameLines(s: State, s': State, tx: TxId)
    requires s'.rows == s.rows && s'.cache == s.cache
    ensures RowFinished(s', tx) == RowFinished(s, tx) && CachedProcessing(s', tx) == CachedProcessing(s, tx)
  {
  }

  lemma OtherTurns(cfg: Config, s: State, step: Step, tx: TxId)
    requires Enabled(cfg, s, step) && !step.IntakeStep? && !step.WorkerStep?
    ensures TurnsExactly(cfg, s, step, tx)
  {
    if step.FillCache? {
      FillTurns(cfg, s, step.entry, step.ok, tx);
    } else if step.Evict? {
      EvictTurns(cfg, s, step.tx, tx);
    } else {
      LinesStay(cfg, s, step);
      SameLines(s, Apply(cfg, s, step), tx);
    }
  }

  lemma LinesStay(cfg: Config, s: State, step: Step)
    requires Enabled(cfg, s, step) && !step.IntakeStep? && !step.WorkerStep? && !step.FillCache? && !step.Evict?
    ensures Apply(cfg, s, step).rows == s.rows && Apply(cfg, s, step).cache == s.cache
  {
  }

  lemma FillTurns(cfg: Config, s: State, entry: Entry, ok: bool, tx: TxId)
    requires entry in s.fills
    ensures TurnsExactly(cfg, s, FillCache(entry, ok), tx)
  {
    var s' := Apply(cfg, s, FillCache(entry, ok));
    assert s'.rows == s.rows && s'.cache == if ok then s.cache[entry.tx := entry] else s.cache;
  }

  lemma EvictTurns(cfg: Config, s: State, t: TxId, tx: TxId)
    requires t in s.cache
    ensures TurnsExactly(cfg, s, Evict(t), tx)
  {
    var s' := Apply(cfg, s, Evict(t));
    assert s'.rows == s.rows && s'.cache == s.cache - {t};
  }

  lemma StaleTurnsExactly(cfg: Config, s: State, step: Step, tx: TxId)
    requires ValidConfig(cfg) && Reachable(cfg, s) && Enabled(cfg, s, step)
    ensures TurnsExactly(cfg, s, step, tx)
  {
    ReachableInv(cfg, s);
    StepTurns(cfg, s, step, tx);
  }

  lemma StepTurns(cfg: Config, s: State, step: Step, tx: TxId)
    requires Inv(cfg, s) && Enabled(cfg, s, step)
    ensures TurnsExactly(cfg, s, step, tx)
  {
    match step {
      case IntakeStep(i, reply) => IntakeTurns(cfg, s, i, reply, tx);
      case WorkerStep(w, ok) => HandlerTurns(cfg, s, w, ok, tx);
      case _ => OtherTurns(cfg, s, step, tx);
    }
  }

  /******* Causes *******/

  // A cache write of tx is still to come.
  ghost predicate ToCache(s: State, tx: TxId) {
    (exists w: nat :: HandlerToCache(s, w, tx)) || (exists i: nat :: IntakeToCache(s, i, tx))
  }

  ghost predicate CacheFailedAt(cfg: Config, r: Run, j: nat, tx: TxId) {
    StepAt(cfg, r, j) && CacheFails(r.states[j], r.steps[j], tx)
  }

  ghost predicate LateFillAt(cfg: Config, r: Run, j: nat, tx: TxId) {
    StepAt(cfg, r, j) && FillsLate(r.states[j], r.steps[j], tx)
  }

  // A finished payment is cached as PROCESSING only while its cache write is
  // still to come, or after a cache write of it has failed or a reader's fill
  // has come late.
  lemma {:induction false} StaleHasCause(cfg: Config, r: Run, n: nat, tx: TxId)
    requires ValidConfig(cfg) && ValidRun(cfg, r) && n < |r.states| && Stale(r.states[n], tx)
    ensures ToCache(r.states[n], tx)
            || (exists j: nat :: j < n && CacheFailedAt(cfg, r, j, tx))
            || (exists j: nat :: j < n && LateFillAt(cfg, r, j, tx))
    decreases n
  {
    assert n > 0;
    var s, step := r.states[n - 1], r.steps[n - 1];
    assert StepAt(cfg, r, n - 1);
    RunKeepsInv(cfg, r, n - 1);
    StepTurns(cfg, s, step, tx);
    if !Stale(s, tx) {
      if FillsLate(s, step, tx) {
        assert LateFillAt(cfg, r, n - 1, tx);
      } else {
        FinishWaits(cfg, s, step, tx);
      }
    } else {
      StaleHasCause(cfg, r, n - 1, tx);
      if ToCache(s, tx) {
        WaitGoesOn(cfg, s, step, tx);
        assert CacheFails(s, step, tx) ==> CacheFailedAt(cfg, r, n - 1, tx);
      }
    }
  }

  // Whoever finishes a row has its cache write to come.
  lemma FinishWaits(cfg: Config, s: State, step: Step, tx: TxId)
    requires Enabled(cfg, s, step) && Finishes(s, step, tx)
    ensures ToCache(Apply(cfg, s, step), tx)
  {
    if step.WorkerStep? {
      OwnTurnKeepsWork(cfg, s, step.w, step.ok);
      assert HandlerToCache(Apply(cfg, s, step), step.w, tx);
    } else {
      PerformIntakes(s, IntakeEffect(s, step.i, step.reply));
      assert IntakeToCache(Apply(cfg, s, step), step.i, tx);
    }
  }

  // It goes on waiting until its cache write is made or fails.
  lemma WaitGoesOn(cfg: Config, s: State, step: Step, tx: TxId)
    requires Enabled(cfg, s, step) && ToCache(s, tx) && !CachesFinish(s, step, tx)
    ensures ToCache(Apply(cfg, s, step), tx) || CacheFails(s, step, tx)
  {
    if w: nat :| HandlerToCache(s, w, tx) {
      HandlerWaitsOn(cfg, s, step, w, tx);
    } else {
      var i: nat :| IntakeToCache(s, i, tx);
      IntakeWaitsOn(cfg, s, step, i, tx);
    }
  }

  lemma HandlerWaitsOn(cfg: Config, s: State, step: Step, w: nat, tx: TxId)
    requires Enabled(cfg, s, step) && HandlerToCache(s, w, tx) && !CachesFinish(s, step, tx)
    ensures HandlerToCache(Apply(cfg, s, step), w, tx) || CacheFails(s, step, tx)
  {
    if !(step.WorkerStep? && step.w == w) {
      HandlersGrow(cfg, s, step);
      HandlerComesFrom(cfg, s, step, w);
    }
  }

  lemma IntakeWaitsOn(cfg: Config, s: State, step: Step, i: nat, tx: TxId)
    requires Enabled(cfg, s, step) && IntakeToCache(s, i, tx) && !CachesFinish(s, step, tx)
    ensures IntakeToCache(Apply(cfg, s, step), i, tx) || CacheFails(s, step, tx)
  {
    if !(step.IntakeStep? && step.i == i) {
      OthersWait(cfg, s, step, i);
    }
  }

  /******* Without faults *******/

  // No reader's fill is written.
  predicate NoFills(r: Run) { forall j :: 0 <= j < |r.steps| && r.steps[j].FillCache? ==> !r.steps[j].ok }

  // When no call fails and no reader's fill is written, then once the queues
  // are drained the cache has nothing of an accepted payment or exactly its
  // row's present status and times.
  lemma CacheShowsRow(cfg: Config, r: Run, i: nat, tx: TxId)
    requires ValidConfig(cfg) && ValidRun(cfg, r) && CleanRun(cfg, r) && NoFills(r)
    requires Accepted(r.states[|r.steps|], i, tx) && Drained(r.states[|r.steps|])
    ensures
      var s := r.states[|r.steps|];
      && tx < |s.rows| && |s.rows[tx].versions| == 2 && RowFinished(s, tx)
      && var last := s.rows[tx].versions[|s.rows[tx].versions| - 1];
         tx in s.cache ==> s.cache[tx] == Entry(tx, last.status, s.rows[tx].requestedAt, last.processedAt, last.updatedAt)
  {
    var n := |r.steps|;
    var s := r.states[n];
    ExactlyOnceWithoutFaults(cfg, r, i, tx);
    RunKeepsInv(cfg, r, n);
    CleanRunStaysClean(cfg, r, n);
    if tx in s.cache {
      if Stale(s, tx) {
        StaleHasCause(cfg, r, n, tx);
        NothingFails(cfg, r, tx);
        NothingToCache(cfg, s, tx);
      }
      assert RowOk(s, tx);
      FinishedEntry(s, tx);
    }
  }

  lemma FinishedEntry(s: State, tx: TxId)
    requires CacheOk(s) && tx < |s.rows| && |s.rows[tx].versions| == 2 && s.rows[tx].versions[0].status == Processing
    requires tx in s.cache && s.cache[tx].status != Processing
    ensures
      var last := s.rows[tx].versions[1];
      s.cache[tx] == Entry(tx, last.status, s.rows[tx].requestedAt, last.processedAt, last.updatedAt)
  {
    assert Past(s, s.cache[tx]);
  }

  lemma NothingFails(cfg: Config, r: Run, tx: TxId)
    requires ValidRun(cfg, r) && CleanRun(cfg, r) && NoFills(r)
    ensures forall j: nat :: j < |r.steps| ==> !CacheFailedAt(cfg, r, j, tx) && !LateFillAt(cfg, r, j, tx)
  {
    forall j: nat | j < |r.steps| ensures !CacheFailedAt(cfg, r, j, tx) && !LateFillAt(cfg, r, j, tx) {
      assert CleanStep(r.states[j], r.steps[j]);
    }
  }

  lemma BusyHoldsCopy(cfg: Config, s: State, w: nat)
    requires Inv(cfg, s) && Clean(s) && w < |s.workers| && !s.workers[w].pc.Finished?
    ensures s.workers[w].copy < |s.copies| && s.copies[s.workers[w].copy].place == Unacked(w)
  {
    assert CleanWorker(s, w) && WorkerOk(cfg, s, w);
  }

  // With drained queues and no failed call, no cache write is to come.
  lemma NothingToCache(cfg: Config, s: State, tx: TxId)
    requires Inv(cfg, s) && Clean(s) && Drained(s)
    ensures !ToCache(s, tx)
  {
    forall w: nat ensures !HandlerToCache(s, w, tx) {
      if HandlerToCache(s, w, tx) {
        BusyHoldsCopy(cfg, s, w);
      }
    }
    forall i: nat ensures !IntakeToCache(s, i, tx) {
      if i < |s.intakes| {
        assert CleanIntake(s, i);
      }
    }
  }
}
