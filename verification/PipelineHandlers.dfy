// What a handler does with one delivery: the calls of a handled job in order,
// with all they write, and how every delivery is settled and why.
module PipelineHandlers {
  import opened Common
  import opened Backoff
  import opened Headers
  import opened Pipeline
  import opened PipelineRuns
  import opened PipelineSafety
  import opened PipelineTheorems
  import opened PipelineTurns
  import opened PipelineTrails

  /******* A handled job, one turn back *******/

  lemma IntoCallLegacy(cfg: Config, s: State, w: nat, ok: bool)
    requires WorkerEnabled(s, w, ok) && WorkerGoto(cfg, s, w, ok).CallLegacy?
    ensures s.workers[w].pc.StartEvent? && ok && s.workers[w].msg.body.Job?
    ensures LogsEvent(s, WorkerNext(cfg, s, w, ok), s.workers[w].msg.body.tx, Event(WorkerStarted, NoDestination))
  {
  }

  lemma IntoUpdateRow(cfg: Config, s: State, w: nat, ok: bool)
    requires WorkerEnabled(s, w, ok) && WorkerGoto(cfg, s, w, ok).UpdateRow?
    ensures s.workers[w].pc.CallLegacy? && WorkerGoto(cfg, s, w, ok) == UpdateRow(ok) && s.workers[w].msg.body.Job?
    ensures CallsLegacy(s, WorkerNext(cfg, s, w, ok), s.workers[w].msg.body.tx, ok, s.workers[w].msg.body.request)
  {
  }

  lemma IntoCacheResult(cfg: Config, s: State, w: nat, ok: bool)
    requires WorkerEnabled(s, w, ok) && WorkerGoto(cfg, s, w, ok).CacheResult?
    ensures ok && s.workers[w].msg.body.Job? && s.workers[w].msg.body.tx < |s.rows|
    ensures
      var pc, tx := WorkerGoto(cfg, s, w, ok), s.workers[w].msg.body.tx;
      && s.workers[w].pc == UpdateRow(pc.ok)
      && WritesStatus(s, WorkerNext(cfg, s, w, ok), tx, if pc.ok then Success else Failed)
      && pc.entry == Entry(tx, if pc.ok then Success else Failed, s.rows[tx].requestedAt, Some(s.now), s.now)
  {
  }

  lemma IntoDropBalance(cfg: Config, s: State, w: nat, ok: bool)
    requires WorkerEnabled(s, w, ok) && WorkerGoto(cfg, s, w, ok).DropBalance?
    ensures s.workers[w].pc.CacheResult? && s.workers[w].pc.ok && ok
    ensures Caches(s, WorkerNext(cfg, s, w, ok), s.workers[w].pc.entry)
  {
  }

  lemma IntoFinalEvent(cfg: Config, s: State, w: nat, ok: bool)
    requires WorkerEnabled(s, w, ok) && WorkerGoto(cfg, s, w, ok).FinalEvent?
    ensures ok && s.workers[w].msg.body.Job?
    ensures
      var s' := WorkerNext(cfg, s, w, ok);
      if WorkerGoto(cfg, s, w, ok).ok then s.workers[w].pc.DropBalance? && DropsBalance(s, s', s.workers[w].msg.body.account)
      else s.workers[w].pc.CacheResult? && !s.workers[w].pc.ok && Caches(s, s', s.workers[w].pc.entry)
  {
  }

  lemma IntoAckDone(cfg: Config, s: State, w: nat, ok: bool)
    requires WorkerEnabled(s, w, ok) && WorkerGoto(cfg, s, w, ok).AckDone?
    ensures s.workers[w].pc.FinalEvent? && ok && s.workers[w].msg.body.Job?
    ensures LogsEvent(s, WorkerNext(cfg, s, w, ok), s.workers[w].msg.body.tx,
                      Event(if s.workers[w].pc.ok then Succeeded else FailedEvent, NoDestination))
  {
  }

  /******* The whole handling *******/

  datatype HandlerTrail = HandlerTrail(started: nat, called: nat, updated: nat, cached: nat, dropped: Option<nat>, ended: nat)

  // The start is logged, legacy is asked once for what the message says, and
  // ok is its answer.
  ghost predicate Asked(r: Run, n: nat, w: nat, body: Body, ok: bool, started: nat, called: nat) {
    && body.Job? && started < called < n && HandlerTurn(r, started, w) && HandlerTurn(r, called, w)
    && HandlerRests(r, started + 1, called, w) && HandlerRests(r, called + 1, n, w)
    && LogsEvent(r.states[started], r.states[started + 1], body.tx, Event(WorkerStarted, NoDestination))
    && CallsLegacy(r.states[called], r.states[called + 1], body.tx, ok, body.request)
  }

  // The row gets the status of that answer, and the same is cached.
  ghost predicate Recorded(r: Run, n: nat, w: nat, body: Body, ok: bool, updated: nat, cached: nat) {
    && body.Job? && updated < cached < n && HandlerTurn(r, updated, w) && HandlerTurn(r, cached, w)
    && HandlerRests(r, updated + 1, cached, w) && HandlerRests(r, cached + 1, n, w)
    && var s, status := r.states[updated], if ok then Success else Failed;
    && body.tx < |s.rows|
    && WritesStatus(s, r.states[updated + 1], body.tx, status)
    && Caches(r.states[cached], r.states[cached + 1], Entry(body.tx, status, s.rows[body.tx].requestedAt, Some(s.now), s.now))
  }

  // A success also drops the cached balance of the account.
  ghost predicate BalanceDropped(r: Run, k: nat, n: nat, w: nat, body: Body, ok: bool, dropped: Option<nat>) {
    match dropped
    case None => !ok && HandlerRests(r, k, n, w)
    case Some(d) =>
      && ok && body.Job? && k <= d < n && HandlerTurn(r, d, w) && HandlerRests(r, k, d, w) && HandlerRests(r, d + 1, n, w)
      && DropsBalance(r.states[d], r.states[d + 1], body.account)
  }

  ghost predicate Handled(r: Run, n: nat, w: nat, body: Body, ok: bool, t: HandlerTrail) {
    && Asked(r, t.updated, w, body, ok, t.started, t.called)
    && t.updated < t.cached < t.ended < n
    && Recorded(r, t.cached + 1, w, body, ok, t.updated, t.cached)
    && BalanceDropped(r, t.cached + 1, t.ended, w, body, ok, t.dropped)
    && HandlerTurn(r, t.ended, w) && HandlerRests(r, t.ended + 1, n, w)
    && LogsEvent(r.states[t.ended], r.states[t.ended + 1], body.tx, Event(if ok then Succeeded else FailedEvent, NoDestination))
  }

  lemma AskTrail(cfg: Config, r: Run, n: nat, w: nat) returns (started: nat, called: nat)
    requires ValidRun(cfg, r) && n < |r.states| && w < |r.states[n].workers| && r.states[n].workers[w].pc.UpdateRow?
    ensures Asked(r, n, w, r.states[n].workers[w].msg.body, r.states[n].workers[w].pc.ok, started, called)
  {
    called := LastHandlerTurn(cfg, r, n, w);
    IntoUpdateRow(cfg, r.states[called], w, r.steps[called].ok);
    started := LastHandlerTurn(cfg, r, called, w);
    IntoCallLegacy(cfg, r.states[started], w, r.steps[started].ok);
  }

  // From a cache write back to the status it shows.
  lemma UpdateTrail(cfg: Config, r: Run, n: nat, w: nat) returns (updated: nat)
    requires ValidRun(cfg, r) && n < |r.states| && w < |r.states[n].workers| && r.states[n].workers[w].pc.CacheResult?
    ensures updated < n && HandlerTurn(r, updated, w) && HandlerRests(r, updated + 1, n, w)
    ensures
      var s, worker := r.states[updated], r.states[n].workers[w];
      var status := if worker.pc.ok then Success else Failed;
      && w < |s.workers| && s.workers[w].pc == UpdateRow(worker.pc.ok) && s.workers[w].msg == worker.msg
      && worker.msg.body.Job? && worker.msg.body.tx < |s.rows|
      && WritesStatus(s, r.states[updated + 1], worker.msg.body.tx, status)
      && worker.pc.entry == Entry(worker.msg.body.tx, status, s.rows[worker.msg.body.tx].requestedAt, Some(s.now), s.now)
  {
    updated := LastHandlerTurn(cfg, r, n, w);
    IntoCacheResult(cfg, r.states[updated], w, r.steps[updated].ok);
  }

  // From the last event back to the cache write.
  lemma CacheTurn(cfg: Config, r: Run, n: nat, w: nat) returns (cached: nat, dropped: Option<nat>)
    requires ValidRun(cfg, r) && n < |r.states| && w < |r.states[n].workers| && r.states[n].workers[w].pc.FinalEvent?
    ensures cached < n && HandlerTurn(r, cached, w)
    ensures
      var s, worker := r.states[cached], r.states[n].workers[w];
      && w < |s.workers| && s.workers[w].pc.CacheResult? && s.workers[w].pc.ok == worker.pc.ok && s.workers[w].msg == worker.msg
      && Caches(s, r.states[cached + 1], s.workers[w].pc.entry)
      && BalanceDropped(r, cached + 1, n, w, worker.msg.body, worker.pc.ok, dropped)
  {
    var last := LastHandlerTurn(cfg, r, n, w);
    IntoFinalEvent(cfg, r.states[last], w, r.steps[last].ok);
    if r.states[n].workers[w].pc.ok {
      cached := LastHandlerTurn(cfg, r, last, w);
      IntoDropBalance(cfg, r.states[cached], w, r.steps[cached].ok);
      dropped := Some(last);
    } else {
      cached, dropped := last, None;
    }
  }

  // Everything a handler did that got to its acknowledgement, in order: it
  // logged its start, asked legacy once for what its message says, recorded
  // the answer in the row, cached that, dropped the balance after a success,
  // and logged the end. It did nothing else.
  lemma JobTrail(cfg: Config, r: Run, n: nat, w: nat) returns (ok: bool, t: HandlerTrail)
    requires ValidRun(cfg, r) && n < |r.states| && w < |r.states[n].workers| && r.states[n].workers[w].pc.AckDone?
    ensures Handled(r, n, w, r.states[n].workers[w].msg.body, ok, t)
    ensures w < |r.states[t.ended].workers| && r.states[t.ended].workers[w].pc == FinalEvent(ok)
  {
    var ended := LastHandlerTurn(cfg, r, n, w);
    IntoAckDone(cfg, r.states[ended], w, r.steps[ended].ok);
    ok := r.states[ended].workers[w].pc.ok;
    var cached, dropped := CacheTurn(cfg, r, ended, w);
    var updated := UpdateTrail(cfg, r, cached, w);
    var started, called := AskTrail(cfg, r, updated, w);
    t := HandlerTrail(started, called, updated, cached, dropped, ended);
  }

  /******* Settlement *******/

  // One of the handler's database or cache calls fails. Legacy's refusal is
  // not among them.
  predicate HandlingFails(s: State, w: nat, ok: bool) {
    && w < |s.workers| && !ok
    && var pc := s.workers[w].pc;
    && (pc.StartEvent? || pc.UpdateRow? || pc.CacheResult? || pc.DropBalance? || pc.FinalEvent?)
  }

  predicate Erring(pc: WorkerPc) { pc.PublishRetry? || pc.AckRetried? || pc.NackBack? || pc.RejectSpent? }

  lemma ErringTurns(cfg: Config, s: State, w: nat, ok: bool)
    requires WorkerEnabled(s, w, ok) && !WorkerGoto(cfg, s, w, ok).Finished?
    ensures Erring(WorkerGoto(cfg, s, w, ok)) <==> Erring(s.workers[w].pc) || HandlingFails(s, w, ok)
  {
  }

  ghost predicate MetFault(r: Run, n: nat, w: nat) {
    exists j: nat :: j < n && HandlerTurn(r, j, w) && HandlingFails(r.states[j], w, r.steps[j].ok)
  }

  // An unfinished handler is dealing with an error exactly if one of its own
  // calls has failed.
  lemma ErringExactly(cfg: Config, r: Run, n: nat, w: nat)
    requires ValidRun(cfg, r) && n < |r.states| && w < |r.states[n].workers| && !r.states[n].workers[w].pc.Finished?
    ensures Erring(r.states[n].workers[w].pc) <==> MetFault(r, n, w)
  {
    var erring := (pc: WorkerPc) => Erring(pc);
    var kind := (s: State, ok: bool) => HandlingFails(s, w, ok);
    forall s, ok | WorkerEnabled(s, w, ok) && !WorkerGoto(cfg, s, w, ok).Finished?
      ensures erring(WorkerGoto(cfg, s, w, ok)) <==> erring(s.workers[w].pc) || kind(s, ok)
    {
      ErringTurns(cfg, s, w, ok);
    }
    HandlerStandsByTurns(cfg, r, n, w, erring, kind);
    forall j: nat | j < n
      ensures HandlerTurnLike(r, j, w, kind) <==> HandlerTurn(r, j, w) && HandlingFails(r.states[j], w, r.steps[j].ok)
    {
    }
  }

  lemma IntoFinished(cfg: Config, s: State, w: nat, ok: bool)
    requires WorkerEnabled(s, w, ok) && WorkerGoto(cfg, s, w, ok).Finished?
    ensures
      var pc, s' := s.workers[w].pc, WorkerNext(cfg, s, w, ok);
      && (pc.AckDone? || pc.RejectDone? || pc.AckRetried? || pc.NackBack? || pc.RejectSpent? || pc.RejectBad?)
      && (pc.AckDone? ==> ok)
      && (if ok then Settles(s, s', w, if pc.AckDone? || pc.AckRetried? then Gone else if pc.NackBack? then Primary else Dead)
          else WritesNothing(s, s'))
  {
  }

  /******* Retries *******/

  // The copy a failed attempt leaves in the retry queue: the same body, one
  // more retry, the first-enqueued time and all other headers kept, due after
  // the base delay doubled once per earlier retry, cut to whole milliseconds.
  predicate IsRetryOf(cfg: Config, now: Time, msg: Message, copy: Copy)
    requires 0 <= Retries(msg) < MaxAttempts(cfg)
  {
    var delay := BaseDelay(cfg) * Pow2(Retries(msg));
    && copy.msg.body == msg.body
    && copy.place == Retry(now + (delay - delay % 1_000_000))
    && copy.msg.headers == if "x-first-enqueued-at" in msg.headers
                           then msg.headers["x-retry-count" := Int32(Retries(msg) + 1)]
                           else msg.headers["x-retry-count" := Int32(Retries(msg) + 1)]["x-first-enqueued-at" := Stamp(now)]
  }

  lemma RetryCopyExactly(cfg: Config, s: State, msg: Message)
    requires ValidConfig(cfg) && 0 <= Retries(msg) < MaxAttempts(cfg)
    ensures IsRetryOf(cfg, s.now, msg, RetryCopy(cfg, s, msg))
  {
    ExpirationExactly(cfg, Retries(msg) + 1);
    assert RETRY_COUNT[2] != FIRST_ENQUEUED_AT[2];
  }

  predicate EnqueuesRetry(cfg: Config, s: State, s': State, msg: Message)
    requires 0 <= Retries(msg) < MaxAttempts(cfg)
  {
    && |s'.copies| == |s.copies| + 1
    && IsRetryOf(cfg, s.now, msg, s'.copies[|s.copies|])
    && Tables(s') == Tables(s).(copies := s.copies + [s'.copies[|s.copies|]])
  }

  lemma AfterRetry(cfg: Config, s: State, w: nat, ok: bool)
    requires WorkerEnabled(s, w, ok) && (WorkerGoto(cfg, s, w, ok).AckRetried? || WorkerGoto(cfg, s, w, ok).NackBack?)
    ensures s.workers[w].pc.PublishRetry? && (ok <==> WorkerGoto(cfg, s, w, ok).AckRetried?)
    ensures if ok then Tables(WorkerNext(cfg, s, w, ok)) == Tables(s).(copies := s.copies + [RetryCopy(cfg, s, s.workers[w].msg)])
            else WritesNothing(s, WorkerNext(cfg, s, w, ok))
  {
  }

  // A handler about to acknowledge a retried job has published exactly that
  // retry; one about to put its job back has failed to.
  lemma RetryTurn(cfg: Config, r: Run, n: nat, w: nat) returns (p: nat)
    requires ValidConfig(cfg) && ValidRun(cfg, r) && n < |r.states| && w < |r.states[n].workers|
    requires r.states[n].workers[w].pc.AckRetried? || r.states[n].workers[w].pc.NackBack?
    ensures p < n && HandlerTurn(r, p, w) && HandlerRests(r, p + 1, n, w)
    ensures 0 <= Retries(r.states[n].workers[w].msg) < MaxAttempts(cfg)
    ensures r.steps[p].ok <==> r.states[n].workers[w].pc.AckRetried?
    ensures if r.steps[p].ok then EnqueuesRetry(cfg, r.states[p], r.states[p + 1], r.states[n].workers[w].msg)
            else WritesNothing(r.states[p], r.states[p + 1])
  {
    p := LastHandlerTurn(cfg, r, n, w);
    AfterRetry(cfg, r.states[p], w, r.steps[p].ok);
    RunKeepsInv(cfg, r, p);
    StandsAtEnd(cfg, r.states[p], w);
    RetriesInRange(cfg, r.states[p], w);
    RetryCopyExactly(cfg, r.states[p], r.states[p].workers[w].msg);
    assert Tables(r.states[p + 1]).copies == r.states[p + 1].copies;
  }

  lemma RetriesInRange(cfg: Config, s: State, w: nat)
    requires Inv(cfg, s) && w < |s.workers| && !s.workers[w].pc.Decode? && !s.workers[w].pc.RejectBad? && !s.workers[w].pc.Finished?
    ensures 0 <= Retries(s.workers[w].msg)
  {
    assert WorkerOk(cfg, s, w) && CopyOk(cfg, s, s.workers[w].copy);
  }

  /******* How every delivery ends *******/

  // How the delivery of a finished handler was settled, at its last turn: an
  // undecodable body is rejected; a handled job acknowledged, or rejected when
  // that fails; a failed one is rejected when its retries are spent, and
  // otherwise acknowledged after a retry was published or put back.
  lemma DeliveryEnds(cfg: Config, r: Run, n: nat, w: nat) returns (j: nat)
    requires ValidConfig(cfg) && ValidRun(cfg, r) && n < |r.states|
    requires w < |r.states[n].workers| && r.states[n].workers[w].pc.Finished?
    ensures j < n && HandlerTurn(r, j, w) && HandlerRests(r, j + 1, n, w)
    ensures w < |r.states[j].workers| && r.states[j].workers[w].msg == r.states[n].workers[w].msg
    ensures
      var s, s', ok := r.states[j], r.states[j + 1], r.steps[j].ok;
      var msg, pc := s.workers[w].msg, s.workers[w].pc;
      && (msg.body.Undecodable? <==> pc.RejectBad?)
      && (msg.body.Job? ==>
            && (!MetFault(r, j, w) <==> pc.AckDone? || pc.RejectDone?)
            && (MetFault(r, j, w) && Retries(msg) == MaxAttempts(cfg) <==> pc.RejectSpent?)
            && (MetFault(r, j, w) && Retries(msg) < MaxAttempts(cfg) <==> pc.AckRetried? || pc.NackBack?))
      && (pc.AckDone? ==> ok)
      && (if ok then Settles(s, s', w, if pc.AckDone? || pc.AckRetried? then Gone else if pc.NackBack? then Primary else Dead)
          else WritesNothing(s, s'))
  {
    j := LastHandlerTurn(cfg, r, n, w);
    IntoFinished(cfg, r.states[j], w, r.steps[j].ok);
    ErringExactly(cfg, r, j, w);
    RunKeepsInv(cfg, r, j);
    StandsAtEnd(cfg, r.states[j], w);
    if r.states[j].workers[w].pc.NackBack? {
      var _ := RetryTurn(cfg, r, j, w);
    }
  }

  lemma StandsAtEnd(cfg: Config, s: State, w: nat)
    requires Inv(cfg, s) && w < |s.workers|
    ensures
      var msg, pc := s.workers[w].msg, s.workers[w].pc;
      && (!pc.Decode? && !pc.Finished? ==> (msg.body.Undecodable? <==> pc.RejectBad?))
      && (pc.RejectSpent? ==> Retries(msg) == MaxAttempts(cfg))
      && (pc.PublishRetry? || pc.AckRetried? ==> Retries(msg) < MaxAttempts(cfg))
  {
    assert WorkerOk(cfg, s, w);
  }

  /******* How copies move *******/

  // Where a successful settlement at this program point sends the copy.
  function SettledPlace(pc: WorkerPc): Option<Place> {
    if pc.AckDone? || pc.AckRetried? then Some(Gone)
    else if pc.NackBack? then Some(Primary)
    else if pc.RejectBad? || pc.RejectSpent? || pc.RejectDone? then Some(Dead)
    else None
  }

  // The step settles handler w's delivery.
  predicate SettlesDelivery(s: State, step: Step, w: nat) {
    step.WorkerStep? && step.ok && step.w == w && w < |s.workers| && SettledPlace(s.workers[w].pc).Some?
  }

  // A ready copy leaves its queue by delivery only, a waiting one by expiry
  // when it is due, and an unsettled one by its own handler's settlement or the
  // loss of its channel, which puts it back. What is acknowledged or
  // dead-lettered stays so.
  lemma CopyMovesExactly(cfg: Config, s: State, step: Step, c: nat)
    requires ValidConfig(cfg) && Reachable(cfg, s) && Enabled(cfg, s, step) && c < |s.copies|
    ensures c < |Apply(cfg, s, step).copies| && Apply(cfg, s, step).copies[c].msg == s.copies[c].msg
    ensures
      var place, place' := s.copies[c].place, Apply(cfg, s, step).copies[c].place;
      match place
      case Primary => place' == if step == Deliver(c) then Unacked(|s.workers|) else Primary
      case Retry(due) => place' == (if step == Expire(c) then Primary else place) && (step == Expire(c) ==> due <= s.now)
      case Unacked(w) =>
        place' == if step == DropConnection(w) then Primary
                  else if SettlesDelivery(s, step, w) then SettledPlace(s.workers[w].pc).value
                  else place
      case _ => place' == place
  {
    ReachableInv(cfg, s);
    assert CopyOk(cfg, s, c);
    match step {
      case IntakeStep(i, reply) => IntakeLeavesCopies(s, i, reply, c);
      case WorkerStep(w, ok) =>
        assert WorkerOk(cfg, s, w);
        HandlerMovesCopy(cfg, s, w, ok, c);
      case DropConnection(w) => assert WorkerOk(cfg, s, w);
      case _ =>
    }
  }

  lemma IntakeLeavesCopies(s: State, i: nat, reply: Reply, c: nat)
    requires IntakeEnabled(s, i, reply) && c < |s.copies|
    ensures c < |IntakeNext(s, i, reply).copies| && IntakeNext(s, i, reply).copies[c] == s.copies[c]
  {
  }

  lemma HandlerMovesCopy(cfg: Config, s: State, w: nat, ok: bool, c: nat)
    requires WorkerEnabled(s, w, ok) && WorkerOk(cfg, s, w) && c < |s.copies|
    requires s.copies[c].place.Unacked? && s.copies[c].place.worker == w ==> s.workers[w].copy == c
    ensures
      var s' := WorkerNext(cfg, s, w, ok);
      && c < |s'.copies| && s'.copies[c].msg == s.copies[c].msg
      && s'.copies[c].place == if s.copies[c].place == Unacked(w) && SettlesDelivery(s, WorkerStep(w, ok), w)
                               then SettledPlace(s.workers[w].pc).value else s.copies[c].place
  {
    HandlerSettles(cfg, s, w, ok);
    PlaceAfter(s, WorkerEffect(cfg, s, w, ok), c);
  }

  lemma HandlerSettles(cfg: Config, s: State, w: nat, ok: bool)
    requires WorkerEnabled(s, w, ok)
    ensures
      var e := WorkerEffect(cfg, s, w, ok);
      && EffectFits(s, e) && (e.Settle? <==> SettlesDelivery(s, WorkerStep(w, ok), w))
      && (e.Settle? ==> e == Settle(w, SettledPlace(s.workers[w].pc).value) && s.workers[w].attached)
  {
  }

  lemma PlaceAfter(s: State, e: Effect, c: nat)
    requires EffectFits(s, e) && c < |s.copies|
    ensures c < |Perform(s, e).copies| && Perform(s, e).copies[c].msg == s.copies[c].msg
    ensures Perform(s, e).copies[c].place == if e.Settle? && s.workers[e.w].copy == c then e.place else s.copies[c].place
  {
  }

  // The step puts a job back into its queue.
  predicate PutsBack(s: State, step: Step) {
    || (step.DropConnection? && step.w < |s.workers| && s.workers[step.w].msg.body.Job?)
    || (step.WorkerStep? && step.ok && step.w < |s.workers| && s.workers[step.w].msg.body.Job? && s.workers[step.w].pc.NackBack?)
  }

  // The requeues counted are exactly the jobs put back by a negative
  // acknowledgement or a lost channel.
  lemma RequeuedExactly(cfg: Config, s: State, step: Step)
    requires Enabled(cfg, s, step)
    ensures Apply(cfg, s, step).requeues == s.requeues + if PutsBack(s, step) then [s.workers[step.w].msg.body.tx] else []
  {
    match step {
      case IntakeStep(i, reply) => IntakePutsNothingBack(s, i, reply);
      case WorkerStep(w, ok) => HandlerPutsBack(cfg, s, w, ok);
      case _ =>
    }
  }

  lemma IntakePutsNothingBack(s: State, i: nat, reply: Reply)
    requires IntakeEnabled(s, i, reply)
    ensures IntakeNext(s, i, reply).requeues == s.requeues
  {
  }

  lemma HandlerPutsBack(cfg: Config, s: State, w: nat, ok: bool)
    requires WorkerEnabled(s, w, ok)
    ensures WorkerNext(cfg, s, w, ok).requeues ==
            s.requeues + if PutsBack(s, WorkerStep(w, ok)) then [s.workers[w].msg.body.tx] else []
  {
  }
}
