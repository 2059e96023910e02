// What the pipeline promises in every reachable state, and over whole runs.
module PipelineTheorems {
  import opened Common
  import opened Backoff
  import opened Headers
  import opened Pipeline
  import opened PipelineRuns
  import opened PipelineSafety

  // The guards on steps hide nothing: in every reachable state each call in
  // progress can fail, and can also succeed unless its channel is lost.
  lemma IntakeNeverStuck(cfg: Config, s: State, i: nat)
    requires ValidConfig(cfg) && Reachable(cfg, s)
    requires i < |s.intakes| && !s.intakes[i].pc.Done?
    ensures IntakeEnabled(s, i, Broken)
    ensures IntakeEnabled(s, i, Okay) ||
            (IntakeEnabled(s, i, NoMerchant) && forall m :: IntakeEnabled(s, i, FoundMerchant(m)))
  {
    ReachableInv(cfg, s);
    assert IntakeOk(s, i);
    if RefersToRow(s.intakes[i].pc) {
      assert RowOk(s, s.intakes[i].pc.tx);
    }
  }

  lemma WorkerNeverStuck(cfg: Config, s: State, w: nat)
    requires ValidConfig(cfg) && Reachable(cfg, s)
    requires w < |s.workers| && !s.workers[w].pc.Finished?
    ensures WorkerEnabled(s, w, false)
    ensures WorkerEnabled(s, w, true) <==> !TouchesBroker(s.workers[w].pc) || s.workers[w].attached
  {
    ReachableInv(cfg, s);
    assert WorkerOk(cfg, s, w);
    assert CopyOk(cfg, s, s.workers[w].copy);
  }

  /******* Messages *******/

  ghost predicate Accepted(s: State, i: nat, tx: TxId) {
    i < |s.intakes| && s.intakes[i].pc == Done(Created(tx))
  }

  // The copy is still in some queue, or delivered and not settled.
  ghost predicate Carries(s: State, c: nat, tx: TxId) {
    c < |s.copies| && s.copies[c].msg.body.Job? && s.copies[c].msg.body.tx == tx && !s.copies[c].place.Gone?
  }

  // No accepted payment is lost, whatever fails, is retried or is dropped.
  lemma NoAcceptedPaymentLost(cfg: Config, s: State, i: nat, tx: TxId)
    requires ValidConfig(cfg) && Reachable(cfg, s)
    requires Accepted(s, i, tx)
    ensures IsTerminal(s, tx) || exists c :: Carries(s, c, tx)
  {
    ReachableInv(cfg, s);
    assert IntakeOk(s, i);
    assert Kept(s, tx);
    if !IsTerminal(s, tx) {
      var c :| Holds(s, c, tx);
      assert Carries(s, c, tx);
    }
  }

  // Every copy of a job, wherever it is, still has the body of the original
  // publish, the original first-enqueued time, and a retry count within the
  // budget; and a job in the dead-letter queue is finished or out of retries.
  lemma MessageIntegrity(cfg: Config, s: State, c: nat)
    requires ValidConfig(cfg) && Reachable(cfg, s)
    requires c < |s.copies| && s.copies[c].msg.body.Job?
    ensures
      var msg := s.copies[c].msg;
      var tx := msg.body.tx;
      && tx < |s.rows| && s.rows[tx].owner < |s.intakes| && s.rows[tx].birth.Some?
      && msg.body == Job(tx, s.rows[tx].account, s.rows[tx].merchant, s.intakes[s.rows[tx].owner].request)
      && FIRST_ENQUEUED_AT in msg.headers && msg.headers[FIRST_ENQUEUED_AT] == Stamp(s.rows[tx].birth.value.at)
      && MessageLag(msg.headers, s.now) == s.now - s.rows[tx].birth.value.at
      && 0 <= Retries(msg) <= MaxAttempts(cfg)
      && (s.copies[c].place.Dead? ==> IsTerminal(s, tx) || Retries(msg) == MaxAttempts(cfg))
  {
    ReachableInv(cfg, s);
    assert CopyOk(cfg, s, c);
    assert RowOk(s, s.copies[c].msg.body.tx);
  }

  // A job dead-lettered while its transaction is unfinished has spent every
  // retry, and has aged at least the sum of all its retry delays.
  lemma ExhaustionTakesAllDelays(cfg: Config, s: State, c: nat)
    requires ValidConfig(cfg) && Reachable(cfg, s)
    requires c < |s.copies| && s.copies[c].msg.body.Job? && s.copies[c].place.Dead?
    requires !IsTerminal(s, s.copies[c].msg.body.tx)
    ensures
      var lag := MessageLag(s.copies[c].msg.headers, s.now);
      && lag >= TotalBackoff(cfg, MaxAttempts(cfg))
      && lag >= BaseDelay(cfg) * (Pow2(MaxAttempts(cfg)) - 1) - MaxAttempts(cfg) * NANOS_PER_MILLI
      && (BaseDelay(cfg) % NANOS_PER_MILLI == 0 ==> lag >= BaseDelay(cfg) * (Pow2(MaxAttempts(cfg)) - 1))
  {
    MessageIntegrity(cfg, s, c);
    ReachableInv(cfg, s);
    assert CopyOk(cfg, s, c);
    TotalBackoffBounds(cfg, MaxAttempts(cfg));
    if BaseDelay(cfg) % NANOS_PER_MILLI == 0 {
      TotalBackoffClosedForm(cfg, MaxAttempts(cfg));
    }
  }

  /******* Status cache *******/

  // The cache is never ahead of the database: an entry shows a version its
  // row has had, so a terminal cached status means a terminal row.
  lemma CacheNeverAhead(cfg: Config, s: State, tx: TxId)
    requires ValidConfig(cfg) && Reachable(cfg, s)
    requires tx in s.cache
    ensures
      var entry := s.cache[tx];
      && Past(s, entry) && entry.tx == tx
      && (Terminal(entry.status) ==> IsTerminal(s, tx))
  {
    ReachableInv(cfg, s);
    if Terminal(s.cache[tx].status) {
      PastTerminal(s, s.cache[tx]);
    }
  }

  // The same holds of a status that a reader has taken from the database and
  // not yet written to the cache.
  lemma FillNeverAhead(cfg: Config, s: State, entry: Entry)
    requires ValidConfig(cfg) && Reachable(cfg, s)
    requires entry in s.fills
    ensures Past(s, entry) && (Terminal(entry.status) ==> IsTerminal(s, entry.tx))
  {
    ReachableInv(cfg, s);
    if Terminal(entry.status) {
      PastTerminal(s, entry);
    }
  }

  lemma PastTerminal(s: State, e: Entry)
    requires Past(s, e) && RowOk(s, e.tx) && Terminal(e.status)
    ensures IsTerminal(s, e.tx)
  {
    var k :| 0 <= k < |s.rows[e.tx].versions| && e == EntryOf(e.tx, s.rows[e.tx], s.rows[e.tx].versions[k]);
    assert k >= 1;
  }

  // A terminal row stays terminal.
  lemma TerminalForever(cfg: Config, s: State, step: Step, tx: TxId)
    requires ValidConfig(cfg) && Reachable(cfg, s) && Enabled(cfg, s, step)
    requires IsTerminal(s, tx)
    ensures IsTerminal(Apply(cfg, s, step), tx)
  {
    ReachableInv(cfg, s);
    StepKeepsInv(cfg, s, step);
    assert RowOk(s, tx);
    match step {
      case IntakeStep(i, reply) =>
        IntakeEffectOk(cfg, s, i, reply);
        EffectTerminal(cfg, s, IntakeEffect(s, i, reply), tx);
      case WorkerStep(w, ok) =>
        WorkerEffectOk(cfg, s, w, ok);
        EffectTerminal(cfg, s, WorkerEffect(cfg, s, w, ok), tx);
      case _ =>
    }
  }

  lemma IntakeCachesAhead(cfg: Config, s: State, i: nat, reply: Reply)
    requires Inv(cfg, s) && IntakeEnabled(s, i, reply)
    ensures
      var e := IntakeEffect(s, i, reply);
      e.SetCache? ==> Terminal(e.entry.status) || (e.entry.tx < |s.rows| && !IsTerminal(s, e.entry.tx))
  {
    assert IntakeOk(s, i);
    var pc := s.intakes[i].pc;
    if pc.CacheNew? {
      assert RowOk(s, pc.tx);
    }
  }

  lemma WorkerCachesTerminal(cfg: Config, s: State, w: nat, ok: bool)
    requires Inv(cfg, s) && WorkerEnabled(s, w, ok)
    ensures
      var e := WorkerEffect(cfg, s, w, ok);
      e.SetCache? ==> Terminal(e.entry.status)
  {
    assert WorkerOk(cfg, s, w);
  }

  // A cached terminal status is replaced by PROCESSING exactly when a reader's
  // late fill, taken while the row was still unfinished, is written. Intake and
  // workers never do it.
  lemma CacheKeepsTerminal(cfg: Config, s: State, step: Step, tx: TxId)
    requires ValidConfig(cfg) && Reachable(cfg, s) && Enabled(cfg, s, step)
    requires tx in s.cache && Terminal(s.cache[tx].status)
    requires tx in Apply(cfg, s, step).cache
    ensures !Terminal(Apply(cfg, s, step).cache[tx].status) <==>
            step.FillCache? && step.ok && step.entry.tx == tx && !Terminal(step.entry.status)
  {
    if step.FillCache? {
      FillCacheLine(cfg, s, step.entry, step.ok, tx);
    } else {
      ReachableInv(cfg, s);
      CacheNeverAhead(cfg, s, tx);
      CacheLineStep(cfg, s, step, tx);
    }
  }

  lemma FillCacheLine(cfg: Config, s: State, entry: Entry, ok: bool, tx: TxId)
    requires entry in s.fills && tx in s.cache && Terminal(s.cache[tx].status)
    ensures
      var s' := Apply(cfg, s, FillCache(entry, ok));
      tx in s'.cache && (!Terminal(s'.cache[tx].status) <==> ok && entry.tx == tx && !Terminal(entry.status))
  {
  }

  lemma CacheLineStep(cfg: Config, s: State, step: Step, tx: TxId)
    requires Inv(cfg, s) && Enabled(cfg, s, step) && !step.FillCache?
    requires tx in s.cache && Terminal(s.cache[tx].status) && IsTerminal(s, tx)
    requires tx in Apply(cfg, s, step).cache
    ensures Terminal(Apply(cfg, s, step).cache[tx].status)
  {
    match step {
      case IntakeStep(i, reply) => IntakeCacheLine(cfg, s, i, reply, tx);
      case WorkerStep(w, ok) => WorkerCacheLine(cfg, s, w, ok, tx);
      case _ =>
    }
  }

  lemma IntakeCacheLine(cfg: Config, s: State, i: nat, reply: Reply, tx: TxId)
    requires Inv(cfg, s) && IntakeEnabled(s, i, reply)
    requires tx in s.cache && Terminal(s.cache[tx].status) && IsTerminal(s, tx)
    ensures tx in IntakeNext(s, i, reply).cache && Terminal(IntakeNext(s, i, reply).cache[tx].status)
  {
    IntakeCachesAhead(cfg, s, i, reply);
    EffectCacheLine(s, IntakeEffect(s, i, reply), tx);
  }

  lemma WorkerCacheLine(cfg: Config, s: State, w: nat, ok: bool, tx: TxId)
    requires Inv(cfg, s) && WorkerEnabled(s, w, ok)
    requires tx in s.cache && Terminal(s.cache[tx].status)
    ensures tx in WorkerNext(cfg, s, w, ok).cache && Terminal(WorkerNext(cfg, s, w, ok).cache[tx].status)
  {
    WorkerCachesTerminal(cfg, s, w, ok);
    EffectCacheLine(s, WorkerEffect(cfg, s, w, ok), tx);
  }

  lemma EffectCacheLine(s: State, e: Effect, tx: TxId)
    requires EffectFits(s, e) && tx in s.cache
    ensures tx in Perform(s, e).cache
    ensures Perform(s, e).cache[tx] == if e.SetCache? && e.entry.tx == tx then e.entry else s.cache[tx]
  {
  }

  // What a status reader answers: the cached entry, or the row itself.
  function ReadStatus(s: State, tx: TxId): Option<Entry> {
    if tx in s.cache then Some(s.cache[tx])
    else if tx < |s.rows| && |s.rows[tx].versions| > 0 then Some(CurrentEntry(s, tx))
    else None
  }

  // The entry's fields are those of the row's present version.
  predicate ShowsPresent(s: State, tx: TxId, entry: Entry)
    requires tx < |s.rows| && |s.rows[tx].versions| > 0
  {
    var row := s.rows[tx];
    var last := row.versions[|row.versions| - 1];
    && entry.tx == tx && entry.status == last.status && entry.requestedAt == row.requestedAt
    && entry.processedAt == last.processedAt && entry.updatedAt == last.updatedAt
  }

  // A reader finds every transaction that has a row, and no other. It is told
  // what is cached, and otherwise the row's present status and times; that is
  // a version of the row, and never a finish that has not happened.
  lemma ReadStatusSound(cfg: Config, s: State, tx: TxId)
    requires ValidConfig(cfg) && Reachable(cfg, s)
    ensures
      var answer := ReadStatus(s, tx);
      && (answer.Some? <==> tx < |s.rows|)
      && (tx in s.cache ==> answer == Some(s.cache[tx]))
      && (tx !in s.cache && tx < |s.rows| ==> |s.rows[tx].versions| > 0 && ShowsPresent(s, tx, answer.value))
      && (answer.Some? ==> Past(s, answer.value) && (Terminal(answer.value.status) ==> IsTerminal(s, tx)))
  {
    ReachableInv(cfg, s);
    if tx in s.cache {
      CacheNeverAhead(cfg, s, tx);
    } else if tx < |s.rows| {
      assert RowOk(s, tx);
      PastForRow(s, tx, |s.rows[tx].versions| - 1);
    }
  }

  // A read that misses the cache leaves one fill, which shows the same, and
  // changes nothing else.
  lemma ReadLeavesFill(cfg: Config, s: State, tx: TxId) returns (entry: Entry)
    requires Enabled(cfg, s, ReadRow(tx))
    ensures tx !in s.cache && tx < |s.rows| && |s.rows[tx].versions| > 0 && ShowsPresent(s, tx, entry)
    ensures Apply(cfg, s, ReadRow(tx)) == s.(fills := s.fills + multiset{entry})
  {
    entry := CurrentEntry(s, tx);
  }

  /******* Idempotent intake *******/

  // One key has at most one row, and a row at most one initial publish,
  // made exactly when its intake got past publishing.
  lemma OneRowOnePublishPerKey(cfg: Config, s: State, t: TxId, u: TxId)
    requires ValidConfig(cfg) && Reachable(cfg, s)
    requires t < |s.rows| && u < |s.rows|
    requires s.rows[t].key == s.rows[u].key
    ensures t == u
    ensures Count(s.publishes, t) <= 1
    ensures Count(s.publishes, t) == 1 <==> s.rows[t].birth.Some?
  {
    ReachableInv(cfg, s);
    assert PublishesOk(s, t);
  }

  // Two intake calls that were told "created" made different transactions;
  // a call told "replayed" got the row of its own key, created for the same
  // kind of payment, account and amount, and for a transfer the same destination;
  // a QRIS call resolved the very merchant of the row.
  lemma AnswersAgree(cfg: Config, s: State, i: nat, j: nat)
    requires ValidConfig(cfg) && Reachable(cfg, s)
    requires i < |s.intakes| && j < |s.intakes|
    requires s.intakes[i].pc.Done? && s.intakes[i].pc.outcome.Created?
    requires s.intakes[j].pc.Done?
    requires s.intakes[i].request.key == s.intakes[j].request.key
    ensures
      var tx := s.intakes[i].pc.outcome.tx;
      var a, b := s.intakes[i].request, s.intakes[j].request;
      && (s.intakes[j].pc.outcome.Created? ==> i == j)
      && (s.intakes[j].pc.outcome.Replayed? ==>
            tx < |s.rows| && s.intakes[j].pc.outcome == Replayed(tx, s.rows[tx].merchant) && SameRequest(s, a, b))
  {
    ReachableInv(cfg, s);
    assert IntakeOk(s, i) && IntakeOk(s, j);
    assert RowOk(s, s.intakes[i].pc.outcome.tx);
    if s.intakes[j].pc.outcome.Created? {
      assert RowOk(s, s.intakes[j].pc.outcome.tx);
    }
  }

  // Same kind of payment, same account, same amount, same destination.
  ghost predicate SameRequest(s: State, a: Request, b: Request) {
    && a.TransferRequest? == b.TransferRequest?
    && a.accountNumber in s.accounts && b.accountNumber in s.accounts
    && s.accounts[a.accountNumber] == s.accounts[b.accountNumber]
    && a.amount == b.amount
    && (a.TransferRequest? ==> SameDestination(a, b))
  }

  // A call that has turned to creating never ends as a replay.
  predicate Creating(pc: IntakePc) {
    Owning(pc) || pc.Insert? || pc.LoadAccount? || pc.ResolveMerchant? || (pc.Done? && !pc.outcome.Replayed?)
  }

  lemma {:induction false} CreatingForever(cfg: Config, r: Run, k: nat, n: nat, i: nat)
    requires ValidRun(cfg, r) && k <= n < |r.states|
    requires i < |r.states[k].intakes| && Creating(r.states[k].intakes[i].pc)
    ensures i < |r.states[n].intakes| && Creating(r.states[n].intakes[i].pc)
    decreases n
  {
    if k < n {
      CreatingForever(cfg, r, k, n - 1, i);
      assert StepAt(cfg, r, n - 1);
      CreatingStep(cfg, r.states[n - 1], r.steps[n - 1], i);
    }
  }

  lemma CreatingStep(cfg: Config, s: State, step: Step, i: nat)
    requires Enabled(cfg, s, step) && i < |s.intakes| && Creating(s.intakes[i].pc)
    ensures i < |Apply(cfg, s, step).intakes| && Creating(Apply(cfg, s, step).intakes[i].pc)
  {
    match step {
      case IntakeStep(j, reply) =>
        PerformIntakes(s, IntakeEffect(s, j, reply));
        if i == j {
          CreatingGoto(s, i, reply);
        }
      case WorkerStep(w, ok) =>
        PerformIntakes(s, WorkerEffect(cfg, s, w, ok));
      case _ =>
    }
  }

  lemma PerformIntakes(s: State, e: Effect)
    requires EffectFits(s, e)
    ensures Perform(s, e).intakes == s.intakes
  {
  }

  lemma CreatingGoto(s: State, i: nat, reply: Reply)
    requires IntakeEnabled(s, i, reply) && Creating(s.intakes[i].pc)
    ensures Creating(IntakeGoto(s, i, reply))
  {
  }

  // A replay adds no row, event, cache entry, message or status: every step
  // of a call that ends as a replay leaves the shared tables as they were.
  lemma ReplayWritesNothing(cfg: Config, r: Run, k: nat, n: nat, i: nat)
    requires ValidRun(cfg, r) && k < n < |r.states|
    requires r.steps[k].IntakeStep? && r.steps[k].i == i
    requires i < |r.states[n].intakes| && r.states[n].intakes[i].pc.Done? && r.states[n].intakes[i].pc.outcome.Replayed?
    ensures
      var s, s' := r.states[k], r.states[k + 1];
      && s' == s.(intakes := s'.intakes)
      && |s'.intakes| == |s.intakes|
      && forall j :: 0 <= j < |s.intakes| && j != i ==> s'.intakes[j] == s.intakes[j]
  {
    assert StepAt(cfg, r, k);
    if IntakeEffect(r.states[k], i, r.steps[k].reply) != NoEffect {
      CreatingStep(cfg, r.states[k], r.steps[k], i);
      CreatingForever(cfg, r, k + 1, n, i);
      assert false;
    }
  }

  /******* The replay decision *******/

  // The standing of call i while it decides about transaction tx, whose
  // creation event is on record: nothing is ever created, and when one of the
  // two requests is a transfer, the answer is "replayed" exactly if they agree.
  ghost predicate Deciding(s: State, i: nat, tx: TxId) {
    && i < |s.intakes| && tx < |s.rows| && s.rows[tx].owner < |s.intakes|
    && var original := s.intakes[s.rows[tx].owner].request;
    && var request := s.intakes[i].request;
    && CreatedFirst(s.rows[tx].events, original)
    && request.key == s.rows[tx].key
    && var pc := s.intakes[i].pc;
    || pc.LookupKey?
    || (pc.LoadForReplay? && pc.tx == tx)
    || (pc.ResolveForReplay? && pc.tx == tx)
    || (pc.ListEvents? && pc.tx == tx)
    || (pc.Done? && match pc.outcome
                    case Replayed(t, _) => t == tx && SameRequest(s, original, request)
                    case Conflict => BothQris(original, request) || !SameRequest(s, original, request)
                    case Failure => true
                    case MerchantMissing => request.QrisRequest?
                    case _ => false)
  }

  predicate BothQris(a: Request, b: Request) { a.QrisRequest? && b.QrisRequest? }

  lemma DecidingOwnStep(cfg: Config, s: State, i: nat, reply: Reply, tx: TxId)
    requires Inv(cfg, s) && IntakeEnabled(s, i, reply) && Deciding(s, i, tx)
    ensures Deciding(IntakeNext(s, i, reply), i, tx)
  {
    assert IntakeOk(s, i) && RowOk(s, tx);
    var request := s.intakes[i].request;
    var pc := s.intakes[i].pc;
    if pc.LookupKey? && reply != Broken {
      assert HasKey(s, request.key);
      var found := FindKey(s, request.key);
      assert found == tx;
    }
    if pc.ListEvents? {
      ReplayMatchesMeaning(s.rows[tx].events, s.intakes[s.rows[tx].owner].request, request.toAccount);
    }
  }

  // Every other step leaves the decision where it is.
  lemma DecidingOtherStep(cfg: Config, s: State, step: Step, i: nat, tx: TxId)
    requires ValidConfig(cfg) && Inv(cfg, s) && Enabled(cfg, s, step) && Deciding(s, i, tx)
    requires !(step.IntakeStep? && step.i == i)
    ensures Deciding(Apply(cfg, s, step), i, tx)
  {
    var s' := Apply(cfg, s, step);
    StepGrows(cfg, s, step);
    StepKeepsInv(cfg, s, step);
    assert RowGrows(s.rows[tx], s'.rows[tx]);
    assert IntakeOk(s, i) && RowOk(s, tx) && EventsOk(s', tx);
    OthersWait(cfg, s, step, i);
    assert s'.intakes[i] == s.intakes[i];
    assert s'.rows[tx].events != [];
  }

  lemma OthersWait(cfg: Config, s: State, step: Step, i: nat)
    requires Enabled(cfg, s, step) && i < |s.intakes|
    requires !(step.IntakeStep? && step.i == i)
    ensures i < |Apply(cfg, s, step).intakes| && Apply(cfg, s, step).intakes[i] == s.intakes[i]
  {
    match step {
      case IntakeStep(j, reply) => PerformIntakes(s, IntakeEffect(s, j, reply));
      case WorkerStep(w, ok) => PerformIntakes(s, WorkerEffect(cfg, s, w, ok));
      case _ =>
    }
  }

  lemma StepGrows(cfg: Config, s: State, step: Step)
    requires ValidConfig(cfg) && Inv(cfg, s) && Enabled(cfg, s, step)
    ensures Grows(s, Apply(cfg, s, step))
  {
    match step {
      case IntakeStep(i, reply) => IntakeGrows(cfg, s, i, reply);
      case WorkerStep(w, ok) => WorkerGrows(cfg, s, w, ok);
      case _ => OtherGrows(cfg, s, step);
    }
  }

  lemma OtherGrows(cfg: Config, s: State, step: Step)
    requires Enabled(cfg, s, step) && !step.IntakeStep? && !step.WorkerStep?
    ensures Grows(s, Apply(cfg, s, step))
  {
  }

  lemma IntakeGrows(cfg: Config, s: State, i: nat, reply: Reply)
    requires Inv(cfg, s) && IntakeEnabled(s, i, reply)
    ensures Grows(s, IntakeNext(s, i, reply))
  {
    IntakeEffectOk(cfg, s, i, reply);
    EffectGrows(cfg, s, IntakeEffect(s, i, reply));
    GrowsAtIntake(s, Perform(s, IntakeEffect(s, i, reply)), i, IntakeGoto(s, i, reply));
  }

  lemma GrowsAtIntake(s: State, s': State, i: nat, pc: IntakePc)
    requires Grows(s, s') && i < |s'.intakes|
    ensures Grows(s, AtIntake(s', i, pc))
  {
  }

  lemma WorkerGrows(cfg: Config, s: State, w: nat, ok: bool)
    requires ValidConfig(cfg) && Inv(cfg, s) && WorkerEnabled(s, w, ok)
    ensures Grows(s, WorkerNext(cfg, s, w, ok))
  {
    WorkerEffectOk(cfg, s, w, ok);
    EffectGrows(cfg, s, WorkerEffect(cfg, s, w, ok));
    GrowsAtWorker(s, Perform(s, WorkerEffect(cfg, s, w, ok)), w, WorkerGoto(cfg, s, w, ok));
  }

  lemma GrowsAtWorker(s: State, s': State, w: nat, pc: WorkerPc)
    requires Grows(s, s') && w < |s'.workers|
    ensures Grows(s, AtWorker(s', w, pc))
  {
  }

  lemma DecidingRun(cfg: Config, r: Run, k: nat, n: nat, i: nat, tx: TxId)
    requires ValidConfig(cfg) && ValidRun(cfg, r) && k <= n < |r.states|
    requires Deciding(r.states[k], i, tx)
    ensures Deciding(r.states[n], i, tx)
  {
    RunKeepsInv(cfg, r, k);
    RunLeads(cfg, r, k, n);
    var deciding := (x: State) => Inv(cfg, x) && Deciding(x, i, tx);
    forall x, step | deciding(x) && Enabled(cfg, x, step) ensures deciding(Apply(cfg, x, step)) {
      StepKeepsInv(cfg, x, step);
      if step.IntakeStep? && step.i == i {
        DecidingOwnStep(cfg, x, i, step.reply, tx);
      } else {
        DecidingOtherStep(cfg, x, step, i, tx);
      }
    }
    assert StepClosed(cfg, deciding);
  }

  // Once a payment was accepted, a later call with its key never creates
  // anything, whatever else runs meanwhile. If none of its own calls fails and
  // merchant resolution finds m, it gets the accepted transaction if and only
  // if it agrees with it, and otherwise a conflict.
  lemma ReplayDecision(cfg: Config, r: Run, k: nat, n: nat, o: nat, i: nat, tx: TxId, m: nat)
    requires ValidConfig(cfg) && ValidRun(cfg, r) && k <= n < |r.states|
    requires Accepted(r.states[k], o, tx)
    requires i < |r.states[k].intakes| && r.states[k].intakes[i].pc.LookupKey?
    requires r.states[k].intakes[i].request.key == r.states[k].intakes[o].request.key
    requires i < |r.states[n].intakes| && r.states[n].intakes[i].pc.Done?
    ensures
      var s := r.states[n];
      var original, request := r.states[k].intakes[o].request, r.states[k].intakes[i].request;
      var outcome := s.intakes[i].pc.outcome;
      && tx < |s.rows|
      && (outcome.Replayed? || outcome.Conflict? || outcome.Failure? || outcome.MerchantMissing?)
      && (outcome.Replayed? ==> outcome == Replayed(tx, s.rows[tx].merchant))
      && (CallsSucceed(r, k, n, i, m) ==>
            && (outcome.Replayed? <==> Agrees(s, tx, original, request, m))
            && (outcome.Conflict? <==> !Agrees(s, tx, original, request, m)))
  {
    var s, s' := r.states[k], r.states[n];
    RunKeepsInv(cfg, r, k);
    RunKeepsInv(cfg, r, n);
    assert IntakeOk(s, o) && RowOk(s, tx) && EventsOk(s, tx);
    DecidingRun(cfg, r, k, n, i, tx);
    RunGrows(cfg, r, k, n);
    assert RowGrows(s.rows[tx], s'.rows[tx]);
    assert IntakeOk(s', i);
    if CallsSucceed(r, k, n, i, m) {
      DecidingSucceeds(cfg, r, k, n, i, tx, m);
    }
  }

  // The request asks for what transaction tx is: the same kind of payment,
  // account, amount and destination, and for QRIS the row's own merchant.
  ghost predicate Agrees(s: State, tx: TxId, original: Request, request: Request, m: nat)
    requires tx < |s.rows|
  {
    SameRequest(s, original, request) && (request.QrisRequest? ==> s.rows[tx].merchant == Some(m))
  }

  // From k to n the caller's account exists, none of call i's own calls fails,
  // and merchant resolution, if asked, finds m.
  predicate CallsSucceed(r: Run, k: nat, n: nat, i: nat, m: nat)
    requires k <= n <= |r.steps| && k < |r.states|
  {
    && i < |r.states[k].intakes| && r.states[k].intakes[i].request.accountNumber in r.states[k].accounts
    && forall j :: k <= j < n && r.steps[j].IntakeStep? && r.steps[j].i == i ==> Succeeds(r.steps[j].reply, m)
  }

  predicate Succeeds(reply: Reply, m: nat) { reply == Okay || reply == FoundMerchant(m) }

  // Call i, deciding about tx, has met no failure, and between two QRIS
  // requests decides by the merchant too.
  ghost predicate Decided(s: State, i: nat, tx: TxId, m: nat) {
    && Deciding(s, i, tx) && s.intakes[i].request.accountNumber in s.accounts
    && var original, request, pc := s.intakes[s.rows[tx].owner].request, s.intakes[i].request, s.intakes[i].pc;
    && pc != Done(Failure) && pc != Done(MerchantMissing)
    && (pc.Done? && BothQris(original, request) ==> (pc.outcome.Replayed? <==> Agrees(s, tx, original, request, m)))
  }

  lemma {:induction false} DecidingSucceeds(cfg: Config, r: Run, k: nat, n: nat, i: nat, tx: TxId, m: nat)
    requires ValidConfig(cfg) && ValidRun(cfg, r) && k <= n < |r.states|
    requires Deciding(r.states[k], i, tx) && r.states[k].intakes[i].pc.LookupKey?
    requires CallsSucceed(r, k, n, i, m)
    ensures Decided(r.states[n], i, tx, m)
    decreases n
  {
    if k < n {
      DecidingSucceeds(cfg, r, k, n - 1, i, tx, m);
      RunKeepsInv(cfg, r, n - 1);
      assert StepAt(cfg, r, n - 1);
      DecidedStep(cfg, r.states[n - 1], r.steps[n - 1], i, tx, m);
    }
  }

  lemma DecidedStep(cfg: Config, s: State, step: Step, i: nat, tx: TxId, m: nat)
    requires ValidConfig(cfg) && Inv(cfg, s) && Enabled(cfg, s, step) && Decided(s, i, tx, m)
    requires step.IntakeStep? && step.i == i ==> Succeeds(step.reply, m)
    ensures Decided(Apply(cfg, s, step), i, tx, m)
  {
    if step.IntakeStep? && step.i == i {
      DecidedOwnStep(cfg, s, i, step.reply, tx, m);
    } else {
      DecidedOtherStep(cfg, s, step, i, tx, m);
    }
  }

  lemma DecidedOwnStep(cfg: Config, s: State, i: nat, reply: Reply, tx: TxId, m: nat)
    requires Inv(cfg, s) && IntakeEnabled(s, i, reply) && Decided(s, i, tx, m) && Succeeds(reply, m)
    ensures Decided(IntakeNext(s, i, reply), i, tx, m)
  {
    DecidingOwnStep(cfg, s, i, reply, tx);
    assert IntakeOk(s, i) && RowOk(s, tx);
    PerformIntakes(s, IntakeEffect(s, i, reply));
  }

  lemma DecidedOtherStep(cfg: Config, s: State, step: Step, i: nat, tx: TxId, m: nat)
    requires ValidConfig(cfg) && Inv(cfg, s) && Enabled(cfg, s, step) && Decided(s, i, tx, m)
    requires !(step.IntakeStep? && step.i == i)
    ensures Decided(Apply(cfg, s, step), i, tx, m)
  {
    var s' := Apply(cfg, s, step);
    DecidingOtherStep(cfg, s, step, i, tx);
    StepGrows(cfg, s, step);
    assert RowGrows(s.rows[tx], s'.rows[tx]);
    assert IntakeOk(s, i) && RowOk(s, tx);
    OthersWait(cfg, s, step, i);
  }

  // A created row has the merchant that was resolved for it; a transfer none.
  lemma {:induction false} CreatedAsResolved(cfg: Config, r: Run, k: nat, n: nat, i: nat, m: nat)
    requires ValidConfig(cfg) && ValidRun(cfg, r) && k <= n < |r.states|
    requires i < |r.states[k].intakes| && r.states[k].intakes[i].pc.LookupKey?
    requires Resolves(r, k, n, i, m)
    ensures Carrying(r.states[n], i, m)
    decreases n
  {
    if k < n {
      CreatedAsResolved(cfg, r, k, n - 1, i, m);
      RunKeepsInv(cfg, r, n - 1);
      assert StepAt(cfg, r, n - 1);
      CarryingStep(cfg, r.states[n - 1], r.steps[n - 1], i, m);
    }
  }

  // Whatever merchant resolution finds for call i from k to n is m.
  predicate Resolves(r: Run, k: nat, n: nat, i: nat, m: nat)
    requires n <= |r.steps|
  {
    forall j :: k <= j < n && r.steps[j].IntakeStep? && r.steps[j].i == i && r.steps[j].reply.FoundMerchant? ==>
      r.steps[j].reply.id == m
  }

  // The merchant that call i inserts, or has inserted, is m.
  ghost predicate Carrying(s: State, i: nat, m: nat) {
    i < |s.intakes| && CarriesMerchant(s.rows, s.intakes[i].request, s.intakes[i].pc, m)
  }

  predicate CarriesMerchant(rows: seq<Row>, request: Request, pc: IntakePc, m: nat) {
    var merchant := if request.QrisRequest? then Some(m) else None;
    && (pc.Insert? ==> pc.merchant == merchant)
    && (Owning(pc) ==> pc.tx < |rows| && rows[pc.tx].merchant == merchant)
    && (pc.Done? && pc.outcome.Created? ==> pc.outcome.tx < |rows| && rows[pc.outcome.tx].merchant == merchant)
  }

  lemma CarryingStep(cfg: Config, s: State, step: Step, i: nat, m: nat)
    requires ValidConfig(cfg) && Inv(cfg, s) && Enabled(cfg, s, step) && Carrying(s, i, m)
    requires step.IntakeStep? && step.i == i && step.reply.FoundMerchant? ==> step.reply.id == m
    ensures Carrying(Apply(cfg, s, step), i, m)
  {
    StepGrows(cfg, s, step);
    if step.IntakeStep? && step.i == i {
      CarryingOwnStep(cfg, s, i, step.reply, m);
    } else {
      OthersWait(cfg, s, step, i);
      CarryingGrows(s, Apply(cfg, s, step), i, m);
    }
  }

  lemma CarryingGrows(s: State, s': State, i: nat, m: nat)
    requires Carrying(s, i, m) && Grows(s, s') && i < |s'.intakes| && s'.intakes[i] == s.intakes[i]
    ensures Carrying(s', i, m)
  {
    var pc := s.intakes[i].pc;
    if Owning(pc) {
      assert RowGrows(s.rows[pc.tx], s'.rows[pc.tx]);
    }
    if pc.Done? && pc.outcome.Created? {
      assert RowGrows(s.rows[pc.outcome.tx], s'.rows[pc.outcome.tx]);
    }
  }

  lemma CarryingOwnStep(cfg: Config, s: State, i: nat, reply: Reply, m: nat)
    requires Inv(cfg, s) && IntakeEnabled(s, i, reply) && Carrying(s, i, m)
    requires reply.FoundMerchant? ==> reply.id == m
    ensures Carrying(IntakeNext(s, i, reply), i, m)
  {
    assert IntakeOk(s, i);
    var e := IntakeEffect(s, i, reply);
    PerformIntakes(s, e);
    if s.intakes[i].pc.Insert? {
      InsertCarries(s, i, reply, m);
    } else {
      MerchantsStay(s, e);
      GotoCarries(s, i, reply, Perform(s, e).rows, m);
    }
  }

  lemma MerchantsStay(s: State, e: Effect)
    requires EffectFits(s, e) && !e.InsertRow?
    ensures |Perform(s, e).rows| == |s.rows|
    ensures forall t :: 0 <= t < |s.rows| ==> Perform(s, e).rows[t].merchant == s.rows[t].merchant
  {
  }

  lemma InsertCarries(s: State, i: nat, reply: Reply, m: nat)
    requires IntakeEnabled(s, i, reply) && Carrying(s, i, m) && s.intakes[i].pc.Insert?
    ensures CarriesMerchant(Perform(s, IntakeEffect(s, i, reply)).rows, s.intakes[i].request, IntakeGoto(s, i, reply), m)
  {
  }

  lemma GotoCarries(s: State, i: nat, reply: Reply, rows: seq<Row>, m: nat)
    requires IntakeEnabled(s, i, reply) && Carrying(s, i, m) && !s.intakes[i].pc.Insert?
    requires s.intakes[i].pc.ResolveMerchant? ==> s.intakes[i].request.QrisRequest?
    requires |rows| == |s.rows| && forall t :: 0 <= t < |rows| ==> rows[t].merchant == s.rows[t].merchant
    requires reply.FoundMerchant? ==> reply.id == m
    ensures CarriesMerchant(rows, s.intakes[i].request, IntakeGoto(s, i, reply), m)
  {
  }

  // Whatever is reached later has grown out of what was there.
  lemma LeadsGrows(cfg: Config, a: State, b: State)
    requires ValidConfig(cfg) && Reachable(cfg, a) && Leads(cfg, a, b)
    ensures Grows(a, b)
  {
    var grown := (x: State) => Inv(cfg, x) && Grows(a, x);
    ReachableInv(cfg, a);
    GrowsItself(a);
    forall x, step | grown(x) && Enabled(cfg, x, step) ensures grown(Apply(cfg, x, step)) {
      StepKeepsInv(cfg, x, step);
      StepGrows(cfg, x, step);
      GrowsTransitive(a, x, Apply(cfg, x, step));
    }
    assert StepClosed(cfg, grown);
  }

  lemma RunGrows(cfg: Config, r: Run, k: nat, n: nat)
    requires ValidConfig(cfg) && ValidRun(cfg, r) && k <= n < |r.states|
    ensures Grows(r.states[k], r.states[n])
  {
    RunLeads(cfg, r, 0, k);
    ReachableExactly(cfg, r.states[k]);
    RunLeads(cfg, r, k, n);
    LeadsGrows(cfg, r.states[k], r.states[n]);
  }

  lemma GrowsItself(s: State)
    ensures Grows(s, s)
  {
  }

  lemma GrowsTransitive(a: State, b: State, c: State)
    requires Grows(a, b) && Grows(b, c)
    ensures Grows(a, c)
  {
    forall t | 0 <= t < |a.rows| ensures RowGrows(a.rows[t], c.rows[t]) {
      assert RowGrows(a.rows[t], b.rows[t]) && RowGrows(b.rows[t], c.rows[t]);
    }
  }
}
