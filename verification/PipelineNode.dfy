// The pipeline's own procedures: intake, the two workers, the consumer
// session and the status reader, as straight-line code over shared tables.
// Between any two of its calls a procedure lets other calls run. The object
// carries the run of the step system that has made its state, and every
// procedure extends it, so all that holds of runs holds of these procedures.
module PipelineNode {
  import opened Common
  import opened Backoff
  import opened Headers
  import opened Pipeline
  import opened PipelineRuns
  import opened PipelineSafety
  import opened PipelineTheorems
  import opened PipelineTurns
  import opened PipelineOutcomes
  import opened PipelineTrails
  import opened PipelineHandlers

  // What the environment decides for one procedure: whether its k-th call
  // succeeds, what merchant resolution answers, and which steps of other
  // calls happen just before the k-th call.
  datatype Oracle = Oracle(ok: nat -> bool, merchant: Reply, others: nat -> seq<Step>)

  function Answer(ok: bool): Reply { if ok then Okay else Broken }

  predicate Extends(a: Run, b: Run) { a.states <= b.states && a.steps <= b.steps }

  function Extended(r: Run, step: Step, s: State): Run { Run(r.states + [s], r.steps + [step]) }

  // From a to b intake i has taken exactly one turn, the last step, and was
  // answered reply.
  ghost predicate Turned(a: Run, b: Run, i: nat, reply: Reply) {
    && Extends(a, b) && |a.steps| < |b.steps|
    && TurnOf(b, |b.steps| - 1, i) && b.steps[|b.steps| - 1].reply == reply
    && Rests(b, |a.steps|, |b.steps| - 1, i)
  }

  // The answer is one that the environment gives.
  ghost predicate FromOracle(o: Oracle, reply: Reply) {
    reply == o.merchant || (reply.Okay? && exists k: nat :: o.ok(k)) || (reply.Broken? && exists k: nat :: !o.ok(k))
  }

  // From a to b intake i was answered as the environment decides.
  ghost predicate AnswersFrom(a: Run, b: Run, i: nat, o: Oracle) {
    && Extends(a, b) && |b.steps| < |b.states|
    && forall j: nat :: |a.steps| <= j < |b.steps| && TurnOf(b, j, i) ==> FromOracle(o, b.steps[j].reply)
  }

  lemma MoreAnswers(a: Run, b: Run, c: Run, i: nat, o: Oracle)
    requires AnswersFrom(a, b, i, o) && AnswersFrom(b, c, i, o)
    ensures AnswersFrom(a, c, i, o)
  {
    forall j: nat | |a.steps| <= j < |c.steps| && TurnOf(c, j, i) ensures FromOracle(o, c.steps[j].reply) {
      assert j < |b.steps| ==> c.steps[j] == b.steps[j] && TurnOf(b, j, i);
    }
  }

  lemma OneMoreAnswer(a: Run, b: Run, c: Run, i: nat, reply: Reply, o: Oracle)
    requires AnswersFrom(a, b, i, o) && Turned(b, c, i, reply) && FromOracle(o, reply)
    ensures AnswersFrom(a, c, i, o)
  {
    MoreAnswers(a, b, c, i, o);
  }

  // A step of someone else leaves it resting.
  lemma RestsOn(r: Run, step: Step, s: State, k: nat, i: nat)
    requires |r.states| == |r.steps| + 1 && k <= |r.steps| && !(step.IntakeStep? && step.i == i) && Rests(r, k, |r.steps|, i)
    ensures Rests(Extended(r, step, s), k, |r.steps| + 1, i)
  {
    var b := Extended(r, step, s);
    forall j: nat | k <= j < |r.steps| + 1 ensures !TurnOf(b, j, i) {
      assert TurnOf(b, j, i) && j < |r.steps| ==> TurnOf(r, j, i);
    }
  }

  // One more turn after a rest.
  lemma TurnAfterRest(since: Run, r: Run, s: State, i: nat, reply: Reply)
    requires Extends(since, r) && |r.states| == |r.steps| + 1 && Rests(r, |since.steps|, |r.steps|, i)
    ensures Turned(since, Extended(r, IntakeStep(i, reply), s), i, reply)
  {
    var b := Extended(r, IntakeStep(i, reply), s);
    forall j: nat | |since.steps| <= j < |r.steps| ensures !TurnOf(b, j, i) {
      assert TurnOf(b, j, i) ==> TurnOf(r, j, i);
    }
  }

  // Steps that belong to intake i or worker w (-1 for none).
  predicate Owned(step: Step, i: int, w: int) {
    (step.IntakeStep? && step.i == i) || (step.WorkerStep? && step.w == w)
  }

  // A step of someone else leaves a call's program point and message alone.
  lemma OthersKeepCall(cfg: Config, s: State, step: Step, i: int, w: int)
    requires Enabled(cfg, s, step) && !Owned(step, i, w)
    ensures 0 <= i < |s.intakes| ==> i < |Apply(cfg, s, step).intakes| && Apply(cfg, s, step).intakes[i] == s.intakes[i]
    ensures 0 <= w < |s.workers| ==>
              w < |Apply(cfg, s, step).workers| &&
              Apply(cfg, s, step).workers[w].pc == s.workers[w].pc &&
              Apply(cfg, s, step).workers[w].msg == s.workers[w].msg
  {
    match step {
      case IntakeStep(j, reply) => EffectKeepsCalls(s, IntakeEffect(s, j, reply));
      case WorkerStep(v, ok) => EffectKeepsCalls(s, WorkerEffect(cfg, s, v, ok));
      case _ =>
    }
  }

  lemma EffectKeepsCalls(s: State, e: Effect)
    requires EffectFits(s, e)
    ensures Perform(s, e).intakes == s.intakes && |Perform(s, e).workers| == |s.workers|
    ensures forall w :: 0 <= w < |s.workers| ==>
              Perform(s, e).workers[w].pc == s.workers[w].pc && Perform(s, e).workers[w].msg == s.workers[w].msg
  {
  }

  // The settlement a program point calls for.
  predicate SettlesTo(pc: WorkerPc, place: Place) {
    || (place == Gone && (pc.AckRetried? || pc.AckDone?))
    || (place == Primary && pc.NackBack?)
    || (place == Dead && (pc.RejectBad? || pc.RejectSpent? || pc.RejectDone?))
  }

  lemma SettlementStep(cfg: Config, s: State, w: nat, place: Place, ok: bool)
    requires WorkerEnabled(s, w, ok) && SettlesTo(s.workers[w].pc, place)
    ensures WorkerEffect(cfg, s, w, ok) == if ok then Settle(w, place) else NoEffect
    ensures WorkerGoto(cfg, s, w, ok) == if !ok && s.workers[w].pc.AckDone? then RejectDone else Finished
  {
  }

  lemma SettledTables(s: State, w: nat, place: Place)
    requires EffectFits(s, Settle(w, place))
    ensures
      var s' := Perform(s, Settle(w, place));
      var c := s.workers[w].copy;
      && |s'.copies| == |s.copies| && s'.copies[c].place == place
      && |s'.workers| == |s.workers| && s'.workers[w] == s.workers[w].(attached := false)
  {
  }

  lemma RetryStep(cfg: Config, s: State, w: nat, ok: bool)
    requires WorkerEnabled(s, w, ok) && s.workers[w].pc.PublishRetry?
    ensures WorkerEffect(cfg, s, w, ok) == if ok then EnqueueRetry(RetryCopy(cfg, s, s.workers[w].msg)) else NoEffect
    ensures WorkerGoto(cfg, s, w, ok) == if ok then AckRetried else NackBack
  {
  }

  // One turn of the session: where it looked, and where it was done.
  datatype SessionTurn = SessionTurn(view: nat, end: nat)

  predicate Ready(s: State, c: nat) { c < |s.copies| && s.copies[c].place == Primary }

  // A ready copy was delivered, and its handler is finished by the end of the
  // turn; with nothing ready nothing was done.
  ghost predicate TurnDone(r: Run, t: SessionTurn, c: nat) {
    && t.view <= t.end < |r.states| && t.end <= |r.steps|
    && var s, e := r.states[t.view], r.states[t.end];
    if Ready(s, c) then
      && t.view < t.end && r.steps[t.view] == Deliver(c)
      && |s.workers| < |e.workers|
      && var worker := e.workers[|s.workers|];
      worker.copy == c && worker.msg == s.copies[c].msg && worker.pc == Finished
    else t.view == t.end
  }

  // How many turns took a delivery.
  function Served(log: seq<SessionTurn>): nat {
    if |log| == 0 then 0
    else Served(log[..|log| - 1]) + if log[|log| - 1].view < log[|log| - 1].end then 1 else 0
  }

  lemma {:induction false} ServedAppend(log: seq<SessionTurn>, t: SessionTurn)
    ensures Served(log + [t]) == Served(log) + if t.view < t.end then 1 else 0
  {
    assert (log + [t])[..|log|] == log;
  }

  lemma TurnStaysDone(a: Run, b: Run, t: SessionTurn, c: nat)
    requires Extends(a, b) && TurnDone(a, t, c)
    ensures TurnDone(b, t, c)
  {
  }

  // The turns of a session begun at step start, one after the other.
  ghost predicate SessionDone(start: nat, r: Run, log: seq<SessionTurn>, choose: nat -> nat) {
    && (forall k: nat :: k < |log| ==> start <= log[k].view && log[k].end <= |r.steps| && TurnDone(r, log[k], choose(k)))
    && (forall k: nat :: k + 1 < |log| ==> log[k].end <= log[k + 1].view)
  }

  lemma {:induction false} SessionGoesOn(start: nat, a: Run, b: Run, log: seq<SessionTurn>, t: SessionTurn, choose: nat -> nat)
    requires SessionDone(start, a, log, choose) && Extends(a, b) && start <= |a.steps|
    requires |a.steps| <= t.view && t.end <= |b.steps| && TurnDone(b, t, choose(|log|))
    ensures SessionDone(start, b, log + [t], choose)
    ensures Served(log + [t]) == Served(log) + if t.view < t.end then 1 else 0
  {
    ServedAppend(log, t);
    forall k: nat | k < |log| ensures TurnDone(b, log[k], choose(k)) {
      TurnStaysDone(a, b, log[k], choose(k));
    }
  }

  class Node {
    const cfg: Config

    var now: Time
    var accounts: map<string, nat>
    var rows: seq<Row>
    var cache: map<TxId, Entry>
    var intakes: seq<Intake>
    var copies: seq<Copy>
    var workers: seq<Worker>
    var fills: multiset<Entry>
    var calls: seq<Call>
    var requeues: seq<TxId>
    var publishes: seq<TxId>
    var invalidations: seq<nat>

    // The run that has made the tables.
    ghost var history: Run

    function Snapshot(): State
      reads this
    {
      State(now, accounts, rows, cache, intakes, copies, workers, fills, calls, requeues, publishes, invalidations)
    }

    ghost predicate Valid()
      reads this
    {
      ValidConfig(cfg) && IsRunTo(cfg, history, Snapshot())
    }

    constructor (config: Config)
      requires ValidConfig(config)
      ensures Valid() && cfg == config && Snapshot() == Initial()
    {
      cfg := config;
      now, accounts, rows, cache, intakes, copies, workers := 0, map[], [], map[], [], [], [];
      fills, calls, requeues, publishes, invalidations := multiset{}, [], [], [], [];
      history := Run([Initial()], []);
    }

    /******* The environment *******/

    method Assign(s: State)
      modifies `now, `accounts, `rows, `cache, `intakes, `copies, `workers, `fills, `calls, `requeues, `publishes, `invalidations
      ensures Snapshot() == s
    {
      AssignData(s);
      AssignQueues(s);
    }

    method AssignData(s: State)
      modifies `now, `accounts, `rows, `cache, `intakes, `fills
      ensures now == s.now && accounts == s.accounts && rows == s.rows && cache == s.cache && intakes == s.intakes && fills == s.fills
    {
      now, accounts, rows, cache, intakes, fills := s.now, s.accounts, s.rows, s.cache, s.intakes, s.fills;
    }

    method AssignQueues(s: State)
      modifies `copies, `workers, `calls, `requeues, `publishes, `invalidations
      ensures copies == s.copies && workers == s.workers && calls == s.calls
      ensures requeues == s.requeues && publishes == s.publishes && invalidations == s.invalidations
    {
      copies, workers, calls := s.copies, s.workers, s.calls;
      requeues, publishes, invalidations := s.requeues, s.publishes, s.invalidations;
    }

    method Take(step: Step)
      requires Valid() && Enabled(cfg, Snapshot(), step)
      modifies this
      ensures Valid() && Snapshot() == Apply(cfg, old(Snapshot()), step)
      ensures history == Extended(old(history), step, Snapshot())
    {
      ghost var before := Snapshot();
      Assign(Apply(cfg, Snapshot(), step));
      ExtendRun(cfg, history, before, step, Snapshot());
      history := Extended(history, step, Snapshot());
    }

    // A step of someone else, if it can happen.
    method LetOtherStep(step: Step, i: int, w: int)
      requires Valid()
      modifies this
      ensures Valid() && (history == old(history) || (!Owned(step, i, w) && history == Extended(old(history), step, Snapshot())))
      ensures 0 <= i < |old(intakes)| ==> i < |intakes| && intakes[i] == old(intakes[i])
      ensures 0 <= w < |old(workers)| ==>
                w < |workers| && workers[w].pc == old(workers[w].pc) && workers[w].msg == old(workers[w].msg)
    {
      if !Owned(step, i, w) && Enabled(cfg, Snapshot(), step) {
        OthersKeepCall(cfg, Snapshot(), step, i, w);
        Take(step);
      }
    }

    // Other calls run; steps that cannot happen are skipped.
    method LetOthersRun(schedule: seq<Step>, i: int, w: int)
      requires Valid()
      modifies this
      ensures Valid() && Extends(old(history), history)
      ensures 0 <= i ==> Rests(history, |old(history.steps)|, |history.steps|, i)
      ensures 0 <= i < |old(intakes)| ==> i < |intakes| && intakes[i] == old(intakes[i])
      ensures 0 <= w < |old(workers)| ==>
                w < |workers| && workers[w].pc == old(workers[w].pc) && workers[w].msg == old(workers[w].msg)
    {
      for k := 0 to |schedule|
        invariant Valid() && Extends(old(history), history)
        invariant 0 <= i ==> Rests(history, |old(history.steps)|, |history.steps|, i)
        invariant 0 <= i < |old(intakes)| ==> i < |intakes| && intakes[i] == old(intakes[i])
        invariant 0 <= w < |old(workers)| ==>
                    w < |workers| && workers[w].pc == old(workers[w].pc) && workers[w].msg == old(workers[w].msg)
      {
        ghost var was := history;
        LetOtherStep(schedule[k], i, w);
        if history != was && 0 <= i {
          RestsOn(was, schedule[k], Snapshot(), |old(history.steps)|, i);
        }
      }
    }

    /******* Database, cache and broker calls *******/

    method CreateTransactionEvent(tx: TxId, event: Event, ok: bool) returns (err: bool)
      requires tx < |rows|
      modifies `rows
      ensures err == !ok
      ensures Snapshot() == Perform(old(Snapshot()), if ok then LogEvent(tx, event) else NoEffect)
    {
      if !ok {
        return true;
      }
      rows := rows[tx := rows[tx].(events := rows[tx].events + [event])];
      return false;
    }

    method UpdateTransactionStatus(tx: TxId, status: Status, ok: bool) returns (entry: Option<Entry>)
      requires tx < |rows|
      modifies `rows
      ensures entry == if ok then Some(NewEntry(old(Snapshot()), tx, status)) else None
      ensures Snapshot() == Perform(old(Snapshot()), if ok then SetStatus(tx, status) else NoEffect)
    {
      if !ok {
        return None;
      }
      var version := Version(status, Some(now), now);
      rows := rows[tx := rows[tx].(versions := rows[tx].versions + [version])];
      return Some(EntryOf(tx, rows[tx], version));
    }

    // The row returned is the one inserted; a duplicate key or a non-positive
    // amount is refused by the table.
    method CreateTransaction(i: nat, request: Request, account: nat, merchant: Option<nat>, ok: bool) returns (tx: Option<TxId>)
      modifies `rows
      ensures tx == if ok && InsertAllowed(old(Snapshot()), request) then Some(|old(rows)|) else None
      ensures Snapshot() == if tx.Some? then Perform(old(Snapshot()), InsertRow(NewRow(old(Snapshot()), i, request, account, merchant)))
                            else old(Snapshot())
    {
      if !ok || !InsertAllowed(Snapshot(), request) {
        return None;
      }
      tx := Some(|rows|);
      rows := rows + [Row(request.key, account, merchant, request.amount, now, [Version(Processing, None, now)], [], i, None)];
    }

    method SetTransactionStatus(entry: Entry, ok: bool) returns (err: bool)
      modifies `cache
      ensures err == !ok
      ensures Snapshot() == Perform(old(Snapshot()), if ok then SetCache(entry) else NoEffect)
    {
      if !ok {
        return true;
      }
      cache := cache[entry.tx := entry];
      return false;
    }

    // The content of the balance cache is not part of the model.
    method DeleteAccountBalance(account: nat, ok: bool) returns (err: bool)
      modifies `invalidations
      ensures err == !ok
      ensures Snapshot() == Perform(old(Snapshot()), if ok then DropBalanceOf(account) else NoEffect)
    {
      if ok {
        invalidations := invalidations + [account];
      }
      return !ok;
    }

    // publishJSON: a new job with fresh headers in the primary queue.
    method Publish(tx: TxId, request: Request, ok: bool) returns (err: bool)
      requires tx < |rows|
      modifies `copies, `rows, `publishes
      ensures err == !ok
      ensures Snapshot() == Perform(old(Snapshot()), if ok then PublishNew(tx, request) else NoEffect)
    {
      if !ok {
        return true;
      }
      var msg := Message(Job(tx, rows[tx].account, rows[tx].merchant, request),
                         map[RETRY_COUNT := Int32(0), FIRST_ENQUEUED_AT := Stamp(now)]);
      rows := rows[tx := rows[tx].(birth := Some(Birth(now, |copies|)))];
      copies := copies + [Copy(msg, Primary)];
      publishes := publishes + [tx];
      return false;
    }

    // publishRetry: the same body, the headers with the new attempt, and the
    // attempt's delay as expiration.
    method PublishRetryCopy(msg: Message, attempt: int, ok: bool) returns (err: bool)
      requires attempt == RetryCount(msg.headers) + 1 && 1 <= attempt <= MaxAttempts(cfg) && ValidConfig(cfg)
      modifies `copies
      ensures err == !ok
      ensures Snapshot() == Perform(old(Snapshot()), if ok then EnqueueRetry(RetryCopy(cfg, old(Snapshot()), msg)) else NoEffect)
    {
      if !ok {
        return true;
      }
      ScheduledDelaysFit(cfg, attempt);
      var headers := PrepareRetryHeaders(msg.headers, attempt, now);
      var delay := RetryDelayForAttempt(cfg, attempt);
      var expiration := delay / NANOS_PER_MILLI * NANOS_PER_MILLI;
      copies := copies + [Copy(Message(msg.body, headers), Retry(now + expiration))];
      return false;
    }

    // Ack, Nack(requeue) or Reject of worker w's delivery.
    method SettleDelivery(w: nat, place: Place, ok: bool) returns (err: bool)
      requires w < |workers| && workers[w].copy < |copies|
      modifies `copies, `workers, `requeues
      ensures err == !ok
      ensures Snapshot() == Perform(old(Snapshot()), if ok then Settle(w, place) else NoEffect)
    {
      if !ok {
        return true;
      }
      var c := workers[w].copy;
      if place == Primary {
        requeues := RequeueLog(Snapshot(), workers[w].msg);
      }
      copies := copies[c := copies[c].(place := place)];
      workers := workers[w := workers[w].(attached := false)];
      return false;
    }

    /******* Keeping the run *******/

    // Worker w can make its next call, and has what that call needs.
    ghost predicate WorkerCanStep(w: nat)
      reads this
    {
      && WorkerEnabled(Snapshot(), w, false)
      && (!TouchesBroker(workers[w].pc) || workers[w].attached ==> WorkerEnabled(Snapshot(), w, true))
      && (!workers[w].pc.Decode? && !workers[w].pc.RejectBad? ==>
            workers[w].msg.body.Job? && workers[w].msg.body.tx < |rows| && |rows[workers[w].msg.body.tx].versions| > 0)
      && (workers[w].pc.PublishRetry? ==> 0 <= Retries(workers[w].msg) < MaxAttempts(cfg))
    }

    lemma WorkerReady(w: nat)
      requires Valid() && w < |workers| && !workers[w].pc.Finished?
      ensures WorkerCanStep(w)
    {
      ReachableInv(cfg, Snapshot());
      var s := Snapshot();
      assert WorkerOk(cfg, s, w);
      assert CopyOk(cfg, s, s.workers[w].copy);
      if s.workers[w].msg.body.Job? {
        assert RowOk(s, s.workers[w].msg.body.tx);
      }
    }

    // Other calls run, and then it is worker w's turn.
    method WorkerTurn(w: nat, others: seq<Step>)
      requires Valid() && w < |workers| && !workers[w].pc.Finished?
      modifies this
      ensures Valid() && Extends(old(history), history)
      ensures w < |workers| && workers[w].pc == old(workers[w].pc) && workers[w].msg == old(workers[w].msg)
      ensures WorkerCanStep(w)
    {
      LetOthersRun(others, -1, w);
      WorkerReady(w);
    }

    // Worker w moves on after the call it has just made.
    method WorkerGoes(w: nat, ghost before: State, ok: bool, next: WorkerPc)
      requires ValidConfig(cfg) && IsRunTo(cfg, history, before) && WorkerEnabled(before, w, ok)
      requires Snapshot() == Perform(before, WorkerEffect(cfg, before, w, ok)) && w < |workers|
      requires next == WorkerGoto(cfg, before, w, ok)
      modifies `workers, `history
      ensures Valid() && Extends(old(history), history) && |history.steps| == |old(history.steps)| + 1
      ensures HandlerTurn(history, |old(history.steps)|, w)
      ensures |workers| == |old(workers)| && workers[w] == old(workers)[w].(pc := next)
    {
      workers := workers[w := workers[w].(pc := next)];
      assert Snapshot() == WorkerNext(cfg, before, w, ok);
      ExtendRun(cfg, history, before, WorkerStep(w, ok), Snapshot());
      history := Extended(history, WorkerStep(w, ok), Snapshot());
    }

    /******* The worker: one call of HandleTransfer or HandleQRISPayment *******/

    method RecordStart(w: nat, msg: Message, ok: bool, others: seq<Step>) returns (err: bool)
      requires Valid() && w < |workers| && workers[w].pc == StartEvent && workers[w].msg == msg
      modifies this
      ensures Valid() && Extends(old(history), history)
      ensures w < |workers| && workers[w].msg == msg && workers[w].pc == if ok then CallLegacy else AfterError(cfg, msg)
      ensures err == !ok
    {
      WorkerTurn(w, others);
      ghost var before := Snapshot();
      err := CreateTransactionEvent(msg.body.tx, Event(WorkerStarted, NoDestination), ok);
      WorkerGoes(w, before, ok, if ok then CallLegacy else AfterError(cfg, msg));
    }

    // The legacy executor's answer is ok.
    method Execute(w: nat, msg: Message, ok: bool, others: seq<Step>)
      requires Valid() && w < |workers| && workers[w].pc == CallLegacy && workers[w].msg == msg
      modifies this
      ensures Valid() && Extends(old(history), history)
      ensures w < |workers| && workers[w].msg == msg && workers[w].pc == UpdateRow(ok)
      ensures msg.body.Job? && |calls| > 0 && calls[|calls| - 1] == Call(msg.body.tx, ok, msg.body.request)
    {
      WorkerTurn(w, others);
      ghost var before := Snapshot();
      calls := calls + [Call(msg.body.tx, ok, msg.body.request)];
      WorkerGoes(w, before, ok, UpdateRow(ok));
    }

    method PersistStatus(w: nat, msg: Message, result: bool, ok: bool, others: seq<Step>) returns (entry: Option<Entry>)
      requires Valid() && w < |workers| && workers[w].pc == UpdateRow(result) && workers[w].msg == msg
      modifies this
      ensures Valid() && Extends(old(history), history)
      ensures entry.Some? == ok
      ensures w < |workers| && workers[w].msg == msg && workers[w].pc == if ok then CacheResult(result, entry.value) else AfterError(cfg, msg)
    {
      WorkerTurn(w, others);
      ghost var before := Snapshot();
      entry := UpdateTransactionStatus(msg.body.tx, if result then Success else Failed, ok);
      WorkerGoes(w, before, ok, if ok then CacheResult(result, entry.value) else AfterError(cfg, msg));
    }

    method CacheStatus(w: nat, msg: Message, result: bool, entry: Entry, ok: bool, others: seq<Step>) returns (err: bool)
      requires Valid() && w < |workers| && workers[w].pc == CacheResult(result, entry) && workers[w].msg == msg
      modifies this
      ensures Valid() && Extends(old(history), history)
      ensures w < |workers| && workers[w].msg == msg && workers[w].pc == if !ok then AfterError(cfg, msg) else if result then DropBalance else FinalEvent(false)
      ensures err == !ok
    {
      WorkerTurn(w, others);
      ghost var before := Snapshot();
      err := SetTransactionStatus(entry, ok);
      WorkerGoes(w, before, ok, if !ok then AfterError(cfg, msg) else if result then DropBalance else FinalEvent(false));
    }

    method InvalidateBalance(w: nat, msg: Message, ok: bool, others: seq<Step>) returns (err: bool)
      requires Valid() && w < |workers| && workers[w].pc == DropBalance && workers[w].msg == msg
      modifies this
      ensures Valid() && Extends(old(history), history)
      ensures w < |workers| && workers[w].msg == msg && workers[w].pc == if ok then FinalEvent(true) else AfterError(cfg, msg)
      ensures err == !ok
    {
      WorkerTurn(w, others);
      ghost var before := Snapshot();
      err := DeleteAccountBalance(msg.body.account, ok);
      WorkerGoes(w, before, ok, if ok then FinalEvent(true) else AfterError(cfg, msg));
    }

    method RecordEnd(w: nat, msg: Message, result: bool, ok: bool, others: seq<Step>) returns (err: bool)
      requires Valid() && w < |workers| && workers[w].pc == FinalEvent(result) && workers[w].msg == msg
      modifies this
      ensures Valid() && Extends(old(history), history)
      ensures w < |workers| && workers[w].msg == msg && workers[w].pc == if ok then AckDone else AfterError(cfg, msg)
      ensures err == !ok
      ensures |history.steps| > 0 && HandlerTurn(history, |history.steps| - 1, w)
      ensures var last := history.states[|history.steps| - 1]; w < |last.workers| && last.workers[w].pc == FinalEvent(result)
    {
      WorkerTurn(w, others);
      ghost var before := Snapshot();
      err := CreateTransactionEvent(msg.body.tx, Event(if result then Succeeded else FailedEvent, NoDestination), ok);
      WorkerGoes(w, before, ok, if ok then AckDone else AfterError(cfg, msg));
    }

    // The row and then the cache; the first call that fails ends it.
    method RecordStatus(w: nat, msg: Message, result: bool, o: Oracle) returns (err: bool)
      requires Valid() && w < |workers| && workers[w].pc == UpdateRow(result) && workers[w].msg == msg
      modifies this
      ensures Valid() && Extends(old(history), history) && w < |workers| && workers[w].msg == msg
      ensures workers[w].pc == if err then AfterError(cfg, msg) else if result then DropBalance else FinalEvent(false)
      ensures err <==> !o.ok(2) || !o.ok(3)
    {
      var entry := PersistStatus(w, msg, result, o.ok(2), o.others(2));
      if entry.None? {
        return true;
      }
      err := CacheStatus(w, msg, result, entry.value, o.ok(3), o.others(3));
    }

    // The row, the cache, the balance and the log, in this order; the first
    // call that fails ends it.
    method MarkSucceeded(w: nat, msg: Message, o: Oracle) returns (err: bool, ghost trail: HandlerTrail)
      requires Valid() && w < |workers| && workers[w].pc == UpdateRow(true) && workers[w].msg == msg
      modifies this
      ensures Valid() && Extends(old(history), history) && w < |workers| && workers[w].msg == msg
      ensures workers[w].pc == if err then AfterError(cfg, msg) else AckDone
      ensures err <==> !o.ok(2) || !o.ok(3) || !o.ok(4) || !o.ok(5)
      ensures !err ==> Handled(history, |history.steps|, w, msg.body, true, trail)
    {
      err := RecordStatus(w, msg, true, o);
      if err {
        trail := *;
      } else {
        err, trail := FinishSucceeded(w, msg, o);
      }
    }

    method FinishSucceeded(w: nat, msg: Message, o: Oracle) returns (err: bool, ghost trail: HandlerTrail)
      requires Valid() && w < |workers| && workers[w].pc == DropBalance && workers[w].msg == msg
      modifies this
      ensures Valid() && Extends(old(history), history) && w < |workers| && workers[w].msg == msg
      ensures workers[w].pc == if err then AfterError(cfg, msg) else AckDone
      ensures err <==> !o.ok(4) || !o.ok(5)
      ensures !err ==> Handled(history, |history.steps|, w, msg.body, true, trail)
    {
      trail := *;
      err := InvalidateBalance(w, msg, o.ok(4), o.others(4));
      if err {
        return;
      }
      err := RecordEnd(w, msg, true, o.ok(5), o.others(5));
      if !err {
        trail := WholeTrail(w, true);
      }
    }

    method MarkFailed(w: nat, msg: Message, o: Oracle) returns (err: bool, ghost trail: HandlerTrail)
      requires Valid() && w < |workers| && workers[w].pc == UpdateRow(false) && workers[w].msg == msg
      modifies this
      ensures Valid() && Extends(old(history), history) && w < |workers| && workers[w].msg == msg
      ensures workers[w].pc == if err then AfterError(cfg, msg) else AckDone
      ensures err <==> !o.ok(2) || !o.ok(3) || !o.ok(5)
      ensures !err ==> Handled(history, |history.steps|, w, msg.body, false, trail)
    {
      trail := *;
      err := RecordStatus(w, msg, false, o);
      if err {
        return;
      }
      err := RecordEnd(w, msg, false, o.ok(5), o.others(5));
      if !err {
        trail := WholeTrail(w, false);
      }
    }

    // The trail of a handler whose last turn logged the given end.
    lemma WholeTrail(w: nat, result: bool) returns (trail: HandlerTrail)
      requires Valid() && w < |workers| && workers[w].pc == AckDone
      requires |history.steps| > 0 && HandlerTurn(history, |history.steps| - 1, w)
      requires
        var last := history.states[|history.steps| - 1];
        w < |last.workers| && last.workers[w].pc == FinalEvent(result)
      ensures Handled(history, |history.steps|, w, workers[w].msg.body, result, trail)
    {
      var ok, t := JobTrail(cfg, history, |history.steps|, w);
      assert t.ended == |history.steps| - 1;
      trail := t;
    }

    // A handler that ran to its end has finished the transaction.
    lemma HandledIsTerminal(w: nat)
      requires Valid() && w < |workers| && workers[w].pc == AckDone
      ensures workers[w].msg.body.Job? && IsTerminal(Snapshot(), workers[w].msg.body.tx)
    {
      ReachableInv(cfg, Snapshot());
      assert WorkerOk(cfg, Snapshot(), w);
    }

    // One handler call. It reports an error exactly if one of its own database
    // or cache calls failed. Otherwise it has logged its start, asked legacy
    // once for what the message says, recorded that answer in the row, then in
    // the cache, dropped the balance after a success, and logged the end; and
    // the transaction is finished in the database, whatever ran meanwhile.
    method HandleJob(w: nat, msg: Message, o: Oracle) returns (err: bool, ghost trail: HandlerTrail)
      requires Valid() && w < |workers| && workers[w].pc == StartEvent && workers[w].msg == msg
      modifies this
      ensures Valid() && Extends(old(history), history) && w < |workers| && workers[w].msg == msg
      ensures workers[w].pc == if err then AfterError(cfg, msg) else AckDone
      ensures err <==> !o.ok(0) || !o.ok(2) || !o.ok(3) || (o.ok(1) && !o.ok(4)) || !o.ok(5)
      ensures !err ==> Handled(history, |history.steps|, w, msg.body, o.ok(1), trail)
      ensures !err ==> msg.body.Job? && IsTerminal(Snapshot(), msg.body.tx)
    {
      trail := *;
      err := RecordStart(w, msg, o.ok(0), o.others(0));
      if err {
        return;
      }
      err, trail := ExecuteAndMark(w, msg, o);
      if !err {
        HandledIsTerminal(w);
      }
    }

    method ExecuteAndMark(w: nat, msg: Message, o: Oracle) returns (err: bool, ghost trail: HandlerTrail)
      requires Valid() && w < |workers| && workers[w].pc == CallLegacy && workers[w].msg == msg
      modifies this
      ensures Valid() && Extends(old(history), history) && w < |workers| && workers[w].msg == msg
      ensures workers[w].pc == if err then AfterError(cfg, msg) else AckDone
      ensures err <==> !o.ok(2) || !o.ok(3) || (o.ok(1) && !o.ok(4)) || !o.ok(5)
      ensures !err ==> Handled(history, |history.steps|, w, msg.body, o.ok(1), trail)
    {
      Execute(w, msg, o.ok(1), o.others(1));
      if o.ok(1) {
        err, trail := MarkSucceeded(w, msg, o);
      } else {
        err, trail := MarkFailed(w, msg, o);
      }
    }

    /******* The consumer session *******/

    // One settlement call; it cannot reach the broker once the channel is lost.
    method SettleAs(w: nat, place: Place, ok: bool, others: seq<Step>) returns (err: bool)
      requires Valid() && w < |workers| && SettlesTo(workers[w].pc, place)
      modifies this
      ensures Valid() && Extends(old(history), history) && w < |workers|
      ensures workers[w].pc == if err && old(workers[w].pc).AckDone? then RejectDone else Finished
      ensures !err ==> workers[w].copy < |copies| && copies[workers[w].copy].place == place && !workers[w].attached
    {
      WorkerTurn(w, others);
      err := SettleNow(w, place, ok && workers[w].attached);
    }

    method SettleNow(w: nat, place: Place, reaches: bool) returns (err: bool)
      requires Valid() && w < |workers| && SettlesTo(workers[w].pc, place) && WorkerEnabled(Snapshot(), w, reaches)
      modifies this
      ensures Valid() && Extends(old(history), history) && w < |workers|
      ensures workers[w].pc == if err && old(workers[w].pc).AckDone? then RejectDone else Finished
      ensures !err ==> workers[w].copy < |copies| && copies[workers[w].copy].place == place && !workers[w].attached
    {
      ghost var before := Snapshot();
      SettlementStep(cfg, before, w, place, reaches);
      SettledTables(before, w, place);
      var next := if !reaches && workers[w].pc.AckDone? then RejectDone else Finished;
      err := SettleDelivery(w, place, reaches);
      WorkerGoes(w, before, reaches, next);
    }

    method RetryLater(w: nat, msg: Message, ok: bool, others: seq<Step>) returns (err: bool)
      requires Valid() && w < |workers| && workers[w].pc == PublishRetry && workers[w].msg == msg
      modifies this
      ensures Valid() && Extends(old(history), history) && w < |workers| && workers[w].msg == msg
      ensures workers[w].pc == if err then NackBack else AckRetried
      ensures !err ==>
                && |copies| > 0 && copies[|copies| - 1].place.Retry?
                && copies[|copies| - 1].msg.body == msg.body && Retries(copies[|copies| - 1].msg) == Retries(msg) + 1
    {
      WorkerTurn(w, others);
      err := RetryNow(w, msg, ok && workers[w].attached);
    }

    method RetryNow(w: nat, msg: Message, reaches: bool) returns (err: bool)
      requires Valid() && w < |workers| && workers[w].pc == PublishRetry && workers[w].msg == msg
      requires WorkerEnabled(Snapshot(), w, reaches) && 0 <= Retries(msg) < MaxAttempts(cfg)
      modifies this
      ensures Valid() && Extends(old(history), history) && w < |workers| && workers[w].msg == msg
      ensures workers[w].pc == if err then NackBack else AckRetried
      ensures !err ==>
                && |copies| > 0 && copies[|copies| - 1].place.Retry?
                && copies[|copies| - 1].msg.body == msg.body && Retries(copies[|copies| - 1].msg) == Retries(msg) + 1
    {
      ghost var before := Snapshot();
      RetryHeadersMeaning(msg.headers, now);
      RetryStep(cfg, before, w, reaches);
      err := PublishRetryCopy(msg, RetryCount(msg.headers) + 1, reaches);
      WorkerGoes(w, before, reaches, if reaches then AckRetried else NackBack);
    }

    // The session's decoder.
    method DecodeBody(w: nat) returns (decoded: bool)
      requires Valid() && w < |workers| && workers[w].pc == Decode
      modifies this
      ensures Valid() && Extends(old(history), history) && w < |workers| && workers[w].msg == old(workers[w].msg)
      ensures decoded == workers[w].msg.body.Job?
      ensures workers[w].pc == if decoded then StartEvent else RejectBad
    {
      WorkerReady(w);
      ghost var before := Snapshot();
      decoded := workers[w].msg.body.Job?;
      WorkerGoes(w, before, true, if decoded then StartEvent else RejectBad);
    }

    // A handler error: retried while attempts remain and then acknowledged,
    // rejected when they are spent, put back when the retry cannot be published.
    // place is the settlement asked for, and retry the copy published for it.
    method SettleError(w: nat, msg: Message, o: Oracle) returns (place: Place, err: bool, ghost retry: Option<nat>)
      requires Valid() && w < |workers| && workers[w].pc == AfterError(cfg, msg) && workers[w].msg == msg
      modifies this
      ensures Valid() && Extends(old(history), history) && w < |workers| && workers[w].pc == Finished
      ensures place.Dead? <==> RetryCount(msg.headers) + 1 > MaxAttempts(cfg)
      ensures retry.Some? <==> place.Gone?
      ensures place.Dead? || place.Gone? || place.Primary?
      ensures retry.Some? ==> RetryOf(msg, retry.value)
      ensures !err ==> workers[w].copy < |copies| && copies[workers[w].copy].place == place
    {
      var attempt := RetryCount(msg.headers) + 1;
      retry := None;
      if attempt > MaxAttempts(cfg) {
        place := Dead;
        err := SettleAs(w, Dead, o.ok(6), o.others(6));
        return;
      }
      var failed := RetryLater(w, msg, o.ok(6), o.others(6));
      if failed {
        place := Primary;
        err := SettleAs(w, Primary, o.ok(7), o.others(7));
      } else {
        ghost var c := |copies| - 1;
        place, retry := Gone, Some(c);
        ghost var k := |history.steps|;
        err := SettleAs(w, Gone, o.ok(7), o.others(7));
        RetryStays(k, msg, c);
      }
    }

    // Copy c is a retry of the message.
    ghost predicate RetryOf(msg: Message, c: nat)
      reads this
    {
      c < |copies| && copies[c].msg.body == msg.body && Retries(copies[c].msg) == Retries(msg) + 1
    }

    lemma RetryStays(k: nat, msg: Message, c: nat)
      requires Valid() && k < |history.states| && c < |history.states[k].copies|
      requires history.states[k].copies[c].msg.body == msg.body && Retries(history.states[k].copies[c].msg) == Retries(msg) + 1
      ensures RetryOf(msg, c)
    {
      RunGrows(cfg, history, k, |history.steps|);
    }

    // The body of the session loop, for one delivery: an undecodable body is
    // rejected, an error is settled as above, and a success is acknowledged,
    // or rejected if the acknowledgement fails. Every branch ends the handling.
    method ProcessDelivery(w: nat, o: Oracle)
      requires Valid() && w < |workers| && workers[w].pc == Decode
      modifies this
      ensures Valid() && Extends(old(history), history) && w < |workers| && workers[w].pc == Finished
    {
      var msg := workers[w].msg;
      var decoded := DecodeBody(w);
      if !decoded {
        var _ := SettleAs(w, Dead, o.ok(6), o.others(6));
        return;
      }
      ProcessJob(w, msg, o);
    }

    method ProcessJob(w: nat, msg: Message, o: Oracle)
      requires Valid() && w < |workers| && workers[w].pc == StartEvent && workers[w].msg == msg
      modifies this
      ensures Valid() && Extends(old(history), history) && w < |workers| && workers[w].pc == Finished
    {
      var failed, _ := HandleJob(w, msg, o);
      if failed {
        var _, _, _ := SettleError(w, msg, o);
      } else {
        SettleSuccess(w, o);
      }
    }

    // Acknowledged, or rejected if that fails.
    method SettleSuccess(w: nat, o: Oracle)
      requires Valid() && w < |workers| && workers[w].pc == AckDone
      modifies this
      ensures Valid() && Extends(old(history), history) && w < |workers| && workers[w].pc == Finished
    {
      var err := SettleAs(w, Gone, o.ok(6), o.others(6));
      if err {
        var _ := SettleAs(w, Dead, o.ok(7), o.others(7));
      }
    }

    // runSession: deliveries are handled one at a time. oracles(k) is the
    // environment of the k-th turn, and choose(k) the copy the broker offers,
    // if it is ready. Each turn takes exactly that copy and ends with its
    // handling finished; a turn with nothing ready does nothing.
    method RunSession(turns: nat, choose: nat -> nat, oracles: nat -> Oracle) returns (handled: nat, ghost log: seq<SessionTurn>)
      requires Valid()
      modifies this
      ensures Valid() && Extends(old(history), history)
      ensures |log| == turns && SessionDone(|old(history.steps)|, history, log, choose) && handled == Served(log)
    {
      handled, log := 0, [];
      ghost var start := |history.steps|;
      for k := 0 to turns
        invariant Valid() && Extends(old(history), history)
        invariant |log| == k && SessionDone(start, history, log, choose) && handled == Served(log)
      {
        var taken;
        taken, log := SessionStep(choose(k), oracles(k), start, log, choose);
        handled := if taken then handled + 1 else handled;
      }
    }

    // The next turn of a session.
    method SessionStep(c: nat, o: Oracle, ghost start: nat, ghost log: seq<SessionTurn>, ghost choose: nat -> nat)
      returns (taken: bool, ghost longer: seq<SessionTurn>)
      requires Valid() && start <= |history.steps| && SessionDone(start, history, log, choose) && c == choose(|log|)
      modifies this
      ensures Valid() && Extends(old(history), history)
      ensures |longer| == |log| + 1 && SessionDone(start, history, longer, choose)
      ensures Served(longer) == Served(log) + if taken then 1 else 0
    {
      ghost var was := history;
      ghost var turn;
      taken, turn := WaitAndTake(c, o);
      SessionGoesOn(start, was, history, log, turn, choose);
      longer := log + [turn];
    }

    // One turn: other calls run, and the offered copy is taken if it is ready.
    method WaitAndTake(c: nat, o: Oracle) returns (taken: bool, ghost turn: SessionTurn)
      requires Valid()
      modifies this
      ensures Valid() && Extends(old(history), history)
      ensures |old(history.steps)| <= turn.view && turn.end == |history.steps| && TurnDone(history, turn, c)
      ensures taken <==> turn.view < turn.end
    {
      LetOthersRun(o.others(8), -1, -1);
      ghost var view := |history.steps|;
      taken := c < |copies| && copies[c].place == Primary;
      if taken {
        TakeDelivery(c, o);
      }
      turn := SessionTurn(view, |history.steps|);
    }

    // A ready copy is delivered and its handling runs to the end.
    method TakeDelivery(c: nat, o: Oracle)
      requires Valid() && c < |copies| && copies[c].place == Primary
      modifies this
      ensures Valid() && Extends(old(history), history)
      ensures TurnDone(history, SessionTurn(|old(history.steps)|, |history.steps|), c)
      ensures |old(history.steps)| < |history.steps|
    {
      var w := |workers|;
      ghost var view := |history.steps|;
      Take(Deliver(c));
      ghost var taken := history;
      ProcessDelivery(w, o);
      assert history.states[view + 1] == taken.states[view + 1] && history.states[view] == taken.states[view];
      RunGrows(cfg, history, view + 1, |history.steps|);
    }

    /******* Intake *******/

    // Intake i can make its next call, and has what that call needs.
    ghost predicate IntakeCanStep(i: nat)
      reads this
    {
      && IntakeEnabled(Snapshot(), i, Broken)
      && (if intakes[i].pc.ResolveMerchant? || intakes[i].pc.ResolveForReplay? then
            IntakeEnabled(Snapshot(), i, NoMerchant) && forall m :: IntakeEnabled(Snapshot(), i, FoundMerchant(m))
          else IntakeEnabled(Snapshot(), i, Okay))
      && (RefersToRow(intakes[i].pc) ==> intakes[i].pc.tx < |rows| && |rows[intakes[i].pc.tx].versions| > 0)
      && (intakes[i].pc.ListEvents? ==> intakes[i].request.TransferRequest?)
    }

    lemma IntakeReady(i: nat)
      requires Valid() && i < |intakes| && !intakes[i].pc.Done?
      ensures IntakeCanStep(i)
    {
      ReachableInv(cfg, Snapshot());
      assert IntakeOk(Snapshot(), i);
      if RefersToRow(intakes[i].pc) {
        assert RowOk(Snapshot(), intakes[i].pc.tx);
      }
    }

    // Other calls run, and then it is intake i's turn.
    method IntakeTurn(i: nat, others: seq<Step>)
      requires Valid() && i < |intakes| && !intakes[i].pc.Done?
      modifies this
      ensures Valid() && Extends(old(history), history)
      ensures Rests(history, |old(history.steps)|, |history.steps|, i)
      ensures i < |intakes| && intakes[i] == old(intakes[i])
      ensures IntakeCanStep(i)
    {
      LetOthersRun(others, i, -1);
      IntakeReady(i);
    }

    // Intake i moves on after the call it has just made; it has rested since.
    method IntakeGoes(i: nat, ghost since: Run, ghost before: State, reply: Reply, next: IntakePc)
      requires ValidConfig(cfg) && IsRunTo(cfg, history, before) && IntakeEnabled(before, i, reply)
      requires Snapshot() == Perform(before, IntakeEffect(before, i, reply)) && i < |intakes|
      requires next == IntakeGoto(before, i, reply)
      requires Extends(since, history) && Rests(history, |since.steps|, |history.steps|, i)
      modifies `intakes, `history
      ensures Valid() && Turned(since, history, i, reply)
      ensures |intakes| == |old(intakes)| && intakes[i] == old(intakes)[i].(pc := next)
    {
      intakes := intakes[i := intakes[i].(pc := next)];
      assert Snapshot() == IntakeNext(before, i, reply);
      ExtendRun(cfg, history, before, IntakeStep(i, reply), Snapshot());
      TurnAfterRest(since, history, Snapshot(), i, reply);
      history := Extended(history, IntakeStep(i, reply), Snapshot());
    }

    method FindByKey(i: nat, request: Request, ok: bool, others: seq<Step>) returns (err: bool, existing: Option<TxId>)
      requires Valid() && i < |intakes| && intakes[i] == Intake(request, LookupKey)
      modifies this
      ensures Valid() && Turned(old(history), history, i, Answer(ok)) && i < |intakes|
      ensures err == !ok
      ensures intakes[i] == Intake(request, if err then Done(Failure) else if existing.Some? then LoadForReplay(existing.value) else LoadAccount)
    {
      ghost var since := history;
      IntakeTurn(i, others);
      ghost var before := Snapshot();
      err := !ok;
      existing := if ok && HasKey(Snapshot(), request.key) then Some(FindKey(Snapshot(), request.key)) else None;
      IntakeGoes(i, since, before, Answer(ok), if err then Done(Failure) else if existing.Some? then LoadForReplay(existing.value) else LoadAccount);
    }

    // The replay's account lookup, and for a transfer the comparison with the row.

    method CompareAccount(i: nat, request: Request, tx: TxId, ok: bool, others: seq<Step>) returns (next: IntakePc)
      requires Valid() && i < |intakes| && intakes[i] == Intake(request, LoadForReplay(tx))
      modifies this
      ensures Valid() && Turned(old(history), history, i, Answer(ok)) && i < |intakes|
      ensures intakes[i] == Intake(request, next)
      ensures next.Done? ==> next == Done(Failure) || next == Done(Conflict)
      ensures !next.Done? ==> if request.QrisRequest? then next.ResolveForReplay? && next.tx == tx else next == ListEvents(tx)
    {
      ghost var since := history;
      IntakeTurn(i, others);
      ghost var before := Snapshot();
      if !ok || request.accountNumber !in accounts {
        next := Done(Failure);
      } else {
        var account := accounts[request.accountNumber];
        if request.QrisRequest? {
          next := ResolveForReplay(tx, account);
        } else if rows[tx].account != account || rows[tx].merchant.Some? || rows[tx].amount != request.amount {
          next := Done(Conflict);
        } else {
          next := ListEvents(tx);
        }
      }
      IntakeGoes(i, since, before, Answer(ok), next);
    }

    method CompareMerchant(i: nat, request: Request, tx: TxId, account: nat, reply: Reply, others: seq<Step>) returns (outcome: Outcome)
      requires !reply.Okay?
      requires Valid() && i < |intakes| && intakes[i] == Intake(request, ResolveForReplay(tx, account))
      modifies this
      ensures Valid() && Turned(old(history), history, i, reply) && i < |intakes|
      ensures intakes[i] == Intake(request, Done(outcome))
      ensures outcome.Replayed? ==> reply.FoundMerchant? && outcome == Replayed(tx, Some(reply.id))
      ensures outcome == MerchantMissing <==> reply == NoMerchant
      ensures !outcome.Created?
    {
      ghost var since := history;
      IntakeTurn(i, others);
      ghost var before := Snapshot();
      match reply {
        case FoundMerchant(merchant) =>
          if rows[tx].account != account || rows[tx].merchant != Some(merchant) || rows[tx].amount != request.amount {
            outcome := Conflict;
          } else {
            outcome := Replayed(tx, Some(merchant));
          }
        case NoMerchant => outcome := MerchantMissing;
        case _ => outcome := Failure;
      }
      IntakeGoes(i, since, before, reply, Done(outcome));
    }

    // transferReplayMatches: the first creation event decides.
    method TransferReplayMatches(events: seq<Event>, toAccount: string) returns (matches: bool)
      ensures matches == ReplayMatches(events, toAccount)
    {
      for k := 0 to |events|
        invariant ReplayMatches(events[k..], toAccount) == ReplayMatches(events, toAccount)
      {
        assert events[k..][1..] == events[k + 1..];
        if events[k].kind == TransferCreated {
          match events[k].metadata {
            case TransferTo(account) => return account == toAccount;
            case NoDestination => return "" == toAccount;
            case Malformed => return false;
          }
        }
      }
      return false;
    }

    method CompareDestination(i: nat, request: Request, tx: TxId, ok: bool, others: seq<Step>) returns (outcome: Outcome)
      requires Valid() && i < |intakes| && intakes[i] == Intake(request, ListEvents(tx))
      modifies this
      ensures Valid() && Turned(old(history), history, i, Answer(ok)) && i < |intakes|
      ensures intakes[i] == Intake(request, Done(outcome))
      ensures outcome == Failure || outcome == Conflict || outcome == Replayed(tx, None)
    {
      ghost var since := history;
      IntakeTurn(i, others);
      ghost var before := Snapshot();
      if !ok {
        outcome := Failure;
      } else {
        var matches := TransferReplayMatches(rows[tx].events, request.toAccount);
        outcome := if matches then Replayed(tx, None) else Conflict;
      }
      IntakeGoes(i, since, before, Answer(ok), Done(outcome));
    }

    method FindAccount(i: nat, request: Request, ok: bool, others: seq<Step>) returns (next: IntakePc)
      requires Valid() && i < |intakes| && intakes[i] == Intake(request, LoadAccount)
      modifies this
      ensures Valid() && Turned(old(history), history, i, Answer(ok)) && i < |intakes|
      ensures intakes[i] == Intake(request, next)
      ensures next == Done(Failure) <==> !ok
      ensures next.Done? ==> next == Done(Failure) || next == Done(NotProvisioned)
      ensures !next.Done? ==> if request.QrisRequest? then next.ResolveMerchant? else next.Insert? && next.merchant.None?
    {
      ghost var since := history;
      IntakeTurn(i, others);
      ghost var before := Snapshot();
      if !ok {
        next := Done(Failure);
      } else if request.accountNumber !in accounts {
        next := Done(NotProvisioned);
      } else if request.QrisRequest? {
        next := ResolveMerchant(accounts[request.accountNumber]);
      } else {
        next := Insert(accounts[request.accountNumber], None);
      }
      IntakeGoes(i, since, before, Answer(ok), next);
    }

    method FindMerchant(i: nat, request: Request, account: nat, reply: Reply, others: seq<Step>) returns (next: IntakePc)
      requires !reply.Okay?
      requires Valid() && i < |intakes| && intakes[i] == Intake(request, ResolveMerchant(account))
      modifies this
      ensures Valid() && Turned(old(history), history, i, reply) && i < |intakes|
      ensures intakes[i] == Intake(request, next)
      ensures next == if reply.FoundMerchant? then Insert(account, Some(reply.id))
                      else if reply == NoMerchant then Done(MerchantMissing) else Done(Failure)
    {
      ghost var since := history;
      IntakeTurn(i, others);
      ghost var before := Snapshot();
      match reply {
        case FoundMerchant(merchant) => next := Insert(account, Some(merchant));
        case NoMerchant => next := Done(MerchantMissing);
        case _ => next := Done(Failure);
      }
      IntakeGoes(i, since, before, reply, next);
    }

    method InsertPending(i: nat, request: Request, account: nat, merchant: Option<nat>, ok: bool, others: seq<Step>) returns (tx: Option<TxId>)
      requires Valid() && i < |intakes| && intakes[i] == Intake(request, Insert(account, merchant))
      modifies this
      ensures Valid() && Turned(old(history), history, i, Answer(ok)) && i < |intakes|
      ensures intakes[i] == Intake(request, if tx.Some? then WriteCreated(tx.value) else Done(Failure))
    {
      ghost var since := history;
      IntakeTurn(i, others);
      ghost var before := Snapshot();
      tx := CreateTransaction(i, request, account, merchant, ok);
      IntakeGoes(i, since, before, Answer(ok), if tx.Some? then WriteCreated(tx.value) else Done(Failure));
    }

    method RecordCreated(i: nat, request: Request, tx: TxId, ok: bool, others: seq<Step>) returns (err: bool)
      requires Valid() && i < |intakes| && intakes[i] == Intake(request, WriteCreated(tx))
      modifies this
      ensures Valid() && Turned(old(history), history, i, Answer(ok)) && i < |intakes|
      ensures err == !ok
      ensures intakes[i] == Intake(request, if ok then CacheNew(tx) else Done(Failure))
    {
      ghost var since := history;
      IntakeTurn(i, others);
      ghost var before := Snapshot();
      err := CreateTransactionEvent(tx, CreatedEvent(request), ok);
      IntakeGoes(i, since, before, Answer(ok), if ok then CacheNew(tx) else Done(Failure));
    }

    method CacheProcessing(i: nat, request: Request, tx: TxId, ok: bool, others: seq<Step>) returns (err: bool)
      requires Valid() && i < |intakes| && intakes[i] == Intake(request, CacheNew(tx))
      modifies this
      ensures Valid() && Turned(old(history), history, i, Answer(ok)) && i < |intakes|
      ensures err == !ok
      ensures intakes[i] == Intake(request, if ok then Pipeline.IntakePc.Publish(tx) else Done(Failure))
    {
      ghost var since := history;
      IntakeTurn(i, others);
      ghost var before := Snapshot();
      err := SetTransactionStatus(EntryOf(tx, rows[tx], rows[tx].versions[0]), ok);
      IntakeGoes(i, since, before, Answer(ok), if ok then Pipeline.IntakePc.Publish(tx) else Done(Failure));
    }

    method PublishJob(i: nat, request: Request, tx: TxId, ok: bool, others: seq<Step>) returns (err: bool)
      requires Valid() && i < |intakes| && intakes[i] == Intake(request, Pipeline.IntakePc.Publish(tx))
      modifies this
      ensures Valid() && Turned(old(history), history, i, Answer(ok)) && i < |intakes|
      ensures err == !ok
      ensures intakes[i] == Intake(request, if ok then WriteEnqueued(tx) else CompensateRow(tx))
    {
      ghost var since := history;
      IntakeTurn(i, others);
      ghost var before := Snapshot();
      err := Publish(tx, request, ok);
      IntakeGoes(i, since, before, Answer(ok), if ok then WriteEnqueued(tx) else CompensateRow(tx));
    }

    method RecordEnqueued(i: nat, request: Request, tx: TxId, ok: bool, others: seq<Step>)
      requires Valid() && i < |intakes| && intakes[i] == Intake(request, WriteEnqueued(tx))
      modifies this
      ensures Valid() && Turned(old(history), history, i, Answer(ok)) && i < |intakes|
      ensures intakes[i] == Intake(request, Done(Created(tx)))
    {
      ghost var since := history;
      IntakeTurn(i, others);
      ghost var before := Snapshot();
      var _ := CreateTransactionEvent(tx, Event(Enqueued, NoDestination), ok);
      IntakeGoes(i, since, before, Answer(ok), Done(Created(tx)));
    }

    method FailRow(i: nat, request: Request, tx: TxId, ok: bool, others: seq<Step>) returns (entry: Option<Entry>)
      requires Valid() && i < |intakes| && intakes[i] == Intake(request, CompensateRow(tx))
      modifies this
      ensures Valid() && Turned(old(history), history, i, Answer(ok)) && i < |intakes|
      ensures intakes[i] == Intake(request, if entry.Some? then CompensateCache(tx, entry.value) else CompensateEvent(tx))
    {
      ghost var since := history;
      IntakeTurn(i, others);
      ghost var before := Snapshot();
      entry := UpdateTransactionStatus(tx, Failed, ok);
      IntakeGoes(i, since, before, Answer(ok), if entry.Some? then CompensateCache(tx, entry.value) else CompensateEvent(tx));
    }

    method CacheFailed(i: nat, request: Request, tx: TxId, entry: Entry, ok: bool, others: seq<Step>)
      requires Valid() && i < |intakes| && intakes[i] == Intake(request, CompensateCache(tx, entry))
      modifies this
      ensures Valid() && Turned(old(history), history, i, Answer(ok)) && i < |intakes|
      ensures intakes[i] == Intake(request, CompensateEvent(tx))
    {
      ghost var since := history;
      IntakeTurn(i, others);
      ghost var before := Snapshot();
      var _ := SetTransactionStatus(entry, ok);
      IntakeGoes(i, since, before, Answer(ok), CompensateEvent(tx));
    }

    method RecordPublishFailure(i: nat, request: Request, tx: TxId, ok: bool, others: seq<Step>)
      requires Valid() && i < |intakes| && intakes[i] == Intake(request, CompensateEvent(tx))
      modifies this
      ensures Valid() && Turned(old(history), history, i, Answer(ok)) && i < |intakes|
      ensures intakes[i] == Intake(request, Done(Failure))
    {
      ghost var since := history;
      IntakeTurn(i, others);
      ghost var before := Snapshot();
      var _ := CreateTransactionEvent(tx, Event(QueueError, NoDestination), ok);
      IntakeGoes(i, since, before, Answer(ok), Done(Failure));
    }

    // The publish failed: fail the row, cache that, and log it, as far as possible.
    method Compensate(i: nat, request: Request, tx: TxId, o: Oracle)
      requires Valid() && i < |intakes| && intakes[i] == Intake(request, CompensateRow(tx))
      modifies this
      ensures Valid() && AnswersFrom(old(history), history, i, o)
      ensures i < |intakes| && intakes[i] == Intake(request, Done(Failure))
    {
      ghost var start, h := history, history;
      var entry := FailRow(i, request, tx, o.ok(7), o.others(7));
      OneMoreAnswer(start, h, history, i, Answer(o.ok(7)), o);
      h := history;
      if entry.Some? {
        CacheFailed(i, request, tx, entry.value, o.ok(8), o.others(8));
        OneMoreAnswer(start, h, history, i, Answer(o.ok(8)), o);
        h := history;
      }
      RecordPublishFailure(i, request, tx, o.ok(9), o.others(9));
      OneMoreAnswer(start, h, history, i, Answer(o.ok(9)), o);
    }

    // What both services do once account and merchant are known: insert the
    // row, log its creation, cache it, publish its job, log that.
    method Accept(i: nat, request: Request, account: nat, merchant: Option<nat>, o: Oracle) returns (outcome: Outcome)
      requires Valid() && i < |intakes| && intakes[i] == Intake(request, Insert(account, merchant))
      modifies this
      ensures Valid() && AnswersFrom(old(history), history, i, o)
      ensures i < |intakes| && intakes[i] == Intake(request, Done(outcome)) && (outcome.Created? || outcome.Failure?)
    {
      ghost var start := history;
      var inserted := InsertPending(i, request, account, merchant, o.ok(3), o.others(3));
      ghost var h := history;
      OneMoreAnswer(start, start, h, i, Answer(o.ok(3)), o);
      if inserted.None? {
        return Failure;
      }
      outcome := Offer(i, request, inserted.value, o);
      MoreAnswers(start, h, history, i, o);
    }

    method Offer(i: nat, request: Request, tx: TxId, o: Oracle) returns (outcome: Outcome)
      requires Valid() && i < |intakes| && intakes[i] == Intake(request, WriteCreated(tx))
      modifies this
      ensures Valid() && AnswersFrom(old(history), history, i, o)
      ensures i < |intakes| && intakes[i] == Intake(request, Done(outcome)) && (outcome == Created(tx) || outcome == Failure)
      ensures outcome == Created(tx) <==> o.ok(4) && o.ok(5) && o.ok(6)
    {
      ghost var start, h := history, history;
      var err := RecordCreated(i, request, tx, o.ok(4), o.others(4));
      OneMoreAnswer(start, h, history, i, Answer(o.ok(4)), o);
      if err {
        return Failure;
      }
      h := history;
      err := CacheProcessing(i, request, tx, o.ok(5), o.others(5));
      OneMoreAnswer(start, h, history, i, Answer(o.ok(5)), o);
      if err {
        return Failure;
      }
      h := history;
      outcome := PublishOrCompensate(i, request, tx, o);
      MoreAnswers(start, h, history, i, o);
    }

    method PublishOrCompensate(i: nat, request: Request, tx: TxId, o: Oracle) returns (outcome: Outcome)
      requires Valid() && i < |intakes| && intakes[i] == Intake(request, Pipeline.IntakePc.Publish(tx))
      modifies this
      ensures Valid() && AnswersFrom(old(history), history, i, o)
      ensures i < |intakes| && intakes[i] == Intake(request, Done(outcome)) && outcome == if o.ok(6) then Created(tx) else Failure
    {
      ghost var start := history;
      var err := PublishJob(i, request, tx, o.ok(6), o.others(6));
      ghost var h := history;
      OneMoreAnswer(start, start, h, i, Answer(o.ok(6)), o);
      if err {
        Compensate(i, request, tx, o);
        MoreAnswers(start, h, history, i, o);
        return Failure;
      }
      RecordEnqueued(i, request, tx, o.ok(7), o.others(7));
      OneMoreAnswer(start, h, history, i, Answer(o.ok(7)), o);
      return Created(tx);
    }

    method Replay(i: nat, request: Request, tx: TxId, o: Oracle) returns (outcome: Outcome)
      requires Valid() && i < |intakes| && intakes[i] == Intake(request, LoadForReplay(tx)) && !o.merchant.Okay?
      modifies this
      ensures Valid() && AnswersFrom(old(history), history, i, o)
      ensures i < |intakes| && intakes[i] == Intake(request, Done(outcome)) && !outcome.Created?
      ensures outcome.Replayed? && request.QrisRequest? ==> o.merchant.FoundMerchant? && outcome.merchant == Some(o.merchant.id)
      ensures outcome == MerchantMissing ==> o.merchant == NoMerchant
    {
      ghost var start := history;
      var next := CompareAccount(i, request, tx, o.ok(1), o.others(1));
      ghost var h := history;
      OneMoreAnswer(start, start, h, i, Answer(o.ok(1)), o);
      if next.Done? {
        return next.outcome;
      }
      if request.QrisRequest? {
        outcome := CompareMerchant(i, request, tx, next.account, o.merchant, o.others(2));
        OneMoreAnswer(start, h, history, i, o.merchant, o);
      } else {
        outcome := CompareDestination(i, request, tx, o.ok(2), o.others(2));
        OneMoreAnswer(start, h, history, i, Answer(o.ok(2)), o);
      }
    }

    method Create(i: nat, request: Request, o: Oracle) returns (outcome: Outcome)
      requires Valid() && i < |intakes| && intakes[i] == Intake(request, LoadAccount) && !o.merchant.Okay?
      modifies this
      ensures Valid() && AnswersFrom(old(history), history, i, o)
      ensures i < |intakes| && intakes[i] == Intake(request, Done(outcome)) && !outcome.Replayed?
      ensures outcome == MerchantMissing ==> o.merchant == NoMerchant
    {
      ghost var start := history;
      var next := FindAccount(i, request, o.ok(1), o.others(1));
      OneMoreAnswer(start, start, history, i, Answer(o.ok(1)), o);
      ghost var h := history;
      if next.ResolveMerchant? {
        next := FindMerchant(i, request, next.account, o.merchant, o.others(2));
        OneMoreAnswer(start, h, history, i, o.merchant, o);
        h := history;
      }
      if next.Done? {
        return next.outcome;
      }
      outcome := Accept(i, request, next.account, next.merchant, o);
      MoreAnswers(start, h, history, i, o);
    }

    // What an answer means when the call returns, whatever ran meanwhile.
    ghost predicate AnswerHolds(request: Request, outcome: Outcome)
      reads this
    {
      match outcome
      case Created(tx) =>
        && tx < |rows| && rows[tx].key == request.key && rows[tx].amount == request.amount
        && request.accountNumber in accounts && rows[tx].account == accounts[request.accountNumber]
        && rows[tx].merchant.Some? == request.QrisRequest?
        && |rows[tx].versions| > 0 && rows[tx].versions[0].status == Processing
        && |rows[tx].events| > 0 && rows[tx].events[0] == CreationEvent(request)
        && rows[tx].birth.Some? && Kept(Snapshot(), tx)
      case Replayed(tx, merchant) =>
        tx < |rows| && rows[tx].merchant == merchant && rows[tx].key == request.key && rows[tx].amount == request.amount &&
        request.accountNumber in accounts && rows[tx].account == accounts[request.accountNumber] &&
        rows[tx].merchant.Some? == request.QrisRequest? &&
        rows[tx].owner < |intakes| &&
        (request.TransferRequest? ==> SameDestination(intakes[rows[tx].owner].request, request))
      case _ => true
    }

    lemma AnswerMeaning(i: nat, request: Request, outcome: Outcome)
      requires Valid() && i < |intakes| && intakes[i] == Intake(request, Done(outcome))
      ensures AnswerHolds(request, outcome)
    {
      ReachableInv(cfg, Snapshot());
      assert IntakeOk(Snapshot(), i);
      if outcome.Created? {
        assert RowOk(Snapshot(), outcome.tx);
        CreationLogged(cfg, Snapshot(), i, outcome.tx);
      }
    }

    // The lookup of the key decides between replaying and creating.
    method ReplayOrCreate(i: nat, request: Request, o: Oracle) returns (outcome: Outcome)
      requires Valid() && i < |intakes| && intakes[i] == Intake(request, LookupKey) && !o.merchant.Okay?
      modifies this
      ensures Valid() && AnswersFrom(old(history), history, i, o)
      ensures i < |intakes| && intakes[i] == Intake(request, Done(outcome))
      ensures outcome.Replayed? && request.QrisRequest? ==> o.merchant.FoundMerchant? && outcome.merchant == Some(o.merchant.id)
      ensures outcome == MerchantMissing ==> o.merchant == NoMerchant
    {
      ghost var start := history;
      var err, existing := FindByKey(i, request, o.ok(0), o.others(0));
      OneMoreAnswer(start, start, history, i, Answer(o.ok(0)), o);
      if err {
        return Failure;
      }
      ghost var h := history;
      if existing.Some? {
        outcome := Replay(i, request, existing.value, o);
      } else {
        outcome := Create(i, request, o);
      }
      MoreAnswers(start, h, history, i, o);
    }

    // TransferService.CreateTransaction and QRISService.CreateTransaction. The
    // call is created exactly if none of its turns met an obstacle, and every
    // answer it got is one that the environment gave.
    method Submit(request: Request, o: Oracle) returns (outcome: Outcome, ghost i: nat)
      requires Valid() && !o.merchant.Okay?
      modifies this
      ensures Valid() && Extends(old(history), history)
      ensures i == |old(intakes)| && i < |intakes| && intakes[i] == Intake(request, Done(outcome))
      ensures AnswerHolds(request, outcome)
      ensures outcome.Created? <==>
              forall j: nat :: j < |history.steps| && TurnOf(history, j, i) ==> !Obstacle(history.states[j], i, history.steps[j].reply)
      ensures forall j: nat :: j < |history.steps| && TurnOf(history, j, i) ==>
                |old(history.steps)| <= j && FromOracle(o, history.steps[j].reply)
      ensures outcome.Created? && request.QrisRequest? ==>
                o.merchant.FoundMerchant? && rows[outcome.tx].merchant == Some(o.merchant.id)
      ensures outcome.Replayed? && request.QrisRequest? ==> o.merchant.FoundMerchant? && outcome.merchant == Some(o.merchant.id)
      ensures outcome == MerchantMissing ==> o.merchant == NoMerchant
    {
      var j := |intakes|;
      ghost var was := history;
      Take(Arrive(request));
      i := j;
      ghost var arrived := history;
      NoTurnsYet(cfg, history, |was.steps|, i);
      outcome := ReplayOrCreate(j, request, o);
      AnswerMeaning(j, request, outcome);
      AnsweredByOracle(was, arrived, i, o);
      CreatedExactly(cfg, history, |history.steps|, i);
      if outcome.Created? {
        CreatedMerchant(i, request, o, outcome.tx);
      }
    }

    lemma AnsweredByOracle(was: Run, arrived: Run, i: nat, o: Oracle)
      requires Valid() && Rests(arrived, 0, |was.steps|, i) && |arrived.steps| == |was.steps| + 1 < |arrived.states|
      requires !TurnOf(arrived, |was.steps|, i) && AnswersFrom(arrived, history, i, o)
      ensures forall j: nat :: j < |history.steps| && TurnOf(history, j, i) ==>
                |was.steps| <= j && FromOracle(o, history.steps[j].reply)
    {
      forall j: nat | j < |history.steps| && TurnOf(history, j, i)
        ensures |was.steps| <= j && FromOracle(o, history.steps[j].reply)
      {
        assert j < |arrived.steps| ==> TurnOf(arrived, j, i);
      }
    }

    lemma CreatedMerchant(i: nat, request: Request, o: Oracle, tx: TxId)
      requires Valid() && i < |intakes| && intakes[i] == Intake(request, Done(Created(tx)))
      requires forall j: nat :: j < |history.steps| && TurnOf(history, j, i) ==> FromOracle(o, history.steps[j].reply)
      ensures tx < |rows|
      ensures request.QrisRequest? ==> o.merchant.FoundMerchant? && rows[tx].merchant == Some(o.merchant.id)
    {
      CreatedExactly(cfg, history, |history.steps|, i);
      UnhinderedIsCreated(cfg, history, |history.steps|, i);
    }

    /******* The status reader *******/

    // GetStatus: the cache first, then the row, which is then cached by a
    // write that happens later. A read that fails is reported as an error.
    method GetStatus(tx: TxId, cacheOk: bool, databaseOk: bool) returns (err: bool, answer: Option<Entry>)
      requires Valid()
      modifies this
      ensures Valid() && Extends(old(history), history)
      ensures err <==> !cacheOk || (tx !in old(cache) && !databaseOk)
      ensures !err && tx in old(cache) ==> answer == Some(old(cache)[tx]) && fills == old(fills)
      ensures !err && tx !in old(cache) && tx < |old(rows)| ==>
                && answer.Some? && |old(rows)[tx].versions| > 0 && ShowsPresent(old(Snapshot()), tx, answer.value)
                && fills == old(fills) + multiset{answer.value}
      ensures !err && tx !in old(cache) && tx >= |old(rows)| ==> answer == None && fills == old(fills)
      ensures err ==> fills == old(fills)
      ensures !err && answer.Some? && Terminal(answer.value.status) ==> IsTerminal(Snapshot(), tx)
      ensures Snapshot() == old(Snapshot()).(fills := fills)
    {
      ReachableInv(cfg, Snapshot());
      if !cacheOk {
        return true, None;
      }
      if tx in cache {
        PastTerminalIf(Snapshot(), tx);
        return false, Some(cache[tx]);
      }
      if !databaseOk {
        return true, None;
      }
      if tx >= |rows| {
        return false, None;
      }
      assert RowOk(Snapshot(), tx);
      answer := Some(CurrentEntry(Snapshot(), tx));
      Take(ReadRow(tx));
      return false, answer;
    }
  }

  lemma PastTerminalIf(s: State, tx: TxId)
    requires tx in s.cache && CacheOk(s) && forall t :: 0 <= t < |s.rows| ==> RowOk(s, t)
    ensures Terminal(s.cache[tx].status) ==> IsTerminal(s, tx)
  {
    if Terminal(s.cache[tx].status) {
      PastTerminal(s, s.cache[tx]);
    }
  }
}
