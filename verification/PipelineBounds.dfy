// How often legacy can be called for one transaction. The count is amortised:
// every live copy of the message holds credit for the calls it can still
// cause, and each requeue pays for what it brings back.
module PipelineBounds {
  import opened Common
  import opened Backoff
  import opened Headers
  import opened Pipeline
  import opened PipelineRuns
  import opened PipelineSafety
  import opened PipelineTheorems

  function CallsOf(calls: seq<Call>, tx: TxId): nat {
    if |calls| == 0 then 0
    else CallsOf(calls[..|calls| - 1], tx) + if calls[|calls| - 1].tx == tx then 1 else 0
  }

  lemma CallsAppend(calls: seq<Call>, tx: TxId, call: Call)
    ensures CallsOf(calls + [call], tx) == CallsOf(calls, tx) + if call.tx == tx then 1 else 0
  {
    assert (calls + [call])[..|calls|] == calls;
  }

  predicate About(msg: Message, tx: TxId) { msg.body.Job? && msg.body.tx == tx }

  // Deliveries a message can still go through before its budget is spent.
  function Remaining(cfg: Config, msg: Message): nat {
    var r := MaxAttempts(cfg) + 1 - Retries(msg);
    if r < 0 then 0 else r
  }

  predicate BeforeCall(pc: WorkerPc) { pc.Decode? || pc.StartEvent? || pc.CallLegacy? }

  // Past the legacy call, and still able to publish a retry.
  predicate MayRetry(pc: WorkerPc) {
    pc.UpdateRow? || pc.CacheResult? || pc.DropBalance? || pc.FinalEvent? || pc.PublishRetry?
  }

  function CopyCredit(cfg: Config, copy: Copy, tx: TxId): nat {
    if About(copy.msg, tx) && (copy.place.Primary? || copy.place.Retry?) then Remaining(cfg, copy.msg) else 0
  }

  // A handler cut off from its channel may still call legacy once.
  function WorkerCredit(cfg: Config, worker: Worker, tx: TxId): nat {
    if !About(worker.msg, tx) then 0
    else if !worker.attached then (if BeforeCall(worker.pc) then 1 else 0)
    else if BeforeCall(worker.pc) then Remaining(cfg, worker.msg)
    else if MayRetry(worker.pc) && Remaining(cfg, worker.msg) > 0 then Remaining(cfg, worker.msg) - 1
    else 0
  }

  function CopyCredits(cfg: Config, copies: seq<Copy>, tx: TxId): (r: seq<nat>)
    ensures |r| == |copies|
    ensures forall k :: 0 <= k < |r| ==> r[k] == CopyCredit(cfg, copies[k], tx)
  {
    seq(|copies|, k requires 0 <= k < |copies| => CopyCredit(cfg, copies[k], tx))
  }

  function WorkerCredits(cfg: Config, workers: seq<Worker>, tx: TxId): (r: seq<nat>)
    ensures |r| == |workers|
    ensures forall k :: 0 <= k < |r| ==> r[k] == WorkerCredit(cfg, workers[k], tx)
  {
    seq(|workers|, k requires 0 <= k < |workers| => WorkerCredit(cfg, workers[k], tx))
  }

  function CopySum(cfg: Config, copies: seq<Copy>, tx: TxId): nat { Sum(CopyCredits(cfg, copies, tx)) }

  function WorkerSum(cfg: Config, workers: seq<Worker>, tx: TxId): nat { Sum(WorkerCredits(cfg, workers, tx)) }

  // The initial publish is still to come.
  function UnbornCredit(cfg: Config, s: State, tx: TxId): nat {
    if tx < |s.rows| && s.rows[tx].birth.Some? then 0 else MaxAttempts(cfg) + 1
  }

  function Spending(cfg: Config, s: State, tx: TxId): nat {
    CallsOf(s.calls, tx) + CopySum(cfg, s.copies, tx) + WorkerSum(cfg, s.workers, tx) + UnbornCredit(cfg, s, tx)
  }

  function Requeues(s: State, tx: TxId): nat { Count(s.requeues, tx) }

  function Allowance(cfg: Config, s: State, tx: TxId): nat {
    (MaxAttempts(cfg) + 1) * (1 + Requeues(s, tx))
  }

  /******* How the sums move *******/

  lemma CopySumUpdate(cfg: Config, copies: seq<Copy>, c: nat, copy: Copy, tx: TxId)
    requires c < |copies|
    ensures CopySum(cfg, copies[c := copy], tx) + CopyCredit(cfg, copies[c], tx) ==
            CopySum(cfg, copies, tx) + CopyCredit(cfg, copy, tx)
  {
    assert CopyCredits(cfg, copies[c := copy], tx) == CopyCredits(cfg, copies, tx)[c := CopyCredit(cfg, copy, tx)];
    SumUpdate(CopyCredits(cfg, copies, tx), c, CopyCredit(cfg, copy, tx));
  }

  lemma CopySumAppend(cfg: Config, copies: seq<Copy>, copy: Copy, tx: TxId)
    ensures CopySum(cfg, copies + [copy], tx) == CopySum(cfg, copies, tx) + CopyCredit(cfg, copy, tx)
  {
    assert CopyCredits(cfg, copies + [copy], tx) == CopyCredits(cfg, copies, tx) + [CopyCredit(cfg, copy, tx)];
    SumAppend(CopyCredits(cfg, copies, tx), CopyCredit(cfg, copy, tx));
  }

  lemma WorkerSumUpdate(cfg: Config, workers: seq<Worker>, w: nat, worker: Worker, tx: TxId)
    requires w < |workers|
    ensures WorkerSum(cfg, workers[w := worker], tx) + WorkerCredit(cfg, workers[w], tx) ==
            WorkerSum(cfg, workers, tx) + WorkerCredit(cfg, worker, tx)
  {
    assert WorkerCredits(cfg, workers[w := worker], tx) == WorkerCredits(cfg, workers, tx)[w := WorkerCredit(cfg, worker, tx)];
    SumUpdate(WorkerCredits(cfg, workers, tx), w, WorkerCredit(cfg, worker, tx));
  }

  lemma WorkerSumAppend(cfg: Config, workers: seq<Worker>, worker: Worker, tx: TxId)
    ensures WorkerSum(cfg, workers + [worker], tx) == WorkerSum(cfg, workers, tx) + WorkerCredit(cfg, worker, tx)
  {
    assert WorkerCredits(cfg, workers + [worker], tx) == WorkerCredits(cfg, workers, tx) + [WorkerCredit(cfg, worker, tx)];
    SumAppend(WorkerCredits(cfg, workers, tx), WorkerCredit(cfg, worker, tx));
  }

  lemma RequeueCount(s: State, msg: Message, tx: TxId)
    ensures Count(RequeueLog(s, msg), tx) == Count(s.requeues, tx) + if About(msg, tx) then 1 else 0
  {
    if msg.body.Job? {
      CountAppend(s.requeues, tx, msg.body.tx);
    }
  }

  /******* Worker steps *******/

  // An effect of worker w followed by its move to another program point.
  lemma WorkerMoves(cfg: Config, s: State, e: Effect, w: nat, pc: WorkerPc, tx: TxId)
    requires EffectFits(s, e) && w < |s.workers|
    requires e.NoEffect? || e.LogEvent? || e.SetStatus? || e.SetCache? || e.LogCall? || e.EnqueueRetry? || e.DropBalanceOf?
    ensures
      var s' := AtWorker(Perform(s, e), w, pc);
      && Requeues(s', tx) == Requeues(s, tx)
      && UnbornCredit(cfg, s', tx) == UnbornCredit(cfg, s, tx)
      && CallsOf(s'.calls, tx) == CallsOf(s.calls, tx) + (if e.LogCall? && e.call.tx == tx then 1 else 0)
      && CopySum(cfg, s'.copies, tx) == CopySum(cfg, s.copies, tx) + (if e.EnqueueRetry? then CopyCredit(cfg, e.copy, tx) else 0)
      && WorkerSum(cfg, s'.workers, tx) + WorkerCredit(cfg, s.workers[w], tx) ==
         WorkerSum(cfg, s.workers, tx) + WorkerCredit(cfg, s.workers[w].(pc := pc), tx)
  {
    WorkerSumUpdate(cfg, s.workers, w, s.workers[w].(pc := pc), tx);
    if e.LogCall? {
      CallsAppend(s.calls, tx, e.call);
    } else if e.EnqueueRetry? {
      CopySumAppend(cfg, s.copies, e.copy, tx);
    }
  }

  // A settlement: the copy moves, the delivery ends.
  lemma WorkerSettles(cfg: Config, s: State, w: nat, place: Place, pc: WorkerPc, tx: TxId)
    requires EffectFits(s, Settle(w, place)) && WorkerOk(cfg, s, w) && s.workers[w].attached
    requires place.Primary? || place.Dead? || place.Gone?
    requires 0 <= Retries(s.workers[w].msg) || !s.workers[w].msg.body.Job?
    ensures
      var s' := AtWorker(Perform(s, Settle(w, place)), w, pc);
      BeforeCall(pc) || (Spending(cfg, s', tx) <= Spending(cfg, s, tx) + (Allowance(cfg, s', tx) - Allowance(cfg, s, tx)))
  {
    var s1 := Perform(s, Settle(w, place));
    var s' := AtWorker(s1, w, pc);
    var c := s.workers[w].copy;
    CopySumUpdate(cfg, s.copies, c, s.copies[c].(place := place), tx);
    WorkerSumUpdate(cfg, s.workers, w, s.workers[w].(attached := false, pc := pc), tx);
    assert s'.workers == s.workers[w := s.workers[w].(attached := false, pc := pc)];
    if place == Primary {
      RequeueCount(s, s.workers[w].msg, tx);
      AllowanceStep(cfg, s, s', tx);
    }
  }

  lemma AllowanceStep(cfg: Config, s: State, s': State, tx: TxId)
    requires Requeues(s', tx) == Requeues(s, tx) || Requeues(s', tx) == Requeues(s, tx) + 1
    ensures Allowance(cfg, s', tx) - Allowance(cfg, s, tx) ==
            if Requeues(s', tx) == Requeues(s, tx) then 0 else MaxAttempts(cfg) + 1
  {
  }

  lemma WorkerStepPays(cfg: Config, s: State, w: nat, ok: bool, tx: TxId)
    requires ValidConfig(cfg) && Inv(cfg, s) && WorkerEnabled(s, w, ok)
    requires Spending(cfg, s, tx) <= Allowance(cfg, s, tx)
    ensures Spending(cfg, WorkerNext(cfg, s, w, ok), tx) <= Allowance(cfg, WorkerNext(cfg, s, w, ok), tx)
  {
    assert WorkerOk(cfg, s, w);
    assert CopyOk(cfg, s, s.workers[w].copy);
    WorkerShape(cfg, s, w, ok);
    if s.workers[w].pc.PublishRetry? && ok {
      RetryCopyOk(cfg, s, s.workers[w].msg);
    }
    WorkerBalance(cfg, s, w, ok, tx);
    WorkerPays(cfg, s, WorkerEffect(cfg, s, w, ok), w, WorkerGoto(cfg, s, w, ok), tx);
  }

  lemma WorkerPays(cfg: Config, s: State, e: Effect, w: nat, pc: WorkerPc, tx: TxId)
    requires EffectFits(s, e) && w < |s.workers| && WorkerOk(cfg, s, w)
    requires 0 <= Retries(s.workers[w].msg) || !s.workers[w].msg.body.Job?
    requires if e.Settle? then
               e.w == w && s.workers[w].attached && pc.Finished? && (e.place.Primary? || e.place.Dead? || e.place.Gone?)
             else
               && (e.NoEffect? || e.LogEvent? || e.SetStatus? || e.SetCache? || e.LogCall? || e.EnqueueRetry? || e.DropBalanceOf?)
               && WorkerCredit(cfg, s.workers[w].(pc := pc), tx)
                  + (if e.LogCall? && e.call.tx == tx then 1 else 0)
                  + (if e.EnqueueRetry? then CopyCredit(cfg, e.copy, tx) else 0)
                  <= WorkerCredit(cfg, s.workers[w], tx)
    requires Spending(cfg, s, tx) <= Allowance(cfg, s, tx)
    ensures Spending(cfg, AtWorker(Perform(s, e), w, pc), tx) <= Allowance(cfg, AtWorker(Perform(s, e), w, pc), tx)
  {
    if e.Settle? {
      WorkerSettles(cfg, s, w, e.place, pc, tx);
    } else {
      WorkerMoves(cfg, s, e, w, pc, tx);
    }
  }

  lemma WorkerShape(cfg: Config, s: State, w: nat, ok: bool)
    requires WorkerEnabled(s, w, ok)
    ensures
      var e, pc := WorkerEffect(cfg, s, w, ok), WorkerGoto(cfg, s, w, ok);
      && (e.Settle? ==> e.w == w && s.workers[w].attached && pc.Finished? && (e.place.Primary? || e.place.Dead? || e.place.Gone?))
      && (!e.Settle? ==> e.NoEffect? || e.LogEvent? || e.SetStatus? || e.SetCache? || e.LogCall? || e.EnqueueRetry? || e.DropBalanceOf?)
  {
  }

  // What a worker gives up covers what it logs or publishes.
  lemma WorkerBalance(cfg: Config, s: State, w: nat, ok: bool, tx: TxId)
    requires WorkerEnabled(s, w, ok) && WorkerOk(cfg, s, w) && MessageOk(cfg, s, s.workers[w].msg)
    requires s.workers[w].pc.PublishRetry? && ok ==>
               Retries(RetryCopy(cfg, s, s.workers[w].msg).msg) == Retries(s.workers[w].msg) + 1
    ensures
      var e, pc := WorkerEffect(cfg, s, w, ok), WorkerGoto(cfg, s, w, ok);
      !e.Settle? ==>
        WorkerCredit(cfg, s.workers[w].(pc := pc), tx)
        + (if e.LogCall? && e.call.tx == tx then 1 else 0)
        + (if e.EnqueueRetry? then CopyCredit(cfg, e.copy, tx) else 0)
        <= WorkerCredit(cfg, s.workers[w], tx)
  {
  }

  /******* The other steps *******/

  lemma DropSpends(cfg: Config, s: State, w: nat, tx: TxId)
    requires Inv(cfg, s) && Enabled(cfg, s, DropConnection(w))
    ensures
      var s' := Apply(cfg, s, DropConnection(w));
      var back := if About(s.workers[w].msg, tx) then 1 else 0;
      && Requeues(s', tx) == Requeues(s, tx) + back
      && Spending(cfg, s', tx) <= Spending(cfg, s, tx) + (if back == 1 then MaxAttempts(cfg) + 1 else 0)
  {
    var c := s.workers[w].copy;
    assert WorkerOk(cfg, s, w) && CopyOk(cfg, s, c);
    CopySumUpdate(cfg, s.copies, c, s.copies[c].(place := Primary), tx);
    WorkerSumUpdate(cfg, s.workers, w, s.workers[w].(attached := false), tx);
    RequeueCount(s, s.workers[w].msg, tx);
  }

  lemma DropPays(cfg: Config, s: State, w: nat, tx: TxId)
    requires Inv(cfg, s) && Enabled(cfg, s, DropConnection(w))
    requires Spending(cfg, s, tx) <= Allowance(cfg, s, tx)
    ensures Spending(cfg, Apply(cfg, s, DropConnection(w)), tx) <= Allowance(cfg, Apply(cfg, s, DropConnection(w)), tx)
  {
    DropSpends(cfg, s, w, tx);
    AllowanceStep(cfg, s, Apply(cfg, s, DropConnection(w)), tx);
  }

  lemma DeliverPays(cfg: Config, s: State, c: nat, tx: TxId)
    requires Inv(cfg, s) && Enabled(cfg, s, Deliver(c))
    ensures Spending(cfg, Apply(cfg, s, Deliver(c)), tx) == Spending(cfg, s, tx)
    ensures Allowance(cfg, Apply(cfg, s, Deliver(c)), tx) == Allowance(cfg, s, tx)
  {
    CopySumUpdate(cfg, s.copies, c, s.copies[c].(place := Unacked(|s.workers|)), tx);
    WorkerSumAppend(cfg, s.workers, Worker(s.copies[c].msg, c, true, Decode), tx);
  }

  lemma ExpirePays(cfg: Config, s: State, c: nat, tx: TxId)
    requires Enabled(cfg, s, Expire(c))
    ensures Spending(cfg, Apply(cfg, s, Expire(c)), tx) == Spending(cfg, s, tx)
    ensures Allowance(cfg, Apply(cfg, s, Expire(c)), tx) == Allowance(cfg, s, tx)
  {
    CopySumUpdate(cfg, s.copies, c, s.copies[c].(place := Primary), tx);
  }

  lemma ForeignPays(cfg: Config, s: State, headers: Table, tx: TxId)
    ensures Spending(cfg, Apply(cfg, s, Foreign(headers)), tx) == Spending(cfg, s, tx)
    ensures Allowance(cfg, Apply(cfg, s, Foreign(headers)), tx) == Allowance(cfg, s, tx)
  {
    CopySumAppend(cfg, s.copies, Copy(Message(Undecodable, headers), Primary), tx);
  }

  lemma IntakePays(cfg: Config, s: State, i: nat, reply: Reply, tx: TxId)
    requires Inv(cfg, s) && IntakeEnabled(s, i, reply)
    ensures Spending(cfg, IntakeNext(s, i, reply), tx) <= Spending(cfg, s, tx)
    ensures Allowance(cfg, IntakeNext(s, i, reply), tx) == Allowance(cfg, s, tx)
  {
    IntakeEffectOk(cfg, s, i, reply);
    var e := IntakeEffect(s, i, reply);
    IntakeShape(s, i, reply);
    PublishPays(cfg, s, e, tx);
  }

  lemma IntakeShape(s: State, i: nat, reply: Reply)
    requires IntakeEnabled(s, i, reply)
    ensures var e := IntakeEffect(s, i, reply); !e.Settle? && !e.LogCall? && !e.EnqueueRetry?
  {
  }

  lemma PublishPays(cfg: Config, s: State, e: Effect, tx: TxId)
    requires EffectOk(cfg, s, e) && !e.Settle? && !e.LogCall? && !e.EnqueueRetry?
    ensures Spending(cfg, Perform(s, e), tx) <= Spending(cfg, s, tx)
    ensures Allowance(cfg, Perform(s, e), tx) == Allowance(cfg, s, tx)
  {
    if e.PublishNew? {
      CopySumAppend(cfg, s.copies, Copy(NewJob(s, e.tx, e.request), Primary), tx);
      assert RETRY_COUNT[2] != FIRST_ENQUEUED_AT[2];
    }
  }

  /******* Every run *******/

  lemma StepPays(cfg: Config, s: State, step: Step, tx: TxId)
    requires ValidConfig(cfg) && Inv(cfg, s) && Enabled(cfg, s, step)
    requires Spending(cfg, s, tx) <= Allowance(cfg, s, tx)
    ensures Spending(cfg, Apply(cfg, s, step), tx) <= Allowance(cfg, Apply(cfg, s, step), tx)
  {
    match step {
      case IntakeStep(i, reply) => IntakePays(cfg, s, i, reply, tx);
      case WorkerStep(w, ok) => WorkerStepPays(cfg, s, w, ok, tx);
      case Deliver(c) => DeliverPays(cfg, s, c, tx);
      case DropConnection(w) => DropPays(cfg, s, w, tx);
      case Expire(c) => ExpirePays(cfg, s, c, tx);
      case Foreign(headers) => ForeignPays(cfg, s, headers, tx);
      case _ =>
    }
  }

  // Legacy is called at most (budget + 1) times per transaction, once more
  // that many for every time its message was put back.
  lemma LegacyCallsBounded(cfg: Config, s: State, tx: TxId)
    requires ValidConfig(cfg) && Reachable(cfg, s)
    ensures CallsOf(s.calls, tx) <= (MaxAttempts(cfg) + 1) * (1 + Requeues(s, tx))
  {
    ReachableExactly(cfg, s);
    var pays := (x: State) => Inv(cfg, x) && Spending(cfg, x, tx) <= Allowance(cfg, x, tx);
    forall x, step | pays(x) && Enabled(cfg, x, step) ensures pays(Apply(cfg, x, step)) {
      StepKeepsInv(cfg, x, step);
      StepPays(cfg, x, step, tx);
    }
    assert StepClosed(cfg, pays);
    assert Requeues(Initial(), tx) == 0;
    assert pays(Initial());
  }
}
