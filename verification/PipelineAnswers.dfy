// What rows and event logs say about the calls made to legacy, in every
// reachable state.
module PipelineAnswers {
  import opened Common
  import opened Backoff
  import opened Headers
  import opened Pipeline
  import opened PipelineRuns
  import opened PipelineSafety
  import opened PipelineTheorems
  import opened PipelineBounds

  /******* A status is an answer of legacy *******/

  // Every SUCCESS was accepted by legacy, and every FAILED of a published
  // payment was refused by it.
  ghost predicate RowAnswered(s: State, t: TxId)
    requires t < |s.rows|
  {
    forall k :: 0 <= k < |s.rows[t].versions| ==> VersionAnswered(s, t, s.rows[t].versions[k].status)
  }

  predicate VersionAnswered(s: State, t: TxId, status: Status)
    requires t < |s.rows|
  {
    && (status == Success ==> Told(s, t, true))
    && (status == Failed && s.rows[t].birth.Some? ==> Told(s, t, false))
  }

  // Legacy, asked what the payment's own intake was asked, has answered ok.
  predicate Told(s: State, t: TxId, ok: bool)
    requires t < |s.rows|
  {
    s.rows[t].owner < |s.intakes| && Call(t, ok, s.intakes[s.rows[t].owner].request) in s.calls
  }

  // A worker about to record an answer has it from legacy.
  ghost predicate WorkerAnswered(s: State, w: nat)
    requires w < |s.workers|
  {
    s.workers[w].pc.UpdateRow? && s.workers[w].msg.body.Job? ==>
      Call(s.workers[w].msg.body.tx, s.workers[w].pc.ok, s.workers[w].msg.body.request) in s.calls
  }

  ghost predicate AnsweredOk(s: State) {
    && (forall t :: 0 <= t < |s.rows| ==> RowAnswered(s, t))
    && (forall w :: 0 <= w < |s.workers| ==> WorkerAnswered(s, w))
  }

  // What a call must bring so that statuses stay answers.
  ghost predicate EffectAnswered(s: State, e: Effect) {
    && EffectFits(s, e)
    && (e.InsertRow? ==> |e.row.versions| == 1 && e.row.versions[0].status == Processing)
    && (e.SetStatus? ==> VersionAnswered(s, e.tx, e.status))
    && (e.PublishNew? ==> forall k :: 0 <= k < |s.rows[e.tx].versions| ==> s.rows[e.tx].versions[k].status == Processing)
  }

  lemma EffectKeepsRows(s: State, e: Effect, t: TxId)
    requires EffectAnswered(s, e) && forall u :: 0 <= u < |s.rows| ==> RowAnswered(s, u)
    requires t < |Perform(s, e).rows|
    ensures RowAnswered(Perform(s, e), t)
  {
    CallsOnlyGrow(s, e);
    if t < |s.rows| {
      assert RowAnswered(s, t);
    }
  }

  lemma CallsOnlyGrow(s: State, e: Effect)
    requires EffectFits(s, e)
    ensures forall c <- s.calls :: c in Perform(s, e).calls
    ensures e.LogCall? ==> e.call in Perform(s, e).calls
  {
    if e.LogCall? {
      assert Perform(s, e).calls[|s.calls|] == e.call;
    }
  }

  lemma EffectKeepsAnswers(s: State, e: Effect)
    requires AnsweredOk(s) && EffectAnswered(s, e)
    ensures AnsweredOk(Perform(s, e))
  {
    forall t | 0 <= t < |Perform(s, e).rows| ensures RowAnswered(Perform(s, e), t) {
      EffectKeepsRows(s, e, t);
    }
    CallsOnlyGrow(s, e);
    forall w | 0 <= w < |Perform(s, e).workers| ensures WorkerAnswered(Perform(s, e), w) {
      assert WorkerAnswered(s, w);
    }
  }

  lemma IntakeAnswered(cfg: Config, s: State, i: nat, reply: Reply)
    requires Inv(cfg, s) && IntakeEnabled(s, i, reply)
    ensures EffectAnswered(s, IntakeEffect(s, i, reply))
  {
    assert IntakeOk(s, i);
    var pc := s.intakes[i].pc;
    if Owning(pc) {
      assert RowOk(s, pc.tx);
    }
  }

  lemma WorkerEffectAnswered(cfg: Config, s: State, w: nat, ok: bool)
    requires WorkerEnabled(s, w, ok) && WorkerAnswered(s, w) && MessageOk(cfg, s, s.workers[w].msg)
    ensures EffectAnswered(s, WorkerEffect(cfg, s, w, ok))
  {
  }

  lemma WorkerGotoAnswered(cfg: Config, s: State, w: nat, ok: bool)
    requires WorkerEnabled(s, w, ok) && WorkerGoto(cfg, s, w, ok).UpdateRow?
    ensures WorkerEffect(cfg, s, w, ok) == LogCall(Call(s.workers[w].msg.body.tx, WorkerGoto(cfg, s, w, ok).ok, s.workers[w].msg.body.request))
  {
  }

  lemma AtWorkerAnswered(s: State, w: nat, pc: WorkerPc)
    requires AnsweredOk(s) && w < |s.workers|
    requires pc.UpdateRow? && s.workers[w].msg.body.Job? ==>
               Call(s.workers[w].msg.body.tx, pc.ok, s.workers[w].msg.body.request) in s.calls
    ensures AnsweredOk(AtWorker(s, w, pc))
  {
    var s' := AtWorker(s, w, pc);
    forall t | 0 <= t < |s'.rows| ensures RowAnswered(s', t) {
      assert RowAnswered(s, t);
    }
    forall v | 0 <= v < |s'.workers| ensures WorkerAnswered(s', v) {
      assert WorkerAnswered(s, v);
    }
  }

  lemma AnsweredSame(s: State, s': State)
    requires AnsweredOk(s) && s'.rows == s.rows && s'.calls == s.calls && |s.intakes| <= |s'.intakes|
    requires forall i :: 0 <= i < |s.intakes| ==> s'.intakes[i].request == s.intakes[i].request
    requires forall w :: 0 <= w < |s'.workers| ==>
               s'.workers[w].pc.Decode? ||
               (w < |s.workers| && s'.workers[w].pc == s.workers[w].pc && s'.workers[w].msg == s.workers[w].msg)
    ensures AnsweredOk(s')
  {
    forall t | 0 <= t < |s'.rows| ensures RowAnswered(s', t) {
      assert RowAnswered(s, t);
    }
    forall w | 0 <= w < |s'.workers| ensures WorkerAnswered(s', w) {
      if w < |s.workers| {
        assert WorkerAnswered(s, w);
      }
    }
  }

  lemma WorkerKeepsAnswers(cfg: Config, s: State, w: nat, ok: bool)
    requires Inv(cfg, s) && AnsweredOk(s) && WorkerEnabled(s, w, ok)
    ensures AnsweredOk(WorkerNext(cfg, s, w, ok))
  {
    assert WorkerOk(cfg, s, w) && CopyOk(cfg, s, s.workers[w].copy);
    assert WorkerAnswered(s, w);
    var e := WorkerEffect(cfg, s, w, ok);
    WorkerEffectAnswered(cfg, s, w, ok);
    EffectKeepsAnswers(s, e);
    CallsOnlyGrow(s, e);
    WorkersStay(s, e);
    if WorkerGoto(cfg, s, w, ok).UpdateRow? {
      WorkerGotoAnswered(cfg, s, w, ok);
    }
    AtWorkerAnswered(Perform(s, e), w, WorkerGoto(cfg, s, w, ok));
  }

  lemma WorkersStay(s: State, e: Effect)
    requires EffectFits(s, e)
    ensures |Perform(s, e).workers| == |s.workers|
    ensures forall w :: 0 <= w < |s.workers| ==>
              Perform(s, e).workers[w].pc == s.workers[w].pc && Perform(s, e).workers[w].msg == s.workers[w].msg
  {
  }

  lemma StepKeepsAnswers(cfg: Config, s: State, step: Step)
    requires Inv(cfg, s) && AnsweredOk(s) && Enabled(cfg, s, step)
    ensures AnsweredOk(Apply(cfg, s, step))
  {
    match step {
      case IntakeStep(i, reply) =>
        IntakeAnswered(cfg, s, i, reply);
        EffectKeepsAnswers(s, IntakeEffect(s, i, reply));
        AnsweredSame(Perform(s, IntakeEffect(s, i, reply)), IntakeNext(s, i, reply));
      case WorkerStep(w, ok) => WorkerKeepsAnswers(cfg, s, w, ok);
      case _ => AnsweredSame(s, Apply(cfg, s, step));
    }
  }

  lemma ReachableAnswers(cfg: Config, s: State)
    requires ValidConfig(cfg) && Reachable(cfg, s)
    ensures AnsweredOk(s)
  {
    ReachableExactly(cfg, s);
    var kept := (x: State) => Inv(cfg, x) && AnsweredOk(x);
    forall x, step | kept(x) && Enabled(cfg, x, step) ensures kept(Apply(cfg, x, step)) {
      StepKeepsInv(cfg, x, step);
      StepKeepsAnswers(cfg, x, step);
    }
    assert StepClosed(cfg, kept);
    assert kept(Initial());
  }

  // Whatever fails or is repeated, a row is SUCCESS only if legacy has accepted
  // the payment, and a published one is FAILED only if legacy has refused it.
  lemma StatusIsAnAnswer(cfg: Config, s: State, tx: TxId, k: nat)
    requires ValidConfig(cfg) && Reachable(cfg, s)
    requires tx < |s.rows| && k < |s.rows[tx].versions|
    ensures s.rows[tx].owner < |s.intakes|
    ensures
      var request := s.intakes[s.rows[tx].owner].request;
      && (s.rows[tx].versions[k].status == Success ==> Call(tx, true, request) in s.calls)
      && (s.rows[tx].versions[k].status == Failed && s.rows[tx].birth.Some? ==> Call(tx, false, request) in s.calls)
  {
    ReachableAnswers(cfg, s);
    ReachableInv(cfg, s);
    assert RowAnswered(s, tx) && RowOk(s, tx);
    assert VersionAnswered(s, tx, s.rows[tx].versions[k].status);
  }

  // Legacy is only ever asked what the payment's own intake was asked.
  ghost predicate CallsAsked(s: State) {
    forall k :: 0 <= k < |s.calls| ==> CallAsked(s, s.calls[k])
  }

  predicate CallAsked(s: State, call: Call) {
    && call.tx < |s.rows| && s.rows[call.tx].owner < |s.intakes|
    && call.request == s.intakes[s.rows[call.tx].owner].request
  }

  lemma StepKeepsAsked(cfg: Config, s: State, step: Step)
    requires ValidConfig(cfg) && Inv(cfg, s) && CallsAsked(s) && Enabled(cfg, s, step)
    ensures CallsAsked(Apply(cfg, s, step))
  {
    var s' := Apply(cfg, s, step);
    StepGrows(cfg, s, step);
    forall k | 0 <= k < |s'.calls| ensures CallAsked(s', s'.calls[k]) {
      if k < |s.calls| {
        CallsStay(cfg, s, step, k);
        assert CallAsked(s, s.calls[k]) && RowGrows(s.rows[s.calls[k].tx], s'.rows[s.calls[k].tx]);
      } else {
        NewCallAsked(cfg, s, step, k);
      }
    }
  }

  lemma CallsStay(cfg: Config, s: State, step: Step, k: nat)
    requires Enabled(cfg, s, step) && k < |s.calls|
    ensures k < |Apply(cfg, s, step).calls| && Apply(cfg, s, step).calls[k] == s.calls[k]
  {
    match step {
      case IntakeStep(i, reply) => CallStays(s, IntakeEffect(s, i, reply), k);
      case WorkerStep(w, ok) => CallStays(s, WorkerEffect(cfg, s, w, ok), k);
      case _ =>
    }
  }

  lemma CallStays(s: State, e: Effect, k: nat)
    requires EffectFits(s, e) && k < |s.calls|
    ensures k < |Perform(s, e).calls| && Perform(s, e).calls[k] == s.calls[k]
  {
  }

  lemma NewCallAsked(cfg: Config, s: State, step: Step, k: nat)
    requires Inv(cfg, s) && Enabled(cfg, s, step) && |s.calls| <= k < |Apply(cfg, s, step).calls|
    ensures CallAsked(Apply(cfg, s, step), Apply(cfg, s, step).calls[k])
  {
    match step {
      case IntakeStep(i, reply) => IntakeAsksNothing(s, i, reply);
      case WorkerStep(w, ok) => WorkerAsks(cfg, s, w, ok, k);
      case _ =>
    }
  }

  lemma IntakeAsksNothing(s: State, i: nat, reply: Reply)
    requires IntakeEnabled(s, i, reply)
    ensures IntakeNext(s, i, reply).calls == s.calls
  {
  }

  lemma WorkerAsks(cfg: Config, s: State, w: nat, ok: bool, k: nat)
    requires Inv(cfg, s) && WorkerEnabled(s, w, ok) && |s.calls| <= k < |WorkerNext(cfg, s, w, ok).calls|
    ensures CallAsked(WorkerNext(cfg, s, w, ok), WorkerNext(cfg, s, w, ok).calls[k])
  {
    assert WorkerOk(cfg, s, w) && CopyOk(cfg, s, s.workers[w].copy);
    AddedCall(cfg, s, w, ok, k);
    AskedAfter(s, WorkerEffect(cfg, s, w, ok));
  }

  lemma AddedCall(cfg: Config, s: State, w: nat, ok: bool, k: nat)
    requires WorkerEnabled(s, w, ok) && |s.calls| <= k < |WorkerNext(cfg, s, w, ok).calls|
    ensures s.workers[w].pc.CallLegacy? && k == |s.calls|
    ensures
      var body := s.workers[w].msg.body;
      && WorkerEffect(cfg, s, w, ok) == LogCall(Call(body.tx, ok, body.request))
      && WorkerNext(cfg, s, w, ok).calls[k] == Call(body.tx, ok, body.request)
  {
  }

  lemma AskedAfter(s: State, e: Effect)
    requires EffectFits(s, e) && e.LogCall?
    ensures Perform(s, e).rows == s.rows && Perform(s, e).intakes == s.intakes
  {
  }

  // Every call of legacy carries the request of the intake that inserted the row.
  lemma LegacyAskedAsRequested(cfg: Config, s: State, k: nat)
    requires ValidConfig(cfg) && Reachable(cfg, s) && k < |s.calls|
    ensures
      var call := s.calls[k];
      && call.tx < |s.rows| && s.rows[call.tx].owner < |s.intakes|
      && call.request == s.intakes[s.rows[call.tx].owner].request
  {
    ReachableExactly(cfg, s);
    var asked := (x: State) => Inv(cfg, x) && CallsAsked(x);
    forall x, step | asked(x) && Enabled(cfg, x, step) ensures asked(Apply(cfg, x, step)) {
      StepKeepsInv(cfg, x, step);
      StepKeepsAsked(cfg, x, step);
    }
    assert StepClosed(cfg, asked);
    assert asked(Initial());
    assert CallAsked(s, s.calls[k]);
  }

  /******* The event log counts the calls *******/

  // How often the log says that a worker started on the transaction.
  function Starts(events: seq<Event>): nat {
    if |events| == 0 then 0
    else Starts(events[..|events| - 1]) + if events[|events| - 1].kind == WorkerStarted then 1 else 0
  }

  lemma StartsAppend(events: seq<Event>, event: Event)
    ensures Starts(events + [event]) == Starts(events) + if event.kind == WorkerStarted then 1 else 0
  {
    assert (events + [event])[..|events|] == events;
  }

  function IsAboutToCall(worker: Worker, tx: TxId): nat {
    if About(worker.msg, tx) && worker.pc.CallLegacy? then 1 else 0
  }

  function AboutToCallEach(workers: seq<Worker>, tx: TxId): (r: seq<nat>)
    ensures |r| == |workers|
    ensures forall k :: 0 <= k < |r| ==> r[k] == IsAboutToCall(workers[k], tx)
  {
    seq(|workers|, k requires 0 <= k < |workers| => IsAboutToCall(workers[k], tx))
  }

  // Handlers that have logged their start and not yet called legacy.
  function AboutToCall(workers: seq<Worker>, tx: TxId): nat { Sum(AboutToCallEach(workers, tx)) }

  lemma AboutUpdate(workers: seq<Worker>, w: nat, worker: Worker, tx: TxId)
    requires w < |workers|
    ensures AboutToCall(workers[w := worker], tx) + IsAboutToCall(workers[w], tx) ==
            AboutToCall(workers, tx) + IsAboutToCall(worker, tx)
  {
    SumUpdate(AboutToCallEach(workers, tx), w, IsAboutToCall(worker, tx));
    assert AboutToCallEach(workers[w := worker], tx) == AboutToCallEach(workers, tx)[w := IsAboutToCall(worker, tx)];
  }

  lemma AboutAppend(workers: seq<Worker>, worker: Worker, tx: TxId)
    ensures AboutToCall(workers + [worker], tx) == AboutToCall(workers, tx) + IsAboutToCall(worker, tx)
  {
    SumAppend(AboutToCallEach(workers, tx), IsAboutToCall(worker, tx));
    assert AboutToCallEach(workers + [worker], tx) == AboutToCallEach(workers, tx) + [IsAboutToCall(worker, tx)];
  }

  // Handlers that have started, less those that have called.
  function StartsOf(s: State, tx: TxId): nat { if tx < |s.rows| then Starts(s.rows[tx].events) else 0 }

  predicate Counted(s: State, tx: TxId) {
    StartsOf(s, tx) == CallsOf(s.calls, tx) + AboutToCall(s.workers, tx)
  }

  function StartsLogged(e: Effect, tx: TxId): nat {
    if e.LogEvent? && e.tx == tx && e.event.kind == WorkerStarted then 1 else 0
  }

  function CallsLogged(e: Effect, tx: TxId): nat { if e.LogCall? && e.call.tx == tx then 1 else 0 }

  lemma EffectCounts(s: State, e: Effect, tx: TxId)
    requires EffectFits(s, e) && (e.InsertRow? ==> e.row.events == [])
    ensures StartsOf(Perform(s, e), tx) == StartsOf(s, tx) + StartsLogged(e, tx)
    ensures CallsOf(Perform(s, e).calls, tx) == CallsOf(s.calls, tx) + CallsLogged(e, tx)
  {
    if e.LogCall? {
      CallsAppend(s.calls, tx, e.call);
    }
    if e.LogEvent? {
      StartsAppend(s.rows[e.tx].events, e.event);
    }
  }

  // A worker's start, its call and its standing move together.
  lemma WorkerCounts(cfg: Config, s: State, w: nat, ok: bool, tx: TxId)
    requires WorkerEnabled(s, w, ok) && WorkerOk(cfg, s, w)
    ensures
      var e, pc := WorkerEffect(cfg, s, w, ok), WorkerGoto(cfg, s, w, ok);
      && !e.InsertRow?
      && StartsLogged(e, tx) + IsAboutToCall(s.workers[w], tx) == CallsLogged(e, tx) + IsAboutToCall(s.workers[w].(pc := pc), tx)
      && (e.Settle? ==> e.w == w && pc.Finished? && !s.workers[w].pc.CallLegacy?)
  {
  }

  lemma WorkerStepCounts(cfg: Config, s: State, w: nat, ok: bool, tx: TxId)
    requires Inv(cfg, s) && WorkerEnabled(s, w, ok) && Counted(s, tx)
    ensures Counted(WorkerNext(cfg, s, w, ok), tx)
  {
    assert WorkerOk(cfg, s, w);
    var e, pc := WorkerEffect(cfg, s, w, ok), WorkerGoto(cfg, s, w, ok);
    WorkerCounts(cfg, s, w, ok, tx);
    EffectCounts(s, e, tx);
    WorkersAfter(s, e, w, pc);
    AboutUpdate(s.workers, w, WorkerNext(cfg, s, w, ok).workers[w], tx);
  }

  lemma WorkersAfter(s: State, e: Effect, w: nat, pc: WorkerPc)
    requires EffectFits(s, e) && w < |s.workers| && (e.Settle? ==> e.w == w)
    ensures
      var worker := s.workers[w].(pc := pc);
      AtWorker(Perform(s, e), w, pc).workers == s.workers[w := if e.Settle? then worker.(attached := false) else worker]
  {
  }

  lemma IntakeCounts(cfg: Config, s: State, i: nat, reply: Reply, tx: TxId)
    requires Inv(cfg, s) && IntakeEnabled(s, i, reply) && Counted(s, tx)
    ensures Counted(IntakeNext(s, i, reply), tx)
  {
    var e := IntakeEffect(s, i, reply);
    IntakeEffectOk(cfg, s, i, reply);
    IntakeLogsNoStart(s, i, reply, tx);
    EffectCounts(s, e, tx);
    assert Perform(s, e).workers == s.workers;
  }

  lemma IntakeLogsNoStart(s: State, i: nat, reply: Reply, tx: TxId)
    requires IntakeEnabled(s, i, reply)
    ensures
      var e := IntakeEffect(s, i, reply);
      StartsLogged(e, tx) == 0 && CallsLogged(e, tx) == 0 && !e.Settle?
  {
  }

  lemma StepCounts(cfg: Config, s: State, step: Step, tx: TxId)
    requires Inv(cfg, s) && Enabled(cfg, s, step) && Counted(s, tx)
    ensures Counted(Apply(cfg, s, step), tx)
  {
    match step {
      case IntakeStep(i, reply) => IntakeCounts(cfg, s, i, reply, tx);
      case WorkerStep(w, ok) => WorkerStepCounts(cfg, s, w, ok, tx);
      case Deliver(c) => AboutAppend(s.workers, Worker(s.copies[c].msg, c, true, Decode), tx);
      case DropConnection(w) => AboutUpdate(s.workers, w, s.workers[w].(attached := false), tx);
      case _ =>
    }
  }

  // Legacy has been called for a payment exactly as often as its event log
  // records a worker's start, not counting handlers about to make their call.
  lemma CallsMatchLog(cfg: Config, s: State, tx: TxId)
    requires ValidConfig(cfg) && Reachable(cfg, s) && tx < |s.rows|
    ensures CallsOf(s.calls, tx) == Starts(s.rows[tx].events) - AboutToCall(s.workers, tx)
  {
    ReachableExactly(cfg, s);
    var counted := (x: State) => Inv(cfg, x) && Counted(x, tx);
    forall x, step | counted(x) && Enabled(cfg, x, step) ensures counted(Apply(cfg, x, step)) {
      StepKeepsInv(cfg, x, step);
      StepCounts(cfg, x, step, tx);
    }
    assert StepClosed(cfg, counted);
    assert counted(Initial());
  }
}
