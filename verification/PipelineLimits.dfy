// What the pipeline does not promise, and exactly when it fails to hold: each
// with a run in which it does.
module PipelineLimits {
  import opened Common
  import opened Backoff
  import opened Headers
  import opened Pipeline
  import opened PipelineRuns
  import opened PipelineSafety
  import opened PipelineTheorems
  import opened PipelineBounds
  import opened PipelineAnswers

  /******* Unfinished payments without a message *******/

  // An unfinished payment has a message in some queue exactly if its intake
  // got past publishing. One that failed before leaves a PROCESSING row alone.
  lemma MessageExactly(cfg: Config, s: State, tx: TxId)
    requires ValidConfig(cfg) && Reachable(cfg, s)
    requires tx < |s.rows| && !IsTerminal(s, tx)
    ensures (exists c :: Carries(s, c, tx)) <==> s.rows[tx].birth.Some?
  {
    ReachableInv(cfg, s);
    if s.rows[tx].birth.Some? {
      assert Kept(s, tx);
      var c :| Holds(s, c, tx);
      assert Carries(s, c, tx);
    }
    if c :| Carries(s, c, tx) {
      assert CopyOk(cfg, s, c);
    }
  }

  /******* SUCCESS becoming FAILED *******/

  // A SUCCESS becomes FAILED exactly when another handler of the same payment
  // records that legacy has refused it.
  lemma SuccessLostExactly(cfg: Config, s: State, step: Step, tx: TxId)
    requires ValidConfig(cfg) && Reachable(cfg, s) && Enabled(cfg, s, step)
    requires tx < |s.rows| && |s.rows[tx].versions| > 0 && Current(s.rows[tx]).status == Success
    ensures
      var s' := Apply(cfg, s, step);
      && tx < |s'.rows| && |s'.rows[tx].versions| > 0
      && (Current(s'.rows[tx]).status != Success <==> RecordsRefusal(s, step, tx))
      && (RecordsRefusal(s, step, tx) ==> Current(s'.rows[tx]).status == Failed)
  {
    ReachableInv(cfg, s);
    match step {
      case IntakeStep(i, reply) =>
        IntakeLeavesSuccess(cfg, s, i, reply, tx);
        StatusAfter(s, IntakeEffect(s, i, reply), tx);
      case WorkerStep(w, ok) =>
        assert WorkerOk(cfg, s, w);
        WorkerRecords(cfg, s, w, ok, tx);
      case _ =>
    }
  }

  lemma WorkerRecords(cfg: Config, s: State, w: nat, ok: bool, tx: TxId)
    requires WorkerEnabled(s, w, ok) && WorkerOk(cfg, s, w)
    requires tx < |s.rows| && |s.rows[tx].versions| > 0 && Current(s.rows[tx]).status == Success
    ensures
      var s' := WorkerNext(cfg, s, w, ok);
      && tx < |s'.rows| && |s'.rows[tx].versions| > 0
      && Current(s'.rows[tx]).status == if RecordsRefusal(s, WorkerStep(w, ok), tx) then Status.Failed else Status.Success
  {
    StatusAfter(s, WorkerEffect(cfg, s, w, ok), tx);
    RecordsOf(cfg, s, w, ok, tx);
  }

  // The step is a handler of tx writing FAILED into its row.
  predicate RecordsRefusal(s: State, step: Step, tx: TxId) {
    && step.WorkerStep? && step.ok && step.w < |s.workers|
    && s.workers[step.w].pc == UpdateRow(false) && About(s.workers[step.w].msg, tx)
  }

  lemma StatusAfter(s: State, e: Effect, tx: TxId)
    requires EffectFits(s, e) && tx < |s.rows| && |s.rows[tx].versions| > 0
    ensures
      var s' := Perform(s, e);
      && tx < |s'.rows| && |s'.rows[tx].versions| > 0
      && Current(s'.rows[tx]).status == if e.SetStatus? && e.tx == tx then e.status else Current(s.rows[tx]).status
  {
  }

  lemma RecordsOf(cfg: Config, s: State, w: nat, ok: bool, tx: TxId)
    requires WorkerEnabled(s, w, ok) && WorkerOk(cfg, s, w)
    ensures WorkerEffect(cfg, s, w, ok) == SetStatus(tx, Failed) <==> RecordsRefusal(s, WorkerStep(w, ok), tx)
    ensures
      var e := WorkerEffect(cfg, s, w, ok);
      e.SetStatus? && e.tx == tx ==> e.status == Success || e.status == Failed
  {
  }

  lemma IntakeLeavesSuccess(cfg: Config, s: State, i: nat, reply: Reply, tx: TxId)
    requires Inv(cfg, s) && IntakeEnabled(s, i, reply)
    requires tx < |s.rows| && |s.rows[tx].versions| > 0 && Current(s.rows[tx]).status == Success
    ensures var e := IntakeEffect(s, i, reply); !(e.SetStatus? && e.tx == tx)
  {
    assert IntakeOk(s, i);
    var pc := s.intakes[i].pc;
    if pc.CompensateRow? {
      assert RowOk(s, pc.tx);
    }
  }

  /******* A second legacy call *******/

  // Legacy is called once more for a payment exactly when a handler of it that
  // has logged its start takes its turn, whatever legacy has answered before.
  lemma NextCallExactly(cfg: Config, s: State, step: Step, tx: TxId)
    requires ValidConfig(cfg) && Reachable(cfg, s) && Enabled(cfg, s, step)
    ensures
      CallsOf(Apply(cfg, s, step).calls, tx) ==
      CallsOf(s.calls, tx) + if Calls(s, step, tx) then 1 else 0
  {
    ReachableInv(cfg, s);
    match step {
      case IntakeStep(i, reply) =>
        IntakeLogsNoStart(s, i, reply, tx);
        CallsAfter(s, IntakeEffect(s, i, reply), tx);
      case WorkerStep(w, ok) =>
        assert WorkerOk(cfg, s, w);
        WorkerCalls(cfg, s, w, ok, tx);
      case _ =>
    }
  }

  lemma WorkerCalls(cfg: Config, s: State, w: nat, ok: bool, tx: TxId)
    requires WorkerEnabled(s, w, ok) && WorkerOk(cfg, s, w)
    ensures CallsOf(WorkerNext(cfg, s, w, ok).calls, tx) ==
            CallsOf(s.calls, tx) + if Calls(s, WorkerStep(w, ok), tx) then 1 else 0
  {
    CallsAfter(s, WorkerEffect(cfg, s, w, ok), tx);
  }

  predicate Calls(s: State, step: Step, tx: TxId) {
    step.WorkerStep? && step.w < |s.workers| && IsAboutToCall(s.workers[step.w], tx) == 1
  }

  lemma CallsAfter(s: State, e: Effect, tx: TxId)
    requires EffectFits(s, e)
    ensures CallsOf(Perform(s, e).calls, tx) == CallsOf(s.calls, tx) + CallsLogged(e, tx)
  {
    if e.LogCall? {
      CallsAppend(s.calls, tx, e.call);
    }
  }

  // Legacy has been called more than once exactly if the log records more than
  // one start beyond those of handlers still to call.
  lemma CalledTwiceExactly(cfg: Config, s: State, tx: TxId)
    requires ValidConfig(cfg) && Reachable(cfg, s) && tx < |s.rows|
    ensures CallsOf(s.calls, tx) >= 2 <==> Starts(s.rows[tx].events) >= 2 + AboutToCall(s.workers, tx)
  {
    CallsMatchLog(cfg, s, tx);
  }

  /******* Runs in which these happen *******/

  const PAY := TransferRequest("a", "b", "0", 1, "k")

  // The row of the payment with the given versions, log and publish.
  function PayRow(versions: seq<Version>, events: seq<Event>, birth: Option<Birth>): Row {
    Row("k", 0, None, 1, 0, versions, events, 0, birth)
  }

  const PENDING := Version(Processing, None, 0)
  const CREATED := Event(TransferCreated, TransferTo("b"))

  // The state with one payment, whose intake stands at pc.
  function PayState(row: Row, cache: map<TxId, Entry>, pc: IntakePc, fills: multiset<Entry>): State {
    State(0, map["a" := 0], [row], cache, [Intake(PAY, pc)], [], [], fills, [], [], [], [])
  }

  lemma Go(cfg: Config, s: State, step: Step, s': State)
    requires Reachable(cfg, s) && Enabled(cfg, s, step) && s' == Apply(cfg, s, step)
    ensures Reachable(cfg, s')
  {
    StepReaches(cfg, s, step);
  }

  // The intake has found no row of its key, and its account.
  lemma ReadyToInsert(cfg: Config)
    ensures Reachable(cfg, Initial().(accounts := map["a" := 0], intakes := [Intake(PAY, Insert(0, None))]))
  {
    InitialReachable(cfg);
    var s := Initial();
    var s1 := s.(accounts := map["a" := 0]);
    Go(cfg, s, AddAccount("a", 0), s1);
    var s2 := s1.(intakes := [Intake(PAY, LookupKey)]);
    Go(cfg, s1, Arrive(PAY), s2);
    var s3 := s1.(intakes := [Intake(PAY, LoadAccount)]);
    Go(cfg, s2, IntakeStep(0, Okay), s3);
    Go(cfg, s3, IntakeStep(0, Okay), s1.(intakes := [Intake(PAY, Insert(0, None))]));
  }

  // It has just inserted its row.
  lemma Inserted(cfg: Config)
    ensures Reachable(cfg, PayState(PayRow([PENDING], [], None), map[], WriteCreated(0), multiset{}))
  {
    ReadyToInsert(cfg);
    var s := Initial().(accounts := map["a" := 0], intakes := [Intake(PAY, Insert(0, None))]);
    Go(cfg, s, IntakeStep(0, Okay), PayState(PayRow([PENDING], [], None), map[], WriteCreated(0), multiset{}));
  }

  // The event write fails: a PROCESSING row that no message will ever finish.
  lemma RowWithoutMessage(cfg: Config) returns (s: State)
    ensures Reachable(cfg, s)
    ensures s.rows == [PayRow([PENDING], [], None)] && s.copies == [] && s.intakes == [Intake(PAY, Done(Failure))]
  {
    Inserted(cfg);
    var before := PayState(PayRow([PENDING], [], None), map[], WriteCreated(0), multiset{});
    s := PayState(PayRow([PENDING], [], None), map[], Done(Failure), multiset{});
    Go(cfg, before, IntakeStep(0, Broken), s);
  }

  const PENDING_ENTRY := Entry(0, Processing, 0, None, 0)
  const FAILED_ENTRY := Entry(0, Status.Failed, 0, Some(0), 0)
  const REFUSED := Version(Status.Failed, Some(0), 0)

  // A reader reads the row before it is cached; the publish fails; the failure
  // is cached; and the reader's fill puts PROCESSING back.
  lemma CacheTurnsBack(cfg: Config) returns (s: State, step: Step)
    ensures Reachable(cfg, s) && Enabled(cfg, s, step)
    ensures s.cache == map[0 := FAILED_ENTRY]
    ensures Apply(cfg, s, step).cache == map[0 := PENDING_ENTRY]
  {
    Inserted(cfg);
    var fills := multiset{PENDING_ENTRY};
    var row := PayRow([PENDING], [], None);
    var s0 := PayState(row, map[], WriteCreated(0), multiset{});
    var s1 := PayState(row, map[], WriteCreated(0), fills);
    Go(cfg, s0, ReadRow(0), s1);
    var logged := PayRow([PENDING], [CREATED], None);
    assert [] + [CREATED] == [CREATED];
    var s2 := PayState(logged, map[], CacheNew(0), fills);
    Go(cfg, s1, IntakeStep(0, Okay), s2);
    s := PublishFails(cfg, logged, fills);
    step := FillCache(PENDING_ENTRY, true);
  }

  lemma PublishFails(cfg: Config, row: Row, fills: multiset<Entry>) returns (s: State)
    requires row == PayRow([PENDING], [CREATED], None)
    requires Reachable(cfg, PayState(row, map[], CacheNew(0), fills))
    ensures Reachable(cfg, s) && s.cache == map[0 := FAILED_ENTRY] && s.fills == fills
  {
    var pending := map[0 := PENDING_ENTRY];
    var s1 := PayState(row, pending, Publish(0), fills);
    Go(cfg, PayState(row, map[], CacheNew(0), fills), IntakeStep(0, Okay), s1);
    Go(cfg, s1, IntakeStep(0, Broken), PayState(row, pending, CompensateRow(0), fills));
    s := Compensated(cfg, row, pending, fills);
  }

  lemma Compensated(cfg: Config, row: Row, cache: map<TxId, Entry>, fills: multiset<Entry>) returns (s: State)
    requires row == PayRow([PENDING], [CREATED], None) && cache == map[0 := PENDING_ENTRY]
    requires Reachable(cfg, PayState(row, cache, CompensateRow(0), fills))
    ensures Reachable(cfg, s) && s.cache == map[0 := FAILED_ENTRY] && s.fills == fills
  {
    var failed := PayRow([PENDING, REFUSED], [CREATED], None);
    assert [PENDING] + [REFUSED] == [PENDING, REFUSED];
    var s1 := PayState(failed, cache, CompensateCache(0, FAILED_ENTRY), fills);
    Go(cfg, PayState(row, cache, CompensateRow(0), fills), IntakeStep(0, Okay), s1);
    s := PayState(failed, map[0 := FAILED_ENTRY], CompensateEvent(0), fills);
    Go(cfg, s1, IntakeStep(0, Okay), s);
  }

  /******* Two handlers of one message *******/

  const JOB := Message(Job(0, 0, None, PAY), InitialHeaders(0))
  const BORN := Some(Birth(0, 0))
  const STARTED := Event(WorkerStarted, NoDestination)

  // The published payment with one message, after the given history.
  function PaidState(row: Row, place: Place, workers: seq<Worker>, calls: seq<Call>, requeues: seq<TxId>): State {
    State(0, map["a" := 0], [row], map[0 := PENDING_ENTRY], [Intake(PAY, WriteEnqueued(0))],
          [Copy(JOB, place)], workers, multiset{}, calls, requeues, [0], [])
  }

  lemma Published(cfg: Config)
    ensures Reachable(cfg, PaidState(PayRow([PENDING], [CREATED], BORN), Primary, [], [], []))
  {
    Inserted(cfg);
    var s0 := PayState(PayRow([PENDING], [], None), map[], WriteCreated(0), multiset{});
    var row := PayRow([PENDING], [CREATED], None);
    assert [] + [CREATED] == [CREATED];
    var s1 := PayState(row, map[], CacheNew(0), multiset{});
    Go(cfg, s0, IntakeStep(0, Okay), s1);
    var s2 := PayState(row, map[0 := PENDING_ENTRY], Publish(0), multiset{});
    Go(cfg, s1, IntakeStep(0, Okay), s2);
    Go(cfg, s2, IntakeStep(0, Okay), PaidState(PayRow([PENDING], [CREATED], BORN), Primary, [], [], []));
  }

  // The message is delivered, its connection is lost, and it is delivered
  // again; the first handler runs on.
  lemma DeliveredTwice(cfg: Config)
    ensures Reachable(cfg, PaidState(PayRow([PENDING], [CREATED], BORN), Unacked(1),
                                     [Worker(JOB, 0, false, Decode), Worker(JOB, 0, true, Decode)], [], [0]))
  {
    Published(cfg);
    var row := PayRow([PENDING], [CREATED], BORN);
    var s0 := PaidState(row, Primary, [], [], []);
    var s1 := PaidState(row, Unacked(0), [Worker(JOB, 0, true, Decode)], [], []);
    Go(cfg, s0, Deliver(0), s1);
    var s2 := PaidState(row, Primary, [Worker(JOB, 0, false, Decode)], [], [0]);
    Go(cfg, s1, DropConnection(0), s2);
    Go(cfg, s2, Deliver(0), PaidState(row, Unacked(1), [Worker(JOB, 0, false, Decode), Worker(JOB, 0, true, Decode)], [], [0]));
  }

  // Two handlers of the message, the first cut off from its channel.
  function Two(versions: seq<Version>, events: seq<Event>, first: WorkerPc, second: WorkerPc, calls: seq<Call>): State {
    PaidState(PayRow(versions, events, BORN), Unacked(1),
              [Worker(JOB, 0, false, first), Worker(JOB, 0, true, second)], calls, [0])
  }

  const ONE_START := [CREATED, STARTED]
  const TWO_STARTS := [CREATED, STARTED, STARTED]

  lemma FirstStarts(cfg: Config)
    ensures Reachable(cfg, Two([PENDING], ONE_START, CallLegacy, Decode, []))
  {
    DeliveredTwice(cfg);
    var s0 := Two([PENDING], [CREATED], Decode, Decode, []);
    var s1 := Two([PENDING], [CREATED], StartEvent, Decode, []);
    Go(cfg, s0, WorkerStep(0, true), s1);
    assert [CREATED] + [STARTED] == ONE_START;
    Go(cfg, s1, WorkerStep(0, true), Two([PENDING], ONE_START, CallLegacy, Decode, []));
  }

  lemma FirstCalls(cfg: Config)
    ensures Reachable(cfg, Two([PENDING], ONE_START, UpdateRow(true), Decode, [Call(0, true, PAY)]))
  {
    FirstStarts(cfg);
    var s := Two([PENDING], ONE_START, CallLegacy, Decode, []);
    assert [] + [Call(0, true, PAY)] == [Call(0, true, PAY)];
    Go(cfg, s, WorkerStep(0, true), Two([PENDING], ONE_START, UpdateRow(true), Decode, [Call(0, true, PAY)]));
  }

  lemma BothCall(cfg: Config)
    ensures Reachable(cfg, Two([PENDING], TWO_STARTS, UpdateRow(true), UpdateRow(false), [Call(0, true, PAY), Call(0, false, PAY)]))
  {
    FirstCalls(cfg);
    var done := UpdateRow(true);
    var s0 := Two([PENDING], ONE_START, done, Decode, [Call(0, true, PAY)]);
    var s1 := Two([PENDING], ONE_START, done, StartEvent, [Call(0, true, PAY)]);
    Go(cfg, s0, WorkerStep(1, true), s1);
    assert ONE_START + [STARTED] == TWO_STARTS;
    var s2 := Two([PENDING], TWO_STARTS, done, CallLegacy, [Call(0, true, PAY)]);
    Go(cfg, s1, WorkerStep(1, true), s2);
    assert [Call(0, true, PAY)] + [Call(0, false, PAY)] == [Call(0, true, PAY), Call(0, false, PAY)];
    Go(cfg, s2, WorkerStep(1, false), Two([PENDING], TWO_STARTS, done, UpdateRow(false), [Call(0, true, PAY), Call(0, false, PAY)]));
  }

  const PAID := Version(Status.Success, Some(0), 0)

  const BOTH_CALLS := [Call(0, true, PAY), Call(0, false, PAY)]

  // The first handler has recorded its SUCCESS; the second is about to record
  // that legacy has refused the payment.
  function PaidAndRefused(): State {
    Two([PENDING, PAID], TWO_STARTS, CacheResult(true, Entry(0, Status.Success, 0, Some(0), 0)), UpdateRow(false), BOTH_CALLS)
  }

  lemma FirstRecords(cfg: Config)
    ensures Reachable(cfg, PaidAndRefused())
  {
    BothCall(cfg);
    var s := Two([PENDING], TWO_STARTS, UpdateRow(true), UpdateRow(false), BOTH_CALLS);
    assert [PENDING] + [PAID] == [PENDING, PAID];
    Go(cfg, s, WorkerStep(0, true), PaidAndRefused());
  }

  lemma SecondRecords(cfg: Config)
    ensures Enabled(cfg, PaidAndRefused(), WorkerStep(1, true))
    ensures Apply(cfg, PaidAndRefused(), WorkerStep(1, true)).rows == [PayRow([PENDING, PAID, REFUSED], TWO_STARTS, BORN)]
  {
    assert [PENDING, PAID] + [REFUSED] == [PENDING, PAID, REFUSED];
  }

  lemma CalledTwice()
    ensures CallsOf(BOTH_CALLS, 0) == 2
  {
    CallsAppend([Call(0, true, PAY)], 0, Call(0, false, PAY));
    CallsAppend([], 0, Call(0, true, PAY));
    assert [] + [Call(0, true, PAY)] == [Call(0, true, PAY)] && [Call(0, true, PAY)] + [Call(0, false, PAY)] == BOTH_CALLS;
  }

  // Legacy is called twice for one payment, accepts it and then refuses it; the
  // row is SUCCESS, and the next step makes it FAILED.
  lemma SuccessTurnsFailed(cfg: Config) returns (s: State, step: Step)
    ensures Reachable(cfg, s) && Enabled(cfg, s, step)
    ensures s.calls == [Call(0, true, PAY), Call(0, false, PAY)] && CallsOf(s.calls, 0) == 2
    ensures s.rows == [PayRow([PENDING, PAID], TWO_STARTS, BORN)]
    ensures Apply(cfg, s, step).rows == [PayRow([PENDING, PAID, REFUSED], TWO_STARTS, BORN)]
  {
    FirstRecords(cfg);
    SecondRecords(cfg);
    CalledTwice();
    s, step := PaidAndRefused(), WorkerStep(1, true);
  }
}
