// Runs in which every database, cache and broker call succeeds. Legacy may
// still refuse a payment: that is an answer, not a fault.
module PipelineExactlyOnce {
  import opened Common
  import opened Backoff
  import opened Headers
  import opened Pipeline
  import opened PipelineSafety
  import opened PipelineTheorems

  // The answers legacy has given for one transaction, in order.
  function Answers(calls: seq<Call>, tx: TxId): seq<bool> {
    if |calls| == 0 then []
    else
      var last := calls[|calls| - 1];
      Answers(calls[..|calls| - 1], tx) + if last.tx == tx then [last.ok] else []
  }

  lemma AnswersAppend(calls: seq<Call>, tx: TxId, call: Call)
    ensures Answers(calls + [call], tx) == Answers(calls, tx) + if call.tx == tx then [call.ok] else []
  {
    assert (calls + [call])[..|calls|] == calls;
  }

  predicate CleanStep(s: State, step: Step) {
    match step
    case IntakeStep(_, reply) => reply != Broken
    case WorkerStep(w, ok) => ok || (w < |s.workers| && s.workers[w].pc.CallLegacy?)
    case DropConnection(_) => false
    case _ => true
  }

  ghost predicate CleanRun(cfg: Config, r: Run)
    requires ValidRun(cfg, r)
  {
    forall k :: 0 <= k < |r.steps| ==> CleanStep(r.states[k], r.steps[k])
  }

  /******* Where each transaction stands *******/

  ghost predicate Untouched(s: State, t: TxId) {
    t < |s.rows| && Answers(s.calls, t) == [] && |s.rows[t].versions| == 1
  }

  ghost predicate Called(s: State, t: TxId, ok: bool) {
    t < |s.rows| && Answers(s.calls, t) == [ok] && |s.rows[t].versions| == 1
  }

  // One legacy call, one status update, and the status says how it went.
  ghost predicate SettledOnce(s: State, t: TxId) {
    && t < |s.rows|
    && |Answers(s.calls, t)| == 1
    && |s.rows[t].versions| == 2
    && Current(s.rows[t]).status == if Answers(s.calls, t)[0] then Success else Failed
  }

  ghost predicate StageOk(s: State, t: TxId, pc: WorkerPc) {
    match pc
    case Decode => Untouched(s, t)
    case StartEvent => Untouched(s, t)
    case CallLegacy => Untouched(s, t)
    case UpdateRow(ok) => Called(s, t, ok)
    case CacheResult(_, _) => SettledOnce(s, t)
    case DropBalance => SettledOnce(s, t)
    case FinalEvent(_) => SettledOnce(s, t)
    case AckDone => SettledOnce(s, t)
    case _ => false
  }

  ghost predicate CleanRow(s: State, t: TxId)
    requires t < |s.rows|
  {
    match s.rows[t].birth
    case None => Untouched(s, t)
    case Some(b) => b.copy < |s.copies| && s.copies[b.copy].msg.body.Job? && s.copies[b.copy].msg.body.tx == t
  }

  ghost predicate CleanCopy(s: State, c: nat)
    requires c < |s.copies|
  {
    s.copies[c].msg.body.Job? ==>
      var t := s.copies[c].msg.body.tx;
      && t < |s.rows| && s.rows[t].birth.Some? && s.rows[t].birth.value.copy == c
      && match s.copies[c].place
         case Primary => Untouched(s, t)
         case Unacked(w) => w < |s.workers| && StageOk(s, t, s.workers[w].pc)
         case Gone => SettledOnce(s, t)
         case _ => false
  }

  ghost predicate CleanWorker(s: State, w: nat)
    requires w < |s.workers|
  {
    s.workers[w].pc.Finished? || s.workers[w].attached
  }

  ghost predicate CleanIntake(s: State, i: nat)
    requires i < |s.intakes|
  {
    var pc := s.intakes[i].pc;
    !pc.CompensateRow? && !pc.CompensateCache? && !pc.CompensateEvent?
  }

  ghost predicate Clean(s: State) {
    && (forall t :: 0 <= t < |s.rows| ==> CleanRow(s, t))
    && (forall c :: 0 <= c < |s.copies| ==> CleanCopy(s, c))
    && (forall w :: 0 <= w < |s.workers| ==> CleanWorker(s, w))
    && (forall i :: 0 <= i < |s.intakes| ==> CleanIntake(s, i))
  }

  /******* Steps *******/

  predicate Concerns(e: Effect, t: int) {
    (e.LogCall? && e.call.tx == t) || (e.SetStatus? && e.tx == t)
  }

  lemma Unconcerned(s: State, e: Effect, t: TxId)
    requires EffectFits(s, e) && t < |s.rows| && !Concerns(e, t)
    ensures t < |Perform(s, e).rows|
    ensures Answers(Perform(s, e).calls, t) == Answers(s.calls, t)
    ensures Perform(s, e).rows[t].versions == s.rows[t].versions
  {
    if e.LogCall? {
      AnswersAppend(s.calls, t, e.call);
    }
  }

  lemma NoAnswersYet(s: State, t: TxId)
    requires forall k :: 0 <= k < |s.calls| ==> s.calls[k].tx != t
    ensures Answers(s.calls, t) == []
  {
    NoAnswers(s.calls, t);
  }

  lemma {:induction false} NoAnswers(calls: seq<Call>, t: TxId)
    requires forall k :: 0 <= k < |calls| ==> calls[k].tx != t
    ensures Answers(calls, t) == []
  {
    if |calls| > 0 {
      NoAnswers(calls[..|calls| - 1], t);
    }
  }

  // Legacy is only ever called for rows that exist.
  ghost predicate CallsKnown(s: State) {
    forall k :: 0 <= k < |s.calls| ==> s.calls[k].tx < |s.rows|
  }

  lemma WorkerAdvances(cfg: Config, s: State, w: nat, ok: bool)
    requires WorkerEnabled(s, w, ok) && WorkerOk(cfg, s, w) && s.workers[w].msg.body.Job?
    requires CleanStep(s, WorkerStep(w, ok))
    requires s.workers[w].msg.body.tx < |s.rows| && |s.rows[s.workers[w].msg.body.tx].versions| > 0
    requires StageOk(s, s.workers[w].msg.body.tx, s.workers[w].pc)
    ensures
      var t := s.workers[w].msg.body.tx;
      var e, pc := WorkerEffect(cfg, s, w, ok), WorkerGoto(cfg, s, w, ok);
      && EffectFits(s, e) && !e.EnqueueRetry? && !e.InsertRow? && !e.PublishNew?
      && (e.Settle? <==> s.workers[w].pc.AckDone?)
      && (e.Settle? ==> e == Settle(w, Gone) && pc.Finished? && SettledOnce(Perform(s, e), t))
      && (!e.Settle? ==> StageOk(Perform(s, e), t, pc))
      && forall u :: Concerns(e, u) ==> u == t
  {
    var t := s.workers[w].msg.body.tx;
    if s.workers[w].pc.CallLegacy? {
      AnswersAppend(s.calls, t, Call(t, ok, s.workers[w].msg.body.request));
    }
  }

  lemma WorkerKeepsClean(cfg: Config, s: State, w: nat, ok: bool)
    requires Inv(cfg, s) && Clean(s) && WorkerEnabled(s, w, ok) && CleanStep(s, WorkerStep(w, ok))
    ensures Clean(WorkerNext(cfg, s, w, ok))
  {
    assert WorkerOk(cfg, s, w) && CleanWorker(s, w);
    var c := s.workers[w].copy;
    assert CopyOk(cfg, s, c) && CleanCopy(s, c);
    if s.workers[w].msg.body.Job? {
      assert RowOk(s, s.workers[w].msg.body.tx);
      WorkerAdvances(cfg, s, w, ok);
      JobStepClean(cfg, s, WorkerEffect(cfg, s, w, ok), w, WorkerGoto(cfg, s, w, ok));
    } else {
      GarbageShape(cfg, s, w, ok);
      GarbageStepClean(cfg, s, WorkerEffect(cfg, s, w, ok), w, WorkerGoto(cfg, s, w, ok));
    }
  }

  lemma GarbageShape(cfg: Config, s: State, w: nat, ok: bool)
    requires WorkerEnabled(s, w, ok) && WorkerOk(cfg, s, w) && s.workers[w].msg.body.Undecodable?
    requires CleanStep(s, WorkerStep(w, ok))
    ensures
      var e, pc := WorkerEffect(cfg, s, w, ok), WorkerGoto(cfg, s, w, ok);
      (e == NoEffect && s.workers[w].pc.Decode?) || (e == Settle(w, Dead) && pc.Finished?)
  {
  }

  lemma GarbageStepClean(cfg: Config, s: State, e: Effect, w: nat, pc: WorkerPc)
    requires Inv(cfg, s) && Clean(s) && w < |s.workers| && s.workers[w].msg.body.Undecodable?
    requires !s.workers[w].pc.Finished?
    requires e == NoEffect || (e == Settle(w, Dead) && pc.Finished?)
    requires EffectFits(s, e)
    ensures Clean(AtWorker(Perform(s, e), w, pc))
  {
    var s' := AtWorker(Perform(s, e), w, pc);
    assert WorkerOk(cfg, s, w) && CleanWorker(s, w);
    forall d | 0 <= d < |s'.copies| ensures CleanCopy(s', d) {
      assert CleanCopy(s, d) && CopyOk(cfg, s, d);
      GarbageCopy(s, e, w, pc, d);
    }
    forall t | 0 <= t < |s'.rows| ensures CleanRow(s', t) {
      assert CleanRow(s, t);
    }
    forall v | 0 <= v < |s'.workers| ensures CleanWorker(s', v) {
      assert CleanWorker(s, v);
    }
    forall i | 0 <= i < |s'.intakes| ensures CleanIntake(s', i) {
      assert CleanIntake(s, i);
    }
  }

  lemma GarbageCopy(s: State, e: Effect, w: nat, pc: WorkerPc, d: nat)
    requires w < |s.workers| && s.workers[w].msg.body.Undecodable? && EffectFits(s, e)
    requires e == NoEffect || e == Settle(w, Dead)
    requires s.workers[w].copy < |s.copies| && s.copies[s.workers[w].copy].msg == s.workers[w].msg
    requires d < |s.copies| && CleanCopy(s, d)
    requires s.copies[d].place == Unacked(w) ==> s.workers[w].copy == d
    ensures CleanCopy(AtWorker(Perform(s, e), w, pc), d)
  {
  }

  lemma JobStepClean(cfg: Config, s: State, e: Effect, w: nat, pc: WorkerPc)
    requires Inv(cfg, s) && Clean(s) && w < |s.workers| && s.workers[w].msg.body.Job? && s.workers[w].attached
    requires EffectFits(s, e) && !e.EnqueueRetry? && !e.InsertRow? && !e.PublishNew?
    requires e.Settle? ==> e == Settle(w, Gone) && pc.Finished? && SettledOnce(Perform(s, e), s.workers[w].msg.body.tx)
    requires !e.Settle? ==> StageOk(Perform(s, e), s.workers[w].msg.body.tx, pc)
    requires forall u :: Concerns(e, u) ==> u == s.workers[w].msg.body.tx
    ensures Clean(AtWorker(Perform(s, e), w, pc))
  {
    var s' := AtWorker(Perform(s, e), w, pc);
    assert WorkerOk(cfg, s, w);
    forall d | 0 <= d < |s'.copies| ensures CleanCopy(s', d) {
      JobStepCopy(cfg, s, e, w, pc, d);
    }
    forall t | 0 <= t < |s'.rows| ensures CleanRow(s', t) {
      assert CleanRow(s, t) && CleanCopy(s, s.workers[w].copy);
      if s.rows[t].birth.None? {
        Unconcerned(s, e, t);
      }
    }
    forall v | 0 <= v < |s'.workers| ensures CleanWorker(s', v) {
      assert CleanWorker(s, v);
    }
    forall i | 0 <= i < |s'.intakes| ensures CleanIntake(s', i) {
      assert CleanIntake(s, i);
    }
  }

  lemma JobStepCopy(cfg: Config, s: State, e: Effect, w: nat, pc: WorkerPc, d: nat)
    requires Inv(cfg, s) && Clean(s) && w < |s.workers| && s.workers[w].msg.body.Job? && s.workers[w].attached
    requires EffectFits(s, e) && !e.EnqueueRetry? && !e.InsertRow? && !e.PublishNew?
    requires e.Settle? ==> e == Settle(w, Gone) && pc.Finished? && SettledOnce(Perform(s, e), s.workers[w].msg.body.tx)
    requires !e.Settle? ==> StageOk(Perform(s, e), s.workers[w].msg.body.tx, pc)
    requires forall u :: Concerns(e, u) ==> u == s.workers[w].msg.body.tx
    requires d < |s.copies|
    ensures CleanCopy(AtWorker(Perform(s, e), w, pc), d)
  {
    assert WorkerOk(cfg, s, w) && CleanCopy(s, d) && CopyOk(cfg, s, d) && CleanCopy(s, s.workers[w].copy);
    if d == s.workers[w].copy {
      OwnCopy(s, e, w, pc);
    } else if s.copies[d].msg.body.Job? {
      OtherCopy(s, e, w, pc, d);
    }
  }

  lemma OwnCopy(s: State, e: Effect, w: nat, pc: WorkerPc)
    requires w < |s.workers| && s.workers[w].msg.body.Job? && s.workers[w].copy < |s.copies|
    requires s.workers[w].msg == s.copies[s.workers[w].copy].msg && s.copies[s.workers[w].copy].place == Unacked(w)
    requires CleanCopy(s, s.workers[w].copy)
    requires EffectFits(s, e) && !e.EnqueueRetry? && !e.InsertRow? && !e.PublishNew?
    requires e.Settle? ==> e == Settle(w, Gone) && SettledOnce(Perform(s, e), s.workers[w].msg.body.tx)
    requires !e.Settle? ==> StageOk(Perform(s, e), s.workers[w].msg.body.tx, pc)
    ensures CleanCopy(AtWorker(Perform(s, e), w, pc), s.workers[w].copy)
  {
    var s1 := Perform(s, e);
    var s' := AtWorker(s1, w, pc);
    assert s'.rows == s1.rows && s'.calls == s1.calls && s'.copies == s1.copies;
  }

  lemma OtherCopy(s: State, e: Effect, w: nat, pc: WorkerPc, d: nat)
    requires w < |s.workers| && s.workers[w].msg.body.Job? && s.workers[w].copy < |s.copies|
    requires s.workers[w].msg == s.copies[s.workers[w].copy].msg
    requires EffectFits(s, e) && !e.EnqueueRetry? && !e.InsertRow? && !e.PublishNew?
    requires e.Settle? ==> e.w == w
    requires forall u :: Concerns(e, u) ==> u == s.workers[w].msg.body.tx
    requires d < |s.copies| && d != s.workers[w].copy && s.copies[d].msg.body.Job?
    requires CleanCopy(s, d) && CleanCopy(s, s.workers[w].copy)
    requires s.copies[d].place != Unacked(w)
    ensures CleanCopy(AtWorker(Perform(s, e), w, pc), d)
  {
    Unconcerned(s, e, s.copies[d].msg.body.tx);
  }

  lemma IntakeKeepsClean(cfg: Config, s: State, i: nat, reply: Reply)
    requires Inv(cfg, s) && Clean(s) && CallsKnown(s) && IntakeEnabled(s, i, reply) && reply != Broken
    ensures Clean(IntakeNext(s, i, reply))
  {
    assert IntakeOk(s, i) && CleanIntake(s, i);
    IntakeEffectOk(cfg, s, i, reply);
    CleanIntakeShape(s, i, reply);
    IntakeEffectClean(cfg, s, IntakeEffect(s, i, reply), i, IntakeGoto(s, i, reply));
  }

  lemma CleanIntakeShape(s: State, i: nat, reply: Reply)
    requires IntakeEnabled(s, i, reply) && reply != Broken && CleanIntake(s, i)
    ensures
      var e, pc := IntakeEffect(s, i, reply), IntakeGoto(s, i, reply);
      && IntakeKind(e)
      && !pc.CompensateRow? && !pc.CompensateCache? && !pc.CompensateEvent?
  {
  }

  lemma IntakeEffectClean(cfg: Config, s: State, e: Effect, i: nat, pc: IntakePc)
    requires Inv(cfg, s) && Clean(s) && CallsKnown(s) && EffectOk(cfg, s, e) && i < |s.intakes|
    requires IntakeKind(e) && !pc.CompensateRow? && !pc.CompensateCache? && !pc.CompensateEvent?
    ensures Clean(AtIntake(Perform(s, e), i, pc))
  {
    var s' := AtIntake(Perform(s, e), i, pc);
    forall t | 0 <= t < |s'.rows| ensures CleanRow(s', t) {
      if t < |s.rows| {
        assert CleanRow(s, t);
        IntakeRowClean(s, e, t);
      } else {
        NoAnswersYet(s, t);
      }
    }
    forall c | 0 <= c < |s'.copies| ensures CleanCopy(s', c) {
      if c < |s.copies| {
        assert CleanCopy(s, c);
        IntakeCopyClean(s, e, c);
      } else {
        assert CleanRow(s, e.tx);
      }
    }
    IntakeRestClean(s, e, i, pc);
  }

  // The kinds of effect that intake has while no call fails.
  predicate IntakeKind(e: Effect) { !e.Settle? && !e.LogCall? && !e.EnqueueRetry? && !e.SetStatus? }

  lemma IntakeRowClean(s: State, e: Effect, t: TxId)
    requires EffectFits(s, e) && IntakeKind(e) && t < |s.rows| && CleanRow(s, t)
    ensures t < |Perform(s, e).rows| && CleanRow(Perform(s, e), t)
  {
  }

  lemma IntakeCopyClean(s: State, e: Effect, c: nat)
    requires EffectFits(s, e) && IntakeKind(e) && c < |s.copies| && CleanCopy(s, c)
    requires e.PublishNew? ==> s.rows[e.tx].birth.None?
    ensures c < |Perform(s, e).copies| && CleanCopy(Perform(s, e), c)
  {
  }

  lemma IntakeRestClean(s: State, e: Effect, i: nat, pc: IntakePc)
    requires EffectFits(s, e) && Clean(s) && IntakeKind(e) && i < |s.intakes|
    requires !pc.CompensateRow? && !pc.CompensateCache? && !pc.CompensateEvent?
    ensures
      var s' := AtIntake(Perform(s, e), i, pc);
      && (forall v :: 0 <= v < |s'.workers| ==> CleanWorker(s', v))
      && (forall j :: 0 <= j < |s'.intakes| ==> CleanIntake(s', j))
  {
    var s' := AtIntake(Perform(s, e), i, pc);
    forall v | 0 <= v < |s'.workers| ensures CleanWorker(s', v) {
      assert CleanWorker(s, v);
    }
    forall j | 0 <= j < |s'.intakes| ensures CleanIntake(s', j) {
      assert CleanIntake(s, j);
    }
  }

  lemma OtherKeepsClean(cfg: Config, s: State, step: Step)
    requires Inv(cfg, s) && Clean(s) && Enabled(cfg, s, step) && CleanStep(s, step)
    requires !step.IntakeStep? && !step.WorkerStep?
    ensures Clean(Apply(cfg, s, step))
  {
    var s' := Apply(cfg, s, step);
    forall t | 0 <= t < |s'.rows| ensures CleanRow(s', t) {
      assert CleanRow(s, t);
    }
    forall c | 0 <= c < |s'.copies| ensures CleanCopy(s', c) {
      if c < |s.copies| {
        assert CleanCopy(s, c);
      }
      OtherStepCopy(cfg, s, step, c);
    }
    forall v | 0 <= v < |s'.workers| ensures CleanWorker(s', v) {
      if v < |s.workers| {
        assert CleanWorker(s, v);
      }
    }
    forall j | 0 <= j < |s'.intakes| ensures CleanIntake(s', j) {
      if j < |s.intakes| {
        assert CleanIntake(s, j);
      }
    }
  }

  lemma OtherStepCopy(cfg: Config, s: State, step: Step, c: nat)
    requires Enabled(cfg, s, step) && CleanStep(s, step)
    requires !step.IntakeStep? && !step.WorkerStep?
    requires c < |Apply(cfg, s, step).copies| && (c < |s.copies| ==> CleanCopy(s, c))
    ensures CleanCopy(Apply(cfg, s, step), c)
  {
    if c < |s.copies| {
      match step {
        case Deliver(d) => DeliverCopy(cfg, s, d, c);
        case Expire(d) => ExpireCopy(cfg, s, d, c);
        case _ =>
      }
    }
  }

  lemma DeliverCopy(cfg: Config, s: State, d: nat, c: nat)
    requires Enabled(cfg, s, Deliver(d)) && c < |s.copies| && CleanCopy(s, c)
    ensures CleanCopy(Apply(cfg, s, Deliver(d)), c)
  {
  }

  lemma ExpireCopy(cfg: Config, s: State, d: nat, c: nat)
    requires Enabled(cfg, s, Expire(d)) && c < |s.copies| && CleanCopy(s, c)
    ensures CleanCopy(Apply(cfg, s, Expire(d)), c)
  {
  }

  lemma CallsStayKnown(cfg: Config, s: State, step: Step)
    requires CallsKnown(s) && Enabled(cfg, s, step)
    ensures CallsKnown(Apply(cfg, s, step))
  {
    match step {
      case IntakeStep(i, reply) => IntakeCalls(s, i, reply);
      case WorkerStep(w, ok) => WorkerCalls(cfg, s, w, ok);
      case _ =>
    }
  }

  lemma IntakeCalls(s: State, i: nat, reply: Reply)
    requires CallsKnown(s) && IntakeEnabled(s, i, reply)
    ensures CallsKnown(IntakeNext(s, i, reply))
  {
  }

  lemma WorkerCalls(cfg: Config, s: State, w: nat, ok: bool)
    requires CallsKnown(s) && WorkerEnabled(s, w, ok)
    ensures CallsKnown(WorkerNext(cfg, s, w, ok))
  {
  }

  /******* Every clean run *******/

  lemma {:induction false} CleanRunStaysClean(cfg: Config, r: Run, n: nat)
    requires ValidConfig(cfg) && ValidRun(cfg, r) && CleanRun(cfg, r) && n < |r.states|
    ensures Clean(r.states[n]) && CallsKnown(r.states[n])
    decreases n
  {
    if n > 0 {
      CleanRunStaysClean(cfg, r, n - 1);
      RunKeepsInv(cfg, r, n - 1);
      assert StepAt(cfg, r, n - 1);
      CleanFollow(cfg, r.states[n - 1], r.steps[n - 1], r.states[n]);
    }
  }

  lemma CleanFollow(cfg: Config, s: State, step: Step, s': State)
    requires ValidConfig(cfg) && Inv(cfg, s) && Follows(cfg, s, step, s') && CleanStep(s, step)
    requires Clean(s) && CallsKnown(s)
    ensures Clean(s') && CallsKnown(s')
  {
    CleanStepKeeps(cfg, s, step);
    CallsStayKnown(cfg, s, step);
  }

  lemma CleanStepKeeps(cfg: Config, s: State, step: Step)
    requires Inv(cfg, s) && Clean(s) && CallsKnown(s) && Enabled(cfg, s, step) && CleanStep(s, step)
    ensures Clean(Apply(cfg, s, step))
  {
    match step {
      case IntakeStep(i, reply) => IntakeKeepsClean(cfg, s, i, reply);
      case WorkerStep(w, ok) => WorkerKeepsClean(cfg, s, w, ok);
      case _ => OtherKeepsClean(cfg, s, step);
    }
  }

  // Nothing waits to be worked on.
  ghost predicate Drained(s: State) {
    forall c :: 0 <= c < |s.copies| ==> !s.copies[c].place.Primary? && !s.copies[c].place.Unacked?
  }

  // When no call fails, no payment is ever retried or dead-lettered, no
  // accepted payment is sent to legacy twice or updated twice, and once the
  // queue is drained each has had exactly one legacy call and one update, with
  // status SUCCESS if and only if legacy accepted it.
  lemma ExactlyOnceWithoutFaults(cfg: Config, r: Run, i: nat, tx: TxId)
    requires ValidConfig(cfg) && ValidRun(cfg, r) && CleanRun(cfg, r)
    requires Accepted(r.states[|r.steps|], i, tx)
    ensures
      var s := r.states[|r.steps|];
      && tx < |s.rows| && |s.rows[tx].versions| > 0
      && (forall c :: 0 <= c < |s.copies| && s.copies[c].msg.body.Job? ==> !s.copies[c].place.Retry? && !s.copies[c].place.Dead?)
      && |Answers(s.calls, tx)| <= 1 && |s.rows[tx].versions| <= 2
      && (Drained(s) ==>
            && |Answers(s.calls, tx)| == 1
            && |s.rows[tx].versions| == 2
            && (Current(s.rows[tx]).status == Success <==> Answers(s.calls, tx)[0])
            && (Current(s.rows[tx]).status == Failed <==> !Answers(s.calls, tx)[0]))
  {
    RunKeepsInv(cfg, r, |r.steps|);
    CleanRunStaysClean(cfg, r, |r.steps|);
    var s := r.states[|r.steps|];
    assert IntakeOk(s, i) && RowOk(s, tx) && CleanRow(s, tx);
    assert CleanCopy(s, s.rows[tx].birth.value.copy);
    forall c | 0 <= c < |s.copies| && s.copies[c].msg.body.Job?
      ensures !s.copies[c].place.Retry? && !s.copies[c].place.Dead?
    {
      assert CleanCopy(s, c);
    }
  }
}
