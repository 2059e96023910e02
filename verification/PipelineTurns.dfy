// The turns a call has taken in a run: the steps that are its own, in order.
module PipelineTurns {
  import opened Common
  import opened Backoff
  import opened Headers
  import opened Pipeline
  import opened PipelineRuns
  import opened PipelineSafety
  import opened PipelineTheorems

  // Step j of the run is a turn of intake i.
  predicate TurnOf(r: Run, j: nat, i: nat) {
    j < |r.steps| && j + 1 < |r.states| && r.steps[j].IntakeStep? && r.steps[j].i == i
  }

  // Step j of the run is a turn of handler w.
  predicate HandlerTurn(r: Run, j: nat, w: nat) {
    j < |r.steps| && j + 1 < |r.states| && r.steps[j].WorkerStep? && r.steps[j].w == w
  }

  // Intake i takes no turn from k up to n.
  ghost predicate Rests(r: Run, k: nat, n: nat, i: nat) { forall j: nat :: k <= j < n ==> !TurnOf(r, j, i) }

  ghost predicate HandlerRests(r: Run, k: nat, n: nat, w: nat) { forall j: nat :: k <= j < n ==> !HandlerTurn(r, j, w) }

  /******* Intakes *******/

  // Only its own turns move an intake; it arrives about to look up its key.
  lemma ComesFrom(cfg: Config, s: State, step: Step, i: nat)
    requires Enabled(cfg, s, step) && i < |Apply(cfg, s, step).intakes| && !(step.IntakeStep? && step.i == i)
    ensures if i < |s.intakes| then Apply(cfg, s, step).intakes[i] == s.intakes[i]
            else Apply(cfg, s, step).intakes[i].pc.LookupKey?
  {
    match step {
      case IntakeStep(j, reply) => PerformIntakes(s, IntakeEffect(s, j, reply));
      case WorkerStep(w, ok) => PerformIntakes(s, WorkerEffect(cfg, s, w, ok));
      case _ =>
    }
  }

  // Its last turn, once it has moved, put an intake where it stands.
  lemma {:induction false} LastTurn(cfg: Config, r: Run, n: nat, i: nat) returns (j: nat)
    requires ValidRun(cfg, r) && n < |r.states| && i < |r.states[n].intakes| && !r.states[n].intakes[i].pc.LookupKey?
    ensures j < n && TurnOf(r, j, i) && Rests(r, j + 1, n, i)
    ensures IntakeEnabled(r.states[j], i, r.steps[j].reply)
    ensures r.states[j + 1] == IntakeNext(r.states[j], i, r.steps[j].reply)
    ensures r.states[j + 1].intakes[i] == r.states[n].intakes[i]
    decreases n
  {
    assert StepAt(cfg, r, n - 1);
    if TurnOf(r, n - 1, i) {
      j := n - 1;
    } else {
      ComesFrom(cfg, r.states[n - 1], r.steps[n - 1], i);
      j := LastTurn(cfg, r, n - 1, i);
    }
  }

  // An intake that stands elsewhere later has taken a next turn.
  lemma {:induction false} NextTurn(cfg: Config, r: Run, k: nat, n: nat, i: nat) returns (j: nat)
    requires ValidRun(cfg, r) && k <= n < |r.states| && i < |r.states[k].intakes|
    requires i < |r.states[n].intakes| ==> r.states[n].intakes[i] != r.states[k].intakes[i]
    ensures k <= j < n && TurnOf(r, j, i) && Rests(r, k, j, i)
    ensures IntakeEnabled(r.states[j], i, r.steps[j].reply) && r.states[j].intakes[i] == r.states[k].intakes[i]
    ensures r.states[j + 1] == IntakeNext(r.states[j], i, r.steps[j].reply)
    decreases n - k
  {
    assert StepAt(cfg, r, k);
    if TurnOf(r, k, i) {
      j := k;
    } else {
      OthersWait(cfg, r.states[k], r.steps[k], i);
      j := NextTurn(cfg, r, k + 1, n, i);
    }
  }

  // A turn of intake i of the given kind.
  ghost predicate TurnLike(r: Run, j: nat, i: nat, kind: (State, Reply) -> bool) {
    TurnOf(r, j, i) && kind(r.states[j], r.steps[j].reply)
  }

  // If turns of one kind are what leads to a set of program points, and out of
  // it nothing leads, then an intake stands there exactly if it has taken one.
  lemma {:induction false} StandsByTurns(
      cfg: Config, r: Run, n: nat, i: nat, there: IntakePc -> bool, kind: (State, Reply) -> bool)
    requires ValidRun(cfg, r) && n < |r.states| && i < |r.states[n].intakes|
    requires !there(LookupKey)
    requires forall s, reply :: IntakeEnabled(s, i, reply) ==>
               (there(IntakeGoto(s, i, reply)) <==> there(s.intakes[i].pc) || kind(s, reply))
    ensures there(r.states[n].intakes[i].pc) <==> exists j: nat :: j < n && TurnLike(r, j, i, kind)
    decreases n
  {
    if n > 0 {
      assert StepAt(cfg, r, n - 1);
      var s, step := r.states[n - 1], r.steps[n - 1];
      if TurnOf(r, n - 1, i) {
        StandsByTurns(cfg, r, n - 1, i, there, kind);
        PerformIntakes(s, IntakeEffect(s, i, step.reply));
        assert kind(s, step.reply) <==> TurnLike(r, n - 1, i, kind);
      } else {
        ComesFrom(cfg, s, step, i);
        if i < |s.intakes| {
          StandsByTurns(cfg, r, n - 1, i, there, kind);
        } else {
          NoTurnsYet(cfg, r, n - 1, i);
        }
      }
    }
  }

  lemma {:induction false} NoTurnsYet(cfg: Config, r: Run, n: nat, i: nat)
    requires ValidRun(cfg, r) && n < |r.states| && |r.states[n].intakes| <= i
    ensures Rests(r, 0, n, i)
    decreases n
  {
    if n > 0 {
      assert StepAt(cfg, r, n - 1);
      IntakesGrow(cfg, r.states[n - 1], r.steps[n - 1]);
      NoTurnsYet(cfg, r, n - 1, i);
    }
  }

  lemma IntakesGrow(cfg: Config, s: State, step: Step)
    requires Enabled(cfg, s, step)
    ensures |s.intakes| <= |Apply(cfg, s, step).intakes|
    ensures step.IntakeStep? ==> step.i < |s.intakes|
  {
    match step {
      case IntakeStep(j, reply) => PerformIntakes(s, IntakeEffect(s, j, reply));
      case WorkerStep(w, ok) => PerformIntakes(s, WorkerEffect(cfg, s, w, ok));
      case _ =>
    }
  }

  /******* Handlers *******/

  // Only its own turns move a handler; it is delivered about to decode.
  predicate SameWork(a: Worker, b: Worker) { a.pc == b.pc && a.msg == b.msg && a.copy == b.copy }

  lemma HandlerComesFrom(cfg: Config, s: State, step: Step, w: nat)
    requires Enabled(cfg, s, step) && w < |Apply(cfg, s, step).workers| && !(step.WorkerStep? && step.w == w)
    ensures if w < |s.workers| then SameWork(Apply(cfg, s, step).workers[w], s.workers[w])
            else Apply(cfg, s, step).workers[w].pc.Decode?
  {
    match step {
      case IntakeStep(j, reply) => IntakeMovesNone(s, j, reply, w);
      case WorkerStep(v, ok) => OtherHandlerMoves(s, WorkerEffect(cfg, s, v, ok), v, WorkerGoto(cfg, s, v, ok), w);
      case _ => NobodyMoves(cfg, s, step, w);
    }
  }

  lemma OtherHandlerMoves(s: State, e: Effect, v: nat, pc: WorkerPc, w: nat)
    requires EffectFits(s, e) && v < |Perform(s, e).workers| && w < |AtWorker(Perform(s, e), v, pc).workers| && v != w
    ensures w < |s.workers| && SameWork(AtWorker(Perform(s, e), v, pc).workers[w], s.workers[w])
  {
    PerformWorkers(s, e);
  }

  lemma IntakeMovesNone(s: State, i: nat, reply: Reply, w: nat)
    requires IntakeEnabled(s, i, reply) && w < |IntakeNext(s, i, reply).workers|
    ensures w < |s.workers| && SameWork(IntakeNext(s, i, reply).workers[w], s.workers[w])
  {
    PerformWorkers(s, IntakeEffect(s, i, reply));
  }

  lemma NobodyMoves(cfg: Config, s: State, step: Step, w: nat)
    requires Enabled(cfg, s, step) && !step.IntakeStep? && !step.WorkerStep? && w < |Apply(cfg, s, step).workers|
    ensures if w < |s.workers| then SameWork(Apply(cfg, s, step).workers[w], s.workers[w])
            else Apply(cfg, s, step).workers[w].pc.Decode?
  {
  }

  lemma PerformWorkers(s: State, e: Effect)
    requires EffectFits(s, e)
    ensures |Perform(s, e).workers| == |s.workers|
    ensures forall w :: 0 <= w < |s.workers| ==> SameWork(Perform(s, e).workers[w], s.workers[w])
  {
  }

  lemma OwnTurnKeepsWork(cfg: Config, s: State, w: nat, ok: bool)
    requires WorkerEnabled(s, w, ok)
    ensures w < |WorkerNext(cfg, s, w, ok).workers|
    ensures WorkerNext(cfg, s, w, ok).workers[w].msg == s.workers[w].msg && WorkerNext(cfg, s, w, ok).workers[w].copy == s.workers[w].copy
    ensures WorkerNext(cfg, s, w, ok).workers[w].pc == WorkerGoto(cfg, s, w, ok)
  {
    PerformWorkers(s, WorkerEffect(cfg, s, w, ok));
  }

  lemma {:induction false} LastHandlerTurn(cfg: Config, r: Run, n: nat, w: nat) returns (j: nat)
    requires ValidRun(cfg, r) && n < |r.states| && w < |r.states[n].workers| && !r.states[n].workers[w].pc.Decode?
    ensures j < n && HandlerTurn(r, j, w) && HandlerRests(r, j + 1, n, w)
    ensures WorkerEnabled(r.states[j], w, r.steps[j].ok)
    ensures r.states[j + 1] == WorkerNext(cfg, r.states[j], w, r.steps[j].ok)
    ensures r.states[j].workers[w].msg == r.states[n].workers[w].msg && r.states[j].workers[w].copy == r.states[n].workers[w].copy
    ensures WorkerGoto(cfg, r.states[j], w, r.steps[j].ok) == r.states[n].workers[w].pc
    decreases n
  {
    assert StepAt(cfg, r, n - 1);
    if HandlerTurn(r, n - 1, w) {
      j := n - 1;
      OwnTurnKeepsWork(cfg, r.states[j], w, r.steps[j].ok);
    } else {
      HandlerComesFrom(cfg, r.states[n - 1], r.steps[n - 1], w);
      j := LastHandlerTurn(cfg, r, n - 1, w);
    }
  }

  ghost predicate HandlerTurnLike(r: Run, j: nat, w: nat, kind: (State, bool) -> bool) {
    HandlerTurn(r, j, w) && kind(r.states[j], r.steps[j].ok)
  }

  // The same for a handler, as long as it is not finished.
  lemma {:induction false} HandlerStandsByTurns(
      cfg: Config, r: Run, n: nat, w: nat, there: WorkerPc -> bool, kind: (State, bool) -> bool)
    requires ValidRun(cfg, r) && n < |r.states| && w < |r.states[n].workers| && !r.states[n].workers[w].pc.Finished?
    requires !there(Decode)
    requires forall s, ok :: WorkerEnabled(s, w, ok) && !WorkerGoto(cfg, s, w, ok).Finished? ==>
               (there(WorkerGoto(cfg, s, w, ok)) <==> there(s.workers[w].pc) || kind(s, ok))
    ensures there(r.states[n].workers[w].pc) <==> exists j: nat :: j < n && HandlerTurnLike(r, j, w, kind)
    decreases n
  {
    if n > 0 {
      assert StepAt(cfg, r, n - 1);
      var s, step := r.states[n - 1], r.steps[n - 1];
      if HandlerTurn(r, n - 1, w) {
        OwnTurnKeepsWork(cfg, s, w, step.ok);
        HandlerStandsByTurns(cfg, r, n - 1, w, there, kind);
        assert kind(s, step.ok) <==> HandlerTurnLike(r, n - 1, w, kind);
      } else {
        HandlerComesFrom(cfg, s, step, w);
        if w < |s.workers| {
          HandlerStandsByTurns(cfg, r, n - 1, w, there, kind);
        } else {
          NoHandlerTurnsYet(cfg, r, n - 1, w);
        }
      }
    }
  }

  lemma {:induction false} NoHandlerTurnsYet(cfg: Config, r: Run, n: nat, w: nat)
    requires ValidRun(cfg, r) && n < |r.states| && |r.states[n].workers| <= w
    ensures HandlerRests(r, 0, n, w)
    decreases n
  {
    if n > 0 {
      assert StepAt(cfg, r, n - 1);
      HandlersGrow(cfg, r.states[n - 1], r.steps[n - 1]);
      NoHandlerTurnsYet(cfg, r, n - 1, w);
    }
  }

  lemma HandlersGrow(cfg: Config, s: State, step: Step)
    requires Enabled(cfg, s, step)
    ensures |s.workers| <= |Apply(cfg, s, step).workers|
    ensures step.WorkerStep? ==> step.w < |s.workers|
  {
    match step {
      case IntakeStep(j, reply) => PerformWorkers(s, IntakeEffect(s, j, reply));
      case WorkerStep(v, ok) => PerformWorkers(s, WorkerEffect(cfg, s, v, ok));
      case _ =>
    }
  }

  // A finished handler stays finished.
  lemma {:induction false} FinishedForever(cfg: Config, r: Run, k: nat, n: nat, w: nat)
    requires ValidRun(cfg, r) && k <= n < |r.states| && w < |r.states[k].workers| && r.states[k].workers[w].pc.Finished?
    ensures w < |r.states[n].workers| && SameWork(r.states[n].workers[w], r.states[k].workers[w])
    decreases n
  {
    if k < n {
      FinishedForever(cfg, r, k, n - 1, w);
      assert StepAt(cfg, r, n - 1);
      HandlersGrow(cfg, r.states[n - 1], r.steps[n - 1]);
      HandlerComesFrom(cfg, r.states[n - 1], r.steps[n - 1], w);
    }
  }
}
