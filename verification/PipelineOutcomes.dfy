// What a whole intake call does, and why it ends as it does: a call ends as
// "created" exactly if none of its own turns met an obstacle, every refusal has
// its cause, and the turns of an accepted call are listed with all they wrote.
module PipelineOutcomes {
  import opened Common
  import opened Backoff
  import opened Headers
  import opened Pipeline
  import opened PipelineRuns
  import opened PipelineSafety
  import opened PipelineTheorems
  import opened PipelineTurns

  /******* Causes *******/

  predicate Free(s: State, key: string) { forall t :: 0 <= t < |s.rows| ==> s.rows[t].key != key }

  // A call failed, and it was not the last one, whose answer is ignored.
  predicate CallFails(s: State, i: nat, reply: Reply) {
    i < |s.intakes| && reply == Broken && !s.intakes[i].pc.WriteEnqueued?
  }

  // The table refuses the row: its key is taken or its amount is not positive.
  predicate InsertRefused(s: State, i: nat, reply: Reply) {
    && i < |s.intakes| && s.intakes[i].pc.Insert? && reply == Okay
    && (!Free(s, s.intakes[i].request.key) || s.intakes[i].request.amount <= 0)
  }

  predicate ReplayWithoutAccount(s: State, i: nat) {
    i < |s.intakes| && s.intakes[i].pc.LoadForReplay? && s.intakes[i].request.accountNumber !in s.accounts
  }

  predicate NoSuchAccount(s: State, i: nat, reply: Reply) {
    i < |s.intakes| && s.intakes[i].pc.LoadAccount? && reply == Okay && s.intakes[i].request.accountNumber !in s.accounts
  }

  predicate KeyTaken(s: State, i: nat, reply: Reply) {
    i < |s.intakes| && s.intakes[i].pc.LookupKey? && reply == Okay && !Free(s, s.intakes[i].request.key)
  }

  predicate Fault(s: State, i: nat, reply: Reply) {
    CallFails(s, i, reply) || InsertRefused(s, i, reply) || ReplayWithoutAccount(s, i)
  }

  // What keeps a call from creating its transaction.
  predicate Obstacle(s: State, i: nat, reply: Reply) {
    || CallFails(s, i, reply) || InsertRefused(s, i, reply)
    || reply == NoMerchant || NoSuchAccount(s, i, reply) || KeyTaken(s, i, reply)
  }

  predicate Failing(pc: IntakePc) {
    pc == Done(Failure) || pc.CompensateRow? || pc.CompensateCache? || pc.CompensateEvent?
  }

  // The call can no longer end as "created".
  predicate Hindered(pc: IntakePc) {
    Failing(pc) || pc.LoadForReplay? || pc.ResolveForReplay? || pc.ListEvents? || (pc.Done? && !pc.outcome.Created?)
  }

  lemma FreeIsNoKey(s: State, key: string)
    ensures Free(s, key) <==> !HasKey(s, key)
  {
  }

  lemma FailingTurns(s: State, i: nat, reply: Reply)
    requires IntakeEnabled(s, i, reply)
    ensures Failing(IntakeGoto(s, i, reply)) <==> Failing(s.intakes[i].pc) || Fault(s, i, reply)
  {
    FreeIsNoKey(s, s.intakes[i].request.key);
  }

  lemma HinderedTurns(s: State, i: nat, reply: Reply)
    requires IntakeEnabled(s, i, reply)
    ensures Hindered(IntakeGoto(s, i, reply)) <==> Hindered(s.intakes[i].pc) || Obstacle(s, i, reply)
  {
    FreeIsNoKey(s, s.intakes[i].request.key);
  }

  lemma MerchantTurns(s: State, i: nat, reply: Reply)
    requires IntakeEnabled(s, i, reply)
    ensures IntakeGoto(s, i, reply) == Done(MerchantMissing) <==> reply == NoMerchant
  {
  }

  lemma AccountTurns(s: State, i: nat, reply: Reply)
    requires IntakeEnabled(s, i, reply)
    ensures IntakeGoto(s, i, reply) == Done(NotProvisioned) <==> NoSuchAccount(s, i, reply)
  {
  }

  /******* Why a call ends as it does *******/

  // A call has been created if and only if none of its turns met an obstacle.
  lemma CreatedExactly(cfg: Config, r: Run, n: nat, i: nat)
    requires ValidRun(cfg, r) && n < |r.states| && i < |r.states[n].intakes| && r.states[n].intakes[i].pc.Done?
    ensures r.states[n].intakes[i].pc.outcome.Created? <==>
            forall j: nat :: j < n && TurnOf(r, j, i) ==> !Obstacle(r.states[j], i, r.steps[j].reply)
  {
    var hindered := (pc: IntakePc) => Hindered(pc);
    var kind := (s: State, reply: Reply) => Obstacle(s, i, reply);
    forall s, reply | IntakeEnabled(s, i, reply)
      ensures hindered(IntakeGoto(s, i, reply)) <==> hindered(s.intakes[i].pc) || kind(s, reply)
    {
      HinderedTurns(s, i, reply);
    }
    StandsByTurns(cfg, r, n, i, hindered, kind);
    forall j: nat | j < n
      ensures TurnLike(r, j, i, kind) <==> TurnOf(r, j, i) && Obstacle(r.states[j], i, r.steps[j].reply)
    {
    }
  }

  // "No such merchant" is answered exactly if resolution answered so.
  lemma MerchantMissingExactly(cfg: Config, r: Run, n: nat, i: nat)
    requires ValidRun(cfg, r) && n < |r.states| && i < |r.states[n].intakes| && r.states[n].intakes[i].pc.Done?
    ensures r.states[n].intakes[i].pc.outcome == MerchantMissing <==>
            exists j: nat :: j < n && TurnOf(r, j, i) && r.steps[j].reply == NoMerchant
  {
    var there := (pc: IntakePc) => pc == Done(MerchantMissing);
    var kind := (s: State, reply: Reply) => reply == NoMerchant;
    forall s, reply | IntakeEnabled(s, i, reply)
      ensures there(IntakeGoto(s, i, reply)) <==> there(s.intakes[i].pc) || kind(s, reply)
    {
      MerchantTurns(s, i, reply);
    }
    StandsByTurns(cfg, r, n, i, there, kind);
    forall j: nat | j < n ensures TurnLike(r, j, i, kind) <==> TurnOf(r, j, i) && r.steps[j].reply == NoMerchant {
    }
  }

  // "Not provisioned" exactly if its own account lookup found no account.
  lemma NotProvisionedExactly(cfg: Config, r: Run, n: nat, i: nat)
    requires ValidRun(cfg, r) && n < |r.states| && i < |r.states[n].intakes| && r.states[n].intakes[i].pc.Done?
    ensures r.states[n].intakes[i].pc.outcome == NotProvisioned <==>
            exists j: nat :: j < n && TurnOf(r, j, i) && NoSuchAccount(r.states[j], i, r.steps[j].reply)
  {
    var there := (pc: IntakePc) => pc == Done(NotProvisioned);
    var kind := (s: State, reply: Reply) => NoSuchAccount(s, i, reply);
    forall s, reply | IntakeEnabled(s, i, reply)
      ensures there(IntakeGoto(s, i, reply)) <==> there(s.intakes[i].pc) || kind(s, reply)
    {
      AccountTurns(s, i, reply);
    }
    StandsByTurns(cfg, r, n, i, there, kind);
    forall j: nat | j < n
      ensures TurnLike(r, j, i, kind) <==> TurnOf(r, j, i) && NoSuchAccount(r.states[j], i, r.steps[j].reply)
    {
    }
  }

  // An error exactly if a call failed, the insert was refused, or a replay
  // found no account.
  lemma FailureExactly(cfg: Config, r: Run, n: nat, i: nat)
    requires ValidRun(cfg, r) && n < |r.states| && i < |r.states[n].intakes| && r.states[n].intakes[i].pc.Done?
    ensures r.states[n].intakes[i].pc.outcome == Failure <==>
            exists j: nat :: j < n && TurnOf(r, j, i) && Fault(r.states[j], i, r.steps[j].reply)
  {
    var failing := (pc: IntakePc) => Failing(pc);
    var kind := (s: State, reply: Reply) => Fault(s, i, reply);
    forall s, reply | IntakeEnabled(s, i, reply)
      ensures failing(IntakeGoto(s, i, reply)) <==> failing(s.intakes[i].pc) || kind(s, reply)
    {
      FailingTurns(s, i, reply);
    }
    StandsByTurns(cfg, r, n, i, failing, kind);
    forall j: nat | j < n
      ensures TurnLike(r, j, i, kind) <==> TurnOf(r, j, i) && Fault(r.states[j], i, r.steps[j].reply)
    {
    }
  }

  // A replay or a conflict is answered exactly if the key was taken at its own
  // lookup and nothing stopped the comparison.
  lemma ComparedExactly(cfg: Config, r: Run, n: nat, i: nat)
    requires ValidRun(cfg, r) && n < |r.states| && i < |r.states[n].intakes| && r.states[n].intakes[i].pc.Done?
    ensures
      var outcome := r.states[n].intakes[i].pc.outcome;
      outcome.Replayed? || outcome.Conflict? <==>
        && (exists j: nat :: j < n && TurnOf(r, j, i) && KeyTaken(r.states[j], i, r.steps[j].reply))
        && (forall j: nat :: j < n && TurnOf(r, j, i) ==>
              !Fault(r.states[j], i, r.steps[j].reply) && !NoSuchAccount(r.states[j], i, r.steps[j].reply) &&
              r.steps[j].reply != NoMerchant)
  {
    CreatedExactly(cfg, r, n, i);
    MerchantMissingExactly(cfg, r, n, i);
    NotProvisionedExactly(cfg, r, n, i);
    FailureExactly(cfg, r, n, i);
  }
}
