// Why a merchant lookup answers what it answers, and what it leaves behind.
module MerchantAnswers {
  import opened Common
  import opened MerchantFill

  // A live entry under the identifier that lookup p asks for.
  predicate Cached(s: State, p: nat, content: Content) {
    && p < |s.lookups| && s.lookups[p].id in s.entries
    && s.now < s.entries[s.lookups[p].id].expiry && s.entries[s.lookups[p].id].content == content
  }

  predicate Reading(pc: Pc) { pc.ReadCache? || pc.Waiting? }

  // The step with which lookup p's answer is decided.
  predicate Decides(s: State, step: Step, p: nat, result: Result) {
    && p < |s.lookups|
    && var pc := s.lookups[p].pc;
    && match result
       case Found(m) =>
         || (pc.InLegacy? && step == LegacyFinds(p, m))
         || (Reading(pc) && step == Advance(p) && Cached(s, p, Present(m)))
         || (pc.ReadDatabase? && step == Advance(p) && s.lookups[p].id in s.database && s.database[s.lookups[p].id] == m)
       case NoRows =>
         || (pc.InLegacy? && step == LegacyDenies(p))
         || (Reading(pc) && step == Advance(p) && Cached(s, p, NotFound))
       case InProgress => pc.Waiting? && (step == Break(p) || step == GiveUp(p))
       case Failed =>
         || (pc.InLegacy? && step == LegacyFails(p))
         || ((pc.ReadCache? || pc.ReadDatabase? || pc.AcquireLock?) && step == Break(p))
  }

  predicate HasAnswer(s: State, p: nat, result: Result) {
    p < |s.lookups| && (s.lookups[p].pc == Done(result) || (s.lookups[p].pc.Releasing? && s.lookups[p].pc.result == result))
  }

  predicate Answers(pc: Pc, result: Result) { pc == Done(result) || (pc.Releasing? && pc.result == result) }

  lemma OwnAnswers(s: State, step: Step, result: Result)
    requires Acts(step) && Enabled(s, step)
    ensures Answers(Goto(s, step), result) <==> HasAnswer(s, step.p, result) || Decides(s, step, step.p, result)
  {
  }

  lemma OtherLookups(s: State, step: Step, p: nat)
    requires Enabled(s, step) && !(Acts(step) && step.p == p)
    ensures p < |s.lookups| ==> p < |Apply(s, step).lookups| && Apply(s, step).lookups[p] == s.lookups[p]
    ensures |s.lookups| <= p < |Apply(s, step).lookups| ==> Apply(s, step).lookups[p].pc.ReadCache?
  {
  }

  lemma OwnPc(s: State, step: Step)
    requires Acts(step) && Enabled(s, step)
    ensures step.p < |Apply(s, step).lookups| && Apply(s, step).lookups[step.p].pc == Goto(s, step)
  {
  }

  lemma DecidesItself(s: State, step: Step, p: nat, result: Result)
    requires Decides(s, step, p, result)
    ensures Acts(step) && step.p == p
  {
  }

  lemma StepAnswers(s: State, step: Step, p: nat, result: Result)
    requires Enabled(s, step)
    ensures HasAnswer(Apply(s, step), p, result) <==> HasAnswer(s, p, result) || Decides(s, step, p, result)
  {
    if Acts(step) && step.p == p {
      OwnAnswers(s, step, result);
      OwnPc(s, step);
    } else {
      OtherLookups(s, step, p);
      if Decides(s, step, p, result) {
        DecidesItself(s, step, p, result);
      }
    }
  }

  // A lookup answers exactly what one step of its own has decided: what legacy,
  // the cache or the database gave it there; "in progress" only on giving up a
  // wait; an error only for a failed call of its own or of legacy.
  lemma {:induction false} AnswersExactly(r: Run, n: nat, p: nat, result: Result)
    requires ValidRun(r) && n < |r.states|
    ensures HasAnswer(r.states[n], p, result) <==> exists j :: 0 <= j < n && Decides(r.states[j], r.steps[j], p, result)
    decreases n
  {
    if n > 0 {
      assert StepAt(r, n - 1);
      AnswersExactly(r, n - 1, p, result);
      StepAnswers(r.states[n - 1], r.steps[n - 1], p, result);
      if Decides(r.states[n - 1], r.steps[n - 1], p, result) {
        assert n - 1 < n;
      }
    }
  }

  // The lock was held when lookup p asked for it.
  predicate FindsLocked(s: State, step: Step, p: nat) {
    && p < |s.lookups| && s.lookups[p].pc.AcquireLock? && step == Advance(p)
    && s.lookups[p].id in s.locks && s.now < s.locks[s.lookups[p].id].expiry
  }

  lemma WaitStarts(s: State, step: Step, p: nat)
    requires Enabled(s, step) && p < |Apply(s, step).lookups| && Apply(s, step).lookups[p].pc.Waiting?
    ensures (p < |s.lookups| && s.lookups[p].pc.Waiting?) || FindsLocked(s, step, p)
  {
    if !(Acts(step) && step.p == p) {
      OtherLookups(s, step, p);
    }
  }

  // A lookup waits only because it found the lock held.
  lemma {:induction false} WaitsOnlyForLock(r: Run, n: nat, p: nat)
    requires ValidRun(r) && n < |r.states| && p < |r.states[n].lookups| && r.states[n].lookups[p].pc.Waiting?
    ensures exists j :: 0 <= j < n && FindsLocked(r.states[j], r.steps[j], p)
    decreases n
  {
    assert n > 0 && StepAt(r, n - 1);
    WaitStarts(r.states[n - 1], r.steps[n - 1], p);
    if p < |r.states[n - 1].lookups| && r.states[n - 1].lookups[p].pc.Waiting? {
      WaitsOnlyForLock(r, n - 1, p);
    } else {
      assert 0 <= n - 1 < n && FindsLocked(r.states[n - 1], r.steps[n - 1], p);
    }
  }

  // A free lock is taken for three seconds; a held one is left alone.
  lemma LockTakenExactly(s: State, p: nat)
    requires p < |s.lookups| && s.lookups[p].pc.AcquireLock?
    ensures Enabled(s, Advance(p))
    ensures
      var id, s' := s.lookups[p].id, Apply(s, Advance(p));
      if id in s.locks && s.now < s.locks[id].expiry then s'.locks == s.locks && s'.lookups[p].pc == Waiting(s.now)
      else s'.locks == s.locks[id := Lock(s.nextToken, s.now + 3_000_000_000)] && s'.lookups[p].pc == Holding(s.nextToken, s.now)
  {
  }

  // A release frees the lock that the lookup still holds.
  lemma ReleaseFrees(s: State, p: nat)
    requires p < |s.lookups| && s.lookups[p].pc.Releasing? && HoldsLock(s, p) && s.now < s.locks[s.lookups[p].id].expiry
    ensures Enabled(s, Advance(p)) && Apply(s, Advance(p)).locks == s.locks - {s.lookups[p].id}
  {
  }

  // What a step leaves to be cached: every answer of legacy, and every row
  // found in the database; nothing else.
  function Leaves(s: State, step: Step): multiset<Fill> {
    match step
    case LegacyFinds(p, m) => if p < |s.lookups| then multiset{Fill(s.lookups[p].id, Present(m))} else multiset{}
    case LegacyDenies(p) => if p < |s.lookups| then multiset{Fill(s.lookups[p].id, NotFound)} else multiset{}
    case Advance(p) =>
      if p < |s.lookups| && s.lookups[p].pc.ReadDatabase? && s.lookups[p].id in s.database
      then multiset{Fill(s.lookups[p].id, Present(s.database[s.lookups[p].id]))} else multiset{}
    case _ => multiset{}
  }

  lemma LearnedIsLeft(s: State, step: Step)
    requires Enabled(s, step)
    ensures step.Write? ==> Apply(s, step).fills == s.fills - multiset{step.fill}
    ensures !step.Write? ==> Apply(s, step).fills == s.fills + Leaves(s, step)
  {
  }

  // A merchant is cached for a day under its own identifier, a denial for ten
  // seconds under the identifier asked for; no other step touches the entries.
  lemma WrittenExactly(s: State, step: Step)
    requires Enabled(s, step)
    ensures
      Apply(s, step).entries ==
      if step.Write? && step.ok then
        match step.fill.content
        case Present(m) => s.entries[m.id := Entry(Present(m), s.now + 86_400_000_000_000)]
        case NotFound => s.entries[step.fill.id := Entry(NotFound, s.now + 10_000_000_000)]
      else s.entries
  {
  }
}
