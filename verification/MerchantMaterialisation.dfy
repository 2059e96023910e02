// Create-or-reload: QRIS payments materialising the same merchant.
module MerchantMaterialisation {
  import opened Common

  // qris_code is UNIQUE NOT NULL.
  datatype Merchant = Merchant(code: string, name: string)

  // A trimmed merchant reference: empty, the text of a row identifier, or a code.
  datatype Ref = Empty | ById(id: nat) | ByCode(code: string)

  datatype Result = Resolved(merchant: nat) | MerchantNotFound | Error

  datatype Pc =
    | FindById(id: nat)
    | FindByCode(code: string)
    | AskLegacy
    | Create(code: string, name: string)
    | Reload(code: string)
    | Done(result: Result)

  datatype Resolve = Resolve(ref: Ref, pc: Pc)

  datatype State = State(merchants: seq<Merchant>, calls: seq<Resolve>)

  datatype Step =
    | Arrive(ref: Ref)
    | Query(p: nat, ok: bool)
    | LegacyAnswers(p: nat, code: string, name: string)
    | LegacyDenies(p: nat)          // not found, or no legacy client is configured

  predicate HasCode(s: State, code: string) { exists m :: 0 <= m < |s.merchants| && s.merchants[m].code == code }

  function CodeAt(merchants: seq<Merchant>, code: string): (m: nat)
    requires exists k :: 0 <= k < |merchants| && merchants[k].code == code
    ensures m < |merchants| && merchants[m].code == code
  {
    if merchants[|merchants| - 1].code == code then |merchants| - 1 else CodeAt(merchants[..|merchants| - 1], code)
  }

  predicate Enabled(s: State, step: Step) {
    match step
    case Arrive(_) => true
    case Query(p, ok) => p < |s.calls| && !s.calls[p].pc.Done? && (s.calls[p].pc.AskLegacy? ==> !ok)
    case LegacyAnswers(p, _, _) => p < |s.calls| && s.calls[p].pc.AskLegacy?
    case LegacyDenies(p) => p < |s.calls| && s.calls[p].pc.AskLegacy?
  }

  function FirstPc(ref: Ref): Pc {
    match ref
    case Empty => Done(MerchantNotFound)
    case ById(id) => FindById(id)
    case ByCode(code) => FindByCode(code)
  }

  function Goto(s: State, step: Step): Pc
    requires Enabled(s, step) && !step.Arrive?
  {
    match step
    case LegacyAnswers(_, code, name) => Create(code, name)
    case LegacyDenies(_) => Done(MerchantNotFound)
    case Query(p, ok) =>
      match s.calls[p].pc
      case FindById(id) =>
        if !ok then Done(Error) else if id < |s.merchants| then Done(Resolved(id)) else Done(MerchantNotFound)
      case FindByCode(code) =>
        if !ok then Done(Error)
        else if HasCode(s, code) then Done(Resolved(CodeAt(s.merchants, code))) else AskLegacy
      case AskLegacy => Done(Error)
      case Create(code, _) => if ok && !HasCode(s, code) then Done(Resolved(|s.merchants|)) else Reload(code)
      case Reload(code) => if ok && HasCode(s, code) then Done(Resolved(CodeAt(s.merchants, code))) else Done(Error)
  }

  function NewMerchants(s: State, step: Step): seq<Merchant>
    requires Enabled(s, step)
  {
    if step.Query? && step.ok && s.calls[step.p].pc.Create? && !HasCode(s, s.calls[step.p].pc.code) then
      [Merchant(s.calls[step.p].pc.code, s.calls[step.p].pc.name)]
    else []
  }

  function Apply(s: State, step: Step): State
    requires Enabled(s, step)
  {
    match step
    case Arrive(ref) => s.(calls := s.calls + [Resolve(ref, FirstPc(ref))])
    case _ => State(s.merchants + NewMerchants(s, step), s.calls[step.p := s.calls[step.p].(pc := Goto(s, step))])
  }

  /******* Runs *******/

  // states[k] is the state before steps[k].
  datatype Run = Run(states: seq<State>, steps: seq<Step>)

  const START := Run([State([], [])], [])

  ghost predicate ValidRun(r: Run) {
    && |r.states| == |r.steps| + 1
    && r.states[0] == State([], [])
    && forall k :: 0 <= k < |r.steps| ==> StepAt(r, k)
  }

  predicate StepAt(r: Run, k: nat) {
    k < |r.steps| && k + 1 < |r.states| && Follows(r.states[k], r.steps[k], r.states[k + 1])
  }

  predicate Follows(s: State, step: Step, s': State) { Enabled(s, step) && s' == Apply(s, step) }

  function Last(r: Run): State
    requires |r.states| > 0
  {
    r.states[|r.states| - 1]
  }

  ghost predicate CodesUnique(s: State) {
    forall m, n :: 0 <= m < n < |s.merchants| ==> s.merchants[m].code != s.merchants[n].code
  }

  // What legacy has told call p in the first n steps.
  ghost predicate Told(r: Run, n: nat, p: nat, code: string) {
    exists k :: 0 <= k < n <= |r.steps| && r.steps[k].LegacyAnswers? && r.steps[k].p == p && r.steps[k].code == code
  }

  // Step i is the query in which call p looks its reference up as a code.
  ghost predicate LooksUp(r: Run, p: nat, i: nat) {
    && i < |r.steps| && i < |r.states| && r.steps[i] == Query(p, true)
    && p < |r.states[i].calls| && r.states[i].calls[p].pc.FindByCode?
  }

  // The code has a row when step i is taken.
  ghost predicate RowAt(r: Run, i: nat, code: string) { i < |r.states| && HasCode(r.states[i], code) }

  // Call p has looked its reference up within the first n steps, and found its
  // row or not.
  ghost predicate LookedUp(r: Run, n: nat, p: nat, code: string, found: bool) {
    (exists i: nat :: i < n && LooksUp(r, p, i)) && forall i: nat :: i < n && LooksUp(r, p, i) ==> (RowAt(r, i, code) <==> found)
  }

  // What is known of call p after n steps.
  ghost predicate CallOk(r: Run, n: nat, p: nat)
    requires n < |r.states| && p < |r.states[n].calls|
  {
    var merchants, c := r.states[n].merchants, r.states[n].calls[p];
    match c.pc
    case FindById(id) => c.ref == ById(id)
    case FindByCode(code) => c.ref == ByCode(code) && forall i: nat :: i < n ==> !LooksUp(r, p, i)
    case AskLegacy => c.ref.ByCode? && LookedUp(r, n, p, c.ref.code, false)
    case Create(code, _) => c.ref.ByCode? && LookedUp(r, n, p, c.ref.code, false) && Told(r, n, p, code)
    case Reload(code) => c.ref.ByCode? && LookedUp(r, n, p, c.ref.code, false) && Told(r, n, p, code)
    case Done(Resolved(m)) =>
      && m < |merchants| && !c.ref.Empty?
      && (c.ref.ById? ==> m == c.ref.id)
      && (c.ref.ByCode? ==>
            || (LookedUp(r, n, p, c.ref.code, true) && merchants[m].code == c.ref.code)
            || (LookedUp(r, n, p, c.ref.code, false) && Told(r, n, p, merchants[m].code)))
    case _ => true
  }

  lemma LookedUpStays(r: Run, n: nat, p: nat, code: string, found: bool)
    requires LookedUp(r, n, p, code, found) && !LooksUp(r, p, n)
    ensures LookedUp(r, n + 1, p, code, found)
  {
    var i: nat :| i < n && LooksUp(r, p, i);
    assert i < n + 1 && LooksUp(r, p, i);
  }

  lemma ToldStays(r: Run, n: nat, p: nat, code: string)
    requires Told(r, n, p, code) && n < |r.steps|
    ensures Told(r, n + 1, p, code)
  {
    var k :| 0 <= k < n && r.steps[k].LegacyAnswers? && r.steps[k].p == p && r.steps[k].code == code;
    assert k < n + 1;
  }

  // Steps of others keep what is known of a call.
  lemma OthersKeep(r: Run, n: nat, p: nat)
    requires ValidRun(r) && n < |r.steps| && p < |r.states[n].calls| && CallOk(r, n, p)
    requires r.steps[n].Arrive? || r.steps[n].p != p
    ensures p < |r.states[n + 1].calls| && CallOk(r, n + 1, p)
  {
    var s, c := r.states[n], r.states[n].calls[p];
    assert StepAt(r, n);
    assert r.states[n + 1].calls[p] == c && s.merchants <= r.states[n + 1].merchants;
    assert !LooksUp(r, p, n);
    match c.pc {
      case AskLegacy => LookedUpStays(r, n, p, c.ref.code, false);
      case Create(code, _) =>
        LookedUpStays(r, n, p, c.ref.code, false);
        ToldStays(r, n, p, code);
      case Reload(code) =>
        LookedUpStays(r, n, p, c.ref.code, false);
        ToldStays(r, n, p, code);
      case Done(Resolved(m)) =>
        if c.ref.ByCode? {
          if LookedUp(r, n, p, c.ref.code, true) && s.merchants[m].code == c.ref.code {
            LookedUpStays(r, n, p, c.ref.code, true);
          } else {
            LookedUpStays(r, n, p, c.ref.code, false);
            ToldStays(r, n, p, s.merchants[m].code);
          }
        }
      case _ =>
    }
  }

  // The lookup itself: the first and only one of its call.
  lemma LookupOk(r: Run, n: nat)
    requires ValidRun(r) && n < |r.steps| && !r.steps[n].Arrive?
    requires r.steps[n].p < |r.states[n].calls| && r.states[n].calls[r.steps[n].p].pc.FindByCode?
    requires CallOk(r, n, r.steps[n].p)
    ensures r.steps[n].p < |r.states[n + 1].calls| && CallOk(r, n + 1, r.steps[n].p)
  {
    var s, p := r.states[n], r.steps[n].p;
    assert StepAt(r, n);
    if r.steps[n].ok {
      assert LooksUp(r, p, n);
      assert n < n + 1 && LookedUp(r, n + 1, p, s.calls[p].ref.code, HasCode(s, s.calls[p].ref.code));
    }
  }

  lemma AfterLookupOk(r: Run, n: nat)
    requires ValidRun(r) && n < |r.steps| && !r.steps[n].Arrive? && r.steps[n].p < |r.states[n].calls|
    requires var pc := r.states[n].calls[r.steps[n].p].pc; pc.AskLegacy? || pc.Create? || pc.Reload?
    requires CallOk(r, n, r.steps[n].p)
    ensures r.steps[n].p < |r.states[n + 1].calls| && CallOk(r, n + 1, r.steps[n].p)
  {
    var s, p, step := r.states[n], r.steps[n].p, r.steps[n];
    assert StepAt(r, n);
    LookedUpStays(r, n, p, s.calls[p].ref.code, false);
    if step.LegacyAnswers? {
      assert n < n + 1 && Told(r, n + 1, p, step.code);
    } else if !s.calls[p].pc.AskLegacy? {
      ToldStays(r, n, p, s.calls[p].pc.code);
    }
  }

  lemma ActorKeeps(r: Run, n: nat)
    requires ValidRun(r) && n < |r.steps| && !r.steps[n].Arrive? && r.steps[n].p < |r.states[n].calls|
    requires CallOk(r, n, r.steps[n].p)
    ensures r.steps[n].p < |r.states[n + 1].calls| && CallOk(r, n + 1, r.steps[n].p)
  {
    assert StepAt(r, n);
    match r.states[n].calls[r.steps[n].p].pc {
      case FindById(_) =>
      case FindByCode(_) => LookupOk(r, n);
      case _ => AfterLookupOk(r, n);
    }
  }

  // Calls and rows stay.
  lemma {:induction false} RunGrows(r: Run, i: nat, n: nat)
    requires ValidRun(r) && i <= n < |r.states|
    ensures |r.states[i].calls| <= |r.states[n].calls| && r.states[i].merchants <= r.states[n].merchants
    decreases n
  {
    if i < n {
      RunGrows(r, i, n - 1);
      assert StepAt(r, n - 1);
    }
  }

  lemma ArrivalOk(r: Run, n: nat)
    requires ValidRun(r) && n < |r.steps| && r.steps[n].Arrive?
    ensures |r.states[n + 1].calls| == |r.states[n].calls| + 1 && CallOk(r, n + 1, |r.states[n].calls|)
  {
    var p := |r.states[n].calls|;
    assert StepAt(r, n);
    forall i: nat | i < n + 1 ensures !LooksUp(r, p, i) {
      if i <= n {
        RunGrows(r, i, n);
      }
    }
  }

  lemma {:induction false} RunKeeps(r: Run, n: nat)
    requires ValidRun(r) && n < |r.states|
    ensures CodesUnique(r.states[n])
    ensures forall p :: 0 <= p < |r.states[n].calls| ==> CallOk(r, n, p)
    decreases n
  {
    if n > 0 {
      var k := n - 1;
      RunKeeps(r, k);
      assert StepAt(r, k);
      forall p | 0 <= p < |r.states[n].calls| ensures CallOk(r, n, p) {
        if p == |r.states[k].calls| {
          ArrivalOk(r, k);
        } else if !r.steps[k].Arrive? && p == r.steps[k].p {
          ActorKeeps(r, k);
        } else {
          OthersKeep(r, k, p);
        }
      }
    }
  }

  /******* What a call returns *******/

  // Call p was given a code and has returned a merchant.
  predicate Succeeded(s: State, p: nat) {
    p < |s.calls| && s.calls[p].ref.ByCode? && s.calls[p].pc.Done? && s.calls[p].pc.result.Resolved?
  }

  function MerchantOf(s: State, p: nat): nat
    requires Succeeded(s, p)
  {
    s.calls[p].pc.result.merchant
  }

  function RefOf(s: State, p: nat): string
    requires Succeeded(s, p)
  {
    s.calls[p].ref.code
  }

  // A successful call by code has looked its reference up once. It returns the
  // row coded as the reference if there was one at that moment, and otherwise
  // the row coded as legacy said, even when that code differs.
  lemma ResolvedMeaning(r: Run, p: nat)
    requires ValidRun(r) && Succeeded(Last(r), p)
    ensures CodesUnique(Last(r)) && MerchantOf(Last(r), p) < |Last(r).merchants|
    ensures exists i: nat :: LooksUp(r, p, i)
    ensures forall i: nat :: LooksUp(r, p, i) ==>
              var code := Last(r).merchants[MerchantOf(Last(r), p)].code;
              if RowAt(r, i, RefOf(Last(r), p)) then code == RefOf(Last(r), p) else Told(r, |r.steps|, p, code)
  {
    RunKeeps(r, |r.steps|);
    assert CallOk(r, |r.steps|, p);
  }

  // Legacy gave both calls the same code, if they asked.
  ghost predicate SameAnswer(r: Run, p: nat, q: nat, answer: string) {
    forall code :: Told(r, |r.steps|, p, code) || Told(r, |r.steps|, q, code) ==> code == answer
  }

  // Two successful calls with the same reference and the same legacy answer
  // return one merchant if and only if that answer is the reference itself, or
  // the reference's own row was there for both lookups or for neither.
  lemma RepeatedCallsAgree(r: Run, p: nat, q: nat, i: nat, j: nat, answer: string)
    requires ValidRun(r) && Succeeded(Last(r), p) && Succeeded(Last(r), q) && RefOf(Last(r), p) == RefOf(Last(r), q)
    requires LooksUp(r, p, i) && LooksUp(r, q, j) && SameAnswer(r, p, q, answer)
    ensures
      var ref := RefOf(Last(r), p);
      MerchantOf(Last(r), p) == MerchantOf(Last(r), q) <==> answer == ref || (RowAt(r, i, ref) <==> RowAt(r, j, ref))
  {
    ResolvedMeaning(r, p);
    ResolvedMeaning(r, q);
  }

  // Rows stay, so the calls differ exactly when the reference's own row
  // appeared between the two lookups and legacy files it under another code.
  lemma RepeatedCallsDiffer(r: Run, p: nat, q: nat, i: nat, j: nat, answer: string)
    requires ValidRun(r) && Succeeded(Last(r), p) && Succeeded(Last(r), q) && RefOf(Last(r), p) == RefOf(Last(r), q)
    requires LooksUp(r, p, i) && LooksUp(r, q, j) && i <= j && SameAnswer(r, p, q, answer)
    ensures
      var ref := RefOf(Last(r), p);
      MerchantOf(Last(r), p) != MerchantOf(Last(r), q) <==> answer != ref && !RowAt(r, i, ref) && RowAt(r, j, ref)
  {
    RepeatedCallsAgree(r, p, q, i, j, answer);
    RunGrows(r, i, j);
    var ref := RefOf(Last(r), p);
    if RowAt(r, i, ref) {
      var m :| 0 <= m < |r.states[i].merchants| && r.states[i].merchants[m].code == ref;
      assert r.states[j].merchants[m].code == ref;
    }
  }

  /******* Why a call answers what it answers *******/

  // The step with which call p's answer is decided.
  predicate Decides(s: State, step: Step, p: nat, result: Result) {
    if p >= |s.calls| then p == |s.calls| && step == Arrive(Empty) && result == MerchantNotFound
    else
      var pc := s.calls[p].pc;
      match result
      case Resolved(m) =>
        && step == Query(p, true)
        && (|| (pc.FindById? && m == pc.id && m < |s.merchants|)
            || ((pc.FindByCode? || pc.Reload?) && m < |s.merchants| && s.merchants[m].code == pc.code)
            || (pc.Create? && m == |s.merchants| && forall k :: 0 <= k < |s.merchants| ==> s.merchants[k].code != pc.code))
      case MerchantNotFound =>
        || (pc.AskLegacy? && step == LegacyDenies(p))
        || (pc.FindById? && step == Query(p, true) && pc.id >= |s.merchants|)
      case Error =>
        || (step == Query(p, false) && !pc.Create? && !pc.Done?)
        || (step == Query(p, true) && pc.Reload? && forall k :: 0 <= k < |s.merchants| ==> s.merchants[k].code != pc.code)
  }

  predicate HasAnswer(s: State, p: nat, result: Result) { p < |s.calls| && s.calls[p].pc == Done(result) }

  lemma CodeAtUnique(s: State, code: string, m: nat)
    requires CodesUnique(s) && m < |s.merchants| && s.merchants[m].code == code
    ensures HasCode(s, code) && CodeAt(s.merchants, code) == m
  {
    assert HasCode(s, code);
    var k := CodeAt(s.merchants, code);
    assert k == m || k < m || m < k;
  }

  lemma StepAnswers(s: State, step: Step, p: nat, result: Result)
    requires CodesUnique(s) && Enabled(s, step)
    ensures HasAnswer(Apply(s, step), p, result) <==> HasAnswer(s, p, result) || Decides(s, step, p, result)
  {
    if p < |s.calls| && result.Resolved? && result.merchant < |s.merchants| {
      var pc := s.calls[p].pc;
      if (pc.FindByCode? || pc.Reload?) && s.merchants[result.merchant].code == pc.code {
        CodeAtUnique(s, pc.code, result.merchant);
      }
    }
  }

  // A call answers exactly what one step decided: a row it found, by identifier
  // or by code, or inserted; "not found" only for an empty reference, an
  // identifier without a row, or legacy's own denial.
  lemma {:induction false} AnswersExactly(r: Run, n: nat, p: nat, result: Result)
    requires ValidRun(r) && n < |r.states|
    ensures HasAnswer(r.states[n], p, result) <==> exists j :: 0 <= j < n && Decides(r.states[j], r.steps[j], p, result)
    decreases n
  {
    if n > 0 {
      assert StepAt(r, n - 1);
      AnswersExactly(r, n - 1, p, result);
      RunKeeps(r, n - 1);
      StepAnswers(r.states[n - 1], r.steps[n - 1], p, result);
      if Decides(r.states[n - 1], r.steps[n - 1], p, result) {
        assert n - 1 < n;
      }
    }
  }

  // Some call was told of this very merchant by legacy.
  ghost predicate Reported(r: Run, n: nat, m: Merchant) {
    exists k :: 0 <= k < n <= |r.steps| && r.steps[k].LegacyAnswers? && r.steps[k].code == m.code && r.steps[k].name == m.name
  }

  ghost predicate ToInsertReported(r: Run, n: nat, p: nat)
    requires n < |r.states| && p < |r.states[n].calls|
  {
    var pc := r.states[n].calls[p].pc;
    pc.Create? ==> Reported(r, n, Merchant(pc.code, pc.name))
  }

  lemma ReportedStays(r: Run, n: nat, m: Merchant)
    requires Reported(r, n, m) && n < |r.steps|
    ensures Reported(r, n + 1, m)
  {
    var k :| 0 <= k < n && r.steps[k].LegacyAnswers? && r.steps[k].code == m.code && r.steps[k].name == m.name;
    assert 0 <= k < n + 1;
  }

  // Every row has the code and the name that legacy gave for it.
  lemma {:induction false} RowsAreReported(r: Run, n: nat)
    requires ValidRun(r) && n < |r.states|
    ensures forall p :: 0 <= p < |r.states[n].calls| ==> ToInsertReported(r, n, p)
    ensures forall m :: 0 <= m < |r.states[n].merchants| ==> Reported(r, n, r.states[n].merchants[m])
    decreases n
  {
    if n > 0 {
      assert StepAt(r, n - 1);
      RowsAreReported(r, n - 1);
      var s, step := r.states[n - 1], r.steps[n - 1];
      forall p | 0 <= p < |r.states[n].calls| ensures ToInsertReported(r, n, p) {
        if p < |s.calls| {
          assert ToInsertReported(r, n - 1, p);
          if s.calls[p].pc.Create? {
            ReportedStays(r, n - 1, Merchant(s.calls[p].pc.code, s.calls[p].pc.name));
          }
        }
        if step.LegacyAnswers? {
          assert 0 <= n - 1 < n && Reported(r, n, Merchant(step.code, step.name));
        }
      }
      forall m | 0 <= m < |r.states[n].merchants| ensures Reported(r, n, r.states[n].merchants[m]) {
        if m < |s.merchants| {
          ReportedStays(r, n - 1, s.merchants[m]);
        } else {
          assert ToInsertReported(r, n - 1, step.p);
          ReportedStays(r, n - 1, Merchant(s.calls[step.p].pc.code, s.calls[step.p].pc.name));
        }
      }
    }
  }

  /******* A run in which they differ *******/

  lemma Extend(r: Run, step: Step) returns (more: Run)
    requires ValidRun(r) && Enabled(Last(r), step)
    ensures more == Run(r.states + [Apply(Last(r), step)], r.steps + [step]) && ValidRun(more)
  {
    more := Run(r.states + [Apply(Last(r), step)], r.steps + [step]);
    forall k | 0 <= k < |more.steps| ensures StepAt(more, k) {
      if k < |r.steps| {
        assert StepAt(r, k);
      }
    }
  }

  // A first call for ref, which legacy knows under code, creates the row of code.
  lemma ResolveThroughLegacy(r: Run, ref: string, code: string) returns (more: Run)
    requires ValidRun(r) && !HasCode(Last(r), ref) && !HasCode(Last(r), code)
    ensures ValidRun(more)
    ensures
      var s, p := Last(r), |Last(r).calls|;
      && Last(more) == State(s.merchants + [Merchant(code, "")], s.calls + [Resolve(ByCode(ref), Done(Resolved(|s.merchants|)))])
      && more.steps == r.steps + [Arrive(ByCode(ref)), Query(p, true), LegacyAnswers(p, code, ""), Query(p, true)]
  {
    var s, p := Last(r), |Last(r).calls|;
    more := Extend(r, Arrive(ByCode(ref)));
    assert Last(more) == State(s.merchants, s.calls + [Resolve(ByCode(ref), FindByCode(ref))]);
    more := Extend(more, Query(p, true));
    assert Last(more) == State(s.merchants, s.calls + [Resolve(ByCode(ref), AskLegacy)]);
    more := Extend(more, LegacyAnswers(p, code, ""));
    assert Last(more) == State(s.merchants, s.calls + [Resolve(ByCode(ref), Create(code, ""))]);
    more := Extend(more, Query(p, true));
  }

  lemma TwoCreated() returns (r: Run)
    ensures ValidRun(r)
    ensures Last(r) == State([Merchant("b", ""), Merchant("a", "")],
                             [Resolve(ByCode("a"), Done(Resolved(0))), Resolve(ByCode("c"), Done(Resolved(1)))])
    ensures r.steps == [Arrive(ByCode("a")), Query(0, true), LegacyAnswers(0, "b", ""), Query(0, true),
                        Arrive(ByCode("c")), Query(1, true), LegacyAnswers(1, "a", ""), Query(1, true)]
  {
    r := ResolveThroughLegacy(START, "a", "b");
    r := ResolveThroughLegacy(r, "c", "a");
  }

  // Another reference's legacy code creates the row of this reference between
  // two calls.
  lemma RepeatedCallsMayDiffer() returns (r: Run)
    ensures ValidRun(r)
    ensures
      var s := Last(r);
      && Succeeded(s, 0) && Succeeded(s, 2) && RefOf(s, 0) == RefOf(s, 2) == "a"
      && MerchantOf(s, 0) == 0 && MerchantOf(s, 2) == 1
    ensures SameAnswer(r, 0, 2, "b")
  {
    var two := TwoCreated();
    var found := Extend(two, Arrive(ByCode("a")));
    assert Last(found).merchants[1].code == "a" && HasCode(Last(found), "a");
    r := Extend(found, Query(2, true));
  }

  /******* The procedure itself, beside concurrent inserts *******/

  datatype LegacyReply = Record(code: string, name: string) | NoSuchMerchant | LegacyError

  class Catalogue {
    var merchants: seq<Merchant>

    function Snapshot(): State
      reads this
    {
      State(merchants, [])
    }

    method LetOthersInsert(inserts: seq<Merchant>)
      requires CodesUnique(Snapshot())
      modifies this
      ensures CodesUnique(Snapshot()) && old(merchants) <= merchants
      ensures forall m :: |old(merchants)| <= m < |merchants| ==> merchants[m] in inserts
    {
      for k := 0 to |inserts|
        invariant CodesUnique(Snapshot()) && old(merchants) <= merchants
        invariant forall m :: |old(merchants)| <= m < |merchants| ==> merchants[m] in inserts
      {
        if !HasCode(Snapshot(), inserts[k].code) {
          merchants := merchants + [inserts[k]];
        }
      }
    }

    // Insert the record legacy gave, or load the row that is already there.
    method CreateOrReload(code: string, name: string, ok: nat -> bool, others: nat -> seq<Merchant>) returns (result: Result)
      requires CodesUnique(Snapshot())
      modifies this
      ensures CodesUnique(Snapshot()) && old(merchants) <= merchants
      ensures result.Resolved? ==> result.merchant < |merchants| && merchants[result.merchant].code == code
      ensures !result.Resolved? ==> result == Error && (!ok(1) || !ok(2))
      ensures forall m :: |old(merchants)| <= m < |merchants| ==>
                merchants[m] == Merchant(code, name) || merchants[m] in others(1) || merchants[m] in others(2)
    {
      LetOthersInsert(others(1));
      if ok(1) && !HasCode(Snapshot(), code) {
        merchants := merchants + [Merchant(code, name)];
        return Resolved(|merchants| - 1);
      }
      ghost var lost := HasCode(Snapshot(), code);
      ghost var seen := merchants;
      LetOthersInsert(others(2));
      if ok(2) && HasCode(Snapshot(), code) {
        return Resolved(CodeAt(merchants, code));
      }
      if lost {
        var m :| 0 <= m < |seen| && seen[m].code == code;
        assert merchants[m].code == code;
      }
      return Error;
    }

    // resolveMerchant. ok(k) says whether its k-th query succeeds, others(k)
    // what is inserted just before it, and reply what legacy answers if asked.
    // seen is the table at the call's own lookup.
    method ResolveMerchant(ref: Ref, reply: LegacyReply, ok: nat -> bool, others: nat -> seq<Merchant>)
      returns (result: Result, ghost seen: seq<Merchant>)
      requires CodesUnique(Snapshot())
      modifies this
      ensures CodesUnique(Snapshot()) && old(merchants) <= merchants
      ensures result.Resolved? ==> result.merchant < |merchants| && !ref.Empty?
      ensures ref.ById? && ok(0) ==> result == if ref.id < |seen| then Resolved(ref.id) else MerchantNotFound
      ensures ref.ByCode? && ok(0) && HasCode(State(seen, []), ref.code) ==> result.Resolved?
      ensures old(merchants) <= seen <= merchants
      ensures result.Resolved? && ref.ByCode? ==>
                if HasCode(State(seen, []), ref.code) then merchants[result.merchant].code == ref.code
                else reply.Record? && merchants[result.merchant].code == reply.code
      ensures result.MerchantNotFound? ==>
                || ref.Empty?
                || (ref.ById? && ref.id >= |seen|)
                || (ref.ByCode? && reply.NoSuchMerchant? && !HasCode(State(seen, []), ref.code))
      ensures ref.Empty? ==> result == MerchantNotFound && merchants == old(merchants)
      ensures forall m :: |old(merchants)| <= m < |merchants| ==>
                || (reply.Record? && merchants[m] == Merchant(reply.code, reply.name))
                || merchants[m] in others(0) || merchants[m] in others(1) || merchants[m] in others(2)
      ensures result.Error? ==> reply.LegacyError? || !ok(0) || !ok(1) || !ok(2)
    {
      seen := merchants;
      if ref.Empty? {
        return MerchantNotFound, seen;
      }
      LetOthersInsert(others(0));
      seen := merchants;
      if !ok(0) {
        return Error, seen;
      }
      if ref.ById? {
        return if ref.id < |merchants| then Resolved(ref.id) else MerchantNotFound, seen;
      }
      if HasCode(Snapshot(), ref.code) {
        return Resolved(CodeAt(merchants, ref.code)), seen;
      }
      match reply {
        case NoSuchMerchant => return MerchantNotFound, seen;
        case LegacyError => return Error, seen;
        case Record(code, name) => result := CreateOrReload(code, name, ok, others);
      }
    }
  }
}
